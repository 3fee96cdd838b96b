/** What the account handlers promise, stated over their specification functions. */
module AuthProperties {
  import opened Common
  import opened Encoding
  import opened Jwt
  import TokenCookie
  import opened AuthController

  /** Two documents agree on everything but the given timestamps and tokens. */
  predicate SameExceptVerification(a: User, b: User)
  {
    a.(isVerified := b.isVerified, verificationToken := b.verificationToken,
       verificationTokenExpiresAt := b.verificationTokenExpiresAt) == b
  }

  predicate SameExceptReset(a: User, b: User)
  {
    a.(resetPasswordToken := b.resetPasswordToken, resetPasswordTokenExpiresAt := b.resetPasswordTokenExpiresAt) == b
  }

  predicate SameExceptPasswordAndReset(a: User, b: User)
  {
    a.(password := b.password, resetPasswordToken := b.resetPasswordToken,
       resetPasswordTokenExpiresAt := b.resetPasswordTokenExpiresAt) == b
  }

  /** Every document other than `id` is untouched and no document is added or removed. */
  predicate OnlyChanged(before: Table, after: Table, id: UserId)
  {
    after.nextId == before.nextId && after.users.Keys == before.users.Keys
    && forall other :: other in before.users && other != id ==> after.users[other] == before.users[other]
  }

  // ---------------------------------------------------------------- signup

  /** A missing field, or an email some stored user already has, gives 400 and stores nothing. */
  lemma SignupRejects(t: Table, email: string, name: string, password: string, salt: nat, draw: real,
                      env: Env, mail: Mail, nowMs: nat, holder: UserId)
    requires 0.0 <= draw < 1.0
    requires email == "" || name == "" || password == ""
             || (holder in t.users && holder < t.nextId && t.users[holder].email == email)
    ensures var o := SignupSpec(t, email, name, password, salt, draw, env, mail, nowMs);
            o.table == t && o.reply.status == 400 && !o.reply.success && o.reply.body == NoBody
            && o.reply.message == if email == "" || name == "" || password == "" then MissingFieldsMessage else UserExistsMessage
  {
  }

  /** A signup that passes the checks stores exactly one new document, at the next id, holding the
      bcrypt hash of the password (never the password itself), a six-digit code in [100000, 999999]
      that expires 24 hours later, the default role and `isVerified` false. It is then answered 201 with
      the new user and a session cookie for it, or 500 if the environment or the email fails, but the
      document stays stored either way. */
  lemma SignupStoresOneUser(t: Table, email: string, name: string, password: string, salt: nat, draw: real,
                            env: Env, mail: Mail, nowMs: nat)
    requires ValidTable(t) && 0.0 <= draw < 1.0
    requires email != "" && name != "" && password != ""
    requires forall id :: id in t.users ==> t.users[id].email != email
    ensures var o := SignupSpec(t, email, name, password, salt, draw, env, mail, nowMs);
            var id := t.nextId;
            && ValidTable(o.table)
            && o.table.nextId == t.nextId + 1 && o.table.users.Keys == t.users.Keys + {id} && id !in t.users
            && (forall other :: other in t.users ==> o.table.users[other] == t.users[other])
            && o.table.users[id].email == email && o.table.users[id].name == name
            && Compare(password, o.table.users[id].password)
            && o.table.users[id].role == "user" && !o.table.users[id].isVerified
            && o.table.users[id].verificationToken.Some?
            && |o.table.users[id].verificationToken.value| == 6
            && AllDigits(o.table.users[id].verificationToken.value)
            && 100000 <= DecimalValue(o.table.users[id].verificationToken.value) <= 999999
            && o.table.users[id].verificationTokenExpiresAt == Some(nowMs + 86_400_000)
            && o.table.users[id].resetPasswordToken.None? && o.table.users[id].lastLogin.None?
            && (o.reply.status == 201 <==> env.jwtSecret != "" && env.nodeEnv != "" && mail == Delivered)
            && (o.reply.status != 201 ==> o.reply.status == 500 && !o.reply.success && o.reply.body == NoBody)
            && (o.reply.status == 201 ==> o.reply.body == OneUser(Strip(id, o.table.users[id])))
            && (env.jwtSecret != "" && env.nodeEnv != "" ==>
                  o.reply.cookie.SetToken? && o.reply.cookie.cookie.value.Signed?
                  && o.reply.cookie.cookie.value.payload == Claims(IdText(id), "user"))
  {
    var o := SignupSpec(t, email, name, password, salt, draw, env, mail, nowMs);
    assert FindOne(t.users, ByEmail(email), t.nextId).None?;
    var user := o.table.users[t.nextId];
    assert ValidUser(user);
    forall a, b | a in o.table.users && b in o.table.users && o.table.users[a].email == o.table.users[b].email
      ensures a == b
    {
      if a != t.nextId && b != t.nextId {
        assert t.users[a].email == t.users[b].email;
      }
    }
  }

  /** An email failure after `save()` is reported as 500, yet the new user is stored just as on success. */
  lemma SignupMailFailureCommits(t: Table, email: string, name: string, password: string, salt: nat, draw: real,
                                 env: Env, nowMs: nat)
    requires 0.0 <= draw < 1.0
    requires email != "" && name != "" && password != ""
    requires FindOne(t.users, ByEmail(email), t.nextId).None?
    requires env.jwtSecret != "" && env.nodeEnv != ""
    ensures var failed := SignupSpec(t, email, name, password, salt, draw, env, Undelivered, nowMs);
            var delivered := SignupSpec(t, email, name, password, salt, draw, env, Delivered, nowMs);
            failed.table == delivered.table && failed.table != t
            && failed.reply.status == 500 && failed.reply.message == VerificationMailError
            && failed.reply.cookie == delivered.reply.cookie
  {
    var failed := SignupSpec(t, email, name, password, salt, draw, env, Undelivered, nowMs);
    assert failed.table.nextId == t.nextId + 1;
  }

  // ---------------------------------------------------------------- verify-email

  /** An empty code is refused before any lookup; a code no stored user holds unexpired is refused with
      one message, whether it is wrong or expired. Nothing is stored in either case. */
  lemma VerifyEmailRejects(t: Table, code: string, mail: Mail, nowMs: nat)
    requires code == "" || forall id :: id in t.users ==> !Matches(t.users[id], ByVerificationCode(code, nowMs))
    ensures VerifyEmailSpec(t, code, mail, nowMs)
            == Outcome(t, Fail(400, if code == "" then MissingCodeMessage else BadCodeMessage))
  {
  }

  /** The expiry comparison is strict: a code whose expiry equals the current time no longer matches. */
  lemma VerificationExpiryIsStrict(u: User, code: string, nowMs: nat)
    requires u.verificationToken == Some(code) && u.verificationTokenExpiresAt.Some?
    ensures Matches(u, ByVerificationCode(code, nowMs)) <==> nowMs < u.verificationTokenExpiresAt.value
    ensures !Matches(u, ByVerificationCode(code, u.verificationTokenExpiresAt.value))
  {
  }

  /** A matching code verifies the first user holding it: `isVerified` becomes true, both verification
      fields are cleared, nothing else in that document and no other document changes. */
  lemma VerifyEmailSucceeds(t: Table, code: string, mail: Mail, nowMs: nat)
    requires ValidTable(t) && code != ""
    requires FindOne(t.users, ByVerificationCode(code, nowMs), t.nextId).Some?
    ensures var id := FindOne(t.users, ByVerificationCode(code, nowMs), t.nextId).value;
            var o := VerifyEmailSpec(t, code, mail, nowMs);
            && ValidTable(o.table) && OnlyChanged(t, o.table, id)
            && o.table.users[id].isVerified
            && o.table.users[id].verificationToken.None? && o.table.users[id].verificationTokenExpiresAt.None?
            && SameExceptVerification(t.users[id], o.table.users[id])
            && (o.reply.status == 200 <==> mail == Delivered)
            && (mail == Delivered ==> o.reply.body == OneUser(Strip(id, o.table.users[id])))
            && (mail == Undelivered ==> o.reply == Fail(500, WelcomeMailError))
  {
    var id := FindOne(t.users, ByVerificationCode(code, nowMs), t.nextId).value;
    var o := VerifyEmailSpec(t, code, mail, nowMs);
    assert o.table.users == t.users[id := MarkVerified(t.users[id])];
    forall a, b | a in o.table.users && b in o.table.users && o.table.users[a].email == o.table.users[b].email
      ensures a == b
    {
      assert t.users[a].email == t.users[b].email;
    }
  }

  /** A code works once: replaying it, at any time, cannot touch the user it verified, and when no
      other user holds the same code the replay is refused and stores nothing. */
  lemma VerificationCodeSingleUse(t: Table, code: string, mail: Mail, nowMs: nat, mail2: Mail, laterMs: nat)
    requires ValidTable(t) && code != ""
    requires FindOne(t.users, ByVerificationCode(code, nowMs), t.nextId).Some?
    ensures var id := FindOne(t.users, ByVerificationCode(code, nowMs), t.nextId).value;
            var first := VerifyEmailSpec(t, code, mail, nowMs);
            var replay := VerifyEmailSpec(first.table, code, mail2, laterMs);
            && replay.table.users[id] == first.table.users[id]
            && ((forall other :: other in t.users && other != id ==> t.users[other].verificationToken != Some(code))
                ==> replay == Outcome(first.table, Fail(400, BadCodeMessage)))
  {
    var id := FindOne(t.users, ByVerificationCode(code, nowMs), t.nextId).value;
    VerifyEmailSucceeds(t, code, mail, nowMs);
    var first := VerifyEmailSpec(t, code, mail, nowMs);
    assert !Matches(first.table.users[id], ByVerificationCode(code, laterMs));
    var again := FindOne(first.table.users, ByVerificationCode(code, laterMs), first.table.nextId);
    if again.Some? {
      assert again.value != id;
    }
  }

  // ---------------------------------------------------------------- forgot-password

  /** An empty email is 400, an email nobody has is 404 "User not found."; nothing is stored. */
  lemma ForgotPasswordRejects(t: Table, email: string, bytes: seq<byte>, mail: Mail, nowMs: nat)
    requires |bytes| == 20
    requires email == "" || forall id :: id in t.users ==> t.users[id].email != email
    ensures ForgotPasswordSpec(t, email, bytes, mail, nowMs)
            == Outcome(t, if email == "" then Fail(400, MissingEmailMessage) else Fail(404, UserNotFoundMessage))
  {
  }

  /** For a known email, the user's reset token becomes the 40 lowercase hex digits of the 20 random
      bytes (section 8 of RFC 4648, decoding back to the same bytes), expiring one hour later; nothing
      else changes. The token never travels in the reply, and an email failure still commits it. */
  lemma ForgotPasswordIssuesToken(t: Table, email: string, bytes: seq<byte>, mail: Mail, nowMs: nat, id: UserId)
    requires ValidTable(t) && |bytes| == 20 && email != ""
    requires id in t.users && t.users[id].email == email
    ensures var o := ForgotPasswordSpec(t, email, bytes, mail, nowMs);
            && ValidTable(o.table) && OnlyChanged(t, o.table, id)
            && SameExceptReset(t.users[id], o.table.users[id])
            && o.table.users[id].resetPasswordToken.Some?
            && |o.table.users[id].resetPasswordToken.value| == 40
            && (forall i :: 0 <= i < 40 ==> IsLowerHex(o.table.users[id].resetPasswordToken.value[i]))
            && HexDecode(o.table.users[id].resetPasswordToken.value) == bytes
            && o.table.users[id].resetPasswordTokenExpiresAt == Some(nowMs + 3_600_000)
            && o.reply.body == NoBody && o.reply.cookie == KeepCookie
            && o.reply == (if mail == Delivered then Reply(200, true, ResetLinkSentMessage, NoBody, KeepCookie)
                           else Fail(500, ResetMailError))
  {
    assert FindOne(t.users, ByEmail(email), t.nextId) == Some(id);
    var o := ForgotPasswordSpec(t, email, bytes, mail, nowMs);
    forall a, b | a in o.table.users && b in o.table.users && o.table.users[a].email == o.table.users[b].email
      ensures a == b
    {
      assert t.users[a].email == t.users[b].email;
    }
  }

  // ---------------------------------------------------------------- reset-password

  /** An empty password is refused before any lookup; a token no user holds unexpired is refused with
      one message. Nothing is stored in either case. */
  lemma ResetPasswordRejects(t: Table, token: string, password: string, salt: nat, successMail: Option<string>, nowMs: nat)
    requires password == "" || forall id :: id in t.users ==> !Matches(t.users[id], ByResetToken(token, nowMs))
    ensures ResetPasswordSpec(t, token, password, salt, successMail, nowMs)
            == Outcome(t, Fail(400, if password == "" then MissingPasswordMessage else BadResetTokenMessage))
  {
  }

  /** A matching token replaces the password hash by the hash of the new password and clears both
      reset fields; nothing else in that document and no other document changes. */
  lemma ResetPasswordSucceeds(t: Table, token: string, password: string, salt: nat, successMail: Option<string>, nowMs: nat)
    requires ValidTable(t) && password != ""
    requires FindOne(t.users, ByResetToken(token, nowMs), t.nextId).Some?
    ensures var id := FindOne(t.users, ByResetToken(token, nowMs), t.nextId).value;
            var o := ResetPasswordSpec(t, token, password, salt, successMail, nowMs);
            && ValidTable(o.table) && OnlyChanged(t, o.table, id)
            && Compare(password, o.table.users[id].password) && o.table.users[id].password.salt == salt
            && o.table.users[id].resetPasswordToken.None? && o.table.users[id].resetPasswordTokenExpiresAt.None?
            && SameExceptPasswordAndReset(t.users[id], o.table.users[id])
            && o.reply.body == NoBody
            && (o.reply.status == 200 <==> successMail.None?)
  {
    var id := FindOne(t.users, ByResetToken(token, nowMs), t.nextId).value;
    var o := ResetPasswordSpec(t, token, password, salt, successMail, nowMs);
    forall a, b | a in o.table.users && b in o.table.users && o.table.users[a].email == o.table.users[b].email
      ensures a == b
    {
      assert t.users[a].email == t.users[b].email;
    }
  }

  /** A reset token works at most once: the user it reset no longer matches it at any time. */
  lemma ResetTokenSingleUse(t: Table, token: string, password: string, salt: nat, successMail: Option<string>,
                            nowMs: nat, laterMs: nat)
    requires password != ""
    requires FindOne(t.users, ByResetToken(token, nowMs), t.nextId).Some?
    ensures var id := FindOne(t.users, ByResetToken(token, nowMs), t.nextId).value;
            !Matches(ResetPasswordSpec(t, token, password, salt, successMail, nowMs).table.users[id], ByResetToken(token, laterMs))
  {
  }

  /** The flow end to end: after forgot-password issued a token, reset-password with that token succeeds
      at every moment strictly before the hour is up and is refused from that moment on, provided no
      other user holds the same token. */
  lemma ForgotThenReset(t: Table, email: string, bytes: seq<byte>, mail: Mail, issuedMs: nat, id: UserId,
                        password: string, salt: nat, nowMs: nat)
    requires ValidTable(t) && |bytes| == 20 && email != "" && password != ""
    requires id in t.users && t.users[id].email == email
    requires forall other :: other in t.users && other != id ==> t.users[other].resetPasswordToken != Some(ResetToken(bytes))
    ensures var issued := ForgotPasswordSpec(t, email, bytes, mail, issuedMs).table;
            var o := ResetPasswordSpec(issued, ResetToken(bytes), password, salt, None, nowMs);
            if nowMs < issuedMs + 3_600_000 then
              o.reply == Reply(200, true, ResetDoneMessage, NoBody, KeepCookie) && Compare(password, o.table.users[id].password)
            else
              o == Outcome(issued, Fail(400, BadResetTokenMessage))
  {
    ForgotPasswordIssuesToken(t, email, bytes, mail, issuedMs, id);
    var issued := ForgotPasswordSpec(t, email, bytes, mail, issuedMs).table;
    var token := ResetToken(bytes);
    var found := FindOne(issued.users, ByResetToken(token, nowMs), issued.nextId);
    if found.Some? {
      assert found.value == id;
    }
  }

  // ---------------------------------------------------------------- login

  /** An unknown email and a wrong password get the identical reply, and nothing is stored. */
  lemma LoginFailuresIndistinguishable(t: Table, email: string, password: string, env: Env, nowMs: nat)
    requires email != "" && password != ""
    requires FindOne(t.users, ByEmail(email), t.nextId).None?
             || !Compare(password, t.users[FindOne(t.users, ByEmail(email), t.nextId).value].password)
    ensures LoginSpec(t, email, password, env, nowMs) == Outcome(t, Fail(400, InvalidCredentialsMessage))
  {
  }

  /** A missing field is 400 with its own message, and nothing is stored. */
  lemma LoginRequiresBothFields(t: Table, email: string, password: string, env: Env, nowMs: nat)
    requires email == "" || password == ""
    ensures LoginSpec(t, email, password, env, nowMs) == Outcome(t, Fail(400, MissingFieldsMessage))
  {
  }

  /** With the right password, only `lastLogin` of that user changes, to the current time, and the
      reply carries the user and a cookie whose claims are that user's id and role; if the environment
      lacks a variable the reply is 500 and nothing changes. */
  lemma LoginSucceeds(t: Table, email: string, password: string, env: Env, nowMs: nat, id: UserId)
    requires ValidTable(t) && email != "" && password != ""
    requires id in t.users && t.users[id].email == email && Compare(password, t.users[id].password)
    ensures var o := LoginSpec(t, email, password, env, nowMs);
            if env.jwtSecret == "" || env.nodeEnv == "" then
              o == Outcome(t, Fail(500, TokenCookie.EnvMissingMessage))
            else
              && ValidTable(o.table) && OnlyChanged(t, o.table, id)
              && o.table.users[id] == t.users[id].(lastLogin := Some(nowMs))
              && o.reply.status == 200 && o.reply.body == OneUser(Strip(id, o.table.users[id]))
              && o.reply.cookie.SetToken?
              && o.reply.cookie.cookie == TokenCookie.GenerateTokenAndSetCookie(env, IdText(id), t.users[id].role, nowMs).cookie
  {
    assert FindOne(t.users, ByEmail(email), t.nextId) == Some(id);
    var o := LoginSpec(t, email, password, env, nowMs);
    forall a, b | a in o.table.users && b in o.table.users && o.table.users[a].email == o.table.users[b].email
      ensures a == b
    {
      assert t.users[a].email == t.users[b].email;
    }
  }

  // ---------------------------------------------------------------- check-auth and listings

  /** checkAuth resolves the id text the session carries: the stored user without password, or 404
      once the document is gone. */
  lemma CheckAuthResolvesIssuedId(t: Table, id: UserId)
    ensures CheckAuthSpec(t, IdText(id))
            == if id in t.users then Reply(200, true, "", OneUser(Strip(id, t.users[id])), KeepCookie)
               else Fail(404, UserNotFoundMessage)
  {
    ParseDecimalRoundTrip(id);
  }

  /** Logging in and then presenting the cookie within its lifetime reaches checkAuth with claims that
      resolve to the same user, with the same email and role. */
  lemma LoginThenCheckAuth(t: Table, email: string, password: string, env: Env, loginMs: nat, nowMs: nat, id: UserId)
    requires ValidTable(t) && email != "" && password != "" && env.jwtSecret != "" && env.nodeEnv != ""
    requires id in t.users && t.users[id].email == email && Compare(password, t.users[id].password)
    requires loginMs <= nowMs && nowMs + 1000 <= loginMs + TokenCookie.MaxAgeMs
    ensures var o := LoginSpec(t, email, password, env, loginMs);
            o.reply.cookie.SetToken?
            && Verify(o.reply.cookie.cookie.value, env.jwtSecret, nowMs) == Decoded(Claims(IdText(id), t.users[id].role))
            && CheckAuthSpec(o.table, IdText(id)).body == OneUser(Strip(id, o.table.users[id]))
            && o.table.users[id].email == email && o.table.users[id].role == t.users[id].role
  {
    LoginSucceeds(t, email, password, env, loginMs, id);
    TokenCookie.IssuedCookieDecodes(env, IdText(id), t.users[id].role, loginMs, nowMs);
    var o := LoginSpec(t, email, password, env, loginMs);
    CheckAuthResolvesIssuedId(o.table, id);
  }

  /** `find()` misses nobody: every stored user (every admin, for totalAdmins) is in the listing. */
  lemma {:induction false} ListedComplete(users: map<UserId, User>, n: nat, adminsOnly: bool, id: UserId)
    requires id < n && id in users && (adminsOnly ==> users[id].role == "admin")
    ensures Strip(id, users[id]) in Listed(users, n, adminsOnly)
  {
    if id < n - 1 {
      ListedComplete(users, n - 1, adminsOnly, id);
    }
  }

  /** The listings: each count equals the length of its list, the lists hold users without passwords in
      insertion order, and totalAdmins holds exactly the stored users whose role is "admin". */
  lemma ListingsExact(t: Table, adminsOnly: bool, id: UserId)
    requires ValidTable(t)
    ensures ListingSpec(t, adminsOnly).body.UserList?
    ensures ListingSpec(t, adminsOnly).body.count == |ListingSpec(t, adminsOnly).body.users|
    ensures id in t.users ==>
              (Strip(id, t.users[id]) in ListingSpec(t, adminsOnly).body.users <==> !adminsOnly || t.users[id].role == "admin")
  {
    if id in t.users && (!adminsOnly || t.users[id].role == "admin") {
      ListedComplete(t.users, t.nextId, adminsOnly, id);
    }
  }

  /** Only `password` is removed: any signed-in user's listing shows every other user's pending
      verification code and reset token. */
  lemma ListingShowsResetTokens(t: Table, id: UserId)
    requires ValidTable(t) && id in t.users
    ensures exists p :: p in ListingSpec(t, false).body.users && p.id == id
                        && p.resetPasswordToken == t.users[id].resetPasswordToken
                        && p.verificationToken == t.users[id].verificationToken
  {
    ListedComplete(t.users, t.nextId, false, id);
  }
}
