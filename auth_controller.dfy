/** The account handlers of auth.controller.ts over an in-memory user collection.
    Each handler is specified by a function from the collection before the request to the
    collection after it and the reply; the class `UserStore` carries the collection as fields and
    performs each handler step by step, as the controller does on the fetched Mongoose document.
    Time, the bcrypt salt, `Math.random()`, `crypto.randomBytes(20)` and the outcome of each email
    dispatch are inputs. */
module AuthController {
  import opened Common
  import opened Encoding
  import opened Jwt
  import TokenCookie

  type UserId = nat

  /** A bcrypt hash, idealised: it records the secret it was computed from and its salt. */
  datatype Hash = Bcrypt(secret: string, salt: nat)

  /** `bcryptjs.compare`: a password matches the hash computed from it and nothing else. */
  predicate Compare(password: string, h: Hash)
  {
    h.secret == password
  }

  /** A user document. A token and its expiry are both set or both unset (`None` is `undefined`). */
  datatype User = User(
    name: string,
    email: string,
    password: Hash,
    role: string,
    isVerified: bool,
    verificationToken: Option<string>,
    verificationTokenExpiresAt: Option<nat>,
    resetPasswordToken: Option<string>,
    resetPasswordTokenExpiresAt: Option<nat>,
    lastLogin: Option<nat>)

  /** A user as sent to a client: every field of the document except `password`. */
  datatype PublicUser = PublicUser(
    id: UserId,
    name: string,
    email: string,
    role: string,
    isVerified: bool,
    verificationToken: Option<string>,
    verificationTokenExpiresAt: Option<nat>,
    resetPasswordToken: Option<string>,
    resetPasswordTokenExpiresAt: Option<nat>,
    lastLogin: Option<nat>)

  /** `user.toObject()` followed by `delete ….password`. */
  function Strip(id: UserId, u: User): PublicUser
  {
    PublicUser(id, u.name, u.email, u.role, u.isVerified, u.verificationToken, u.verificationTokenExpiresAt,
               u.resetPasswordToken, u.resetPasswordTokenExpiresAt, u.lastLogin)
  }

  /** The users collection: documents by id, and the id the next insertion receives
      (ids grow with insertion order, which is also the order `find()` returns them in). */
  datatype Table = Table(users: map<UserId, User>, nextId: UserId)

  ghost predicate ValidTable(t: Table)
  {
    (forall id :: id in t.users ==> id < t.nextId)
    && (forall a, b :: a in t.users && b in t.users && t.users[a].email == t.users[b].email ==> a == b)
    && (forall id :: id in t.users ==> ValidUser(t.users[id]))
  }

  predicate ValidUser(u: User)
  {
    u.email != ""
    && (u.verificationToken.Some? <==> u.verificationTokenExpiresAt.Some?)
    && (u.resetPasswordToken.Some? <==> u.resetPasswordTokenExpiresAt.Some?)
  }

  /** The three `findOne` filters the controller uses. Expiries are compared with `$gt`. */
  datatype Query =
    | ByEmail(email: string)
    | ByVerificationCode(code: string, nowMs: nat)
    | ByResetToken(token: string, nowMs: nat)

  predicate Matches(u: User, q: Query)
  {
    match q
    case ByEmail(email) => u.email == email
    case ByVerificationCode(code, nowMs) =>
      u.verificationToken == Some(code) && u.verificationTokenExpiresAt.Some? && u.verificationTokenExpiresAt.value > nowMs
    case ByResetToken(token, nowMs) =>
      u.resetPasswordToken == Some(token) && u.resetPasswordTokenExpiresAt.Some? && u.resetPasswordTokenExpiresAt.value > nowMs
  }

  /** `findOne`: the first matching document in insertion order among the ids below `n`. */
  function FindOne(users: map<UserId, User>, q: Query, n: nat): (r: Option<UserId>)
    ensures r.Some? ==> r.value < n && r.value in users && Matches(users[r.value], q)
    ensures r.Some? ==> forall id :: id < r.value && id in users ==> !Matches(users[id], q)
    ensures r.None? ==> forall id :: id < n && id in users ==> !Matches(users[id], q)
  {
    if n == 0 then None
    else
      match FindOne(users, q, n - 1)
      case Some(id) => Some(id)
      case None => if n - 1 in users && Matches(users[n - 1], q) then Some(n - 1) else None
  }

  /** `find()` with an optional role filter, without passwords, in insertion order. */
  function Listed(users: map<UserId, User>, n: nat, adminsOnly: bool): (r: seq<PublicUser>)
    ensures forall i :: 0 <= i < |r| ==> r[i].id < n && r[i].id in users && r[i] == Strip(r[i].id, users[r[i].id])
    ensures forall i :: 0 <= i < |r| ==> adminsOnly ==> r[i].role == "admin"
    ensures forall i, j :: 0 <= i < j < |r| ==> r[i].id < r[j].id
  {
    if n == 0 then []
    else
      var rest := Listed(users, n - 1, adminsOnly);
      if n - 1 in users && (!adminsOnly || users[n - 1].role == "admin") then rest + [Strip(n - 1, users[n - 1])]
      else rest
  }

  /** The body of a reply. */
  datatype Body = NoBody | OneUser(user: PublicUser) | UserList(count: nat, users: seq<PublicUser>)

  /** What the reply does to the `token` cookie. */
  datatype CookieEffect = KeepCookie | SetToken(cookie: TokenCookie.SetCookie) | ClearToken(name: string)

  /** A JSON reply `{ success, message, ... }` with its status and cookie header. */
  datatype Reply = Reply(status: nat, success: bool, message: string, body: Body, cookie: CookieEffect)

  function Fail(status: nat, message: string): Reply
  {
    Reply(status, false, message, NoBody, KeepCookie)
  }

  /** The outcome of one email dispatch: delivered, or the send failed and the sender threw. */
  datatype Mail = Delivered | Undelivered

  /** The texts the three email senders throw when the provider reports an error. */
  const VerificationMailError := "Impossibile inviare l'email di verifica."
  const WelcomeMailError := "Impossibile inviare l'email di benvenuto."
  const ResetMailError := "Impossibile inviare l'email per resettare la password."

  const MissingFieldsMessage := "Please provide all the required fields!"
  const UserExistsMessage := "User already exists!"
  const SignupOkMessage := "User created successfully!"
  const MissingCodeMessage := "Please provide the verification code."
  const BadCodeMessage := "Invalid user or verification code expired."
  const VerifiedMessage := "Email verified successfully!"
  const MissingEmailMessage := "Please provide an email."
  const UserNotFoundMessage := "User not found."
  const ResetLinkSentMessage := "The password reset link has been sent to your email!"
  const MissingPasswordMessage := "Please provide a new password."
  const BadResetTokenMessage := "Invalid or expired reset password token."
  const ResetDoneMessage := "Password has been reset successfully."
  const InvalidCredentialsMessage := "Invalid credentials."
  const LoggedInMessage := "Logged in successfully!"
  const LoggedOutMessage := "Logget out successfully"

  const DayMs: nat := 24 * 60 * 60 * 1000
  const HourMs: nat := 1 * 60 * 60 * 1000

  /** The text form of a document id, as it travels in the JWT claims and in `req.userId`. */
  function IdText(id: UserId): string
  {
    NatToDecimal(id)
  }

  /** The error message `findById` raises for an id string that does not cast to an id. */
  function CastErrorMessage(value: string): string
  {
    "Cast to ObjectId failed for value \"" + value + "\" (type string) at path \"_id\" for model \"User\""
  }

  /** `Math.floor(100000 + Math.random() * 900000)` for a draw of `Math.random()`. */
  function CodeValue(draw: real): (v: int)
    requires 0.0 <= draw < 1.0
    ensures 100000 <= v <= 999999
  {
    (100000.0 + draw * 900000.0).Floor
  }

  /** `….toString()` of that value: always six decimal digits without a leading zero. */
  function VerificationCode(draw: real): (code: string)
    requires 0.0 <= draw < 1.0
    ensures |code| == 6 && AllDigits(code) && code[0] != '0'
    ensures 100000 <= DecimalValue(code) <= 999999 && DecimalValue(code) == CodeValue(draw)
  {
    var v := CodeValue(draw);
    assert Pow10(5) == 100000 by {
      assert Pow10(2) == 100;
      assert Pow10(4) == 10000;
    }
    DecimalLength(v, 6);
    DecimalRoundTrip(v);
    NatToDecimal(v)
  }

  /** `crypto.randomBytes(20).toString("hex")`. */
  function ResetToken(bytes: seq<byte>): (token: string)
    requires |bytes| == 20
    ensures |token| == 40 && forall i :: 0 <= i < |token| ==> IsLowerHex(token[i])
    ensures HexDecode(token) == bytes
  {
    HexRoundTrip(bytes);
    HexEncode(bytes)
  }

  /** The document `new User({...})` creates: role and isVerified take their schema defaults. */
  function NewUser(email: string, name: string, password: Hash, code: string, expiresAt: nat): User
  {
    User(name, email, password, "user", false, Some(code), Some(expiresAt), None, None, None)
  }

  /** The result of a handler: the collection afterwards and the reply. */
  datatype Outcome = Outcome(table: Table, reply: Reply)

  /** signupFunction. */
  function SignupSpec(t: Table, email: string, name: string, password: string, salt: nat, draw: real,
                      env: Env, mail: Mail, nowMs: nat): Outcome
    requires 0.0 <= draw < 1.0
  {
    if email == "" || name == "" || password == "" then Outcome(t, Fail(400, MissingFieldsMessage))
    else if FindOne(t.users, ByEmail(email), t.nextId).Some? then Outcome(t, Fail(400, UserExistsMessage))
    else
      var user := NewUser(email, name, Bcrypt(password, salt), VerificationCode(draw), nowMs + DayMs);
      var saved := Table(t.users[t.nextId := user], t.nextId + 1);
      match TokenCookie.GenerateTokenAndSetCookie(env, IdText(t.nextId), user.role, nowMs)
      case EnvMissing(message) => Outcome(saved, Fail(500, message))
      case Issued(cookie, _) =>
        if mail.Undelivered? then Outcome(saved, Reply(500, false, VerificationMailError, NoBody, SetToken(cookie)))
        else Outcome(saved, Reply(201, true, SignupOkMessage, OneUser(Strip(t.nextId, user)), SetToken(cookie)))
  }

  /** What verifyEmail does to the matched document. */
  function MarkVerified(u: User): User
  {
    u.(isVerified := true, verificationToken := None, verificationTokenExpiresAt := None)
  }

  /** verifyEmail. */
  function VerifyEmailSpec(t: Table, code: string, mail: Mail, nowMs: nat): Outcome
  {
    if code == "" then Outcome(t, Fail(400, MissingCodeMessage))
    else
      match FindOne(t.users, ByVerificationCode(code, nowMs), t.nextId)
      case None => Outcome(t, Fail(400, BadCodeMessage))
      case Some(id) =>
        var user := MarkVerified(t.users[id]);
        var saved := t.(users := t.users[id := user]);
        if mail.Undelivered? then Outcome(saved, Fail(500, WelcomeMailError))
        else Outcome(saved, Reply(200, true, VerifiedMessage, OneUser(Strip(id, user)), KeepCookie))
  }

  /** What forgotPassword does to the matched document. */
  function WithResetToken(u: User, token: string, expiresAt: nat): User
  {
    u.(resetPasswordToken := Some(token), resetPasswordTokenExpiresAt := Some(expiresAt))
  }

  /** forgotPassword. */
  function ForgotPasswordSpec(t: Table, email: string, bytes: seq<byte>, mail: Mail, nowMs: nat): Outcome
    requires |bytes| == 20
  {
    if email == "" then Outcome(t, Fail(400, MissingEmailMessage))
    else
      match FindOne(t.users, ByEmail(email), t.nextId)
      case None => Outcome(t, Fail(404, UserNotFoundMessage))
      case Some(id) =>
        var saved := t.(users := t.users[id := WithResetToken(t.users[id], ResetToken(bytes), nowMs + HourMs)]);
        if mail.Undelivered? then Outcome(saved, Fail(500, ResetMailError))
        else Outcome(saved, Reply(200, true, ResetLinkSentMessage, NoBody, KeepCookie))
  }

  /** What resetPassword does to the matched document. */
  function WithNewPassword(u: User, h: Hash): User
  {
    u.(password := h, resetPasswordToken := None, resetPasswordTokenExpiresAt := None)
  }

  /** resetPassword. The confirmation sender is not part of this model: `successMail` is `None` when it
      returns and `Some(message)` when it throws `message`. */
  function ResetPasswordSpec(t: Table, token: string, password: string, salt: nat, successMail: Option<string>,
                             nowMs: nat): Outcome
  {
    if password == "" then Outcome(t, Fail(400, MissingPasswordMessage))
    else
      match FindOne(t.users, ByResetToken(token, nowMs), t.nextId)
      case None => Outcome(t, Fail(400, BadResetTokenMessage))
      case Some(id) =>
        var saved := t.(users := t.users[id := WithNewPassword(t.users[id], Bcrypt(password, salt))]);
        if successMail.Some? then Outcome(saved, Fail(500, successMail.value))
        else Outcome(saved, Reply(200, true, ResetDoneMessage, NoBody, KeepCookie))
  }

  /** loginFunction. The cookie is issued before `lastLogin` is set, so a missing variable leaves the
      document as it was. */
  function LoginSpec(t: Table, email: string, password: string, env: Env, nowMs: nat): Outcome
  {
    if email == "" || password == "" then Outcome(t, Fail(400, MissingFieldsMessage))
    else
      match FindOne(t.users, ByEmail(email), t.nextId)
      case None => Outcome(t, Fail(400, InvalidCredentialsMessage))
      case Some(id) =>
        if !Compare(password, t.users[id].password) then Outcome(t, Fail(400, InvalidCredentialsMessage))
        else
          match TokenCookie.GenerateTokenAndSetCookie(env, IdText(id), t.users[id].role, nowMs)
          case EnvMissing(message) => Outcome(t, Fail(500, message))
          case Issued(cookie, _) =>
            var user := t.users[id].(lastLogin := Some(nowMs));
            Outcome(t.(users := t.users[id := user]),
                    Reply(200, true, LoggedInMessage, OneUser(Strip(id, user)), SetToken(cookie)))
  }

  /** logoutFunction: clears the cookie whatever the request carries. */
  function Logout(): (r: Reply)
    ensures r.status == 200 && r.success && r.body == NoBody
    ensures r.cookie == ClearToken(TokenCookie.CookieName)
  {
    Reply(200, true, LoggedOutMessage, NoBody, ClearToken(TokenCookie.CookieName))
  }

  /** checkAuth, given the `req.userId` verifyToken attached. */
  function CheckAuthSpec(t: Table, userId: string): Reply
  {
    match ParseDecimal(userId)
    case None => Fail(400, CastErrorMessage(userId))
    case Some(id) =>
      if id in t.users then Reply(200, true, "", OneUser(Strip(id, t.users[id])), KeepCookie)
      else Fail(404, UserNotFoundMessage)
  }

  /** totalUsers (`adminsOnly` false) and totalAdmins (`adminsOnly` true). The result of `find()` is
      always an array, so their 404 branches never run. */
  function ListingSpec(t: Table, adminsOnly: bool): Reply
  {
    var list := Listed(t.users, t.nextId, adminsOnly);
    Reply(200, true, "", UserList(|list|, list), KeepCookie)
  }

  // ---------------------------------------------------------------- the collection stays valid

  /** Storing a valid document under the next id keeps the collection valid when no stored user has its email. */
  lemma InsertKeepsValid(t: Table, u: User)
    requires ValidTable(t) && ValidUser(u) && FindOne(t.users, ByEmail(u.email), t.nextId).None?
    ensures t.nextId !in t.users
    ensures ValidTable(Table(t.users[t.nextId := u], t.nextId + 1))
  {
    var after := Table(t.users[t.nextId := u], t.nextId + 1);
    forall a, b | a in after.users && b in after.users && after.users[a].email == after.users[b].email
      ensures a == b
    {
      if a != t.nextId && b != t.nextId {
        assert t.users[a].email == t.users[b].email;
      }
    }
  }

  /** Replacing a stored document by a valid one with the same email keeps the collection valid. */
  lemma ReplaceKeepsValid(t: Table, id: UserId, u: User)
    requires ValidTable(t) && id in t.users && ValidUser(u) && u.email == t.users[id].email
    ensures ValidTable(t.(users := t.users[id := u]))
  {
    var after := t.(users := t.users[id := u]);
    forall a, b | a in after.users && b in after.users && after.users[a].email == after.users[b].email
      ensures a == b
    {
      assert t.users[a].email == t.users[b].email;
    }
  }

  lemma SignupKeepsValid(t: Table, email: string, name: string, password: string, salt: nat, draw: real,
                         env: Env, mail: Mail, nowMs: nat)
    requires ValidTable(t) && 0.0 <= draw < 1.0
    ensures ValidTable(SignupSpec(t, email, name, password, salt, draw, env, mail, nowMs).table)
  {
    if email != "" && name != "" && password != "" && FindOne(t.users, ByEmail(email), t.nextId).None? {
      InsertKeepsValid(t, NewUser(email, name, Bcrypt(password, salt), VerificationCode(draw), nowMs + DayMs));
    }
  }

  lemma VerifyEmailKeepsValid(t: Table, code: string, mail: Mail, nowMs: nat)
    requires ValidTable(t)
    ensures ValidTable(VerifyEmailSpec(t, code, mail, nowMs).table)
  {
    if code != "" && FindOne(t.users, ByVerificationCode(code, nowMs), t.nextId).Some? {
      var id := FindOne(t.users, ByVerificationCode(code, nowMs), t.nextId).value;
      ReplaceKeepsValid(t, id, MarkVerified(t.users[id]));
    }
  }

  lemma ForgotPasswordKeepsValid(t: Table, email: string, bytes: seq<byte>, mail: Mail, nowMs: nat)
    requires ValidTable(t) && |bytes| == 20
    ensures ValidTable(ForgotPasswordSpec(t, email, bytes, mail, nowMs).table)
  {
    if email != "" && FindOne(t.users, ByEmail(email), t.nextId).Some? {
      var id := FindOne(t.users, ByEmail(email), t.nextId).value;
      ReplaceKeepsValid(t, id, WithResetToken(t.users[id], ResetToken(bytes), nowMs + HourMs));
    }
  }

  lemma ResetPasswordKeepsValid(t: Table, token: string, password: string, salt: nat, successMail: Option<string>, nowMs: nat)
    requires ValidTable(t)
    ensures ValidTable(ResetPasswordSpec(t, token, password, salt, successMail, nowMs).table)
  {
    if password != "" && FindOne(t.users, ByResetToken(token, nowMs), t.nextId).Some? {
      var id := FindOne(t.users, ByResetToken(token, nowMs), t.nextId).value;
      ReplaceKeepsValid(t, id, WithNewPassword(t.users[id], Bcrypt(password, salt)));
    }
  }

  lemma LoginKeepsValid(t: Table, email: string, password: string, env: Env, nowMs: nat)
    requires ValidTable(t)
    ensures ValidTable(LoginSpec(t, email, password, env, nowMs).table)
  {
    if email != "" && password != "" && FindOne(t.users, ByEmail(email), t.nextId).Some? {
      var id := FindOne(t.users, ByEmail(email), t.nextId).value;
      ReplaceKeepsValid(t, id, t.users[id].(lastLogin := Some(nowMs)));
    }
  }

  /** The users collection as the handlers see it. */
  class UserStore {
    var users: map<UserId, User>
    var nextId: UserId

    function Snapshot(): Table
      reads this
    {
      Table(users, nextId)
    }

    ghost predicate Valid()
      reads this
    {
      ValidTable(Snapshot())
    }

    constructor ()
      ensures users == map[] && nextId == 0 && Valid()
    {
      users := map[];
      nextId := 0;
    }

    /** `new User(...)` followed by `save()`: the document gets the next id. */
    method Insert(u: User) returns (id: UserId)
      requires Valid() && ValidUser(u) && FindOne(users, ByEmail(u.email), nextId).None?
      modifies this
      ensures Valid()
      ensures id == old(nextId) && users == old(users)[id := u] && nextId == old(nextId) + 1
    {
      InsertKeepsValid(Snapshot(), u);
      id := nextId;
      users := users[id := u];
      nextId := nextId + 1;
    }

    method Signup(email: string, name: string, password: string, salt: nat, draw: real,
                  env: Env, mail: Mail, nowMs: nat) returns (reply: Reply)
      requires 0.0 <= draw < 1.0
      requires Valid()
      modifies this
      ensures Valid()
      ensures Outcome(Snapshot(), reply) == SignupSpec(old(Snapshot()), email, name, password, salt, draw, env, mail, nowMs)
    {
      SignupKeepsValid(Snapshot(), email, name, password, salt, draw, env, mail, nowMs);
      if email == "" || name == "" || password == "" {
        return Fail(400, MissingFieldsMessage);
      }
      var existing := FindOne(users, ByEmail(email), nextId);
      if existing.Some? {
        return Fail(400, UserExistsMessage);
      }
      var hashed := Bcrypt(password, salt);
      var code := VerificationCode(draw);
      var user := NewUser(email, name, hashed, code, nowMs + DayMs);
      var id := Insert(user);
      var issued := TokenCookie.GenerateTokenAndSetCookie(env, IdText(id), user.role, nowMs);
      if issued.EnvMissing? {
        return Fail(500, issued.message);
      }
      if mail.Undelivered? {
        return Reply(500, false, VerificationMailError, NoBody, SetToken(issued.cookie));
      }
      reply := Reply(201, true, SignupOkMessage, OneUser(Strip(id, user)), SetToken(issued.cookie));
    }

    method VerifyEmail(code: string, mail: Mail, nowMs: nat) returns (reply: Reply)
      requires Valid()
      modifies this
      ensures Valid()
      ensures Outcome(Snapshot(), reply) == VerifyEmailSpec(old(Snapshot()), code, mail, nowMs)
    {
      VerifyEmailKeepsValid(Snapshot(), code, mail, nowMs);
      if code == "" {
        return Fail(400, MissingCodeMessage);
      }
      var found := FindOne(users, ByVerificationCode(code, nowMs), nextId);
      if found.None? {
        return Fail(400, BadCodeMessage);
      }
      var id := found.value;
      var user := users[id];
      user := user.(isVerified := true);
      user := user.(verificationToken := None);
      user := user.(verificationTokenExpiresAt := None);
      users := users[id := user];
      if mail.Undelivered? {
        return Fail(500, WelcomeMailError);
      }
      reply := Reply(200, true, VerifiedMessage, OneUser(Strip(id, user)), KeepCookie);
    }

    method ForgotPassword(email: string, bytes: seq<byte>, mail: Mail, nowMs: nat) returns (reply: Reply)
      requires |bytes| == 20
      requires Valid()
      modifies this
      ensures Valid()
      ensures Outcome(Snapshot(), reply) == ForgotPasswordSpec(old(Snapshot()), email, bytes, mail, nowMs)
    {
      ForgotPasswordKeepsValid(Snapshot(), email, bytes, mail, nowMs);
      if email == "" {
        return Fail(400, MissingEmailMessage);
      }
      var found := FindOne(users, ByEmail(email), nextId);
      if found.None? {
        return Fail(404, UserNotFoundMessage);
      }
      var id := found.value;
      var token := ResetToken(bytes);
      var user := users[id];
      user := user.(resetPasswordToken := Some(token));
      user := user.(resetPasswordTokenExpiresAt := Some(nowMs + HourMs));
      users := users[id := user];
      if mail.Undelivered? {
        return Fail(500, ResetMailError);
      }
      reply := Reply(200, true, ResetLinkSentMessage, NoBody, KeepCookie);
    }

    method ResetPassword(token: string, password: string, salt: nat, successMail: Option<string>, nowMs: nat)
      returns (reply: Reply)
      requires Valid()
      modifies this
      ensures Valid()
      ensures Outcome(Snapshot(), reply) == ResetPasswordSpec(old(Snapshot()), token, password, salt, successMail, nowMs)
    {
      ResetPasswordKeepsValid(Snapshot(), token, password, salt, successMail, nowMs);
      if password == "" {
        return Fail(400, MissingPasswordMessage);
      }
      var found := FindOne(users, ByResetToken(token, nowMs), nextId);
      if found.None? {
        return Fail(400, BadResetTokenMessage);
      }
      var id := found.value;
      var user := users[id];
      user := user.(password := Bcrypt(password, salt));
      user := user.(resetPasswordToken := None);
      user := user.(resetPasswordTokenExpiresAt := None);
      users := users[id := user];
      if successMail.Some? {
        return Fail(500, successMail.value);
      }
      reply := Reply(200, true, ResetDoneMessage, NoBody, KeepCookie);
    }

    method Login(email: string, password: string, env: Env, nowMs: nat) returns (reply: Reply)
      requires Valid()
      modifies this
      ensures Valid()
      ensures Outcome(Snapshot(), reply) == LoginSpec(old(Snapshot()), email, password, env, nowMs)
    {
      LoginKeepsValid(Snapshot(), email, password, env, nowMs);
      if email == "" || password == "" {
        return Fail(400, MissingFieldsMessage);
      }
      var found := FindOne(users, ByEmail(email), nextId);
      if found.None? {
        return Fail(400, InvalidCredentialsMessage);
      }
      var id := found.value;
      var user := users[id];
      if !Compare(password, user.password) {
        return Fail(400, InvalidCredentialsMessage);
      }
      var issued := TokenCookie.GenerateTokenAndSetCookie(env, IdText(id), user.role, nowMs);
      if issued.EnvMissing? {
        return Fail(500, issued.message);
      }
      user := user.(lastLogin := Some(nowMs));
      users := users[id := user];
      reply := Reply(200, true, LoggedInMessage, OneUser(Strip(id, user)), SetToken(issued.cookie));
    }

    method CheckAuth(userId: string) returns (reply: Reply)
      ensures reply == CheckAuthSpec(Snapshot(), userId)
    {
      var id := ParseDecimal(userId);
      if id.None? {
        return Fail(400, CastErrorMessage(userId));
      }
      if id.value !in users {
        return Fail(404, UserNotFoundMessage);
      }
      reply := Reply(200, true, "", OneUser(Strip(id.value, users[id.value])), KeepCookie);
    }

    method TotalUsers() returns (reply: Reply)
      ensures reply == ListingSpec(Snapshot(), false)
    {
      var list := Listed(users, nextId, false);
      reply := Reply(200, true, "", UserList(|list|, list), KeepCookie);
    }

    method TotalAdmins() returns (reply: Reply)
      ensures reply == ListingSpec(Snapshot(), true)
    {
      var list := Listed(users, nextId, true);
      reply := Reply(200, true, "", UserList(|list|, list), KeepCookie);
    }
  }
}
