/** The client session store: the signed-in user, the session flags and the admin listings, each
    action updating them around one request. The request is not part of this model: its outcome is a
    parameter. */
module AuthStore {
  import opened Common

  datatype ClientUser = ClientUser(email: string, name: string, role: string, isVerified: bool)

  /** A reply body; every field may be missing. */
  datatype AuthData = AuthData(success: bool, message: Option<string>, user: Option<ClientUser>,
                               users: Option<seq<ClientUser>>, admins: Option<seq<ClientUser>>,
                               totalUsers: Option<int>, totalAdmins: Option<int>)

  /** How a request fails: an HTTP error reply (with the server's message, "" when it sent none, and the
      client error's own message), another `Error`, or a thrown value that is not an `Error`. */
  datatype Failure = HttpError(serverMessage: string, errorMessage: string) | PlainError(message: string) | NonError

  datatype Call = Succeeded(data: AuthData) | Failed(failure: Failure)

  const UnknownError := "An unknown error occurred."

  /** The `errorState` a failed signup, login, verification or password request leaves. */
  function ErrorText(f: Failure): (r: string)
    ensures f.HttpError? && f.serverMessage != "" ==> r == f.serverMessage
    ensures f.HttpError? && f.serverMessage == "" ==> r == f.errorMessage
    ensures f.PlainError? ==> r == f.message
    ensures f.NonError? ==> r == UnknownError
  {
    match f
    case HttpError(server, own) => if server != "" then server else own
    case PlainError(m) => m
    case NonError => UnknownError
  }

  datatype AuthState = AuthState(
    user: Option<ClientUser>,
    users: Option<seq<ClientUser>>,
    admins: Option<seq<ClientUser>>,
    isAuthenticated: bool,
    errorState: Option<string>,
    loadingState: bool,
    isCheckingAuth: bool,
    message: Option<string>,
    totalUsers: Option<int>,
    totalAdmins: Option<int>)

  const Initial := AuthState(None, None, None, false, None, false, true, None, Some(0), Some(0))

  /** signup and login: a reply signs the user in; a failure records its message and is rethrown. */
  function SignInSpec(s: AuthState, c: Call): AuthState
  {
    var s1 := s.(loadingState := true, errorState := None);
    var s2 := match c
      case Succeeded(d) => s1.(user := d.user, isAuthenticated := true)
      case Failed(f) => s1.(errorState := Some(ErrorText(f)));
    s2.(loadingState := false)
  }

  /** logout: a reply drops the user but leaves `isAuthenticated` as it was; a failure clears it. */
  function LogoutSpec(s: AuthState, c: Call): AuthState
  {
    var s1 := s.(loadingState := true, errorState := None);
    var s2 := match c
      case Succeeded(d) => s1.(user := None, message := d.message)
      case Failed(_) => s1.(errorState := None, isAuthenticated := false);
    s2.(loadingState := false)
  }

  /** verifyEmail, forgotPassword and resetPassword: a failure records its message and is rethrown;
      a reply changes nothing but the message for the password requests. */
  function RequestSpec(s: AuthState, c: Call, keepsMessage: bool): AuthState
  {
    var s1 := s.(loadingState := true, errorState := None);
    var s2 := match c
      case Succeeded(d) => if keepsMessage then s1.(loadingState := false, message := d.message) else s1
      case Failed(f) => s1.(errorState := Some(ErrorText(f)));
    s2.(loadingState := false)
  }

  /** checkAuth: a reply signs the user in, a failure signs out silently, and the check always ends. */
  function CheckAuthSpec(s: AuthState, c: Call): AuthState
  {
    var s1 := s.(isCheckingAuth := true, errorState := None);
    var s2 := match c
      case Succeeded(d) => s1.(user := d.user, isAuthenticated := true)
      case Failed(_) => s1.(errorState := None, isAuthenticated := false);
    s2.(isCheckingAuth := false)
  }

  /** getTotalUsers (`admins` false) and getTotalAdmins (`admins` true): failures are silenced. */
  function TotalsSpec(s: AuthState, c: Call, admins: bool): AuthState
  {
    var s1 := s.(loadingState := true, errorState := None);
    var s2 := match c
      case Succeeded(d) =>
        if admins then s1.(admins := d.admins, totalAdmins := d.totalAdmins)
        else s1.(users := d.users, totalUsers := d.totalUsers)
      case Failed(_) => s1.(errorState := None);
    s2.(loadingState := false)
  }

  class Store {
    var user: Option<ClientUser>
    var users: Option<seq<ClientUser>>
    var admins: Option<seq<ClientUser>>
    var isAuthenticated: bool
    var errorState: Option<string>
    var loadingState: bool
    var isCheckingAuth: bool
    var message: Option<string>
    var totalUsers: Option<int>
    var totalAdmins: Option<int>

    function State(): AuthState
      reads this
    {
      AuthState(user, users, admins, isAuthenticated, errorState, loadingState, isCheckingAuth, message,
                totalUsers, totalAdmins)
    }

    constructor ()
      ensures State() == Initial
    {
      user, users, admins, isAuthenticated := None, None, None, false;
      errorState, loadingState, isCheckingAuth, message := None, false, true, None;
      totalUsers, totalAdmins := Some(0), Some(0);
    }

    /** The error handler shared by the actions that rethrow. */
    method RecordFailure(f: Failure)
      modifies this
      ensures State() == old(State()).(errorState := Some(ErrorText(f)))
    {
      match f {
        case HttpError(server, own) =>
          errorState := Some(if server != "" then server else own);
        case PlainError(m) =>
          errorState := Some(m);
        case NonError =>
          errorState := Some(UnknownError);
      }
    }

    /** signup or login; `rethrown` tells whether the failure propagates to the caller. */
    method SignIn(c: Call) returns (rethrown: bool)
      modifies this
      ensures rethrown <==> c.Failed?
      ensures State() == SignInSpec(old(State()), c)
    {
      loadingState, errorState := true, None;
      rethrown := false;
      match c {
        case Succeeded(d) =>
          user, isAuthenticated := d.user, true;
        case Failed(f) =>
          RecordFailure(f);
          rethrown := true;
      }
      loadingState := false;
    }

    method Logout(c: Call)
      modifies this
      ensures State() == LogoutSpec(old(State()), c)
    {
      loadingState, errorState := true, None;
      match c {
        case Succeeded(d) =>
          user, message := None, d.message;
        case Failed(_) =>
          errorState, isAuthenticated := None, false;
      }
      loadingState := false;
    }

    /** verifyEmail: the reply goes back to the caller; the store keeps its user. */
    method VerifyEmail(c: Call) returns (reply: Option<AuthData>, rethrown: bool)
      modifies this
      ensures rethrown <==> c.Failed?
      ensures c.Succeeded? ==> reply == Some(c.data)
      ensures State() == RequestSpec(old(State()), c, false)
    {
      loadingState, errorState := true, None;
      reply, rethrown := None, false;
      match c {
        case Succeeded(d) =>
          reply := Some(d);
        case Failed(f) =>
          RecordFailure(f);
          rethrown := true;
      }
      loadingState := false;
    }

    /** forgotPassword and resetPassword. */
    method PasswordRequest(c: Call) returns (rethrown: bool)
      modifies this
      ensures rethrown <==> c.Failed?
      ensures State() == RequestSpec(old(State()), c, true)
    {
      loadingState, errorState := true, None;
      rethrown := false;
      match c {
        case Succeeded(d) =>
          loadingState, message := false, d.message;
        case Failed(f) =>
          RecordFailure(f);
          rethrown := true;
      }
      loadingState := false;
    }

    method CheckAuth(c: Call)
      modifies this
      ensures State() == CheckAuthSpec(old(State()), c)
    {
      isCheckingAuth, errorState := true, None;
      match c {
        case Succeeded(d) =>
          user, isAuthenticated := d.user, true;
        case Failed(_) =>
          errorState, isAuthenticated := None, false;
      }
      isCheckingAuth := false;
    }

    method GetTotals(c: Call, forAdmins: bool)
      modifies this
      ensures State() == TotalsSpec(old(State()), c, forAdmins)
    {
      loadingState, errorState := true, None;
      match c {
        case Succeeded(d) =>
          if forAdmins {
            admins, totalAdmins := d.admins, d.totalAdmins;
          } else {
            users, totalUsers := d.users, d.totalUsers;
          }
        case Failed(_) =>
          errorState := None;
      }
      loadingState := false;
    }
  }

  // ---------------------------------------------------------------- properties

  /** A successful signup or login signs in the reply's user; a failed one leaves the session as it was
      and records the server's message, else the error's, else the generic one. */
  lemma SignInOutcome(s: AuthState, c: Call)
    ensures var t := SignInSpec(s, c);
            && !t.loadingState
            && (c.Succeeded? ==> t.user == c.data.user && t.isAuthenticated)
            && (c.Failed? ==> t.user == s.user && t.isAuthenticated == s.isAuthenticated
                              && t.errorState == Some(ErrorText(c.failure)))
  {
  }

  /** Whatever the check's outcome, it ends with `isCheckingAuth` false and no error shown; a failed
      check signs out without touching the stored user. */
  lemma CheckAuthSettles(s: AuthState, c: Call)
    ensures var t := CheckAuthSpec(s, c);
            && !t.isCheckingAuth && t.errorState.None? && t.loadingState == s.loadingState
            && (t.isAuthenticated <==> c.Succeeded?)
            && (c.Failed? ==> t.user == s.user)
  {
  }

  /** After a successful logout the user is gone but the store still reports a session. */
  lemma LogoutKeepsSessionFlag(s: AuthState, d: AuthData)
    ensures var t := LogoutSpec(s, Succeeded(d));
            t.user.None? && t.isAuthenticated == s.isAuthenticated
  {
  }

  /** Verifying the email never updates the stored user or the session, even on success. */
  lemma VerifyEmailKeepsUser(s: AuthState, c: Call)
    ensures var t := RequestSpec(s, c, false);
            t.user == s.user && t.isAuthenticated == s.isAuthenticated && t.message == s.message
  {
  }

  /** The listings never show an error and change only their own list and count. */
  lemma TotalsAreSilent(s: AuthState, c: Call, admins: bool)
    ensures var t := TotalsSpec(s, c, admins);
            && t.errorState.None? && !t.loadingState
            && t.user == s.user && t.isAuthenticated == s.isAuthenticated
            && (admins ==> t.users == s.users && t.totalUsers == s.totalUsers)
            && (!admins ==> t.admins == s.admins && t.totalAdmins == s.totalAdmins)
  {
  }

  /** Every action but checkAuth ends with `loadingState` false. */
  lemma ActionsEndNotLoading(s: AuthState, c: Call, keepsMessage: bool, admins: bool)
    ensures !SignInSpec(s, c).loadingState && !LogoutSpec(s, c).loadingState
    ensures !RequestSpec(s, c, keepsMessage).loadingState && !TotalsSpec(s, c, admins).loadingState
  {
  }
}
