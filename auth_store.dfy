/** The auth session store (Pinia store 'auth'): who is signed in.

    Each action awaits one call of the auth service: sign-in, sign-up and
    sign-out raise `isLoading` before it, assign `user` and `session` after
    it, and lower `isLoading` in `finally`. An action is modelled as one step
    that takes the settled outcome of that call as an input, so the window in
    which `isLoading` is true is not observable here. The credentials an action
    passes to the service only influence that outcome, so they are not
    parameters here. */
module Auth {
  import opened Wrappers

  datatype User = User(id: string, email: string)

  datatype Session = Session(accessToken: string, user: User)

  /** What the service's signIn and signUp resolve with. */
  datatype AuthData = AuthData(user: Option<User>, session: Option<Session>)

  /** `{success: true}`, `{success: true, needsConfirmation}` or
      `{success: false, error}`. */
  datatype ActionResult =
    | Succeeded
    | SignedUp(needsConfirmation: bool)
    | Failed(error: string)

  /** The two auth events the listener reacts to. */
  const SignedInEvent := "SIGNED_IN"
  const SignedOutEvent := "SIGNED_OUT"

  /** What one poll of the route guard reads from the store. */
  datatype AuthSnapshot = AuthSnapshot(isInitialized: bool, isAuthenticated: bool)

  class AuthStore {
    var user: Option<User>
    var session: Option<Session>
    var isLoading: bool
    /** Set once `initialize` has settled, whatever its outcome. */
    var isInitialized: bool
    /** How many callbacks `initialize` has handed to onAuthStateChange. */
    var listeners: nat

    constructor ()
      ensures user == None && session == None && !isLoading
      ensures !isInitialized && listeners == 0
    {
      user := None;
      session := None;
      isLoading := false;
      isInitialized := false;
      listeners := 0;
    }

    /** Getter `isAuthenticated`. */
    predicate IsAuthenticated()
      reads this
      ensures IsAuthenticated() <==> user.Some? && session.Some?
    {
      user.Some? && session.Some?
    }

    /** Getter `userEmail`: an empty address reads as no address. */
    function UserEmail(): (email: Option<string>)
      reads this
      ensures email.Some? ==> user.Some? && email.value == user.value.email && email.value != ""
      ensures email.None? ==> user.None? || user.value.email == ""
    {
      if user.Some? && user.value.email != "" then Some(user.value.email) else None
    }

    /** What the route guard reads on one poll. */
    function Poll(): (s: AuthSnapshot)
      reads this
      ensures s.isInitialized == isInitialized
      ensures s.isAuthenticated <==> IsAuthenticated()
    {
      AuthSnapshot(isInitialized, IsAuthenticated())
    }

    /** The same read against the store as its authors wrote it: it declares
        no `isInitialized`, so the property read yields undefined, which the
        guard's loop treats as false. */
    function PollAsWritten(): (s: AuthSnapshot)
      reads this
      ensures !s.isInitialized
      ensures s.isAuthenticated <==> IsAuthenticated()
    {
      AuthSnapshot(false, IsAuthenticated())
    }

    method SignIn(remote: Result<AuthData>) returns (r: ActionResult)
      modifies this
      ensures !isLoading
      ensures isInitialized == old(isInitialized) && listeners == old(listeners)
      ensures remote.Ok? ==> r == Succeeded && user == remote.value.user && session == remote.value.session
      ensures remote.Err? ==> r == Failed(remote.msg) && user == old(user) && session == old(session)
    {
      isLoading := true;
      match remote {
      case Ok(data) =>
        user := data.user;
        session := data.session;
        r := Succeeded;
      case Err(msg) =>
        r := Failed(msg);
      }
      isLoading := false;
    }

    /** Like SignIn, and also reports that the address still has to be
        confirmed when no session came back; a user without a session is not
        authenticated. */
    method SignUp(remote: Result<AuthData>) returns (r: ActionResult)
      modifies this
      ensures !isLoading
      ensures isInitialized == old(isInitialized) && listeners == old(listeners)
      ensures remote.Ok? ==> user == remote.value.user && session == remote.value.session
      ensures remote.Ok? ==> r == SignedUp(remote.value.session.None?)
      ensures remote.Ok? && r.needsConfirmation ==> !IsAuthenticated()
      ensures remote.Err? ==> r == Failed(remote.msg) && user == old(user) && session == old(session)
    {
      isLoading := true;
      match remote {
      case Ok(data) =>
        user := data.user;
        session := data.session;
        r := SignedUp(data.session.None?);
      case Err(msg) =>
        r := Failed(msg);
      }
      isLoading := false;
    }

    method SignOut(remote: Result<()>) returns (r: ActionResult)
      modifies this
      ensures !isLoading
      ensures isInitialized == old(isInitialized) && listeners == old(listeners)
      ensures remote.Ok? ==> r == Succeeded && user == None && session == None && !IsAuthenticated()
      ensures remote.Err? ==> r == Failed(remote.msg) && user == old(user) && session == old(session)
    {
      isLoading := true;
      match remote {
      case Ok(_) =>
        user := None;
        session := None;
        r := Succeeded;
      case Err(msg) =>
        r := Failed(msg);
      }
      isLoading := false;
    }

    /** Restores the current session, if any, then registers the auth-event
        listener. An error of getCurrentSession is swallowed and skips the
        registration. The store counts as initialized afterwards either way. */
    method Initialize(current: Result<Option<Session>>)
      modifies this
      ensures isLoading == old(isLoading) && isInitialized
      ensures current.Ok? && current.value.Some? ==>
        session == current.value && user == Some(current.value.value.user)
      ensures current.Err? || current.value.None? ==> user == old(user) && session == old(session)
      ensures listeners == old(listeners) + (if current.Ok? then 1 else 0)
    {
      if current.Ok? {
        if current.value.Some? {
          session := current.value;
          user := Some(current.value.value.user);
        }
        listeners := listeners + 1;
      }
      isInitialized := true;
    }

    /** The onAuthStateChange callback for one event. */
    method HandleAuthEvent(event: string, eventSession: Option<Session>)
      modifies this
      ensures isLoading == old(isLoading) && isInitialized == old(isInitialized) && listeners == old(listeners)
      ensures event == SignedInEvent && eventSession.Some? ==>
        session == eventSession && user == Some(eventSession.value.user) && IsAuthenticated()
      ensures event == SignedOutEvent ==> user == None && session == None && !IsAuthenticated()
      ensures event != SignedOutEvent && !(event == SignedInEvent && eventSession.Some?) ==>
        user == old(user) && session == old(session)
    {
      if event == SignedInEvent && eventSession.Some? {
        session := eventSession;
        user := Some(eventSession.value.user);
      } else if event == SignedOutEvent {
        session := None;
        user := None;
      }
    }
  }
}
