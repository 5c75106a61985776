/** The web client's session store: who is signed in, with which token and
    role. `login` and `logout` overwrite all four fields at once. */
module AuthStore {
  import opened Common

  /** The signed-in user as the client keeps it; the role may be null. */
  datatype SessionUser = SessionUser(id: string, name: string, email: string, role: Option<Role>,
                                     avatar: Option<string>)

  /** The four fields of the store. */
  datatype Session = Session(user: Option<SessionUser>, token: Option<string>, isAuthenticated: bool,
                             userRole: Option<Role>)

  /** The state the store starts in and `logout` returns to. */
  const SignedOut: Session := Session(None, None, false, None)

  /** The state `login(user, token)` sets, whatever came before. */
  function SignedIn(user: SessionUser, token: string): (s: Session)
    ensures s.isAuthenticated && s.user == Some(user) && s.token == Some(token)
    ensures s.userRole == user.role
  {
    Session(Some(user), Some(token), true, user.role)
  }

  /** The fields agree with each other: authenticated exactly when a user and
      a token are held, and the role is the held user's role. */
  predicate Coherent(s: Session) {
    && (s.isAuthenticated <==> s.user.Some?)
    && (s.user.Some? <==> s.token.Some?)
    && s.userRole == (if s.user.Some? then s.user.value.role else None)
  }

  /** Both states the store can be put in are coherent. */
  lemma StatesAreCoherent(user: SessionUser, token: string)
    ensures Coherent(SignedOut) && Coherent(SignedIn(user, token))
  {
  }

  /** A second login leaves nothing of the first session behind. */
  lemma LoginOverwrites(first: SessionUser, firstToken: string, second: SessionUser, secondToken: string)
    ensures SignedIn(second, secondToken).user == Some(second)
    ensures SignedIn(second, secondToken).token == Some(secondToken)
    ensures SignedIn(second, secondToken).userRole == second.role
    ensures first != second || firstToken != secondToken ==>
              SignedIn(second, secondToken) != SignedIn(first, firstToken)
  {
  }

  class SessionStore {
    var user: Option<SessionUser>
    var token: Option<string>
    var isAuthenticated: bool
    var userRole: Option<Role>

    function State(): Session
      reads this
    {
      Session(user, token, isAuthenticated, userRole)
    }

    ghost predicate Valid()
      reads this
    {
      Coherent(State())
    }

    /** The initial state: nobody signed in. */
    constructor ()
      ensures Valid() && State() == SignedOut
    {
      user := None;
      token := None;
      isAuthenticated := false;
      userRole := None;
    }

    /** `login(user, token)`: holds the user and token, is authenticated, and
        takes the role from the user. */
    method Login(u: SessionUser, t: string)
      modifies this
      ensures Valid()
      ensures State() == SignedIn(u, t)
    {
      user := Some(u);
      token := Some(t);
      isAuthenticated := true;
      userRole := u.role;
    }

    /** `logout`: back to the initial state from any state. */
    method Logout()
      modifies this
      ensures Valid()
      ensures State() == SignedOut
    {
      user := None;
      token := None;
      isAuthenticated := false;
      userRole := None;
    }
  }
}
