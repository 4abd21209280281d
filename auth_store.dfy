/**
 * The admin client's session store: the token, the signed-in user and the
 * `isAuthenticated` flag, changed only by `login` and `logout`.  Its
 * persistence to browser storage under "auth-storage" is not modelled; the
 * request interceptor reads `token` from it.
 */
module AuthStore {
  import opened Wrappers

  datatype SessionUser = SessionUser(id: int, email: string, name: string)

  datatype Session = Session(token: Option<string>, user: Option<SessionUser>, isAuthenticated: bool)

  /** The initial state, and the state `logout` sets. */
  const SignedOut := Session(None, None, false)

  datatype Action = DoLogin(token: string, user: SessionUser) | DoLogout

  /** The three fields agree: signed in with a token and a user, or signed out with neither. */
  predicate Coherent(s: Session) {
    (s.isAuthenticated <==> s.token.Some?) && (s.token.Some? <==> s.user.Some?)
  }

  /** The state one action leaves: `set` replaces all three fields, whatever they were. */
  function Apply(s: Session, a: Action): (r: Session)
    ensures Coherent(r)
    ensures a.DoLogin? ==> r.token == Some(a.token) && r.user == Some(a.user) && r.isAuthenticated
    ensures a.DoLogout? ==> r.token.None? && r.user.None? && !r.isAuthenticated
  {
    match a
    case DoLogin(token, user) => Session(Some(token), Some(user), true)
    case DoLogout => SignedOut
  }

  function Run(s: Session, actions: seq<Action>): Session
    decreases |actions|
  {
    if actions == [] then s else Apply(Run(s, actions[..|actions| - 1]), actions[|actions| - 1])
  }

  /** Logging out twice is logging out once. */
  lemma LogoutIdempotent(s: Session)
    ensures Apply(Apply(s, DoLogout), DoLogout) == Apply(s, DoLogout)
  {
  }

  /** From a coherent start, every sequence of logins and logouts leaves the fields in agreement. */
  lemma {:induction false} RunKeepsCoherent(s: Session, actions: seq<Action>)
    requires Coherent(s)
    ensures Coherent(Run(s, actions))
    decreases |actions|
  {
    if actions != [] {
      RunKeepsCoherent(s, actions[..|actions| - 1]);
    }
  }

  /** Only the last action counts: a login replaces any earlier session. */
  lemma LastActionDecides(s: Session, other: Session, actions: seq<Action>)
    requires actions != []
    ensures Run(s, actions) == Run(other, actions)
    ensures actions[|actions| - 1].DoLogin? ==>
              Run(s, actions).token == Some(actions[|actions| - 1].token) && Run(s, actions).isAuthenticated
  {
  }

  /** The zustand store, updated in place by `login` and `logout`. */
  class AuthState {
    var token: Option<string>
    var user: Option<SessionUser>
    var isAuthenticated: bool

    function State(): Session
      reads this
    {
      Session(token, user, isAuthenticated)
    }

    constructor()
      ensures State() == SignedOut
    {
      token, user, isAuthenticated := None, None, false;
    }

    method Login(token: string, user: SessionUser)
      modifies this
      ensures State() == Apply(old(State()), DoLogin(token, user))
    {
      this.token, this.user, isAuthenticated := Some(token), Some(user), true;
    }

    method Logout()
      modifies this
      ensures State() == Apply(old(State()), DoLogout)
    {
      token, user, isAuthenticated := None, None, false;
    }
  }
}
