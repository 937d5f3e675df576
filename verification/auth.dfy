/** The authentication hook: the signed-in user and a `loading` flag, driven
    by the one-off resolution of the current user and by auth-state-change
    notifications. */
module Auth {
  import opened Wrappers

  datatype User = User(id: string, email: string)
  datatype Session = Session(user: User)

  datatype AuthEvent =
    | UserResolved(resolved: Option<User>)         // the initial user lookup answered
    | AuthStateChanged(session: Option<Session>)   // sign-in, sign-out, token refresh

  datatype AuthState = AuthState(user: Option<User>, loading: bool)

  /** Before anything is known: no user, still loading. */
  const Initial := AuthState(None, true)

  /** The user an event installs: the resolved user, or the session's user
      (`session?.user ?? null`). */
  function EventUser(e: AuthEvent): Option<User>
  {
    match e
    case UserResolved(u) => u
    case AuthStateChanged(None) => None
    case AuthStateChanged(Some(s)) => Some(s.user)
  }

  function Step(s: AuthState, e: AuthEvent): (r: AuthState)
    ensures e.UserResolved? ==> r == AuthState(e.resolved, false)
    ensures e.AuthStateChanged? && e.session.None? ==> r == s.(user := None)
    ensures e.AuthStateChanged? && e.session.Some? ==> r == s.(user := Some(e.session.value.user))
  {
    match e
    case UserResolved(u) => AuthState(u, false)
    case AuthStateChanged(_) => s.(user := EventUser(e))
  }

  function Run(s: AuthState, es: seq<AuthEvent>): AuthState
    decreases |es|
  {
    if |es| == 0 then s else Run(Step(s, es[0]), es[1..])
  }

  /** After any events, the user is the one the LAST event installed, and
      `loading` has been cleared exactly when the initial lookup answered;
      a change notification never touches `loading`. */
  lemma {:induction false} RunUserIsLastEvent(s: AuthState, es: seq<AuthEvent>)
    requires |es| > 0
    ensures Run(s, es).user == EventUser(es[|es| - 1])
    decreases |es|
  {
    if |es| > 1 {
      RunUserIsLastEvent(Step(s, es[0]), es[1..]);
      assert es[1..][|es[1..]| - 1] == es[|es| - 1];
    }
  }

  lemma {:induction false} RunLoadingIffUnresolved(s: AuthState, es: seq<AuthEvent>)
    ensures Run(s, es).loading <==> s.loading && forall i :: 0 <= i < |es| ==> !es[i].UserResolved?
    decreases |es|
  {
    if |es| > 0 {
      RunLoadingIffUnresolved(Step(s, es[0]), es[1..]);
      assert forall i :: 0 <= i < |es[1..]| ==> es[1..][i] == es[i + 1];
    }
  }

  /** From the initial state: still loading exactly when no lookup answered. */
  lemma InitialLoadingIffUnresolved(es: seq<AuthEvent>)
    ensures Run(Initial, es).loading <==> forall i :: 0 <= i < |es| ==> !es[i].UserResolved?
  {
    RunLoadingIffUnresolved(Initial, es);
  }
}
