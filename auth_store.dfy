/**
 * The session store of src/store/useAuthStore.ts: three fields that `login`
 * and `logout` overwrite together. The value `Session` is what a reader of
 * the store sees; `Store` is the store itself, whose ghost `history` records
 * the transitions that led to its state, so that every state a `Store` can
 * be in is one reached from the initial state.
 */
module AuthStore {
  import opened Optional

  datatype UserInfo = UserInfo(email: string)

  datatype Session = Session(token: Option<string>, user: Option<UserInfo>, isAuthenticated: bool)

  /** The two transitions the store offers. */
  datatype Action = SignIn(token: string, user: UserInfo) | SignOut

  /** The state before any sign-in: no token, no user, not authenticated. */
  function Initial(): (s: Session)
    ensures s.token.None? && s.user.None? && !s.isAuthenticated
    ensures Consistent(s) && !HasToken(s)
  {
    Session(None, None, false)
  }

  /** The invariant the store is meant to keep: authenticated exactly when a token is held. */
  predicate Consistent(s: Session)
  {
    s.isAuthenticated <==> s.token.Some?
  }

  /** JavaScript truthiness of a token: present and not the empty string. */
  predicate Truthy(token: Option<string>)
  {
    token.Some? && token.value != ""
  }

  /** The `token` test of the guard and the gateway. */
  predicate HasToken(s: Session)
  {
    Truthy(s.token)
  }

  /**
   * One transition. `login` sets all three fields from its arguments and
   * `logout` clears all three, so the result never depends on `s`.
   */
  function Apply(s: Session, a: Action): (r: Session)
    ensures Consistent(r)
    ensures r.isAuthenticated <==> a.SignIn?
    ensures a.SignIn? ==> r.token == Some(a.token) && r.user == Some(a.user)
    ensures a.SignOut? ==> r == Initial()
  {
    match a
    case SignIn(t, u) => Session(Some(t), Some(u), true)
    case SignOut => Session(None, None, false)
  }

  /** The state reached from `s` by the transitions `acts`, oldest first. */
  function Run(s: Session, acts: seq<Action>): Session
  {
    if acts == [] then s else Apply(Run(s, acts[..|acts| - 1]), acts[|acts| - 1])
  }

  /** Every state reachable from the initial state satisfies the invariant. */
  lemma ReachableConsistent(acts: seq<Action>)
    ensures Consistent(Run(Initial(), acts))
  {
  }

  /** A transition overwrites every field: the previous state leaves no trace. */
  lemma ApplyForgetsPrior(s1: Session, s2: Session, a: Action)
    ensures Apply(s1, a) == Apply(s2, a)
  {
  }

  /** After any non-empty history, the state is decided by the last transition alone. */
  lemma {:induction false} RunLastDecides(s: Session, acts: seq<Action>)
    requires acts != []
    ensures Run(s, acts) == Apply(Initial(), acts[|acts| - 1])
  {
    ApplyForgetsPrior(Run(s, acts[..|acts| - 1]), Initial(), acts[|acts| - 1]);
  }

  /** `logout` is idempotent, and `login` then `logout` gives back the initial state. */
  lemma SignOutFacts(s: Session, t: string, u: UserInfo)
    ensures Apply(Apply(s, SignOut), SignOut) == Apply(s, SignOut)
    ensures Apply(Apply(s, SignIn(t, u)), SignOut) == Initial()
  {
  }

  class Store {
    var token: Option<string>
    var user: Option<UserInfo>
    var isAuthenticated: bool
    /** The transitions applied since the store was created. */
    ghost var history: seq<Action>

    function State(): Session
      reads this
    {
      Session(token, user, isAuthenticated)
    }

    ghost predicate Valid()
      reads this
    {
      State() == Run(Initial(), history)
    }

    constructor ()
      ensures Valid() && history == []
      ensures token == None && user == None && !isAuthenticated
    {
      token, user, isAuthenticated := None, None, false;
      history := [];
    }

    method Login(t: string, u: UserInfo)
      requires Valid()
      modifies this
      ensures Valid() && history == old(history) + [SignIn(t, u)]
      ensures token == Some(t) && user == Some(u) && isAuthenticated
    {
      token, user, isAuthenticated := Some(t), Some(u), true;
      history := history + [SignIn(t, u)];
      assert history[..|history| - 1] == old(history);
    }

    method Logout()
      requires Valid()
      modifies this
      ensures Valid() && history == old(history) + [SignOut]
      ensures token == None && user == None && !isAuthenticated
    {
      token, user, isAuthenticated := None, None, false;
      history := history + [SignOut];
      assert history[..|history| - 1] == old(history);
    }

    /** The invariant holds of every store: authenticated exactly when a token is held. */
    lemma StoreConsistent()
      requires Valid()
      ensures isAuthenticated <==> token.Some?
    {
      ReachableConsistent(history);
    }
  }
}
