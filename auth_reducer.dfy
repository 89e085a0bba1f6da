/** The client's authentication reducer: a transition function over
    `{token, isAuthenticated, loading, user}` driven by eight action kinds.
    The browser's `localStorage` slot `'token'`, which the reducer writes and
    clears as a side effect, is carried as one more field of the state,
    `storedToken`. A JavaScript `null` is `None`. */
module AuthReducer {
  import opened Seqs

  type Token = string

  /** A key an object literal may carry or leave out; spreading an object
      overwrites only the keys it carries. */
  datatype Field<T> = Absent | Present(value: T)

  /** `U` is whatever the server sends as the user record. */
  datatype AuthState<U> = AuthState(
    token: Option<Token>,
    isAuthenticated: Option<bool>,
    loading: bool,
    user: Option<U>,
    storedToken: Option<string>)

  /** The body of a successful register or login response, spread over the
      state; the keys of the state it may carry. */
  datatype SessionPayload<U> = SessionPayload(
    token: Field<Option<Token>>,
    isAuthenticated: Field<Option<bool>>,
    loading: Field<bool>,
    user: Field<Option<U>>)

  datatype Action<U> =
    | UserLoaded(payload: U)
    | RegisterSuccess(session: SessionPayload<U>)
    | LoginSuccess(session: SessionPayload<U>)
    | RegisterFail
    | AuthError
    | LoginFail
    | Logout
    | AccountDeleted
    | Other(kind: string)   // any action type this reducer does not handle

  /** The five actions that end the session. */
  predicate EndsSession<U>(a: Action<U>)
  {
    a.RegisterFail? || a.AuthError? || a.LoginFail? || a.Logout? || a.AccountDeleted?
  }

  /** The state before any action: the token is whatever storage holds.
      It satisfies both state invariants below. */
  function Initial<U>(stored: Option<string>): (r: AuthState<U>)
    ensures Coherent(r) && Mirrored(r)
  {
    AuthState(stored, None, true, None, stored)
  }

  /** What `localStorage.setItem('token', v)` stores: the string form of `v`. */
  function StoredForm(t: Field<Option<Token>>): string
  {
    match t
    case Absent => "undefined"
    case Present(None) => "null"
    case Present(Some(s)) => s
  }

  function Overwrite<T>(f: Field<T>, current: T): T
  {
    if f.Present? then f.value else current
  }

  /** `{...state, ...payload, loading: false, isAuthenticated: true}` together
      with the write of `payload.token` to storage. */
  function SignIn<U>(s: AuthState<U>, p: SessionPayload<U>): (r: AuthState<U>)
    ensures r.isAuthenticated == Some(true) && !r.loading
    ensures r.storedToken == Some(StoredForm(p.token))
    ensures Coherent(r)
  {
    var spread := AuthState(
      Overwrite(p.token, s.token),
      Overwrite(p.isAuthenticated, s.isAuthenticated),
      Overwrite(p.loading, s.loading),
      Overwrite(p.user, s.user),
      Some(StoredForm(p.token)));
    spread.(loading := false, isAuthenticated := Some(true))
  }

  /** `{...state, token: null, loading: false, isAuthenticated: false}`
      together with the removal of the stored token. */
  function SignOut<U>(s: AuthState<U>): (r: AuthState<U>)
    ensures r.token == None && r.storedToken == None
    ensures r.isAuthenticated == Some(false) && !r.loading
    ensures r.user == s.user
    ensures Coherent(r)
  {
    s.(token := None, loading := false, isAuthenticated := Some(false), storedToken := None)
  }

  /** The reducer. Only USER_LOADED and a sign-in payload carrying a `user`
      key change the user; only the sign-in and session-ending actions touch
      storage; every action keeps a coherent state coherent. */
  function Reduce<U>(s: AuthState<U>, a: Action<U>): (r: AuthState<U>)
    ensures r.user != s.user ==>
      a.UserLoaded? || ((a.RegisterSuccess? || a.LoginSuccess?) && a.session.user.Present?)
    ensures r.storedToken != s.storedToken ==> !a.UserLoaded? && !a.Other?
    ensures Coherent(s) ==> Coherent(r)
  {
    match a
    case UserLoaded(u) => s.(isAuthenticated := Some(true), user := Some(u), loading := false)
    case RegisterSuccess(p) => SignIn(s, p)
    case LoginSuccess(p) => SignIn(s, p)
    case RegisterFail => SignOut(s)
    case AuthError => SignOut(s)
    case LoginFail => SignOut(s)
    case Logout => SignOut(s)
    case AccountDeleted => SignOut(s)
    case Other(_) => s
  }

  /** The state after dispatching `actions` in order. */
  function ReduceAll<U>(s: AuthState<U>, actions: seq<Action<U>>): AuthState<U>
    decreases |actions|
  {
    if actions == [] then s else ReduceAll(Reduce(s, actions[0]), actions[1..])
  }

  lemma InitialState<U>(stored: Option<string>)
    ensures var s: AuthState<U> := Initial(stored);
      s.token == stored && s.isAuthenticated == None && s.loading && s.user == None
  {
  }

  /** USER_LOADED authenticates, stops loading and records the user; the
      token and the stored token are untouched. */
  lemma UserLoadedEffect<U>(s: AuthState<U>, u: U)
    ensures var r := Reduce(s, UserLoaded(u));
      r.isAuthenticated == Some(true) && !r.loading && r.user == Some(u) &&
      r.token == s.token && r.storedToken == s.storedToken
  {
  }

  /** REGISTER_SUCCESS and LOGIN_SUCCESS take every key the payload carries,
      then force `loading` false and `isAuthenticated` true whatever the
      payload said; storage receives the payload's token. */
  lemma SignInEffect<U>(s: AuthState<U>, a: Action<U>)
    requires a.RegisterSuccess? || a.LoginSuccess?
    ensures var r := Reduce(s, a);
      r.isAuthenticated == Some(true) && !r.loading &&
      r.token == (if a.session.token.Present? then a.session.token.value else s.token) &&
      r.user == (if a.session.user.Present? then a.session.user.value else s.user) &&
      r.storedToken == Some(StoredForm(a.session.token))
  {
  }

  /** With a payload carrying a string token, the state's token and the
      stored token are both that token. */
  lemma SignInStoresToken<U>(s: AuthState<U>, a: Action<U>, t: Token)
    requires a.RegisterSuccess? || a.LoginSuccess?
    requires a.session.token == Present(Some(t))
    ensures Reduce(s, a).token == Some(t) && Reduce(s, a).storedToken == Some(t)
  {
  }

  /** A payload without a `token` key leaves the state's token as it was but
      stores the string "undefined". */
  lemma SignInWithoutToken<U>(s: AuthState<U>, p: SessionPayload<U>)
    requires p.token.Absent?
    ensures Reduce(s, LoginSuccess(p)).token == s.token
    ensures Reduce(s, LoginSuccess(p)).storedToken == Some("undefined")
  {
  }

  /** The five session-ending actions clear the token (in the state and in
      storage), stop loading and deauthenticate, and leave the user as it was. */
  lemma SignOutEffect<U>(s: AuthState<U>, a: Action<U>)
    requires EndsSession(a)
    ensures var r := Reduce(s, a);
      r.token == None && r.storedToken == None && !r.loading &&
      r.isAuthenticated == Some(false) && r.user == s.user
  {
  }

  /** A session-ending action after a session-ending action changes nothing:
      in particular each of them is idempotent. */
  lemma SignOutAbsorbs<U>(s: AuthState<U>, a: Action<U>, b: Action<U>)
    requires EndsSession(a) && EndsSession(b)
    ensures Reduce(Reduce(s, a), b) == Reduce(s, a)
  {
  }

  lemma UnknownActionIsIdentity<U>(s: AuthState<U>, kind: string)
    ensures Reduce(s, Other(kind)) == s
  {
  }

  /** Consistency of the flags: the state is loading exactly while it has
      not yet been decided whether the user is authenticated, and a state
      marked not authenticated holds no token, in memory or in storage. */
  ghost predicate Coherent<U>(s: AuthState<U>)
  {
    (s.loading <==> s.isAuthenticated == None) &&
    (s.isAuthenticated == Some(false) ==> s.token == None && s.storedToken == None)
  }

  /** Every sequence of actions keeps a coherent state coherent. */
  lemma {:induction false} ReduceAllCoherent<U>(s: AuthState<U>, actions: seq<Action<U>>)
    requires Coherent(s)
    ensures Coherent(ReduceAll(s, actions))
    decreases |actions|
  {
    if actions != [] {
      ReduceAllCoherent(Reduce(s, actions[0]), actions[1..]);
    }
  }

  /** Every state reachable from the initial state is coherent. */
  lemma ReachableCoherent<U>(stored: Option<string>, actions: seq<Action<U>>)
    ensures Coherent(ReduceAll(Initial<U>(stored), actions))
  {
    ReduceAllCoherent(Initial<U>(stored), actions);
  }

  /** Storage mirrors the in-memory token. */
  ghost predicate Mirrored<U>(s: AuthState<U>)
  {
    s.token == s.storedToken
  }

  /** The register route answers with plain text rather than an object with
      a token, so REGISTER_SUCCESS's payload carries no `token` key. From a
      fresh start, registering leaves the state without a token while storage
      holds "undefined": the two diverge. */
  lemma RegisterFromFreshStart<U>()
    ensures var r := Reduce(Initial<U>(None), RegisterSuccess(SessionPayload(Absent, Absent, Absent, Absent)));
      r.token == None && r.storedToken == Some("undefined") && r.isAuthenticated == Some(true)
  {
  }

  /** Only string tokens arrive in sign-in payloads. */
  ghost predicate TokensArePresent<U>(actions: seq<Action<U>>)
  {
    forall i :: 0 <= i < |actions| && (actions[i].RegisterSuccess? || actions[i].LoginSuccess?) ==>
      actions[i].session.token.Present? && actions[i].session.token.value.Some?
  }

  /** As long as every sign-in payload carries a string token, the stored
      token and the state's token stay equal. */
  lemma {:induction false} ReduceAllMirrored<U>(s: AuthState<U>, actions: seq<Action<U>>)
    requires Mirrored(s)
    requires TokensArePresent(actions)
    ensures Mirrored(ReduceAll(s, actions))
    decreases |actions|
  {
    if actions != [] {
      assert TokensArePresent(actions[1..]) by {
        forall i | 0 <= i < |actions| - 1 ensures actions[1..][i] == actions[i + 1] {
        }
      }
      ReduceAllMirrored(Reduce(s, actions[0]), actions[1..]);
    }
  }

  /** From the initial state, when every sign-in payload carries a string
      token, the in-memory token and the stored one never diverge. */
  lemma ReachableMirrored<U>(stored: Option<string>, actions: seq<Action<U>>)
    requires TokensArePresent(actions)
    ensures ReduceAll(Initial<U>(stored), actions).token == ReduceAll(Initial<U>(stored), actions).storedToken
  {
    ReduceAllMirrored(Initial<U>(stored), actions);
  }
}
