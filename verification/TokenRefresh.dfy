/** Single-flight token refresh: `refreshTokens` and `handleTokenRefresh` in api.ts, as a step
    relation over the event loop. One step is what runs between two awaits. Each refresh token may
    be used once only (section 6 of RFC 6749).
 */
module TokenRefresh {
  import opened Wrappers

  type Token = nat

  /** A running refreshTokens(): waiting for the reply, or done with its `finally` still queued. */
  datatype Refresh = Posted(token: Token) | Settled(result: Option<Token>)

  datatype State = State(stored: Option<Token>, isRefreshing: bool, promise: Option<nat>,
                         refreshes: map<nat, Refresh>, sent: seq<Token>, issued: set<Token>)

  datatype Label =
    | Unauthorized(id: nat)              // a 401 response calls handleTokenRefresh
    | ReplyOk(id: nat, token: Token)
    | ReplyFails(id: nat)                // an error, or a body without tokens
    | Finally(id: nat)
    | Login(token: Token)
    | Logout                             // by the user, or by a handler whose refresh failed

  ghost predicate Step(s: State, l: Label, s': State) {
    match l
    case Unauthorized(id) =>
      if s.isRefreshing then s' == s
      else
        && id !in s.refreshes
        && s' == s.(isRefreshing := true, promise := Some(id),
                    sent := if s.stored.Some? then s.sent + [s.stored.value] else s.sent,
                    refreshes := s.refreshes[id := if s.stored.Some? then Posted(s.stored.value) else Settled(None)])
    case ReplyOk(id, token) =>
      && id in s.refreshes && s.refreshes[id].Posted? && token !in s.issued
      && s' == s.(stored := Some(token), issued := s.issued + {token},
          refreshes := s.refreshes[id := Settled(Some(token))])
    case ReplyFails(id) =>
      && id in s.refreshes && s.refreshes[id].Posted?
      && s' == s.(stored := None, refreshes := s.refreshes[id := Settled(None)])
    case Finally(id) =>
      && id in s.refreshes && s.refreshes[id].Settled?
      && s' == s.(isRefreshing := false, promise := None, refreshes := s.refreshes - {id})
    case Login(token) =>
      token !in s.issued && s' == s.(stored := Some(token), issued := s.issued + {token})
    case Logout => s' == s.(stored := None)
  }

  ghost predicate Init(s: State) {
    && !s.isRefreshing && s.promise.None? && s.refreshes == map[] && s.sent == []
    && (s.stored.Some? ==> s.stored.value in s.issued)
  }

  ghost predicate IsRun(ss: seq<State>, ls: seq<Label>) {
    && |ss| == |ls| + 1 && Init(ss[0])
    && forall i {:trigger ls[i]} :: 0 <= i < |ls| ==> Step(ss[i], ls[i], ss[i + 1])
  }

  /** The shared promise is that of the only refresh there is. */
  ghost predicate SingleFlight(s: State) {
    && (s.isRefreshing <==> s.promise.Some?)
    && (forall id :: id in s.refreshes <==> s.promise == Some(id))
  }

  /** Sent tokens are distinct, and one that is still stored is being refreshed right now. */
  ghost predicate SentOnce(s: State) {
    && (forall i, j :: 0 <= i < j < |s.sent| ==> s.sent[i] != s.sent[j])
    && (forall t :: t in s.sent ==> t in s.issued)
    && (s.stored.Some? ==> s.stored.value in s.issued)
    && (s.stored.Some? && s.stored.value in s.sent ==>
          s.promise.Some? && s.promise.value in s.refreshes && s.refreshes[s.promise.value] == Posted(s.stored.value))
  }

  lemma StepKeeps(s: State, l: Label, s': State)
    requires SingleFlight(s) && SentOnce(s) && Step(s, l, s')
    ensures SingleFlight(s') && SentOnce(s')
  {
  }

  /** The step stores another token or drops the stored one. */
  predicate TouchesToken(l: Label) { l.ReplyOk? || l.ReplyFails? || l.Login? || l.Logout? }

  lemma StoredStep(s: State, l: Label, s': State)
    requires Step(s, l, s')
    ensures l.ReplyOk? || l.Login? ==> s'.stored == Some(l.token) && l.token !in s.issued && l.token in s'.issued
    ensures l.ReplyFails? || l.Logout? ==> s'.stored.None?
    ensures !TouchesToken(l) ==> s'.stored == s.stored
  {
  }

  /** The token of the latest successful reply or login stays stored until something else touches it. */
  lemma {:induction false} LatestTokenStays(ss: seq<State>, ls: seq<Label>, i: nat, k: nat)
    requires IsRun(ss, ls) && i < k <= |ls| && (ls[i].ReplyOk? || ls[i].Login?)
    requires forall m {:trigger ls[m]} :: i < m < k ==> !TouchesToken(ls[m])
    ensures ss[k].stored == Some(ls[i].token)
  {
    StoredStep(ss[k - 1], ls[k - 1], ss[k]);
    if k > i + 1 {
      LatestTokenStays(ss, ls, i, k - 1);
    }
  }

  /** So the next refresh sends it, once, and any that are asked for meanwhile join that one. */
  lemma NextRefreshSendsIt(ss: seq<State>, ls: seq<Label>, i: nat, k: nat)
    requires IsRun(ss, ls) && i < k < |ls| && (ls[i].ReplyOk? || ls[i].Login?) && ls[k].Unauthorized?
    requires forall m {:trigger ls[m]} :: i < m < k ==> !TouchesToken(ls[m])
    ensures ss[k].isRefreshing ==> ss[k + 1] == ss[k]
    ensures !ss[k].isRefreshing ==>
              && ss[k + 1].sent == ss[k].sent + [ls[i].token] && ss[k + 1].promise == Some(ls[k].id)
              && ls[k].id in ss[k + 1].refreshes && ss[k + 1].refreshes[ls[k].id] == Posted(ls[i].token)
  {
    LatestTokenStays(ss, ls, i, k);
    assert Step(ss[k], ls[k], ss[k + 1]);
  }

  /** What a reply settles is what is stored then, and it is there for all who wait. */
  lemma ReplySettles(s: State, l: Label, s': State)
    requires SingleFlight(s) && Step(s, l, s') && (l.ReplyOk? || l.ReplyFails?)
    ensures s.promise == s'.promise == Some(l.id) && l.id in s'.refreshes
    ensures s'.refreshes[l.id] == Settled(s'.stored) && s'.sent == s.sent
  {
  }

  /** In every reachable state at most one refresh runs, the flag is up exactly while the shared
      promise is pending, and no refresh token value has been sent twice. */
  lemma {:induction false} Always(ss: seq<State>, ls: seq<Label>, k: nat)
    requires IsRun(ss, ls) && k <= |ls|
    ensures SingleFlight(ss[k]) && SentOnce(ss[k])
    ensures forall a, b :: a in ss[k].refreshes && b in ss[k].refreshes ==> a == b
    ensures ss[k].isRefreshing <==> ss[k].refreshes != map[]
  {
    if k > 0 {
      Always(ss, ls, k - 1);
      StepKeeps(ss[k - 1], ls[k - 1], ss[k]);
    }
    if ss[k].promise.Some? {
      assert ss[k].promise.value in ss[k].refreshes;
    }
  }
}
