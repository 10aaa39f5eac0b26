/**
 The lock-free routing index against a scan of all sessions: what is forwarded
 always goes to the sender's session partner, and the two agree for every source
 exactly as long as no address has held two legs.
 */
module RelayRouting {
  import opened Common
  import opened RelayState
  import opened RelayAccounting
  import opened RelayInvariant
  import opened RelayRuns

  /** A scan finds a two-leg session with one leg at `src` and the other at `dst`. */
  ghost predicate Partners(s: State, t: Token, i: int, src: Addr, dst: Addr) {
    t in s.sessions && 0 <= i < 2 && |s.sessions[t].legs| == 2
    && s.sessions[t].legs[i].addr == src && s.sessions[t].legs[1 - i].addr == dst
  }

  lemma ForwardFinds(s: State, src: Addr)
    requires Routed(s) && PeersExact(s) && Forward(s, src).Some?
    ensures exists t, i :: Partners(s, t, i, src, Forward(s, src).value)
  {
    var t, i :| LiveAt(s, t, i, src, s.byAddr[src]);
    assert PeersOf(s.sessions[t], s.fwds);
    assert Partners(s, t, i, src, Forward(s, src).value);
  }

  /** What is forwarded always goes from a live leg to its own session partner. */
  lemma ForwardSound(c: Config, ss: seq<State>, run: seq<Step>, n: nat, src: Addr)
    requires IsRun(c, ss, run) && n < |ss|
    requires Forward(ss[n], src).Some?
    ensures exists t, i :: Partners(ss[n], t, i, src, Forward(ss[n], src).value)
  {
    RunInv(c, ss, run, n);
    ForwardFinds(ss[n], src);
  }

  /** `owner` names, for each address in use, the one forwarding record bound there. */
  ghost predicate OwnedBy(m: map<Token, Session>, owner: map<Addr, FwdId>) {
    forall t, i :: t in m && 0 <= i < |m[t].legs| ==>
      m[t].legs[i].addr in owner && owner[m[t].legs[i].addr] == m[t].legs[i].fwd
  }

  /** The routing index leads from every live leg's address back to that leg. */
  ghost predicate Complete(s: State) {
    OwnedBy(s.sessions, s.byAddr)
  }

  /** No source address holds two legs. */
  ghost predicate Solo(m: map<Token, Session>) {
    forall k, l :: k in LiveLegs(m) && l in LiveLegs(m) && k.addr == l.addr ==> k == l
  }

  lemma LiveAtIndex(m: map<Token, Session>, t: Token, i: nat)
    requires t in m && i < |m[t].legs|
    ensures m[t].legs[i] in LiveLegs(m)
  {
    assert m[t].legs[i] in m[t].legs;
  }

  lemma OwnedIsSolo(m: map<Token, Session>, owner: map<Addr, FwdId>)
    requires Unique(m) && OwnedBy(m, owner)
    ensures Solo(m)
  {}

  lemma ScanIsForwarded(s: State, t: Token, i: int, src: Addr, dst: Addr)
    requires PeersExact(s) && Complete(s) && Partners(s, t, i, src, dst)
    ensures Forward(s, src) == Some(dst)
  {}

  /** On a complete index the lookup and the scan agree for every source. */
  lemma ForwardIsScan(s: State, src: Addr, dst: Addr)
    requires Routed(s) && PeersExact(s) && Complete(s)
    ensures Forward(s, src) == Some(dst) <==> exists t, i :: Partners(s, t, i, src, dst)
  {
    if Forward(s, src) == Some(dst) {
      ForwardFinds(s, src);
    } else if t, i :| Partners(s, t, i, src, dst) {
      ScanIsForwarded(s, t, i, src, dst);
      assert false;
    }
  }

  // ---- when the index is complete ---------------------------------------------------

  lemma ClaimComplete(s: State, t: Token, l: Leg, now: int)
    requires Complete(s) && Solo(Claim(s, t, l, now).sessions)
    ensures Complete(Claim(s, t, l, now))
  {
    var s' := Claim(s, t, l, now);
    LiveAtIndex(s'.sessions, t, |LegsOf(s, t)|);
    forall u, j | u in s'.sessions && 0 <= j < |s'.sessions[u].legs|
      ensures s'.sessions[u].legs[j].addr in s'.byAddr
      ensures s'.byAddr[s'.sessions[u].legs[j].addr] == s'.sessions[u].legs[j].fwd
    {
      LiveAtIndex(s'.sessions, u, j);
      if !(u == t && j == |LegsOf(s, t)|) {
        assert s'.sessions[u].legs[j] == s.sessions[u].legs[j];
      }
    }
  }

  lemma MigrateComplete(s: State, t: Token, i: nat, src: Addr, acct: AcctKey, now: int)
    requires i < |LegsOf(s, t)| && Unique(s.sessions) && Complete(s)
    requires Solo(Migrate(s, t, i, src, acct, now).sessions)
    ensures Complete(Migrate(s, t, i, src, acct, now))
  {
    var s' := Migrate(s, t, i, src, acct, now);
    OthersDiffer(s.sessions, t, i);
    LiveAtIndex(s'.sessions, t, i);
    DistinctInSession(s.sessions, t);
    forall u, j | u in s'.sessions && 0 <= j < |s'.sessions[u].legs|
      ensures s'.sessions[u].legs[j].addr in s'.byAddr
      ensures s'.byAddr[s'.sessions[u].legs[j].addr] == s'.sessions[u].legs[j].fwd
    {
      LiveAtIndex(s'.sessions, u, j);
      if u != t {
        LiveAtIndex(s.sessions - {t}, u, j);
      }
      if !(u == t && j == i) {
        assert s'.sessions[u].legs[j] == s.sessions[u].legs[j];
        assert s.sessions[u].legs[j].fwd != s.sessions[t].legs[i].fwd;
      }
    }
  }

  lemma ReapComplete(c: Config, s: State, now: int)
    requires Unique(s.sessions) && Complete(s)
    ensures Complete(Reap(c, s, now))
  {
    var s' := Reap(c, s, now);
    OwnedIsSolo(s.sessions, s.byAddr);
    forall t, i | t in s'.sessions && 0 <= i < |s'.sessions[t].legs|
      ensures s'.sessions[t].legs[i].addr in s'.byAddr
      ensures s'.byAddr[s'.sessions[t].legs[i].addr] == s'.sessions[t].legs[i].fwd
    {
      SurvivorOrigin(c, s, t, i, now);
      var l := s'.sessions[t].legs[i];
      var j :| 0 <= j < |s.sessions[t].legs| && s.sessions[t].legs[j] == l;
      LiveAtIndex(s.sessions, t, j);
      KeptAddrNotDropped(c, s, t, l, now);
    }
  }

  lemma KeptAddrNotDropped(c: Config, s: State, t: Token, l: Leg, now: int)
    requires Unique(s.sessions) && Solo(s.sessions)
    requires t in s.sessions && l in s.sessions[t].legs && l in Survivors(c, s.fwds, s.sessions[t], now)
    ensures l.addr !in Dropped(c, s, s.sessions.Keys, now)
  {}

  lemma ApplyComplete(c: Config, s: State, e: Effect)
    requires Unique(s.sessions) && Complete(s) && Solo(Apply(c, s, e).sessions)
    ensures Complete(Apply(c, s, e))
  {
    match e
    case Claims(t, l, now) => ClaimComplete(s, t, l, now);
    case Moves(t, i, src, acct, now) =>
      if i < |LegsOf(s, t)| { MigrateComplete(s, t, i, src, acct, now); }
    case Reaps(now) => ReapComplete(c, s, now);
    case _ =>
  }

  lemma {:induction false} SoloTraceComplete(c: Config, ss: seq<State>, es: seq<Effect>, n: nat)
    requires IsTrace(c, ss, es) && n < |ss|
    requires forall k :: 0 <= k <= n ==> Solo(ss[k].sessions)
    ensures Complete(ss[n])
  {
    if n > 0 {
      SoloTraceComplete(c, ss, es, n - 1);
      TraceUnique(c, ss, es, n - 1);
      ApplyComplete(c, ss[n - 1], es[n - 1]);
    }
  }

  /**
   The index stays complete throughout a run exactly when no address ever held
   two legs during it.
   */
  lemma CompleteIffAlwaysSolo(c: Config, ss: seq<State>, run: seq<Step>, n: nat)
    requires IsRun(c, ss, run) && n < |ss|
    ensures (forall k :: 0 <= k <= n ==> Complete(ss[k])) <==> (forall k :: 0 <= k <= n ==> Solo(ss[k].sessions))
  {
    RunIsTrace(c, ss, run);
    var es := Effects(c, ss, run);
    if forall k :: 0 <= k <= n ==> Complete(ss[k]) {
      forall k | 0 <= k <= n ensures Solo(ss[k].sessions) {
        TraceUnique(c, ss, es, k);
        OwnedIsSolo(ss[k].sessions, ss[k].byAddr);
      }
    }
    if forall k :: 0 <= k <= n ==> Solo(ss[k].sessions) {
      forall k | 0 <= k <= n ensures Complete(ss[k]) {
        SoloTraceComplete(c, ss, es, k);
      }
    }
  }

  // ---- what sharing an address costs ---------------------------------------------------

  /** A pair that a pass leaves whole still stands as partners after it. */
  lemma PairSurvives(c: Config, s: State, t: Token, i: int, src: Addr, dst: Addr, now: int)
    requires Partners(s, t, i, src, dst)
    requires !Overdue(c, s.sessions[t], now)
    requires forall l :: l in s.sessions[t].legs ==> !Idle(c, s.fwds, l, now)
    ensures Partners(Reap(c, s, now), t, i, src, dst)
    ensures Reap(c, s, now).sessions[t].legs == s.sessions[t].legs
  {
    var legs := s.sessions[t].legs;
    assert legs[0] in legs && legs[1] in legs;
    assert KeptTo(c, s.fwds, legs, 1, now) == [legs[0]];
    assert KeptTo(c, s.fwds, legs, 2, now) == [legs[0], legs[1]];
    assert [legs[0], legs[1]] == legs;
  }

  /**
   A forwarding pair that survives a pass keeps forwarding exactly when no leg at
   the sender's address was dropped by it: routes are deleted by address.
   */
  lemma SharedRouteLost(c: Config, s: State, t: Token, i: int, src: Addr, dst: Addr, now: int)
    requires Unique(s.sessions) && PeersExact(s)
    requires Partners(s, t, i, src, dst) && src in s.byAddr && s.byAddr[src] == s.sessions[t].legs[i].fwd
    requires !Overdue(c, s.sessions[t], now)
    requires forall l :: l in s.sessions[t].legs ==> !Idle(c, s.fwds, l, now)
    ensures Forward(Reap(c, s, now), src) == (if src in Dropped(c, s, s.sessions.Keys, now) then None else Some(dst))
  {
    PairSurvives(c, s, t, i, src, dst, now);
    assert PeersOf(s.sessions[t], s.fwds);
    ReapUnique(c, s, now);
    FullNotLone(ReapSessions(c, s, now), t, i);
  }

  /**
   The sender is cut off although a scan still finds its partner whenever a pass
   drops an idle second leg at its address.
   */
  lemma SecondLegCutsOff(c: Config, s: State, t: Token, i: int, u: Token, l: Leg, src: Addr, dst: Addr, now: int)
    requires Unique(s.sessions) && Partners(s, t, i, src, dst) && !Overdue(c, s.sessions[t], now)
    requires forall k :: k in s.sessions[t].legs ==> !Idle(c, s.fwds, k, now)
    requires u in s.sessions && u != t && l in s.sessions[u].legs && l.addr == src && Idle(c, s.fwds, l, now)
    ensures Partners(Reap(c, s, now), t, i, src, dst)
    ensures Forward(Reap(c, s, now), src) == None
  {
    PairSurvives(c, s, t, i, src, dst, now);
    SurvivorMembers(c, s.fwds, s.sessions[u], now);
    assert l.addr in Dropped(c, s, s.sessions.Keys, now);
  }
}
