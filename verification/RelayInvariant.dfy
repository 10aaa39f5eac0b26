/** Every relay operation keeps the whole invariant, one conjunct at a time. */
module RelayInvariant {
  import opened Common
  import opened RelayState
  import opened RelayAccounting

  ghost predicate CanClaim(c: Config, s: State, t: Token, l: Leg) {
    && l.fwd == s.next
    && |LegsOf(s, t)| < MAX_LEGS_PER_SESSION
    && (t in s.sessions || |s.sessions| < c.maxSessions)
    && Count(s.legsPerIP, l.acct) < c.maxLegsPerIP
  }

  lemma EmptyInv(c: Config)
    ensures Inv(c, EMPTY) && Named(EMPTY)
  {
    assert Tally(LiveLegs(EMPTY.sessions)) == map[];
    assert Homed(EMPTY.sessions, map[]);
  }

  // ---- claiming a leg ---------------------------------------------------------

  lemma UniqueClaim(m: map<Token, Session>, t: Token, ses: Session, l: Leg)
    requires Unique(m)
    requires ses.legs == (if t in m then m[t].legs else []) + [l]
    requires forall u, j :: u in m && 0 <= j < |m[u].legs| ==> m[u].legs[j].fwd != l.fwd
    ensures Unique(m[t := ses])
  {
    var home :| Homed(m, home);
    var m' := m[t := ses];
    forall u, j | u in m' && 0 <= j < |m'[u].legs|
      ensures m'[u].legs[j].fwd in home[l.fwd := t] && home[l.fwd := t][m'[u].legs[j].fwd] == u
    {
      assert m'[u].legs[j] == l || (u in m && j < |m[u].legs| && m'[u].legs[j] == m[u].legs[j]);
    }
    assert Homed(m', home[l.fwd := t]);
  }

  lemma ClaimShape(c: Config, s: State, t: Token, l: Leg, now: int)
    requires Shape(c, s) && CanClaim(c, s, t, l)
    ensures Shape(c, Claim(s, t, l, now))
  {
    ClaimRecords(c, s, t, l, now);
    ClaimSessions(c, s, t, l, now);
    UniqueClaim(s.sessions, t, Claim(s, t, l, now).sessions[t], l);
  }

  lemma ClaimRecords(c: Config, s: State, t: Token, l: Leg, now: int)
    requires Shape(c, s) && CanClaim(c, s, t, l)
    ensures forall f: FwdId :: f in Claim(s, t, l, now).fwds <==> f < s.next + 1
  {}

  lemma ClaimSessions(c: Config, s: State, t: Token, l: Leg, now: int)
    requires Shape(c, s) && CanClaim(c, s, t, l)
    ensures |Claim(s, t, l, now).sessions| <= c.maxSessions
  {}

  lemma PublishKeys(fwds: map<FwdId, Fwd>, legs: seq<Leg>)
    ensures Publish(fwds, legs).Keys == fwds.Keys
  {}

  lemma ClaimAccounted(c: Config, s: State, t: Token, l: Leg, now: int)
    requires Shape(c, s) && Accounted(c, s) && CanClaim(c, s, t, l)
    ensures Accounted(c, Claim(s, t, l, now))
  {
    ClaimShape(c, s, t, l, now);
    TallyClaim(s.sessions, t, Claim(s, t, l, now).sessions[t], l);
  }

  lemma ClaimRouted(c: Config, s: State, t: Token, l: Leg, now: int)
    requires Shape(c, s) && Routed(s) && CanClaim(c, s, t, l)
    ensures Routed(Claim(s, t, l, now))
  {
    var s' := Claim(s, t, l, now);
    forall a | a in s'.byAddr ensures exists u, i :: LiveAt(s', u, i, a, s'.byAddr[a]) {
      if a == l.addr {
        assert LiveAt(s', t, |LegsOf(s, t)|, a, l.fwd);
      } else {
        var u, i :| LiveAt(s, u, i, a, s.byAddr[a]);
        assert LiveAt(s', u, i, a, s'.byAddr[a]);
      }
    }
  }

  /** Writing records of one session leaves the records of all others alone. */
  lemma OtherRecords(m: map<Token, Session>, t: Token, i: nat, u: Token, j: nat)
    requires Unique(m) && t in m && i < |m[t].legs| && u in m && j < |m[u].legs| && t != u
    ensures m[t].legs[i].fwd != m[u].legs[j].fwd
  {}

  lemma ClaimPeers(c: Config, s: State, t: Token, l: Leg, now: int)
    requires Shape(c, s) && PeersExact(s) && CanClaim(c, s, t, l)
    ensures PeersExact(Claim(s, t, l, now))
  {
    var s' := Claim(s, t, l, now);
    ClaimOwnPeers(c, s, t, l, now);
    forall u | u in s'.sessions && u != t ensures PeersOf(s'.sessions[u], s'.fwds) {
      ClaimOtherPeers(c, s, t, l, now, u);
    }
  }

  lemma ClaimOwnPeers(c: Config, s: State, t: Token, l: Leg, now: int)
    requires Shape(c, s) && PeersExact(s) && CanClaim(c, s, t, l)
    ensures PeersOf(Claim(s, t, l, now).sessions[t], Claim(s, t, l, now).fwds)
  {}

  lemma PublishOther(fwds: map<FwdId, Fwd>, legs: seq<Leg>, f: FwdId)
    requires f in fwds && forall l :: l in legs ==> l.fwd != f
    ensures f in Publish(fwds, legs) && Publish(fwds, legs)[f] == fwds[f]
  {}

  lemma ClaimOtherPeers(c: Config, s: State, t: Token, l: Leg, now: int, u: Token)
    requires Shape(c, s) && PeersExact(s) && CanClaim(c, s, t, l) && u in s.sessions && u != t
    ensures PeersOf(s.sessions[u], Claim(s, t, l, now).fwds)
  {
    var legs, fwds := LegsOf(s, t) + [l], s.fwds[l.fwd := Fwd(None, now)];
    forall j | 0 <= j < |s.sessions[u].legs|
      ensures var f := s.sessions[u].legs[j].fwd; f in Publish(fwds, legs) && Publish(fwds, legs)[f] == s.fwds[f]
    {
      forall k | 0 <= k < |LegsOf(s, t)| ensures LegsOf(s, t)[k].fwd != s.sessions[u].legs[j].fwd {
        OtherRecords(s.sessions, t, k, u, j);
      }
      PublishOther(fwds, legs, s.sessions[u].legs[j].fwd);
    }
  }

  lemma ClaimInv(c: Config, s: State, t: Token, l: Leg, now: int)
    requires Inv(c, s) && CanClaim(c, s, t, l)
    ensures Inv(c, Claim(s, t, l, now))
  {
    ClaimShape(c, s, t, l, now);
    ClaimAccounted(c, s, t, l, now);
    ClaimRouted(c, s, t, l, now);
    ClaimPeers(c, s, t, l, now);
  }

  // ---- moving a leg -----------------------------------------------------------

  lemma MigrateShape(c: Config, s: State, t: Token, i: nat, src: Addr, acct: AcctKey, now: int)
    requires Shape(c, s) && i < |LegsOf(s, t)|
    ensures Shape(c, Migrate(s, t, i, src, acct, now))
  {
    var s' := Migrate(s, t, i, src, acct, now);
    assert s'.sessions.Keys == s.sessions.Keys && |s'.sessions| == |s.sessions|;
    PublishKeys(s.fwds, s'.sessions[t].legs);
    assert s'.fwds.Keys == s.fwds.Keys;
    UniqueMove(s.sessions, t, i, LegsOf(s, t)[i].(addr := src, acct := acct));
  }

  /** A move charges the new key once and frees the old one, within the ceiling. */
  lemma MoveWithinCeiling(c: Config, m: map<AcctKey, nat>, from: AcctKey, to: AcctKey)
    requires forall k :: k in m ==> 0 < m[k] <= c.maxLegsPerIP
    requires Count(m, to) < c.maxLegsPerIP
    ensures var m' := Bump(Release(m, from), to); forall k :: k in m' ==> 0 < m'[k] <= c.maxLegsPerIP
  {}

  lemma MigrateAccounted(c: Config, s: State, t: Token, i: nat, src: Addr, acct: AcctKey, now: int)
    requires Shape(c, s) && Accounted(c, s) && i < |LegsOf(s, t)|
    requires LegsOf(s, t)[i].acct == acct || Count(s.legsPerIP, acct) < c.maxLegsPerIP
    ensures Accounted(c, Migrate(s, t, i, src, acct, now))
  {
    var held := LegsOf(s, t)[i];
    var moved := held.(addr := src, acct := acct);
    TallyMove(s.sessions, t, i, moved);
    if held.acct == acct {
      assert held in LiveLegs(s.sessions) by { assert held in s.sessions[t].legs; }
      assert held in Charged(LiveLegs(s.sessions), held.acct);
      BumpUndoesRelease(LiveLegs(s.sessions), held.acct);
    } else {
      MoveWithinCeiling(c, s.legsPerIP, held.acct, acct);
    }
  }

  lemma MigrateRouted(c: Config, s: State, t: Token, i: nat, src: Addr, acct: AcctKey, now: int)
    requires Shape(c, s) && Routed(s) && i < |LegsOf(s, t)|
    ensures Routed(Migrate(s, t, i, src, acct, now))
  {
    var s' := Migrate(s, t, i, src, acct, now);
    forall a | a in s'.byAddr ensures exists u, j :: LiveAt(s', u, j, a, s'.byAddr[a]) {
      if a == src {
        assert LiveAt(s', t, i, a, s'.byAddr[a]);
      } else {
        var u, j :| LiveAt(s, u, j, a, s.byAddr[a]);
        MigrateLive(s, t, i, src, acct, now, u, j, a);
      }
    }
  }

  lemma MigrateLive(s: State, t: Token, i: nat, src: Addr, acct: AcctKey, now: int, u: Token, j: int, a: Addr)
    requires i < |LegsOf(s, t)| && a != src && a in Migrate(s, t, i, src, acct, now).byAddr
    requires a in s.byAddr && LiveAt(s, u, j, a, s.byAddr[a])
    ensures LiveAt(Migrate(s, t, i, src, acct, now), u, j, a, Migrate(s, t, i, src, acct, now).byAddr[a])
  {}

  lemma MigratePeers(c: Config, s: State, t: Token, i: nat, src: Addr, acct: AcctKey, now: int)
    requires Shape(c, s) && PeersExact(s) && i < |LegsOf(s, t)|
    ensures PeersExact(Migrate(s, t, i, src, acct, now))
  {
    var s' := Migrate(s, t, i, src, acct, now);
    MigrateOwnPeers(c, s, t, i, src, acct, now);
    forall u | u in s'.sessions && u != t ensures PeersOf(s'.sessions[u], s'.fwds) {
      MigrateOtherPeers(c, s, t, i, src, acct, now, u);
    }
  }

  lemma MigrateOtherPeers(c: Config, s: State, t: Token, i: nat, src: Addr, acct: AcctKey, now: int, u: Token)
    requires Shape(c, s) && PeersExact(s) && i < |LegsOf(s, t)| && u in s.sessions && u != t
    ensures PeersOf(s.sessions[u], Migrate(s, t, i, src, acct, now).fwds)
  {
    var legs := LegsOf(s, t)[i := LegsOf(s, t)[i].(addr := src, acct := acct)];
    forall j | 0 <= j < |s.sessions[u].legs|
      ensures var f := s.sessions[u].legs[j].fwd;
        f != LegsOf(s, t)[i].fwd && forall l :: l in legs ==> l.fwd != f
    {
      forall k | 0 <= k < |legs| ensures legs[k].fwd != s.sessions[u].legs[j].fwd {
        OtherRecords(s.sessions, t, k, u, j);
      }
    }
    PublishElsewhere(s.fwds, legs, LegsOf(s, t)[i].fwd, now, s.sessions[u]);
  }

  /** Publishing a pair and refreshing one of its legs leaves other sessions' pointers alone. */
  lemma PublishElsewhere(fwds: map<FwdId, Fwd>, legs: seq<Leg>, g: FwdId, now: int, ses: Session)
    requires PeersOf(ses, fwds)
    requires forall j :: 0 <= j < |ses.legs| ==>
      ses.legs[j].fwd != g && forall l :: l in legs ==> l.fwd != ses.legs[j].fwd
    ensures PeersOf(ses, SetSeen(Publish(fwds, legs), g, now))
  {}

  lemma MigrateOwnPeers(c: Config, s: State, t: Token, i: nat, src: Addr, acct: AcctKey, now: int)
    requires Shape(c, s) && PeersExact(s) && i < |LegsOf(s, t)|
    ensures PeersOf(Migrate(s, t, i, src, acct, now).sessions[t], Migrate(s, t, i, src, acct, now).fwds)
  {
    DistinctInSession(s.sessions, t);
    assert PeersOf(s.sessions[t], s.fwds);
  }

  lemma MigrateInv(c: Config, s: State, t: Token, i: nat, src: Addr, acct: AcctKey, now: int)
    requires Inv(c, s) && i < |LegsOf(s, t)|
    requires LegsOf(s, t)[i].acct == acct || Count(s.legsPerIP, acct) < c.maxLegsPerIP
    ensures Inv(c, Migrate(s, t, i, src, acct, now))
  {
    MigrateShape(c, s, t, i, src, acct, now);
    MigrateAccounted(c, s, t, i, src, acct, now);
    MigrateRouted(c, s, t, i, src, acct, now);
    MigratePeers(c, s, t, i, src, acct, now);
  }

  // ---- refreshing a record ------------------------------------------------------

  lemma TouchInv(c: Config, s: State, f: FwdId, now: int)
    requires Inv(c, s)
    ensures Inv(c, Touch(s, f, now))
  {
    var s' := Touch(s, f, now);
    assert forall g :: g in s.fwds ==> g in s'.fwds && s'.fwds[g].peer == s.fwds[g].peer;
    forall a | a in s'.byAddr ensures exists t, i :: LiveAt(s', t, i, a, s'.byAddr[a]) {
      var t, i :| LiveAt(s, t, i, a, s.byAddr[a]);
      assert LiveAt(s', t, i, a, s'.byAddr[a]);
    }
  }

  // ---- the reaper pass ------------------------------------------------------------

  /** The filter keeps exactly the legs that are not idle. */
  lemma {:induction false} KeptMembers(c: Config, fwds: map<FwdId, Fwd>, legs: seq<Leg>, n: nat, now: int)
    requires n <= |legs|
    ensures forall l :: l in KeptTo(c, fwds, legs, n, now) <==> l in legs[..n] && !Idle(c, fwds, l, now)
  {
    if n > 0 {
      assert legs[..n] == legs[..n - 1] + [legs[n - 1]];
      KeptMembers(c, fwds, legs, n - 1, now);
    }
  }

  lemma SurvivorMembers(c: Config, fwds: map<FwdId, Fwd>, ses: Session, now: int)
    ensures forall l :: l in Survivors(c, fwds, ses, now) <==>
        l in ses.legs && !Overdue(c, ses, now) && !Idle(c, fwds, l, now)
  {
    assert ses.legs[..|ses.legs|] == ses.legs;
    KeptMembers(c, fwds, ses.legs, |ses.legs|, now);
  }

  lemma {:induction false} KeptDistinct(c: Config, fwds: map<FwdId, Fwd>, legs: seq<Leg>, n: nat, now: int)
    requires n <= |legs| && Distinct(legs)
    ensures Distinct(KeptTo(c, fwds, legs, n, now))
  {
    if n > 0 {
      KeptDistinct(c, fwds, legs, n - 1, now);
      KeptMembers(c, fwds, legs, n - 1, now);
      var r := KeptTo(c, fwds, legs, n - 1, now);
      forall i | 0 <= i < |r| ensures r[i].fwd != legs[n - 1].fwd {
        assert r[i] in legs[..n - 1];
      }
    }
  }

  lemma {:induction false} KeptAll(c: Config, fwds: map<FwdId, Fwd>, legs: seq<Leg>, n: nat, now: int)
    requires n <= |legs| && |KeptTo(c, fwds, legs, n, now)| == n
    ensures KeptTo(c, fwds, legs, n, now) == legs[..n]
  {
    if n > 0 {
      KeptAll(c, fwds, legs, n - 1, now);
      assert legs[..n] == legs[..n - 1] + [legs[n - 1]];
    }
  }

  /** Where a surviving leg stood before the pass. */
  lemma SurvivorOrigin(c: Config, s: State, t: Token, i: nat, now: int)
    requires t in s.sessions
    requires i < |Survivors(c, s.fwds, s.sessions[t], now)|
    ensures exists j ::
      0 <= j < |s.sessions[t].legs| && s.sessions[t].legs[j] == Survivors(c, s.fwds, s.sessions[t], now)[i]
  {
    SurvivorMembers(c, s.fwds, s.sessions[t], now);
    assert Survivors(c, s.fwds, s.sessions[t], now)[i] in s.sessions[t].legs;
  }

  lemma DistinctInSession(m: map<Token, Session>, t: Token)
    requires Unique(m) && t in m
    ensures Distinct(m[t].legs)
  {}

  lemma ReapUnique(c: Config, s: State, now: int)
    requires Unique(s.sessions)
    ensures Unique(ReapSessions(c, s, now))
  {
    var home :| Homed(s.sessions, home);
    var m' := ReapSessions(c, s, now);
    forall t | t in m' ensures Distinct(m'[t].legs) {
      KeptDistinct(c, s.fwds, s.sessions[t].legs, |s.sessions[t].legs|, now);
    }
    forall t, i | t in m' && 0 <= i < |m'[t].legs| ensures m'[t].legs[i].fwd in home && home[m'[t].legs[i].fwd] == t {
      SurvivorOrigin(c, s, t, i, now);
    }
    assert Homed(m', home);
  }

  lemma ReapShape(c: Config, s: State, now: int)
    requires Shape(c, s)
    ensures Shape(c, Reap(c, s, now))
  {
    ReapSize(c, s, now);
    ReapLegs(c, s, now);
    ReapRecords(c, s, now);
    ReapUnique(c, s, now);
  }

  lemma ReapSize(c: Config, s: State, now: int)
    ensures |Reap(c, s, now).sessions| <= |s.sessions|
  {
    var s' := Reap(c, s, now);
    SubsetSize(s'.sessions.Keys, s.sessions.Keys);
    assert |s'.sessions.Keys| == |s'.sessions| && |s.sessions.Keys| == |s.sessions|;
  }

  lemma ReapLegs(c: Config, s: State, now: int)
    requires Shape(c, s)
    ensures forall t :: t in Reap(c, s, now).sessions ==>
      1 <= |Reap(c, s, now).sessions[t].legs| <= MAX_LEGS_PER_SESSION
  {}

  lemma ReapRecords(c: Config, s: State, now: int)
    requires Shape(c, s)
    ensures forall f: FwdId :: f in Reap(c, s, now).fwds <==> f < Reap(c, s, now).next
    ensures var s' := Reap(c, s, now);
      forall t, i :: t in s'.sessions && 0 <= i < |s'.sessions[t].legs| ==> s'.sessions[t].legs[i].fwd < s'.next
  {
    var s' := Reap(c, s, now);
    forall t, i | t in s'.sessions && 0 <= i < |s'.sessions[t].legs|
      ensures s'.sessions[t].legs[i].fwd < s'.next
    {
      SurvivorOrigin(c, s, t, i, now);
    }
  }

  lemma ReapAccounted(c: Config, s: State, now: int)
    requires Shape(c, s) && Accounted(c, s)
    ensures Accounted(c, Reap(c, s, now))
  {
    var s' := Reap(c, s, now);
    var was, live := LiveLegs(s.sessions), LiveLegs(s'.sessions);
    forall l | l in live ensures l in was {
      var t :| t in s'.sessions && l in s'.sessions[t].legs;
      SurvivorMembers(c, s.fwds, s.sessions[t], now);
      assert l in s.sessions[t].legs;
    }
    forall k | k in s'.legsPerIP ensures 0 < s'.legsPerIP[k] <= c.maxLegsPerIP {
      TallyCounts(live, k);
      TallyCounts(was, k);
      SubsetSize(Charged(live, k), Charged(was, k));
      assert Count(s.legsPerIP, k) <= c.maxLegsPerIP;
    }
  }

  /** A leg whose address was not dropped survived the pass. */
  lemma RoutedSurvives(c: Config, s: State, t: Token, i: nat, now: int) returns (j: nat)
    requires t in s.sessions && i < |s.sessions[t].legs|
    requires s.sessions[t].legs[i].addr !in Dropped(c, s, s.sessions.Keys, now)
    ensures LiveAt(Reap(c, s, now), t, j, s.sessions[t].legs[i].addr, s.sessions[t].legs[i].fwd)
  {
    var l := s.sessions[t].legs[i];
    assert l in Survivors(c, s.fwds, s.sessions[t], now);
    j :| 0 <= j < |Survivors(c, s.fwds, s.sessions[t], now)| && Survivors(c, s.fwds, s.sessions[t], now)[j] == l;
  }

  lemma ReapRouted(c: Config, s: State, now: int)
    requires Routed(s)
    ensures Routed(Reap(c, s, now))
  {
    forall a | a in Reap(c, s, now).byAddr
      ensures exists t, i :: LiveAt(Reap(c, s, now), t, i, a, Reap(c, s, now).byAddr[a])
    {
      var t, i :| LiveAt(s, t, i, a, s.byAddr[a]);
      var j := RoutedSurvives(c, s, t, i, now);
    }
  }

  lemma ReapFull(c: Config, s: State, t: Token, now: int)
    requires Shape(c, s) && t in ReapSessions(c, s, now) && |ReapSessions(c, s, now)[t].legs| == 2
    ensures ReapSessions(c, s, now)[t].legs == s.sessions[t].legs
  {
    KeptAll(c, s.fwds, s.sessions[t].legs, |s.sessions[t].legs|, now);
    assert s.sessions[t].legs[..|s.sessions[t].legs|] == s.sessions[t].legs;
  }

  lemma FullNotLone(m: map<Token, Session>, t: Token, i: nat)
    requires Unique(m) && t in m && |m[t].legs| == 2 && i < 2
    ensures m[t].legs[i].fwd !in LoneFwds(m)
  {}

  lemma ReapPeersAt(c: Config, s: State, t: Token, now: int)
    requires Shape(c, s) && t in ReapSessions(c, s, now) && PeersOf(s.sessions[t], s.fwds)
    ensures PeersOf(ReapSessions(c, s, now)[t], Reap(c, s, now).fwds)
  {
    var m := ReapSessions(c, s, now);
    if |m[t].legs| == 1 {
      SurvivorOrigin(c, s, t, 0, now);
      assert m[t].legs[0].fwd in LoneFwds(m);
    } else if |m[t].legs| == 2 {
      ReapFull(c, s, t, now);
      ReapUnique(c, s, now);
      FullNotLone(m, t, 0);
      FullNotLone(m, t, 1);
    }
  }

  lemma ReapPeers(c: Config, s: State, now: int)
    requires Shape(c, s) && PeersExact(s)
    ensures PeersExact(Reap(c, s, now))
  {
    forall t | t in ReapSessions(c, s, now) ensures PeersOf(ReapSessions(c, s, now)[t], Reap(c, s, now).fwds) {
      ReapPeersAt(c, s, t, now);
    }
  }

  lemma ReapInv(c: Config, s: State, now: int)
    requires Inv(c, s)
    ensures Inv(c, Reap(c, s, now))
  {
    ReapShape(c, s, now);
    ReapAccounted(c, s, now);
    ReapRouted(c, s, now);
    ReapPeers(c, s, now);
  }

  lemma ReapNamedAt(c: Config, s: State, t: Token, now: int)
    requires Shape(c, s) && t in ReapSessions(c, s, now) && NamedLegs(s.sessions[t].legs)
    ensures NamedLegs(ReapSessions(c, s, now)[t].legs)
  {
    var legs := ReapSessions(c, s, now)[t].legs;
    if |legs| == 2 {
      ReapFull(c, s, t, now);
    } else {
      SurvivorOrigin(c, s, t, 0, now);
    }
  }

  lemma ReapNamed(c: Config, s: State, now: int)
    requires Shape(c, s) && Named(s)
    ensures Named(Reap(c, s, now))
  {
    forall t | t in ReapSessions(c, s, now) ensures NamedLegs(ReapSessions(c, s, now)[t].legs) {
      ReapNamedAt(c, s, t, now);
    }
  }
}
