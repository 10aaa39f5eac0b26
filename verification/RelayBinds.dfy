/**
 When a bind must succeed, and what it then leaves: in any state the relay can be in, the
 verdict is decided by who holds the leg, by the sessions there are and by the live legs
 charged to the sender, and a bind that is not refused leaves its leg in place.
 */
module RelayBinds {
  import opened Common
  import opened RelayState
  import opened RelayAccounting
  import opened RelayInvariant
  import opened RelayRuns

  /** As many live legs are charged to `acct` as may be. */
  ghost predicate AtCeiling(c: Config, s: State, acct: AcctKey) {
    |Charged(LiveLegs(s.sessions), acct)| >= c.maxLegsPerIP
  }

  predicate NoSlot(c: Config, s: State, t: Token) {
    t !in s.sessions && |s.sessions| >= c.maxSessions
  }

  lemma CeilingCounts(c: Config, s: State, acct: AcctKey)
    requires Accounted(c, s)
    ensures AtCeiling(c, s, acct) <==> Count(s.legsPerIP, acct) >= c.maxLegsPerIP
  {
    TallyCounts(LiveLegs(s.sessions), acct);
  }

  /** Leg `l` of session `t` was heard of at `now`, and its partner, if any, sends to where it is. */
  ghost predicate Bound(s: State, t: Token, l: Leg, now: int) {
    && HasLeg(s, t, l) && l.fwd in s.fwds && s.fwds[l.fwd].seen == now
    && forall m :: m in s.sessions[t].legs && m.fwd != l.fwd ==> m.fwd in s.fwds && s.fwds[m.fwd].peer == Some(l.addr)
  }

  /** Every leg other than the one with record `f` is as it was. */
  ghost predicate OthersKept(s: State, s': State, f: FwdId) {
    forall t, l: Leg :: l.fwd != f ==> (HasLeg(s, t, l) <==> HasLeg(s', t, l))
  }

  /** The partner's datagrams, if its address leads to its own record, go to the leg. */
  lemma BoundForwards(s: State, t: Token, l: Leg, m: Leg, now: int)
    requires Bound(s, t, l, now) && m in s.sessions[t].legs && m.fwd != l.fwd
    requires m.addr in s.byAddr && s.byAddr[m.addr] == m.fwd
    ensures Forward(s, m.addr) == Some(l.addr)
  {}

  // ---- the three things a bind can do ------------------------------------------------------

  lemma PairPoints(s: State, t: Token, l: Leg, m: Leg)
    requires PeersExact(s) && HasLeg(s, t, l) && HasLeg(s, t, m) && m.fwd != l.fwd
    ensures m.fwd in s.fwds && s.fwds[m.fwd].peer == Some(l.addr)
  {
    assert PeersOf(s.sessions[t], s.fwds);
  }

  lemma BoundIn(c: Config, s: State, t: Token, l: Leg, now: int)
    requires Inv(c, s) && HasLeg(s, t, l) && l.fwd in s.fwds && s.fwds[l.fwd].seen == now
    ensures Bound(s, t, l, now)
  {
    forall m | m in s.sessions[t].legs && m.fwd != l.fwd
      ensures m.fwd in s.fwds && s.fwds[m.fwd].peer == Some(l.addr)
    {
      PairPoints(s, t, l, m);
    }
  }

  lemma TouchBound(c: Config, s: State, t: Token, l: Leg, now: int)
    requires Inv(c, s) && HasLeg(s, t, l)
    ensures Bound(Touch(s, l.fwd, now), t, l, now) && OthersKept(s, Touch(s, l.fwd, now), l.fwd)
  {
    TouchInv(c, s, l.fwd, now);
    BoundIn(c, Touch(s, l.fwd, now), t, l, now);
  }

  lemma ClaimSeen(s: State, t: Token, l: Leg, now: int)
    ensures l.fwd in Claim(s, t, l, now).fwds && Claim(s, t, l, now).fwds[l.fwd].seen == now
  {}

  lemma ClaimOthers(s: State, t: Token, l: Leg, now: int)
    ensures OthersKept(s, Claim(s, t, l, now), l.fwd) && HasLeg(Claim(s, t, l, now), t, l)
  {}

  lemma ClaimBound(c: Config, s: State, t: Token, l: Leg, now: int)
    requires Inv(c, s) && CanClaim(c, s, t, l)
    ensures Bound(Claim(s, t, l, now), t, l, now) && OthersKept(s, Claim(s, t, l, now), l.fwd)
    ensures l.addr in Claim(s, t, l, now).byAddr && Claim(s, t, l, now).byAddr[l.addr] == l.fwd
  {
    ClaimInv(c, s, t, l, now);
    ClaimSeen(s, t, l, now);
    ClaimOthers(s, t, l, now);
    BoundIn(c, Claim(s, t, l, now), t, l, now);
  }

  lemma MigrateSeen(c: Config, s: State, t: Token, i: nat, src: Addr, acct: AcctKey, now: int)
    requires Shape(c, s) && i < |LegsOf(s, t)|
    ensures var f, s' := LegsOf(s, t)[i].fwd, Migrate(s, t, i, src, acct, now);
      f in s'.fwds && s'.fwds[f].seen == now
  {
    PublishKeys(s.fwds, LegsOf(s, t)[i := LegsOf(s, t)[i].(addr := src, acct := acct)]);
  }

  lemma MigrateOthers(c: Config, s: State, t: Token, i: nat, src: Addr, acct: AcctKey, now: int)
    requires Shape(c, s) && i < |LegsOf(s, t)|
    ensures OthersKept(s, Migrate(s, t, i, src, acct, now), LegsOf(s, t)[i].fwd)
    ensures HasLeg(Migrate(s, t, i, src, acct, now), t, LegsOf(s, t)[i].(addr := src, acct := acct))
  {
    var s', f := Migrate(s, t, i, src, acct, now), LegsOf(s, t)[i].fwd;
    var was, legs := s.sessions[t].legs, s'.sessions[t].legs;
    assert legs[i] in legs;
    forall l: Leg | l.fwd != f ensures l in was <==> l in legs {
      if l in was {
        var j :| 0 <= j < |was| && was[j] == l;
        assert legs[j] == l;
      }
      if l in legs {
        var j :| 0 <= j < |legs| && legs[j] == l;
        assert was[j] == l;
      }
    }
  }

  lemma MigrateBound(c: Config, s: State, t: Token, i: nat, src: Addr, acct: AcctKey, now: int)
    requires Inv(c, s) && i < |LegsOf(s, t)|
    requires LegsOf(s, t)[i].acct == acct || Count(s.legsPerIP, acct) < c.maxLegsPerIP
    ensures var l, s' := LegsOf(s, t)[i], Migrate(s, t, i, src, acct, now);
      && Bound(s', t, l.(addr := src, acct := acct), now) && OthersKept(s, s', l.fwd)
      && src in s'.byAddr && s'.byAddr[src] == l.fwd
  {
    MigrateInv(c, s, t, i, src, acct, now);
    MigrateSeen(c, s, t, i, src, acct, now);
    MigrateOthers(c, s, t, i, src, acct, now);
    BoundIn(c, Migrate(s, t, i, src, acct, now), t, LegsOf(s, t)[i].(addr := src, acct := acct), now);
  }

  // ---- ticket mode ---------------------------------------------------------------------------

  lemma NameIndex(legs: seq<Leg>, l: Leg)
    requires NamedLegs(legs) && l in legs
    ensures FindName(legs, l.name) < |legs| && legs[FindName(legs, l.name)] == l
  {
    var j :| 0 <= j < |legs| && legs[j] == l;
  }

  lemma HolderOutcome(c: Config, s: State, t: Token, l: Leg, src: Addr, acct: AcctKey, now: int)
    requires Inv(c, s) && Named(s) && HasLeg(s, t, l)
    ensures var i := FindName(LegsOf(s, t), l.name);
      && i < |LegsOf(s, t)| && LegsOf(s, t)[i] == l
      && BindTicketed(c, s, t, l.name, l.epk, src, acct, now) ==
        if l.addr == src then (Touch(s, l.fwd, now), Refreshed)
        else if l.acct != acct && AtCeiling(c, s, acct) then (s, MoveRefused)
        else (Migrate(s, t, i, src, acct, now), Migrated)
  {
    NameIndex(s.sessions[t].legs, l);
    CeilingCounts(c, s, acct);
  }

  /** Leg `l`, with its name, key and record, is now at `src`; no other leg has changed. */
  ghost predicate MovedTo(s: State, s': State, t: Token, l: Leg, src: Addr, acct: AcctKey, now: int) {
    && Bound(s', t, l.(addr := src, acct := if l.addr == src then l.acct else acct), now)
    && OthersKept(s, s', l.fwd)
    && (l.addr != src ==> src in s'.byAddr && s'.byAddr[src] == l.fwd)
  }

  lemma HolderStays(c: Config, s: State, t: Token, l: Leg, acct: AcctKey, now: int)
    requires Inv(c, s) && HasLeg(s, t, l)
    ensures MovedTo(s, Touch(s, l.fwd, now), t, l, l.addr, acct, now)
  {
    TouchBound(c, s, t, l, now);
    assert l.(addr := l.addr, acct := l.acct) == l;
  }

  lemma HolderMoves(c: Config, s: State, t: Token, i: nat, src: Addr, acct: AcctKey, now: int)
    requires Inv(c, s) && i < |LegsOf(s, t)| && LegsOf(s, t)[i].addr != src
    requires LegsOf(s, t)[i].acct == acct || !AtCeiling(c, s, acct)
    ensures MovedTo(s, Migrate(s, t, i, src, acct, now), t, LegsOf(s, t)[i], src, acct, now)
  {
    CeilingCounts(c, s, acct);
    MigrateBound(c, s, t, i, src, acct, now);
  }

  /**
   A bind by the key that holds the leg is refused if and only if it comes from a new address
   under another accounting key that has no room. Otherwise the leg, with its name, key and
   record, is at the sender's address afterwards.
   */
  lemma HolderBinds(c: Config, s: State, t: Token, l: Leg, src: Addr, acct: AcctKey, now: int)
    requires Inv(c, s) && Named(s) && HasLeg(s, t, l)
    ensures var (s', v) := BindTicketed(c, s, t, l.name, l.epk, src, acct, now);
      && (Refused(v) <==> l.addr != src && l.acct != acct && AtCeiling(c, s, acct))
      && (if Refused(v) then s' == s else MovedTo(s, s', t, l, src, acct, now))
  {
    HolderOutcome(c, s, t, l, src, acct, now);
    HolderAnswered(c, s, t, FindName(LegsOf(s, t), l.name), src, acct, now);
  }

  lemma HolderAnswered(c: Config, s: State, t: Token, i: nat, src: Addr, acct: AcctKey, now: int)
    requires Inv(c, s) && i < |LegsOf(s, t)|
    ensures var l := LegsOf(s, t)[i];
      && (l.addr == src ==> MovedTo(s, Touch(s, l.fwd, now), t, l, src, acct, now))
      && (l.addr != src && (l.acct == acct || !AtCeiling(c, s, acct)) ==>
            MovedTo(s, Migrate(s, t, i, src, acct, now), t, l, src, acct, now))
  {
    var l := LegsOf(s, t)[i];
    if l.addr == src {
      HolderStays(c, s, t, l, acct, now);
    } else if l.acct == acct || !AtCeiling(c, s, acct) {
      HolderMoves(c, s, t, i, src, acct, now);
    }
  }

  /** A bind by any other key is refused, whatever else holds, and changes nothing. */
  lemma OtherKeyIsRefused(c: Config, s: State, t: Token, l: Leg, epk: EphKey, src: Addr, acct: AcctKey, now: int)
    requires Named(s) && HasLeg(s, t, l) && epk != l.epk
    ensures BindTicketed(c, s, t, l.name, epk, src, acct, now) == (s, LegTaken)
  {
    NameIndex(s.sessions[t].legs, l);
  }

  predicate NameFree(s: State, t: Token, name: LegName) {
    forall l :: l in LegsOf(s, t) ==> l.name != name
  }

  lemma FreeIndex(legs: seq<Leg>, name: LegName)
    requires forall l :: l in legs ==> l.name != name
    ensures FindName(legs, name) == |legs|
  {}

  /** A session with a free name has at most one leg: there are two names. */
  lemma FreeNameHasRoom(s: State, t: Token, name: LegName)
    requires Named(s) && NameFree(s, t, name) && name != Unnamed
    ensures |LegsOf(s, t)| < MAX_LEGS_PER_SESSION
  {
    if |LegsOf(s, t)| >= 2 {
      TwoLegsTakeBoth(LegsOf(s, t), name);
    }
  }

  lemma TwoLegsTakeBoth(legs: seq<Leg>, name: LegName)
    requires NamedLegs(legs) && |legs| >= 2 && name != Unnamed
    ensures exists l :: l in legs && l.name == name
  {
    assert legs[0] in legs && legs[1] in legs && legs[0].name != legs[1].name;
  }

  lemma FreeOutcome(c: Config, s: State, t: Token, name: LegName, epk: EphKey, src: Addr, acct: AcctKey, now: int)
    requires Inv(c, s) && Named(s) && NameFree(s, t, name) && name != Unnamed
    ensures BindTicketed(c, s, t, name, epk, src, acct, now) ==
      if NoSlot(c, s, t) then (s, AtCapacity)
      else if AtCeiling(c, s, acct) then (s, LegCap)
      else (Claim(s, t, Leg(src, acct, name, epk, s.next), now), Claimed)
  {
    FreeIndex(LegsOf(s, t), name);
    FreeNameHasRoom(s, t, name);
    CeilingCounts(c, s, acct);
  }

  /**
   A bind for a free leg is refused if and only if there is no room for its session or its
   accounting key has none. Otherwise the leg is at the sender's address afterwards.
   */
  lemma FreeLegIsClaimed(c: Config, s: State, t: Token, name: LegName, epk: EphKey, src: Addr, acct: AcctKey, now: int)
    requires Inv(c, s) && Named(s) && NameFree(s, t, name) && name != Unnamed
    ensures var (s', v) := BindTicketed(c, s, t, name, epk, src, acct, now);
      && (Refused(v) <==> NoSlot(c, s, t) || AtCeiling(c, s, acct))
      && (v == AtCapacity <==> NoSlot(c, s, t))
      && (Refused(v) ==> s' == s)
      && (!Refused(v) ==> Bound(s', t, Leg(src, acct, name, epk, s.next), now) && OthersKept(s, s', s.next))
      && (!Refused(v) ==> s.next !in s.fwds && src in s'.byAddr && s'.byAddr[src] == s.next)
  {
    FreeOutcome(c, s, t, name, epk, src, acct, now);
    FreeNameHasRoom(s, t, name);
    CeilingCounts(c, s, acct);
    if !NoSlot(c, s, t) && !AtCeiling(c, s, acct) {
      ClaimBound(c, s, t, Leg(src, acct, name, epk, s.next), now);
    }
  }

  /** The relay has room for a bind of this leg by this key. */
  ghost predicate Room(c: Config, s: State, t: Token, name: LegName, epk: EphKey, src: Addr, acct: AcctKey) {
    || (NameFree(s, t, name) && !NoSlot(c, s, t) && !AtCeiling(c, s, acct))
    || exists m :: Holds(s, t, name, epk, m) && (m.addr == src || m.acct == acct || !AtCeiling(c, s, acct))
  }

  predicate Holds(s: State, t: Token, name: LegName, epk: EphKey, m: Leg) {
    HasLeg(s, t, m) && m.name == name && m.epk == epk
  }

  ghost predicate Placed(s: State, t: Token, name: LegName, epk: EphKey, src: Addr, now: int) {
    exists m :: Holds(s, t, name, epk, m) && m.addr == src && Bound(s, t, m, now)
  }

  /** So a ticketed bind leaves its leg at the sender's address exactly if there is room for it. */
  lemma PlacedIffRoom(c: Config, s: State, t: Token, name: LegName, epk: EphKey, src: Addr, acct: AcctKey, now: int)
    requires Inv(c, s) && Named(s) && name != Unnamed
    ensures var (s', v) := BindTicketed(c, s, t, name, epk, src, acct, now);
      if Room(c, s, t, name, epk, src, acct) then Placed(s', t, name, epk, src, now)
      else s' == s && forall m :: Holds(s', t, name, epk, m) ==> m.addr != src
  {
    if NameFree(s, t, name) {
      FreeLegIsClaimed(c, s, t, name, epk, src, acct, now);
      assert forall m :: !Holds(s, t, name, epk, m);
    } else {
      var l :| l in LegsOf(s, t) && l.name == name;
      OnlyHolder(s, t, l);
      if l.epk == epk {
        HolderPlaced(c, s, t, l, src, acct, now);
      } else {
        OtherKeyIsRefused(c, s, t, l, epk, src, acct, now);
      }
    }
  }

  lemma HolderPlaced(c: Config, s: State, t: Token, l: Leg, src: Addr, acct: AcctKey, now: int)
    requires Inv(c, s) && Named(s) && HasLeg(s, t, l)
    ensures var (s', v) := BindTicketed(c, s, t, l.name, l.epk, src, acct, now);
      if Room(c, s, t, l.name, l.epk, src, acct) then Placed(s', t, l.name, l.epk, src, now)
      else s' == s && forall m :: Holds(s', t, l.name, l.epk, m) ==> m.addr != src
  {
    HolderRoom(c, s, t, l, src, acct);
    HolderBinds(c, s, t, l, src, acct, now);
  }

  lemma HolderRoom(c: Config, s: State, t: Token, l: Leg, src: Addr, acct: AcctKey)
    requires Named(s) && HasLeg(s, t, l)
    ensures Room(c, s, t, l.name, l.epk, src, acct) <==> l.addr == src || l.acct == acct || !AtCeiling(c, s, acct)
    ensures forall m :: Holds(s, t, l.name, l.epk, m) ==> m == l
  {
    OnlyHolder(s, t, l);
    assert Holds(s, t, l.name, l.epk, l);
  }

  lemma OnlyHolder(s: State, t: Token, l: Leg)
    requires Named(s) && HasLeg(s, t, l)
    ensures forall m :: HasLeg(s, t, m) && m.name == l.name ==> m == l
  {}

  // ---- network mode --------------------------------------------------------------------------

  /** From an address that holds a leg of the session, a bind refreshes such a leg and nothing else. */
  lemma AddressRefreshes(c: Config, s: State, t: Token, src: Addr, acct: AcctKey, now: int)
    requires Inv(c, s) && exists l :: l in LegsOf(s, t) && l.addr == src
    ensures var (s', v) := BindNetwork(c, s, t, src, acct, now);
      v == Refreshed && exists l: Leg :: l.addr == src && Bound(s', t, l, now) && s' == Touch(s, l.fwd, now)
  {
    var legs := LegsOf(s, t);
    var i := FindAddr(legs, src);
    var l :| l in legs && l.addr == src;
    var j :| 0 <= j < |legs| && legs[j] == l;
    assert i < |legs| && legs[i] in legs;
    TouchBound(c, s, t, legs[i], now);
  }

  /**
   From any other address it is refused if and only if the session is full, or there is no
   room for it, or for its accounting key. Otherwise it claims a leg there.
   */
  lemma AddressClaims(c: Config, s: State, t: Token, src: Addr, acct: AcctKey, now: int)
    requires Inv(c, s) && forall l :: l in LegsOf(s, t) ==> l.addr != src
    ensures var (s', v) := BindNetwork(c, s, t, src, acct, now);
      && (Refused(v) <==> NoSlot(c, s, t) || |LegsOf(s, t)| == 2 || AtCeiling(c, s, acct))
      && (v == AtCapacity <==> NoSlot(c, s, t))
      && (Refused(v) ==> s' == s)
      && (!Refused(v) ==> Bound(s', t, Leg(src, acct, Unnamed, EphKey(0), s.next), now) && OthersKept(s, s', s.next))
      && (!Refused(v) ==> s.next !in s.fwds && src in s'.byAddr && s'.byAddr[src] == s.next)
  {
    var legs := LegsOf(s, t);
    assert FindAddr(legs, src) == |legs|;
    assert |legs| <= MAX_LEGS_PER_SESSION;
    CeilingCounts(c, s, acct);
    if !NoSlot(c, s, t) && |legs| < 2 && !AtCeiling(c, s, acct) {
      ClaimBound(c, s, t, Leg(src, acct, Unnamed, EphKey(0), s.next), now);
    }
  }
}
