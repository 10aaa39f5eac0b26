/**
 The relay's linked state (internal/relay/server.go) and, for every operation on
 it, the state it must leave behind. A `fwd` object is named by an identity and
 stays in `fwds` after its leg is gone, because a forwarder that loaded it
 without the lock may still be holding it.
 */
module RelayState {
  import opened Common

  // Session tokens, accounting keys and ephemeral keys are only ever compared, so
  // each is an identity of its own type. Forwarding records are numbered in the
  // order they are allocated.
  datatype Token = Token(id: int)
  datatype AcctKey = AcctKey(id: int)
  datatype EphKey = EphKey(id: int)
  type FwdId = nat

  datatype Addr = Addr(ip: int, port: int)

  /** Legs are unnamed in network mode; in ticket mode the server names them. */
  datatype LegName = Unnamed | LegA | LegB

  datatype Leg = Leg(addr: Addr, acct: AcctKey, name: LegName, epk: EphKey, fwd: FwdId)

  datatype Fwd = Fwd(peer: Option<Addr>, seen: int)

  datatype Session = Session(legs: seq<Leg>, paired: bool, created: int)

  datatype Config = Config(maxSessions: nat, maxLegsPerIP: nat, ttl: int, pendingPair: int)

  datatype State = State(
    sessions: map<Token, Session>,
    legsPerIP: map<AcctKey, nat>,
    byAddr: map<Addr, FwdId>,
    fwds: map<FwdId, Fwd>,
    next: FwdId)

  const MAX_LEGS_PER_SESSION := 2

  const EMPTY := State(map[], map[], map[], map[], 0)

  // ---- lookups -------------------------------------------------------------

  /** Position of the first leg bound from `a`, or the length when there is none. */
  function FindAddr(legs: seq<Leg>, a: Addr): (i: nat)
    ensures i <= |legs|
    ensures i < |legs| ==> legs[i].addr == a
    ensures forall j :: 0 <= j < i ==> legs[j].addr != a
  {
    if legs == [] || legs[0].addr == a then 0 else
      var k := FindAddr(legs[1..], a);
      assert forall j :: 1 <= j < 1 + k ==> legs[j] == legs[1..][j - 1];
      1 + k
  }

  /** Position of the leg called `n`, or the length when it is free. */
  function FindName(legs: seq<Leg>, n: LegName): (i: nat)
    ensures i <= |legs|
    ensures i < |legs| ==> legs[i].name == n
    ensures forall j :: 0 <= j < i ==> legs[j].name != n
  {
    if legs == [] || legs[0].name == n then 0 else
      var k := FindName(legs[1..], n);
      assert forall j :: 1 <= j < 1 + k ==> legs[j] == legs[1..][j - 1];
      1 + k
  }

  function LegsOf(s: State, t: Token): seq<Leg> {
    if t in s.sessions then s.sessions[t].legs else []
  }

  predicate HasLeg(s: State, t: Token, l: Leg) {
    t in s.sessions && l in s.sessions[t].legs
  }

  // ---- the small writes every operation is made of --------------------------

  function Bump(m: map<AcctKey, nat>, k: AcctKey): map<AcctKey, nat> {
    m[k := Count(m, k) + 1]
  }

  function Release(m: map<AcctKey, nat>, k: AcctKey): map<AcctKey, nat> {
    if Count(m, k) <= 1 then m - {k} else m[k := m[k] - 1]
  }

  function SetPeer(fwds: map<FwdId, Fwd>, f: FwdId, p: Option<Addr>): map<FwdId, Fwd> {
    if f in fwds then fwds[f := fwds[f].(peer := p)] else fwds
  }

  function SetSeen(fwds: map<FwdId, Fwd>, f: FwdId, now: int): map<FwdId, Fwd> {
    if f in fwds then fwds[f := fwds[f].(seen := now)] else fwds
  }

  /** Point the two legs of a full session at each other. */
  function Publish(fwds: map<FwdId, Fwd>, legs: seq<Leg>): map<FwdId, Fwd> {
    if |legs| == 2 then
      SetPeer(SetPeer(fwds, legs[0].fwd, Some(legs[1].addr)), legs[1].fwd, Some(legs[0].addr))
    else fwds
  }

  // ---- binding --------------------------------------------------------------

  datatype Verdict = Claimed | Refreshed | Migrated | AtCapacity | LegCap | LegTaken | MoveRefused

  predicate Refused(v: Verdict) {
    v.AtCapacity? || v.LegCap? || v.LegTaken? || v.MoveRefused?
  }

  /** A new leg joins session `t`, which is created on its first leg. */
  function Claim(s: State, t: Token, l: Leg, now: int): State {
    var ses := if t in s.sessions then s.sessions[t] else Session([], false, now);
    var legs := ses.legs + [l];
    State(
      s.sessions[t := Session(legs, ses.paired || |legs| == 2, ses.created)],
      Bump(s.legsPerIP, l.acct),
      s.byAddr[l.addr := l.fwd],
      Publish(s.fwds[l.fwd := Fwd(None, now)], legs),
      s.next + 1)
  }

  /** Network mode: any admitted source may claim a leg; legs are keyed by address. */
  function BindNetwork(c: Config, s: State, t: Token, src: Addr, acct: AcctKey, now: int): (State, Verdict) {
    var legs := LegsOf(s, t);
    var i := FindAddr(legs, src);
    if t !in s.sessions && |s.sessions| >= c.maxSessions then (s, AtCapacity)
    else if i < |legs| then (s.(fwds := SetSeen(s.fwds, legs[i].fwd, now)), Refreshed)
    else if |legs| >= MAX_LEGS_PER_SESSION || Count(s.legsPerIP, acct) >= c.maxLegsPerIP then (s, LegCap)
    else (Claim(s, t, Leg(src, acct, Unnamed, EphKey(0), s.next), now), Claimed)
  }

  /** Leg `i` of session `t` moves to a new source address. */
  function Migrate(s: State, t: Token, i: nat, src: Addr, acct: AcctKey, now: int): State
    requires i < |LegsOf(s, t)|
  {
    var held := LegsOf(s, t)[i];
    var legs := LegsOf(s, t)[i := held.(addr := src, acct := acct)];
    State(
      s.sessions[t := s.sessions[t].(legs := legs)],
      if held.acct != acct then Bump(Release(s.legsPerIP, held.acct), acct) else s.legsPerIP,
      (s.byAddr - {held.addr})[src := held.fwd],
      SetSeen(Publish(s.fwds, legs), held.fwd, now),
      s.next)
  }

  /** Ticket mode: the server named the session, the leg and the key that owns it. */
  function BindTicketed(c: Config, s: State, t: Token, name: LegName, epk: EphKey,
                        src: Addr, acct: AcctKey, now: int): (State, Verdict)
  {
    var legs := LegsOf(s, t);
    var i := FindName(legs, name);
    if t !in s.sessions && |s.sessions| >= c.maxSessions then (s, AtCapacity)
    else if i == |legs| then
      if |legs| >= MAX_LEGS_PER_SESSION || Count(s.legsPerIP, acct) >= c.maxLegsPerIP then (s, LegCap)
      else (Claim(s, t, Leg(src, acct, name, epk, s.next), now), Claimed)
    else if legs[i].epk != epk then (s, LegTaken)
    else if legs[i].addr == src then (s.(fwds := SetSeen(s.fwds, legs[i].fwd, now)), Refreshed)
    else if legs[i].acct != acct && Count(s.legsPerIP, acct) >= c.maxLegsPerIP then (s, MoveRefused)
    else (Migrate(s, t, i, src, acct, now), Migrated)
  }

  // ---- forwarding -----------------------------------------------------------

  /** Where a datagram from `src` is sent, if anywhere. */
  function Forward(s: State, src: Addr): Option<Addr> {
    if src in s.byAddr && s.byAddr[src] in s.fwds then s.fwds[s.byAddr[src]].peer else None
  }

  /** The forwarder's only write, on the record it loaded, whoever owns that by now. */
  function Touch(s: State, f: FwdId, now: int): State {
    s.(fwds := SetSeen(s.fwds, f, now))
  }

  // ---- reaping --------------------------------------------------------------

  predicate Overdue(c: Config, ses: Session, now: int) {
    !ses.paired && now - ses.created > c.pendingPair
  }

  predicate Idle(c: Config, fwds: map<FwdId, Fwd>, l: Leg, now: int) {
    l.fwd in fwds && now - fwds[l.fwd].seen > c.ttl
  }

  /** The legs among the first `n` that are not idle, in order. */
  function KeptTo(c: Config, fwds: map<FwdId, Fwd>, legs: seq<Leg>, n: nat, now: int): (r: seq<Leg>)
    requires n <= |legs|
    ensures |r| <= n
  {
    if n == 0 then [] else
      KeptTo(c, fwds, legs, n - 1, now) + (if Idle(c, fwds, legs[n - 1], now) then [] else [legs[n - 1]])
  }

  function Kept(c: Config, fwds: map<FwdId, Fwd>, legs: seq<Leg>, now: int): seq<Leg> {
    KeptTo(c, fwds, legs, |legs|, now)
  }

  /** The legs of one session a pass at `now` leaves standing. */
  function Survivors(c: Config, fwds: map<FwdId, Fwd>, ses: Session, now: int): seq<Leg> {
    if Overdue(c, ses, now) then [] else Kept(c, fwds, ses.legs, now)
  }

  function ReapSessions(c: Config, s: State, now: int): map<Token, Session> {
    map t | t in s.sessions && Survivors(c, s.fwds, s.sessions[t], now) != [] ::
      s.sessions[t].(legs := Survivors(c, s.fwds, s.sessions[t], now))
  }

  function Dropped(c: Config, s: State, ts: set<Token>, now: int): set<Addr> {
    set t, l | t in ts && t in s.sessions && l in s.sessions[t].legs
               && l !in Survivors(c, s.fwds, s.sessions[t], now) :: l.addr
  }

  function LoneFwds(m: map<Token, Session>): set<FwdId> {
    set t | t in m && |m[t].legs| == 1 :: m[t].legs[0].fwd
  }

  function Unpeer(fwds: map<FwdId, Fwd>, fs: set<FwdId>): map<FwdId, Fwd> {
    map f | f in fwds :: if f in fs then fwds[f].(peer := None) else fwds[f]
  }

  /**
   One reaper pass, stated without an order: which sessions and legs remain, and
   the counters as a fresh tally of what remains. The pass itself visits sessions
   in an arbitrary order and releases one leg at a time.
   */
  function Reap(c: Config, s: State, now: int): State {
    var sessions := ReapSessions(c, s, now);
    State(sessions,
          Tally(LiveLegs(sessions)),
          s.byAddr - Dropped(c, s, s.sessions.Keys, now),
          Unpeer(s.fwds, LoneFwds(sessions)),
          s.next)
  }

  // ---- counting live legs ---------------------------------------------------

  function Members(legs: seq<Leg>): set<Leg> {
    set l | l in legs
  }

  function LiveLegs(m: map<Token, Session>): set<Leg> {
    set t, l | t in m && l in m[t].legs :: l
  }

  function Charged(ls: set<Leg>, k: AcctKey): set<Leg> {
    set l | l in ls && l.acct == k
  }

  /** A fresh count of legs per accounting key; keys without legs are absent. */
  function Tally(ls: set<Leg>): map<AcctKey, nat> {
    map k | k in (set l | l in ls :: l.acct) :: |Charged(ls, k)|
  }

  // ---- what every reachable state satisfies ----------------------------------

  ghost predicate Distinct(legs: seq<Leg>) {
    forall i, j :: 0 <= i < j < |legs| ==> legs[i].fwd != legs[j].fwd
  }

  /** `home` says which session each forwarding record belongs to. */
  ghost predicate Homed(m: map<Token, Session>, home: map<FwdId, Token>) {
    && (forall t :: t in m ==> Distinct(m[t].legs))
    && (forall t, i :: t in m && 0 <= i < |m[t].legs| ==>
          m[t].legs[i].fwd in home && home[m[t].legs[i].fwd] == t)
  }

  /** No two legs anywhere share a forwarding record. */
  ghost predicate Unique(m: map<Token, Session>) {
    exists home :: Homed(m, home)
  }

  ghost predicate Shape(c: Config, s: State) {
    && |s.sessions| <= c.maxSessions
    && (forall t :: t in s.sessions ==> 1 <= |s.sessions[t].legs| <= MAX_LEGS_PER_SESSION)
    && (forall f: FwdId :: f in s.fwds <==> f < s.next)
    && (forall t, i :: t in s.sessions && 0 <= i < |s.sessions[t].legs|
          ==> s.sessions[t].legs[i].fwd < s.next)
    && Unique(s.sessions)
  }

  ghost predicate Accounted(c: Config, s: State) {
    && s.legsPerIP == Tally(LiveLegs(s.sessions))
    && (forall k :: k in s.legsPerIP ==> 0 < s.legsPerIP[k] <= c.maxLegsPerIP)
  }

  ghost predicate LiveAt(s: State, t: Token, i: int, a: Addr, f: FwdId) {
    t in s.sessions && 0 <= i < |s.sessions[t].legs|
    && s.sessions[t].legs[i].addr == a && s.sessions[t].legs[i].fwd == f
  }

  /** Every routing entry is the record of a live leg bound at that very address. */
  ghost predicate Routed(s: State) {
    forall a :: a in s.byAddr ==> exists t, i :: LiveAt(s, t, i, a, s.byAddr[a])
  }

  ghost predicate PeersOf(ses: Session, fwds: map<FwdId, Fwd>) {
    && 1 <= |ses.legs| <= MAX_LEGS_PER_SESSION
    && (|ses.legs| == 1 ==>
          ses.legs[0].fwd in fwds && fwds[ses.legs[0].fwd].peer == None)
    && (|ses.legs| == 2 ==>
          && ses.paired
          && ses.legs[0].fwd in fwds && fwds[ses.legs[0].fwd].peer == Some(ses.legs[1].addr)
          && ses.legs[1].fwd in fwds && fwds[ses.legs[1].fwd].peer == Some(ses.legs[0].addr))
  }

  /** A lone leg points nowhere; the two legs of a pair point at each other. */
  ghost predicate PeersExact(s: State) {
    forall t :: t in s.sessions ==> PeersOf(s.sessions[t], s.fwds)
  }

  ghost predicate Inv(c: Config, s: State) {
    Shape(c, s) && Accounted(c, s) && Routed(s) && PeersExact(s)
  }

  ghost predicate NamedLegs(legs: seq<Leg>) {
    && (forall i :: 0 <= i < |legs| ==> legs[i].name != Unnamed)
    && (forall i, j :: 0 <= i < j < |legs| ==> legs[i].name != legs[j].name)
  }

  /** Ticket mode only: legs carry distinct server-given names. */
  ghost predicate Named(s: State) {
    forall t :: t in s.sessions ==> NamedLegs(s.sessions[t].legs)
  }
}
