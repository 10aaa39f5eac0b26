/**
 The relay server itself (internal/relay/server.go, internal/relay/tickets.go):
 its fields are updated in place, sessions are created before the checks that may
 refuse the leg, and the reaper walks the table in any order, releasing one leg at
 a time. Each method is proved to leave exactly the state its specification in
 `RelayState` names.
 */
module RelayServer {
  import opened Common
  import opened RelayState
  import opened RelayInvariant
  import opened RelayReaper
  import opened Tickets

  const DEFAULT_MAX_SESSIONS := 4096
  const DEFAULT_MAX_LEGS_PER_IP := 64
  const PENDING_PAIR_TIMEOUT := 60_000_000_000

  /** A claim, read off the sessions as they are once `t` is there. */
  lemma ClaimFrom(s: State, begun: map<Token, Session>, t: Token, l: Leg, now: int)
    requires t in begun
    requires begun == s.sessions || (t !in s.sessions && begun == s.sessions[t := Session([], false, now)])
    ensures var legs := begun[t].legs + [l];
      Claim(s, t, l, now) == State(
        begun[t := Session(legs, begun[t].paired || |legs| == 2, begun[t].created)],
        Bump(s.legsPerIP, l.acct), s.byAddr[l.addr := l.fwd],
        Publish(s.fwds[l.fwd := Fwd(None, now)], legs), s.next + 1)
  {}

  class Server {
    const cfg: Config
    var sessions: map<Token, Session>
    var legsPerIP: map<AcctKey, nat>
    var byAddr: map<Addr, FwdId>
    var fwds: map<FwdId, Fwd>
    var next: FwdId

    function Abs(): State
      reads this
    {
      State(sessions, legsPerIP, byAddr, fwds, next)
    }

    ghost predicate Valid()
      reads this
    {
      Inv(cfg, Abs())
    }

    constructor (maxSessions: int, maxLegsPerIP: int, ttl: int)
      ensures Valid() && Abs() == EMPTY
      ensures cfg.maxSessions == (if maxSessions > 0 then maxSessions else 4096)
      ensures cfg.maxLegsPerIP == (if maxLegsPerIP > 0 then maxLegsPerIP else 64)
      ensures cfg.ttl == ttl && cfg.pendingPair == 60_000_000_000
    {
      cfg := Config(
        if maxSessions <= 0 then DEFAULT_MAX_SESSIONS else maxSessions,
        if maxLegsPerIP <= 0 then DEFAULT_MAX_LEGS_PER_IP else maxLegsPerIP,
        ttl,
        PENDING_PAIR_TIMEOUT);
      sessions, legsPerIP, byAddr, fwds, next := map[], map[], map[], map[], 0;
      new;
      EmptyInv(cfg);
    }

    /** Take back a session this call created when its leg is then refused. */
    method DropIfEmpty(created: bool, t: Token)
      requires t in sessions
      modifies this`sessions
      ensures sessions == if created && old(sessions)[t].legs == [] then old(sessions) - {t} else old(sessions)
    {
      if created && |sessions[t].legs| == 0 {
        sessions := sessions - {t};
      }
    }

    /** The common tail of both binds: a fresh forwarding record joins session `t`. */
    method AddLeg(t: Token, src: Addr, acct: AcctKey, name: LegName, epk: EphKey, now: int, ghost s0: State)
      requires t in sessions
      requires sessions == s0.sessions || (t !in s0.sessions && sessions == s0.sessions[t := Session([], false, now)])
      requires legsPerIP == s0.legsPerIP && byAddr == s0.byAddr && fwds == s0.fwds && next == s0.next
      modifies this
      ensures Abs() == Claim(s0, t, Leg(src, acct, name, epk, s0.next), now)
    {
      var l := Leg(src, acct, name, epk, next);
      ghost var begun := sessions;
      fwds := fwds[l.fwd := Fwd(None, now)];
      next := next + 1;
      var ses := sessions[t];
      var legs := ses.legs + [l];
      sessions := sessions[t := ses.(legs := legs)];
      byAddr := byAddr[src := l.fwd];
      legsPerIP := legsPerIP[acct := Count(legsPerIP, acct) + 1];
      if |legs| == 2 {
        sessions := sessions[t := Session(legs, true, ses.created)];
        fwds := SetPeer(fwds, legs[0].fwd, Some(legs[1].addr));
        fwds := SetPeer(fwds, legs[1].fwd, Some(legs[0].addr));
      }
      assert sessions == begun[t := Session(legs, ses.paired || |legs| == 2, ses.created)];
      ClaimFrom(s0, begun, t, l, now);
    }

    /** bindNetworkMode: claim or refresh a leg, keyed by source address. */
    method BindNetworkMode(t: Token, src: Addr, acct: AcctKey, now: int) returns (v: Verdict)
      modifies this
      ensures (Abs(), v) == BindNetwork(cfg, old(Abs()), t, src, acct, now)
      ensures Refused(v) ==> Abs() == old(Abs())
    {
      ghost var s0 := Abs();
      var created := false;
      if t !in sessions {
        if |sessions| >= cfg.maxSessions {
          return AtCapacity;
        }
        sessions := sessions[t := Session([], false, now)];
        created := true;
      }
      assert created ==> sessions - {t} == s0.sessions;
      var legs := sessions[t].legs;
      var i := 0;
      while i < |legs| && legs[i].addr != src
        invariant 0 <= i <= |legs|
        invariant forall j :: 0 <= j < i ==> legs[j].addr != src
      {
        i := i + 1;
      }
      assert i == FindAddr(LegsOf(s0, t), src);
      if i < |legs| {
        fwds := SetSeen(fwds, legs[i].fwd, now);
        return Refreshed;
      }
      if |legs| >= MAX_LEGS_PER_SESSION {
        DropIfEmpty(created, t);
        return LegCap;
      }
      if Count(legsPerIP, acct) >= cfg.maxLegsPerIP {
        DropIfEmpty(created, t);
        return LegCap;
      }
      AddLeg(t, src, acct, Unnamed, EphKey(0), now, s0);
      return Claimed;
    }

    /** The migration branch of bindTicketed, once the destination budget has room. */
    method MoveLeg(t: Token, i: nat, src: Addr, acct: AcctKey, now: int)
      requires t in sessions && i < |sessions[t].legs|
      modifies this
      ensures Abs() == Migrate(old(Abs()), t, i, src, acct, now)
    {
      var ses := sessions[t];
      var held := ses.legs[i];
      byAddr := byAddr - {held.addr};
      if held.acct != acct {
        ReleaseIP(held.acct);
        legsPerIP := legsPerIP[acct := Count(legsPerIP, acct) + 1];
      }
      var legs := ses.legs[i := held.(addr := src, acct := acct)];
      sessions := sessions[t := ses.(legs := legs)];
      byAddr := byAddr[src := held.fwd];
      if |legs| == 2 {
        fwds := SetPeer(fwds, legs[0].fwd, Some(legs[1].addr));
        fwds := SetPeer(fwds, legs[1].fwd, Some(legs[0].addr));
      }
      fwds := SetSeen(fwds, held.fwd, now);
    }

    /** bindTicketed: a leg is claimed, refreshed, moved or refused by its server-given name. */
    method BindTicketedLeg(t: Token, name: LegName, epk: EphKey, src: Addr, acct: AcctKey, now: int)
      returns (v: Verdict)
      modifies this
      ensures (Abs(), v) == BindTicketed(cfg, old(Abs()), t, name, epk, src, acct, now)
      ensures Refused(v) ==> Abs() == old(Abs())
    {
      ghost var s0 := Abs();
      var created := false;
      if t !in sessions {
        if |sessions| >= cfg.maxSessions {
          return AtCapacity;
        }
        sessions := sessions[t := Session([], false, now)];
        created := true;
      }
      assert created ==> sessions - {t} == s0.sessions;
      var legs := sessions[t].legs;
      var i := 0;
      while i < |legs| && legs[i].name != name
        invariant 0 <= i <= |legs|
        invariant forall j :: 0 <= j < i ==> legs[j].name != name
      {
        i := i + 1;
      }
      assert i == FindName(LegsOf(s0, t), name);
      if i == |legs| {
        if |legs| >= MAX_LEGS_PER_SESSION || Count(legsPerIP, acct) >= cfg.maxLegsPerIP {
          DropIfEmpty(created, t);
          return LegCap;
        }
        AddLeg(t, src, acct, name, epk, now, s0);
        return Claimed;
      }
      if legs[i].epk != epk {
        DropIfEmpty(created, t);
        return LegTaken;
      }
      if legs[i].addr == src {
        fwds := SetSeen(fwds, legs[i].fwd, now);
        return Refreshed;
      }
      if legs[i].acct != acct && Count(legsPerIP, acct) >= cfg.maxLegsPerIP {
        return MoveRefused;
      }
      MoveLeg(t, i, src, acct, now);
      return Migrated;
    }

    /** forward: one lookup and two accesses to the record it yields. */
    method ForwardPacket(src: Addr, now: int) returns (dst: Option<Addr>)
      requires forall a :: a in byAddr ==> byAddr[a] in fwds
      modifies this`fwds
      ensures dst == Forward(old(Abs()), src)
      ensures Abs() == if src in byAddr then Touch(old(Abs()), byAddr[src], now) else old(Abs())
    {
      if src !in byAddr {
        return None;
      }
      var f := byAddr[src];
      fwds := SetSeen(fwds, f, now);
      dst := fwds[f].peer;
    }

    /** releaseIPLocked: one charge less, and no zero entry left behind. */
    method ReleaseIP(acct: AcctKey)
      modifies this`legsPerIP
      ensures legsPerIP == Release(old(legsPerIP), acct)
      ensures Count(legsPerIP, acct) == if Count(old(legsPerIP), acct) == 0 then 0 else Count(old(legsPerIP), acct) - 1
      ensures acct in legsPerIP ==> legsPerIP[acct] > 0
      ensures forall k :: k != acct ==>
        (k in legsPerIP <==> k in old(legsPerIP)) && Count(legsPerIP, k) == Count(old(legsPerIP), k)
    {
      if Count(legsPerIP, acct) <= 1 {
        legsPerIP := legsPerIP - {acct};
        return;
      }
      legsPerIP := legsPerIP[acct := legsPerIP[acct] - 1];
    }

    method HalfOpen(t: Token) returns (b: bool)
      requires Valid()
      ensures b <==> t in sessions && |sessions[t].legs| < MAX_LEGS_PER_SESSION
    {
      b := t in sessions && |sessions[t].legs| == 1;
    }

    // ---- the reaper ------------------------------------------------------------

    /** Unroute and release every leg of a session that never paired in time. */
    method DropAll(ses: Session, now: int)
      requires Overdue(cfg, ses, now)
      modifies this`byAddr, this`legsPerIP
      ensures byAddr == UnrouteTo(cfg, fwds, ses, |ses.legs|, now, old(byAddr))
      ensures legsPerIP == ReleaseTo(cfg, fwds, ses, |ses.legs|, now, old(legsPerIP))
    {
      var i := 0;
      while i < |ses.legs|
        invariant 0 <= i <= |ses.legs|
        invariant byAddr == UnrouteTo(cfg, fwds, ses, i, now, old(byAddr))
        invariant legsPerIP == ReleaseTo(cfg, fwds, ses, i, now, old(legsPerIP))
      {
        byAddr := byAddr - {ses.legs[i].addr};
        ReleaseIP(ses.legs[i].acct);
        i := i + 1;
      }
    }

    /** Unroute and release the idle legs of a session; the others are kept in order. */
    method DropIdle(ses: Session, now: int) returns (kept: seq<Leg>)
      requires !Overdue(cfg, ses, now)
      modifies this`byAddr, this`legsPerIP
      ensures kept == Kept(cfg, fwds, ses.legs, now)
      ensures byAddr == UnrouteTo(cfg, fwds, ses, |ses.legs|, now, old(byAddr))
      ensures legsPerIP == ReleaseTo(cfg, fwds, ses, |ses.legs|, now, old(legsPerIP))
    {
      kept := [];
      var i := 0;
      while i < |ses.legs|
        invariant 0 <= i <= |ses.legs|
        invariant kept == KeptTo(cfg, fwds, ses.legs, i, now)
        invariant byAddr == UnrouteTo(cfg, fwds, ses, i, now, old(byAddr))
        invariant legsPerIP == ReleaseTo(cfg, fwds, ses, i, now, old(legsPerIP))
      {
        var l := ses.legs[i];
        if Idle(cfg, fwds, l, now) {
          byAddr := byAddr - {l.addr};
          ReleaseIP(l.acct);
        } else {
          kept := kept + [l];
        }
        i := i + 1;
      }
    }

    /** One session's turn in a reaper pass. */
    method ReapSession(t: Token, now: int)
      requires t in sessions
      modifies this
      ensures Abs() == ReapTurn(cfg, old(Abs()), t, now)
    {
      var ses := sessions[t];
      if !ses.paired && now - ses.created > cfg.pendingPair {
        DropAll(ses, now);
        sessions := sessions - {t};
        return;
      }
      var kept := DropIdle(ses, now);
      assert sessions[t := ses.(legs := kept)] - {t} == sessions - {t};
      sessions := sessions[t := ses.(legs := kept)];
      if |kept| == 1 {
        fwds := SetPeer(fwds, kept[0].fwd, None);
      }
      if |kept| == 0 {
        sessions := sessions - {t};
      }
    }

    /** reap: every session gets its turn, in an order the map chooses. */
    method ReapPass(now: int)
      requires Unique(sessions) && legsPerIP == Tally(LiveLegs(sessions))
      modifies this
      ensures Abs() == Reap(cfg, old(Abs()), now)
    {
      ghost var s0 := Abs();
      ghost var done: set<Token> := {};
      var todo := sessions.Keys;
      PassBegins(cfg, s0, now);
      while todo != {}
        invariant todo !! done && todo + done == s0.sessions.Keys
        invariant Abs() == PassState(cfg, s0, done, now)
        decreases |todo|
      {
        var t := Pick(todo);
        PassTurn(cfg, s0, done, t, now);
        ReapSession(t, now);
        todo, done := todo - {t}, done + {t};
      }
      assert done == s0.sessions.Keys;
      PassEnds(cfg, s0, now);
    }
  }

  // ---- the relay's verification path -----------------------------------------------------------------------

  /** Signature, fields, window, relay, session, proof; only then is any state touched. */
  method VerifyTicketBind(relay: Server, c: TicketConfig, b: Bind, src: Addr, acct: AcctKey, now: int)
      returns (j: Judgement)
    requires relay.cfg == c.relay
    modifies relay
    ensures j == Judge(c, b, now)
    ensures relay.Abs() == if j != Accepted then old(relay.Abs()) else
        BindTicketed(c.relay, old(relay.Abs()), b.ticket.sid, b.ticket.leg, b.ticket.epk, src, acct, now).0
  {
    var signed := Verify(c.serverKeys, b.ticket, b.ticketSig);
    if !signed {
      return BadSignature;
    }
    if b.ticket.leg == Unnamed {
      return BadLeg;
    }
    if !InWindow(b.ticket, now) {
      return OutsideWindow;
    }
    if b.ticket.rid != c.rid {
      return WrongRelay;
    }
    if b.session != b.ticket.sid {
      return WrongSession;
    }
    if b.bindSig != BindSig(b.ticket.epk, b.ticket, b.ticketSig, b.cookie) {
      return NoProof;
    }
    var _ := relay.BindTicketedLeg(b.ticket.sid, b.ticket.leg, b.ticket.epk, src, acct, now);
    return Accepted;
  }
}
