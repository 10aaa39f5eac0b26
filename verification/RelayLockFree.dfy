/**
 The forwarder runs without the lock: it loads a record from the index, and reads
 that record's peer pointer later, with anything in between.
 */
module RelayLockFree {
  import opened Common
  import opened RelayState
  import opened RelayInvariant
  import opened RelayRuns

  /** Record `f` and a leg at address `d` are the two ends of session `t`. */
  ghost predicate Met(s: State, t: Token, q: int, f: FwdId, d: Addr) {
    t in s.sessions && |s.sessions[t].legs| == 2 && 0 <= q < 2
    && s.sessions[t].legs[q].fwd == f && s.sessions[t].legs[1 - q].addr == d
  }

  lemma PublishMeets(fwds: map<FwdId, Fwd>, legs: seq<Leg>, f: FwdId, d: Addr)
    requires |legs| == 2 && f in fwds && Publish(fwds, legs)[f].peer == Some(d)
    ensures fwds[f].peer == Some(d) || (exists q :: 0 <= q < 2 && legs[q].fwd == f && legs[1 - q].addr == d)
  {}

  /** A peer pointer only ever takes the address of the record's partner at that moment. */
  lemma PeerOrigin(c: Config, s: State, e: Effect, f: FwdId, d: Addr)
    requires f in Apply(c, s, e).fwds && Apply(c, s, e).fwds[f].peer == Some(d)
    ensures (f in s.fwds && s.fwds[f].peer == Some(d)) || (exists t, q :: Met(Apply(c, s, e), t, q, f, d))
  {
    match e
    case Claims(t, l, now) => ClaimPeerOrigin(s, t, l, now, f, d);
    case Moves(t, i, src, acct, now) =>
      if i < |LegsOf(s, t)| { MigratePeerOrigin(s, t, i, src, acct, now, f, d); }
    case _ =>
  }

  lemma ClaimPeerOrigin(s: State, t: Token, l: Leg, now: int, f: FwdId, d: Addr)
    requires f in Claim(s, t, l, now).fwds && Claim(s, t, l, now).fwds[f].peer == Some(d)
    ensures (f in s.fwds && s.fwds[f].peer == Some(d)) || (exists u, q :: Met(Claim(s, t, l, now), u, q, f, d))
  {
    var legs := LegsOf(s, t) + [l];
    if |legs| == 2 {
      PublishKeys(s.fwds[l.fwd := Fwd(None, now)], legs);
      PublishMeets(s.fwds[l.fwd := Fwd(None, now)], legs, f, d);
      if q :| 0 <= q < 2 && legs[q].fwd == f && legs[1 - q].addr == d {
        assert Met(Claim(s, t, l, now), t, q, f, d);
      }
    }
  }

  lemma MigratePeerOrigin(s: State, t: Token, i: nat, src: Addr, acct: AcctKey, now: int, f: FwdId, d: Addr)
    requires i < |LegsOf(s, t)|
    requires f in Migrate(s, t, i, src, acct, now).fwds && Migrate(s, t, i, src, acct, now).fwds[f].peer == Some(d)
    ensures (f in s.fwds && s.fwds[f].peer == Some(d))
         || (exists u, q :: Met(Migrate(s, t, i, src, acct, now), u, q, f, d))
  {
    var s' := Migrate(s, t, i, src, acct, now);
    var legs := s'.sessions[t].legs;
    PublishKeys(s.fwds, legs);
    if |legs| == 2 {
      PublishMeets(s.fwds, legs, f, d);
      if q :| 0 <= q < 2 && legs[q].fwd == f && legs[1 - q].addr == d {
        assert Met(s', t, q, f, d);
      }
    }
  }

  lemma {:induction false} PeerWasMet(c: Config, ss: seq<State>, es: seq<Effect>, n: nat, f: FwdId, d: Addr)
    requires IsTrace(c, ss, es) && n < |ss|
    requires f in ss[n].fwds && ss[n].fwds[f].peer == Some(d)
    ensures exists j, t, q :: 0 <= j <= n && Met(ss[j], t, q, f, d)
  {
    if n > 0 {
      PeerOrigin(c, ss[n - 1], es[n - 1], f, d);
      if f in ss[n - 1].fwds && ss[n - 1].fwds[f].peer == Some(d) {
        PeerWasMet(c, ss, es, n - 1, f, d);
      }
    }
  }

  // ---- a record never changes session -----------------------------------------------------

  ghost predicate Extends(home: map<FwdId, Token>, home': map<FwdId, Token>, next: FwdId) {
    && (forall f :: f in home ==> f in home' && home'[f] == home[f])
    && (forall f :: f in home' ==> f < next)
  }

  lemma ApplyHomed(c: Config, s: State, e: Effect, home: map<FwdId, Token>) returns (home': map<FwdId, Token>)
    requires Legal(c, s, e) && Homed(s.sessions, home) && (forall f :: f in home ==> f < s.next)
    ensures Homed(Apply(c, s, e).sessions, home') && Extends(home, home', Apply(c, s, e).next)
  {
    home' := home;
    match e
    case Claims(t, l, now) =>
      home' := home[s.next := t];
      ClaimHomed(s, t, l, now, home);
    case Reaps(now) => ReapHomed(c, s, now, home);
    case _ =>
  }

  lemma ClaimHomed(s: State, t: Token, l: Leg, now: int, home: map<FwdId, Token>)
    requires Homed(s.sessions, home) && (forall f :: f in home ==> f < s.next) && l.fwd == s.next
    ensures Homed(Claim(s, t, l, now).sessions, home[l.fwd := t])
  {
    var m := Claim(s, t, l, now).sessions;
    forall u, j | u in m && 0 <= j < |m[u].legs|
      ensures m[u].legs[j].fwd in home[l.fwd := t] && home[l.fwd := t][m[u].legs[j].fwd] == u
    {
      assert m[u].legs[j] == l
          || (u in s.sessions && j < |s.sessions[u].legs| && m[u].legs[j] == s.sessions[u].legs[j]);
    }
  }

  lemma ReapHomed(c: Config, s: State, now: int, home: map<FwdId, Token>)
    requires Homed(s.sessions, home)
    ensures Homed(ReapSessions(c, s, now), home)
  {
    var m' := ReapSessions(c, s, now);
    forall t | t in m' ensures Distinct(m'[t].legs) {
      KeptDistinct(c, s.fwds, s.sessions[t].legs, |s.sessions[t].legs|, now);
    }
    forall t, i | t in m' && 0 <= i < |m'[t].legs| ensures m'[t].legs[i].fwd in home && home[m'[t].legs[i].fwd] == t {
      SurvivorOrigin(c, s, t, i, now);
    }
  }

  /** One assignment of records to sessions serves every state of a run. */
  lemma {:induction false} TraceHome(c: Config, ss: seq<State>, es: seq<Effect>, n: nat)
      returns (home: map<FwdId, Token>)
    requires IsTrace(c, ss, es) && n < |ss|
    ensures forall k :: 0 <= k <= n ==> Homed(ss[k].sessions, home)
    ensures forall f :: f in home ==> f < ss[n].next
  {
    if n == 0 {
      home := map[];
    } else {
      var was := TraceHome(c, ss, es, n - 1);
      home := ApplyHomed(c, ss[n - 1], es[n - 1], was);
      forall k | 0 <= k < n ensures Homed(ss[k].sessions, home) {
        assert Homed(ss[k].sessions, was);
      }
    }
  }

  /**
   Lock-free forwarding: a record is loaded from the index in state `i` and its
   peer pointer read in a later state `n`, with anything in between. A datagram is
   then only ever sent from an address that held a live leg of some session to an
   address that was that leg's partner in that same session.
   */
  lemma LockFreeForward(c: Config, ss: seq<State>, run: seq<Step>, i: nat, n: nat, src: Addr, d: Addr)
    requires IsRun(c, ss, run) && i <= n < |ss|
    requires src in ss[i].byAddr && ss[i].byAddr[src] in ss[n].fwds
    requires ss[n].fwds[ss[i].byAddr[src]].peer == Some(d)
    ensures exists t, p, j, q ::
      0 <= j <= n && LiveAt(ss[i], t, p, src, ss[i].byAddr[src]) && Met(ss[j], t, q, ss[i].byAddr[src], d)
  {
    RunIsTrace(c, ss, run);
    var es := Effects(c, ss, run);
    var f := ss[i].byAddr[src];
    var t, p := RouteAt(c, ss, es, i, src);
    PeerWasMet(c, ss, es, n, f, d);
    var j, u, q :| 0 <= j <= n && Met(ss[j], u, q, f, d);
    var home := TraceHome(c, ss, es, n);
    assert Homed(ss[i].sessions, home) && Homed(ss[j].sessions, home);
    assert home[ss[j].sessions[u].legs[q].fwd] == u && home[ss[i].sessions[t].legs[p].fwd] == t;
  }

  lemma RouteAt(c: Config, ss: seq<State>, es: seq<Effect>, i: nat, src: Addr) returns (t: Token, p: int)
    requires IsTrace(c, ss, es) && i < |ss| && src in ss[i].byAddr
    ensures LiveAt(ss[i], t, p, src, ss[i].byAddr[src])
  {
    TraceInv(c, ss, es, i);
    t, p :| LiveAt(ss[i], t, p, src, ss[i].byAddr[src]);
  }
}
