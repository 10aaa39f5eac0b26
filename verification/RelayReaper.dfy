/**
 The reaper pass: sessions visited one at a time in an arbitrary order, legs
 released one at a time, amount to the order-free pass `RelayState.Reap`.
 */
module RelayReaper {
  import opened Common
  import opened RelayState
  import opened RelayAccounting
  import opened RelayInvariant

  predicate Drops(c: Config, fwds: map<FwdId, Fwd>, ses: Session, l: Leg, now: int) {
    Overdue(c, ses, now) || Idle(c, fwds, l, now)
  }

  // ---- one session's turn, leg by leg ------------------------------------------

  function UnrouteTo(c: Config, fwds: map<FwdId, Fwd>, ses: Session, n: nat, now: int,
                     m: map<Addr, FwdId>): map<Addr, FwdId>
    requires n <= |ses.legs|
  {
    if n == 0 then m
    else if Drops(c, fwds, ses, ses.legs[n - 1], now) then
      UnrouteTo(c, fwds, ses, n - 1, now, m) - {ses.legs[n - 1].addr}
    else UnrouteTo(c, fwds, ses, n - 1, now, m)
  }

  function ReleaseTo(c: Config, fwds: map<FwdId, Fwd>, ses: Session, n: nat, now: int,
                     m: map<AcctKey, nat>): map<AcctKey, nat>
    requires n <= |ses.legs|
  {
    if n == 0 then m
    else if Drops(c, fwds, ses, ses.legs[n - 1], now) then
      Release(ReleaseTo(c, fwds, ses, n - 1, now, m), ses.legs[n - 1].acct)
    else ReleaseTo(c, fwds, ses, n - 1, now, m)
  }

  function ReapTurn(c: Config, s: State, t: Token, now: int): State
    requires t in s.sessions
  {
    var ses := s.sessions[t];
    var kept := Survivors(c, s.fwds, ses, now);
    State(
      if kept == [] then s.sessions - {t} else s.sessions[t := ses.(legs := kept)],
      ReleaseTo(c, s.fwds, ses, |ses.legs|, now, s.legsPerIP),
      UnrouteTo(c, s.fwds, ses, |ses.legs|, now, s.byAddr),
      if |kept| == 1 then SetPeer(s.fwds, kept[0].fwd, None) else s.fwds,
      s.next)
  }

  /** The legs among the first `n` that the turn drops. */
  ghost function GoneTo(c: Config, fwds: map<FwdId, Fwd>, ses: Session, n: nat, now: int): set<Leg>
    requires n <= |ses.legs|
  {
    if n == 0 then {}
    else if Drops(c, fwds, ses, ses.legs[n - 1], now) then GoneTo(c, fwds, ses, n - 1, now) + {ses.legs[n - 1]}
    else GoneTo(c, fwds, ses, n - 1, now)
  }

  lemma {:induction false} GoneMembers(c: Config, fwds: map<FwdId, Fwd>, ses: Session, n: nat, now: int)
    requires n <= |ses.legs|
    ensures forall l :: l in GoneTo(c, fwds, ses, n, now) <==> l in ses.legs[..n] && Drops(c, fwds, ses, l, now)
  {
    if n > 0 {
      GoneMembers(c, fwds, ses, n - 1, now);
      assert ses.legs[..n] == ses.legs[..n - 1] + [ses.legs[n - 1]];
    }
  }

  /** A session loses exactly the legs that do not survive. */
  lemma GoneIsNotSurvivors(c: Config, fwds: map<FwdId, Fwd>, ses: Session, now: int)
    ensures Members(ses.legs) - GoneTo(c, fwds, ses, |ses.legs|, now) == Members(Survivors(c, fwds, ses, now))
    ensures forall l :: l in GoneTo(c, fwds, ses, |ses.legs|, now) <==>
      l in ses.legs && l !in Survivors(c, fwds, ses, now)
  {
    assert ses.legs[..|ses.legs|] == ses.legs;
    GoneMembers(c, fwds, ses, |ses.legs|, now);
    SurvivorMembers(c, fwds, ses, now);
  }

  lemma {:induction false} UnrouteFold(c: Config, fwds: map<FwdId, Fwd>, ses: Session, n: nat, now: int,
                                       m: map<Addr, FwdId>)
    requires n <= |ses.legs|
    ensures UnrouteTo(c, fwds, ses, n, now, m) == m - (set l | l in GoneTo(c, fwds, ses, n, now) :: l.addr)
  {
    if n > 0 {
      UnrouteFold(c, fwds, ses, n - 1, now, m);
    }
  }

  /** Releasing a session's dropped legs one by one leaves the tally of the rest. */
  lemma {:induction false} ReleaseFold(c: Config, fwds: map<FwdId, Fwd>, ses: Session, n: nat, now: int, live: set<Leg>)
    requires n <= |ses.legs| && Distinct(ses.legs) && Members(ses.legs) <= live
    ensures ReleaseTo(c, fwds, ses, n, now, Tally(live)) == Tally(live - GoneTo(c, fwds, ses, n, now))
  {
    if n == 0 {
      assert live - GoneTo(c, fwds, ses, n, now) == live;
    } else {
      ReleaseFold(c, fwds, ses, n - 1, now, live);
      if Drops(c, fwds, ses, ses.legs[n - 1], now) {
        ReleaseFoldStep(c, fwds, ses, n, now, live);
      }
    }
  }

  lemma ReleaseFoldStep(c: Config, fwds: map<FwdId, Fwd>, ses: Session, n: nat, now: int, live: set<Leg>)
    requires 0 < n <= |ses.legs| && Distinct(ses.legs) && Members(ses.legs) <= live
    requires Drops(c, fwds, ses, ses.legs[n - 1], now)
    ensures Tally(live - GoneTo(c, fwds, ses, n, now))
         == Release(Tally(live - GoneTo(c, fwds, ses, n - 1, now)), ses.legs[n - 1].acct)
  {
    var l := ses.legs[n - 1];
    assert l in Members(ses.legs);
    NotYetGone(c, fwds, ses, n, now);
    ReleaseOne(live, GoneTo(c, fwds, ses, n - 1, now), l);
  }

  lemma NotYetGone(c: Config, fwds: map<FwdId, Fwd>, ses: Session, n: nat, now: int)
    requires 0 < n <= |ses.legs| && Distinct(ses.legs)
    ensures ses.legs[n - 1] !in GoneTo(c, fwds, ses, n - 1, now)
  {
    GoneMembers(c, fwds, ses, n - 1, now);
    assert ses.legs[n - 1] !in ses.legs[..n - 1];
  }

  lemma ReleaseOne(live: set<Leg>, gone: set<Leg>, l: Leg)
    requires l in live && l !in gone
    ensures Tally(live - (gone + {l})) == Release(Tally(live - gone), l.acct)
  {
    assert live - gone == (live - (gone + {l})) + {l};
    TallyStep(live - (gone + {l}), l);
  }

  /** A session's legs are distinct, and disjoint from those of all the others. */
  lemma SessionApart(m: map<Token, Session>, t: Token)
    requires Unique(m) && t in m
    ensures Distinct(m[t].legs)
    ensures Members(m[t].legs) !! LiveLegs(m - {t})
    ensures LiveLegs(m) == LiveLegs(m - {t}) + Members(m[t].legs)
  {
    DistinctInSession(m, t);
    assert m[t := m[t]] == m;
    LiveAfterUpdate(m, t, m[t]);
    forall l | l in m[t].legs ensures l !in LiveLegs(m - {t}) {
      var i :| 0 <= i < |m[t].legs| && m[t].legs[i] == l;
      OthersDiffer(m, t, i);
    }
  }

  /** After a session's turn the counters are again the tally of what is left. */
  lemma TurnTally(c: Config, s: State, t: Token, now: int)
    requires Unique(s.sessions) && t in s.sessions && s.legsPerIP == Tally(LiveLegs(s.sessions))
    ensures ReapTurn(c, s, t, now).legsPerIP == Tally(LiveLegs(ReapTurn(c, s, t, now).sessions))
  {
    var ses := s.sessions[t];
    var kept := Survivors(c, s.fwds, ses, now);
    var rest := LiveLegs(s.sessions - {t});
    var gone := GoneTo(c, s.fwds, ses, |ses.legs|, now);
    SessionApart(s.sessions, t);
    ReleaseFold(c, s.fwds, ses, |ses.legs|, now, LiveLegs(s.sessions));
    GoneIsNotSurvivors(c, s.fwds, ses, now);
    assert LiveLegs(s.sessions) - gone == rest + Members(kept);
    if kept == [] {
      assert rest + Members(kept) == rest;
    } else {
      LiveAfterUpdate(s.sessions, t, ses.(legs := kept));
    }
  }

  // ---- a pass under way ---------------------------------------------------------

  /** Sessions once those in `done` have had their turn. */
  function PassSessions(c: Config, s: State, done: set<Token>, now: int): map<Token, Session> {
    map t | t in s.sessions && (t in done ==> Survivors(c, s.fwds, s.sessions[t], now) != []) ::
      if t in done then s.sessions[t].(legs := Survivors(c, s.fwds, s.sessions[t], now)) else s.sessions[t]
  }

  /** Survivors that stand alone among the sessions already visited. */
  function PassLone(c: Config, s: State, done: set<Token>, now: int): set<FwdId> {
    set t | t in done && t in s.sessions && |Survivors(c, s.fwds, s.sessions[t], now)| == 1 ::
      Survivors(c, s.fwds, s.sessions[t], now)[0].fwd
  }

  function PassState(c: Config, s: State, done: set<Token>, now: int): State {
    State(PassSessions(c, s, done, now),
          Tally(LiveLegs(PassSessions(c, s, done, now))),
          s.byAddr - Dropped(c, s, done, now),
          Unpeer(s.fwds, PassLone(c, s, done, now)),
          s.next)
  }

  lemma UnpeerNone(fwds: map<FwdId, Fwd>)
    ensures Unpeer(fwds, {}) == fwds
  {}

  lemma PassBegins(c: Config, s: State, now: int)
    requires s.legsPerIP == Tally(LiveLegs(s.sessions))
    ensures PassState(c, s, {}, now) == s
  {
    assert PassSessions(c, s, {}, now) == s.sessions;
    assert Dropped(c, s, {}, now) == {};
    assert PassLone(c, s, {}, now) == {};
    UnpeerNone(s.fwds);
  }

  lemma PassEnds(c: Config, s: State, now: int)
    ensures PassState(c, s, s.sessions.Keys, now) == Reap(c, s, now)
  {
    assert PassSessions(c, s, s.sessions.Keys, now) == ReapSessions(c, s, now);
    var m := ReapSessions(c, s, now);
    forall t | t in s.sessions && |Survivors(c, s.fwds, s.sessions[t], now)| == 1
      ensures t in m && |m[t].legs| == 1 && m[t].legs[0] == Survivors(c, s.fwds, s.sessions[t], now)[0]
    {}
    forall f | f in PassLone(c, s, s.sessions.Keys, now) ensures f in LoneFwds(m) {
      var t :| t in s.sessions && |Survivors(c, s.fwds, s.sessions[t], now)| == 1
               && f == Survivors(c, s.fwds, s.sessions[t], now)[0].fwd;
      assert t in m && f == m[t].legs[0].fwd;
    }
    assert PassLone(c, s, s.sessions.Keys, now) == LoneFwds(m);
  }

  /** Peer pointers do not matter to the filter, only the last-seen times. */
  lemma {:induction false} KeptUnpeer(c: Config, fwds: map<FwdId, Fwd>, fs: set<FwdId>, legs: seq<Leg>,
                                      n: nat, now: int)
    requires n <= |legs|
    ensures KeptTo(c, Unpeer(fwds, fs), legs, n, now) == KeptTo(c, fwds, legs, n, now)
  {
    if n > 0 { KeptUnpeer(c, fwds, fs, legs, n - 1, now); }
  }

  lemma {:induction false} GoneUnpeer(c: Config, fwds: map<FwdId, Fwd>, fs: set<FwdId>, ses: Session, n: nat, now: int)
    requires n <= |ses.legs|
    ensures GoneTo(c, Unpeer(fwds, fs), ses, n, now) == GoneTo(c, fwds, ses, n, now)
  {
    if n > 0 { GoneUnpeer(c, fwds, fs, ses, n - 1, now); }
  }

  lemma PassUnique(c: Config, s: State, done: set<Token>, now: int)
    requires Unique(s.sessions)
    ensures Unique(PassSessions(c, s, done, now))
  {
    var home :| Homed(s.sessions, home);
    var m := PassSessions(c, s, done, now);
    forall t | t in m ensures Distinct(m[t].legs) {
      KeptDistinct(c, s.fwds, s.sessions[t].legs, |s.sessions[t].legs|, now);
    }
    forall t, i | t in m && 0 <= i < |m[t].legs| ensures m[t].legs[i].fwd in home && home[m[t].legs[i].fwd] == t {
      if t in done { SurvivorOrigin(c, s, t, i, now); }
    }
    assert Homed(m, home);
  }

  lemma PassTurnSessions(c: Config, s: State, done: set<Token>, t: Token, now: int)
    requires t in s.sessions && t !in done
    ensures t in PassSessions(c, s, done, now)
    ensures ReapTurn(c, PassState(c, s, done, now), t, now).sessions == PassSessions(c, s, done + {t}, now)
    ensures Survivors(c, PassState(c, s, done, now).fwds, s.sessions[t], now)
            == Survivors(c, s.fwds, s.sessions[t], now)
  {
    PassSurvivors(c, s, done, t, now);
    SessionsGrow(c, s, done, t, now);
  }

  lemma PassSurvivors(c: Config, s: State, done: set<Token>, t: Token, now: int)
    requires t in s.sessions
    ensures Survivors(c, PassState(c, s, done, now).fwds, s.sessions[t], now)
            == Survivors(c, s.fwds, s.sessions[t], now)
  {
    KeptUnpeer(c, s.fwds, PassLone(c, s, done, now), s.sessions[t].legs, |s.sessions[t].legs|, now);
  }

  lemma SessionsGrow(c: Config, s: State, done: set<Token>, t: Token, now: int)
    requires t in s.sessions && t !in done
    ensures t in PassSessions(c, s, done, now) && PassSessions(c, s, done, now)[t] == s.sessions[t]
    ensures var before, kept := PassSessions(c, s, done, now), Survivors(c, s.fwds, s.sessions[t], now);
      PassSessions(c, s, done + {t}, now)
      == if kept == [] then before - {t} else before[t := s.sessions[t].(legs := kept)]
  {}

  lemma PassTurnRoutes(c: Config, s: State, done: set<Token>, t: Token, now: int)
    requires t in s.sessions && t !in done
    ensures ReapTurn(c, PassState(c, s, done, now), t, now).byAddr == s.byAddr - Dropped(c, s, done + {t}, now)
  {
    var p := PassState(c, s, done, now);
    var ses := s.sessions[t];
    UnrouteFold(c, p.fwds, ses, |ses.legs|, now, p.byAddr);
    GoneUnpeer(c, s.fwds, PassLone(c, s, done, now), ses, |ses.legs|, now);
    GoneIsNotSurvivors(c, s.fwds, ses, now);
    var gone := set l | l in GoneTo(c, s.fwds, ses, |ses.legs|, now) :: l.addr;
    assert Dropped(c, s, done + {t}, now) == Dropped(c, s, done, now) + gone by {
      DroppedGrows(c, s, done, t, now);
    }
  }

  lemma DroppedGrows(c: Config, s: State, done: set<Token>, t: Token, now: int)
    requires t in s.sessions
    ensures Dropped(c, s, done + {t}, now) == Dropped(c, s, done, now)
            + (set l | l in s.sessions[t].legs && l !in Survivors(c, s.fwds, s.sessions[t], now) :: l.addr)
  {}

  lemma PassTurnPeers(c: Config, s: State, done: set<Token>, t: Token, now: int)
    requires t in s.sessions && t !in done
    ensures ReapTurn(c, PassState(c, s, done, now), t, now).fwds == Unpeer(s.fwds, PassLone(c, s, done + {t}, now))
  {
    PassTurnSessions(c, s, done, t, now);
    LoneGrows(c, s, done, t, now);
    var kept := Survivors(c, s.fwds, s.sessions[t], now);
    if |kept| == 1 {
      UnpeerOneMore(s.fwds, PassLone(c, s, done, now), kept[0].fwd);
    }
  }

  lemma LoneGrows(c: Config, s: State, done: set<Token>, t: Token, now: int)
    requires t in s.sessions
    ensures var kept := Survivors(c, s.fwds, s.sessions[t], now);
      PassLone(c, s, done + {t}, now) == PassLone(c, s, done, now) + (if |kept| == 1 then {kept[0].fwd} else {})
  {}

  lemma UnpeerOneMore(fwds: map<FwdId, Fwd>, fs: set<FwdId>, f: FwdId)
    ensures SetPeer(Unpeer(fwds, fs), f, None) == Unpeer(fwds, fs + {f})
  {}

  /** One more session's turn extends the pass by exactly that session. */
  lemma PassTurn(c: Config, s: State, done: set<Token>, t: Token, now: int)
    requires Unique(s.sessions) && t in s.sessions && t !in done
    ensures t in PassState(c, s, done, now).sessions
    ensures ReapTurn(c, PassState(c, s, done, now), t, now) == PassState(c, s, done + {t}, now)
  {
    PassUnique(c, s, done, now);
    PassTurnSessions(c, s, done, t, now);
    PassTurnRoutes(c, s, done, t, now);
    PassTurnPeers(c, s, done, t, now);
    TurnTally(c, PassState(c, s, done, now), t, now);
  }
}
