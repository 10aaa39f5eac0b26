/**
 A run in which no address holds two legs at its end, and yet a live pair is cut off:
 what matters for the routing index is whether an address ever did.
 */
module RelaySharedAddress {
  import opened Common
  import opened RelayState
  import opened RelayRuns
  import opened RelayRouting

  const CONFIG := Config(4, 4, 50, 100)
  const X := Addr(1, 1)
  const Y := Addr(2, 2)
  const ACCT := AcctKey(0)
  const PAIR := Token(1)
  const EXTRA := Token(2)
  const AT_X := Leg(X, ACCT, Unnamed, EphKey(0), 0)
  const AT_Y := Leg(Y, ACCT, Unnamed, EphKey(0), 1)
  const AT_X_TOO := Leg(X, ACCT, Unnamed, EphKey(0), 2)

  /** A bind with room everywhere claims a leg. */
  lemma BindClaims(c: Config, s: State, t: Token, src: Addr, acct: AcctKey, now: int)
    requires t in s.sessions || |s.sessions| < c.maxSessions
    requires FindAddr(LegsOf(s, t), src) == |LegsOf(s, t)| < MAX_LEGS_PER_SESSION
    requires Count(s.legsPerIP, acct) < c.maxLegsPerIP
    ensures RelayRuns.Next(c, s, NetworkBind(t, src, acct, now))
            == Claim(s, t, Leg(src, acct, Unnamed, EphKey(0), s.next), now)
  {}

  lemma FirstBind() returns (s: State)
    ensures s == RelayRuns.Next(CONFIG, EMPTY, NetworkBind(PAIR, X, ACCT, 0))
    ensures s.sessions == map[PAIR := Session([AT_X], false, 0)]
    ensures s.next == 1 && Count(s.legsPerIP, ACCT) == 1
  {
    BindClaims(CONFIG, EMPTY, PAIR, X, ACCT, 0);
    s := Claim(EMPTY, PAIR, AT_X, 0);
    assert [] + [AT_X] == [AT_X];
  }

  lemma PairUp(s1: State) returns (s: State)
    requires s1.sessions == map[PAIR := Session([AT_X], false, 0)] && s1.next == 1 && Count(s1.legsPerIP, ACCT) == 1
    ensures s == Claim(s1, PAIR, AT_Y, 0)
    ensures s.sessions == map[PAIR := Session([AT_X, AT_Y], true, 0)]
    ensures s.next == 2 && Count(s.legsPerIP, ACCT) == 2
  {
    s := Claim(s1, PAIR, AT_Y, 0);
    assert [AT_X] + [AT_Y] == [AT_X, AT_Y];
  }

  lemma SecondBind(s1: State) returns (s: State)
    requires s1.sessions == map[PAIR := Session([AT_X], false, 0)] && s1.next == 1 && Count(s1.legsPerIP, ACCT) == 1
    ensures s == RelayRuns.Next(CONFIG, s1, NetworkBind(PAIR, Y, ACCT, 0))
    ensures s.sessions == map[PAIR := Session([AT_X, AT_Y], true, 0)]
    ensures s.next == 2 && Count(s.legsPerIP, ACCT) == 2
  {
    s := PairUp(s1);
    BindClaims(CONFIG, s1, PAIR, Y, ACCT, 0);
  }

  lemma ThirdBind(s2: State) returns (s: State)
    requires s2.sessions == map[PAIR := Session([AT_X, AT_Y], true, 0)]
    requires s2.next == 2 && Count(s2.legsPerIP, ACCT) == 2
    ensures s == RelayRuns.Next(CONFIG, s2, NetworkBind(EXTRA, X, ACCT, 0))
    ensures s.sessions == map[PAIR := Session([AT_X, AT_Y], true, 0), EXTRA := Session([AT_X_TOO], false, 0)]
    ensures 2 in s.fwds && s.fwds[2].seen == 0
  {
    s := Claim(s2, EXTRA, AT_X_TOO, 0);
    assert [] + [AT_X_TOO] == [AT_X_TOO];
    BindClaims(CONFIG, s2, EXTRA, X, ACCT, 0);
  }

  /** Before the pass: the pair was busy, the second session was not. */
  ghost predicate Ready(s: State) {
    && s.sessions == map[PAIR := Session([AT_X, AT_Y], true, 0), EXTRA := Session([AT_X_TOO], false, 0)]
    && (0 in s.fwds ==> s.fwds[0].seen == 40) && (1 in s.fwds ==> s.fwds[1].seen == 40)
    && 2 in s.fwds && s.fwds[2].seen == 0
  }

  lemma ReadyAfterTraffic(s3: State)
    requires s3.sessions == map[PAIR := Session([AT_X, AT_Y], true, 0), EXTRA := Session([AT_X_TOO], false, 0)]
    requires 2 in s3.fwds && s3.fwds[2].seen == 0
    ensures Ready(Touch(Touch(s3, 0, 40), 1, 40))
  {}

  lemma ReadyUnique(s: State)
    requires Ready(s)
    ensures Unique(s.sessions)
  {
    assert Homed(s.sessions, map[0 := PAIR, 1 := PAIR, 2 := EXTRA]);
  }

  lemma AfterPass(s: State)
    requires Ready(s)
    ensures RelayState.Reap(CONFIG, s, 60).sessions == map[PAIR := Session([AT_X, AT_Y], true, 0)]
  {
    var pair, extra := s.sessions[PAIR], s.sessions[EXTRA];
    assert KeptTo(CONFIG, s.fwds, pair.legs, 1, 60) == [AT_X];
    assert Survivors(CONFIG, s.fwds, pair, 60) == [AT_X, AT_Y];
    assert KeptTo(CONFIG, s.fwds, extra.legs, 0, 60) == [];
    assert Survivors(CONFIG, s.fwds, extra, 60) == [];
  }

  lemma PairIsSolo(m: map<Token, Session>)
    requires m == map[PAIR := Session([AT_X, AT_Y], true, 0)]
    ensures Solo(m)
  {}

  lemma CutOff(s: State)
    requires Ready(s)
    ensures var after := RelayState.Reap(CONFIG, s, 60);
      Solo(after.sessions) && Partners(after, PAIR, 0, X, Y) && Forward(after, X) == None
  {
    ReadyUnique(s);
    AfterPass(s);
    PairIsSolo(RelayState.Reap(CONFIG, s, 60).sessions);
    assert AT_X_TOO in s.sessions[EXTRA].legs;
    SecondLegCutsOff(CONFIG, s, PAIR, 0, EXTRA, AT_X_TOO, X, Y, 60);
  }

  /** A run goes on with any step. */
  lemma Extended(c: Config, ss: seq<State>, run: seq<Step>, st: Step, s: State)
    requires IsRun(c, ss, run) && s == RelayRuns.Next(c, ss[|run|], st)
    ensures IsRun(c, ss + [s], run + [st])
  {}

  lemma OneLeg() returns (ss: seq<State>, run: seq<Step>)
    ensures IsRun(CONFIG, ss, run) && |run| == 1
    ensures ss[1].sessions == map[PAIR := Session([AT_X], false, 0)]
    ensures ss[1].next == 1 && Count(ss[1].legsPerIP, ACCT) == 1
  {
    var s := FirstBind();
    Extended(CONFIG, [EMPTY], [], NetworkBind(PAIR, X, ACCT, 0), s);
    ss, run := [EMPTY] + [s], [] + [NetworkBind(PAIR, X, ACCT, 0)];
  }

  lemma TwoLegs() returns (ss: seq<State>, run: seq<Step>)
    ensures IsRun(CONFIG, ss, run) && |run| == 2
    ensures ss[2].sessions == map[PAIR := Session([AT_X, AT_Y], true, 0)]
    ensures ss[2].next == 2 && Count(ss[2].legsPerIP, ACCT) == 2
  {
    ss, run := OneLeg();
    var s := SecondBind(ss[1]);
    Extended(CONFIG, ss, run, NetworkBind(PAIR, Y, ACCT, 0), s);
    ss, run := ss + [s], run + [NetworkBind(PAIR, Y, ACCT, 0)];
  }

  lemma ThreeLegs() returns (ss: seq<State>, run: seq<Step>)
    ensures IsRun(CONFIG, ss, run) && |run| == 3
    ensures ss[3].sessions == map[PAIR := Session([AT_X, AT_Y], true, 0), EXTRA := Session([AT_X_TOO], false, 0)]
    ensures 2 in ss[3].fwds && ss[3].fwds[2].seen == 0
  {
    ss, run := TwoLegs();
    var s := ThirdBind(ss[2]);
    Extended(CONFIG, ss, run, NetworkBind(EXTRA, X, ACCT, 0), s);
    ss, run := ss + [s], run + [NetworkBind(EXTRA, X, ACCT, 0)];
  }

  lemma Busy() returns (ss: seq<State>, run: seq<Step>)
    ensures IsRun(CONFIG, ss, run) && |run| == 5 && Ready(ss[5])
  {
    ss, run := ThreeLegs();
    ReadyAfterTraffic(ss[3]);
    var s4 := Touch(ss[3], 0, 40);
    var s5 := Touch(s4, 1, 40);
    Extended(CONFIG, ss, run, ForwardTouch(0, 40), s4);
    Extended(CONFIG, ss + [s4], run + [ForwardTouch(0, 40)], ForwardTouch(1, 40), s5);
    ss, run := ss + [s4] + [s5], run + [ForwardTouch(0, 40)] + [ForwardTouch(1, 40)];
  }

  /**
   There is a run at whose end every address holds one leg and a scan finds the pair,
   but nothing is forwarded: two buddies paired up, one bound a second session from
   the same address, and that one idled away.
   */
  lemma SoloNowIsNotEnough() returns (ss: seq<State>, run: seq<Step>)
    ensures IsRun(CONFIG, ss, run) && |run| == 6
    ensures Solo(ss[6].sessions) && Partners(ss[6], PAIR, 0, X, Y) && Forward(ss[6], X) == None
  {
    ss, run := Busy();
    CutOff(ss[5]);
    var s := RelayState.Reap(CONFIG, ss[5], 60);
    Extended(CONFIG, ss, run, ReapPass(60), s);
    ss, run := ss + [s], run + [ReapPass(60)];
  }
}
