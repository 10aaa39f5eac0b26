/**
 Whole runs of the supervising goroutine (internal/role/supervisor.go): reloads that stop
 what is not wanted and then start or rescope what is, one worker at a time and in any
 order, exits taken in between, and workers returning at any moment.
 */
module SupervisorRuns {
  import opened Common
  import opened SupervisorState
  import TrustState

  /** What is left of a reload: workers to look at for stopping, then buddies to look at for starting. */
  datatype Phase =
    | Settled
    | Stopping(want: map<Key, Scope>, todo: set<Key>)
    | Starting(want: map<Key, Scope>, todo: set<Key>)

  datatype Ctl = Ctl(sup: Sup, phase: Phase)

  datatype Move =
    | Begin(want: map<Key, Scope>)
    | VisitRunning(key: Key)
    | EndStops
    | VisitWanted(key: Key)
    | EndStarts
    | Take(exit: Exit)
    | Returns(worker: Worker)

  /** The assembled set is within the limit; exits wait while a reload is under way. */
  predicate Legal(c: Ctl, m: Move) {
    match m
    case Begin(want) => c.phase.Settled? && |want| <= TrustState.MAX_BUDDIES
    case VisitRunning(k) => c.phase.Stopping? && k in c.phase.todo
    case EndStops => c.phase.Stopping? && c.phase.todo == {}
    case VisitWanted(k) => c.phase.Starting? && k in c.phase.todo && k in c.phase.want
    case EndStarts => c.phase.Starting? && c.phase.todo == {}
    case Take(x) => c.phase.Settled? && x in c.sup.exits
    case Returns(w) => w in c.sup.live
  }

  function StepOf(c: Ctl, m: Move): Step
    requires Legal(c, m)
  {
    match m
    case VisitRunning(k) => if k in c.phase.want then Quiet else Stop(k)
    case VisitWanted(k) =>
      if k in c.sup.running then Rescope(k, c.phase.want[k]) else Start(Spec(k, c.phase.want[k]))
    case Take(x) => TakeExit(x)
    case Returns(w) => Return(w)
    case _ => Quiet
  }

  function PhaseAfter(c: Ctl, m: Move): Phase
    requires Legal(c, m)
  {
    match m
    case Begin(want) => Stopping(want, c.sup.running.Keys)
    case VisitRunning(k) => Stopping(c.phase.want, c.phase.todo - {k})
    case EndStops => Starting(c.phase.want, c.phase.want.Keys)
    case VisitWanted(k) => Starting(c.phase.want, c.phase.todo - {k})
    case EndStarts => Settled
    case _ => c.phase
  }

  function Moved(c: Ctl, m: Move): Ctl
    requires Legal(c, m)
  {
    Ctl(SupervisorState.Next(c.sup, StepOf(c, m)), PhaseAfter(c, m))
  }

  /** The states `cs` are those of the moves `ms`, from any state on. */
  ghost predicate IsPath(cs: seq<Ctl>, ms: seq<Move>) {
    |cs| == |ms| + 1 && forall i :: 0 <= i < |ms| ==> Legal(cs[i], ms[i]) && cs[i + 1] == Moved(cs[i], ms[i])
  }

  ghost predicate IsCtlRun(cs: seq<Ctl>, ms: seq<Move>) {
    IsPath(cs, ms) && cs[0] == Ctl(IDLE, Settled)
  }

  // ---- the invariant of a reload -----------------------------------------------------------

  ghost predicate PhaseOk(running: map<Key, Handle>, phase: Phase) {
    match phase
    case Settled => true
    case Stopping(want, todo) => |want| <= TrustState.MAX_BUDDIES && running.Keys <= want.Keys + todo
    case Starting(want, todo) =>
      && |want| <= TrustState.MAX_BUDDIES && running.Keys <= want.Keys && todo <= want.Keys
      && forall k :: k in want && k !in todo ==> k in running && running[k].scope == want[k]
  }

  ghost predicate CtlInv(c: Ctl) {
    |c.sup.running| <= TrustState.MAX_BUDDIES && PhaseOk(c.sup.running, c.phase)
  }

  lemma KeysSize<U, V>(a: map<Key, U>, b: map<Key, V>)
    requires a.Keys <= b.Keys
    ensures |a| <= |b|
  {
    SubsetSize(a.Keys, b.Keys);
    assert |a| == |a.Keys| && |b| == |b.Keys|;
  }

  lemma MovedPhase(c: Ctl, m: Move)
    requires CtlInv(c) && Legal(c, m)
    ensures PhaseOk(Moved(c, m).sup.running, Moved(c, m).phase)
  {}

  lemma MovedInv(c: Ctl, m: Move)
    requires CtlInv(c) && Legal(c, m)
    ensures CtlInv(Moved(c, m))
  {
    MovedPhase(c, m);
    MovedSize(c, m);
  }

  lemma MovedSize(c: Ctl, m: Move)
    requires CtlInv(c) && Legal(c, m)
    ensures |Moved(c, m).sup.running| <= TrustState.MAX_BUDDIES
  {
    if m.VisitWanted? {
      StartedSize(c, m);
    } else {
      MovedShrinks(c, m);
      KeysSize(Moved(c, m).sup.running, c.sup.running);
    }
  }

  lemma MovedShrinks(c: Ctl, m: Move)
    requires Legal(c, m) && !m.VisitWanted?
    ensures Moved(c, m).sup.running.Keys <= c.sup.running.Keys
  {}

  lemma StartedSize(c: Ctl, m: Move)
    requires CtlInv(c) && Legal(c, m) && m.VisitWanted?
    ensures |Moved(c, m).sup.running| <= TrustState.MAX_BUDDIES
  {
    KeysSize(Moved(c, m).sup.running, c.phase.want);
  }

  lemma {:induction false} RunCtlInv(cs: seq<Ctl>, ms: seq<Move>, n: nat)
    requires IsCtlRun(cs, ms) && n < |cs|
    ensures CtlInv(cs[n])
  {
    if n > 0 {
      RunCtlInv(cs, ms, n - 1);
      MovedInv(cs[n - 1], ms[n - 1]);
    }
  }

  /** At every moment of every run, the middle of a reload included, at most 48 workers are running. */
  lemma NeverTooMany(cs: seq<Ctl>, ms: seq<Move>, n: nat)
    requires IsCtlRun(cs, ms) && n < |cs|
    ensures |cs[n].sup.running| <= 48
  {
    RunCtlInv(cs, ms, n);
  }

  // ---- goroutines that are still draining ---------------------------------------------------

  /** Goroutines that have not returned and are no longer the running worker of their buddy. */
  function Draining(s: Sup): set<Worker> {
    set w | w in s.live && !Current(s, Exit(w.key, w.gen))
  }

  lemma {:induction false} OnePerKeySize(ws: set<Worker>, ks: set<Key>)
    requires forall w :: w in ws ==> w.key in ks
    requires forall w, v :: w in ws && v in ws && w.key == v.key ==> w == v
    ensures |ws| <= |ks|
    decreases |ws|
  {
    if w :| w in ws {
      OnePerKeySize(ws - {w}, ks - {w.key});
    }
  }

  lemma LiveSize(s: Sup)
    requires Inv(s)
    ensures |s.live| <= |s.running| + |Draining(s)|
  {
    var current := s.live - Draining(s);
    OnePerKeySize(current, s.running.Keys);
    assert s.live == current + Draining(s) && |s.running| == |s.running.Keys|;
  }

  /** A goroutine starts to drain only by being stopped. */
  lemma DrainStep(c: Ctl, m: Move, w: Worker)
    requires Inv(c.sup) && Legal(c, m) && w in Draining(Moved(c, m).sup)
    ensures w in Draining(c.sup) || (w in c.sup.live && StepOf(c, m) == Stop(w.key))
  {}

  lemma DrainsAt(cs: seq<Ctl>, ms: seq<Move>, n: nat, w: Worker)
    requires IsCtlRun(cs, ms) && n < |cs| && w in Draining(cs[n].sup)
    ensures n > 0
    ensures w in Draining(cs[n - 1].sup) || (w in cs[n - 1].sup.live && StepOf(cs[n - 1], ms[n - 1]) == Stop(w.key))
  {
    if n > 0 {
      PathInv(cs, ms, n - 1);
      DrainStep(cs[n - 1], ms[n - 1], w);
    }
  }

  lemma {:induction false} StoppedAt(cs: seq<Ctl>, ms: seq<Move>, n: nat, w: Worker) returns (m: nat)
    requires IsCtlRun(cs, ms) && n < |cs| && w in Draining(cs[n].sup)
    ensures m < n && w in cs[m].sup.live && StepOf(cs[m], ms[m]) == Stop(w.key)
  {
    DrainsAt(cs, ms, n, w);
    if w in Draining(cs[n - 1].sup) {
      m := StoppedAt(cs, ms, n - 1, w);
    } else {
      m := n - 1;
    }
  }

  /**
   Goroutines can outnumber the limit: there are at most 48 and those that a reload stopped
   and that have not returned.
   */
  lemma LiveBound(cs: seq<Ctl>, ms: seq<Move>, n: nat)
    requires IsCtlRun(cs, ms) && n < |cs|
    ensures |cs[n].sup.live| <= 48 + |Draining(cs[n].sup)|
    ensures forall w :: w in Draining(cs[n].sup) ==>
      exists m :: 0 <= m < n && w in cs[m].sup.live && StepOf(cs[m], ms[m]) == Stop(w.key)
  {
    NeverTooMany(cs, ms, n);
    PathInv(cs, ms, n);
    LiveSize(cs[n].sup);
    forall w | w in Draining(cs[n].sup)
      ensures exists m :: 0 <= m < n && w in cs[m].sup.live && StepOf(cs[m], ms[m]) == Stop(w.key)
    {
      var m := StoppedAt(cs, ms, n, w);
    }
  }

  /** When a reload ends, exactly the buddies it wanted run, each with its wanted scope. */
  lemma ReloadSettles(cs: seq<Ctl>, ms: seq<Move>, n: nat)
    requires IsCtlRun(cs, ms) && n < |ms| && ms[n] == EndStarts
    ensures InSync(cs[n + 1].sup.running, cs[n].phase.want)
  {
    RunCtlInv(cs, ms, n);
    assert cs[n + 1].sup.running == cs[n].sup.running;
  }

  // ---- these runs are runs of the worker model ----------------------------------------------

  function Sups(cs: seq<Ctl>): seq<Sup> {
    seq(|cs|, i requires 0 <= i < |cs| => cs[i].sup)
  }

  ghost function Steps(cs: seq<Ctl>, ms: seq<Move>): seq<Step>
    requires IsPath(cs, ms)
  {
    seq(|ms|, i requires 0 <= i < |ms| => StepOf(cs[i], ms[i]))
  }

  /** So everything proved of the worker model's runs holds of them. */
  lemma CtlRunIsRun(cs: seq<Ctl>, ms: seq<Move>)
    requires IsCtlRun(cs, ms)
    ensures IsRun(Sups(cs), Steps(cs, ms))
  {}

  /** Over every run with its reloads, two buddies' running workers hold different interface indices. */
  lemma ReloadedApart(cs: seq<Ctl>, ms: seq<Move>, n: nat, a: Key, b: Key)
    requires IsCtlRun(cs, ms) && n < |cs| && a in cs[n].sup.running && b in cs[n].sup.running && a != b
    ensures a in cs[n].sup.indexOf && b in cs[n].sup.indexOf && cs[n].sup.indexOf[a] != cs[n].sup.indexOf[b]
  {
    CtlRunIsRun(cs, ms);
    RunningApart(Sups(cs), Steps(cs, ms), n, a, b);
  }

  /** A reload starts a buddy whose earlier goroutine has not returned. */
  ghost predicate Restarts(c: Ctl, m: Move) {
    m.VisitWanted? && Legal(c, m) && m.key !in c.sup.running && exists w :: w in c.sup.live && w.key == m.key
  }

  /** And no two goroutines ever share an index if and only if no reload does that. */
  lemma ApartIffNoRestart(cs: seq<Ctl>, ms: seq<Move>)
    requires IsCtlRun(cs, ms)
    ensures (forall n :: 0 <= n < |cs| ==> LiveApart(cs[n].sup)) <==>
      (forall n :: 0 <= n < |ms| ==> !Restarts(cs[n], ms[n]))
  {
    var ss, run := Sups(cs), Steps(cs, ms);
    CtlRunIsRun(cs, ms);
    ApartIffNoOverlap(ss, run);
    forall n | 0 <= n < |ms| ensures Overlaps(ss[n], run[n]) <==> Restarts(cs[n], ms[n]) {
      OverlapIsRestart(cs[n], ms[n]);
    }
    assert AlwaysApart(ss) <==> forall n :: 0 <= n < |cs| ==> LiveApart(cs[n].sup) by {
      assert forall n :: 0 <= n < |cs| ==> ss[n] == cs[n].sup;
    }
  }

  lemma OverlapIsRestart(c: Ctl, m: Move)
    requires Legal(c, m)
    ensures Overlaps(c.sup, StepOf(c, m)) <==> Restarts(c, m)
  {}

  // ---- growing a path -------------------------------------------------------------------------

  ghost predicate Leads(cs: seq<Ctl>, ms: seq<Move>, from: Ctl, to: Ctl) {
    IsPath(cs, ms) && cs[0] == from && cs[|ms|] == to
  }

  lemma Onward(cs: seq<Ctl>, ms: seq<Move>, from: Ctl, to: Ctl, m: Move) returns (more: seq<Ctl>, moves: seq<Move>)
    requires Leads(cs, ms, from, to) && Legal(to, m)
    ensures Leads(more, moves, from, Moved(to, m)) && moves == ms + [m]
  {
    more, moves := cs + [Moved(to, m)], ms + [m];
    forall i | 0 <= i < |moves| ensures Legal(more[i], moves[i]) && more[i + 1] == Moved(more[i], moves[i]) {
      if i < |ms| {
        assert more[i + 1] == cs[i + 1] && more[i] == cs[i] && moves[i] == ms[i];
      }
    }
  }

  lemma {:induction false} PathInv(cs: seq<Ctl>, ms: seq<Move>, n: nat)
    requires IsPath(cs, ms) && n < |cs| && Inv(cs[0].sup)
    ensures Inv(cs[n].sup)
  {
    if n > 0 {
      PathInv(cs, ms, n - 1);
      NextInv(cs[n - 1].sup, StepOf(cs[n - 1], ms[n - 1]));
    }
  }

  lemma LeadsInv(cs: seq<Ctl>, ms: seq<Move>, from: Ctl, to: Ctl)
    requires Leads(cs, ms, from, to)
    ensures Inv(from.sup) ==> Inv(to.sup)
  {
    if Inv(from.sup) {
      PathInv(cs, ms, |ms|);
    }
  }

  // ---- nothing is left running for ever -------------------------------------------------------

  /** Every worker that is listed as running is alive, or its exit is on the way. */
  ghost predicate Manned(s: Sup) {
    forall k :: k in s.running ==> Alive(s, k, s.running[k].gen) || Exit(k, s.running[k].gen) in s.exits
  }

  ghost predicate Alive(s: Sup, k: Key, gen: nat) {
    exists i :: Worker(k, gen, i) in s.live
  }

  lemma NextManned(s: Sup, st: Step)
    requires Manned(s)
    ensures Manned(SupervisorState.Next(s, st))
  {
    var s' := SupervisorState.Next(s, st);
    forall k | k in s'.running ensures Alive(s', k, s'.running[k].gen) || Exit(k, s'.running[k].gen) in s'.exits {
      if st.Start? && st.spec.key == k && k !in s.running {
        assert Worker(k, s.gen + 1, Alloc(s.indexOf, k)) in s'.live;
      } else if Alive(s, k, s.running[k].gen) {
        var i :| Worker(k, s.running[k].gen, i) in s.live;
        assert st == Return(Worker(k, s.running[k].gen, i)) || Worker(k, s.running[k].gen, i) in s'.live;
      }
    }
  }

  lemma {:induction false} RunManned(cs: seq<Ctl>, ms: seq<Move>, n: nat)
    requires IsCtlRun(cs, ms) && n < |cs|
    ensures Manned(cs[n].sup)
  {
    if n > 0 {
      RunManned(cs, ms, n - 1);
      NextManned(cs[n - 1].sup, StepOf(cs[n - 1], ms[n - 1]));
    }
  }

  /** Workers return one after the other until none is alive. */
  lemma {:induction false} AllReturn(cs: seq<Ctl>, ms: seq<Move>, from: Ctl, c: Ctl)
    returns (ds: seq<Ctl>, ns: seq<Move>, last: Ctl)
    requires Leads(cs, ms, from, c) && Manned(c.sup)
    ensures Leads(ds, ns, from, last) && Manned(last.sup) && last.sup.live == {} && last.phase == c.phase
    ensures last.sup.running == c.sup.running && last.sup.indexOf == c.sup.indexOf
    decreases |c.sup.live|
  {
    if w :| w in c.sup.live {
      NextManned(c.sup, Return(w));
      var more, moves := Onward(cs, ms, from, c, Returns(w));
      ds, ns, last := AllReturn(more, moves, from, Moved(c, Returns(w)));
    } else {
      ds, ns, last := cs, ms, c;
    }
  }

  /** And their exits are taken until none is left: then nothing is listed as running. */
  lemma {:induction false} AllTaken(cs: seq<Ctl>, ms: seq<Move>, from: Ctl, c: Ctl)
    returns (ds: seq<Ctl>, ns: seq<Move>, last: Ctl)
    requires Leads(cs, ms, from, c) && Manned(c.sup) && c.sup.live == {} && c.phase.Settled?
    ensures Leads(ds, ns, from, last) && last.phase.Settled?
    ensures last.sup.live == {} && last.sup.exits == {} && last.sup.running == map[]
    ensures last.sup.indexOf.Keys == c.sup.indexOf.Keys - c.sup.running.Keys
    decreases |c.sup.exits|
  {
    if x :| x in c.sup.exits {
      NextManned(c.sup, TakeExit(x));
      var more, moves := Onward(cs, ms, from, c, Take(x));
      ds, ns, last := AllTaken(more, moves, from, Moved(c, Take(x)));
    } else {
      ds, ns, last := cs, ms, c;
    }
  }

  /** A path that leads from where a run ends prolongs the run. */
  lemma Prolonged(cs: seq<Ctl>, ms: seq<Move>, ds: seq<Ctl>, ns: seq<Move>, to: Ctl)
    requires IsCtlRun(cs, ms) && Leads(ds, ns, cs[|ms|], to)
    ensures IsCtlRun(cs + ds[1..], ms + ns) && (cs + ds[1..])[|ms| + |ns|] == to
  {
    var more, moves := cs + ds[1..], ms + ns;
    forall i | 0 <= i < |moves| ensures Legal(more[i], moves[i]) && more[i + 1] == Moved(more[i], moves[i]) {
      if i < |ms| {
        assert more[i + 1] == cs[i + 1] && more[i] == cs[i] && moves[i] == ms[i];
      } else {
        assert more[i] == ds[i - |ms|] && more[i + 1] == ds[i - |ms| + 1] && moves[i] == ns[i - |ms|];
      }
    }
  }
}
