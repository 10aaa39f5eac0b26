/**
 What a ticket-mode relay spends on signatures (internal/relay/tickets.go,
 internal/relay/server.go). A bind draws on a small reserve when its session waits
 for a second leg, else on the global budget, and then needs one of 32 slots.
 */
module RelayBudget {
  import opened Common
  import opened TokenBucket
  import opened RateLimit
  import RelayState
  import RelayServer

  const SIG_GLOBAL_RATE := 200.0
  const MAX_SIG_IN_FLIGHT := 32
  const RESERVE_RATE := 20.0
  const RESERVE_PER_SID_RATE := 4.0
  const RESERVE_MAX_SIDS := 1024

  const SIG_LIMITS := Limits(Rate(SIG_GLOBAL_RATE, 2.0 * SIG_GLOBAL_RATE), Rate(0.0, 0.0), 0)
  const RESERVE_LIMITS :=
    Limits(Rate(RESERVE_RATE, 2.0 * RESERVE_RATE), Rate(RESERVE_PER_SID_RATE, 2.0 * RESERVE_PER_SID_RATE),
           RESERVE_MAX_SIDS)

  function SourceOf(sid: RelayState.Token): Source {
    Source(sid.id)
  }

  datatype Gate = Gate(sig: Lim, reserve: Lim, inFlight: nat)

  /**
   `Offer` is a bind that passed the cookie check. `half` says whether its session
   held one leg at that moment; each limiter reads the clock for itself.
   */
  datatype Step =
    | Offer(complete: bool, half: bool, sid: RelayState.Token, reserveNow: real, sigNow: real)
    | Finish(at: real)

  datatype Outcome = NoTicket | OverBudget | TooMany | OnReserve | OnGlobal

  predicate TriesReserve(st: Step) {
    st.Offer? && st.complete && st.half
  }

  function ReserveCall(st: Step): Call {
    match st
    case Offer(_, _, sid, now, _) => if TriesReserve(st) then ForSource(SourceOf(sid), now) else Elsewhere(now)
    case Finish(at) => Elsewhere(at)
  }

  predicate ReserveAdmits(g: Gate, st: Step) {
    TriesReserve(st) && Admits(RESERVE_LIMITS, g.reserve, ReserveCall(st))
  }

  function SigCall(g: Gate, st: Step): Call {
    match st
    case Offer(complete, _, _, _, now) => if complete && !ReserveAdmits(g, st) then ForAll(now) else Elsewhere(now)
    case Finish(at) => Elsewhere(at)
  }

  function OutcomeOf(g: Gate, st: Step): Outcome
    requires st.Offer?
  {
    if !st.complete then NoTicket
    else if !ReserveAdmits(g, st) && !Admits(SIG_LIMITS, g.sig, SigCall(g, st)) then OverBudget
    else if g.inFlight >= MAX_SIG_IN_FLIGHT then TooMany
    else if ReserveAdmits(g, st) then OnReserve
    else OnGlobal
  }

  predicate Starts(g: Gate, st: Step) {
    st.Offer? && (OutcomeOf(g, st).OnReserve? || OutcomeOf(g, st).OnGlobal?)
  }

  function Advance(g: Gate, st: Step): Gate {
    Gate(RateLimit.Next(SIG_LIMITS, g.sig, SigCall(g, st)),
         RateLimit.Next(RESERVE_LIMITS, g.reserve, ReserveCall(st)),
         if Starts(g, st) then g.inFlight + 1 else if st.Finish? && g.inFlight > 0 then g.inFlight - 1 else g.inFlight)
  }

  /** A run from a relay started at `start`; a verification finishes only if one is running. */
  ghost predicate IsRun(start: real, gs: seq<Gate>, run: seq<Step>) {
    && |gs| == |run| + 1
    && gs[0] == Gate(Fresh(SIG_LIMITS, start), Fresh(RESERVE_LIMITS, start), 0)
    && (forall k :: 0 <= k < |run| ==> gs[k + 1] == Advance(gs[k], run[k]) && (run[k].Finish? ==> gs[k].inFlight > 0))
  }

  /** The reserve, asked for one id, grants: there is room for the id, and both its buckets hold a token. */
  predicate ReserveHas(g: Gate, sid: RelayState.Token, now: real) {
    && SourceGrants(Limits(Rate(20.0, 40.0), Rate(4.0, 8.0), 1024), g.reserve, SourceOf(sid), now)
    && Grants(g.reserve.global, Rate(20.0, 40.0), now)
  }

  /**
   A bind with its ticket is paid by the reserve if its session is half open and the reserve
   grants, and else, the reserve spent or not asked, by the global budget if that has a token.
   */
  lemma PaidIff(g: Gate, complete: bool, half: bool, sid: RelayState.Token, reserveNow: real, sigNow: real)
    ensures var r := OutcomeOf(g, Offer(complete, half, sid, reserveNow, sigNow));
      var reserved, paid := half && ReserveHas(g, sid, reserveNow), Grants(g.sig.global, Rate(200.0, 400.0), sigNow);
      && (r == NoTicket <==> !complete)
      && (r == OverBudget <==> complete && !reserved && !paid)
      && (r == TooMany <==> complete && (reserved || paid) && g.inFlight >= 32)
      && (r == OnReserve <==> complete && reserved && g.inFlight < 32)
      && (r == OnGlobal <==> complete && !reserved && paid && g.inFlight < 32)
  {}

  /** A budget that is not asked is not charged, and a slot is taken exactly by a bind that is paid for. */
  lemma ChargedOnlyIfAsked(g: Gate, complete: bool, half: bool, sid: RelayState.Token, reserveNow: real, sigNow: real)
    ensures var g' := Advance(g, Offer(complete, half, sid, reserveNow, sigNow));
      && (!complete || !half ==> g'.reserve == g.reserve)
      && (g'.sig.global == if complete && !(half && ReserveHas(g, sid, reserveNow))
                           then Take(g.sig.global, Rate(200.0, 400.0), sigNow) else g.sig.global)
      && (g'.inFlight == if complete && g.inFlight < 32 && ((half && ReserveHas(g, sid, reserveNow))
                                                            || Grants(g.sig.global, Rate(200.0, 400.0), sigNow))
                         then g.inFlight + 1 else g.inFlight)
  {}

  // ---- how many run at once -----------------------------------------------------------

  function Started(gs: seq<Gate>, run: seq<Step>, n: nat): set<nat>
    requires n <= |gs| && n <= |run|
  {
    set k: nat | k < n && Starts(gs[k], run[k])
  }

  function Finished(run: seq<Step>, n: nat): set<nat>
    requires n <= |run|
  {
    set k: nat | k < n && run[k].Finish?
  }

  lemma StartedStep(gs: seq<Gate>, run: seq<Step>, n: nat)
    requires 0 < n <= |run| && n <= |gs|
    ensures |Started(gs, run, n)| == |Started(gs, run, n - 1)| + if Starts(gs[n - 1], run[n - 1]) then 1 else 0
  {
    Grow(Started(gs, run, n - 1), Started(gs, run, n), n - 1, Starts(gs[n - 1], run[n - 1]));
  }

  lemma Grow(a: set<nat>, b: set<nat>, n: nat, hit: bool)
    requires n !in a && forall k :: k in b <==> k in a || (k == n && hit)
    ensures |b| == |a| + if hit then 1 else 0
  {
    assert b == if hit then a + {n} else a;
  }

  lemma FinishedStep(run: seq<Step>, n: nat)
    requires 0 < n <= |run|
    ensures |Finished(run, n)| == |Finished(run, n - 1)| + if run[n - 1].Finish? then 1 else 0
  {
    Grow(Finished(run, n - 1), Finished(run, n), n - 1, run[n - 1].Finish?);
  }

  lemma SlotStep(g: Gate, st: Step)
    requires g.inFlight <= MAX_SIG_IN_FLIGHT && (st.Finish? ==> g.inFlight > 0)
    ensures Advance(g, st).inFlight
            == g.inFlight + (if Starts(g, st) then 1 else 0) - (if st.Finish? then 1 else 0) <= MAX_SIG_IN_FLIGHT
  {}

  /** Slots are conserved: those in use are the starts not yet finished, at most 32. */
  lemma {:induction false} InFlightExact(start: real, gs: seq<Gate>, run: seq<Step>, n: nat)
    requires IsRun(start, gs, run) && n < |gs|
    ensures gs[n].inFlight == |Started(gs, run, n)| - |Finished(run, n)|
    ensures gs[n].inFlight <= MAX_SIG_IN_FLIGHT
  {
    if n > 0 {
      InFlightExact(start, gs, run, n - 1);
      StartedStep(gs, run, n);
      FinishedStep(run, n);
      SlotStep(gs[n - 1], run[n - 1]);
    }
  }

  // ---- how many start in a window --------------------------------------------------------

  /** When a started verification was admitted: the reading of the budget that paid. */
  function PaidAt(g: Gate, st: Step): real
    requires st.Offer?
  {
    if ReserveAdmits(g, st) then st.reserveNow else st.sigNow
  }

  predicate StartsIn(g: Gate, st: Step, t1: real, t2: real) {
    Starts(g, st) && t1 <= PaidAt(g, st) <= t2
  }

  function StartedIn(gs: seq<Gate>, run: seq<Step>, t1: real, t2: real): set<nat>
    requires |run| <= |gs|
  {
    set k: nat | k < |run| && StartsIn(gs[k], run[k], t1, t2)
  }

  function SigStates(gs: seq<Gate>): seq<Lim> {
    seq(|gs|, k requires 0 <= k < |gs| => gs[k].sig)
  }

  function ReserveStates(gs: seq<Gate>): seq<Lim> {
    seq(|gs|, k requires 0 <= k < |gs| => gs[k].reserve)
  }

  function SigCalls(gs: seq<Gate>, run: seq<Step>): seq<Call>
    requires |run| <= |gs|
  {
    seq(|run|, k requires 0 <= k < |run| => SigCall(gs[k], run[k]))
  }

  function ReserveCalls(run: seq<Step>): seq<Call> {
    seq(|run|, k requires 0 <= k < |run| => ReserveCall(run[k]))
  }

  lemma SigRun(start: real, gs: seq<Gate>, run: seq<Step>)
    requires IsRun(start, gs, run)
    ensures RateLimit.IsRun(SIG_LIMITS, start, SigStates(gs), SigCalls(gs, run))
  {}

  lemma ReserveRun(start: real, gs: seq<Gate>, run: seq<Step>)
    requires IsRun(start, gs, run)
    ensures RateLimit.IsRun(RESERVE_LIMITS, start, ReserveStates(gs), ReserveCalls(run))
  {}

  /** Every start was paid for by exactly one of the two budgets. */
  lemma StartIsPaid(g: Gate, st: Step, t1: real, t2: real)
    requires StartsIn(g, st, t1, t2)
    ensures AdmittedIn(RESERVE_LIMITS, g.reserve, ReserveCall(st), t1, t2)
            <==> !AdmittedIn(SIG_LIMITS, g.sig, SigCall(g, st), t1, t2)
  {}

  lemma SigCeiling(start: real, gs: seq<Gate>, run: seq<Step>, t1: real, t2: real)
    requires IsRun(start, gs, run) && t1 <= t2
    ensures |Admitted(SIG_LIMITS, SigStates(gs), SigCalls(gs, run), t1, t2)| as real <= 400.0 + 200.0 * (t2 - t1)
  {
    SigRun(start, gs, run);
    GlobalCeiling(SIG_LIMITS, start, SigStates(gs), SigCalls(gs, run), t1, t2);
  }

  lemma ReserveCeiling(start: real, gs: seq<Gate>, run: seq<Step>, t1: real, t2: real)
    requires IsRun(start, gs, run) && t1 <= t2
    ensures |Admitted(RESERVE_LIMITS, ReserveStates(gs), ReserveCalls(run), t1, t2)| as real <= 40.0 + 20.0 * (t2 - t1)
  {
    ReserveRun(start, gs, run);
    GlobalCeiling(RESERVE_LIMITS, start, ReserveStates(gs), ReserveCalls(run), t1, t2);
  }

  lemma StartedIsPaid(gs: seq<Gate>, run: seq<Step>, t1: real, t2: real)
    requires |gs| == |run| + 1
    ensures StartedIn(gs, run, t1, t2)
            <= Admitted(SIG_LIMITS, SigStates(gs), SigCalls(gs, run), t1, t2)
               + Admitted(RESERVE_LIMITS, ReserveStates(gs), ReserveCalls(run), t1, t2)
  {}

  /**
   Whatever the traffic, the verifications started in any window of `d` seconds are
   at most (400 + 200 d) + (40 + 20 d).
   */
  lemma WorkBound(start: real, gs: seq<Gate>, run: seq<Step>, t1: real, t2: real)
    requires IsRun(start, gs, run) && t1 <= t2
    ensures |StartedIn(gs, run, t1, t2)| as real <= (400.0 + 200.0 * (t2 - t1)) + (40.0 + 20.0 * (t2 - t1))
  {
    var paid := Admitted(SIG_LIMITS, SigStates(gs), SigCalls(gs, run), t1, t2);
    var reserved := Admitted(RESERVE_LIMITS, ReserveStates(gs), ReserveCalls(run), t1, t2);
    SigCeiling(start, gs, run, t1, t2);
    ReserveCeiling(start, gs, run, t1, t2);
    StartedIsPaid(gs, run, t1, t2);
    SubsetSize(StartedIn(gs, run, t1, t2), paid + reserved);
    assert |paid + reserved| == |paid| + |reserved| - |paid * reserved|;
  }

  // ---- what one session id can take from the reserve -----------------------------------------

  predicate ReservedFor(g: Gate, st: Step, sid: RelayState.Token, t1: real, t2: real) {
    st.Offer? && st.sid == sid && t1 <= st.reserveNow <= t2 && ReserveAdmits(g, st)
  }

  function ReserveSpent(gs: seq<Gate>, run: seq<Step>, sid: RelayState.Token, t1: real, t2: real): set<nat>
    requires |run| <= |gs|
  {
    set k: nat | k < |run| && ReservedFor(gs[k], run[k], sid, t1, t2)
  }

  lemma SpentIsGranted(gs: seq<Gate>, run: seq<Step>, sid: RelayState.Token, t1: real, t2: real)
    requires |gs| == |run| + 1
    ensures ReserveSpent(gs, run, sid, t1, t2)
            <= SourceGranted(RESERVE_LIMITS, ReserveStates(gs), ReserveCalls(run), SourceOf(sid), t1, t2)
  {}

  /**
   One session id, real or guessed, draws at most 8 + 4 d from the reserve in `d` seconds, as
   long as no reading for it is older than one that pruned it; other ids may come in any order.
   */
  lemma ReservePerSession(start: real, gs: seq<Gate>, run: seq<Step>, sid: RelayState.Token, t1: real, t2: real)
    requires IsRun(start, gs, run) && t1 <= t2
    requires InOrder(RESERVE_LIMITS, ReserveStates(gs), ReserveCalls(run), SourceOf(sid))
    ensures |ReserveSpent(gs, run, sid, t1, t2)| as real <= 8.0 + 4.0 * (t2 - t1)
  {
    ReserveRun(start, gs, run);
    SourceCeiling(RESERVE_LIMITS, start, ReserveStates(gs), ReserveCalls(run), SourceOf(sid), t1, t2);
    SpentIsGranted(gs, run, sid, t1, t2);
    SubsetSize(ReserveSpent(gs, run, sid, t1, t2),
            SourceGranted(RESERVE_LIMITS, ReserveStates(gs), ReserveCalls(run), SourceOf(sid), t1, t2));
  }

  // ---- the gate itself -----------------------------------------------------------------------

  class Admission {
    const relay: RelayServer.Server
    const sigRL: Limiter
    const reserveRL: Limiter
    var inFlight: nat

    ghost predicate Wired()
      reads this
    {
      sigRL != reserveRL && sigRL.limits == SIG_LIMITS && reserveRL.limits == RESERVE_LIMITS
    }

    ghost function Abs(): Gate
      reads this, sigRL, reserveRL
    {
      Gate(sigRL.Abs(), reserveRL.Abs(), inFlight)
    }

    constructor (relay: RelayServer.Server, now: real)
      ensures Wired() && Abs() == Gate(Fresh(SIG_LIMITS, now), Fresh(RESERVE_LIMITS, now), 0)
      ensures this.relay == relay && fresh(sigRL) && fresh(reserveRL)
    {
      this.relay := relay;
      var s := new Limiter.GlobalOnly(SIG_GLOBAL_RATE, now);
      var r := new Limiter(RESERVE_RATE, RESERVE_PER_SID_RATE, RESERVE_MAX_SIDS, now);
      sigRL, reserveRL, inFlight := s, r, 0;
    }

    /** Decide whether this bind may spend verification work, and take its slot. */
    method Admit(complete: bool, sid: RelayState.Token, reserveNow: real, sigNow: real) returns (r: Outcome)
      requires Wired() && relay.Valid()
      modifies this, sigRL, reserveRL
      ensures var st := Offer(complete, |old(RelayState.LegsOf(relay.Abs(), sid))| == 1, sid, reserveNow, sigNow);
        r == OutcomeOf(old(Abs()), st) && Abs() == Advance(old(Abs()), st)
    {
      if !complete {
        return NoTicket;
      }
      var half := relay.HalfOpen(sid);
      var paid, reserved := Draw(half, sid, reserveNow, sigNow);
      if !paid {
        return OverBudget;
      }
      if inFlight >= MAX_SIG_IN_FLIGHT {
        return TooMany;
      }
      inFlight := inFlight + 1;
      r := if reserved then OnReserve else OnGlobal;
    }

    /** Charge the reserve if the session is half open, else or failing that the global budget. */
    method Draw(half: bool, sid: RelayState.Token, reserveNow: real, sigNow: real) returns (paid: bool, reserved: bool)
      requires Wired()
      modifies sigRL, reserveRL
      ensures var st, g := Offer(true, half, sid, reserveNow, sigNow), old(Abs());
        && (reserved <==> ReserveAdmits(g, st))
        && (paid <==> reserved || Admits(SIG_LIMITS, g.sig, SigCall(g, st)))
        && sigRL.Abs() == RateLimit.Next(SIG_LIMITS, g.sig, SigCall(g, st))
        && reserveRL.Abs() == RateLimit.Next(RESERVE_LIMITS, g.reserve, ReserveCall(st))
    {
      reserved := false;
      if half {
        reserved := reserveRL.Allow(SourceOf(sid), reserveNow);
      }
      paid := reserved;
      if !reserved {
        paid := sigRL.AllowGlobal(sigNow);
      }
    }

    /** A verification goroutine returns its slot. */
    method Done(at: real)
      requires inFlight > 0
      modifies this`inFlight
      ensures Abs() == Advance(old(Abs()), Finish(at))
    {
      inFlight := inFlight - 1;
    }
  }
}
