/**
 Runs of the relay: any sequence of binds, forwards and reaper passes, in either
 mode, with the forwarder's unlocked write allowed to land on any record at any
 moment. Each step has one of five effects, and every effect keeps the invariant.
 */
module RelayRuns {
  import opened Common
  import opened RelayState
  import opened RelayAccounting
  import opened RelayInvariant

  datatype Step =
    | NetworkBind(t: Token, src: Addr, acct: AcctKey, now: int)
    | TicketBind(t: Token, name: LegName, epk: EphKey, src: Addr, acct: AcctKey, now: int)
    | ForwardTouch(f: FwdId, now: int)
    | ReapPass(now: int)

  function Next(c: Config, s: State, st: Step): State {
    match st
    case NetworkBind(t, src, acct, now) => BindNetwork(c, s, t, src, acct, now).0
    case TicketBind(t, name, epk, src, acct, now) => BindTicketed(c, s, t, name, epk, src, acct, now).0
    case ForwardTouch(f, now) => Touch(s, f, now)
    case ReapPass(now) => Reap(c, s, now)
  }

  /** `ss` are the states of a run from the empty relay through the steps `run`. */
  ghost predicate IsRun(c: Config, ss: seq<State>, run: seq<Step>) {
    && |ss| == |run| + 1
    && ss[0] == EMPTY
    && (forall i :: 0 <= i < |run| ==> ss[i + 1] == Next(c, ss[i], run[i]))
  }

  // ---- what a step can do ----------------------------------------------------------

  datatype Effect =
    | Skips
    | Touches(f: FwdId, now: int)
    | Claims(t: Token, l: Leg, now: int)
    | Moves(t: Token, i: nat, src: Addr, acct: AcctKey, now: int)
    | Reaps(now: int)

  function Apply(c: Config, s: State, e: Effect): State {
    match e
    case Skips => s
    case Touches(f, now) => Touch(s, f, now)
    case Claims(t, l, now) => Claim(s, t, l, now)
    case Moves(t, i, src, acct, now) => if i < |LegsOf(s, t)| then Migrate(s, t, i, src, acct, now) else s
    case Reaps(now) => Reap(c, s, now)
  }

  ghost predicate Legal(c: Config, s: State, e: Effect) {
    match e
    case Claims(t, l, _) => CanClaim(c, s, t, l)
    case Moves(t, i, _, acct, _) =>
      i < |LegsOf(s, t)| && (LegsOf(s, t)[i].acct == acct || Count(s.legsPerIP, acct) < c.maxLegsPerIP)
    case _ => true
  }

  function EffectOf(c: Config, s: State, st: Step): Effect {
    match st
    case NetworkBind(t, src, acct, now) =>
      (match BindNetwork(c, s, t, src, acct, now).1
       case Claimed => Claims(t, Leg(src, acct, Unnamed, EphKey(0), s.next), now)
       case Refreshed =>
         var i := FindAddr(LegsOf(s, t), src);
         if i < |LegsOf(s, t)| then Touches(LegsOf(s, t)[i].fwd, now) else Skips
       case _ => Skips)
    case TicketBind(t, name, epk, src, acct, now) =>
      (match BindTicketed(c, s, t, name, epk, src, acct, now).1
       case Claimed => Claims(t, Leg(src, acct, name, epk, s.next), now)
       case Refreshed =>
         var i := FindName(LegsOf(s, t), name);
         if i < |LegsOf(s, t)| then Touches(LegsOf(s, t)[i].fwd, now) else Skips
       case Migrated => Moves(t, FindName(LegsOf(s, t), name), src, acct, now)
       case _ => Skips)
    case ForwardTouch(f, now) => Touches(f, now)
    case ReapPass(now) => Reaps(now)
  }

  /** Every step has exactly its effect, and only when the ceilings allow it. */
  lemma NextIsApply(c: Config, s: State, st: Step)
    ensures Legal(c, s, EffectOf(c, s, st))
    ensures Next(c, s, st) == Apply(c, s, EffectOf(c, s, st))
  {
    match st
    case NetworkBind(t, src, acct, now) => NetworkIsApply(c, s, st);
    case TicketBind(t, name, epk, src, acct, now) =>
      match TicketVerdict(c, s, st) {
        case Claimed => TicketClaims(c, s, st);
        case Migrated => TicketMoves(c, s, st);
        case _ => TicketElse(c, s, st);
      }
    case _ =>
  }

  lemma NetworkIsApply(c: Config, s: State, st: Step)
    requires st.NetworkBind?
    ensures Legal(c, s, EffectOf(c, s, st))
    ensures Next(c, s, st) == Apply(c, s, EffectOf(c, s, st))
  {}

  function TicketVerdict(c: Config, s: State, st: Step): Verdict
    requires st.TicketBind?
  {
    BindTicketed(c, s, st.t, st.name, st.epk, st.src, st.acct, st.now).1
  }

  lemma TicketClaims(c: Config, s: State, st: Step)
    requires st.TicketBind? && TicketVerdict(c, s, st) == Claimed
    ensures Legal(c, s, EffectOf(c, s, st))
    ensures Next(c, s, st) == Apply(c, s, EffectOf(c, s, st))
  {}

  lemma TicketMoves(c: Config, s: State, st: Step)
    requires st.TicketBind? && TicketVerdict(c, s, st) == Migrated
    ensures Legal(c, s, EffectOf(c, s, st))
    ensures Next(c, s, st) == Apply(c, s, EffectOf(c, s, st))
  {}

  lemma TicketElse(c: Config, s: State, st: Step)
    requires st.TicketBind? && !TicketVerdict(c, s, st).Claimed? && !TicketVerdict(c, s, st).Migrated?
    ensures Legal(c, s, EffectOf(c, s, st))
    ensures Next(c, s, st) == Apply(c, s, EffectOf(c, s, st))
  {}

  ghost predicate IsTrace(c: Config, ss: seq<State>, es: seq<Effect>) {
    && |ss| == |es| + 1
    && ss[0] == EMPTY
    && (forall i :: 0 <= i < |es| ==> Legal(c, ss[i], es[i]) && ss[i + 1] == Apply(c, ss[i], es[i]))
  }

  function Effects(c: Config, ss: seq<State>, run: seq<Step>): seq<Effect>
    requires |ss| == |run| + 1
  {
    seq(|run|, i requires 0 <= i < |run| => EffectOf(c, ss[i], run[i]))
  }

  lemma RunIsTrace(c: Config, ss: seq<State>, run: seq<Step>)
    requires IsRun(c, ss, run)
    ensures IsTrace(c, ss, Effects(c, ss, run))
  {
    forall i | 0 <= i < |run|
      ensures Legal(c, ss[i], EffectOf(c, ss[i], run[i])) && ss[i + 1] == Apply(c, ss[i], EffectOf(c, ss[i], run[i]))
    {
      NextIsApply(c, ss[i], run[i]);
    }
  }

  // ---- the invariant over runs ---------------------------------------------------------

  lemma ApplyInv(c: Config, s: State, e: Effect)
    requires Inv(c, s) && Legal(c, s, e)
    ensures Inv(c, Apply(c, s, e))
  {
    match e
    case Skips =>
    case Touches(f, now) => TouchInv(c, s, f, now);
    case Claims(t, l, now) => ClaimInv(c, s, t, l, now);
    case Moves(t, i, src, acct, now) => MigrateInv(c, s, t, i, src, acct, now);
    case Reaps(now) => ReapInv(c, s, now);
  }

  lemma {:induction false} TraceInv(c: Config, ss: seq<State>, es: seq<Effect>, n: nat)
    requires IsTrace(c, ss, es) && n < |ss|
    ensures Inv(c, ss[n])
  {
    if n == 0 {
      EmptyInv(c);
    } else {
      TraceInv(c, ss, es, n - 1);
      ApplyInv(c, ss[n - 1], es[n - 1]);
    }
  }

  lemma TraceUnique(c: Config, ss: seq<State>, es: seq<Effect>, n: nat)
    requires IsTrace(c, ss, es) && n < |ss|
    ensures Unique(ss[n].sessions)
  {
    TraceInv(c, ss, es, n);
  }

  /**
   Every reachable state: bounded sessions of one or two legs, counters equal to a
   fresh tally and within the ceiling, sound routes, exact peer pointers.
   */
  lemma RunInv(c: Config, ss: seq<State>, run: seq<Step>, n: nat)
    requires IsRun(c, ss, run) && n < |ss|
    ensures Inv(c, ss[n])
  {
    RunIsTrace(c, ss, run);
    TraceInv(c, ss, Effects(c, ss, run), n);
  }

  /** The counters over a whole run, in the terms an operator would use. */
  lemma RunAccounting(c: Config, ss: seq<State>, run: seq<Step>, n: nat, k: AcctKey)
    requires IsRun(c, ss, run) && n < |ss|
    ensures var s := ss[n];
      && Count(s.legsPerIP, k) == |Charged(LiveLegs(s.sessions), k)| <= c.maxLegsPerIP
      && (k in s.legsPerIP <==> exists l :: l in LiveLegs(s.sessions) && l.acct == k)
  {
    RunInv(c, ss, run, n);
    var live := LiveLegs(ss[n].sessions);
    TallyCounts(live, k);
    if l :| l in live && l.acct == k {
      assert l in Charged(live, k);
    } else {
      assert Charged(live, k) == {};
    }
  }

  // ---- ticket mode: legs by name ---------------------------------------------------------

  ghost predicate NamedLegal(s: State, e: Effect) {
    e.Claims? ==> e.l.name != Unnamed && FindName(LegsOf(s, e.t), e.l.name) == |LegsOf(s, e.t)|
  }

  lemma ApplyNamed(c: Config, s: State, e: Effect)
    requires Shape(c, s) && Named(s) && NamedLegal(s, e)
    ensures Named(Apply(c, s, e))
  {
    match e
    case Claims(t, l, now) => ClaimNamed(s, t, l, now);
    case Moves(t, i, src, acct, now) =>
      if i < |LegsOf(s, t)| {
        MigrateNamed(s, t, i, src, acct, now);
      }
    case Reaps(now) => ReapNamed(c, s, now);
    case _ =>
  }

  lemma ClaimNamed(s: State, t: Token, l: Leg, now: int)
    requires Named(s) && l.name != Unnamed && FindName(LegsOf(s, t), l.name) == |LegsOf(s, t)|
    ensures Named(Claim(s, t, l, now))
  {
    assert NamedLegs(LegsOf(s, t) + [l]);
  }

  lemma MigrateNamed(s: State, t: Token, i: nat, src: Addr, acct: AcctKey, now: int)
    requires Named(s) && i < |LegsOf(s, t)|
    ensures Named(Migrate(s, t, i, src, acct, now))
  {
    assert forall j :: 0 <= j < |LegsOf(s, t)| ==>
        Migrate(s, t, i, src, acct, now).sessions[t].legs[j].name == LegsOf(s, t)[j].name;
  }

  ghost predicate TicketStep(st: Step) {
    !st.NetworkBind? && (st.TicketBind? ==> st.name != Unnamed)
  }

  lemma TicketStepNamed(c: Config, s: State, st: Step)
    requires TicketStep(st)
    ensures NamedLegal(s, EffectOf(c, s, st))
  {}

  /** In ticket mode every reachable session holds at most one leg of each name. */
  lemma {:induction false} RunNamed(c: Config, ss: seq<State>, run: seq<Step>, n: nat)
    requires IsRun(c, ss, run) && n < |ss|
    requires forall i :: 0 <= i < |run| ==> TicketStep(run[i])
    ensures Named(ss[n])
  {
    if n == 0 {
      EmptyInv(c);
    } else {
      RunNamed(c, ss, run, n - 1);
      RunShape(c, ss, run, n - 1);
      TicketStepNamed(c, ss[n - 1], run[n - 1]);
      NextIsApply(c, ss[n - 1], run[n - 1]);
      ApplyNamed(c, ss[n - 1], EffectOf(c, ss[n - 1], run[n - 1]));
    }
  }

  lemma RunShape(c: Config, ss: seq<State>, run: seq<Step>, n: nat)
    requires IsRun(c, ss, run) && n < |ss|
    ensures Shape(c, ss[n])
  {
    RunInv(c, ss, run, n);
  }

  /**
   The leg-cap backstop of a ticketed bind is unreachable as a third leg: with
   distinct names a free name means a free slot, so a refusal for the leg cap
   always is the per-source ceiling.
   */
  lemma TicketLegCap(c: Config, s: State, t: Token, name: LegName, epk: EphKey, src: Addr, acct: AcctKey, now: int)
    requires Shape(c, s) && Named(s) && name != Unnamed
    ensures BindTicketed(c, s, t, name, epk, src, acct, now).1 == LegCap
            ==> Count(s.legsPerIP, acct) >= c.maxLegsPerIP && |LegsOf(s, t)| < MAX_LEGS_PER_SESSION
  {
    var legs := LegsOf(s, t);
    if t in s.sessions && |legs| == 2 {
      assert NamedLegs(legs);
      assert legs[0].name != legs[1].name;
      assert FindName(legs, name) < 2;
    }
  }
}
