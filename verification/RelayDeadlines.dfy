/** Deadlines kept by the reaper, whatever traffic arrives in between. */
module RelayDeadlines {
  import opened RelayState
  import opened RelayInvariant
  import opened RelayRuns
  import opened RelayBinds

  function TimeOf(st: Step): int {
    match st
    case NetworkBind(_, _, _, now) => now
    case TicketBind(_, _, _, _, _, now) => now
    case ForwardTouch(_, now) => now
    case ReapPass(now) => now
  }

  /** What a pass leaves is neither idle nor overdue. */
  lemma ReapLeavesFresh(c: Config, s: State, t: Token, i: nat, now: int)
    requires t in Reap(c, s, now).sessions && i < |Reap(c, s, now).sessions[t].legs|
    ensures var l := Reap(c, s, now).sessions[t].legs[i]; l.fwd in s.fwds ==> now - s.fwds[l.fwd].seen <= c.ttl
    ensures !Reap(c, s, now).sessions[t].paired ==> now - Reap(c, s, now).sessions[t].created <= c.pendingPair
  {
    SurvivorMembers(c, s.fwds, s.sessions[t], now);
    assert Survivors(c, s.fwds, s.sessions[t], now)[i] in Survivors(c, s.fwds, s.sessions[t], now);
  }

  /**
   A pass keeps exactly the legs heard of within the TTL in sessions that were paired once or
   are young enough to wait, and each such session with its own history.
   */
  lemma ReapKeepsIff(c: Config, s: State, t: Token, l: Leg, now: int)
    requires Inv(c, s)
    ensures HasLeg(Reap(c, s, now), t, l) <==>
      && t in s.sessions && l in s.sessions[t].legs && now - s.fwds[l.fwd].seen <= c.ttl
      && (s.sessions[t].paired || now - s.sessions[t].created <= c.pendingPair)
    ensures HasLeg(Reap(c, s, now), t, l) ==> var ses := Reap(c, s, now).sessions[t];
      ses.paired == s.sessions[t].paired && ses.created == s.sessions[t].created
  {
    if t in s.sessions {
      SurvivorMembers(c, s.fwds, s.sessions[t], now);
      if l in s.sessions[t].legs {
        RecordKept(c, s, t, l);
      }
    }
  }

  lemma RecordKept(c: Config, s: State, t: Token, l: Leg)
    requires Inv(c, s) && HasLeg(s, t, l)
    ensures l.fwd in s.fwds
  {
    var i :| 0 <= i < |s.sessions[t].legs| && s.sessions[t].legs[i] == l;
  }

  // ---- how long a leg stays ------------------------------------------------------------------

  /** The leg with record `f` is in session `t`. */
  ghost predicate Stands(s: State, t: Token, f: FwdId) {
    exists l :: HasLeg(s, t, l) && l.fwd == f
  }

  /** At this step a pass finds the leg silent for too long, or its session never paired for too long. */
  ghost predicate FallsTo(c: Config, s: State, st: Step, t: Token, f: FwdId) {
    && st.ReapPass? && f in s.fwds && t in s.sessions
    && (st.now - s.fwds[f].seen > c.ttl || (!s.sessions[t].paired && st.now - s.sessions[t].created > c.pendingPair))
  }

  lemma EffectStands(c: Config, s: State, e: Effect, t: Token, f: FwdId)
    requires Inv(c, s) && Legal(c, s, e) && !e.Reaps? && f < s.next
    ensures Stands(Apply(c, s, e), t, f) <==> Stands(s, t, f)
  {
    var s' := Apply(c, s, e);
    ApplyInv(c, s, e);
    match e
    case Claims(u, l, now) => ClaimOthers(s, u, l, now);
    case Moves(u, i, src, acct, now) =>
      MigrateOthers(c, s, u, i, src, acct, now);
      var m := LegsOf(s, u)[i];
      MoveStands(s, s', u, m, m.(addr := src, acct := acct), t, f);
    case _ =>
  }

  lemma MoveStands(s: State, s': State, u: Token, m: Leg, m': Leg, t: Token, f: FwdId)
    requires OthersKept(s, s', m.fwd) && HasLeg(s, u, m) && HasLeg(s', u, m') && m.fwd == m'.fwd
    requires Unique(s.sessions) && Unique(s'.sessions)
    ensures Stands(s', t, f) <==> Stands(s, t, f)
  {
    if f == m.fwd {
      OneHome(s.sessions, u, m, t);
      OneHome(s'.sessions, u, m', t);
    }
  }

  lemma OneHome(m: map<Token, Session>, u: Token, l: Leg, t: Token)
    requires Unique(m) && u in m && l in m[u].legs
    ensures forall k :: t in m && k in m[t].legs && k.fwd == l.fwd ==> t == u
  {
    var home :| Homed(m, home);
  }

  lemma ReapStands(c: Config, s: State, now: int, t: Token, f: FwdId)
    requires Inv(c, s)
    ensures Stands(Reap(c, s, now), t, f) <==> Stands(s, t, f) && !FallsTo(c, s, ReapPass(now), t, f)
  {
    if l :| HasLeg(s, t, l) && l.fwd == f {
      ReapKeepsIff(c, s, t, l, now);
      RecordKept(c, s, t, l);
      forall m | HasLeg(Reap(c, s, now), t, m) && m.fwd == f ensures !FallsTo(c, s, ReapPass(now), t, f) {
        ReapKeepsIff(c, s, t, m, now);
      }
    }
    forall m | HasLeg(Reap(c, s, now), t, m) ensures HasLeg(s, t, m) {
      ReapKeepsIff(c, s, t, m, now);
    }
  }

  lemma StepStands(c: Config, s: State, st: Step, t: Token, f: FwdId)
    requires Inv(c, s) && f < s.next
    ensures Stands(Next(c, s, st), t, f) <==> Stands(s, t, f) && !FallsTo(c, s, st, t, f)
  {
    if st.ReapPass? {
      ReapStands(c, s, st.now, t, f);
    } else {
      NextIsApply(c, s, st);
      EffectTime(c, s, st);
      EffectStands(c, s, EffectOf(c, s, st), t, f);
    }
  }

  lemma {:induction false} RecordsGrow(c: Config, ss: seq<State>, run: seq<Step>, i: nat, j: nat)
    requires IsRun(c, ss, run) && i <= j < |ss|
    ensures ss[i].next <= ss[j].next
    decreases j - i
  {
    if i < j {
      RecordsGrow(c, ss, run, i, j - 1);
      RecordGrows(c, ss[j - 1], run[j - 1]);
    }
  }

  lemma RecordGrows(c: Config, s: State, st: Step)
    ensures s.next <= Next(c, s, st).next
  {
    NextIsApply(c, s, st);
  }

  ghost predicate NeverFalls(c: Config, ss: seq<State>, run: seq<Step>, t: Token, f: FwdId, i: int, j: int)
    requires 0 <= i && j <= |run| <= |ss|
  {
    forall k :: i <= k < j ==> !FallsTo(c, ss[k], run[k], t, f)
  }

  /**
   Over every run a leg that stands goes on standing, wherever it moves, if and only if no
   pass finds it silent for longer than the TTL or waiting for longer than it may.
   */
  lemma StandsIff(c: Config, ss: seq<State>, run: seq<Step>, t: Token, f: FwdId, i: nat, j: nat)
    requires IsRun(c, ss, run) && i <= j < |ss| && Stands(ss[i], t, f)
    ensures Stands(ss[j], t, f) <==> NeverFalls(c, ss, run, t, f, i, j)
  {
    var stands, falls := StandsAt(ss, t, f), FallsAt(c, ss, run, t, f);
    forall k | i <= k < j ensures stands(k + 1) <==> stands(k) && !falls(k) {
      StandsStep(c, ss, run, t, f, i, k);
    }
    HoldsUntil(stands, falls, i, j);
    NeverFallsAt(c, ss, run, t, f, i, j);
  }

  ghost function StandsAt(ss: seq<State>, t: Token, f: FwdId): int -> bool {
    k => 0 <= k < |ss| && Stands(ss[k], t, f)
  }

  ghost function FallsAt(c: Config, ss: seq<State>, run: seq<Step>, t: Token, f: FwdId): int -> bool {
    k => 0 <= k < |run| && k < |ss| && FallsTo(c, ss[k], run[k], t, f)
  }

  lemma NeverFallsAt(c: Config, ss: seq<State>, run: seq<Step>, t: Token, f: FwdId, i: nat, j: nat)
    requires j <= |run| <= |ss|
    ensures NeverFalls(c, ss, run, t, f, i, j) <==> forall k :: i <= k < j ==> !FallsAt(c, ss, run, t, f)(k)
  {
    if !NeverFalls(c, ss, run, t, f, i, j) {
      var k :| i <= k < j && FallsTo(c, ss[k], run[k], t, f);
      assert FallsAt(c, ss, run, t, f)(k);
    }
    forall k | i <= k < j && FallsAt(c, ss, run, t, f)(k) ensures !NeverFalls(c, ss, run, t, f, i, j) {
      assert FallsTo(c, ss[k], run[k], t, f);
    }
  }

  lemma {:induction false} HoldsUntil(holds: int -> bool, ends: int -> bool, i: int, j: int)
    requires i <= j && holds(i) && forall k :: i <= k < j ==> (holds(k + 1) <==> holds(k) && !ends(k))
    ensures holds(j) <==> forall k :: i <= k < j ==> !ends(k)
    decreases j - i
  {
    if i < j {
      HoldsUntil(holds, ends, i, j - 1);
      assert holds(j - 1 + 1) <==> holds(j - 1) && !ends(j - 1);
    }
  }

  lemma StandsStep(c: Config, ss: seq<State>, run: seq<Step>, t: Token, f: FwdId, i: nat, k: nat)
    requires IsRun(c, ss, run) && i <= k < |run| && Stands(ss[i], t, f)
    ensures Stands(ss[k + 1], t, f) <==> Stands(ss[k], t, f) && !FallsTo(c, ss[k], run[k], t, f)
  {
    RunInv(c, ss, run, i);
    RunInv(c, ss, run, k);
    StandsBelow(c, ss[i], t, f);
    RecordsGrow(c, ss, run, i, k);
    StepStands(c, ss[k], run[k], t, f);
  }

  lemma StandsBelow(c: Config, s: State, t: Token, f: FwdId)
    requires Shape(c, s) && Stands(s, t, f)
    ensures f < s.next
  {
    var l :| HasLeg(s, t, l) && l.fwd == f;
    var i :| 0 <= i < |s.sessions[t].legs| && s.sessions[t].legs[i] == l;
  }

  lemma CreationKept(c: Config, s: State, st: Step, t: Token)
    requires t in s.sessions && t in Next(c, s, st).sessions
    ensures Next(c, s, st).sessions[t].created == s.sessions[t].created
  {
    NextIsApply(c, s, st);
  }

  lemma WaitsOn(c: Config, s: State, st: Step, t: Token, f: FwdId)
    requires Inv(c, s) && Stands(s, t, f)
    requires st.ReapPass? ==>
      st.now <= s.sessions[t].created + c.pendingPair && (f in s.fwds ==> st.now - s.fwds[f].seen <= c.ttl)
    ensures Stands(Next(c, s, st), t, f) && Next(c, s, st).sessions[t].created == s.sessions[t].created
  {
    StandsBelow(c, s, t, f);
    StepStands(c, s, st, t, f);
    CreationKept(c, s, st, t);
  }

  /**
   So a buddy that keeps in touch may wait for its partner until `pendingPair` after its
   session began, however many passes there are.
   */
  lemma {:induction false} MayWait(c: Config, ss: seq<State>, run: seq<Step>, t: Token, f: FwdId, i: nat, j: nat)
    requires IsRun(c, ss, run) && i <= j < |ss| && Stands(ss[i], t, f)
    requires forall k :: i <= k < j && run[k].ReapPass? ==>
      && run[k].now <= ss[i].sessions[t].created + c.pendingPair
      && (f in ss[k].fwds ==> run[k].now - ss[k].fwds[f].seen <= c.ttl)
    ensures Stands(ss[j], t, f) && ss[j].sessions[t].created == ss[i].sessions[t].created
    decreases j - i
  {
    if i < j {
      MayWait(c, ss, run, t, f, i, j - 1);
      RunInv(c, ss, run, j - 1);
      WaitsOn(c, ss[j - 1], run[j - 1], t, f);
    }
  }

  /** The effect happens at the time of its step. */
  ghost predicate At(e: Effect, now: int) {
    (e.Claims? ==> e.now == now) && (e.Reaps? ==> e.now == now)
  }

  lemma EffectTime(c: Config, s: State, st: Step)
    ensures At(EffectOf(c, s, st), TimeOf(st))
    ensures EffectOf(c, s, st).Reaps? <==> st.ReapPass?
  {}

  /** A session keeps its creation time, and once paired it stays paired. */
  lemma UnpairedOrigin(c: Config, s: State, e: Effect, t: Token, now: int)
    requires At(e, now)
    requires t in Apply(c, s, e).sessions && !Apply(c, s, e).sessions[t].paired
    ensures if t in s.sessions then !s.sessions[t].paired && s.sessions[t].created == Apply(c, s, e).sessions[t].created
            else Apply(c, s, e).sessions[t].created == now
    ensures e.Reaps? ==> now - Apply(c, s, e).sessions[t].created <= c.pendingPair
  {}

  ghost predicate Ordered(run: seq<Step>) {
    forall j, k :: 0 <= j < k < |run| ==> TimeOf(run[j]) <= TimeOf(run[k])
  }

  /** No never-paired session outlives a pass that came too late for it. */
  lemma {:induction false} UnpairedDeadline(c: Config, ss: seq<State>, run: seq<Step>, n: nat, t: Token, i: nat)
    requires IsRun(c, ss, run) && n < |ss| && c.pendingPair >= 0 && Ordered(run)
    requires t in ss[n].sessions && !ss[n].sessions[t].paired
    requires i < n && run[i].ReapPass?
    ensures TimeOf(run[i]) <= ss[n].sessions[t].created + c.pendingPair
  {
    var s, st := ss[n - 1], run[n - 1];
    NextIsApply(c, s, st);
    EffectTime(c, s, st);
    UnpairedOrigin(c, s, EffectOf(c, s, st), t, TimeOf(st));
    if i < n - 1 {
      if t in s.sessions {
        UnpairedDeadline(c, ss, run, n - 1, t, i);
      } else {
        assert TimeOf(run[i]) <= TimeOf(st);
      }
    }
  }

  ghost predicate PassWithin(run: seq<Step>, x: int, gap: int) {
    exists i :: 0 <= i < |run| && run[i].ReapPass? && x < TimeOf(run[i]) <= x + gap
  }

  /**
   With passes at most `gap` apart, a session that never found its partner is gone
   `pendingPair + gap` after it appeared, whatever binds and forwards occur.
   */
  lemma NeverPairedIsGone(c: Config, ss: seq<State>, run: seq<Step>, t: Token, gap: int, end: int)
    requires IsRun(c, ss, run) && c.pendingPair >= 0
    requires Ordered(run)
    requires t in ss[|run|].sessions && !ss[|run|].sessions[t].paired
    requires forall x :: ss[|run|].sessions[t].created <= x <= end - gap ==> PassWithin(run, x, gap)
    ensures end < ss[|run|].sessions[t].created + c.pendingPair + gap
  {
    var x := ss[|run|].sessions[t].created + c.pendingPair;
    if x <= end - gap {
      assert PassWithin(run, x, gap);
      var i :| 0 <= i < |run| && run[i].ReapPass? && x < TimeOf(run[i]) <= x + gap;
      UnpairedDeadline(c, ss, run, |run|, t, i);
      assert false;
    }
  }
}
