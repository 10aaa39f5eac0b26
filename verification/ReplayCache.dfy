/**
 The handshake server's replay caches (internal/role/authz.go). Which of several
 equally old entries an eviction picks depends on map order, so a step carries its
 victim. Times are nanoseconds.
 */
module ReplayCache {
  import opened Common

  const SECOND := 1_000_000_000
  const REG_SKEW := 60 * SECOND
  const WINDOW := 2 * REG_SKEW
  const MAX_REGS := 4096

  /** The identity key and the nonce of a registration. */
  datatype Reg = Reg(key: int, nonce: int)

  type Cache = map<Reg, int>

  datatype Caches = Caches(recent: Cache, preAuth: Cache)

  const EMPTY := Caches(map[], map[])

  predicate Live(m: Cache, r: Reg, now: int) {
    r in m && now - m[r] < WINDOW
  }

  predicate Seen(s: Caches, r: Reg, now: int) {
    Live(s.recent, r, now) || Live(s.preAuth, r, now)
  }

  function Unexpired(m: Cache, now: int): Cache {
    map r | r in m && now - m[r] < WINDOW :: m[r]
  }

  /** A full cache is first rid of what has expired. */
  function Pruned(m: Cache, now: int): Cache {
    if |m| >= MAX_REGS then Unexpired(m, now) else m
  }

  predicate MustEvict(m: Cache, now: int) {
    |Pruned(m, now)| >= MAX_REGS
  }

  ghost predicate Oldest(m: Cache, v: Reg) {
    v in m && forall r :: r in m ==> m[v] <= m[r]
  }

  function Insert(m: Cache, r: Reg, now: int, victim: Reg): Cache {
    (if MustEvict(m, now) then Pruned(m, now) - {victim} else Pruned(m, now))[r := now]
  }

  // ---- steps ------------------------------------------------------------------------

  /** A verified registration of an approved key, or of a key not yet approved. */
  datatype Step =
    | Present(r: Reg, now: int, victim: Reg)
    | Enroll(r: Reg, now: int, victim: Reg)

  predicate Admits(s: Caches, st: Step) {
    st.Present? && !Seen(s, st.r, st.now)
  }

  predicate Records(s: Caches, st: Step) {
    st.Enroll? && st.r !in s.preAuth
  }

  function Next(s: Caches, st: Step): Caches {
    if Admits(s, st) then
      Caches(Insert(s.recent, st.r, st.now, st.victim),
             if |s.recent| >= MAX_REGS then Unexpired(s.preAuth, st.now) else s.preAuth)
    else if Records(s, st) then s.(preAuth := Insert(s.preAuth, st.r, st.now, st.victim))
    else s
  }

  ghost predicate Legal(s: Caches, st: Step) {
    && (Admits(s, st) && MustEvict(s.recent, st.now) ==> Oldest(Pruned(s.recent, st.now), st.victim))
    && (Records(s, st) && MustEvict(s.preAuth, st.now) ==> Oldest(Pruned(s.preAuth, st.now), st.victim))
  }

  ghost predicate IsRun(ss: seq<Caches>, run: seq<Step>) {
    && |ss| == |run| + 1
    && ss[0] == EMPTY
    && (forall i :: 0 <= i < |run| ==> Legal(ss[i], run[i]) && ss[i + 1] == Next(ss[i], run[i]))
    && (forall i, j :: 0 <= i <= j < |run| ==> run[i].now <= run[j].now)
  }

  /**
   A registration of an approved key leaves the others alone, unless the cache it goes to is
   full: then what is two minutes old goes from both caches.
   */
  lemma ExpiredGoFromBoth(s: Caches, r: Reg, now: int, victim: Reg, q: Reg)
    requires !Seen(s, r, now)
    ensures var s' := Next(s, Present(r, now, victim));
      q in s'.preAuth <==> q in s.preAuth && (|s.recent| < 4096 || now - s.preAuth[q] < 120_000_000_000)
    ensures var s' := Next(s, Present(r, now, victim));
      q in s'.preAuth ==> s'.preAuth[q] == s.preAuth[q]
    ensures var s' := Next(s, Present(r, now, victim));
      q in s'.recent <==>
        q == r || (q in s.recent && (|s.recent| < 4096 || now - s.recent[q] < 120_000_000_000)
                   && !(MustEvict(s.recent, now) && q == victim))
  {}

  // ---- bounds -----------------------------------------------------------------------------

  lemma InsertSize(m: Cache, r: Reg, now: int, victim: Reg)
    requires |m| <= MAX_REGS && (MustEvict(m, now) ==> victim in Pruned(m, now))
    ensures |Insert(m, r, now, victim)| <= MAX_REGS
  {
    UnexpiredSize(m, now);
    if MustEvict(m, now) {
      DropSize(Pruned(m, now), victim);
      PutSize(Pruned(m, now) - {victim}, r, now);
    } else {
      PutSize(Pruned(m, now), r, now);
    }
  }

  lemma UnexpiredSize(m: Cache, now: int)
    ensures |Unexpired(m, now)| <= |m|
  {
    SubmapSize(Unexpired(m, now), m);
  }

  lemma StepBounded(s: Caches, st: Step)
    requires Legal(s, st) && |s.recent| <= MAX_REGS && |s.preAuth| <= MAX_REGS
    ensures |Next(s, st).recent| <= MAX_REGS && |Next(s, st).preAuth| <= MAX_REGS
  {
    UnexpiredSize(s.preAuth, st.now);
    if Admits(s, st) {
      InsertSize(s.recent, st.r, st.now, st.victim);
    } else if Records(s, st) {
      InsertSize(s.preAuth, st.r, st.now, st.victim);
    }
  }

  lemma {:induction false} RunBounded(ss: seq<Caches>, run: seq<Step>, n: nat)
    requires IsRun(ss, run) && n < |ss|
    ensures |ss[n].recent| <= MAX_REGS && |ss[n].preAuth| <= MAX_REGS
  {
    if n > 0 {
      RunBounded(ss, run, n - 1);
      StepBounded(ss[n - 1], run[n - 1]);
    }
  }

  // ---- evictions ------------------------------------------------------------------------------

  /** Step `i` pushes the unexpired entry `r` out of the cache of approved registrations. */
  ghost predicate Evicts(s: Caches, st: Step, r: Reg) {
    Admits(s, st) && MustEvict(s.recent, st.now) && st.victim == r && st.r != r
  }

  ghost predicate EvictsPreAuth(s: Caches, st: Step, r: Reg) {
    Records(s, st) && MustEvict(s.preAuth, st.now) && st.victim == r
  }

  /** An evicted entry is the oldest of at least 4096, none of them expired. */
  lemma EvictedIsOldest(s: Caches, st: Step, r: Reg)
    requires Legal(s, st) && Evicts(s, st, r)
    ensures Live(s.recent, r, st.now)
    ensures |Unexpired(s.recent, st.now)| >= MAX_REGS
    ensures forall x :: Live(s.recent, x, st.now) ==> s.recent[r] <= s.recent[x]
  {
    UnexpiredSize(s.recent, st.now);
    assert |s.recent| >= MAX_REGS;
    forall x | Live(s.recent, x, st.now) ensures s.recent[r] <= s.recent[x] {
      assert x in Unexpired(s.recent, st.now);
    }
  }

  // ---- no replay inside the window ---------------------------------------------------------------

  ghost predicate EvictedBetween(ss: seq<Caches>, run: seq<Step>, r: Reg, i: nat, j: nat)
    requires |ss| == |run| + 1
  {
    exists m :: i < m < j && m < |run| && Evicts(ss[m], run[m], r)
  }

  /** An admitted registration stays in the cache until its window has passed, unless evicted. */
  lemma {:induction false} AdmittedStays(ss: seq<Caches>, run: seq<Step>, i: nat, j: nat)
    requires IsRun(ss, run) && i < j < |ss| && Admits(ss[i], run[i])
    requires !EvictedBetween(ss, run, run[i].r, i, j)
    requires j < |run| ==> run[j].now - run[i].now < WINDOW
    requires j == |run| ==> run[j - 1].now - run[i].now < WINDOW
    ensures run[i].r in ss[j].recent && ss[j].recent[run[i].r] >= run[i].now
    decreases j - i
  {
    if i + 1 < j {
      assert !EvictedBetween(ss, run, run[i].r, i, j - 1);
      assert run[j - 1].now - run[i].now < WINDOW;
      AdmittedStays(ss, run, i, j - 1);
      assert !Evicts(ss[j - 1], run[j - 1], run[i].r);
      StepKeeps(ss[j - 1], run[j - 1], run[i].r);
    }
  }

  lemma StepKeeps(s: Caches, st: Step, r: Reg)
    requires Live(s.recent, r, st.now) && !Evicts(s, st, r)
    ensures r in Next(s, st).recent && Next(s, st).recent[r] == s.recent[r]
  {}

  /**
   Two registrations with one key and nonce are never both admitted less than the
   window apart, unless the first one's entry was evicted in between.
   */
  lemma NoReplay(ss: seq<Caches>, run: seq<Step>, i: nat, j: nat)
    requires IsRun(ss, run) && i < j < |run| && run[i].r == run[j].r
    requires Admits(ss[i], run[i]) && Admits(ss[j], run[j])
    ensures run[j].now - run[i].now >= WINDOW || EvictedBetween(ss, run, run[i].r, i, j)
  {
    if run[j].now - run[i].now < WINDOW && !EvictedBetween(ss, run, run[i].r, i, j) {
      AdmittedStays(ss, run, i, j);
      assert false;
    }
  }

  /** A registration carries its own time; it is verified only within the skew of it. */
  predicate Timely(ts: int, now: int) {
    -REG_SKEW <= now - ts <= REG_SKEW
  }

  /**
   The very same registration is therefore admitted twice, eviction aside, only at the
   first and the last instant at which it is timely at all.
   */
  lemma NoVerbatimReplay(ss: seq<Caches>, run: seq<Step>, i: nat, j: nat, ts: int)
    requires IsRun(ss, run) && i < j < |run| && run[i].r == run[j].r
    requires Admits(ss[i], run[i]) && Admits(ss[j], run[j])
    requires Timely(ts, run[i].now) && Timely(ts, run[j].now)
    ensures EvictedBetween(ss, run, run[i].r, i, j) || (run[i].now == ts - REG_SKEW && run[j].now == ts + REG_SKEW)
  {
    NoReplay(ss, run, i, j);
  }

  /** And at exactly those two instants it is. */
  lemma BoundaryReplay(r: Reg, ts: int)
    ensures var run := [Present(r, ts - REG_SKEW, r), Present(r, ts + REG_SKEW, r)];
      var s1 := Next(EMPTY, run[0]);
      Timely(ts, run[0].now) && Timely(ts, run[1].now) && Admits(EMPTY, run[0]) && Admits(s1, run[1])
  {}

  // ---- what was seen before approval ------------------------------------------------------------------

  ghost predicate PreAuthEvicted(ss: seq<Caches>, run: seq<Step>, r: Reg, i: nat, j: nat)
    requires |ss| == |run| + 1
  {
    exists m :: i <= m < j && m < |run| && EvictsPreAuth(ss[m], run[m], r)
  }

  lemma StepKeepsPreAuth(s: Caches, st: Step, r: Reg)
    requires Live(s.preAuth, r, st.now) && !EvictsPreAuth(s, st, r)
    ensures r in Next(s, st).preAuth && Next(s, st).preAuth[r] == s.preAuth[r]
  {}

  lemma NotEvictedBefore(ss: seq<Caches>, run: seq<Step>, r: Reg, i: nat, j: nat)
    requires |ss| == |run| + 1 && i < j < |ss| && !PreAuthEvicted(ss, run, r, i, j)
    ensures !PreAuthEvicted(ss, run, r, i, j - 1) && !EvictsPreAuth(ss[j - 1], run[j - 1], r)
  {}

  lemma InTime(ss: seq<Caches>, run: seq<Step>, j: nat)
    requires IsRun(ss, run) && 0 < j < |run|
    ensures run[j - 1].now <= run[j].now
  {}

  lemma EntryStep(ss: seq<Caches>, run: seq<Step>, r: Reg, k: nat)
    requires IsRun(ss, run) && k < |run| && Live(ss[k].preAuth, r, run[k].now) && !EvictsPreAuth(ss[k], run[k], r)
    ensures r in ss[k + 1].preAuth && ss[k + 1].preAuth[r] == ss[k].preAuth[r]
  {
    StepKeepsPreAuth(ss[k], run[k], r);
  }

  lemma {:induction false} EnrolledStays(ss: seq<Caches>, run: seq<Step>, r: Reg, i: nat, j: nat)
    requires IsRun(ss, run) && i <= j < |run| && r in ss[i].preAuth
    requires run[j].now - ss[i].preAuth[r] < WINDOW && !PreAuthEvicted(ss, run, r, i, j)
    ensures r in ss[j].preAuth && ss[j].preAuth[r] == ss[i].preAuth[r]
    decreases j - i
  {
    if i < j {
      NotEvictedBefore(ss, run, r, i, j);
      InTime(ss, run, j);
      EnrolledStays(ss, run, r, i, j - 1);
      EntryStep(ss, run, r, j - 1);
    }
  }

  /** A stranger presented `r` at time `t` in one of the first `n` steps. */
  ghost predicate Sighted(run: seq<Step>, n: nat, r: Reg, t: int)
    requires n <= |run|
  {
    exists m :: 0 <= m < n && run[m].Enroll? && run[m].r == r && run[m].now == t
  }

  lemma SightedLater(run: seq<Step>, n: nat, r: Reg, t: int)
    requires n < |run| && Sighted(run, n, r, t)
    ensures Sighted(run, n + 1, r, t)
  {
    var m :| 0 <= m < n && run[m].Enroll? && run[m].r == r && run[m].now == t;
  }

  lemma StepSighting(s: Caches, st: Step, r: Reg)
    requires r in Next(s, st).preAuth
    ensures (r in s.preAuth && Next(s, st).preAuth[r] == s.preAuth[r])
            || (st.Enroll? && st.r == r && Next(s, st).preAuth[r] == st.now)
  {}

  /** Every pre-approval entry is as old as the sighting it stands for. */
  lemma {:induction false} RunSightings(ss: seq<Caches>, run: seq<Step>, n: nat, r: Reg)
    requires IsRun(ss, run) && n < |ss| && r in ss[n].preAuth
    ensures Sighted(run, n, r, ss[n].preAuth[r])
  {
    if n > 0 {
      StepSighting(ss[n - 1], run[n - 1], r);
      if r in ss[n - 1].preAuth && ss[n].preAuth[r] == ss[n - 1].preAuth[r] {
        RunSightings(ss, run, n - 1, r);
        SightedLater(run, n - 1, r, ss[n].preAuth[r]);
      } else {
        assert run[n - 1].now == ss[n].preAuth[r];
      }
    }
  }

  /** Step `i` is the last one before `j` at which a stranger presents `r`. */
  ghost predicate LastEnrolled(run: seq<Step>, r: Reg, i: int, j: int)
    requires j <= |run|
  {
    0 <= i < j && run[i].Enroll? && run[i].r == r && forall m :: i < m < j && run[m].Enroll? ==> run[m].r != r
  }

  lemma StepFades(s: Caches, st: Step, r: Reg)
    requires !(st.Enroll? && st.r == r) && r in Next(s, st).preAuth
    ensures r in s.preAuth && Next(s, st).preAuth[r] == s.preAuth[r]
  {}

  /** Between two enrolments an entry keeps its time or goes. */
  lemma {:induction false} EntryFades(ss: seq<Caches>, run: seq<Step>, r: Reg, i: nat, j: nat)
    requires IsRun(ss, run) && i <= j < |ss| && r in ss[i].preAuth
    requires forall m :: i <= m < j && run[m].Enroll? ==> run[m].r != r
    ensures r in ss[j].preAuth ==> ss[j].preAuth[r] == ss[i].preAuth[r]
    decreases j - i
  {
    if i < j && r in ss[j].preAuth {
      StepFades(ss[j - 1], run[j - 1], r);
      EntryFades(ss, run, r, i, j - 1);
    }
  }

  /**
   What was presented before approval is caught after it exactly while the sighting on
   record is inside its window, or the approved cache knows the pair itself: eviction
   aside, a later registration with that key and nonce is refused if and only if so. The
   sighting on record is the one the last enrolment found or made.
   */
  lemma RefusedAfterEnrolmentIff(ss: seq<Caches>, run: seq<Step>, r: Reg, i: nat, j: nat)
    requires IsRun(ss, run) && i < j < |run| && run[j].Present? && run[j].r == r && LastEnrolled(run, r, i, j)
    requires !PreAuthEvicted(ss, run, r, i + 1, j)
    ensures r in ss[i + 1].preAuth
    ensures !Admits(ss[j], run[j]) <==>
      run[j].now - ss[i + 1].preAuth[r] < WINDOW || Live(ss[j].recent, r, run[j].now)
  {
    assert r in ss[i + 1].preAuth;
    EntryFades(ss, run, r, i + 1, j);
    if run[j].now - ss[i + 1].preAuth[r] < WINDOW {
      EnrolledStays(ss, run, r, i + 1, j);
    }
  }

  /** A first sighting is caught for a whole window. */
  lemma FirstSightingIsCaught(ss: seq<Caches>, run: seq<Step>, i: nat, j: nat)
    requires IsRun(ss, run) && i < j < |run| && Records(ss[i], run[i]) && run[j].Present? && run[j].r == run[i].r
    requires !PreAuthEvicted(ss, run, run[i].r, i + 1, j) && run[j].now - run[i].now < WINDOW
    ensures !Admits(ss[j], run[j])
  {
    EnrolledStays(ss, run, run[i].r, i + 1, j);
  }

  /** But an expired entry that is still there is not renewed: this nonce passes right after an enrolment. */
  lemma ExpiredEntryIsNotRenewed(r: Reg) returns (ss: seq<Caches>, run: seq<Step>)
    ensures IsRun(ss, run) && |run| == 3 && run[1].Enroll? && run[2].Present? && run[1].r == run[2].r == r
    ensures run[2].now - run[1].now == 1 && Admits(ss[2], run[2]) && !PreAuthEvicted(ss, run, r, 0, 2)
  {
    run := [Enroll(r, 0, r), Enroll(r, WINDOW, r), Present(r, WINDOW + 1, r)];
    var s1 := Caches(map[], map[r := 0]);
    ss := [EMPTY, s1, s1, Next(s1, run[2])];
    assert Next(EMPTY, run[0]) == s1 && Next(s1, run[1]) == s1;
  }

  /**
   One registration, whose own time is the same whenever it is presented: if strangers
   presented that key and nonce only in it, it is caught after approval until the very
   last instant at which it is timely, eviction aside.
   */
  lemma CaughtAfterApproval(ss: seq<Caches>, run: seq<Step>, i: nat, j: nat, ts: int)
    requires IsRun(ss, run) && i < j < |run| && run[i].Enroll? && run[i].r == run[j].r && Admits(ss[j], run[j])
    requires Timely(ts, run[j].now)
    requires forall m :: 0 <= m <= i && run[m].r == run[i].r ==> Timely(ts, run[m].now)
    ensures PreAuthEvicted(ss, run, run[i].r, i + 1, j) || run[j].now == ts + REG_SKEW
  {
    var r := run[i].r;
    assert r in ss[i + 1].preAuth;
    RunSightings(ss, run, i + 1, r);
    var m :| 0 <= m < i + 1 && run[m].Enroll? && run[m].r == r && run[m].now == ss[i + 1].preAuth[r];
    assert Timely(ts, run[m].now);
    if !PreAuthEvicted(ss, run, r, i + 1, j) && run[j].now != ts + REG_SKEW {
      EnrolledStays(ss, run, r, i + 1, j);
      assert false;
    }
  }

  // ---- evictions need a full window ------------------------------------------------------------------------

  /** Admissions among the first `n` steps that are still inside the window at `now`. */
  function AdmittedWithin(ss: seq<Caches>, run: seq<Step>, n: nat, now: int): set<nat>
    requires n <= |run| && n <= |ss|
  {
    set m: nat | m < n && Admits(ss[m], run[m]) && now - run[m].now < WINDOW
  }

  ghost predicate Backed(ss: seq<Caches>, run: seq<Step>, n: nat, r: Reg, t: int)
    requires n <= |run| && n <= |ss|
  {
    exists m :: 0 <= m < n && Admits(ss[m], run[m]) && run[m].r == r && run[m].now == t
  }

  lemma {:induction false} EntriesAreAdmissions(ss: seq<Caches>, run: seq<Step>, n: nat)
    requires IsRun(ss, run) && n <= |run|
    ensures forall r :: r in ss[n].recent ==> Backed(ss, run, n, r, ss[n].recent[r])
  {
    if n > 0 {
      EntriesAreAdmissions(ss, run, n - 1);
      forall r | r in ss[n].recent ensures Backed(ss, run, n, r, ss[n].recent[r]) {
        if Admits(ss[n - 1], run[n - 1]) && r == run[n - 1].r {
          assert run[n - 1].now == ss[n].recent[r];
        } else {
          assert r in ss[n - 1].recent && ss[n].recent[r] == ss[n - 1].recent[r];
          var m :| 0 <= m < n - 1 && Admits(ss[m], run[m]) && run[m].r == r && run[m].now == ss[n - 1].recent[r];
          assert 0 <= m < n && run[m].now == ss[n].recent[r];
        }
      }
    }
  }

  lemma {:induction false} ImageSize(ms: set<nat>, run: seq<Step>)
    requires forall m :: m in ms ==> m < |run|
    ensures |set m | m in ms :: run[m].r| <= |ms|
  {
    if ms != {} {
      var m :| m in ms;
      ImageSize(ms - {m}, run);
      assert (set x | x in ms :: run[x].r) == (set x | x in ms - {m} :: run[x].r) + {run[m].r};
    }
  }

  /** While fewer than 4096 registrations are admitted per window, nothing is ever evicted. */
  lemma NoEvictionBelowRate(ss: seq<Caches>, run: seq<Step>, n: nat, r: Reg)
    requires IsRun(ss, run) && n < |run|
    requires |AdmittedWithin(ss, run, n, run[n].now)| < MAX_REGS
    ensures !Evicts(ss[n], run[n], r)
  {
    var now := run[n].now;
    var ms, live := AdmittedWithin(ss, run, n, now), Unexpired(ss[n].recent, now);
    EntriesAreAdmissions(ss, run, n);
    forall x | x in live ensures x in set m | m in ms :: run[m].r {
      var m :| 0 <= m < n && Admits(ss[m], run[m]) && run[m].r == x && run[m].now == ss[n].recent[x];
      assert m in ms;
    }
    SubsetSize(live.Keys, set m | m in ms :: run[m].r);
    ImageSize(ms, run);
    assert |live| == |live.Keys| < MAX_REGS;
  }

  // ---- the caches themselves -----------------------------------------------------------------------------

  /** Drop every entry whose window has passed, in any order. */
  method Prune(m: Cache, now: int) returns (out: Cache)
    ensures out == Unexpired(m, now)
  {
    out := m;
    var todo := m.Keys;
    while todo != {}
      invariant todo <= m.Keys
      invariant out == map r | r in m && (r in todo || now - m[r] < WINDOW) :: m[r]
      decreases todo
    {
      var r := Pick(todo);
      todo := todo - {r};
      if now - m[r] >= WINDOW {
        out := out - {r};
      }
    }
  }

  /** The oldest entry, whichever of equals the walk meets first. */
  method FindOldest(m: Cache) returns (v: Reg)
    requires |m| > 0
    ensures Oldest(m, v)
  {
    var todo := m.Keys;
    assert |m| == |m.Keys|;
    v := Pick(todo);
    todo := todo - {v};
    while todo != {}
      invariant todo <= m.Keys && v in m
      invariant forall r :: r in m && r !in todo ==> m[v] <= m[r]
      decreases todo
    {
      var r := Pick(todo);
      todo := todo - {r};
      if m[r] < m[v] {
        v := r;
      }
    }
  }

  class ReplayCaches {
    var recent: Cache
    var preAuth: Cache

    ghost function Abs(): Caches
      reads this
    {
      Caches(recent, preAuth)
    }

    /** Has this approved registration been seen? If not, remember it. */
    method Replayed(r: Reg, now: int) returns (yes: bool)
      modifies this
      ensures yes <==> Seen(old(Abs()), r, now)
      ensures exists v :: Legal(old(Abs()), Present(r, now, v)) && Abs() == Next(old(Abs()), Present(r, now, v))
    {
      ghost var s := Abs();
      if r in recent && now - recent[r] < WINDOW {
        assert Legal(s, Present(r, now, r));
        return true;
      }
      if r in preAuth && now - preAuth[r] < WINDOW {
        assert Legal(s, Present(r, now, r));
        return true;
      }
      var v := MakeRoom(r, now);
      recent := recent[r := now];
      assert Legal(s, Present(r, now, v)) && Abs() == Next(s, Present(r, now, v));
      return false;
    }

    /** Rid a full cache of expired entries, or failing that of its oldest one. */
    method MakeRoom(r: Reg, now: int) returns (v: Reg)
      modifies this
      ensures recent == if MustEvict(old(recent), now) then Pruned(old(recent), now) - {v} else Pruned(old(recent), now)
      ensures MustEvict(old(recent), now) ==> Oldest(Pruned(old(recent), now), v)
      ensures preAuth == if |old(recent)| >= MAX_REGS then Unexpired(old(preAuth), now) else old(preAuth)
    {
      v := r;
      if |recent| >= MAX_REGS {
        recent := Prune(recent, now);
        preAuth := Prune(preAuth, now);
        if |recent| >= MAX_REGS {
          v := FindOldest(recent);
          recent := recent - {v};
        }
      }
    }

    /** Remember a nonce presented by a key that is not approved. */
    method RecordPreAuth(r: Reg, now: int)
      modifies this`preAuth
      ensures exists v :: Legal(old(Abs()), Enroll(r, now, v)) && Abs() == Next(old(Abs()), Enroll(r, now, v))
    {
      ghost var s := Abs();
      if r in preAuth {
        assert Legal(s, Enroll(r, now, r));
        return;
      }
      var v := r;
      if |preAuth| >= MAX_REGS {
        preAuth := Prune(preAuth, now);
        if |preAuth| >= MAX_REGS {
          v := FindOldest(preAuth);
          preAuth := preAuth - {v};
        }
      }
      preAuth := preAuth[r := now];
      assert Legal(s, Enroll(r, now, v)) && Abs() == Next(s, Enroll(r, now, v));
    }
  }
}
