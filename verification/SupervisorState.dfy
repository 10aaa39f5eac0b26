/**
 The multi-peer supervisor (internal/role/supervisor.go): which workers run, under which
 generation and on which interface index. Workers return on their own between any two
 steps of the supervising goroutine.
 */
module SupervisorState {
  import opened Common
  import TrustState

  type Key = TrustState.Key
  datatype Scope = Scope(id: int)
  datatype Spec = Spec(key: Key, scope: Scope)

  /** A running worker as the supervisor knows it, and one as it really is. */
  datatype Handle = Handle(gen: nat, scope: Scope)
  datatype Worker = Worker(key: Key, gen: nat, index: nat)
  datatype Exit = Exit(key: Key, gen: nat)

  datatype Sup = Sup(
    running: map<Key, Handle>,
    indexOf: map<Key, nat>,
    gen: nat,
    live: set<Worker>,
    exits: set<Exit>)

  const IDLE := Sup(map[], map[], 0, {}, {})

  // ---- interface indices ------------------------------------------------------------------

  function Used(m: map<Key, nat>): set<nat> {
    set k | k in m :: m[k]
  }

  /** The lowest index from `i` on that is not used. */
  function FreeFrom(used: set<nat>, i: nat): (r: nat)
    requires forall j :: 0 <= j < i ==> j in used
    ensures r !in used && forall j :: 0 <= j < r ==> j in used
    decreases |used| - i
  {
    if i !in used then i else
      Prefix(used, i + 1);
      FreeFrom(used, i + 1)
  }

  function Below(n: nat): (s: set<nat>)
    ensures |s| == n && forall j :: j in s <==> 0 <= j < n
  {
    if n == 0 then {} else Below(n - 1) + {n - 1}
  }

  /** A set that holds the first `n` numbers has at least `n` members. */
  lemma Prefix(used: set<nat>, n: nat)
    requires forall j :: 0 <= j < n ==> j in used
    ensures n <= |used|
  {
    SubsetSize(Below(n), used);
  }

  function Alloc(m: map<Key, nat>, k: Key): nat {
    if k in m then m[k] else FreeFrom(Used(m), 0)
  }

  lemma {:induction false} UsedSize(m: map<Key, nat>)
    ensures |Used(m)| <= |m|
    decreases |m|
  {
    if k :| k in m {
      DropSize(m, k);
      UsedSize(m - {k});
      forall x | x in Used(m) ensures x in Used(m - {k}) + {m[k]} {
        var y :| y in m && m[y] == x;
        if y != k {
          assert y in m - {k};
        }
      }
      SubsetSize(Used(m), Used(m - {k}) + {m[k]});
    } else {
      assert Used(m) == {};
    }
  }

  /** A newly given index is no larger than the number of indices in use. */
  lemma AllocBound(m: map<Key, nat>, k: Key)
    requires k !in m
    ensures Alloc(m, k) !in Used(m) && Alloc(m, k) <= |m|
  {
    Prefix(Used(m), Alloc(m, k));
    UsedSize(m);
  }

  /** Exactly the wanted buddies run, each with its wanted scope. */
  ghost predicate InSync(running: map<Key, Handle>, want: map<Key, Scope>) {
    running.Keys == want.Keys && forall k :: k in want ==> running[k].scope == want[k]
  }

  // ---- steps --------------------------------------------------------------------------------

  /** The supervisor starts, stops or rescopes one worker, takes an exit or does nothing; or a worker returns. */
  datatype Step =
    | Start(spec: Spec)
    | Stop(key: Key)
    | Rescope(key: Key, scope: Scope)
    | TakeExit(exit: Exit)
    | Return(worker: Worker)
    | Quiet

  function StartOne(s: Sup, spec: Spec): Sup {
    if spec.key in s.running then s else
      var index := Alloc(s.indexOf, spec.key);
      Sup(s.running[spec.key := Handle(s.gen + 1, spec.scope)], s.indexOf[spec.key := index], s.gen + 1,
          s.live + {Worker(spec.key, s.gen + 1, index)}, s.exits)
  }

  /** Cancelled and forgotten; the goroutine goes on until it returns, and its index stays assigned. */
  function StopOne(s: Sup, k: Key): Sup {
    s.(running := s.running - {k})
  }

  function RescopeOne(s: Sup, k: Key, scope: Scope): Sup {
    if k in s.running then s.(running := s.running[k := s.running[k].(scope := scope)]) else s
  }

  predicate Current(s: Sup, x: Exit) {
    x.key in s.running && s.running[x.key].gen == x.gen
  }

  function ExitOne(s: Sup, x: Exit): Sup {
    if Current(s, x) then
      s.(running := s.running - {x.key}, indexOf := s.indexOf - {x.key}, exits := s.exits - {x})
    else s.(exits := s.exits - {x})
  }

  function ReturnOne(s: Sup, w: Worker): Sup {
    s.(live := s.live - {w}, exits := s.exits + {Exit(w.key, w.gen)})
  }

  function Next(s: Sup, st: Step): Sup {
    match st
    case Start(spec) => StartOne(s, spec)
    case Stop(k) => StopOne(s, k)
    case Rescope(k, scope) => RescopeOne(s, k, scope)
    case TakeExit(x) => if x in s.exits then ExitOne(s, x) else s
    case Return(w) => if w in s.live then ReturnOne(s, w) else s
    case Quiet => s
  }

  ghost predicate IsRun(ss: seq<Sup>, run: seq<Step>) {
    && |ss| == |run| + 1
    && ss[0] == IDLE
    && (forall i :: 0 <= i < |run| ==> ss[i + 1] == Next(ss[i], run[i]))
  }

  // ---- what every run keeps ------------------------------------------------------------------

  ghost predicate Injective(m: map<Key, nat>) {
    forall a, b :: a in m && b in m && m[a] == m[b] ==> a == b
  }

  ghost predicate Inv(s: Sup) {
    && Injective(s.indexOf)
    && (forall k :: k in s.running ==> k in s.indexOf && s.running[k].gen <= s.gen)
    && (forall w :: w in s.live ==> w.gen <= s.gen)
    && (forall x :: x in s.exits ==> x.gen <= s.gen)
    && (forall w, v :: w in s.live && v in s.live && w.gen == v.gen ==> w == v)
    && (forall w, x :: w in s.live && x in s.exits ==> w.gen != x.gen)
  }

  lemma AllocFresh(m: map<Key, nat>, k: Key)
    requires Injective(m)
    ensures Injective(m[k := Alloc(m, k)])
  {}

  lemma NextInv(s: Sup, st: Step)
    requires Inv(s)
    ensures Inv(Next(s, st))
  {
    if st.Start? {
      AllocFresh(s.indexOf, st.spec.key);
    }
  }

  lemma {:induction false} RunInv(ss: seq<Sup>, run: seq<Step>, n: nat)
    requires IsRun(ss, run) && n < |ss|
    ensures Inv(ss[n])
  {
    if n > 0 {
      RunInv(ss, run, n - 1);
      NextInv(ss[n - 1], run[n - 1]);
    }
  }

  /** Running workers for different buddies never hold the same interface index. */
  lemma RunningApart(ss: seq<Sup>, run: seq<Step>, n: nat, a: Key, b: Key)
    requires IsRun(ss, run) && n < |ss| && a in ss[n].running && b in ss[n].running && a != b
    ensures a in ss[n].indexOf && b in ss[n].indexOf && ss[n].indexOf[a] != ss[n].indexOf[b]
  {
    RunInv(ss, run, n);
  }

  // ---- the goroutines themselves ----------------------------------------------------------------

  /** A worker is started while an older goroutine for the same buddy has not returned. */
  predicate Overlaps(s: Sup, st: Step) {
    st.Start? && st.spec.key !in s.running && exists w :: w in s.live && w.key == st.spec.key
  }

  ghost predicate LiveApart(s: Sup) {
    forall w, v :: w in s.live && v in s.live && w != v ==> w.index != v.index
  }

  /** While nothing overlaps, each goroutine is its key's only one and holds its key's index. */
  ghost predicate Tidy(s: Sup) {
    && (forall w :: w in s.live ==> w.key in s.indexOf && s.indexOf[w.key] == w.index)
    && (forall w, v :: w in s.live && v in s.live && w.key == v.key ==> w == v)
    && (forall w :: w in s.live && w.key in s.running ==> s.running[w.key].gen == w.gen)
  }

  lemma TidyApart(s: Sup)
    requires Inv(s) && Tidy(s)
    ensures LiveApart(s)
  {}

  lemma NextTidy(s: Sup, st: Step)
    requires Inv(s) && Tidy(s) && !Overlaps(s, st)
    ensures Tidy(Next(s, st))
  {}

  lemma OverlapCollides(s: Sup, st: Step)
    requires Inv(s) && Tidy(s) && Overlaps(s, st)
    ensures !LiveApart(Next(s, st))
  {}

  lemma {:induction false} RunTidy(ss: seq<Sup>, run: seq<Step>, n: nat)
    requires IsRun(ss, run) && n < |ss| && forall i :: 0 <= i < n ==> !Overlaps(ss[i], run[i])
    ensures Tidy(ss[n])
  {
    if n > 0 {
      RunTidy(ss, run, n - 1);
      RunInv(ss, run, n - 1);
      NextTidy(ss[n - 1], run[n - 1]);
    }
  }

  ghost predicate AlwaysApart(ss: seq<Sup>) {
    forall n :: 0 <= n < |ss| ==> LiveApart(ss[n])
  }

  ghost predicate NeverOverlaps(ss: seq<Sup>, run: seq<Step>, n: nat)
    requires |ss| == |run| + 1
  {
    forall i :: 0 <= i < n && i < |run| ==> !Overlaps(ss[i], run[i])
  }

  lemma {:induction false} FirstOverlap(ss: seq<Sup>, run: seq<Step>, n: nat) returns (i: nat)
    requires |ss| == |run| + 1 && n <= |run| && !NeverOverlaps(ss, run, n)
    ensures i < n && Overlaps(ss[i], run[i]) && NeverOverlaps(ss, run, i)
  {
    if NeverOverlaps(ss, run, n - 1) {
      i := n - 1;
    } else {
      i := FirstOverlap(ss, run, n - 1);
    }
  }

  /**
   No two goroutines ever hold the same interface index if and only if no buddy is
   started again before its previous goroutine has returned.
   */
  lemma ApartIffNoOverlap(ss: seq<Sup>, run: seq<Step>)
    requires IsRun(ss, run)
    ensures AlwaysApart(ss) <==> NeverOverlaps(ss, run, |run|)
  {
    if NeverOverlaps(ss, run, |run|) {
      forall n | 0 <= n < |ss| ensures LiveApart(ss[n]) {
        RunTidy(ss, run, n);
        RunInv(ss, run, n);
        TidyApart(ss[n]);
      }
    } else {
      var i := FirstOverlap(ss, run, |run|);
      RunTidy(ss, run, i);
      RunInv(ss, run, i);
      OverlapCollides(ss[i], run[i]);
      assert !LiveApart(ss[i + 1]);
    }
  }

  lemma Extended(ss: seq<Sup>, run: seq<Step>, st: Step) returns (more: seq<Sup>, steps: seq<Step>)
    requires IsRun(ss, run)
    ensures IsRun(more, steps) && |steps| == |run| + 1 && more[|steps|] == Next(ss[|run|], st)
  {
    more, steps := ss + [Next(ss[|run|], st)], run + [st];
  }

  /**
   It can happen, and not only between two goroutines of one buddy: stop and restart one
   while its first goroutine drains, let the second return, and the index they shared is
   given to somebody else.
   */
  lemma ReusedIndexCollides(a: Spec, b: Spec) returns (ss: seq<Sup>, run: seq<Step>, w: Worker, v: Worker)
    requires a.key != b.key
    ensures IsRun(ss, run) && w in ss[|run|].live && v in ss[|run|].live && w.key != v.key && w.index == v.index
  {
    var first, second := Worker(a.key, 1, 0), Worker(a.key, 2, 0);
    ss, run := Extended([IDLE], [], Start(a));
    assert Used(map[]) == {};
    assert ss[1].live == {first} && ss[1].indexOf == map[a.key := 0];
    ss, run := Extended(ss, run, Stop(a.key));
    ss, run := Extended(ss, run, Start(a));
    assert ss[3].live == {first, second} && ss[3].running == map[a.key := Handle(2, a.scope)];
    ss, run := Extended(ss, run, Return(second));
    ss, run := Extended(ss, run, TakeExit(Exit(a.key, 2)));
    assert ss[5].indexOf == map[] && first in ss[5].live && b.key !in ss[5].running;
    ss, run := Extended(ss, run, Start(b));
    w, v := first, Worker(b.key, ss[6].gen, 0);
  }

  // ---- indices that are never given back -----------------------------------------------------------

  /** A worker stopped by a reload keeps its index for good unless its buddy is started again. */
  lemma {:induction false} StoppedIndexStays(ss: seq<Sup>, run: seq<Step>, k: Key, i: nat, j: nat)
    requires IsRun(ss, run) && i <= j < |ss| && k in ss[i].indexOf && k !in ss[i].running
    requires forall n :: i <= n < j ==> !(run[n].Start? && run[n].spec.key == k)
    ensures k in ss[j].indexOf && ss[j].indexOf[k] == ss[i].indexOf[k] && k !in ss[j].running
    decreases j - i
  {
    if i < j {
      StoppedIndexStays(ss, run, k, i, j - 1);
      assert !(run[j - 1].Start? && run[j - 1].spec.key == k);
    }
  }
}
