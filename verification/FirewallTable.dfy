/**
 The desired state behind the buddynet table (internal/nft/nft_linux.go): every change
 re-renders the whole table, and a change that failed is taken back, except a removal.
 */
module FirewallTable {
  import opened Common
  import opened Netlink
  import opened Firewall
  import opened FirewallPolicy

  datatype Desired = Desired(scopes: map<Name, Scope>, order: seq<Name>)

  const NOTHING := Desired(map[], [])

  /** The kernel took the batch, refused it, or took it without our learning so. */
  datatype Sent = Acked | Refused | AckLost

  datatype Table = Table(desired: Desired, kernel: Desired)

  function Index(order: seq<Name>, n: Name): (i: nat)
    ensures i <= |order|
    ensures i < |order| ==> order[i] == n
    ensures forall j :: 0 <= j < i ==> order[j] != n
  {
    if order == [] || order[0] == n then 0 else
      assert forall j :: 1 <= j < |order| ==> order[j] == order[1..][j - 1];
      1 + Index(order[1..], n)
  }

  function Without(order: seq<Name>, n: Name): seq<Name> {
    var i := Index(order, n);
    if i < |order| then order[..i] + order[i + 1..] else order
  }

  function Put(d: Desired, n: Name, s: Scope): Desired {
    Desired(d.scopes[n := s], if n in d.scopes then d.order else d.order + [n])
  }

  function Cut(d: Desired, n: Name): Desired {
    Desired(d.scopes - {n}, Without(d.order, n))
  }

  function AfterApply(t: Table, n: Name, s: Scope, sent: Sent): Table {
    Table(if sent == Acked then Put(t.desired, n, s) else t.desired,
          if sent == Refused then t.kernel else Put(t.desired, n, s))
  }

  function AfterRemove(t: Table, n: Name, sent: Sent): Table {
    if n !in t.desired.scopes then t
    else Table(Cut(t.desired, n), if sent == Refused then t.kernel else Cut(t.desired, n))
  }

  ghost predicate Ok(d: Desired) {
    Lists(d.scopes, d.order) && Names(d.order)
  }

  lemma PutOk(d: Desired, n: Name, s: Scope)
    requires Ok(d) && IfName(n)
    ensures Ok(Put(d, n, s))
  {}

  lemma CutOk(d: Desired, n: Name)
    requires Ok(d)
    ensures Ok(Cut(d, n))
  {
    WithoutOne(d.order, n);
  }

  lemma WithoutOne(order: seq<Name>, n: Name)
    requires Distinct(order)
    ensures Distinct(Without(order, n)) && forall x :: x in Without(order, n) <==> x in order && x != n
  {
    var i := Index(order, n);
    if i < |order| {
      assert order == order[..i] + [n] + order[i + 1..];
    }
  }

  // ---- runs ------------------------------------------------------------------------------

  datatype Step = Apply(n: Name, s: Scope, sent: Sent) | Remove(n: Name, sent: Sent)

  function Next(t: Table, st: Step): Table {
    match st
    case Apply(n, s, sent) => AfterApply(t, n, s, sent)
    case Remove(n, sent) => AfterRemove(t, n, sent)
  }

  /** Any leftover table may be in the kernel when the process starts. */
  ghost predicate IsRun(ts: seq<Table>, run: seq<Step>) {
    && |ts| == |run| + 1
    && ts[0].desired == NOTHING && Ok(ts[0].kernel)
    && (forall i :: 0 <= i < |run| ==> ts[i + 1] == Next(ts[i], run[i]) && IfName(run[i].n))
  }

  /** At every moment `order` is a duplicate-free listing of exactly the scoped interfaces, in the kernel too. */
  lemma {:induction false} RunOk(ts: seq<Table>, run: seq<Step>, k: nat)
    requires IsRun(ts, run) && k < |ts|
    ensures Ok(ts[k].desired) && Ok(ts[k].kernel)
  {
    if k > 0 {
      RunOk(ts, run, k - 1);
      var t, st := ts[k - 1], run[k - 1];
      match st
      case Apply(n, s, sent) => PutOk(t.desired, n, s);
      case Remove(n, sent) => CutOk(t.desired, n);
    }
  }

  /** The kernel enforces, for every interface we count as scoped, exactly that scope. */
  ghost predicate Enforced(t: Table, n: Name) {
    n in t.desired.scopes ==> n in t.kernel.scopes && t.kernel.scopes[n] == t.desired.scopes[n]
  }

  /** Interface `n` was last touched by an apply whose acknowledgement was lost. */
  predicate Unheard(st: Step, n: Name) {
    st.Apply? && st.n == n && st.sent == AckLost
  }

  /** Enforcement survives every step but an apply of that very interface that reported a failure it did not have. */
  lemma StepEnforced(t: Table, st: Step, n: Name)
    requires Enforced(t, n)
    ensures Enforced(Next(t, st), n) <==> !(Unheard(st, n) && n in t.desired.scopes && t.desired.scopes[n] != st.s)
  {}

  /** A batch is sent at this step and the kernel takes it. */
  predicate Taken(t: Table, st: Step) {
    st.sent != Refused && (st.Remove? ==> st.n in t.desired.scopes)
  }

  ghost predicate NoneTaken(ts: seq<Table>, run: seq<Step>, i: int, k: int)
    requires 0 <= i && k <= |run| <= |ts|
  {
    forall m :: i <= m < k ==> !Taken(ts[m], run[m])
  }

  /** The scope that the unheard apply at `m` left in the kernel is still there at `k`, and is not the desired one. */
  ghost predicate Lingers(ts: seq<Table>, run: seq<Step>, m: int, k: int, n: Name)
    requires 0 <= m < k <= |run| && |ts| == |run| + 1
  {
    && Unheard(run[m], n) && n in ts[k].desired.scopes && ts[k].desired.scopes[n] != run[m].s
    && NoneTaken(ts, run, m + 1, k)
  }

  ghost predicate NoneLingers(ts: seq<Table>, run: seq<Step>, k: int, n: Name)
    requires 0 <= k <= |run| && |ts| == |run| + 1
  {
    forall m :: 0 <= m < k ==> !Lingers(ts, run, m, k, n)
  }

  /** A batch the kernel takes settles what it enforces, whatever went before. */
  lemma TakenSettles(t: Table, st: Step, n: Name)
    requires Taken(t, st)
    ensures Enforced(Next(t, st), n) <==> !(Unheard(st, n) && n in t.desired.scopes && t.desired.scopes[n] != st.s)
  {}

  /** Any other step changes nothing in the kernel, and at most forgets one interface here. */
  lemma UntakenKeeps(t: Table, st: Step, n: Name)
    requires !Taken(t, st) && n in Next(t, st).desired.scopes
    ensures n in t.desired.scopes && Next(t, st).desired.scopes[n] == t.desired.scopes[n]
    ensures Enforced(Next(t, st), n) <==> Enforced(t, n)
  {}

  lemma LingersAfterTaken(ts: seq<Table>, run: seq<Step>, j: nat, k: nat, n: Name)
    requires IsRun(ts, run) && j < |run| && k == j + 1 && Taken(ts[j], run[j])
    ensures NoneLingers(ts, run, k, n) <==>
      !(Unheard(run[j], n) && n in ts[j].desired.scopes && ts[j].desired.scopes[n] != run[j].s)
  {
    forall m | 0 <= m < k && m != j ensures !Lingers(ts, run, m, k, n) {
      assert Taken(ts[j], run[j]);
    }
    assert Unheard(run[j], n) ==> ts[k].desired == ts[j].desired;
    assert Lingers(ts, run, j, k, n) <==>
        Unheard(run[j], n) && n in ts[j].desired.scopes && ts[j].desired.scopes[n] != run[j].s;
  }

  lemma LingersOn(ts: seq<Table>, run: seq<Step>, j: nat, k: nat, n: Name)
    requires IsRun(ts, run) && j < |run| && k == j + 1 && !Taken(ts[j], run[j]) && n in ts[k].desired.scopes
    ensures NoneLingers(ts, run, k, n) <==> NoneLingers(ts, run, j, n)
  {
    UntakenKeeps(ts[j], run[j], n);
    forall m | 0 <= m < j ensures Lingers(ts, run, m, k, n) <==> Lingers(ts, run, m, j, n) {
      assert NoneTaken(ts, run, m + 1, k) <==> NoneTaken(ts, run, m + 1, j);
    }
    assert !Lingers(ts, run, j, k, n);
  }

  /**
   Over every run the kernel enforces the desired scope of an interface if and only if no
   apply of it whose acknowledgement was lost left another scope that no later batch replaced.
   */
  lemma {:induction false} EnforcedIff(ts: seq<Table>, run: seq<Step>, k: nat, n: Name)
    requires IsRun(ts, run) && k < |ts|
    ensures Enforced(ts[k], n) <==> NoneLingers(ts, run, k, n)
  {
    if k > 0 && n in ts[k].desired.scopes {
      if Taken(ts[k - 1], run[k - 1]) {
        TakenSettles(ts[k - 1], run[k - 1], n);
        LingersAfterTaken(ts, run, k - 1, k, n);
      } else {
        UntakenKeeps(ts[k - 1], run[k - 1], n);
        LingersOn(ts, run, k - 1, k, n);
        EnforcedIff(ts, run, k - 1, n);
      }
    }
  }

  // ---- what was asked for ---------------------------------------------------------------

  /** Step `m` is an acknowledged apply of `s` to `n`, and up to `k` none came after it, nor a removal of `n`. */
  ghost predicate AskedAt(run: seq<Step>, m: int, k: int, n: Name, s: Scope)
    requires 0 <= k <= |run|
  {
    && 0 <= m < k && run[m] == Apply(n, s, Acked)
    && forall i :: m < i < k && run[i].n == n ==> run[i].Apply? && run[i].sent != Acked
  }

  ghost predicate Asked(run: seq<Step>, k: int, n: Name, s: Scope)
    requires 0 <= k <= |run|
  {
    exists m :: AskedAt(run, m, k, n, s)
  }

  lemma AskedStep(run: seq<Step>, j: nat, k: nat, n: Name, s: Scope)
    requires j < |run| && k == j + 1
    ensures Asked(run, k, n, s) <==>
      if run[j].n != n || (run[j].Apply? && run[j].sent != Acked) then Asked(run, j, n, s)
      else run[j] == Apply(n, s, Acked)
  {
    if m :| AskedAt(run, m, j, n, s) {
      assert run[j].n != n || (run[j].Apply? && run[j].sent != Acked) ==> AskedAt(run, m, k, n, s);
    }
    if m :| AskedAt(run, m, k, n, s) {
      assert m != j ==> AskedAt(run, m, j, n, s);
    }
    assert run[j] == Apply(n, s, Acked) ==> AskedAt(run, j, k, n, s);
  }

  lemma StepDesires(t: Table, st: Step, n: Name, s: Scope)
    ensures Desires(Next(t, st), n, s) <==>
      if st.n != n || (st.Apply? && st.sent != Acked) then Desires(t, n, s) else st == Apply(n, s, Acked)
  {}

  predicate Desires(t: Table, n: Name, s: Scope) {
    n in t.desired.scopes && t.desired.scopes[n] == s
  }

  /**
   Over every run an interface is to have scope `s` if and only if that was asked for by the
   last acknowledged apply to it, and it was not removed since.
   */
  lemma {:induction false} DesiredIff(ts: seq<Table>, run: seq<Step>, k: nat, n: Name, s: Scope)
    requires IsRun(ts, run) && k < |ts|
    ensures Desires(ts[k], n, s) <==> Asked(run, k, n, s)
  {
    if k > 0 {
      DesiredIff(ts, run, k - 1, n, s);
      AskedStep(run, k - 1, k, n, s);
      StepDesires(ts[k - 1], run[k - 1], n, s);
    }
  }

  /**
   So over every run, whatever batches the kernel refused and whatever was repaired since: a
   packet arriving on an interface last asked to have scope `s` meets exactly that scope, and
   none of its traffic is forwarded.
   */
  lemma ScopedTraffic(e: Endian, ts: seq<Table>, run: seq<Step>, k: nat, p: Packet, s: Scope)
    requires IsRun(ts, run) && k < |ts| && |p.ct| == 4 && Asked(run, k, p.iif, s)
    requires NoneLingers(ts, run, k, p.iif)
    ensures var kernel := ts[k].kernel;
      && (forall n :: n in kernel.order ==> n in kernel.scopes)
      && (Eval(InputChain(e, kernel.scopes, kernel.order), p) == Accept <==> Welcome(e, s, p))
      && Eval(ForwardChain(kernel.order), p) == Drop
  {
    RunOk(ts, run, k);
    DesiredIff(ts, run, k, p.iif, s);
    EnforcedIff(ts, run, k, p.iif);
    assert p.iif in ts[k].desired.order;
    InputPolicy(e, ts[k].kernel.scopes, ts[k].kernel.order, p);
    ForwardPolicy(ts[k].kernel.scopes, ts[k].kernel.order, p);
  }

  /** Step `m` is a removal of `n` that the kernel took, and up to `k` it has taken no apply to `n` since. */
  ghost predicate RemovedAt(ts: seq<Table>, run: seq<Step>, m: int, k: int, n: Name)
    requires 0 <= m < k <= |run| <= |ts|
  {
    && run[m].Remove? && run[m].n == n && Taken(ts[m], run[m])
    && forall i :: m < i < k && run[i].n == n && run[i].Apply? ==> run[i].sent == Refused
  }

  lemma {:induction false} RemovedStays(ts: seq<Table>, run: seq<Step>, m: nat, k: nat, n: Name)
    requires IsRun(ts, run) && m < k < |ts| && RemovedAt(ts, run, m, k, n)
    ensures n !in ts[k].desired.scopes && n !in ts[k].kernel.scopes
    decreases k - m
  {
    if k > m + 1 {
      RemovedStays(ts, run, m, k - 1, n);
      assert run[k - 1].n == n && run[k - 1].Apply? ==> run[k - 1].sent == Refused;
    }
  }

  /** And once an interface was removed its traffic is accepted and forwarded again. */
  lemma RemovedTraffic(e: Endian, ts: seq<Table>, run: seq<Step>, m: nat, k: nat, p: Packet)
    requires IsRun(ts, run) && m < k < |ts| && |p.ct| == 4 && RemovedAt(ts, run, m, k, p.iif)
    ensures var kernel := ts[k].kernel;
      && (forall n :: n in kernel.order ==> n in kernel.scopes)
      && Eval(InputChain(e, kernel.scopes, kernel.order), p) == Accept
      && Eval(ForwardChain(kernel.order), p) != Drop
  {
    RunOk(ts, run, k);
    RemovedStays(ts, run, m, k, p.iif);
    InputPolicy(e, ts[k].kernel.scopes, ts[k].kernel.order, p);
    ForwardPolicy(ts[k].kernel.scopes, ts[k].kernel.order, p);
  }

  // ---- the table itself --------------------------------------------------------------------

  lemma PutBack(m: map<Name, Scope>, n: Name, s: Scope)
    ensures n !in m ==> m[n := s] - {n} == m
    ensures n in m ==> m[n := s][n := m[n]] == m
  {}

  lemma LastOff(order: seq<Name>, n: Name)
    ensures (order + [n])[..|order + [n]| - 1] == order
  {}

  class Ruleset {
    var scopes: map<Name, Scope>
    var order: seq<Name>
    ghost var kernel: Desired

    ghost function Abs(): Table
      reads this
    {
      Table(Desired(scopes, order), kernel)
    }

    constructor (leftover: Desired)
      ensures Abs() == Table(NOTHING, leftover)
    {
      scopes, order, kernel := map[], [], leftover;
    }

    /** Program one interface; on failure the desired state is put back as it was. */
    method ApplyScope(n: Name, s: Scope, sent: Sent) returns (ok: bool)
      modifies this
      ensures ok <==> sent == Acked
      ensures Abs() == AfterApply(old(Abs()), n, s, sent)
    {
      if n !in scopes {
        order := order + [n];
      }
      var prev := if n in scopes then Some(scopes[n]) else None;
      scopes := scopes[n := s];
      if sent != Refused {
        kernel := Desired(scopes, order);
      }
      if sent != Acked {
        PutBack(old(scopes), n, s);
        if prev.Some? {
          scopes := scopes[n := prev.value];
        } else {
          scopes := scopes - {n};
          LastOff(old(order), n);
          order := order[..|order| - 1];
        }
        return false;
      }
      return true;
    }

    /** Drop one interface; the desired state forgets it even if the kernel refuses. */
    method RemoveScope(n: Name, sent: Sent) returns (ok: bool)
      modifies this
      ensures Abs() == AfterRemove(old(Abs()), n, sent)
      ensures ok <==> n !in old(scopes) || sent == Acked
    {
      if n !in scopes {
        return true;
      }
      scopes := scopes - {n};
      var i := 0;
      while i < |order| && order[i] != n
        invariant i <= |order| && forall j :: 0 <= j < i ==> order[j] != n
      {
        i := i + 1;
      }
      if i < |order| {
        order := order[..i] + order[i + 1..];
      }
      if sent != Refused {
        kernel := Desired(scopes, order);
      }
      ok := sent == Acked;
    }
  }
}
