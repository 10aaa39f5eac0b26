/**
 When a key counts as approved (internal/role/authz.go): each reload of the allowlist
 keeps the moment a key first appeared on it in this process.
 */
module Approval {
  import opened Common

  const SECOND := 1_000_000_000

  datatype Client = Client(id: int)

  /** `Always` is a key inherited at startup, which no approval moment constrains. */
  datatype Since = Always | Moment(at: int)

  type Approved = map<Client, Since>

  /** One reading of the allowlist, or none when the file is missing. */
  datatype Load = Load(keys: Option<set<Client>>, now: int)

  function First(l: Load): Approved {
    if l.keys.None? then map[] else map k | k in l.keys.value :: Always
  }

  function Reload(a: Approved, l: Load): Approved {
    if l.keys.None? then map[] else map k | k in l.keys.value :: if k in a then a[k] else Moment(l.now)
  }

  /** Is a registration's own time, in whole seconds, late enough for its key's approval? */
  predicate FreshSince(a: Approved, k: Client, ts: int) {
    k in a && a[k].Moment? ==> ts * SECOND >= a[k].at - SECOND
  }

  ghost predicate IsRun(as_: seq<Approved>, ls: seq<Load>) {
    && |as_| == |ls| > 0
    && as_[0] == First(ls[0])
    && (forall i :: 1 <= i < |ls| ==> as_[i] == Reload(as_[i - 1], ls[i]))
  }

  predicate OnList(l: Load, k: Client) {
    l.keys.Some? && k in l.keys.value
  }

  /** Key `k` has been on the list at every load since `i`, where it first appeared. */
  ghost predicate ListedSince(ls: seq<Load>, k: Client, i: int, n: int) {
    0 <= i <= n < |ls| && (forall j :: i <= j <= n ==> OnList(ls[j], k)) && (i > 0 ==> !OnList(ls[i - 1], k))
  }

  lemma {:induction false} OnlyListed(as_: seq<Approved>, ls: seq<Load>, k: Client, n: nat)
    requires IsRun(as_, ls) && n < |ls|
    ensures k in as_[n] <==> OnList(ls[n], k)
  {
    if n > 0 {
      OnlyListed(as_, ls, k, n - 1);
    }
  }

  /**
   The recorded moment is that of the load at which the current unbroken listing of the
   key began, and none at all if that is the load at startup.
   */
  lemma {:induction false} MomentIsStart(as_: seq<Approved>, ls: seq<Load>, k: Client, i: nat, n: nat)
    requires IsRun(as_, ls) && ListedSince(ls, k, i, n)
    ensures k in as_[n] && as_[n][k] == if i == 0 then Always else Moment(ls[i].now)
    decreases n
  {
    assert OnList(ls[n], k);
    if i < n {
      assert ListedSince(ls, k, i, n - 1);
      MomentIsStart(as_, ls, k, i, n - 1);
    } else if i > 0 {
      OnlyListed(as_, ls, k, i - 1);
    }
  }

  /** Nothing a newly approved key signed more than a second before its approval is accepted. */
  lemma OldRegistrationRefused(as_: seq<Approved>, ls: seq<Load>, k: Client, i: nat, n: nat, ts: int)
    requires IsRun(as_, ls) && ListedSince(ls, k, i, n) && i > 0
    ensures FreshSince(as_[n], k, ts) <==> ts * SECOND >= ls[i].now - SECOND
  {
    MomentIsStart(as_, ls, k, i, n);
  }
}
