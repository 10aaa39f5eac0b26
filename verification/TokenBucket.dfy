/**
 One token bucket (internal/ratelimit/ratelimit.go). Seconds and tokens are reals.
 What a bucket grants is characterised from both sides: never more than burst plus
 rate times length in any window, and everything that stays within that envelope.
 */
module TokenBucket {
  datatype Bucket = Bucket(tokens: real, last: real)

  datatype Rate = Rate(perSecond: real, burst: real)

  /** The balance once the time since the last charge is credited, capped at the burst. */
  function Refilled(b: Bucket, r: Rate, now: real): real {
    var tokens := b.tokens + (now - b.last) * r.perSecond;
    if tokens > r.burst then r.burst else tokens
  }

  predicate Grants(b: Bucket, r: Rate, now: real) {
    Refilled(b, r, now) >= 1.0
  }

  function Take(b: Bucket, r: Rate, now: real): Bucket {
    Bucket(if Grants(b, r, now) then Refilled(b, r, now) - 1.0 else Refilled(b, r, now), now)
  }

  predicate Full(b: Bucket, r: Rate, now: real) {
    b.tokens + (now - b.last) * r.perSecond >= r.burst
  }

  /** Forgetting a full bucket and starting afresh is not observable. */
  lemma FullIsFresh(b: Bucket, r: Rate, now: real)
    requires Full(b, r, now)
    ensures Take(b, r, now) == Take(Bucket(r.burst, now), r, now)
    ensures Grants(b, r, now) <==> Grants(Bucket(r.burst, now), r, now)
  {
    assert (now - now) * r.perSecond == 0.0;
  }

  lemma FullStaysFull(b: Bucket, r: Rate, now: real, later: real)
    requires Full(b, r, now) && now <= later && r.perSecond >= 0.0
    ensures Full(b, r, later)
  {
    assert (later - b.last) * r.perSecond == (now - b.last) * r.perSecond + (later - now) * r.perSecond;
  }

  // ---- runs of one bucket ---------------------------------------------------------

  /** One moment of a run: a clock reading, and whether this bucket is charged at it. */
  datatype Charge = Charge(now: real, hit: bool)

  ghost predicate IsChain(r: Rate, bs: seq<Bucket>, cs: seq<Charge>) {
    && |bs| == |cs| + 1
    && forall k :: 0 <= k < |cs| ==> bs[k + 1] == if cs[k].hit then Take(bs[k], r, cs[k].now) else bs[k]
  }

  predicate GrantedIn(r: Rate, b: Bucket, c: Charge, t1: real, t2: real) {
    c.hit && t1 <= c.now <= t2 && Grants(b, r, c.now)
  }

  /** Which of the first `n` charges were granted with a reading in `[t1, t2]`. */
  function Granted(r: Rate, bs: seq<Bucket>, cs: seq<Charge>, t1: real, t2: real, n: nat): set<nat>
    requires n <= |cs| && n <= |bs|
  {
    set k: nat | k < n && GrantedIn(r, bs[k], cs[k], t1, t2)
  }

  lemma GrantedStep(r: Rate, bs: seq<Bucket>, cs: seq<Charge>, t1: real, t2: real, n: nat)
    requires 0 < n <= |cs| && n <= |bs|
    ensures |Granted(r, bs, cs, t1, t2, n)|
            == |Granted(r, bs, cs, t1, t2, n - 1)| + if GrantedIn(r, bs[n - 1], cs[n - 1], t1, t2) then 1 else 0
  {
    var before := Granted(r, bs, cs, t1, t2, n - 1);
    if GrantedIn(r, bs[n - 1], cs[n - 1], t1, t2) {
      assert Granted(r, bs, cs, t1, t2, n) == before + {n - 1};
    } else {
      assert Granted(r, bs, cs, t1, t2, n) == before;
    }
  }

  /** The quantity no charge ever increases, whatever the clock does. */
  function Potential(r: Rate, b: Bucket): real {
    b.tokens - r.perSecond * b.last
  }

  lemma TakePotential(r: Rate, b: Bucket, now: real)
    ensures Potential(r, Take(b, r, now)) <= Potential(r, b) - (if Grants(b, r, now) then 1.0 else 0.0)
  {
    Distributes(r.perSecond, now, b.last);
  }

  lemma ProductNonNegative(x: real, y: real)
    requires x >= 0.0 && y >= 0.0
    ensures x * y >= 0.0
  {}

  lemma Distributes(x: real, a: real, b: real)
    ensures x * (a - b) == x * a - x * b && (a - b) * x == x * a - x * b
  {}

  /** Just after a grant inside the window the potential lies between its two ends. */
  lemma GrantPotential(r: Rate, b: Bucket, now: real, t1: real, t2: real)
    requires Grants(b, r, now) && t1 <= now <= t2 && r.perSecond >= 0.0
    ensures -(r.perSecond * t2) <= Potential(r, Take(b, r, now)) <= r.burst - 1.0 - r.perSecond * t1
  {
    ProductNonNegative(r.perSecond, now - t1);
    ProductNonNegative(r.perSecond, t2 - now);
    Distributes(r.perSecond, now, t1);
    Distributes(r.perSecond, t2, now);
  }

  /** `g` grants left the potential at `p`; the window's ends are credited `lo` and `hi`. */
  predicate Within(g: real, p: real, burst: real, lo: real, hi: real) {
    (g > 0.0 ==> g + p <= burst - lo) && g <= burst + hi - lo
  }

  lemma WithinStep(r: Rate, b: Bucket, c: Charge, t1: real, t2: real, lo: real, hi: real, g: real)
    requires lo == r.perSecond * t1 && hi == r.perSecond * t2
    requires Within(g, Potential(r, b), r.burst, lo, hi) && c.hit && r.perSecond >= 0.0
    ensures Within(if GrantedIn(r, b, c, t1, t2) then g + 1.0 else g, Potential(r, Take(b, r, c.now)), r.burst, lo, hi)
  {
    TakePotential(r, b, c.now);
    if GrantedIn(r, b, c, t1, t2) {
      GrantPotential(r, b, c.now, t1, t2);
    }
  }

  lemma {:induction false} WindowPotential(r: Rate, bs: seq<Bucket>, cs: seq<Charge>, t1: real, t2: real,
                                           lo: real, hi: real, n: nat)
    requires IsChain(r, bs, cs) && n <= |cs| && r.perSecond >= 0.0 && r.burst >= 0.0
    requires lo == r.perSecond * t1 && hi == r.perSecond * t2 && lo <= hi
    ensures Within(|Granted(r, bs, cs, t1, t2, n)| as real, Potential(r, bs[n]), r.burst, lo, hi)
  {
    if n > 0 {
      WindowPotential(r, bs, cs, t1, t2, lo, hi, n - 1);
      GrantedStep(r, bs, cs, t1, t2, n);
      if cs[n - 1].hit {
        WithinStep(r, bs[n - 1], cs[n - 1], t1, t2, lo, hi, |Granted(r, bs, cs, t1, t2, n - 1)| as real);
      }
    }
  }

  /** What is credited up to each end of a window, and over it. */
  lemma WindowCredit(x: real, t1: real, t2: real) returns (lo: real, hi: real)
    requires x >= 0.0 && t1 <= t2
    ensures lo == x * t1 && hi == x * t2 && lo <= hi && hi - lo == x * (t2 - t1)
  {
    lo, hi := x * t1, x * t2;
    ProductNonNegative(x, t2 - t1);
    Distributes(x, t2, t1);
  }

  /**
   Whatever state the bucket starts in, and even if readings arrive out of order,
   no window sees more grants than burst plus rate times its length.
   */
  lemma WindowBound(r: Rate, bs: seq<Bucket>, cs: seq<Charge>, t1: real, t2: real)
    requires IsChain(r, bs, cs) && t1 <= t2
    requires r.perSecond >= 0.0 && r.burst >= 0.0
    ensures |Granted(r, bs, cs, t1, t2, |cs|)| as real <= r.burst + r.perSecond * (t2 - t1)
  {
    var lo, hi := WindowCredit(r.perSecond, t1, t2);
    WindowPotential(r, bs, cs, t1, t2, lo, hi, |cs|);
  }

  // ---- the envelope is exact --------------------------------------------------------

  /** The calls `i..j` fit the envelope of their own window. */
  ghost predicate Fits(r: Rate, ts: seq<real>, i: int, j: int)
    requires 0 <= i <= j < |ts|
  {
    (j - i + 1) as real <= r.burst + r.perSecond * (ts[j] - ts[i])
  }

  /** Every stretch of calls up to call `n` fits. */
  ghost predicate Conforming(r: Rate, ts: seq<real>, n: int)
    requires n <= |ts|
  {
    forall i, j :: 0 <= i <= j < n ==> Fits(r, ts, i, j)
  }

  /** A bucket charged at every reading in `ts`, full at the first. */
  ghost predicate IsSteady(r: Rate, bs: seq<Bucket>, ts: seq<real>) {
    && |bs| == |ts| + 1
    && (|ts| > 0 ==> Full(bs[0], r, ts[0]))
    && (forall k :: 0 <= k < |ts| ==> bs[k + 1] == Take(bs[k], r, ts[k]))
  }

  ghost predicate GrantsAll(r: Rate, bs: seq<Bucket>, ts: seq<real>, n: int)
    requires n <= |ts| && n <= |bs|
  {
    forall k :: 0 <= k < n ==> Grants(bs[k], r, ts[k])
  }

  /**
   While everything was granted, the balance at call `k` is that of a bucket last
   full at some call `j` and drained once per call since; it is the least such.
   */
  lemma {:induction false} BalanceSince(r: Rate, bs: seq<Bucket>, ts: seq<real>, k: nat) returns (j: nat)
    requires IsSteady(r, bs, ts) && k < |ts| && GrantsAll(r, bs, ts, k)
    ensures j <= k
    ensures Refilled(bs[k], r, ts[k]) == r.burst + r.perSecond * (ts[k] - ts[j]) - (k - j) as real
  {
    if k == 0 {
      j := 0;
      assert r.perSecond * (ts[0] - ts[0]) == 0.0;
    } else {
      j := BalanceSince(r, bs, ts, k - 1);
      var credited := bs[k].tokens + (ts[k] - ts[k - 1]) * r.perSecond;
      assert r.perSecond * (ts[k] - ts[j]) == r.perSecond * (ts[k - 1] - ts[j]) + (ts[k] - ts[k - 1]) * r.perSecond;
      if credited > r.burst {
        j := k;
        assert r.perSecond * (ts[k] - ts[k]) == 0.0;
      }
    }
  }

  lemma {:induction false} BalanceAtMost(r: Rate, bs: seq<Bucket>, ts: seq<real>, i: nat, k: nat)
    requires IsSteady(r, bs, ts) && i <= k < |ts| && GrantsAll(r, bs, ts, k)
    ensures Refilled(bs[k], r, ts[k]) <= r.burst + r.perSecond * (ts[k] - ts[i]) - (k - i) as real
    decreases k - i
  {
    if i == k {
      assert r.perSecond * (ts[k] - ts[k]) == 0.0;
    } else {
      BalanceAtMost(r, bs, ts, i, k - 1);
      assert r.perSecond * (ts[k] - ts[i]) == r.perSecond * (ts[k - 1] - ts[i]) + (ts[k] - ts[k - 1]) * r.perSecond;
    }
  }

  /** The next call is granted exactly when every stretch that ends with it fits. */
  lemma LastFits(r: Rate, bs: seq<Bucket>, ts: seq<real>, k: nat)
    requires IsSteady(r, bs, ts) && k < |ts| && GrantsAll(r, bs, ts, k)
    ensures Grants(bs[k], r, ts[k]) <==> forall i :: 0 <= i <= k ==> Fits(r, ts, i, k)
  {
    var j := BalanceSince(r, bs, ts, k);
    FitsIff(r, ts, j, k, Refilled(bs[k], r, ts[k]));
    if Grants(bs[k], r, ts[k]) {
      forall i | 0 <= i <= k ensures Fits(r, ts, i, k) {
        BalanceAtMost(r, bs, ts, i, k);
        FitsWithin(r, ts, i, k, Refilled(bs[k], r, ts[k]));
      }
    }
  }

  lemma FitsIff(r: Rate, ts: seq<real>, i: nat, k: nat, balance: real)
    requires i <= k < |ts| && balance == r.burst + r.perSecond * (ts[k] - ts[i]) - (k - i) as real
    ensures balance >= 1.0 <==> Fits(r, ts, i, k)
  {
    assert (k - i + 1) as real == (k - i) as real + 1.0;
  }

  lemma FitsWithin(r: Rate, ts: seq<real>, i: nat, k: nat, balance: real)
    requires i <= k < |ts| && 1.0 <= balance <= r.burst + r.perSecond * (ts[k] - ts[i]) - (k - i) as real
    ensures Fits(r, ts, i, k)
  {
    assert (k - i + 1) as real == (k - i) as real + 1.0;
  }

  lemma ConformingStep(r: Rate, ts: seq<real>, k: nat)
    requires k < |ts|
    ensures Conforming(r, ts, k + 1) <==> Conforming(r, ts, k) && forall i :: 0 <= i <= k ==> Fits(r, ts, i, k)
  {}

  /**
   A bucket that starts full grants every call exactly when every stretch of calls
   fits the envelope: it is neither looser nor stricter than it claims to be.
   */
  lemma {:induction false} GrantsAllIffConforming(r: Rate, bs: seq<Bucket>, ts: seq<real>, n: nat)
    requires IsSteady(r, bs, ts) && n <= |ts|
    ensures GrantsAll(r, bs, ts, n) <==> Conforming(r, ts, n)
  {
    if n > 0 {
      GrantsAllIffConforming(r, bs, ts, n - 1);
      ConformingStep(r, ts, n - 1);
      if GrantsAll(r, bs, ts, n - 1) {
        LastFits(r, bs, ts, n - 1);
      }
    }
  }
}
