/**
 The limiter of internal/ratelimit/ratelimit.go: one global bucket and a bounded,
 pruned map of per-source buckets. The reference it is compared with keeps every
 source for ever.
 */
module RateLimit {
  import opened Common
  import opened TokenBucket

  datatype Source = Source(id: int)

  datatype Limits = Limits(global: Rate, src: Rate, maxSources: nat)

  datatype Lim = Lim(global: Bucket, perSrc: map<Source, Bucket>)

  predicate Sensible(r: Rate) {
    r.perSecond >= 0.0 && r.burst >= 0.0
  }

  // ---- one call ---------------------------------------------------------------

  function Prune(l: Limits, m: map<Source, Bucket>, now: real): map<Source, Bucket> {
    map x | x in m && !Full(m[x], l.src, now) :: m[x]
  }

  /** The per-source map once a call from `src` has made what room it may. */
  function Room(l: Limits, m: map<Source, Bucket>, src: Source, now: real): map<Source, Bucket> {
    if src in m || |m| < l.maxSources then m else Prune(l, m, now)
  }

  /** The call is dropped because the map is full of active sources. */
  predicate Crowded(l: Limits, s: Lim, src: Source, now: real) {
    src !in s.perSrc && |Room(l, s.perSrc, src, now)| >= l.maxSources
  }

  function BucketFor(l: Limits, m: map<Source, Bucket>, src: Source, now: real): Bucket {
    if src in m then m[src] else Bucket(l.src.burst, now)
  }

  /** A call charged to `src` in the map `m`, then to the global bucket if that grants. */
  function ChargeIn(l: Limits, s: Lim, m: map<Source, Bucket>, src: Source, now: real): Lim {
    var b := BucketFor(l, m, src, now);
    Lim(if Grants(b, l.src, now) then Take(s.global, l.global, now) else s.global,
        m[src := Take(b, l.src, now)])
  }

  function Allow(l: Limits, s: Lim, src: Source, now: real): Lim {
    var m := Room(l, s.perSrc, src, now);
    if Crowded(l, s, src, now) then s.(perSrc := m) else ChargeIn(l, s, m, src, now)
  }

  predicate SourceGrants(l: Limits, s: Lim, src: Source, now: real) {
    !Crowded(l, s, src, now) && Grants(BucketFor(l, Room(l, s.perSrc, src, now), src, now), l.src, now)
  }

  // ---- runs -------------------------------------------------------------------

  /** A call to Allow or AllowGlobal, or a moment at which the limiter is not called. */
  datatype Call = ForSource(src: Source, now: real) | ForAll(now: real) | Elsewhere(now: real)

  function Next(l: Limits, s: Lim, c: Call): Lim {
    match c
    case ForSource(src, now) => Allow(l, s, src, now)
    case ForAll(now) => s.(global := Take(s.global, l.global, now))
    case Elsewhere(_) => s
  }

  predicate ChargesGlobal(l: Limits, s: Lim, c: Call) {
    c.ForAll? || (c.ForSource? && SourceGrants(l, s, c.src, c.now))
  }

  predicate Admits(l: Limits, s: Lim, c: Call) {
    ChargesGlobal(l, s, c) && Grants(s.global, l.global, c.now)
  }

  /** What a new limiter holds: a full global bucket and no sources. */
  function Fresh(l: Limits, start: real): Lim {
    Lim(Bucket(l.global.burst, start), map[])
  }

  ghost predicate IsRun(l: Limits, start: real, ss: seq<Lim>, cs: seq<Call>) {
    && |ss| == |cs| + 1
    && ss[0] == Fresh(l, start)
    && (forall k :: 0 <= k < |cs| ==> ss[k + 1] == Next(l, ss[k], cs[k]))
  }

  predicate AdmittedIn(l: Limits, s: Lim, c: Call, t1: real, t2: real) {
    t1 <= c.now <= t2 && Admits(l, s, c)
  }

  /** Which calls were admitted with a reading in `[t1, t2]`. */
  function Admitted(l: Limits, ss: seq<Lim>, cs: seq<Call>, t1: real, t2: real): set<nat>
    requires |cs| <= |ss|
  {
    set k: nat | k < |cs| && AdmittedIn(l, ss[k], cs[k], t1, t2)
  }

  // ---- the map stays bounded ------------------------------------------------------

  lemma PruneShrinks(l: Limits, m: map<Source, Bucket>, now: real)
    ensures |Prune(l, m, now)| <= |m|
  {
    SubmapSize(Prune(l, m, now), m);
  }

  lemma AllowBounded(l: Limits, s: Lim, src: Source, now: real)
    requires |s.perSrc| <= l.maxSources
    ensures |Allow(l, s, src, now).perSrc| <= l.maxSources
  {
    PruneShrinks(l, s.perSrc, now);
    var m := Room(l, s.perSrc, src, now);
    var b := BucketFor(l, m, src, now);
    PutSize(m, src, Take(b, l.src, now));
  }

  /** The per-source map never outgrows its bound, on any run. */
  lemma {:induction false} RunBounded(l: Limits, start: real, ss: seq<Lim>, cs: seq<Call>, n: nat)
    requires IsRun(l, start, ss, cs) && n < |ss|
    ensures |ss[n].perSrc| <= l.maxSources
  {
    if n > 0 {
      RunBounded(l, start, ss, cs, n - 1);
      if cs[n - 1].ForSource? {
        AllowBounded(l, ss[n - 1], cs[n - 1].src, cs[n - 1].now);
      }
    }
  }

  /**
   A call is dropped for room if and only if its source is new, the map is as full as it may
   be, and not one bucket in it has refilled.
   */
  lemma DroppedIff(l: Limits, s: Lim, src: Source, now: real)
    requires |s.perSrc| <= l.maxSources
    ensures Crowded(l, s, src, now) <==>
      && src !in s.perSrc && |s.perSrc| == l.maxSources
      && forall x :: x in s.perSrc ==>
           s.perSrc[x].tokens + (now - s.perSrc[x].last) * l.src.perSecond < l.src.burst
  {
    var kept := Prune(l, s.perSrc, now);
    PruneShrinks(l, s.perSrc, now);
    if x :| x in s.perSrc && Full(s.perSrc[x], l.src, now) {
      SubsetSize(kept.Keys, s.perSrc.Keys - {x});
      assert |kept| == |kept.Keys| && |s.perSrc| == |s.perSrc.Keys|;
    } else {
      assert kept == s.perSrc;
    }
  }

  /** A source's call is then decided by its own bucket, new and full if it had none, and the global one. */
  lemma ServedBy(l: Limits, s: Lim, src: Source, now: real)
    requires !Crowded(l, s, src, now)
    ensures var b := if src in s.perSrc then s.perSrc[src] else Bucket(l.src.burst, now);
      var s' := Allow(l, s, src, now);
      && src in s'.perSrc && s'.perSrc[src] == Take(b, l.src, now)
      && (SourceGrants(l, s, src, now) <==> Grants(b, l.src, now))
      && s'.global == (if Grants(b, l.src, now) then Take(s.global, l.global, now) else s.global)
      && (Admits(l, s, ForSource(src, now)) <==> Grants(b, l.src, now) && Grants(s.global, l.global, now))
      && forall x :: x != src && x in s'.perSrc ==> x in s.perSrc && s'.perSrc[x] == s.perSrc[x]
  {}

  // ---- the global ceiling ----------------------------------------------------------

  function GlobalBuckets(ss: seq<Lim>): seq<Bucket> {
    seq(|ss|, k requires 0 <= k < |ss| => ss[k].global)
  }

  function GlobalCharges(l: Limits, ss: seq<Lim>, cs: seq<Call>): seq<Charge>
    requires |ss| == |cs| + 1
  {
    seq(|cs|, k requires 0 <= k < |cs| => Charge(cs[k].now, ChargesGlobal(l, ss[k], cs[k])))
  }

  lemma GlobalChain(l: Limits, start: real, ss: seq<Lim>, cs: seq<Call>)
    requires IsRun(l, start, ss, cs)
    ensures IsChain(l.global, GlobalBuckets(ss), GlobalCharges(l, ss, cs))
  {
    forall k | 0 <= k < |cs|
      ensures ss[k + 1].global ==
        if ChargesGlobal(l, ss[k], cs[k]) then Take(ss[k].global, l.global, cs[k].now) else ss[k].global
    {
      assert ss[k + 1] == Next(l, ss[k], cs[k]);
    }
  }

  /** The global bucket's own history accounts for every admission. */
  lemma GlobalHistory(l: Limits, start: real, ss: seq<Lim>, cs: seq<Call>, t1: real, t2: real)
      returns (bs: seq<Bucket>, hits: seq<Charge>)
    requires IsRun(l, start, ss, cs)
    ensures IsChain(l.global, bs, hits) && |hits| == |cs|
    ensures Admitted(l, ss, cs, t1, t2) == Granted(l.global, bs, hits, t1, t2, |hits|)
  {
    bs, hits := GlobalBuckets(ss), GlobalCharges(l, ss, cs);
    GlobalChain(l, start, ss, cs);
  }

  /**
   Whoever calls and however often, no window sees more admissions than the global
   burst plus the global rate times its length, even with readings out of order.
   */
  lemma GlobalCeiling(l: Limits, start: real, ss: seq<Lim>, cs: seq<Call>, t1: real, t2: real)
    requires IsRun(l, start, ss, cs) && t1 <= t2 && Sensible(l.global)
    ensures |Admitted(l, ss, cs, t1, t2)| as real <= l.global.burst + l.global.perSecond * (t2 - t1)
  {
    var bs, hits := GlobalHistory(l, start, ss, cs, t1, t2);
    WindowBound(l.global, bs, hits, t1, t2);
  }

  // ---- pruning is invisible ----------------------------------------------------------

  /** The same call against a limiter that remembers every source it has seen. */
  function UnboundedNext(l: Limits, u: Lim, c: Call): Lim {
    match c
    case ForSource(src, now) => ChargeIn(l, u, u.perSrc, src, now)
    case ForAll(now) => u.(global := Take(u.global, l.global, now))
    case Elsewhere(_) => u
  }

  predicate UnboundedSourceGrants(l: Limits, u: Lim, src: Source, now: real) {
    Grants(BucketFor(l, u.perSrc, src, now), l.src, now)
  }

  predicate UnboundedAdmits(l: Limits, u: Lim, c: Call) {
    (c.ForAll? || (c.ForSource? && UnboundedSourceGrants(l, u, c.src, c.now))) && Grants(u.global, l.global, c.now)
  }

  predicate DroppedForRoom(l: Limits, s: Lim, c: Call) {
    c.ForSource? && Crowded(l, s, c.src, c.now)
  }

  /** `us` are the states of the unbounded limiter, fed every call not dropped for room. */
  ghost predicate IsReference(l: Limits, start: real, ss: seq<Lim>, us: seq<Lim>, cs: seq<Call>) {
    && |us| == |ss| == |cs| + 1
    && us[0] == Fresh(l, start)
    && (forall k :: 0 <= k < |cs| ==>
          us[k + 1] == if DroppedForRoom(l, ss[k], cs[k]) then us[k] else UnboundedNext(l, us[k], cs[k]))
  }

  /** A call from `x` that is not dropped for room. */
  predicate Serves(l: Limits, s: Lim, c: Call, x: Source) {
    c == ForSource(x, c.now) && !Crowded(l, s, x, c.now)
  }

  /** Both limiters answer `x` alike and leave it with the same bucket. */
  predicate ServedAlike(l: Limits, s: Lim, u: Lim, x: Source, now: real) {
    && (SourceGrants(l, s, x, now) <==> UnboundedSourceGrants(l, u, x, now))
    && x in Allow(l, s, x, now).perSrc
    && Allow(l, s, x, now).perSrc[x] == ChargeIn(l, u, u.perSrc, x, now).perSrc[x]
  }

  /** If the bucket of `x` was forgotten, it would be full again by now. */
  predicate Restored(l: Limits, s: Lim, u: Lim, x: Source, now: real) {
    x in u.perSrc && x !in s.perSrc ==> Full(u.perSrc[x], l.src, now)
  }

  /** The bucket of `x`, if there is one, is the one the reference has. */
  predicate Tracks(s: Lim, u: Lim, x: Source) {
    x in s.perSrc ==> x in u.perSrc && u.perSrc[x] == s.perSrc[x]
  }

  lemma ServedAlikeIff(l: Limits, s: Lim, u: Lim, x: Source, now: real)
    requires Tracks(s, u, x) && !Crowded(l, s, x, now)
    ensures ServedAlike(l, s, u, x, now) <==> Restored(l, s, u, x, now)
  {
    if x in u.perSrc && x !in s.perSrc {
      assert (now - now) * l.src.perSecond == 0.0;
      assert Refilled(u.perSrc[x], l.src, now) == l.src.burst <==> Full(u.perSrc[x], l.src, now);
    }
  }

  function ReferenceNext(l: Limits, s: Lim, u: Lim, c: Call): Lim {
    if DroppedForRoom(l, s, c) then u else UnboundedNext(l, u, c)
  }

  lemma NextTracks(l: Limits, s: Lim, u: Lim, c: Call, x: Source)
    requires Tracks(s, u, x)
    requires Serves(l, s, c, x) ==> ServedAlike(l, s, u, x, c.now)
    ensures Tracks(Next(l, s, c), ReferenceNext(l, s, u, c), x)
  {}

  ghost predicate AlwaysRestored(l: Limits, ss: seq<Lim>, us: seq<Lim>, cs: seq<Call>, x: Source, n: nat)
    requires n <= |cs| && |us| == |ss| == |cs| + 1
  {
    forall k :: 0 <= k < n && Serves(l, ss[k], cs[k], x) ==> Restored(l, ss[k], us[k], x, cs[k].now)
  }

  ghost predicate AlwaysServedAlike(l: Limits, ss: seq<Lim>, us: seq<Lim>, cs: seq<Call>, x: Source, n: nat)
    requires n <= |cs| && |us| == |ss| == |cs| + 1
  {
    forall k :: 0 <= k < n && Serves(l, ss[k], cs[k], x) ==> ServedAlike(l, ss[k], us[k], x, cs[k].now)
  }

  lemma {:induction false} RunTracks(l: Limits, start: real, ss: seq<Lim>, us: seq<Lim>, cs: seq<Call>,
                                     x: Source, n: nat)
    requires IsRun(l, start, ss, cs) && IsReference(l, start, ss, us, cs) && n <= |cs|
    requires AlwaysRestored(l, ss, us, cs, x, n) || AlwaysServedAlike(l, ss, us, cs, x, n)
    ensures Tracks(ss[n], us[n], x)
  {
    if n > 0 {
      RunTracks(l, start, ss, us, cs, x, n - 1);
      if Serves(l, ss[n - 1], cs[n - 1], x) {
        ServedAlikeIff(l, ss[n - 1], us[n - 1], x, cs[n - 1].now);
      }
      NextTracks(l, ss[n - 1], us[n - 1], cs[n - 1], x);
    }
  }

  /**
   Pruning is invisible to a source, answers and balances, if and only if every bucket of
   its own that was forgotten is full at the reading that creates it again.
   */
  lemma InvisibleIffRestored(l: Limits, start: real, ss: seq<Lim>, us: seq<Lim>, cs: seq<Call>, x: Source)
    requires IsRun(l, start, ss, cs) && IsReference(l, start, ss, us, cs)
    ensures AlwaysServedAlike(l, ss, us, cs, x, |cs|) <==> AlwaysRestored(l, ss, us, cs, x, |cs|)
  {
    if AlwaysRestored(l, ss, us, cs, x, |cs|) || AlwaysServedAlike(l, ss, us, cs, x, |cs|) {
      forall k | 0 <= k < |cs| && Serves(l, ss[k], cs[k], x)
        ensures ServedAlike(l, ss[k], us[k], x, cs[k].now) <==> Restored(l, ss[k], us[k], x, cs[k].now)
      {
        RunTracks(l, start, ss, us, cs, x, k);
        ServedAlikeIff(l, ss[k], us[k], x, cs[k].now);
      }
    }
  }

  // ---- which readings have to be in order ---------------------------------------------

  predicate PrunedBy(l: Limits, s: Lim, c: Call, x: Source) {
    c.ForSource? && x in s.perSrc && x !in Room(l, s.perSrc, c.src, c.now)
  }

  /** No call from `x` reads the clock before a call that had pruned `x`. */
  ghost predicate InOrder(l: Limits, ss: seq<Lim>, cs: seq<Call>, x: Source)
    requires |cs| <= |ss|
  {
    forall i, j :: 0 <= i < j < |cs| && PrunedBy(l, ss[i], cs[i], x) && Serves(l, ss[j], cs[j], x)
                   ==> cs[i].now <= cs[j].now
  }

  /** The bucket was forgotten by call `i`, and it was full at that reading. */
  ghost predicate ForgottenBy(l: Limits, s: Lim, c: Call, u: Lim, x: Source) {
    PrunedBy(l, s, c, x) && x in u.perSrc && Full(u.perSrc[x], l.src, c.now)
  }

  lemma {:induction false} RunForgets(l: Limits, start: real, ss: seq<Lim>, us: seq<Lim>, cs: seq<Call>,
                                      x: Source, n: nat)
      returns (i: nat)
    requires IsRun(l, start, ss, cs) && IsReference(l, start, ss, us, cs) && InOrder(l, ss, cs, x)
    requires l.src.perSecond >= 0.0 && n <= |cs|
    ensures AlwaysRestored(l, ss, us, cs, x, n) && Tracks(ss[n], us[n], x)
    ensures x in us[n].perSrc && x !in ss[n].perSrc ==> i < n && ForgottenBy(l, ss[i], cs[i], us[n], x)
  {
    i := 0;
    if n > 0 {
      var s, u, c := ss[n - 1], us[n - 1], cs[n - 1];
      i := RunForgets(l, start, ss, us, cs, x, n - 1);
      if Serves(l, s, c, x) {
        if x in u.perSrc && x !in s.perSrc {
          FullStaysFull(u.perSrc[x], l.src, cs[i].now, c.now);
        }
        ServedAlikeIff(l, s, u, x, c.now);
      }
      NextTracks(l, s, u, c, x);
      if PrunedBy(l, s, c, x) {
        i := n - 1;
      }
    }
  }

  lemma {:induction false} GlobalSame(l: Limits, start: real, ss: seq<Lim>, us: seq<Lim>, cs: seq<Call>, n: nat)
    requires IsRun(l, start, ss, cs) && IsReference(l, start, ss, us, cs) && n <= |cs|
    requires forall x :: AlwaysServedAlike(l, ss, us, cs, x, |cs|)
    ensures ss[n].global == us[n].global
  {
    if n > 0 {
      GlobalSame(l, start, ss, us, cs, n - 1);
      if cs[n - 1].ForSource? {
        assert AlwaysServedAlike(l, ss, us, cs, cs[n - 1].src, |cs|);
      }
    }
  }

  /**
   So pruning is invisible on any run in which no source reads the clock before a call that
   pruned it: every call not dropped for a full map gets the answer an unbounded,
   never-pruned limiter would give.
   */
  lemma PruningInvisible(l: Limits, start: real, ss: seq<Lim>, us: seq<Lim>, cs: seq<Call>, n: nat)
    requires IsRun(l, start, ss, cs) && IsReference(l, start, ss, us, cs)
    requires (forall x :: InOrder(l, ss, cs, x)) && l.src.perSecond >= 0.0 && n < |cs|
    requires !DroppedForRoom(l, ss[n], cs[n])
    ensures Admits(l, ss[n], cs[n]) <==> UnboundedAdmits(l, us[n], cs[n])
    ensures cs[n].ForSource? ==>
      (SourceGrants(l, ss[n], cs[n].src, cs[n].now) <==> UnboundedSourceGrants(l, us[n], cs[n].src, cs[n].now))
  {
    forall x ensures AlwaysServedAlike(l, ss, us, cs, x, |cs|) {
      var _ := RunForgets(l, start, ss, us, cs, x, |cs|);
      InvisibleIffRestored(l, start, ss, us, cs, x);
    }
    GlobalSame(l, start, ss, us, cs, n);
    if cs[n].ForSource? {
      assert AlwaysServedAlike(l, ss, us, cs, cs[n].src, |cs|);
    }
  }

  // ---- the per-source ceiling ----------------------------------------------------------

  predicate SourceAdmittedIn(l: Limits, s: Lim, c: Call, x: Source, t1: real, t2: real) {
    c == ForSource(x, c.now) && t1 <= c.now <= t2 && SourceGrants(l, s, x, c.now)
  }

  /** Which calls source `x` was granted in `[t1, t2]`, whatever the global bucket said. */
  function SourceGranted(l: Limits, ss: seq<Lim>, cs: seq<Call>, x: Source, t1: real, t2: real): set<nat>
    requires |cs| <= |ss|
  {
    set k: nat | k < |cs| && SourceAdmittedIn(l, ss[k], cs[k], x, t1, t2)
  }

  /** The one bucket that stands for `x` over the whole run, prunes included. */
  function SourceBuckets(l: Limits, low: real, us: seq<Lim>, x: Source): seq<Bucket> {
    seq(|us|, k requires 0 <= k < |us| => BucketFor(l, us[k].perSrc, x, low))
  }

  function SourceCharges(l: Limits, ss: seq<Lim>, cs: seq<Call>, x: Source): seq<Charge>
    requires |ss| == |cs| + 1
  {
    seq(|cs|, k requires 0 <= k < |cs| => Charge(cs[k].now, Serves(l, ss[k], cs[k], x)))
  }

  /** A bucket created late behaves as if it had been there, full, from before. */
  lemma EarlyIsLate(l: Limits, m: map<Source, Bucket>, x: Source, low: real, now: real)
    requires low <= now && l.src.perSecond >= 0.0
    ensures Take(BucketFor(l, m, x, low), l.src, now) == Take(BucketFor(l, m, x, now), l.src, now)
    ensures Grants(BucketFor(l, m, x, low), l.src, now) <==> Grants(BucketFor(l, m, x, now), l.src, now)
  {
    if x !in m {
      ProductNonNegative(now - low, l.src.perSecond);
      FullIsFresh(Bucket(l.src.burst, low), l.src, now);
    }
  }

  lemma SourceStep(l: Limits, s: Lim, u: Lim, c: Call, x: Source, low: real)
    requires l.src.perSecond >= 0.0 && low <= c.now
    requires Serves(l, s, c, x) ==> ServedAlike(l, s, u, x, c.now)
    ensures var b := BucketFor(l, u.perSrc, x, low);
      && BucketFor(l, ReferenceNext(l, s, u, c).perSrc, x, low) ==
         (if Serves(l, s, c, x) then Take(b, l.src, c.now) else b)
      && forall t1, t2 :: SourceAdmittedIn(l, s, c, x, t1, t2) <==>
         GrantedIn(l.src, b, Charge(c.now, Serves(l, s, c, x)), t1, t2)
  {
    EarlyIsLate(l, u.perSrc, x, low, c.now);
  }

  ghost predicate Since(low: real, cs: seq<Call>) {
    forall k :: 0 <= k < |cs| ==> low <= cs[k].now
  }

  lemma SourceChain(l: Limits, start: real, ss: seq<Lim>, us: seq<Lim>, cs: seq<Call>,
                    x: Source, low: real, t1: real, t2: real)
    requires IsRun(l, start, ss, cs) && IsReference(l, start, ss, us, cs) && AlwaysServedAlike(l, ss, us, cs, x, |cs|)
    requires l.src.perSecond >= 0.0 && Since(low, cs)
    ensures IsChain(l.src, SourceBuckets(l, low, us, x), SourceCharges(l, ss, cs, x))
    ensures SourceGranted(l, ss, cs, x, t1, t2)
            == Granted(l.src, SourceBuckets(l, low, us, x), SourceCharges(l, ss, cs, x), t1, t2, |cs|)
  {
    var bs, hits := SourceBuckets(l, low, us, x), SourceCharges(l, ss, cs, x);
    forall k | 0 <= k < |cs|
      ensures bs[k + 1] == if hits[k].hit then Take(bs[k], l.src, hits[k].now) else bs[k]
      ensures SourceAdmittedIn(l, ss[k], cs[k], x, t1, t2) <==> GrantedIn(l.src, bs[k], hits[k], t1, t2)
    {
      assert us[k + 1] == ReferenceNext(l, ss[k], us[k], cs[k]);
      SourceStep(l, ss[k], us[k], cs[k], x, low);
    }
  }

  lemma {:induction false} LowestReading(cs: seq<Call>) returns (low: real)
    ensures Since(low, cs)
  {
    low := 0.0;
    if cs != [] {
      var n := |cs| - 1;
      low := LowestReading(cs[..n]);
      forall k | 0 <= k < n ensures low <= cs[k].now {
        assert cs[..n][k] == cs[k];
      }
      low := if cs[n].now < low then cs[n].now else low;
    }
  }

  function ReferenceStates(l: Limits, start: real, ss: seq<Lim>, cs: seq<Call>, n: nat): (us: seq<Lim>)
    requires n <= |cs| && n <= |ss|
    ensures |us| == n + 1 && us[0] == Fresh(l, start)
    ensures forall k :: 0 <= k < n ==>
      us[k + 1] == if DroppedForRoom(l, ss[k], cs[k]) then us[k] else UnboundedNext(l, us[k], cs[k])
  {
    if n == 0 then [Fresh(l, start)] else
      var us := ReferenceStates(l, start, ss, cs, n - 1);
      us + [if DroppedForRoom(l, ss[n - 1], cs[n - 1]) then us[n - 1] else UnboundedNext(l, us[n - 1], cs[n - 1])]
  }

  /** One never-pruned bucket accounts for every grant to `x`. */
  lemma SourceHistory(l: Limits, start: real, ss: seq<Lim>, cs: seq<Call>, x: Source, t1: real, t2: real)
      returns (bs: seq<Bucket>, hits: seq<Charge>)
    requires IsRun(l, start, ss, cs) && InOrder(l, ss, cs, x) && l.src.perSecond >= 0.0
    ensures IsChain(l.src, bs, hits) && |hits| == |cs|
    ensures SourceGranted(l, ss, cs, x, t1, t2) == Granted(l.src, bs, hits, t1, t2, |hits|)
  {
    var us := ReferenceStates(l, start, ss, cs, |cs|);
    var low := LowestReading(cs);
    bs, hits := SourceBuckets(l, low, us, x), SourceCharges(l, ss, cs, x);
    var _ := RunForgets(l, start, ss, us, cs, x, |cs|);
    InvisibleIffRestored(l, start, ss, us, cs, x);
    SourceChain(l, start, ss, us, cs, x, low, t1, t2);
  }

  /**
   One source's grants in any window stay within its own burst and rate, however often its
   bucket was pruned and created again in between, as long as it never reads the clock
   before a call that pruned it. Readings may otherwise come in any order.
   */
  lemma SourceCeiling(l: Limits, start: real, ss: seq<Lim>, cs: seq<Call>, x: Source, t1: real, t2: real)
    requires IsRun(l, start, ss, cs) && InOrder(l, ss, cs, x) && Sensible(l.src) && t1 <= t2
    ensures |SourceGranted(l, ss, cs, x, t1, t2)| as real <= l.src.burst + l.src.perSecond * (t2 - t1)
  {
    var bs, hits := SourceHistory(l, start, ss, cs, x, t1, t2);
    WindowBound(l.src, bs, hits, t1, t2);
  }

  // ---- a reading older than the prune ---------------------------------------------------

  const TIGHT := Limits(Rate(9.0, 18.0), Rate(1.0, 2.0), 2)
  const STALE := [ForSource(Source(0), 0.0), ForSource(Source(0), 0.0), ForSource(Source(1), 0.0),
                  ForSource(Source(2), 9.0), ForSource(Source(0), 0.0)]
  const STALE_STATES := [
    Fresh(TIGHT, 0.0),
    Lim(Bucket(17.0, 0.0), map[Source(0) := Bucket(1.0, 0.0)]),
    Lim(Bucket(16.0, 0.0), map[Source(0) := Bucket(0.0, 0.0)]),
    Lim(Bucket(15.0, 0.0), map[Source(0) := Bucket(0.0, 0.0), Source(1) := Bucket(1.0, 0.0)]),
    Lim(Bucket(17.0, 9.0), map[Source(2) := Bucket(1.0, 9.0)]),
    Lim(Bucket(-64.0, 0.0), map[Source(2) := Bucket(1.0, 9.0), Source(0) := Bucket(1.0, 0.0)])]

  lemma StaleStart()
    ensures STALE_STATES[1] == Next(TIGHT, STALE_STATES[0], STALE[0])
    ensures STALE_STATES[2] == Next(TIGHT, STALE_STATES[1], STALE[1])
    ensures STALE_STATES[3] == Next(TIGHT, STALE_STATES[2], STALE[2])
  {}

  lemma StaleEnd()
    ensures STALE_STATES[4] == Next(TIGHT, STALE_STATES[3], STALE[3])
    ensures STALE_STATES[5] == Next(TIGHT, STALE_STATES[4], STALE[4])
    ensures PrunedBy(TIGHT, STALE_STATES[3], STALE[3], Source(0))
  {
    assert Prune(TIGHT, STALE_STATES[3].perSrc, 9.0) == map[];
  }

  lemma StaleRun()
    ensures IsRun(TIGHT, 0.0, STALE_STATES, STALE)
  {
    StaleStart();
    StaleEnd();
  }

  lemma StaleOutOfOrder()
    ensures !InOrder(TIGHT, STALE_STATES, STALE, Source(0))
  {
    StaleEnd();
    assert Serves(TIGHT, STALE_STATES[4], STALE[4], Source(0)) && STALE[3].now > STALE[4].now;
  }

  lemma StaleGrants()
    ensures SourceGranted(TIGHT, STALE_STATES, STALE, Source(0), 0.0, 0.0) == {0, 1, 4}
  {}

  /** A reading older than the prune before it buys a source a third grant at one instant, on a burst of two. */
  lemma StaleReadingBreaksCeiling()
    ensures IsRun(TIGHT, 0.0, STALE_STATES, STALE) && !InOrder(TIGHT, STALE_STATES, STALE, Source(0))
    ensures |SourceGranted(TIGHT, STALE_STATES, STALE, Source(0), 0.0, 0.0)| as real > TIGHT.src.burst
  {
    StaleRun();
    StaleOutOfOrder();
    StaleGrants();
  }

  // ---- the limiter itself --------------------------------------------------------------

  /** Refill by elapsed time, cap at the burst, and remove one token if there is one. */
  method TakeFrom(b: Bucket, r: Rate, now: real) returns (after: Bucket, granted: bool)
    ensures after == Take(b, r, now)
    ensures granted <==> Grants(b, r, now)
  {
    var tokens := b.tokens + (now - b.last) * r.perSecond;
    if tokens > r.burst {
      tokens := r.burst;
    }
    assert tokens == Refilled(b, r, now);
    if tokens >= 1.0 {
      return Bucket(tokens - 1.0, now), true;
    }
    return Bucket(tokens, now), false;
  }

  class Limiter {
    const limits: Limits
    var global: Bucket
    var perSrc: map<Source, Bucket>

    ghost function Abs(): Lim
      reads this
    {
      Lim(global, perSrc)
    }

    /** Both ceilings; bursts are twice the rates. */
    constructor (globalRate: real, srcRate: real, maxSources: nat, now: real)
      ensures limits == Limits(Rate(globalRate, 2.0 * globalRate), Rate(srcRate, 2.0 * srcRate), maxSources)
      ensures Abs() == Fresh(limits, now)
    {
      limits := Limits(Rate(globalRate, 2.0 * globalRate), Rate(srcRate, 2.0 * srcRate), maxSources);
      global := Bucket(2.0 * globalRate, now);
      perSrc := map[];
    }

    /** Only the global ceiling. */
    constructor GlobalOnly(rate: real, now: real)
      ensures limits == Limits(Rate(rate, 2.0 * rate), Rate(0.0, 0.0), 0)
      ensures Abs() == Fresh(limits, now)
    {
      limits := Limits(Rate(rate, 2.0 * rate), Rate(0.0, 0.0), 0);
      global := Bucket(2.0 * rate, now);
      perSrc := map[];
    }

    method AllowGlobal(now: real) returns (ok: bool)
      modifies this
      ensures ok <==> Admits(limits, old(Abs()), ForAll(now))
      ensures Abs() == Next(limits, old(Abs()), ForAll(now))
    {
      global, ok := TakeFrom(global, limits.global, now);
    }

    method Allow(src: Source, now: real) returns (ok: bool)
      modifies this
      ensures ok <==> Admits(limits, old(Abs()), ForSource(src, now))
      ensures Abs() == Next(limits, old(Abs()), ForSource(src, now))
    {
      if src !in perSrc && |perSrc| >= limits.maxSources {
        PruneIdle(now);
      }
      if src !in perSrc && |perSrc| >= limits.maxSources {
        return false;
      }
      var b := if src in perSrc then perSrc[src] else Bucket(limits.src.burst, now);
      b, ok := TakeFrom(b, limits.src, now);
      perSrc := perSrc[src := b];
      if ok {
        global, ok := TakeFrom(global, limits.global, now);
      }
    }

    /** Drop every bucket that has refilled, visiting sources in any order. */
    method PruneIdle(now: real)
      modifies this`perSrc
      ensures perSrc == Prune(limits, old(perSrc), now)
    {
      var todo := perSrc.Keys;
      ghost var before := perSrc;
      while todo != {}
        invariant todo <= before.Keys
        invariant perSrc == map x | x in before && (x in todo || !Full(before[x], limits.src, now)) :: before[x]
        decreases todo
      {
        var x := Pick(todo);
        todo := todo - {x};
        if Full(perSrc[x], limits.src, now) {
          perSrc := perSrc - {x};
        }
      }
    }
  }
}
