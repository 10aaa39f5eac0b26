/** Runs of the handshake registry: registrations, evictions and reaper passes in any order. */
module HandshakeRuns {
  import opened Common
  import opened RelayState
  import opened Tickets
  import opened HandshakeState

  datatype Step =
    | Registers(q: Request, victim: PairToken, ticket: Option<Token>)
    | Reaps(now: nat)

  function Next(r: Registry, ttl: nat, st: Step): Registry {
    match st
    case Registers(q, victim, ticket) => Register(r, ttl, q, victim, ticket)
    case Reaps(now) => HandshakeState.Reap(r, ttl, now)
  }

  predicate Evicts(r: Registry, st: Step) {
    st.Registers? && st.q.token !in r.waiting && |r.waiting| >= MAX_TOKENS
  }

  /** `n` is the freshest sighting among a bucket's peers, zero when it has none. */
  ghost predicate IsNewest(b: Bucket, n: nat) {
    && (forall x :: x in b ==> b[x].seen <= n)
    && (n == 0 || exists x :: x in b && b[x].seen == n)
  }

  lemma {:induction false} SomeNewest(b: Bucket) returns (n: nat)
    ensures IsNewest(b, n)
    decreases |b|
  {
    n := 0;
    if x :| x in b {
      DropSize(b, x);
      n := SomeNewest(b - {x});
      assert forall y :: y in b ==> y == x || (y in b - {x} && (b - {x})[y] == b[y]);
      n := if b[x].seen > n then b[x].seen else n;
    }
  }

  ghost function Newest(b: Bucket): nat {
    assert exists n: nat :: IsNewest(b, n) by { var n := SomeNewest(b); }
    var n: nat :| IsNewest(b, n);
    n
  }

  lemma NewestIs(b: Bucket, n: nat)
    requires IsNewest(b, n)
    ensures n == Newest(b)
  {
    assert IsNewest(b, Newest(b));
  }

  /** The victim is the stalest of a sample of eight live tokens, or of all if there are fewer. */
  ghost predicate StalestOf(r: Registry, sample: set<PairToken>, victim: PairToken) {
    && sample <= r.waiting.Keys && (|sample| == 8 || sample == r.waiting.Keys)
    && victim in sample && forall t :: t in sample ==> Newest(r.waiting[victim]) <= Newest(r.waiting[t])
  }

  ghost predicate Legal(r: Registry, st: Step) {
    Evicts(r, st) ==> exists sample :: StalestOf(r, sample, st.victim)
  }

  ghost predicate IsRun(rs: seq<Registry>, ttl: nat, run: seq<Step>) {
    && |rs| == |run| + 1
    && rs[0] == NO_PEERS
    && (forall i :: 0 <= i < |run| ==> Legal(rs[i], run[i]) && rs[i + 1] == Next(rs[i], ttl, run[i]))
  }

  lemma StepInv(r: Registry, ttl: nat, st: Step)
    requires HandshakeState.Inv(r) && Legal(r, st)
    ensures HandshakeState.Inv(Next(r, ttl, st))
  {
    match st
    case Registers(q, victim, ticket) =>
      if Evicts(r, st) {
        var sample :| StalestOf(r, sample, victim);
      }
      RegisterInv(r, ttl, q, victim, ticket);
    case Reaps(now) => HandshakeState.ReapInv(r, ttl, now);
  }

  /**
   Every reachable registry: at most 4096 tokens with one or two peers each, at most
   eight candidates per peer and three keys per token, and no latch, key history or
   session id without its live token.
   */
  lemma {:induction false} RunInv(rs: seq<Registry>, ttl: nat, run: seq<Step>, n: nat)
    requires IsRun(rs, ttl, run) && n < |rs|
    ensures HandshakeState.Inv(rs[n])
  {
    if n > 0 {
      RunInv(rs, ttl, run, n - 1);
      StepInv(rs[n - 1], ttl, run[n - 1]);
    }
  }

  // ---- who is paired with whom -----------------------------------------------------------

  /** Somebody else is waiting on this token and was heard of within the TTL. */
  ghost predicate PartnerWaits(r: Registry, ttl: nat, q: Request, x: PeerId) {
    q.token in r.waiting && x in r.waiting[q.token] && x != q.id && Fresh(r.waiting[q.token][x], ttl, q.now)
  }

  /** A registration pairs exactly when such a partner waits and there is a seat. */
  lemma PairsIff(r: Registry, ttl: nat, q: Request)
    ensures Pairs(r, ttl, q) <==> !Crowded(r, q) && exists x :: PartnerWaits(r, ttl, q, x)
  {
    var b := NewBucket(r, ttl, q);
    if x :| PartnerWaits(r, ttl, q, x) {
      assert x in b;
    }
    if x :| x in b && x != q.id {
      assert PartnerWaits(r, ttl, q, x);
    }
  }

  /** There is never a choice: two partners for one registration cannot both wait. */
  lemma OnePartner(r: Registry, ttl: nat, q: Request, x: PeerId, y: PeerId)
    requires HandshakeState.Inv(r) && !Crowded(r, q) && PartnerWaits(r, ttl, q, x) && PartnerWaits(r, ttl, q, y)
    ensures x == y
  {
    NewBucketOk(r, ttl, q);
    var after := NewBucket(r, ttl, q);
    assert |after| == |after.Keys|;
    SubsetSize({q.id, x, y}, after.Keys);
  }

  // ---- one session id per token ------------------------------------------------------------------

  /** The session-id bound is a backstop that never fires: a pairing always gets its id. */
  lemma SidNeverRefused(r: Registry, t: PairToken, freshSid: Token)
    requires HandshakeState.Inv(r) && t in r.waiting
    ensures SidFor(r.sids, t, freshSid).Some?
    ensures t in NotePaired(r, t).paired
  {
    if t !in r.sids {
      SubsetSize(r.sids.Keys + {t}, r.waiting.Keys);
      assert |r.sids| == |r.sids.Keys| && |r.waiting| == |r.waiting.Keys|;
    }
    if t !in r.paired {
      SubsetSize(r.paired + {t}, r.waiting.Keys);
    }
  }

  /** Token `t` is evicted or reaped at this step. */
  ghost predicate Dies(r: Registry, ttl: nat, st: Step, t: PairToken) {
    match st
    case Registers(_, victim, _) => Evicts(r, st) && victim == t
    case Reaps(now) => t in r.waiting && t !in LiveTokens(r, ttl, now)
  }

  lemma UpsertKeepsSids(r: Registry, ttl: nat, q: Request)
    ensures Upsert(r, ttl, q).sids == r.sids
  {
    if !Crowded(r, q) {
      var b := NewBucket(r, ttl, q);
      TrackKeepsSids(Seat(r, q.token, b), q.token, q.pubkey);
      assert Seat(r, q.token, b).sids == r.sids;
    }
  }

  lemma TrackKeepsSids(r: Registry, t: PairToken, pk: Option<Identity>)
    ensures Track(r, t, pk).sids == r.sids
  {}

  lemma AssignKeepsSids(r: Registry, t: PairToken, freshSid: Token, x: PairToken)
    requires x in r.sids
    ensures x in AssignSid(r, t, freshSid).sids && AssignSid(r, t, freshSid).sids[x] == r.sids[x]
  {}

  lemma StepSid(r: Registry, ttl: nat, st: Step, t: PairToken)
    requires HandshakeState.Inv(r) && t in r.sids && !Dies(r, ttl, st, t)
    ensures t in Next(r, ttl, st).sids && Next(r, ttl, st).sids[t] == r.sids[t]
  {
    if st.Registers? {
      var r1 := WithRoom(r, st.q.token, st.victim);
      assert t in r1.sids && r1.sids[t] == r.sids[t];
      UpsertKeepsSids(r1, ttl, st.q);
      var r2 := NotePaired(Upsert(r1, ttl, st.q), st.q.token);
      if st.ticket.Some? {
        AssignKeepsSids(r2, st.q.token, st.ticket.value, t);
      }
    }
  }

  /** As long as a token lives it keeps the one session id it was first given. */
  lemma {:induction false} SidStable(rs: seq<Registry>, ttl: nat, run: seq<Step>, t: PairToken, i: nat, j: nat)
    requires IsRun(rs, ttl, run) && i <= j < |rs| && t in rs[i].sids
    requires forall k :: i <= k < j ==> !Dies(rs[k], ttl, run[k], t)
    ensures t in rs[j].sids && rs[j].sids[t] == rs[i].sids[t]
    decreases j - i
  {
    if i < j {
      SidStable(rs, ttl, run, t, i, j - 1);
      RunInv(rs, ttl, run, j - 1);
      assert !Dies(rs[j - 1], ttl, run[j - 1], t);
      StepSid(rs[j - 1], ttl, run[j - 1], t);
    }
  }

  /** Whether anything at all is remembered about token `t`. */
  predicate Remembered(r: Registry, t: PairToken) {
    t in r.waiting || t in r.sids || t in r.seenPKs || t in r.warned || t in r.paired
  }

  /** What is remembered about `t` besides its peers is the same in both. */
  ghost predicate SameState(r: Registry, r': Registry, t: PairToken) {
    && (t in r.sids <==> t in r'.sids) && (t in r.sids ==> r.sids[t] == r'.sids[t])
    && (t in r.seenPKs <==> t in r'.seenPKs) && (t in r.seenPKs ==> r.seenPKs[t] == r'.seenPKs[t])
    && (t in r.warned <==> t in r'.warned) && (t in r.paired <==> t in r'.paired)
  }

  predicate FreshIn(b: Bucket, x: PeerId, ttl: nat, now: nat) {
    x in b && Fresh(b[x], ttl, now)
  }

  lemma ReapPeers(r: Registry, ttl: nat, now: nat, t: PairToken, x: PeerId)
    ensures x in BucketOf(HandshakeState.Reap(r, ttl, now), t) <==> FreshIn(BucketOf(r, t), x, ttl, now)
  {
    if t in r.waiting {
      var f := FreshPeers(r.waiting[t], ttl, now);
      assert x in f <==> FreshIn(r.waiting[t], x, ttl, now);
    }
  }

  lemma LiveIff(r: Registry, ttl: nat, now: nat, t: PairToken)
    ensures t in LiveTokens(r, ttl, now) <==> exists x :: FreshIn(BucketOf(r, t), x, ttl, now)
  {
    var b := BucketOf(r, t);
    var f := FreshPeers(b, ttl, now);
    if x :| FreshIn(b, x, ttl, now) {
      assert x in f;
    } else {
      assert forall x :: x in f ==> FreshIn(b, x, ttl, now);
      assert f == map[];
    }
  }

  lemma ReapState(r: Registry, ttl: nat, now: nat, t: PairToken)
    requires AttachedOk(r)
    ensures var r' := HandshakeState.Reap(r, ttl, now);
      && (t in LiveTokens(r, ttl, now) ==> Remembered(r', t) && SameState(r, r', t))
      && (t !in LiveTokens(r, ttl, now) ==> !Remembered(r', t))
  {}

  /**
   A pass leaves exactly the peers heard of within the TTL. A token that keeps one keeps its
   session id, key history and latches; a token that keeps none is forgotten altogether.
   */
  lemma ReapForgets(r: Registry, ttl: nat, now: nat, t: PairToken, x: PeerId)
    requires HandshakeState.Inv(r)
    ensures var r' := HandshakeState.Reap(r, ttl, now);
      && (x in BucketOf(r', t) <==> FreshIn(BucketOf(r, t), x, ttl, now))
      && (Remembered(r', t) <==> exists y :: FreshIn(BucketOf(r, t), y, ttl, now))
      && (Remembered(r', t) ==> SameState(r, r', t))
  {
    ReapPeers(r, ttl, now, t, x);
    LiveIff(r, ttl, now, t);
    ReapState(r, ttl, now, t);
  }

  // ---- what a registration leads to ---------------------------------------------------------

  /** The registry as this registration finds it, room made. */
  function Met(r: Registry, st: Step): Registry
    requires st.Registers?
  {
    WithRoom(r, st.q.token, st.victim)
  }

  /** The registration pairs, and a relay is configured that its holder wants a ticket for. */
  predicate Mints(r: Registry, ttl: nat, st: Step) {
    st.Registers? && st.ticket.Some? && Pairs(Met(r, st), ttl, st.q)
  }

  /** Peer `x`, known under `key`, is the partner this registration is given. */
  ghost predicate PairedWith(r: Registry, ttl: nat, st: Step, x: PeerId, key: Identity) {
    && st.Registers? && !Crowded(Met(r, st), st.q) && PartnerWaits(Met(r, st), ttl, st.q, x)
    && Met(r, st).waiting[st.q.token][x].pubkey == Some(key)
  }

  /** The tokens a step forgets: the evicted one, or the reaped ones. */
  function Forgotten(r: Registry, ttl: nat, st: Step): set<PairToken> {
    match st
    case Registers(_, victim, _) => if Evicts(r, st) then {victim} else {}
    case Reaps(now) => r.waiting.Keys - LiveTokens(r, ttl, now)
  }

  /** A registration that pairs found its token waiting, so it evicted nobody. */
  lemma MintsEvictsNobody(r: Registry, ttl: nat, st: Step)
    requires Mints(r, ttl, st)
    ensures st.q.token in r.waiting && Met(r, st) == r
  {
    PairsIff(Met(r, st), ttl, st.q);
  }

  function Assigned(sids: map<PairToken, Token>, t: PairToken, freshSid: Token): map<PairToken, Token> {
    match SidFor(sids, t, freshSid)
    case None => sids
    case Some(sid) => sids[t := sid]
  }

  lemma CompletedKeeps(r: Registry, pairs: bool, t: PairToken, ticket: Option<Token>)
    ensures Completed(r, pairs, t, ticket).sids ==
      if pairs && ticket.Some? then Assigned(r.sids, t, ticket.value) else r.sids
    ensures Completed(r, pairs, t, ticket).waiting == r.waiting
  {}

  lemma RegisterSids(r: Registry, ttl: nat, st: Step)
    requires st.Registers?
    ensures !Mints(r, ttl, st) ==> Next(r, ttl, st).sids == r.sids - Forgotten(r, ttl, st)
    ensures Mints(r, ttl, st) ==> Next(r, ttl, st).sids == Assigned(r.sids, st.q.token, st.ticket.value)
  {
    UpsertKeepsSids(Met(r, st), ttl, st.q);
    CompletedKeeps(Upsert(Met(r, st), ttl, st.q), Pairs(Met(r, st), ttl, st.q), st.q.token, st.ticket);
    if Mints(r, ttl, st) {
      MintsEvictsNobody(r, ttl, st);
    } else {
      assert Met(r, st).sids == r.sids - Forgotten(r, ttl, st);
    }
  }

  // ---- a peer keeps its key -------------------------------------------------------------------

  /** If `x` waits on `t`, it is known under `key`. */
  predicate KnownAs(r: Registry, t: PairToken, x: PeerId, key: Identity) {
    x in BucketOf(r, t) ==> BucketOf(r, t)[x].pubkey == Some(key)
  }

  predicate Names(st: Step, t: PairToken, x: PeerId, key: Identity) {
    st.Registers? && st.q.token == t && st.q.id == x ==> st.q.pubkey == Some(key)
  }

  lemma NewBucketKnown(b: Bucket, q: Request, ttl: nat, x: PeerId, key: Identity)
    requires x in b ==> b[x].pubkey == Some(key)
    requires q.id == x ==> q.pubkey == Some(key)
    ensures var b' := Expired(Seated(b, q), q.id, ttl, q.now);
      x in b' ==> b'[x].pubkey == Some(key)
  {}

  lemma UpsertWaiting(r: Registry, ttl: nat, q: Request)
    ensures Upsert(r, ttl, q).waiting == if Crowded(r, q) then r.waiting else r.waiting[q.token := NewBucket(r, ttl, q)]
  {
    if !Crowded(r, q) {
      TrackWaiting(Seat(r, q.token, NewBucket(r, ttl, q)), q.token, q.pubkey);
    }
  }

  lemma UpsertKnown(r: Registry, ttl: nat, q: Request, t: PairToken, x: PeerId, key: Identity)
    requires KnownAs(r, t, x, key) && (q.token == t && q.id == x ==> q.pubkey == Some(key))
    ensures KnownAs(Upsert(r, ttl, q), t, x, key)
  {
    UpsertWaiting(r, ttl, q);
    if q.token == t {
      NewBucketKnown(BucketOf(r, t), q, ttl, x, key);
    }
  }

  lemma RegisterWaiting(r: Registry, ttl: nat, st: Step)
    requires st.Registers?
    ensures Next(r, ttl, st).waiting == Upsert(Met(r, st), ttl, st.q).waiting
  {
    CompletedKeeps(Upsert(Met(r, st), ttl, st.q), Pairs(Met(r, st), ttl, st.q), st.q.token, st.ticket);
  }

  lemma MetKnown(r: Registry, st: Step, t: PairToken, x: PeerId, key: Identity)
    requires KnownAs(r, t, x, key) && st.Registers?
    ensures KnownAs(Met(r, st), t, x, key)
  {}

  lemma ReapKnown(r: Registry, ttl: nat, now: nat, t: PairToken, x: PeerId, key: Identity)
    requires KnownAs(r, t, x, key)
    ensures KnownAs(HandshakeState.Reap(r, ttl, now), t, x, key)
  {}

  lemma StepKnown(r: Registry, ttl: nat, st: Step, t: PairToken, x: PeerId, key: Identity)
    requires KnownAs(r, t, x, key) && Names(st, t, x, key)
    ensures KnownAs(Next(r, ttl, st), t, x, key)
  {
    match st
    case Registers(q, _, _) =>
      MetKnown(r, st, t, x, key);
      UpsertKnown(Met(r, st), ttl, q, t, x, key);
      RegisterWaiting(r, ttl, st);
    case Reaps(now) => ReapKnown(r, ttl, now, t, x, key);
  }

  lemma RegisteredKnown(r: Registry, ttl: nat, st: Step)
    requires Mints(r, ttl, st) && st.q.pubkey.Some?
    ensures KnownAs(Next(r, ttl, st), st.q.token, st.q.id, st.q.pubkey.value)
  {
    RegisterWaiting(r, ttl, st);
    UpsertWaiting(Met(r, st), ttl, st.q);
  }
}
