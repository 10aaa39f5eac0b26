/**
 The handshake server's registry (internal/role/handshake.go): buckets of waiting
 peers per token, and four maps that live and die with the token. One registration is
 one step: upsert, then the paired-once latch, then the relay session id.
 */
module HandshakeState {
  import opened Common
  import opened RelayState
  import opened Tickets

  const MAX_IDS_PER_TOKEN := 2
  const MAX_CANDS_PER_PEER := 8
  const EVICT_SAMPLE := 8

  datatype PeerId = PeerId(id: int)

  datatype Peer = Peer(pubkey: Option<Identity>, cands: set<Addr>, seen: nat)

  type Bucket = map<PeerId, Peer>

  datatype Registry = Registry(
    waiting: map<PairToken, Bucket>,
    seenPKs: map<PairToken, set<Identity>>,
    warned: set<PairToken>,
    paired: set<PairToken>,
    sids: map<PairToken, Token>)

  const NO_PEERS := Registry(map[], map[], {}, {}, map[])

  /** Everything about a token goes at once. */
  function Forget(r: Registry, t: PairToken): Registry {
    Registry(r.waiting - {t}, r.seenPKs - {t}, r.warned - {t}, r.paired - {t}, r.sids - {t})
  }

  // ---- registering ------------------------------------------------------------------

  datatype Request = Request(token: PairToken, id: PeerId, pubkey: Option<Identity>, src: Addr, now: nat)

  function Observe(p: Peer, src: Addr, now: nat): Peer {
    p.(seen := now, cands := if src !in p.cands && |p.cands| >= MAX_CANDS_PER_PEER then p.cands else p.cands + {src})
  }

  /** The one-time warning latch, bounded like the tokens themselves. */
  function Latch(s: set<PairToken>, t: PairToken): set<PairToken> {
    if |s| >= MAX_TOKENS then s else s + {t}
  }

  function BucketOf(r: Registry, t: PairToken): Bucket {
    if t in r.waiting then r.waiting[t] else map[]
  }

  function KnownKeys(r: Registry, t: PairToken): set<Identity> {
    if t in r.seenPKs then r.seenPKs[t] else {}
  }

  /** A third distinct key on a token is remembered and warned about once; a fourth is neither. */
  function Track(r: Registry, t: PairToken, pk: Option<Identity>): Registry {
    if pk.None? then r
    else if pk.value in KnownKeys(r, t) || |KnownKeys(r, t)| >= MAX_IDS_PER_TOKEN + 1 then
      r.(seenPKs := r.seenPKs[t := KnownKeys(r, t)])
    else
      r.(seenPKs := r.seenPKs[t := KnownKeys(r, t) + {pk.value}],
         warned := if |KnownKeys(r, t)| >= MAX_IDS_PER_TOKEN then Latch(r.warned, t) else r.warned)
  }

  predicate Fresh(p: Peer, ttl: nat, now: nat) {
    now - p.seen <= ttl
  }

  function Seated(b: Bucket, q: Request): Bucket {
    var self := if q.id in b then b[q.id] else Peer(None, {}, 0);
    b[q.id := Observe(if q.pubkey.Some? then self.(pubkey := q.pubkey) else self, q.src, q.now)]
  }

  /** Peers not heard of for longer than the TTL are dropped on the way. */
  function Expired(b: Bucket, self: PeerId, ttl: nat, now: nat): Bucket {
    map x | x in b && (x == self || Fresh(b[x], ttl, now)) :: b[x]
  }

  predicate Crowded(r: Registry, q: Request) {
    q.id !in BucketOf(r, q.token) && |BucketOf(r, q.token)| >= MAX_IDS_PER_TOKEN
  }

  /** Room for a new token is made by forgetting `victim`. */
  function WithRoom(r: Registry, t: PairToken, victim: PairToken): Registry {
    if t !in r.waiting && |r.waiting| >= MAX_TOKENS then Forget(r, victim) else r
  }

  function NewBucket(r: Registry, ttl: nat, q: Request): Bucket {
    Expired(Seated(BucketOf(r, q.token), q), q.id, ttl, q.now)
  }

  predicate HasPartner(b: Bucket, self: PeerId) {
    exists x :: x in b && x != self
  }

  function Upsert(r: Registry, ttl: nat, q: Request): Registry {
    if Crowded(r, q) then r.(warned := if q.token in r.warned then r.warned else Latch(r.warned, q.token))
    else Settled(r, q, NewBucket(r, ttl, q))
  }

  /** The token has bucket `b` now, and is not paired any more if nobody else is in it. */
  function Settled(r: Registry, q: Request, b: Bucket): Registry {
    var r' := Track(Seat(r, q.token, b), q.token, q.pubkey);
    if HasPartner(b, q.id) then r' else r'.(paired := r'.paired - {q.token})
  }

  function Seat(r: Registry, t: PairToken, b: Bucket): Registry {
    r.(waiting := r.waiting[t := b])
  }

  predicate Pairs(r: Registry, ttl: nat, q: Request) {
    !Crowded(r, q) && HasPartner(NewBucket(r, ttl, q), q.id)
  }

  function NotePaired(r: Registry, t: PairToken): Registry {
    r.(paired := if t in r.paired then r.paired else Latch(r.paired, t))
  }

  function AssignSid(r: Registry, t: PairToken, freshSid: Token): Registry {
    match SidFor(r.sids, t, freshSid)
    case None => r
    case Some(sid) => r.(sids := r.sids[t := sid])
  }

  /** What follows the upsert, if it found a partner. */
  function Completed(r: Registry, pairs: bool, t: PairToken, ticket: Option<Token>): Registry {
    if !pairs then r
    else if ticket.None? then NotePaired(r, t)
    else AssignSid(NotePaired(r, t), t, ticket.value)
  }

  /** One whole registration; a ticket is minted only for a completed pairing. */
  function Register(r: Registry, ttl: nat, q: Request, victim: PairToken, ticket: Option<Token>): Registry {
    var r1 := WithRoom(r, q.token, victim);
    Completed(Upsert(r1, ttl, q), Pairs(r1, ttl, q), q.token, ticket)
  }

  /** What is known of a peer, nothing if it is not there. */
  function PeerIn(b: Bucket, x: PeerId): Peer {
    if x in b then b[x] else Peer(None, {}, 0)
  }

  /**
   A seated registration is on record: with its time, its key if it gave one, and its source
   address unless that would be a ninth candidate. The others on the token stay as they were
   or go for being silent too long.
   */
  lemma SeatIsRecorded(r: Registry, ttl: nat, q: Request, x: PeerId)
    requires !Crowded(r, q)
    ensures q.token in Upsert(r, ttl, q).waiting
    ensures Recorded(BucketOf(r, q.token), Upsert(r, ttl, q).waiting[q.token], ttl, q, x)
  {
    TrackWaiting(Seat(r, q.token, NewBucket(r, ttl, q)), q.token, q.pubkey);
    BucketRecorded(BucketOf(r, q.token), ttl, q, x);
  }

  predicate Recorded(was: Bucket, b: Bucket, ttl: nat, q: Request, x: PeerId) {
    && q.id in b && b[q.id].seen == q.now
    && b[q.id].pubkey == (if q.pubkey.Some? then q.pubkey else PeerIn(was, q.id).pubkey)
    && b[q.id].cands == (if |PeerIn(was, q.id).cands| < 8 then PeerIn(was, q.id).cands + {q.src}
                         else PeerIn(was, q.id).cands)
    && (x != q.id ==> (x in b <==> x in was && q.now - was[x].seen <= ttl) && (x in b ==> b[x] == was[x]))
  }

  lemma BucketRecorded(was: Bucket, ttl: nat, q: Request, x: PeerId)
    ensures Recorded(was, Expired(Seated(was, q), q.id, ttl, q.now), ttl, q, x)
  {
    var b := Seated(was, q);
    ObserveRecords(if q.pubkey.Some? then PeerIn(was, q.id).(pubkey := q.pubkey) else PeerIn(was, q.id), q.src, q.now);
    assert Expired(b, q.id, ttl, q.now)[q.id] == b[q.id];
    if x != q.id && x in was {
      assert b[x] == was[x];
    }
  }

  lemma ObserveRecords(p: Peer, src: Addr, now: nat)
    ensures Observe(p, src, now)
            == p.(seen := now, cands := if |p.cands| < 8 then p.cands + {src} else p.cands)
  {
    if src in p.cands {
      assert p.cands + {src} == p.cands;
    }
  }

  lemma TrackWaiting(r: Registry, t: PairToken, pk: Option<Identity>)
    ensures Track(r, t, pk).waiting == r.waiting
  {}

  /** No other token is touched. */
  lemma SeatElsewhere(r: Registry, ttl: nat, q: Request, t: PairToken)
    requires t != q.token
    ensures var r' := Upsert(r, ttl, q);
      && (t in r'.waiting <==> t in r.waiting) && (t in r.waiting ==> r'.waiting[t] == r.waiting[t])
      && (t in r'.paired <==> t in r.paired) && (t in r'.warned <==> t in r.warned)
      && KnownKeys(r', t) == KnownKeys(r, t) && r'.sids == r.sids
  {
    if !Crowded(r, q) {
      SettledElsewhere(r, q, NewBucket(r, ttl, q), t);
    }
  }

  lemma SettledElsewhere(r: Registry, q: Request, b: Bucket, t: PairToken)
    requires t != q.token
    ensures var r' := Settled(r, q, b);
      && (t in r'.waiting <==> t in r.waiting) && (t in r.waiting ==> r'.waiting[t] == r.waiting[t])
      && (t in r'.paired <==> t in r.paired) && (t in r'.warned <==> t in r.warned)
      && KnownKeys(r', t) == KnownKeys(r, t) && r'.sids == r.sids
  {
    TrackElsewhere(Seat(r, q.token, b), q.token, q.pubkey, t);
  }

  lemma TrackElsewhere(r: Registry, u: PairToken, pk: Option<Identity>, t: PairToken)
    requires t != u
    ensures var r' := Track(r, u, pk);
      && r'.waiting == r.waiting && r'.paired == r.paired && r'.sids == r.sids
      && (t in r'.warned <==> t in r.warned) && KnownKeys(r', t) == KnownKeys(r, t)
  {}

  /** A token's keys are remembered up to the third; the third key and a third peer raise the one warning. */
  lemma KeysAreTracked(r: Registry, ttl: nat, q: Request)
    requires !Crowded(r, q) && |r.warned| < MAX_TOKENS
    ensures var r', known := Upsert(r, ttl, q), KnownKeys(r, q.token);
      && (q.pubkey.None? ==> KnownKeys(r', q.token) == known && r'.warned == r.warned)
      && (q.pubkey.Some? ==> KnownKeys(r', q.token) == if |known| < 3 then known + {q.pubkey.value} else known)
      && (q.pubkey.Some? && q.pubkey.value !in known && |known| == 2 ==> r'.warned == r.warned + {q.token})
      && (q.pubkey.Some? && (q.pubkey.value in known || |known| != 2) ==> r'.warned == r.warned)
  {
    SettledKeys(r, q, NewBucket(r, ttl, q));
  }

  lemma SettledKeys(r: Registry, q: Request, b: Bucket)
    requires |r.warned| < MAX_TOKENS
    ensures var r', known := Settled(r, q, b), KnownKeys(r, q.token);
      && (q.pubkey.None? ==> KnownKeys(r', q.token) == known && r'.warned == r.warned)
      && (q.pubkey.Some? ==> KnownKeys(r', q.token) == if |known| < 3 then known + {q.pubkey.value} else known)
      && (q.pubkey.Some? && q.pubkey.value !in known && |known| == 2 ==> r'.warned == r.warned + {q.token})
      && (q.pubkey.Some? && (q.pubkey.value in known || |known| != 2) ==> r'.warned == r.warned)
  {
    var seated := Seat(r, q.token, b);
    SettledAsTracked(r, q, b);
    assert KnownKeys(seated, q.token) == KnownKeys(r, q.token) && seated.warned == r.warned;
    if q.pubkey.Some? {
      TrackKeys(seated, q.token, q.pubkey.value);
    }
  }

  lemma SettledAsTracked(r: Registry, q: Request, b: Bucket)
    ensures var r', tracked := Settled(r, q, b), Track(Seat(r, q.token, b), q.token, q.pubkey);
      KnownKeys(r', q.token) == KnownKeys(tracked, q.token) && r'.warned == tracked.warned
  {}

  lemma TrackKeys(r: Registry, t: PairToken, pk: Identity)
    requires |r.warned| < MAX_TOKENS
    ensures var r', known := Track(r, t, Some(pk)), KnownKeys(r, t);
      && KnownKeys(r', t) == (if |known| < 3 then known + {pk} else known)
      && r'.warned == if pk !in known && |known| == 2 then r.warned + {t} else r.warned
  {
    var known := KnownKeys(r, t);
    if pk in known {
      assert known + {pk} == known;
    }
  }

  /** A third peer on a token is turned away with a warning and changes nothing else. */
  lemma ThirdPeerIsWarned(r: Registry, ttl: nat, q: Request)
    requires q.token in r.waiting && q.id !in r.waiting[q.token] && |r.waiting[q.token]| >= 2 && |r.warned| < MAX_TOKENS
    ensures Upsert(r, ttl, q) == r.(warned := r.warned + {q.token})
  {}

  // ---- reaping ---------------------------------------------------------------------------

  function FreshPeers(b: Bucket, ttl: nat, now: nat): Bucket {
    map x | x in b && Fresh(b[x], ttl, now) :: b[x]
  }

  function LiveTokens(r: Registry, ttl: nat, now: nat): set<PairToken> {
    set t | t in r.waiting && FreshPeers(r.waiting[t], ttl, now) != map[]
  }

  /** A pass: stale peers go, and a token without peers goes with all its state. */
  function Reap(r: Registry, ttl: nat, now: nat): Registry {
    var dead := r.waiting.Keys - LiveTokens(r, ttl, now);
    Registry(map t | t in LiveTokens(r, ttl, now) :: FreshPeers(r.waiting[t], ttl, now),
             r.seenPKs - dead, r.warned - dead, r.paired - dead, r.sids - dead)
  }

  // ---- what always holds -------------------------------------------------------------------

  ghost predicate BucketOk(b: Bucket) {
    && 1 <= |b| <= MAX_IDS_PER_TOKEN
    && forall x :: x in b ==> |b[x].cands| <= MAX_CANDS_PER_PEER
  }

  ghost predicate WaitingOk(w: map<PairToken, Bucket>) {
    |w| <= MAX_TOKENS && forall t :: t in w ==> BucketOk(w[t])
  }

  /** Latches, key histories and session ids only mention live tokens. */
  ghost predicate AttachedOk(r: Registry) {
    && (forall t :: t in r.seenPKs ==> t in r.waiting && |r.seenPKs[t]| <= MAX_IDS_PER_TOKEN + 1)
    && r.sids.Keys <= r.waiting.Keys
    && r.warned <= r.waiting.Keys && r.paired <= r.waiting.Keys
  }

  ghost predicate Inv(r: Registry) {
    WaitingOk(r.waiting) && AttachedOk(r)
  }

  lemma ForgetInv(r: Registry, t: PairToken)
    requires Inv(r)
    ensures Inv(Forget(r, t))
    ensures t in r.waiting ==> |Forget(r, t).waiting| == |r.waiting| - 1
  {
    DropSize(r.waiting, t);
  }

  lemma SeatedOk(b: Bucket, q: Request)
    requires b == map[] || BucketOk(b)
    requires q.id in b || |b| < MAX_IDS_PER_TOKEN
    ensures BucketOk(Seated(b, q))
  {}

  lemma ExpiredOk(b: Bucket, self: PeerId, ttl: nat, now: nat)
    requires BucketOk(b) && self in b
    ensures BucketOk(Expired(b, self, ttl, now))
  {
    var e := Expired(b, self, ttl, now);
    SubmapSize(e, b);
    assert self in e.Keys && |e| == |e.Keys|;
  }

  /** The bucket a registration leaves behind is never empty and never over its caps. */
  lemma NewBucketOk(r: Registry, ttl: nat, q: Request)
    requires Inv(r) && !Crowded(r, q)
    ensures BucketOk(NewBucket(r, ttl, q)) && q.id in NewBucket(r, ttl, q)
  {
    SeatedOk(BucketOf(r, q.token), q);
    ExpiredOk(Seated(BucketOf(r, q.token), q), q.id, ttl, q.now);
  }

  lemma SeatInv(r: Registry, t: PairToken, b: Bucket)
    requires Inv(r) && BucketOk(b) && (t in r.waiting || |r.waiting| < MAX_TOKENS)
    ensures Inv(Seat(r, t, b))
  {
    PutSize(r.waiting, t, b);
  }

  lemma TrackInv(r: Registry, t: PairToken, pk: Option<Identity>)
    requires Inv(r) && t in r.waiting
    ensures Inv(Track(r, t, pk)) && Track(r, t, pk).waiting == r.waiting
  {
    assert Track(r, t, pk).waiting == r.waiting;
    TrackAttached(r, t, pk);
  }

  lemma TrackAttached(r: Registry, t: PairToken, pk: Option<Identity>)
    requires AttachedOk(r) && t in r.waiting
    ensures AttachedOk(Track(r, t, pk))
  {}

  lemma UpsertInv(r: Registry, ttl: nat, q: Request)
    requires Inv(r) && (q.token in r.waiting || |r.waiting| < MAX_TOKENS)
    ensures Inv(Upsert(r, ttl, q)) && q.token in Upsert(r, ttl, q).waiting
  {
    if !Crowded(r, q) {
      NewBucketOk(r, ttl, q);
      SeatInv(r, q.token, NewBucket(r, ttl, q));
      TrackInv(Seat(r, q.token, NewBucket(r, ttl, q)), q.token, q.pubkey);
    }
  }

  lemma NotePairedInv(r: Registry, t: PairToken)
    requires Inv(r) && t in r.waiting
    ensures Inv(NotePaired(r, t))
  {}

  lemma AssignSidInv(r: Registry, t: PairToken, freshSid: Token)
    requires Inv(r) && t in r.waiting
    ensures Inv(AssignSid(r, t, freshSid))
  {}

  lemma WithRoomInv(r: Registry, t: PairToken, victim: PairToken)
    requires Inv(r) && (t in r.waiting || |r.waiting| < MAX_TOKENS || victim in r.waiting)
    ensures Inv(WithRoom(r, t, victim))
    ensures t in WithRoom(r, t, victim).waiting || |WithRoom(r, t, victim).waiting| < MAX_TOKENS
  {
    ForgetInv(r, victim);
  }

  /** Every registration, evicting or not, rejected or not, keeps the registry within its bounds. */
  lemma RegisterInv(r: Registry, ttl: nat, q: Request, victim: PairToken, ticket: Option<Token>)
    requires Inv(r) && (q.token in r.waiting || |r.waiting| < MAX_TOKENS || victim in r.waiting)
    ensures Inv(Register(r, ttl, q, victim, ticket))
  {
    WithRoomInv(r, q.token, victim);
    var r2 := Upsert(WithRoom(r, q.token, victim), ttl, q);
    UpsertInv(WithRoom(r, q.token, victim), ttl, q);
    NotePairedInv(r2, q.token);
    if ticket.Some? {
      AssignSidInv(NotePaired(r2, q.token), q.token, ticket.value);
    }
  }

  /** A subset of at most `n` tokens that lacks one of them has fewer. */
  lemma OneShort(a: set<PairToken>, b: set<PairToken>, t: PairToken)
    requires a <= b && t in b && t !in a
    ensures |a| < |b|
  {
    SubsetSize(a, b - {t});
  }

  lemma TrackPaired(r: Registry, t: PairToken, pk: Option<Identity>)
    ensures Track(r, t, pk).paired == r.paired
  {}

  /** The latches never fill up: a token that is known can always be latched. */
  lemma LatchHolds(r: Registry, s: set<PairToken>, t: PairToken)
    requires Inv(r) && t in r.waiting && s <= r.waiting.Keys
    ensures t in (if t in s then s else Latch(s, t)) && Latch(s, t) <= r.waiting.Keys
  {
    if t !in s {
      OneShort(s, r.waiting.Keys, t);
    }
    assert |r.waiting.Keys| == |r.waiting|;
  }

  lemma UpsertPaired(r: Registry, ttl: nat, q: Request)
    requires !Crowded(r, q)
    ensures var r', b := Upsert(r, ttl, q), NewBucket(r, ttl, q);
      BucketOf(r', q.token) == b && (q.token in r'.paired <==> q.token in r.paired && HasPartner(b, q.id))
  {
    var r1 := Seat(r, q.token, NewBucket(r, ttl, q));
    TrackPaired(r1, q.token, q.pubkey);
    TrackWaiting(r1, q.token, q.pubkey);
  }

  lemma CompletedPaired(r: Registry, pairs: bool, t: PairToken, ticket: Option<Token>)
    requires Inv(r) && t in r.waiting
    ensures var r' := Completed(r, pairs, t, ticket);
      BucketOf(r', t) == BucketOf(r, t) && (t in r'.paired <==> pairs || t in r.paired)
  {
    LatchHolds(r, r.paired, t);
  }

  /**
   After a registration that found room its token is latched as paired exactly if someone else
   is on it: the pairing is counted once, and again only after one of the two was alone.
   */
  lemma PairedIff(r: Registry, ttl: nat, q: Request, ticket: Option<Token>)
    requires Inv(r) && (q.token in r.waiting || |r.waiting| < MAX_TOKENS) && !Crowded(r, q)
    ensures var r' := Completed(Upsert(r, ttl, q), Pairs(r, ttl, q), q.token, ticket);
      q.token in r'.paired <==> exists x :: x in BucketOf(r', q.token) && x != q.id
  {
    UpsertInv(r, ttl, q);
    UpsertPaired(r, ttl, q);
    CompletedPaired(Upsert(r, ttl, q), Pairs(r, ttl, q), q.token, ticket);
  }

  lemma FreshPeersOk(b: Bucket, ttl: nat, now: nat)
    requires BucketOk(b) && FreshPeers(b, ttl, now) != map[]
    ensures BucketOk(FreshPeers(b, ttl, now))
  {
    var f := FreshPeers(b, ttl, now);
    SubmapSize(f, b);
    assert |f| != 0;
  }

  lemma ReapInv(r: Registry, ttl: nat, now: nat)
    requires Inv(r)
    ensures Inv(Reap(r, ttl, now))
  {
    ReapWaiting(r, ttl, now);
  }

  lemma ReapShrinks(r: Registry, ttl: nat, now: nat)
    ensures |Reap(r, ttl, now).waiting| <= |r.waiting|
  {
    var w := Reap(r, ttl, now).waiting;
    assert w.Keys == LiveTokens(r, ttl, now);
    SubmapSize(w, r.waiting);
  }

  lemma ReapWaiting(r: Registry, ttl: nat, now: nat)
    requires WaitingOk(r.waiting)
    ensures WaitingOk(Reap(r, ttl, now).waiting)
  {
    var w := Reap(r, ttl, now).waiting;
    ReapShrinks(r, ttl, now);
    forall t | t in w ensures BucketOk(w[t]) {
      FreshPeersOk(r.waiting[t], ttl, now);
    }
  }
}
