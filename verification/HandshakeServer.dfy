/**
 The registry as the server updates it (internal/role/handshake.go): maps changed in
 place, walked in any order. Every method leaves the state `HandshakeState` names.
 */
module HandshakeServer {
  import opened Common
  import opened RelayState
  import opened Tickets
  import opened HandshakeState
  import opened HandshakeRuns

  /** How recently a bucket saw any activity. */
  method BucketSeen(b: Bucket) returns (newest: nat)
    ensures newest == Newest(b)
  {
    newest := 0;
    var todo := b.Keys;
    while todo != {}
      invariant todo <= b.Keys
      invariant forall x :: x in b && x !in todo ==> b[x].seen <= newest
      invariant newest == 0 || exists x :: x in b && b[x].seen == newest
      decreases todo
    {
      var x := Pick(todo);
      todo := todo - {x};
      if b[x].seen > newest {
        newest := b[x].seen;
      }
    }
    NewestIs(b, newest);
  }

  /** The stalest of the first eight buckets a walk meets. */
  method FindStalest(w: map<PairToken, Bucket>) returns (victim: PairToken, ghost sample: set<PairToken>)
    requires w != map[]
    ensures sample <= w.Keys && (|sample| == EVICT_SAMPLE || sample == w.Keys)
    ensures victim in sample && forall t :: t in sample ==> Newest(w[victim]) <= Newest(w[t])
  {
    var todo := w.Keys;
    victim := Pick(todo);
    todo := todo - {victim};
    var oldest := BucketSeen(w[victim]);
    var seen := 1;
    sample := {victim};
    while todo != {} && seen < EVICT_SAMPLE
      invariant todo == w.Keys - sample && sample <= w.Keys && |sample| == seen <= EVICT_SAMPLE
      invariant victim in sample && oldest == Newest(w[victim])
      invariant forall t :: t in sample ==> oldest <= Newest(w[t])
      decreases todo
    {
      var t := Pick(todo);
      todo := todo - {t};
      sample := sample + {t};
      var age := BucketSeen(w[t]);
      if age < oldest {
        victim, oldest := t, age;
      }
      seen := seen + 1;
    }
  }

  /** A partner found in the new bucket was waiting there before. */
  lemma PartnerSeated(r: Registry, ttl: nat, q: Request, partner: Option<PeerId>)
    requires !Crowded(r, q)
    requires partner.None? <==> !HasPartner(NewBucket(r, ttl, q), q.id)
    requires partner.Some? ==> partner.value in NewBucket(r, ttl, q) && partner.value != q.id
    ensures partner.Some? <==> Pairs(r, ttl, q)
    ensures partner.Some? ==> PartnerWaits(r, ttl, q, partner.value)
  {}

  class Server {
    const ttl: nat
    var waiting: map<PairToken, Bucket>
    var seenPKs: map<PairToken, set<Identity>>
    var warned: set<PairToken>
    var paired: set<PairToken>
    var sids: map<PairToken, Token>

    ghost function Abs(): Registry
      reads this
    {
      Registry(waiting, seenPKs, warned, paired, sids)
    }

    constructor (ttl: nat)
      ensures Abs() == NO_PEERS && HandshakeState.Inv(Abs()) && this.ttl == ttl
    {
      this.ttl := ttl;
      waiting, seenPKs, warned, paired, sids := map[], map[], {}, {}, map[];
    }

    method Warn(t: PairToken)
      modifies this`warned
      ensures warned == if t in old(warned) then old(warned) else Latch(old(warned), t)
    {
      if t in warned || |warned| >= MAX_TOKENS {
        return;
      }
      warned := warned + {t};
    }

    method ForgetToken(t: PairToken)
      modifies this
      ensures Abs() == Forget(old(Abs()), t)
    {
      waiting := waiting - {t};
      seenPKs := seenPKs - {t};
      warned := warned - {t};
      paired := paired - {t};
      sids := sids - {t};
    }

    /** Free one slot by forgetting an old token. */
    method EvictStalest() returns (victim: PairToken)
      requires waiting != map[]
      modifies this
      ensures Abs() == Forget(old(Abs()), victim)
      ensures exists sample :: StalestOf(old(Abs()), sample, victim)
    {
      ghost var sample;
      victim, sample := FindStalest(waiting);
      assert StalestOf(Abs(), sample, victim);
      ForgetToken(victim);
    }

    /** Remember the key and warn once about a third one. */
    method TrackKey(t: PairToken, pk: Option<Identity>)
      modifies this`seenPKs, this`warned
      ensures Abs() == Track(old(Abs()), t, pk)
    {
      if pk.None? {
        return;
      }
      var known := if t in seenPKs then seenPKs[t] else {};
      if pk.value !in known && |known| < MAX_IDS_PER_TOKEN + 1 {
        if |known| >= MAX_IDS_PER_TOKEN && t !in warned && |warned| < MAX_TOKENS {
          warned := warned + {t};
        }
        known := known + {pk.value};
      }
      seenPKs := seenPKs[t := known];
    }

    /** Seat the peer in its token's bucket and look for a live partner. */
    method UpsertPeer(q: Request) returns (ok: bool, partner: Option<PeerId>, ghost victim: PairToken)
      requires HandshakeState.Inv(Abs())
      modifies this
      ensures var r := WithRoom(old(Abs()), q.token, victim);
        && Abs() == Upsert(r, ttl, q)
        && (ok <==> !Crowded(r, q))
        && (partner.Some? <==> Pairs(r, ttl, q))
        && (partner.Some? ==> PartnerWaits(r, ttl, q, partner.value))
      ensures q.token !in old(waiting) && |old(waiting)| >= MAX_TOKENS
              ==> exists sample :: StalestOf(old(Abs()), sample, victim)
    {
      victim := q.token;
      if q.token !in waiting && |waiting| >= MAX_TOKENS {
        ghost var r0 := Abs();
        var evicted := EvictStalest();
        victim := evicted;
        ForgetInv(r0, victim);
      }
      ok, partner := SeatPeer(q);
    }

    method SeatPeer(q: Request) returns (ok: bool, partner: Option<PeerId>)
      requires HandshakeState.Inv(Abs())
      modifies this
      ensures Abs() == Upsert(old(Abs()), ttl, q)
      ensures ok <==> !Crowded(old(Abs()), q)
      ensures partner.Some? <==> Pairs(old(Abs()), ttl, q)
      ensures partner.Some? ==> PartnerWaits(old(Abs()), ttl, q, partner.value)
    {
      ghost var r := Abs();
      var b := if q.token in waiting then waiting[q.token] else map[];
      if q.id !in b && |b| >= MAX_IDS_PER_TOKEN {
        Warn(q.token);
        return false, None;
      }
      SeatedOk(b, q);
      b, partner := FindPartner(Seated(b, q), q.id, q.now);
      PartnerSeated(r, ttl, q, partner);
      waiting := waiting[q.token := b];
      TrackKey(q.token, q.pubkey);
      if partner.None? {
        paired := paired - {q.token};
      }
      ok := true;
    }

    /** Walk the bucket: drop stale others, stop at the first live one. */
    method FindPartner(b: Bucket, self: PeerId, now: nat) returns (after: Bucket, partner: Option<PeerId>)
      requires BucketOk(b) && self in b
      ensures after == Expired(b, self, ttl, now)
      ensures partner.None? <==> !HasPartner(after, self)
      ensures partner.Some? ==> partner.value in after && partner.value != self && Fresh(b[partner.value], ttl, now)
    {
      after, partner := b, None;
      var todo := b.Keys - {self};
      OtherAtMostOne(b, self);
      while todo != {} && partner.None?
        invariant todo <= b.Keys - {self}
        invariant partner.None? ==> after == map x | x in b && (x == self || x in todo || Fresh(b[x], ttl, now)) :: b[x]
        invariant partner.None? ==> forall x :: x in b && x != self && x !in todo ==> !Fresh(b[x], ttl, now)
        invariant partner.Some? ==> todo == {} && partner.value in b && partner.value != self
                                    && Fresh(b[partner.value], ttl, now) && after == b
        decreases todo
      {
        var x := Pick(todo);
        assert b.Keys == {self, x};
        todo := todo - {x};
        if Fresh(b[x], ttl, now) {
          partner := Some(x);
        } else {
          after := after - {x};
        }
      }
    }

    /** Drop a bucket's stale peers. */
    method SweepBucket(b: Bucket, now: nat) returns (after: Bucket)
      ensures after == FreshPeers(b, ttl, now)
    {
      after := b;
      var todo := b.Keys;
      while todo != {}
        invariant todo <= b.Keys
        invariant after == map x | x in b && (x in todo || Fresh(b[x], ttl, now)) :: b[x]
        decreases todo
      {
        var x := Pick(todo);
        todo := todo - {x};
        if !Fresh(b[x], ttl, now) {
          after := after - {x};
        }
      }
    }

    /** One token's turn in a pass. */
    method SweepToken(t: PairToken, now: nat)
      requires t in waiting
      modifies this
      ensures Abs() == if FreshPeers(old(waiting)[t], ttl, now) == map[] then Forget(old(Abs()), t)
                       else Seat(old(Abs()), t, FreshPeers(old(waiting)[t], ttl, now))
    {
      var b := SweepBucket(waiting[t], now);
      if b == map[] {
        ForgetToken(t);
      } else {
        waiting := waiting[t := b];
      }
    }

    /** A reaper pass over every token, in any order. */
    method ReapPass(now: nat)
      modifies this
      ensures Abs() == HandshakeState.Reap(old(Abs()), ttl, now)
    {
      ghost var r, done := Abs(), {};
      var todo := waiting.Keys;
      SweptNone(r, ttl, now);
      while todo != {}
        invariant done == r.waiting.Keys - todo && todo <= r.waiting.Keys
        invariant Abs() == Swept(r, ttl, now, done)
        decreases todo
      {
        var t := Pick(todo);
        SweptTurn(r, ttl, now, done, t);
        SweepToken(t, now);
        todo := todo - {t};
        done := done + {t};
      }
      assert done == r.waiting.Keys;
      SweptAll(r, ttl, now);
    }

    /** Is this the moment the token became paired? */
    method NotePairedOnce(t: PairToken) returns (first: bool)
      modifies this`paired
      ensures Abs() == NotePaired(old(Abs()), t)
      ensures first <==> t !in old(paired) && t in paired
    {
      if t in paired || |paired| >= MAX_TOKENS {
        return false;
      }
      paired := paired + {t};
      return true;
    }

    /** The token's relay session id, minted on first use. */
    method SidOf(t: PairToken, freshSid: Token) returns (sid: Option<Token>)
      modifies this`sids
      ensures sid == SidFor(old(sids), t, freshSid) && Abs() == AssignSid(old(Abs()), t, freshSid)
    {
      if t in sids {
        assert sids[t := sids[t]] == sids;
        return Some(sids[t]);
      }
      if |sids| >= MAX_TOKENS {
        return None;
      }
      sids := sids[t := freshSid];
      return Some(freshSid);
    }

    /** A whole registration: upsert, latch, session id. */
    method RegisterPeer(q: Request, ticket: Option<Token>)
      returns (ok: bool, partner: Option<PeerId>, sid: Option<Token>, ghost victim: PairToken)
      requires HandshakeState.Inv(Abs())
      modifies this
      ensures HandshakeRuns.Legal(old(Abs()), Registers(q, victim, ticket))
      ensures Abs() == Register(old(Abs()), ttl, q, victim, ticket) && HandshakeState.Inv(Abs())
      ensures partner.Some? && ticket.Some? ==> sid.Some? && q.token in sids && sids[q.token] == sid.value
    {
      ghost var r0 := Abs();
      sid := None;
      ok, partner, victim := UpsertPeer(q);
      if q.token !in r0.waiting && |r0.waiting| >= MAX_TOKENS {
        ghost var sample :| StalestOf(r0, sample, victim);
        WithRoomInv(r0, q.token, victim);
      }
      RegisterInv(r0, ttl, q, victim, ticket);
      UpsertInv(WithRoom(r0, q.token, victim), ttl, q);
      if partner.Some? {
        NotePairedInv(Abs(), q.token);
        var _ := NotePairedOnce(q.token);
        if ticket.Some? {
          SidNeverRefused(Abs(), q.token, ticket.value);
          sid := SidOf(q.token, ticket.value);
        }
      }
    }
  }

  lemma OtherAtMostOne(b: Bucket, self: PeerId)
    requires BucketOk(b) && self in b
    ensures forall x :: x in b.Keys - {self} ==> b.Keys == {self, x}
  {
    forall x | x in b.Keys - {self} ensures b.Keys == {self, x} {
      assert |b| == |b.Keys|;
      if y :| y in b.Keys && y != self && y != x {
        SubsetSize({self, x, y}, b.Keys);
        assert false;
      }
    }
  }

  // ---- a pass half way through --------------------------------------------------------------

  /** The registry once a pass has visited the tokens in `done`. */
  ghost function Swept(r: Registry, ttl: nat, now: nat, done: set<PairToken>): Registry {
    var dead := done - LiveTokens(r, ttl, now);
    Registry(map t | t in r.waiting && t !in dead ::
                   if t in done then FreshPeers(r.waiting[t], ttl, now) else r.waiting[t],
             r.seenPKs - dead, r.warned - dead, r.paired - dead, r.sids - dead)
  }

  lemma SweptBucket(r: Registry, ttl: nat, now: nat, done: set<PairToken>, t: PairToken)
    requires t in r.waiting && t !in done
    ensures t in Swept(r, ttl, now, done).waiting && Swept(r, ttl, now, done).waiting[t] == r.waiting[t]
  {}

  lemma SweptDead(r: Registry, ttl: nat, now: nat, done: set<PairToken>, t: PairToken)
    requires t in r.waiting && t !in done && FreshPeers(r.waiting[t], ttl, now) == map[]
    ensures Swept(r, ttl, now, done + {t}) == Forget(Swept(r, ttl, now, done), t)
  {
    assert done + {t} - LiveTokens(r, ttl, now) == done - LiveTokens(r, ttl, now) + {t};
  }

  lemma SweptLive(r: Registry, ttl: nat, now: nat, done: set<PairToken>, t: PairToken)
    requires t in r.waiting && t !in done && FreshPeers(r.waiting[t], ttl, now) != map[]
    ensures Swept(r, ttl, now, done + {t}) == Seat(Swept(r, ttl, now, done), t, FreshPeers(r.waiting[t], ttl, now))
  {
    assert t in LiveTokens(r, ttl, now);
    assert done + {t} - LiveTokens(r, ttl, now) == done - LiveTokens(r, ttl, now);
  }

  lemma SweptTurn(r: Registry, ttl: nat, now: nat, done: set<PairToken>, t: PairToken)
    requires t in r.waiting && t !in done
    ensures var s, b := Swept(r, ttl, now, done), FreshPeers(r.waiting[t], ttl, now);
      && t in s.waiting && s.waiting[t] == r.waiting[t]
      && Swept(r, ttl, now, done + {t}) == if b == map[] then Forget(s, t) else Seat(s, t, b)
  {
    SweptBucket(r, ttl, now, done, t);
    if FreshPeers(r.waiting[t], ttl, now) == map[] {
      SweptDead(r, ttl, now, done, t);
    } else {
      SweptLive(r, ttl, now, done, t);
    }
  }

  lemma SweptNone(r: Registry, ttl: nat, now: nat)
    ensures Swept(r, ttl, now, {}) == r
  {}

  lemma SweptAll(r: Registry, ttl: nat, now: nat)
    ensures Swept(r, ttl, now, r.waiting.Keys) == HandshakeState.Reap(r, ttl, now)
  {}
}
