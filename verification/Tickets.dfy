/**
 Relay tickets (internal/ticket/ticket.go) and bind cookies (internal/relay/server.go).
 Signatures are ideal: a signature is the key and the exact content it covers.
 Times are nanoseconds; a ticket's own times are whole seconds.
 */
module Tickets {
  import opened Common
  import opened RelayState

  const SECOND := 1_000_000_000
  const MAX_TTL := 120
  const SKEW := 10
  const COOKIE_EPOCH := 30 * SECOND

  datatype ServerKey = ServerKey(id: int)
  datatype RelayId = RelayId(id: int)

  datatype Payload = Payload(rid: RelayId, sid: Token, leg: LegName, epk: EphKey, iat: int, exp: int, nonce: int)

  /** A cookie is an injective function of its epoch and the full source address. */
  datatype Cookie = Cookie(epoch: int, addr: Addr)

  datatype TicketSig = TicketSig(key: ServerKey, over: Payload)

  /** The proof covers the complete signed ticket and the cookie. */
  datatype BindSig = BindSig(key: EphKey, over: Payload, ticketSig: TicketSig, cookie: Cookie)

  datatype Bind = Bind(session: Token, ticket: Payload, ticketSig: TicketSig, bindSig: BindSig, cookie: Cookie)

  function Unix(now: int): int {
    now / SECOND
  }

  // ---- lifetimes --------------------------------------------------------------------

  predicate InWindow(p: Payload, now: int) {
    && 0 < p.exp - p.iat <= MAX_TTL
    && p.iat - SKEW <= Unix(now) <= p.exp + SKEW
  }

  /**
   One ticket is accepted over a span of less than MaxTTL + 2*Skew + 1 seconds: the
   relay's clock is truncated to whole seconds, so the last second counts in full.
   */
  lemma AcceptanceSpan(p: Payload, first: int, last: int)
    requires InWindow(p, first) && InWindow(p, last)
    ensures last - first < (MAX_TTL + 2 * SKEW + 1) * SECOND
  {}

  /** And the bound is met to the nanosecond by every full-length ticket. */
  lemma AcceptanceSpanReached(p: Payload)
    requires p.exp - p.iat == MAX_TTL
    ensures InWindow(p, (p.iat - SKEW) * SECOND)
    ensures InWindow(p, (p.exp + SKEW + 1) * SECOND - 1)
    ensures ((p.exp + SKEW + 1) * SECOND - 1) - (p.iat - SKEW) * SECOND == (MAX_TTL + 2 * SKEW + 1) * SECOND - 1
  {}

  /** Any two acceptances of this ticket lie within the documented MaxTTL + 2*Skew. */
  ghost predicate SpanAsDocumented(p: Payload) {
    forall first, last :: InWindow(p, first) && InWindow(p, last) ==> last - first <= (MAX_TTL + 2 * SKEW) * SECOND
  }

  /** The documented span holds exactly for the tickets that are shorter than MaxTTL. */
  lemma DocumentedSpanIff(p: Payload)
    requires 0 < p.exp - p.iat <= MAX_TTL
    ensures SpanAsDocumented(p) <==> p.exp - p.iat < MAX_TTL
  {
    if p.exp - p.iat == MAX_TTL {
      AcceptanceSpanReached(p);
    }
  }

  /** A ticket issued by the server at `issued` is accepted exactly from Skew before to MaxTTL + Skew after. */
  lemma IssuedWindow(p: Payload, issued: int, now: int)
    requires p.iat == Unix(issued) && p.exp == Unix(issued + MAX_TTL * SECOND)
    ensures InWindow(p, now) <==> -SKEW <= Unix(now) - Unix(issued) <= MAX_TTL + SKEW
  {}

  function EpochOf(now: int): int {
    now / COOKIE_EPOCH
  }

  predicate ValidCookie(k: Cookie, src: Addr, now: int) {
    k == Cookie(EpochOf(now), src) || k == Cookie(EpochOf(now) - 1, src)
  }

  /** A cookie lives at least 30 seconds and less than a minute, and only at its own address. */
  lemma CookieLifetime(src: Addr, minted: int, at: Addr, now: int)
    requires minted <= now
    ensures at == src && now - minted <= 30_000_000_000 ==> ValidCookie(Cookie(EpochOf(minted), src), at, now)
    ensures ValidCookie(Cookie(EpochOf(minted), src), at, now) ==> at == src && now - minted < 60_000_000_000
  {}

  // ---- the checks -----------------------------------------------------------------------

  datatype TicketConfig = TicketConfig(rid: RelayId, serverKeys: seq<ServerKey>, relay: Config)

  datatype Judgement = BadSignature | BadLeg | OutsideWindow | WrongRelay | WrongSession | NoProof | Accepted

  /** The checks of one bind in their fixed order. */
  function Judge(c: TicketConfig, b: Bind, now: int): Judgement {
    if !(b.ticketSig.key in c.serverKeys && b.ticketSig.over == b.ticket) then BadSignature
    else if b.ticket.leg == Unnamed then BadLeg
    else if !InWindow(b.ticket, now) then OutsideWindow
    else if b.ticket.rid != c.rid then WrongRelay
    else if b.session != b.ticket.sid then WrongSession
    else if b.bindSig != BindSig(b.ticket.epk, b.ticket, b.ticketSig, b.cookie) then NoProof
    else Accepted
  }

  /** The bind that the holder of ticket `p`, signed by `key`, makes for a cookie. */
  function HonestBind(p: Payload, key: ServerKey, cookie: Cookie): Bind {
    var sig := TicketSig(key, p);
    Bind(p.sid, p, sig, BindSig(p.epk, p, sig, cookie), cookie)
  }

  /**
   Accepted are exactly the binds an honest holder makes of a ticket that one of the
   configured keys signed for this relay, for a named leg, within its window.
   */
  lemma AcceptedIff(c: TicketConfig, b: Bind, now: int)
    ensures Judge(c, b, now) == Accepted <==>
      && b == HonestBind(b.ticket, b.ticketSig.key, b.cookie) && b.ticketSig.key in c.serverKeys
      && b.ticket.rid == c.rid && (b.ticket.leg == LegA || b.ticket.leg == LegB)
      && 0 < b.ticket.exp - b.ticket.iat <= 120
      && b.ticket.iat - 10 <= now / 1_000_000_000 <= b.ticket.exp + 10
  {}

  /** A ticket for no leg is refused for that, whatever else is wrong with the bind, if a configured key signed it. */
  lemma BadLegIff(c: TicketConfig, b: Bind, now: int)
    ensures Judge(c, b, now) == BadLeg <==>
      b.ticket.leg != LegA && b.ticket.leg != LegB && b.ticketSig.key in c.serverKeys && b.ticketSig.over == b.ticket
  {}

  /** Whatever single part of an accepted bind is changed, the bind is refused, and for that part. */
  lemma OneFault(c: TicketConfig, b: Bind, now: int)
    requires Judge(c, b, now) == Accepted
    ensures forall p :: p != b.ticket ==> Judge(c, b.(ticket := p), now) == BadSignature
    ensures forall sig: TicketSig :: sig.key !in c.serverKeys || sig.over != b.ticket ==>
      Judge(c, b.(ticketSig := sig), now) == BadSignature
    ensures forall t: Token :: t != b.session ==> Judge(c, b.(session := t), now) == WrongSession
    ensures forall sig :: sig != b.bindSig ==> Judge(c, b.(bindSig := sig), now) == NoProof
    ensures forall k :: k != b.cookie ==> Judge(c, b.(cookie := k), now) == NoProof
    ensures forall r :: r != c.rid ==> Judge(c.(rid := r), b, now) == WrongRelay
    ensures forall at :: !InWindow(b.ticket, at) ==> Judge(c, b, at) == OutsideWindow
  {}

  /** Does one of the configured keys verify this signature over exactly this payload? */
  method Verify(keys: seq<ServerKey>, p: Payload, sig: TicketSig) returns (ok: bool)
    ensures ok <==> sig.key in keys && sig.over == p
  {
    for i := 0 to |keys|
      invariant forall j :: 0 <= j < i ==> TicketSig(keys[j], p) != sig
    {
      if TicketSig(keys[i], p) == sig {
        return true;
      }
    }
    return false;
  }

  // ---- issuing ------------------------------------------------------------------------

  const MAX_TOKENS := 4096

  /** A rendezvous token, and a buddy's identity key ordered as its spelling is. */
  datatype PairToken = PairToken(id: int)
  datatype Identity = Identity(rank: int)

  /** The token's session id, or the fresh one if there is room to remember it. */
  function SidFor(sids: map<PairToken, Token>, token: PairToken, freshSid: Token): Option<Token> {
    if token in sids then Some(sids[token])
    else if |sids| >= MAX_TOKENS then None
    else Some(freshSid)
  }

  /** The lower key takes leg a. */
  function LegFor(holder: Identity, partner: Identity): LegName {
    if holder.rank > partner.rank then LegB else LegA
  }

  /** The two holders of a pair take the two legs, the lower key leg a. */
  lemma LegsOfPair(a: Identity, b: Identity)
    requires a != b
    ensures LegFor(a, b) == LegA <==> a.rank < b.rank
    ensures LegFor(a, b) == LegB <==> LegFor(b, a) == LegA
  {}

  /** A token that has an id keeps it, and another gets the fresh one unless 4096 are remembered already. */
  lemma SidIff(sids: map<PairToken, Token>, token: PairToken, freshSid: Token)
    ensures SidFor(sids, token, freshSid).None? <==> token !in sids && |sids| >= 4096
    ensures token in sids ==> SidFor(sids, token, freshSid) == Some(sids[token])
    ensures token !in sids && |sids| < 4096 ==> SidFor(sids, token, freshSid) == Some(freshSid)
  {}
}
