/**
 Ticket mode end to end: the handshake server issues tickets, ephemeral key holders
 sign proofs, and anybody sends the relay any bind made of signatures that exist.
 */
module RelayTickets {
  import opened Common
  import opened RelayState
  import opened RelayInvariant
  import opened RelayRuns
  import opened RelayBinds
  import opened Tickets

  /** A ticket the server signed, with the pairing it was signed for. */
  datatype Grant = Grant(key: ServerKey, ticket: Payload, token: PairToken, holder: Identity, partner: Identity)

  datatype World = World(
    granted: set<Grant>,
    proved: set<BindSig>,
    sids: map<PairToken, Token>,
    owner: map<Token, PairToken>,
    relay: State)

  const START := World({}, {}, map[], map[], EMPTY)

  datatype Event =
    | Issue(key: ServerKey, rid: RelayId, token: PairToken, holder: Identity, partner: Identity,
            epk: EphKey, freshSid: Token, nonce: int, now: int)
    | Forget(tokens: set<PairToken>)
    | Prove(sig: BindSig)
    | Attempt(b: Bind, src: Addr, acct: AcctKey, cookieNow: int, now: int)
    | Touched(f: FwdId, now: int)
    | Reaped(now: int)

  // ---- issuing ------------------------------------------------------------------------

  function TicketFor(w: World, e: Event): Option<Payload>
    requires e.Issue?
  {
    if e.holder == e.partner then None else
      match SidFor(w.sids, e.token, e.freshSid)
      case None => None
      case Some(sid) =>
        Some(Payload(e.rid, sid, LegFor(e.holder, e.partner), e.epk,
                     Unix(e.now), Unix(e.now + MAX_TTL * SECOND), e.nonce))
  }

  // ---- the world's steps -----------------------------------------------------------------

  function RelayStep(e: Event): Step
    requires e.Attempt?
  {
    TicketBind(e.b.ticket.sid, e.b.ticket.leg, e.b.ticket.epk, e.src, e.acct, e.now)
  }

  predicate Passes(c: TicketConfig, e: Event)
    requires e.Attempt?
  {
    ValidCookie(e.b.cookie, e.src, e.cookieNow) && Judge(c, e.b, e.now) == Accepted
  }

  function Next(c: TicketConfig, w: World, e: Event): World {
    match e
    case Issue(key, _, token, holder, partner, _, _, _, _) =>
      (match TicketFor(w, e)
       case None => w
       case Some(p) =>
         w.(granted := w.granted + {Grant(key, p, token, holder, partner)},
            sids := w.sids[token := p.sid],
            owner := w.owner[p.sid := token]))
    case Forget(tokens) => w.(sids := w.sids - tokens)
    case Prove(sig) => w.(proved := w.proved + {sig})
    case Attempt(_, _, _, _, _) =>
      if Passes(c, e) then w.(relay := RelayRuns.Next(c.relay, w.relay, RelayStep(e))) else w
    case Touched(f, now) => w.(relay := Touch(w.relay, f, now))
    case Reaped(now) => w.(relay := Reap(c.relay, w.relay, now))
  }

  ghost predicate Granted(w: World, sig: TicketSig) {
    exists g :: g in w.granted && g.key == sig.key && g.ticket == sig.over
  }

  /** Fresh ids are fresh; a bind holds only signatures their key holders have made. */
  ghost predicate Possible(c: TicketConfig, w: World, e: Event) {
    && (e.Issue? ==> e.freshSid !in w.owner)
    && (e.Attempt? ==> e.b.bindSig in w.proved && (e.b.ticketSig.key in c.serverKeys ==> Granted(w, e.b.ticketSig)))
  }

  ghost predicate IsHistory(c: TicketConfig, ws: seq<World>, es: seq<Event>) {
    && |ws| == |es| + 1
    && ws[0] == START
    && (forall k :: 0 <= k < |es| ==> Possible(c, ws[k], es[k]) && ws[k + 1] == Next(c, ws[k], es[k]))
  }

  // ---- one pair, one session, opposite legs ----------------------------------------------------

  /** Session ids belong to one token for ever; every ticket says what its pairing says. */
  ghost predicate Issued(w: World) {
    && (forall token :: token in w.sids ==> w.sids[token] in w.owner && w.owner[w.sids[token]] == token)
    && (forall g :: g in w.granted ==>
          && g.ticket.sid in w.owner && w.owner[g.ticket.sid] == g.token
          && g.holder != g.partner && g.ticket.leg == LegFor(g.holder, g.partner)
          && g.ticket.exp - g.ticket.iat == MAX_TTL)
  }

  lemma NextIssued(c: TicketConfig, w: World, e: Event)
    requires Issued(w) && Possible(c, w, e)
    ensures Issued(Next(c, w, e))
  {}

  lemma {:induction false} HistoryIssued(c: TicketConfig, ws: seq<World>, es: seq<Event>, n: nat)
    requires IsHistory(c, ws, es) && n < |ws|
    ensures Issued(ws[n])
  {
    if n > 0 {
      HistoryIssued(c, ws, es, n - 1);
      NextIssued(c, ws[n - 1], es[n - 1]);
    }
  }

  predicate Forgets(e: Event, token: PairToken) {
    e.Forget? && token in e.tokens
  }

  lemma {:induction false} SidStays(c: TicketConfig, ws: seq<World>, es: seq<Event>, token: PairToken, i: nat, j: nat)
    requires IsHistory(c, ws, es) && i <= j < |ws| && token in ws[i].sids
    requires forall k :: i <= k < j ==> !Forgets(es[k], token)
    ensures token in ws[j].sids && ws[j].sids[token] == ws[i].sids[token]
    decreases j - i
  {
    if i < j {
      SidStays(c, ws, es, token, i, j - 1);
      assert !Forgets(es[j - 1], token);
    }
  }

  /**
   Whatever else happens meanwhile, two buddies that register as each other's partner
   while the token lives get tickets for one session and opposite legs.
   */
  lemma PairSharesSession(c: TicketConfig, ws: seq<World>, es: seq<Event>, i: nat, j: nat)
    requires IsHistory(c, ws, es) && i < j < |es| && es[i].Issue? && es[j].Issue?
    requires es[i].token == es[j].token && es[i].holder == es[j].partner && es[i].partner == es[j].holder
    requires forall k :: i < k < j ==> !Forgets(es[k], es[i].token)
    requires TicketFor(ws[i], es[i]).Some?
    ensures TicketFor(ws[j], es[j]).Some?
    ensures var p, q := TicketFor(ws[i], es[i]).value, TicketFor(ws[j], es[j]).value;
      p.sid == q.sid && p.leg != q.leg && p.leg != Unnamed && q.leg != Unnamed
  {
    SidStays(c, ws, es, es[i].token, i + 1, j);
  }

  /** Tickets for different tokens never name the same session. */
  lemma SessionsApart(c: TicketConfig, ws: seq<World>, es: seq<Event>, n: nat, g: Grant, h: Grant)
    requires IsHistory(c, ws, es) && n < |ws| && g in ws[n].granted && h in ws[n].granted
    ensures g.ticket.sid == h.ticket.sid ==> g.token == h.token
  {
    HistoryIssued(c, ws, es, n);
  }

  // ---- the relay's own invariants hold throughout -------------------------------------------------

  lemma NextRelay(c: TicketConfig, w: World, e: Event)
    requires Inv(c.relay, w.relay) && Named(w.relay)
    ensures Inv(c.relay, Next(c, w, e).relay) && Named(Next(c, w, e).relay)
  {
    if e.Attempt? && Passes(c, e) {
      AttemptRelay(c, w, e);
      BindBoth(c, w.relay, RelayStep(e));
    } else {
      OtherRelay(c, w, e);
      ApplyBoth(c, w.relay, OtherEffect(e));
    }
  }

  lemma AttemptRelay(c: TicketConfig, w: World, e: Event)
    requires e.Attempt? && Passes(c, e)
    ensures Next(c, w, e).relay == RelayRuns.Next(c.relay, w.relay, RelayStep(e))
    ensures RelayStep(e).TicketBind? && RelayStep(e).name != Unnamed
  {}

  /** What an event that binds nothing does to the relay. */
  function OtherEffect(e: Event): Effect {
    match e
    case Touched(f, now) => Touches(f, now)
    case Reaped(now) => Reaps(now)
    case _ => Skips
  }

  lemma OtherRelay(c: TicketConfig, w: World, e: Event)
    requires !(e.Attempt? && Passes(c, e))
    ensures Next(c, w, e).relay == Apply(c.relay, w.relay, OtherEffect(e))
    ensures Legal(c.relay, w.relay, OtherEffect(e)) && NamedLegal(w.relay, OtherEffect(e))
  {}

  lemma BindBoth(c: TicketConfig, s: State, st: Step)
    requires Inv(c.relay, s) && Named(s) && st.TicketBind? && st.name != Unnamed
    ensures Inv(c.relay, RelayRuns.Next(c.relay, s, st)) && Named(RelayRuns.Next(c.relay, s, st))
  {
    NextIsApply(c.relay, s, st);
    TicketStepNamed(c.relay, s, st);
    ApplyBoth(c, s, EffectOf(c.relay, s, st));
  }

  lemma ApplyBoth(c: TicketConfig, s: State, e: Effect)
    requires Inv(c.relay, s) && Named(s) && Legal(c.relay, s, e) && NamedLegal(s, e)
    ensures Inv(c.relay, Apply(c.relay, s, e)) && Named(Apply(c.relay, s, e))
  {
    ApplyInv(c.relay, s, e);
    ApplyNamed(c.relay, s, e);
  }

  lemma {:induction false} HistoryRelay(c: TicketConfig, ws: seq<World>, es: seq<Event>, n: nat)
    requires IsHistory(c, ws, es) && n < |ws|
    ensures Inv(c.relay, ws[n].relay) && Named(ws[n].relay)
  {
    if n == 0 {
      EmptyInv(c.relay);
    } else {
      HistoryRelay(c, ws, es, n - 1);
      NextRelay(c, ws[n - 1], es[n - 1]);
    }
  }

  // ---- where legs come from ------------------------------------------------------------------------

  /** This event is a bind that may put leg `l` of session `t` where `l` is. */
  ghost predicate Warrants(c: TicketConfig, w: World, e: Event, t: Token, l: Leg) {
    && e.Attempt? && e.src == l.addr
    && e.b.ticket.rid == c.rid && e.b.ticket.sid == t && e.b.ticket.leg == l.name && e.b.ticket.epk == l.epk
    && e.b.ticketSig.key in c.serverKeys && e.b.ticketSig.over == e.b.ticket && Granted(w, e.b.ticketSig)
    && InWindow(e.b.ticket, e.now)
    && ValidCookie(e.b.cookie, l.addr, e.cookieNow)
    && e.b.bindSig == BindSig(l.epk, e.b.ticket, e.b.ticketSig, e.b.cookie) && e.b.bindSig in w.proved
  }

  lemma BindLegs(c: Config, s: State, st: Step, u: Token, l: Leg)
    requires st.TicketBind? && HasLeg(RelayRuns.Next(c, s, st), u, l)
    ensures HasLeg(s, u, l) || (u == st.t && l.name == st.name && l.epk == st.epk && l.addr == st.src)
  {}

  lemma ReapLegs(c: Config, s: State, now: int, u: Token, l: Leg)
    requires HasLeg(Reap(c, s, now), u, l)
    ensures HasLeg(s, u, l)
  {
    SurvivorMembers(c, s.fwds, s.sessions[u], now);
  }

  /**
   In one step a leg either stays exactly as it was, or a bind put it there that
   carried a cookie for that address, a proof by that very key, and a ticket the
   server issued for this relay, session, leg and key, inside its window.
   */
  lemma LegOrigin(c: TicketConfig, w: World, e: Event, t: Token, l: Leg)
    requires Possible(c, w, e) && HasLeg(Next(c, w, e).relay, t, l)
    ensures HasLeg(w.relay, t, l) || Warrants(c, w, e, t, l)
  {
    if e.Attempt? && Passes(c, e) {
      BindLegs(c.relay, w.relay, RelayStep(e), t, l);
    } else if e.Reaped? {
      ReapLegs(c.relay, w.relay, e.now, t, l);
    }
  }

  /**
   And the other way round: a bind that warrants leg `l` and names its own session passes
   every check, and leaves the leg at its address if and only if the relay has room for it.
   */
  lemma WarrantedIsPlaced(c: TicketConfig, ws: seq<World>, es: seq<Event>, k: nat, t: Token, l: Leg)
    requires IsHistory(c, ws, es) && k < |es| && Warrants(c, ws[k], es[k], t, l) && es[k].b.session == t
    ensures Passes(c, es[k])
    ensures var s, s', e := ws[k].relay, ws[k + 1].relay, es[k];
      if Room(c.relay, s, t, l.name, l.epk, l.addr, e.acct) then Placed(s', t, l.name, l.epk, l.addr, e.now)
      else s' == s && forall m :: Holds(s', t, l.name, l.epk, m) ==> m.addr != l.addr
  {
    HistoryIssued(c, ws, es, k);
    HistoryRelay(c, ws, es, k);
    WarrantPlaces(c, ws[k], es[k], t, l);
  }

  lemma WarrantPlaces(c: TicketConfig, w: World, e: Event, t: Token, l: Leg)
    requires Issued(w) && Inv(c.relay, w.relay) && Named(w.relay)
    requires Warrants(c, w, e, t, l) && e.b.session == t
    ensures Passes(c, e)
    ensures var s, s' := w.relay, Next(c, w, e).relay;
      if Room(c.relay, s, t, l.name, l.epk, l.addr, e.acct) then Placed(s', t, l.name, l.epk, l.addr, e.now)
      else s' == s && forall m :: Holds(s', t, l.name, l.epk, m) ==> m.addr != l.addr
  {
    WarrantPasses(c, w, e, t, l);
    PassedBinds(c, w, e);
    PlacedIffRoom(c.relay, w.relay, t, l.name, l.epk, l.addr, e.acct, e.now);
  }

  lemma PassedBinds(c: TicketConfig, w: World, e: Event)
    requires e.Attempt? && Passes(c, e)
    ensures var p := e.b.ticket;
      Next(c, w, e).relay == BindTicketed(c.relay, w.relay, p.sid, p.leg, p.epk, e.src, e.acct, e.now).0
  {
    AttemptRelay(c, w, e);
  }

  lemma WarrantPasses(c: TicketConfig, w: World, e: Event, t: Token, l: Leg)
    requires Issued(w) && Warrants(c, w, e, t, l) && e.b.session == t
    ensures Passes(c, e) && l.name != Unnamed
  {
    var g :| g in w.granted && g.key == e.b.ticketSig.key && g.ticket == e.b.ticketSig.over;
    AcceptedIff(c, e.b, e.now);
  }

  /** What was signed stays signed. */
  lemma {:induction false} SignaturesStay(c: TicketConfig, ws: seq<World>, es: seq<Event>, i: nat, n: nat)
    requires IsHistory(c, ws, es) && i <= n < |ws|
    ensures ws[i].granted <= ws[n].granted && ws[i].proved <= ws[n].proved
    decreases n - i
  {
    if i < n {
      SignaturesStay(c, ws, es, i, n - 1);
    }
  }

  /**
   A ticket issued for this relay by a configured key is honoured: its holder, having signed
   for a cookie given to `src` at most 30 seconds ago, can bind from there, from ten seconds
   before the issue to 130 after it, and is bound if and only if the relay has room.
   */
  lemma TicketIsHonoured(c: TicketConfig, ws: seq<World>, es: seq<Event>, n: nat, i: nat, j: nat, p: Payload,
                         src: Addr, acct: AcctKey, given: int, cookieNow: int, now: int)
    requires IsHistory(c, ws, es) && i < n && j < n < |ws| && given <= cookieNow <= given + 30_000_000_000
    requires es[i].Issue? && TicketFor(ws[i], es[i]) == Some(p) && es[i].key in c.serverKeys && es[i].rid == c.rid
    requires es[j] == Prove(BindSig(p.epk, p, TicketSig(es[i].key, p), Cookie(EpochOf(given), src)))
    requires -10 <= now / 1_000_000_000 - es[i].now / 1_000_000_000 <= 130
    ensures var b := HonestBind(p, es[i].key, Cookie(EpochOf(given), src));
      var w, e := ws[n], Attempt(b, src, acct, cookieNow, now);
      && Possible(c, w, e) && Passes(c, e)
      && if Room(c.relay, w.relay, p.sid, p.leg, p.epk, src, acct)
         then Placed(Next(c, w, e).relay, p.sid, p.leg, p.epk, src, now) else Next(c, w, e).relay == w.relay
  {
    var w, e := ws[n], Attempt(HonestBind(p, es[i].key, Cookie(EpochOf(given), src)), src, acct, cookieNow, now);
    SignaturesStay(c, ws, es, i + 1, n);
    SignaturesStay(c, ws, es, j + 1, n);
    HistoryIssued(c, ws, es, n);
    HistoryRelay(c, ws, es, n);
    HonestWarrants(c, ws[i], es[i], p, w, e, given);
    WarrantPlaces(c, w, e, p.sid, Leg(src, acct, p.leg, p.epk, 0));
  }

  lemma HonestWarrants(c: TicketConfig, was: World, issue: Event, p: Payload, w: World, e: Event, given: int)
    requires issue.Issue? && TicketFor(was, issue) == Some(p) && issue.key in c.serverKeys && issue.rid == c.rid
    requires Grant(issue.key, p, issue.token, issue.holder, issue.partner) in w.granted
    requires e.Attempt? && e.b == HonestBind(p, issue.key, Cookie(EpochOf(given), e.src)) && e.b.bindSig in w.proved
    requires given <= e.cookieNow <= given + COOKIE_EPOCH && -SKEW <= Unix(e.now) - Unix(issue.now) <= MAX_TTL + SKEW
    ensures Possible(c, w, e) && Warrants(c, w, e, p.sid, Leg(e.src, e.acct, p.leg, p.epk, 0)) && e.b.session == p.sid
  {
    CookieLifetime(e.src, given, e.src, e.cookieNow);
    IssuedWindow(p, issue.now, e.now);
    var g := Grant(issue.key, p, issue.token, issue.holder, issue.partner);
    assert g in w.granted && g.key == e.b.ticketSig.key && g.ticket == e.b.ticketSig.over;
  }

  /** Some issued ticket names this leg, and its key signed a cookie for the leg's address. */
  ghost predicate BackedBy(c: TicketConfig, w: World, t: Token, l: Leg, g: Grant, epoch: int) {
    && g in w.granted && g.key in c.serverKeys
    && g.ticket.rid == c.rid && g.ticket.sid == t && g.ticket.leg == l.name && g.ticket.epk == l.epk
    && BindSig(l.epk, g.ticket, TicketSig(g.key, g.ticket), Cookie(epoch, l.addr)) in w.proved
  }

  ghost predicate Backed(c: TicketConfig, w: World) {
    forall t, l :: HasLeg(w.relay, t, l) ==> exists g, epoch :: BackedBy(c, w, t, l, g, epoch)
  }

  lemma WarrantBacks(c: TicketConfig, w: World, e: Event, t: Token, l: Leg)
    requires Warrants(c, w, e, t, l)
    ensures exists g, epoch :: BackedBy(c, Next(c, w, e), t, l, g, epoch)
  {
    var g :| g in w.granted && g.key == e.b.ticketSig.key && g.ticket == e.b.ticketSig.over;
    assert BackedBy(c, Next(c, w, e), t, l, g, e.b.cookie.epoch);
  }

  lemma BackingStays(c: TicketConfig, w: World, e: Event, t: Token, l: Leg, g: Grant, epoch: int)
    requires BackedBy(c, w, t, l, g, epoch)
    ensures BackedBy(c, Next(c, w, e), t, l, g, epoch)
  {}

  lemma NextBacked(c: TicketConfig, w: World, e: Event)
    requires Backed(c, w) && Possible(c, w, e)
    ensures Backed(c, Next(c, w, e))
  {
    forall t, l | HasLeg(Next(c, w, e).relay, t, l)
      ensures exists g, epoch :: BackedBy(c, Next(c, w, e), t, l, g, epoch)
    {
      LegOrigin(c, w, e, t, l);
      if HasLeg(w.relay, t, l) {
        var g, epoch :| BackedBy(c, w, t, l, g, epoch);
        BackingStays(c, w, e, t, l, g, epoch);
      } else {
        WarrantBacks(c, w, e, t, l);
      }
    }
  }

  /** In every reachable world every leg is backed: no leg exists that the server did not name. */
  lemma {:induction false} HistoryBacked(c: TicketConfig, ws: seq<World>, es: seq<Event>, n: nat)
    requires IsHistory(c, ws, es) && n < |ws|
    ensures Backed(c, ws[n])
  {
    if n > 0 {
      HistoryBacked(c, ws, es, n - 1);
      NextBacked(c, ws[n - 1], es[n - 1]);
    }
  }

  /** The two legs of a relay session were issued for one token, to opposite ends of the key order. */
  lemma SessionIsOneToken(c: TicketConfig, ws: seq<World>, es: seq<Event>, n: nat, t: Token, i: nat, j: nat)
      returns (g: Grant, h: Grant)
    requires IsHistory(c, ws, es) && n < |ws| && t in ws[n].relay.sessions
    requires i < j < |ws[n].relay.sessions[t].legs|
    ensures g in ws[n].granted && h in ws[n].granted && g.token == h.token
    ensures g.ticket.epk == ws[n].relay.sessions[t].legs[i].epk && h.ticket.epk == ws[n].relay.sessions[t].legs[j].epk
    ensures g.holder.rank < g.partner.rank <==> h.holder.rank > h.partner.rank
  {
    var w := ws[n];
    HistoryBacked(c, ws, es, n);
    HistoryRelay(c, ws, es, n);
    HistoryIssued(c, ws, es, n);
    var l, m := w.relay.sessions[t].legs[i], w.relay.sessions[t].legs[j];
    assert HasLeg(w.relay, t, l) && HasLeg(w.relay, t, m);
    assert NamedLegs(w.relay.sessions[t].legs);
    var e: int, f: int;
    g, e :| BackedBy(c, w, t, l, g, e);
    h, f :| BackedBy(c, w, t, m, h, f);
  }

  // ---- who may hold a leg ------------------------------------------------------------------------------

  /** Leg `m` is leg `l`, perhaps at another address. */
  predicate SameLeg(l: Leg, m: Leg) {
    l.name == m.name && l.epk == m.epk && l.fwd == m.fwd
  }

  predicate StillHeld(s: State, t: Token, l: Leg) {
    t in s.sessions && exists m :: m in s.sessions[t].legs && SameLeg(l, m)
  }

  predicate NameHeld(s: State, t: Token, n: LegName) {
    t in s.sessions && exists m :: m in s.sessions[t].legs && m.name == n
  }

  lemma ApplyKeepsLeg(c: Config, s: State, e: Effect, t: Token, l: Leg)
    requires HasLeg(s, t, l) && !e.Reaps?
    ensures StillHeld(Apply(c, s, e), t, l)
  {
    var legs, after := s.sessions[t].legs, Apply(c, s, e).sessions[t].legs;
    var i :| 0 <= i < |legs| && legs[i] == l;
    assert i < |after| && after[i] in after && SameLeg(l, after[i]);
  }

  lemma OneLegPerName(s: State, t: Token, l: Leg, m: Leg)
    requires Named(s) && HasLeg(s, t, l) && HasLeg(s, t, m) && l.name == m.name
    ensures l == m
  {}

  lemma OneHolder(s: State, t: Token, l: Leg, m: Leg)
    requires Named(s) && StillHeld(s, t, l) && HasLeg(s, t, m) && l.name == m.name
    ensures l.epk == m.epk
  {}

  /** A pass keeps a leg exactly as it is, or frees its name. */
  lemma ReapKeepsOrFrees(c: Config, s: State, now: int, t: Token, l: Leg)
    requires HasLeg(s, t, l) && Named(s)
    ensures HasLeg(Reap(c, s, now), t, l) || !NameHeld(Reap(c, s, now), t, l.name)
  {
    var s' := Reap(c, s, now);
    if NameHeld(s', t, l.name) {
      var m :| m in s'.sessions[t].legs && m.name == l.name;
      ReapLegs(c, s, now, t, m);
      OneLegPerName(s, t, l, m);
    }
  }

  ghost predicate FreedAt(ws: seq<World>, es: seq<Event>, k: int, t: Token, l: Leg)
    requires |ws| == |es| + 1
  {
    0 <= k < |es| && es[k].Reaped? && StillHeld(ws[k].relay, t, l) && !NameHeld(ws[k + 1].relay, t, l.name)
  }

  lemma StepKeepsOrFrees(c: TicketConfig, ws: seq<World>, es: seq<Event>, k: nat, t: Token, l: Leg)
    requires IsHistory(c, ws, es) && k < |es| && StillHeld(ws[k].relay, t, l)
    ensures StillHeld(ws[k + 1].relay, t, l) || FreedAt(ws, es, k, t, l)
  {
    HistoryRelay(c, ws, es, k);
    var m :| m in ws[k].relay.sessions[t].legs && SameLeg(l, m);
    NextKeepsOrFrees(c, ws[k], es[k], t, m);
    if StillHeld(ws[k + 1].relay, t, m) {
      SameLegStill(ws[k + 1].relay, t, l, m);
    }
  }

  lemma SameLegStill(s: State, t: Token, l: Leg, m: Leg)
    requires SameLeg(l, m) && StillHeld(s, t, m)
    ensures StillHeld(s, t, l)
  {}

  lemma NextKeepsOrFrees(c: TicketConfig, w: World, e: Event, t: Token, l: Leg)
    requires Named(w.relay) && HasLeg(w.relay, t, l)
    ensures StillHeld(Next(c, w, e).relay, t, l) || (e.Reaped? && !NameHeld(Next(c, w, e).relay, t, l.name))
  {
    assert SameLeg(l, l);
    if e.Attempt? && Passes(c, e) {
      AttemptKeepsLeg(c, w.relay, RelayStep(e), t, l);
    } else if e.Reaped? {
      ReapKeepsOrFrees(c.relay, w.relay, e.now, t, l);
    }
  }

  lemma AttemptKeepsLeg(c: TicketConfig, s: State, st: Step, t: Token, l: Leg)
    requires HasLeg(s, t, l) && st.TicketBind?
    ensures StillHeld(RelayRuns.Next(c.relay, s, st), t, l)
  {
    NextIsApply(c.relay, s, st);
    ApplyKeepsLeg(c.relay, s, EffectOf(c.relay, s, st), t, l);
  }

  /**
   A held leg never passes to another ephemeral key: if the same leg of the same
   session is later held by another key, a reaper pass freed it in between.
   */
  lemma {:induction false} LegNeverTakenOver(c: TicketConfig, ws: seq<World>, es: seq<Event>,
                                             i: nat, j: nat, t: Token, l: Leg, m: Leg)
    requires IsHistory(c, ws, es) && i <= j < |ws|
    requires StillHeld(ws[i].relay, t, l) && HasLeg(ws[j].relay, t, m) && m.name == l.name && m.epk != l.epk
    ensures exists k :: i <= k < j && FreedAt(ws, es, k, t, l)
    decreases j - i
  {
    if i == j {
      HistoryRelay(c, ws, es, i);
      OneHolder(ws[i].relay, t, l, m);
      assert false;
    } else {
      StepKeepsOrFrees(c, ws, es, i, t, l);
      if StillHeld(ws[i + 1].relay, t, l) {
        LegNeverTakenOver(c, ws, es, i + 1, j, t, l, m);
      }
    }
  }

  /** A leg's address changes only by a bind that warrants the new address. */
  lemma MoveIsWarranted(c: TicketConfig, ws: seq<World>, es: seq<Event>, k: nat, t: Token, l: Leg, m: Leg)
    requires IsHistory(c, ws, es) && k < |es|
    requires HasLeg(ws[k].relay, t, l) && HasLeg(ws[k + 1].relay, t, m) && SameLeg(l, m) && l.addr != m.addr
    ensures Warrants(c, ws[k], es[k], t, m)
  {
    LegOrigin(c, ws[k], es[k], t, m);
    if HasLeg(ws[k].relay, t, m) {
      HistoryRelay(c, ws, es, k);
      OneLegPerName(ws[k].relay, t, l, m);
      assert false;
    }
  }
}
