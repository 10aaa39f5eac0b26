/**
 Registry and relay together: tickets are issued for what the handshake registry has just
 paired (internal/role/handshake.go), and the relay sees the tickets. The registry's steps
 and everything that happens elsewhere interleave in any order.
 */
module HandshakeTickets {
  import opened Common
  import opened RelayState
  import opened Tickets
  import opened HandshakeState
  import opened HandshakeRuns
  import RelayTickets

  type RegStep = HandshakeRuns.Step
  type World = RelayTickets.World
  type Event = RelayTickets.Event

  /** What a registry step means for tickets. Every registration names the key its connection proved. */
  ghost predicate Means(r: Registry, ttl: nat, st: RegStep, e: Event) {
    && (st.Registers? ==> st.q.pubkey.Some?)
    && if Mints(r, ttl, st) then
         && e.Issue? && e.token == st.q.token && Some(e.freshSid) == st.ticket
         && Some(e.holder) == st.q.pubkey && e.holder != e.partner
         && exists x :: PairedWith(r, ttl, st, x, e.partner)
       else e == RelayTickets.Forget(Forgotten(r, ttl, st))
  }

  datatype Deed = AtRegistry(st: RegStep) | Elsewhere

  ghost predicate Moves(ttl: nat, d: Deed, r: Registry, r': Registry) {
    match d
    case AtRegistry(st) => HandshakeRuns.Legal(r, st) && r' == HandshakeRuns.Next(r, ttl, st)
    case Elsewhere => r' == r
  }

  ghost predicate Shows(ttl: nat, d: Deed, r: Registry, e: Event) {
    match d
    case AtRegistry(st) => Means(r, ttl, st, e)
    case Elsewhere => !e.Issue? && !e.Forget?
  }

  ghost predicate IsRegistry(ttl: nat, rs: seq<Registry>, ds: seq<Deed>) {
    && |rs| == |ds| + 1
    && rs[0] == NO_PEERS
    && forall k :: 0 <= k < |ds| ==> Moves(ttl, ds[k], rs[k], rs[k + 1])
  }

  ghost predicate IsJoint(c: TicketConfig, ttl: nat, rs: seq<Registry>, ws: seq<World>, ds: seq<Deed>, es: seq<Event>) {
    && RelayTickets.IsHistory(c, ws, es) && IsRegistry(ttl, rs, ds) && |ds| == |es|
    && forall k :: 0 <= k < |es| ==> Shows(ttl, ds[k], rs[k], es[k])
  }

  // ---- both sides remember the same session ids -----------------------------------------------

  lemma NextSids(c: TicketConfig, r: Registry, ttl: nat, st: RegStep, w: World, e: Event)
    requires r.sids == w.sids && Means(r, ttl, st, e)
    ensures HandshakeRuns.Next(r, ttl, st).sids == RelayTickets.Next(c, w, e).sids
  {
    if st.Registers? {
      RegisterSids(r, ttl, st);
    }
  }

  lemma MovesSids(c: TicketConfig, ttl: nat, d: Deed, e: Event, r: Registry, r': Registry, w: World)
    requires Moves(ttl, d, r, r') && Shows(ttl, d, r, e) && r.sids == w.sids
    ensures r'.sids == RelayTickets.Next(c, w, e).sids
  {
    if d.AtRegistry? {
      NextSids(c, r, ttl, d.st, w, e);
    }
  }

  lemma JointStart(c: TicketConfig, ttl: nat, rs: seq<Registry>, ws: seq<World>, ds: seq<Deed>, es: seq<Event>)
    requires IsJoint(c, ttl, rs, ws, ds, es)
    ensures rs[0].sids == ws[0].sids
  {}

  lemma WorldSids(c: TicketConfig, ws: seq<World>, es: seq<Event>, k: nat)
    requires RelayTickets.IsHistory(c, ws, es) && k < |es|
    ensures ws[k + 1].sids == RelayTickets.Next(c, ws[k], es[k]).sids
  {}

  lemma JointAt(c: TicketConfig, ttl: nat, rs: seq<Registry>, ws: seq<World>, ds: seq<Deed>, es: seq<Event>, k: nat)
    requires IsJoint(c, ttl, rs, ws, ds, es) && k < |es|
    ensures Moves(ttl, ds[k], rs[k], rs[k + 1]) && Shows(ttl, ds[k], rs[k], es[k])
  {}

  lemma JointSids(c: TicketConfig, ttl: nat, rs: seq<Registry>, ws: seq<World>, ds: seq<Deed>, es: seq<Event>, k: nat)
    requires IsJoint(c, ttl, rs, ws, ds, es) && k < |es| && rs[k].sids == ws[k].sids
    ensures rs[k + 1].sids == ws[k + 1].sids
  {
    JointAt(c, ttl, rs, ws, ds, es, k);
    MovesSids(c, ttl, ds[k], es[k], rs[k], rs[k + 1], ws[k]);
    WorldSids(c, ws, es, k);
  }

  lemma {:induction false} SameSids(c: TicketConfig, ttl: nat, rs: seq<Registry>, ws: seq<World>, ds: seq<Deed>,
                                    es: seq<Event>, n: nat)
    requires IsJoint(c, ttl, rs, ws, ds, es) && n < |rs|
    ensures rs[n].sids == ws[n].sids
  {
    if n == 0 {
      JointStart(c, ttl, rs, ws, ds, es);
    } else {
      SameSids(c, ttl, rs, ws, ds, es, n - 1);
      JointSids(c, ttl, rs, ws, ds, es, n - 1);
    }
  }

  lemma {:induction false} RegistryInv(ttl: nat, rs: seq<Registry>, ds: seq<Deed>, n: nat)
    requires IsRegistry(ttl, rs, ds) && n < |rs|
    ensures HandshakeState.Inv(rs[n])
  {
    if n > 0 {
      RegistryInv(ttl, rs, ds, n - 1);
      assert Moves(ttl, ds[n - 1], rs[n - 1], rs[n]);
      if ds[n - 1].AtRegistry? {
        HandshakeRuns.StepInv(rs[n - 1], ttl, ds[n - 1].st);
      }
    }
  }

  // ---- a peer keeps its key -------------------------------------------------------------------

  lemma {:induction false} KeyKept(ttl: nat, rs: seq<Registry>, ds: seq<Deed>, t: PairToken, x: PeerId, key: Identity,
                                   i: nat, j: nat)
    requires IsRegistry(ttl, rs, ds) && i <= j < |rs| && KnownAs(rs[i], t, x, key)
    requires forall k :: i <= k < j && ds[k].AtRegistry? ==> Names(ds[k].st, t, x, key)
    ensures KnownAs(rs[j], t, x, key)
    decreases j - i
  {
    if i < j {
      KeyKept(ttl, rs, ds, t, x, key, i, j - 1);
      if ds[j - 1].AtRegistry? {
        StepKnown(rs[j - 1], ttl, ds[j - 1].st, t, x, key);
      }
    }
  }

  // ---- each other's partners, one session, opposite legs ----------------------------------------

  /** Peer `x`, registering under `key`, is given `y`, known under `other`, and a ticket. */
  ghost predicate Meets(r: Registry, ttl: nat, d: Deed, t: PairToken, x: PeerId, key: Identity,
                        y: PeerId, other: Identity) {
    && d.AtRegistry? && Mints(r, ttl, d.st) && d.st.q.token == t && d.st.q.id == x && d.st.q.pubkey == Some(key)
    && PairedWith(r, ttl, d.st, y, other)
  }

  /** The ticket issued is for exactly the partner the registry gave. */
  lemma IssuedForPartner(r: Registry, ttl: nat, d: Deed, e: Event, t: PairToken, x: PeerId, key: Identity,
                         y: PeerId, other: Identity)
    requires HandshakeState.Inv(r) && Meets(r, ttl, d, t, x, key, y, other) && Means(r, ttl, d.st, e)
    ensures e.Issue? && e.token == t && e.holder == key && e.partner == other
  {
    MintsEvictsNobody(r, ttl, d.st);
    var z :| PairedWith(r, ttl, d.st, z, e.partner);
    HandshakeRuns.OnePartner(r, ttl, d.st.q, y, z);
  }

  /** Token `t` outlives what happens strictly between `i` and `j`. */
  ghost predicate Lives(ttl: nat, rs: seq<Registry>, ds: seq<Deed>, t: PairToken, i: nat, j: nat)
    requires j <= |ds| <= |rs|
  {
    forall k :: i < k < j && ds[k].AtRegistry? ==> !HandshakeRuns.Dies(rs[k], ttl, ds[k].st, t)
  }

  ghost predicate OneKey(ds: seq<Deed>, t: PairToken, x: PeerId, key: Identity, i: nat, j: nat)
    requires j <= |ds|
  {
    forall k :: i <= k < j && ds[k].AtRegistry? ==> Names(ds[k].st, t, x, key)
  }

  lemma NotForgotten(c: TicketConfig, ttl: nat, rs: seq<Registry>, ws: seq<World>, ds: seq<Deed>, es: seq<Event>,
                     t: PairToken, i: nat, j: nat, k: nat)
    requires IsJoint(c, ttl, rs, ws, ds, es) && i < k < j < |es| && Lives(ttl, rs, ds, t, i, j)
    ensures !RelayTickets.Forgets(es[k], t)
  {
    assert Shows(ttl, ds[k], rs[k], es[k]);
  }

  lemma SecondKnowsFirst(ttl: nat, rs: seq<Registry>, ds: seq<Deed>, t: PairToken, x: PeerId, key: Identity,
                         y: PeerId, other: Identity, i: nat, j: nat)
    requires IsRegistry(ttl, rs, ds) && i < j < |ds| && Meets(rs[i], ttl, ds[i], t, x, key, y, other)
    requires OneKey(ds, t, x, key, i + 1, j)
    ensures KnownAs(rs[j], t, x, key)
  {
    RegisteredKnown(rs[i], ttl, ds[i].st);
    KeyKept(ttl, rs, ds, t, x, key, i + 1, j);
  }

  /**
   Whatever else happens meanwhile: when `x` is given `y` and later `y` is given `x`, the
   token living on and `x` registering under one key in between, `y` under the key it was
   known by, the two tickets name one session and opposite legs, and each is issued
   against the other's key.
   */
  lemma PartnersShareSession(c: TicketConfig, ttl: nat, rs: seq<Registry>, ws: seq<World>, ds: seq<Deed>,
                             es: seq<Event>, t: PairToken, x: PeerId, key: Identity, y: PeerId, other: Identity,
                             seen: Identity, i: nat, j: nat)
    requires IsJoint(c, ttl, rs, ws, ds, es) && i < j < |es|
    requires Meets(rs[i], ttl, ds[i], t, x, key, y, other) && Meets(rs[j], ttl, ds[j], t, y, other, x, seen)
    requires Lives(ttl, rs, ds, t, i, j) && OneKey(ds, t, x, key, i + 1, j)
    ensures es[i].Issue? && es[j].Issue? && seen == key
    ensures es[i].holder == es[j].partner == key && es[i].partner == es[j].holder == other
    ensures RelayTickets.TicketFor(ws[i], es[i]).Some? && RelayTickets.TicketFor(ws[j], es[j]).Some?
    ensures var p, q := RelayTickets.TicketFor(ws[i], es[i]).value, RelayTickets.TicketFor(ws[j], es[j]).value;
      p.sid == q.sid && p.leg != q.leg && p.leg != Unnamed && q.leg != Unnamed
  {
    SameSids(c, ttl, rs, ws, ds, es, i);
    RegistryInv(ttl, rs, ds, i);
    RegistryInv(ttl, rs, ds, j);
    IssuedForPartner(rs[i], ttl, ds[i], es[i], t, x, key, y, other);
    IssuedForPartner(rs[j], ttl, ds[j], es[j], t, y, other, x, seen);
    SecondKnowsFirst(ttl, rs, ds, t, x, key, y, other, i, j);
    MintsEvictsNobody(rs[i], ttl, ds[i].st);
    MintsEvictsNobody(rs[j], ttl, ds[j].st);
    HandshakeRuns.SidNeverRefused(rs[i], t, es[i].freshSid);
    forall k | i < k < j ensures !RelayTickets.Forgets(es[k], es[i].token) {
      NotForgotten(c, ttl, rs, ws, ds, es, t, i, j, k);
    }
    RelayTickets.PairSharesSession(c, ws, es, i, j);
  }
}
