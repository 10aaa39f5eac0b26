/**
 The roster of known peers (internal/peer/registry.go): names are pinned on first use,
 and every change is written to the cache before the next one may start.
 */
module PeerRegistry {
  import opened Common

  datatype Vip = Vip(id: int)

  /** A peer; the empty string is "no key" and "no name", and an unparsable address is none. */
  datatype Peer = Peer(key: string, id: string, name: string, vip: Option<Vip>, lastSeen: int)

  datatype Registry = Registry(peers: map<string, Peer>, nameByKey: map<string, string>, keyByName: map<string, string>)

  const EMPTY := Registry(map[], map[], map[])

  function PinnedName(r: Registry, k: string): string {
    if k in r.nameByKey then r.nameByKey[k] else ""
  }

  /** May this name be pinned to this key? */
  predicate Pins(r: Registry, k: string, name: string) {
    name != "" && k !in r.nameByKey && (name in r.keyByName ==> r.keyByName[name] == k)
  }

  function Upsert(r: Registry, p: Peer, now: int): Registry {
    var stamped := if p.lastSeen == 0 then p.(lastSeen := now) else p;
    if Pins(r, p.key, p.name) then
      Registry(r.peers[p.key := stamped], r.nameByKey[p.key := p.name], r.keyByName[p.name := p.key])
    else
      r.(peers := r.peers[p.key := stamped.(name := PinnedName(r, p.key))])
  }

  // ---- what always holds --------------------------------------------------------------

  /** The two name maps are each other's inverse, and every peer carries its pinned name. */
  ghost predicate Consistent(r: Registry) {
    && (forall k :: k in r.nameByKey ==>
        r.nameByKey[k] != "" && r.nameByKey[k] in r.keyByName && r.keyByName[r.nameByKey[k]] == k)
    && (forall n :: n in r.keyByName ==> r.keyByName[n] in r.nameByKey && r.nameByKey[r.keyByName[n]] == n)
    && (forall k :: k in r.peers ==> r.peers[k].key == k && r.peers[k].name == PinnedName(r, k))
    && r.nameByKey.Keys <= r.peers.Keys
  }

  /** An update keeps that, and a pinned name is pinned for good. */
  lemma UpsertConsistent(r: Registry, p: Peer, now: int)
    requires Consistent(r)
    ensures Consistent(Upsert(r, p, now))
    ensures forall k :: k in r.nameByKey ==> PinnedName(Upsert(r, p, now), k) == r.nameByKey[k]
  {
    if Pins(r, p.key, p.name) {
      PinningConsistent(r, p, Upsert(r, p, now));
    }
  }

  /**
   The peer is on record as it came, stamped if it had no time, under its pinned name: the
   one it had, or else its own if no other key has that one, or else none. Nobody else changes.
   */
  lemma UpsertStores(r: Registry, p: Peer, now: int)
    requires Consistent(r)
    ensures var r' := Upsert(r, p, now);
      && p.key in r'.peers && r'.peers[p.key].id == p.id && r'.peers[p.key].vip == p.vip
      && r'.peers[p.key].lastSeen == (if p.lastSeen == 0 then now else p.lastSeen)
      && r'.peers[p.key].name == PinnedName(r', p.key)
      && (p.key in r.nameByKey ==> PinnedName(r', p.key) == r.nameByKey[p.key])
      && (p.key !in r.nameByKey ==>
            PinnedName(r', p.key) == if forall k :: PinnedName(r, k) != p.name then p.name else "")
    ensures forall k :: k != p.key ==> OtherKept(r, Upsert(r, p, now), k)
  {
    if p.key !in r.nameByKey {
      PinsIffFree(r, p.key, p.name);
    }
    forall k | k != p.key ensures OtherKept(r, Upsert(r, p, now), k) {
      UpsertKeeps(r, p, now, k);
    }
  }

  lemma PinsIffFree(r: Registry, key: string, name: string)
    requires Consistent(r) && key !in r.nameByKey
    ensures Pins(r, key, name) <==> name != "" && forall k :: PinnedName(r, k) != name
  {
    if name in r.keyByName {
      assert PinnedName(r, r.keyByName[name]) == name;
    }
  }

  ghost predicate OtherKept(r: Registry, r': Registry, k: string) {
    && (k in r'.peers <==> k in r.peers) && PinnedName(r', k) == PinnedName(r, k)
    && (k in r.peers ==> r'.peers[k] == r.peers[k])
  }

  lemma UpsertKeeps(r: Registry, p: Peer, now: int, k: string)
    requires k != p.key
    ensures OtherKept(r, Upsert(r, p, now), k)
  {}

  lemma PinningConsistent(r: Registry, p: Peer, r': Registry)
    requires Consistent(r) && Pins(r, p.key, p.name)
    requires r'.nameByKey == r.nameByKey[p.key := p.name] && r'.keyByName == r.keyByName[p.name := p.key]
    requires p.key in r'.peers && r'.peers == r.peers[p.key := r'.peers[p.key]]
    requires r'.peers[p.key].key == p.key && r'.peers[p.key].name == p.name
    ensures Consistent(r')
  {
    assert p.name !in r.keyByName;
  }

  datatype Sighting = Sighting(p: Peer, now: int)

  ghost predicate IsRun(rs: seq<Registry>, ps: seq<Sighting>) {
    && |rs| == |ps| + 1
    && Consistent(rs[0])
    && (forall i :: 0 <= i < |ps| ==> rs[i + 1] == Upsert(rs[i], ps[i].p, ps[i].now))
  }

  lemma {:induction false} RunConsistent(rs: seq<Registry>, ps: seq<Sighting>, n: nat)
    requires IsRun(rs, ps) && n < |rs|
    ensures Consistent(rs[n])
  {
    if n > 0 {
      RunConsistent(rs, ps, n - 1);
      UpsertConsistent(rs[n - 1], ps[n - 1].p, ps[n - 1].now);
    }
  }

  /** Over any run a key's pinned name never changes. */
  lemma {:induction false} NameNeverChanges(rs: seq<Registry>, ps: seq<Sighting>, k: string, i: nat, j: nat)
    requires IsRun(rs, ps) && i <= j < |rs| && k in rs[i].nameByKey
    ensures k in rs[j].nameByKey && rs[j].nameByKey[k] == rs[i].nameByKey[k]
    decreases j - i
  {
    if i < j {
      NameNeverChanges(rs, ps, k, i, j - 1);
      RunConsistent(rs, ps, j - 1);
      UpsertConsistent(rs[j - 1], ps[j - 1].p, ps[j - 1].now);
      assert rs[j - 1].nameByKey[k] != "";
    }
  }

  /** And at no moment do two keys share one. */
  lemma NamesUnique(rs: seq<Registry>, ps: seq<Sighting>, n: nat, a: string, b: string)
    requires IsRun(rs, ps) && n < |rs| && a in rs[n].peers && b in rs[n].peers
    requires rs[n].peers[a].name == rs[n].peers[b].name != ""
    ensures a == b
  {
    RunConsistent(rs, ps, n);
  }

  // ---- saving and opening ------------------------------------------------------------------

  /** `l` lists every peer once, in some order. */
  ghost predicate Listing(r: Registry, l: seq<Peer>) {
    && (forall i :: 0 <= i < |l| ==> l[i].key in r.peers && r.peers[l[i].key] == l[i])
    && (forall i, j :: 0 <= i < j < |l| ==> l[i].key != l[j].key)
    && (forall k :: k in r.peers ==> r.peers[k] in l)
  }

  /** What opening a file makes of its first `n` entries. */
  function OpenTo(l: seq<Peer>, n: nat): Registry
    requires n <= |l|
  {
    if n == 0 then EMPTY
    else if l[n - 1].key == "" then OpenTo(l, n - 1)
    else Loaded(OpenTo(l, n - 1), l[n - 1])
  }

  function Loaded(r: Registry, p: Peer): Registry {
    Registry(r.peers[p.key := p],
             if p.name == "" then r.nameByKey else r.nameByKey[p.key := p.name],
             if p.name == "" then r.keyByName else r.keyByName[p.name := p.key])
  }

  function Open(l: seq<Peer>): Registry {
    OpenTo(l, |l|)
  }

  function KeysTo(l: seq<Peer>, n: nat): set<string>
    requires n <= |l|
  {
    if n == 0 then {} else KeysTo(l, n - 1) + {l[n - 1].key}
  }

  /** The part of a registry that concerns the keys `ks`. */
  function Part(r: Registry, ks: set<string>): Registry {
    Registry(map k | k in r.peers && k in ks :: r.peers[k],
             map k | k in r.nameByKey && k in ks :: r.nameByKey[k],
             map n | n in r.keyByName && r.keyByName[n] in ks :: r.keyByName[n])
  }

  lemma PartGrows(r: Registry, ks: set<string>, p: Peer)
    requires Consistent(r) && p.key in r.peers && r.peers[p.key] == p && p.key !in ks
    ensures Part(r, ks + {p.key}) == Loaded(Part(r, ks), p)
  {
    assert Part(r, ks + {p.key}).peers == Part(r, ks).peers[p.key := p];
    PartNames(r, ks, p);
    PartKeys(r, ks, p);
  }

  lemma PartNames(r: Registry, ks: set<string>, p: Peer)
    requires Consistent(r) && p.key in r.peers && r.peers[p.key] == p
    ensures Part(r, ks + {p.key}).nameByKey == Loaded(Part(r, ks), p).nameByKey
  {
    assert p.key in r.nameByKey <==> p.name != "";
  }

  lemma PartKeys(r: Registry, ks: set<string>, p: Peer)
    requires Consistent(r) && p.key in r.peers && r.peers[p.key] == p
    ensures Part(r, ks + {p.key}).keyByName == Loaded(Part(r, ks), p).keyByName
  {
    assert p.key in r.nameByKey <==> p.name != "";
    assert p.name != "" ==> r.keyByName[p.name] == p.key;
  }

  lemma PartOfNone(r: Registry)
    ensures Part(r, {}) == EMPTY
  {}

  lemma {:induction false} KeysAre(l: seq<Peer>, n: nat, k: string)
    requires n <= |l|
    ensures k in KeysTo(l, n) <==> exists i :: 0 <= i < n && l[i].key == k
  {
    if n > 0 {
      KeysAre(l, n - 1, k);
    }
  }

  lemma {:induction false} OpenIsPart(r: Registry, l: seq<Peer>, n: nat)
    requires Consistent(r) && Listing(r, l) && n <= |l|
    ensures OpenTo(l, n) == Part(r, KeysTo(l, n) - {""})
  {
    if n == 0 {
      assert KeysTo(l, 0) - {""} == {};
      PartOfNone(r);
    } else {
      OpenIsPart(r, l, n - 1);
      OpenPartStep(r, l, n);
    }
  }

  lemma OpenPartStep(r: Registry, l: seq<Peer>, n: nat)
    requires Consistent(r) && Listing(r, l) && 0 < n <= |l|
    ensures var ks, p := KeysTo(l, n - 1) - {""}, l[n - 1];
      Part(r, KeysTo(l, n) - {""}) == if p.key == "" then Part(r, ks) else Loaded(Part(r, ks), p)
  {
    var ks, p := KeysTo(l, n - 1) - {""}, l[n - 1];
    KeysAre(l, n - 1, p.key);
    if p.key == "" {
      assert KeysTo(l, n) - {""} == ks;
    } else {
      assert KeysTo(l, n) - {""} == ks + {p.key};
      PartGrows(r, ks, p);
    }
  }

  lemma PartOfAll(r: Registry, ks: set<string>)
    requires Consistent(r) && r.peers.Keys <= ks
    ensures Part(r, ks) == r
  {}

  /** Saving and opening restores the same roster and pins exactly if no peer without a key is in it. */
  lemma SaveThenOpen(r: Registry, l: seq<Peer>)
    requires Consistent(r) && Listing(r, l)
    ensures Open(l) == r <==> "" !in r.peers
  {
    OpenIsPart(r, l, |l|);
    var ks := KeysTo(l, |l|) - {""};
    if "" !in r.peers {
      forall k | k in r.peers ensures k in ks {
        var i :| 0 <= i < |l| && l[i] == r.peers[k];
        KeysAre(l, |l|, k);
        assert l[i].key == k;
      }
      PartOfAll(r, ks);
    } else {
      assert "" !in Part(r, ks).peers;
    }
  }

  ghost predicate KeysApart(l: seq<Peer>) {
    forall i, j :: 0 <= i < j < |l| ==> l[i].key != l[j].key
  }

  /** Is this a peer that will be loaded with a name? */
  predicate Named(p: Peer) {
    p.key != "" && p.name != ""
  }

  ghost predicate NamesApart(l: seq<Peer>) {
    forall i, j :: 0 <= i < j < |l| && Named(l[i]) && Named(l[j]) ==> l[i].name != l[j].name
  }

  /** The names an opened registry holds are those of its entries. */
  lemma {:induction false} OpenedNames(l: seq<Peer>, n: nat, k: string)
    requires KeysApart(l) && n <= |l|
    ensures var r := OpenTo(l, n);
      && (k in r.nameByKey <==> exists i :: 0 <= i < n && Named(l[i]) && l[i].key == k)
      && (forall i :: 0 <= i < n && Named(l[i]) && l[i].key == k ==> k in r.nameByKey && r.nameByKey[k] == l[i].name)
  {
    if n > 0 {
      OpenedNames(l, n - 1, k);
    }
  }

  lemma LoadConsistent(r: Registry, p: Peer)
    requires Consistent(r) && p.key !in r.peers && (p.name != "" ==> p.name !in r.keyByName)
    ensures Consistent(Loaded(r, p))
  {}

  ghost predicate Among(l: seq<Peer>, n: nat, p: Peer)
    requires n <= |l|
  {
    exists i :: 0 <= i < n && l[i] == p
  }

  /** An entry's key and name are new to what the entries before it loaded. */
  lemma EntryIsNew(r: Registry, l: seq<Peer>, n: nat)
    requires KeysApart(l) && NamesApart(l) && n < |l| && l[n].key != ""
    requires Consistent(r) && "" !in r.peers && forall k :: k in r.peers ==> Among(l, n, r.peers[k])
    ensures l[n].key !in r.peers
    ensures l[n].name != "" ==> l[n].name !in r.keyByName
  {}

  lemma {:induction false} OpenedConsistent(l: seq<Peer>, n: nat)
    requires KeysApart(l) && NamesApart(l) && n <= |l|
    ensures var r := OpenTo(l, n);
      Consistent(r) && "" !in r.peers && forall k :: k in r.peers ==> Among(l, n, r.peers[k])
  {
    if n > 0 {
      var r := OpenTo(l, n - 1);
      OpenedConsistent(l, n - 1);
      if l[n - 1].key != "" {
        EntryIsNew(r, l, n - 1);
        LoadConsistent(r, l[n - 1]);
      }
      forall k | k in OpenTo(l, n).peers ensures Among(l, n, OpenTo(l, n).peers[k]) {
        if k in r.peers && OpenTo(l, n).peers[k] == r.peers[k] {
          assert Among(l, n - 1, r.peers[k]);
        }
      }
    }
  }

  /** A file of any making, one entry per key, loads consistently exactly if no two keys claim one name. */
  lemma OpenConsistentIff(l: seq<Peer>)
    requires KeysApart(l)
    ensures Consistent(Open(l)) <==> NamesApart(l)
  {
    if NamesApart(l) {
      OpenedConsistent(l, |l|);
    } else {
      var i, j :| 0 <= i < j < |l| && Named(l[i]) && Named(l[j]) && l[i].name == l[j].name;
      OpenedNames(l, |l|, l[i].key);
      OpenedNames(l, |l|, l[j].key);
      assert Open(l).nameByKey[l[i].key] == Open(l).nameByKey[l[j].key];
    }
  }

  // ---- writing in order ----------------------------------------------------------------------------

  /** A writer between taking the write lock and releasing it: before and after its change. */
  datatype Writer = Waiting(p: Peer) | Changed(snapshot: seq<Peer>)

  /** Memory, the file, the holder of the write lock, and whether the last save failed. */
  datatype Sys = Sys(mem: Registry, file: seq<Peer>, holder: Option<(int, Writer)>, failed: bool)

  datatype Event =
    | Enter(tid: int, p: Peer)
    | Change(tid: int, now: int, snapshot: seq<Peer>)
    | Save(tid: int, ok: bool)

  predicate Holds(s: Sys, tid: int) {
    s.holder.Some? && s.holder.value.0 == tid
  }

  function Next(s: Sys, e: Event): Sys {
    match e
    case Enter(tid, p) => if s.holder.None? && p.key != "" then s.(holder := Some((tid, Waiting(p)))) else s
    case Change(tid, now, snapshot) =>
      if Holds(s, tid) && s.holder.value.1.Waiting?
      then s.(mem := Upsert(s.mem, s.holder.value.1.p, now), holder := Some((tid, Changed(snapshot)))) else s
    case Save(tid, ok) =>
      if Holds(s, tid) && s.holder.value.1.Changed?
      then s.(file := if ok then s.holder.value.1.snapshot else s.file, holder := None, failed := !ok) else s
  }

  /** The snapshot a writer takes lists the memory it has just changed. */
  ghost predicate Possible(s: Sys, e: Event) {
    e.Change? && Holds(s, e.tid) && s.holder.value.1.Waiting? ==>
      Listing(Upsert(s.mem, s.holder.value.1.p, e.now), e.snapshot)
  }

  /** No peer without a key gets in: opening a file skips it and the one caller of an update refuses it. */
  ghost predicate InOrder(s: Sys) {
    && Consistent(s.mem) && "" !in s.mem.peers
    && (s.holder.Some? && s.holder.value.1.Waiting? ==> s.holder.value.1.p.key != "")
    && (s.holder.Some? && s.holder.value.1.Changed? ==> Listing(s.mem, s.holder.value.1.snapshot))
    && (!(s.holder.Some? && s.holder.value.1.Changed?) && !s.failed ==> Open(s.file) == s.mem)
  }

  lemma StepInOrder(s: Sys, e: Event)
    requires InOrder(s) && Possible(s, e)
    ensures InOrder(Next(s, e))
  {
    if e.Change? && Holds(s, e.tid) && s.holder.value.1.Waiting? {
      UpsertConsistent(s.mem, s.holder.value.1.p, e.now);
    } else if e.Save? && Holds(s, e.tid) && s.holder.value.1.Changed? {
      SaveThenOpen(s.mem, s.holder.value.1.snapshot);
    }
  }

  /** While a writer has the lock, nothing another one does has an effect. */
  lemma OthersWait(s: Sys, e: Event)
    requires s.holder.Some? && e.tid != s.holder.value.0
    ensures Next(s, e) == s
  {}

  /** A writer that gets the lock makes its change, writes its snapshot and frees the lock again. */
  lemma TurnCompletes(s: Sys, tid: int, p: Peer, now: int, snapshot: seq<Peer>, ok: bool)
    requires s.holder.None? && p.key != ""
    ensures Next(Next(Next(s, Enter(tid, p)), Change(tid, now, snapshot)), Save(tid, ok))
            == Sys(Upsert(s.mem, p, now), if ok then snapshot else s.file, None, !ok)
  {}

  /** A process opens the cache file `l`, empty or not, and its writers take their turns. */
  ghost predicate IsHistory(l: seq<Peer>, ss: seq<Sys>, es: seq<Event>) {
    && |ss| == |es| + 1
    && ss[0] == Sys(Open(l), l, None, false)
    && (forall i :: 0 <= i < |es| ==> Possible(ss[i], es[i]) && ss[i + 1] == Next(ss[i], es[i]))
  }

  lemma {:induction false} OpenSkipsKeyless(l: seq<Peer>, n: nat)
    requires n <= |l|
    ensures "" !in OpenTo(l, n).peers
  {
    if n > 0 {
      OpenSkipsKeyless(l, n - 1);
    }
  }

  lemma {:induction false} HistoryInOrder(l: seq<Peer>, ss: seq<Sys>, es: seq<Event>, n: nat)
    requires IsHistory(l, ss, es) && Consistent(Open(l)) && n < |ss|
    ensures InOrder(ss[n])
  {
    if n == 0 {
      OpenSkipsKeyless(l, |l|);
    } else {
      HistoryInOrder(l, ss, es, n - 1);
      StepInOrder(ss[n - 1], es[n - 1]);
    }
  }

  /**
   Whatever consistent file the process opened: whenever no writer is in flight and the
   last save succeeded, opening the file gives exactly what is in memory, under every
   interleaving of the writers.
   */
  lemma FileIsMemory(l: seq<Peer>, ss: seq<Sys>, es: seq<Event>, n: nat)
    requires IsHistory(l, ss, es) && Consistent(Open(l)) && n < |ss| && ss[n].holder.None? && !ss[n].failed
    ensures Open(ss[n].file) == ss[n].mem
  {
    HistoryInOrder(l, ss, es, n);
  }

  // ---- the registry itself ---------------------------------------------------------------------------

  /** Byte-wise order of strings. */
  predicate LessEq(a: string, b: string) {
    a == "" || (b != "" && (a[0] < b[0] || (a[0] == b[0] && LessEq(a[1..], b[1..]))))
  }

  lemma {:induction false} LessEqTotal(a: string, b: string)
    ensures LessEq(a, b) || LessEq(b, a)
  {
    if a != "" && b != "" && a[0] == b[0] {
      LessEqTotal(a[1..], b[1..]);
    }
  }

  lemma {:induction false} LessEqTransitive(a: string, b: string, c: string)
    requires LessEq(a, b) && LessEq(b, c)
    ensures LessEq(a, c)
  {
    if a != "" && a[0] == b[0] && b[0] == c[0] {
      LessEqTransitive(a[1..], b[1..], c[1..]);
    }
  }

  ghost predicate Sorted(l: seq<Peer>) {
    forall i, j :: 0 <= i < j < |l| ==> LessEq(l[i].id, l[j].id)
  }

  /** Put one peer in its place in a sorted list. */
  method InsertById(l: seq<Peer>, p: Peer) returns (out: seq<Peer>, ghost at: nat)
    requires Sorted(l)
    ensures Sorted(out) && at <= |l| && out == l[..at] + [p] + l[at..]
  {
    var i := 0;
    while i < |l| && LessEq(l[i].id, p.id)
      invariant i <= |l| && forall j :: 0 <= j < i ==> LessEq(l[j].id, p.id)
    {
      i := i + 1;
    }
    out, at := l[..i] + [p] + l[i..], i;
    forall j | i <= j < |l| ensures LessEq(p.id, l[j].id) {
      LessEqTotal(l[i].id, p.id);
      if i < j {
        LessEqTransitive(p.id, l[i].id, l[j].id);
      }
    }
  }

  /** `l` lists exactly the peers with keys in `done`, once each. */
  ghost predicate ListsOnly(peers: map<string, Peer>, done: set<string>, l: seq<Peer>) {
    && (forall p :: p in l ==> p.key in done && p.key in peers && peers[p.key] == p)
    && KeysApart(l)
    && (forall k :: k in done && k in peers ==> peers[k] in l)
  }

  lemma InsertLists(peers: map<string, Peer>, done: set<string>, l: seq<Peer>, k: string, at: nat)
    requires ListsOnly(peers, done, l) && k in peers && k !in done && peers[k].key == k && at <= |l|
    ensures ListsOnly(peers, done + {k}, l[..at] + [peers[k]] + l[at..])
  {
    var out := l[..at] + [peers[k]] + l[at..];
    InsertedAt(l, at, peers[k]);
    InsertedMembers(l, at, peers[k], out);
    forall x | x in done + {k} && x in peers ensures peers[x] in out {
      assert x == k || peers[x] in l;
    }
    InsertedApart(l, at, peers[k], out);
  }

  ghost predicate Inserted(l: seq<Peer>, at: nat, p: Peer, out: seq<Peer>) {
    && at <= |l| && |out| == |l| + 1 && out[at] == p
    && (forall i :: 0 <= i < at ==> out[i] == l[i])
    && (forall i :: at < i < |out| ==> out[i] == l[i - 1])
  }

  lemma InsertedAt(l: seq<Peer>, at: nat, p: Peer)
    requires at <= |l|
    ensures Inserted(l, at, p, l[..at] + [p] + l[at..])
  {}

  lemma InsertedMembers(l: seq<Peer>, at: nat, p: Peer, out: seq<Peer>)
    requires Inserted(l, at, p, out)
    ensures forall x :: x in out <==> x == p || x in l
  {
    forall x | x in l ensures x in out {
      var i :| 0 <= i < |l| && l[i] == x;
      assert out[if i < at then i else i + 1] == x;
    }
  }

  lemma InsertedApart(l: seq<Peer>, at: nat, p: Peer, out: seq<Peer>)
    requires Inserted(l, at, p, out) && KeysApart(l) && forall i :: 0 <= i < |l| ==> l[i].key != p.key
    ensures KeysApart(out)
  {}

  class Roster {
    var peers: map<string, Peer>
    var nameByKey: map<string, string>
    var keyByName: map<string, string>

    ghost function Abs(): Registry
      reads this
    {
      Registry(peers, nameByKey, keyByName)
    }

    /** Load the entries of a cache file. */
    constructor (l: seq<Peer>)
      ensures Abs() == Open(l)
    {
      var r := EMPTY;
      for i := 0 to |l|
        invariant r == OpenTo(l, i)
      {
        if l[i].key != "" {
          r := Loaded(r, l[i]);
        }
      }
      peers, nameByKey, keyByName := r.peers, r.nameByKey, r.keyByName;
    }

    /** The name to store for this key: the first one it was seen with, unless another key has it. */
    method PinName(key: string, name: string) returns (pinned: string)
      modifies this`nameByKey, this`keyByName
      ensures pinned == if Pins(old(Abs()), key, name) then name else PinnedName(old(Abs()), key)
      ensures nameByKey == if Pins(old(Abs()), key, name) then old(nameByKey)[key := name] else old(nameByKey)
      ensures keyByName == if Pins(old(Abs()), key, name) then old(keyByName)[name := key] else old(keyByName)
    {
      if name == "" {
        return if key in nameByKey then nameByKey[key] else "";
      }
      if key in nameByKey {
        return nameByKey[key];
      }
      if name in keyByName && keyByName[name] != key {
        return "";
      }
      nameByKey := nameByKey[key := name];
      keyByName := keyByName[name := key];
      return name;
    }

    /** Every peer once, ordered by id. */
    method List() returns (out: seq<Peer>)
      requires Consistent(Abs())
      ensures Listing(Abs(), out) && Sorted(out)
    {
      out := [];
      ghost var done := {};
      var todo := peers.Keys;
      while todo != {}
        invariant done == peers.Keys - todo && todo <= peers.Keys
        invariant Sorted(out) && ListsOnly(peers, done, out)
        decreases todo
      {
        var k := Pick(todo);
        todo := todo - {k};
        ghost var was, at := out, 0;
        out, at := InsertById(out, peers[k]);
        InsertLists(peers, done, was, k, at);
        done := done + {k};
      }
      assert done == peers.Keys;
    }

    /** Merge one sighting; the caller writes the returned snapshot before the next one enters. */
    method Update(p: Peer, now: int) returns (snapshot: seq<Peer>)
      requires Consistent(Abs())
      modifies this
      ensures Abs() == Upsert(old(Abs()), p, now) && Consistent(Abs())
      ensures Listing(Abs(), snapshot) && Sorted(snapshot)
    {
      UpsertConsistent(Abs(), p, now);
      var q := if p.lastSeen == 0 then p.(lastSeen := now) else p;
      var pinned := PinName(p.key, p.name);
      peers := peers[p.key := q.(name := pinned)];
      snapshot := List();
    }
  }
}
