/**
 The supervisor's worker set (internal/role/peersfile.go): the manifest and the stored
 sessions, minus the revoked, within the limit and without address collisions.
 */
module AssemblePeers {
  import opened TrustState

  datatype Vip = Vip(id: int)

  /** A manifest entry, or a reconnect-only peer known from its session alone. */
  datatype Peer = FromManifest(key: Key, entry: Entry) | FromSession(key: Key)

  datatype Outcome = Peers(peers: seq<Peer>) | TooMany | Collision

  function Listed(manifest: seq<Peer>, revoked: set<Key>, n: nat): seq<Peer>
    requires n <= |manifest|
  {
    if n == 0 then []
    else if manifest[n - 1].key in revoked then Listed(manifest, revoked, n - 1)
    else Listed(manifest, revoked, n - 1) + [manifest[n - 1]]
  }

  function KeysOf(ps: seq<Peer>): set<Key> {
    set p | p in ps :: p.key
  }

  /** Sessions of keys that are neither revoked nor in the manifest, one peer per line. */
  function Reconnecting(sessions: seq<Key>, revoked: set<Key>, covered: set<Key>, n: nat): seq<Peer>
    requires n <= |sessions|
  {
    if n == 0 then []
    else if sessions[n - 1] in revoked || sessions[n - 1] in covered
      then Reconnecting(sessions, revoked, covered, n - 1)
    else Reconnecting(sessions, revoked, covered, n - 1) + [FromSession(sessions[n - 1])]
  }

  function Candidates(manifest: seq<Peer>, revoked: set<Key>, sessions: seq<Key>): seq<Peer> {
    var listed := Listed(manifest, revoked, |manifest|);
    listed + Reconnecting(sessions, revoked, KeysOf(listed), |sessions|)
  }

  ghost predicate AddressesApart(ps: seq<Peer>, vip: Key -> Vip) {
    forall i, j :: 0 <= i < j < |ps| ==> vip(ps[i].key) != vip(ps[j].key)
  }

  function SessionKeys(sessions: seq<Key>): set<Key> {
    set k | k in sessions
  }

  lemma {:induction false} ListedKeys(manifest: seq<Peer>, revoked: set<Key>, n: nat, k: Key)
    requires n <= |manifest|
    ensures k in KeysOf(Listed(manifest, revoked, n)) <==>
      k !in revoked && exists i :: 0 <= i < n && manifest[i].key == k
  {
    if n > 0 {
      ListedKeys(manifest, revoked, n - 1, k);
      var before, p := Listed(manifest, revoked, n - 1), manifest[n - 1];
      if p.key !in revoked {
        KeysAppend(before, p);
      }
    }
  }

  lemma KeysAppend(ps: seq<Peer>, p: Peer)
    ensures KeysOf(ps + [p]) == KeysOf(ps) + {p.key}
  {}

  lemma {:induction false} ReconnectingKeys(sessions: seq<Key>, revoked: set<Key>, covered: set<Key>, n: nat, k: Key)
    requires n <= |sessions|
    ensures k in KeysOf(Reconnecting(sessions, revoked, covered, n)) <==>
      k !in revoked && k !in covered && exists i :: 0 <= i < n && sessions[i] == k
  {
    if n > 0 {
      ReconnectingKeys(sessions, revoked, covered, n - 1, k);
      var before, x := Reconnecting(sessions, revoked, covered, n - 1), sessions[n - 1];
      if x !in revoked && x !in covered {
        KeysAppend(before, FromSession(x));
      }
    }
  }

  lemma KeysConcat(a: seq<Peer>, b: seq<Peer>)
    ensures KeysOf(a + b) == KeysOf(a) + KeysOf(b)
  {}

  /** The assembled keys are exactly manifest union sessions, minus the revoked. */
  lemma CandidateKeys(manifest: seq<Peer>, revoked: set<Key>, sessions: seq<Key>)
    ensures KeysOf(Candidates(manifest, revoked, sessions)) == (KeysOf(manifest) + SessionKeys(sessions)) - revoked
  {
    var listed := Listed(manifest, revoked, |manifest|);
    var rest := Reconnecting(sessions, revoked, KeysOf(listed), |sessions|);
    KeysConcat(listed, rest);
    forall k ensures k in KeysOf(listed + rest) <==> k in (KeysOf(manifest) + SessionKeys(sessions)) - revoked {
      ListedKeys(manifest, revoked, |manifest|, k);
      ReconnectingKeys(sessions, revoked, KeysOf(listed), |sessions|, k);
      assert k in KeysOf(manifest) <==> exists i :: 0 <= i < |manifest| && manifest[i].key == k by {
        if i :| 0 <= i < |manifest| && manifest[i].key == k {
          assert manifest[i] in manifest;
        }
      }
    }
  }

  ghost predicate OnePerKey(ps: seq<Peer>) {
    forall i, j :: 0 <= i < j < |ps| ==> ps[i].key != ps[j].key
  }

  /** Entries whose addresses differ have different keys, so there is one peer per key. */
  lemma ApartMeansUnique(ps: seq<Peer>, vip: Key -> Vip)
    requires AddressesApart(ps, vip)
    ensures OnePerKey(ps)
  {}

  // ---- what a collision means ---------------------------------------------------------------

  lemma OncePush(ps: seq<Peer>, p: Peer)
    ensures OnePerKey(ps + [p]) <==> OnePerKey(ps) && p.key !in KeysOf(ps)
  {
    if OnePerKey(ps + [p]) {
      forall i | 0 <= i < |ps| ensures ps[i].key != p.key {
        assert (ps + [p])[i] == ps[i] && (ps + [p])[|ps|] == p;
      }
      forall i, j | 0 <= i < j < |ps| ensures ps[i].key != ps[j].key {
        assert (ps + [p])[i] == ps[i] && (ps + [p])[j] == ps[j];
      }
    }
  }

  lemma OnceConcat(a: seq<Peer>, b: seq<Peer>)
    requires KeysOf(a) !! KeysOf(b)
    ensures OnePerKey(a + b) <==> OnePerKey(a) && OnePerKey(b)
  {
    var c := a + b;
    if OnePerKey(c) {
      forall i, j | 0 <= i < j < |a| ensures a[i].key != a[j].key {
        assert c[i] == a[i] && c[j] == a[j];
      }
      forall i, j | 0 <= i < j < |b| ensures b[i].key != b[j].key {
        assert c[|a| + i] == b[i] && c[|a| + j] == b[j];
      }
    }
    forall i, j | 0 <= i < |a| && 0 <= j < |b| ensures a[i].key != b[j].key {
      assert a[i].key in KeysOf(a) && b[j].key in KeysOf(b);
    }
  }

  lemma {:induction false} ListedOnce(manifest: seq<Peer>, revoked: set<Key>, n: nat)
    requires n <= |manifest| && OnePerKey(manifest)
    ensures OnePerKey(Listed(manifest, revoked, n))
  {
    if n > 0 {
      ListedOnce(manifest, revoked, n - 1);
      ListedKeys(manifest, revoked, n - 1, manifest[n - 1].key);
      OncePush(Listed(manifest, revoked, n - 1), manifest[n - 1]);
    }
  }

  /** Two of the first `n` session lines are for one key that is neither revoked nor covered. */
  ghost predicate TwoLines(sessions: seq<Key>, revoked: set<Key>, covered: set<Key>, n: nat)
    requires n <= |sessions|
  {
    exists i, j :: 0 <= i < j < n && sessions[i] == sessions[j] && sessions[i] !in revoked && sessions[i] !in covered
  }

  lemma TwoLinesStep(sessions: seq<Key>, revoked: set<Key>, covered: set<Key>, n: nat)
    requires 0 < n <= |sessions|
    ensures var x := sessions[n - 1];
      TwoLines(sessions, revoked, covered, n) <==>
        || TwoLines(sessions, revoked, covered, n - 1)
        || (x !in revoked && x !in covered && exists i :: 0 <= i < n - 1 && sessions[i] == x)
  {}

  lemma {:induction false} ReconnectingOnce(sessions: seq<Key>, revoked: set<Key>, covered: set<Key>, n: nat)
    requires n <= |sessions|
    ensures OnePerKey(Reconnecting(sessions, revoked, covered, n)) <==> !TwoLines(sessions, revoked, covered, n)
  {
    if n > 0 {
      var before, x := Reconnecting(sessions, revoked, covered, n - 1), sessions[n - 1];
      ReconnectingOnce(sessions, revoked, covered, n - 1);
      TwoLinesStep(sessions, revoked, covered, n);
      if x !in revoked && x !in covered {
        ReconnectingKeys(sessions, revoked, covered, n - 1, x);
        OncePush(before, FromSession(x));
      }
    }
  }

  /** There is one candidate per key exactly if no key the manifest lacks has two session lines. */
  lemma OneCandidateIff(manifest: seq<Peer>, revoked: set<Key>, sessions: seq<Key>)
    requires OnePerKey(manifest)
    ensures OnePerKey(Candidates(manifest, revoked, sessions)) <==>
      !TwoLines(sessions, revoked, KeysOf(manifest), |sessions|)
  {
    var listed := Listed(manifest, revoked, |manifest|);
    var covered := KeysOf(listed);
    var rest := Reconnecting(sessions, revoked, covered, |sessions|);
    ListedOnce(manifest, revoked, |manifest|);
    ReconnectingOnce(sessions, revoked, covered, |sessions|);
    forall k | k in KeysOf(rest) ensures k !in covered {
      ReconnectingKeys(sessions, revoked, covered, |sessions|, k);
    }
    OnceConcat(listed, rest);
    forall k | k !in revoked ensures k in covered <==> k in KeysOf(manifest) {
      ListedKeys(manifest, revoked, |manifest|, k);
      KeysAt(manifest, k);
    }
  }

  lemma KeysAt(ps: seq<Peer>, k: Key)
    ensures k in KeysOf(ps) <==> exists i :: 0 <= i < |ps| && ps[i].key == k
  {
    if i :| 0 <= i < |ps| && ps[i].key == k {
      assert ps[i] in ps;
    }
  }

  /** Two different assembled keys map to one address. */
  ghost predicate KeysCollide(ks: set<Key>, vip: Key -> Vip) {
    exists a, b :: a in ks && b in ks && a != b && vip(a) == vip(b)
  }

  lemma ApartIff(ps: seq<Peer>, vip: Key -> Vip)
    ensures AddressesApart(ps, vip) <==> OnePerKey(ps) && !KeysCollide(KeysOf(ps), vip)
  {
    if AddressesApart(ps, vip) {
      forall a, b | a in KeysOf(ps) && b in KeysOf(ps) && vip(a) == vip(b) ensures a == b {
        KeysAt(ps, a);
        KeysAt(ps, b);
      }
    }
    forall i | 0 <= i < |ps| ensures ps[i].key in KeysOf(ps) {
      KeysAt(ps, ps[i].key);
    }
  }

  /**
   With a manifest as it is loaded, one entry per key: addresses collide if and only if two
   different assembled keys map to one address, or a key the manifest lacks has two session
   lines. So a reported collision means two distinct keys exactly unless the latter is the case.
   */
  lemma CollisionIff(manifest: seq<Peer>, revoked: set<Key>, sessions: seq<Key>, vip: Key -> Vip)
    requires OnePerKey(manifest)
    ensures !AddressesApart(Candidates(manifest, revoked, sessions), vip) <==>
      || KeysCollide((KeysOf(manifest) + SessionKeys(sessions)) - revoked, vip)
      || TwoLines(sessions, revoked, KeysOf(manifest), |sessions|)
  {
    ApartIff(Candidates(manifest, revoked, sessions), vip);
    OneCandidateIff(manifest, revoked, sessions);
    CandidateKeys(manifest, revoked, sessions);
  }

  /** Two session lines of one such key collide with themselves, whatever the addresses are. */
  lemma TwoLinesCollide(manifest: seq<Peer>, revoked: set<Key>, sessions: seq<Key>, vip: Key -> Vip, i: nat, j: nat)
    requires OnePerKey(manifest) && i < j < |sessions| && sessions[i] == sessions[j]
    requires sessions[i] !in revoked && sessions[i] !in KeysOf(manifest)
    ensures !AddressesApart(Candidates(manifest, revoked, sessions), vip)
  {
    CollisionIff(manifest, revoked, sessions, vip);
  }

  // ---- assembling -----------------------------------------------------------------------------

  /** Manifest entries keep their own data; only what the manifest lacks is reconnect-only. */
  lemma {:induction false} ListedKept(manifest: seq<Peer>, revoked: set<Key>, n: nat, p: Peer)
    requires n <= |manifest|
    ensures p in Listed(manifest, revoked, n) <==> p.key !in revoked && p in manifest[..n]
  {
    if n > 0 {
      ListedKept(manifest, revoked, n - 1, p);
      assert manifest[..n] == manifest[..n - 1] + [manifest[n - 1]];
    }
  }

  /** Assemble, refusing a set that is too large or whose virtual addresses collide. */
  method Assemble(manifest: seq<Peer>, revoked: set<Key>, sessions: seq<Key>, vip: Key -> Vip) returns (r: Outcome)
    ensures var c := Candidates(manifest, revoked, sessions);
      && (r == TooMany <==> |c| > 48)
      && (r == Collision <==> |c| <= 48 && !AddressesApart(c, vip))
      && (r.Peers? ==> r.peers == c)
    ensures r.Peers? ==> |r.peers| <= 48 && OnePerKey(r.peers)
    ensures r.Peers? ==> KeysOf(r.peers) == (KeysOf(manifest) + SessionKeys(sessions)) - revoked
  {
    CandidateKeys(manifest, revoked, sessions);
    var covered: set<Key>, specs: seq<Peer> := {}, [];
    for i := 0 to |manifest|
      invariant specs == Listed(manifest, revoked, i) && covered == KeysOf(specs)
    {
      if manifest[i].key !in revoked {
        KeysAppend(specs, manifest[i]);
        covered := covered + {manifest[i].key};
        specs := specs + [manifest[i]];
      }
    }
    ghost var listed := specs;
    for i := 0 to |sessions|
      invariant specs == listed + Reconnecting(sessions, revoked, covered, i)
    {
      if sessions[i] !in revoked && sessions[i] !in covered {
        specs := specs + [FromSession(sessions[i])];
      }
    }
    if |specs| > MAX_BUDDIES {
      return TooMany;
    }
    var apart := CheckAddresses(specs, vip);
    if !apart {
      return Collision;
    }
    ApartMeansUnique(specs, vip);
    return Peers(specs);
  }

  /** No address twice, address by address. */
  method CheckAddresses(specs: seq<Peer>, vip: Key -> Vip) returns (apart: bool)
    ensures apart <==> AddressesApart(specs, vip)
  {
    var vips: set<Vip> := {};
    for i := 0 to |specs|
      invariant forall v :: v in vips <==> exists j :: 0 <= j < i && vip(specs[j].key) == v
      invariant forall j, k :: 0 <= j < k < i ==> vip(specs[j].key) != vip(specs[k].key)
    {
      if vip(specs[i].key) in vips {
        return false;
      }
      vips := vips + {vip(specs[i].key)};
    }
    return true;
  }
}
