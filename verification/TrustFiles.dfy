/**
 The transactions of internal/role/peerscmd.go and internal/role/trustlock.go on the
 lists the files hold. A transaction may be cut short by an error or a crash after any
 number of its writes; each is proved to leave exactly that prefix of the writes which
 `TrustState` interleaves.
 */
module TrustFiles {
  import opened Common
  import opened TrustState

  /** A revoked key and the operator's note, kept verbatim across rewrites. */
  datatype Tomb = Tomb(key: Key, note: string)

  datatype Spec = Spec(key: Key, entry: Entry)

  function KeysTo(es: seq<Tomb>, n: nat): set<Key>
    requires n <= |es|
  {
    if n == 0 then {} else KeysTo(es, n - 1) + {es[n - 1].key}
  }

  function RevokedKeys(es: seq<Tomb>): set<Key> {
    KeysTo(es, |es|)
  }

  function WithoutTo(es: seq<Tomb>, k: Key, n: nat): seq<Tomb>
    requires n <= |es|
  {
    if n == 0 then []
    else if es[n - 1].key == k then WithoutTo(es, k, n - 1)
    else WithoutTo(es, k, n - 1) + [es[n - 1]]
  }

  lemma {:induction false} KeysOfAppend(a: seq<Tomb>, b: seq<Tomb>, n: nat)
    requires n <= |a|
    ensures KeysTo(a + b, n) == KeysTo(a, n)
  {
    if n > 0 {
      KeysOfAppend(a, b, n - 1);
    }
  }

  lemma {:induction false} ListsIsIn(es: seq<Tomb>, k: Key, n: nat)
    requires n <= |es|
    ensures k in KeysTo(es, n) <==> exists i :: 0 <= i < n && es[i].key == k
  {
    if n > 0 {
      ListsIsIn(es, k, n - 1);
    }
  }

  lemma {:induction false} WithoutKeys(es: seq<Tomb>, k: Key, n: nat)
    requires n <= |es|
    ensures RevokedKeys(WithoutTo(es, k, n)) == KeysTo(es, n) - {k}
  {
    if n > 0 {
      WithoutKeys(es, k, n - 1);
      if es[n - 1].key != k {
        var w := WithoutTo(es, k, n - 1);
        KeysOfAppend(w, [es[n - 1]], |w|);
      }
    }
  }

  // ---- the manifest list ------------------------------------------------------------

  /** The loader refuses a manifest that lists a key twice. */
  ghost predicate NoDuplicates(ss: seq<Spec>) {
    forall i, j :: 0 <= i < j < |ss| ==> ss[i].key != ss[j].key
  }

  function ManifestTo(ss: seq<Spec>, n: nat): map<Key, Entry>
    requires n <= |ss|
  {
    if n == 0 then map[] else ManifestTo(ss, n - 1)[ss[n - 1].key := ss[n - 1].entry]
  }

  function ManifestOf(ss: seq<Spec>): map<Key, Entry> {
    ManifestTo(ss, |ss|)
  }

  function UnlistedTo(ss: seq<Spec>, k: Key, n: nat): seq<Spec>
    requires n <= |ss|
  {
    if n == 0 then []
    else if ss[n - 1].key == k then UnlistedTo(ss, k, n - 1)
    else UnlistedTo(ss, k, n - 1) + [ss[n - 1]]
  }

  lemma {:induction false} ManifestAppend(a: seq<Spec>, b: seq<Spec>, n: nat)
    requires n <= |a|
    ensures ManifestTo(a + b, n) == ManifestTo(a, n)
  {
    if n > 0 {
      ManifestAppend(a, b, n - 1);
    }
  }

  lemma {:induction false} ManifestKeys(ss: seq<Spec>, k: Key, n: nat)
    requires n <= |ss|
    ensures k in ManifestTo(ss, n) <==> exists i :: 0 <= i < n && ss[i].key == k
  {
    if n > 0 {
      ManifestKeys(ss, k, n - 1);
    }
  }

  lemma {:induction false} ManifestSize(ss: seq<Spec>, n: nat)
    requires NoDuplicates(ss) && n <= |ss|
    ensures |ManifestTo(ss, n)| == n
  {
    if n > 0 {
      ManifestSize(ss, n - 1);
      ManifestKeys(ss, ss[n - 1].key, n - 1);
      assert ManifestTo(ss, n).Keys == ManifestTo(ss, n - 1).Keys + {ss[n - 1].key};
    }
  }

  lemma {:induction false} UnlistedManifest(ss: seq<Spec>, k: Key, n: nat)
    requires n <= |ss|
    ensures ManifestOf(UnlistedTo(ss, k, n)) == ManifestTo(ss, n) - {k}
  {
    if n > 0 {
      UnlistedManifest(ss, k, n - 1);
      if ss[n - 1].key != k {
        var u := UnlistedTo(ss, k, n - 1);
        ManifestAppend(u, [ss[n - 1]], |u|);
      }
    }
  }

  lemma {:induction false} UnlistedUnique(ss: seq<Spec>, k: Key, n: nat)
    requires NoDuplicates(ss) && n <= |ss|
    ensures NoDuplicates(UnlistedTo(ss, k, n))
    ensures forall i :: 0 <= i < |UnlistedTo(ss, k, n)| ==>
      exists j :: 0 <= j < n && UnlistedTo(ss, k, n)[i] == ss[j]
  {
    if n > 0 {
      UnlistedUnique(ss, k, n - 1);
    }
  }

  // ---- prefixes of a transaction ----------------------------------------------------------

  /** The files after the first `n` writes of a transaction, stopping at one not permitted. */
  function Prefix(f: Files, ws: seq<Write>, n: nat): Files
    requires n <= |ws|
    decreases n, 1
  {
    if n == 0 then f
    else if Goes(f, ws, n) then Written(Prefix(f, ws, n - 1), Prefix(f, ws, n - 1), ws[n - 1])
    else Prefix(f, ws, n - 1)
  }

  /** All of the first `n` writes are permitted when their turn comes. */
  predicate Goes(f: Files, ws: seq<Write>, n: nat)
    requires n <= |ws|
    decreases n, 0
  {
    n == 0 || (Goes(f, ws, n - 1) && Permitted(Prefix(f, ws, n - 1), ws[n - 1]))
  }

  /** A finished removal, from whatever half-done state it starts, has removed everything. */
  lemma {:induction false} RemovalCompletes(f: Files, k: Key)
    ensures Prefix(f, Writes(Removing(k)), 3)
            == f.(revoked := f.revoked + {k}, sessions := f.sessions - {Canonical(k)}, manifest := f.manifest - {k})
  {
    var ws := Writes(Removing(k));
    assert Goes(f, ws, 0) && Prefix(f, ws, 0) == f;
    assert Goes(f, ws, 1) && Prefix(f, ws, 1) == Written(f, f, ws[0]);
    assert Goes(f, ws, 2) && Prefix(f, ws, 2) ==
        f.(revoked := f.revoked + {k}, sessions := f.sessions - {Canonical(k)});
    assert Goes(f, ws, 3);
  }

  /** A finished addition leaves the buddy listed and allowed, unless a full manifest refuses it. */
  lemma AdditionCompletes(f: Files, k: Key, entry: Entry)
    ensures var g := Prefix(f, Writes(Adding(k, entry)), 2);
      if k !in f.manifest && |f.manifest| >= 48 then g == f
      else g == f.(revoked := f.revoked - {k},
                   manifest := if k in f.manifest then f.manifest else f.manifest[k := entry])
  {
    var ws := Writes(Adding(k, entry));
    assert Goes(f, ws, 0) && Prefix(f, ws, 0) == f;
    if Goes(f, ws, 1) {
      assert Prefix(f, ws, 1) == Written(f, f, ws[0]);
      assert Goes(f, ws, 2);
    } else {
      assert Prefix(f, ws, 1) == f && !Goes(f, ws, 2);
    }
  }

  /** A finished allow has lifted the tombstone and done nothing else. */
  lemma AllowCompletes(f: Files, k: Key)
    ensures Prefix(f, Writes(Allowing(k)), 1) == f.(revoked := f.revoked - {k})
  {
    var ws := Writes(Allowing(k));
    assert Goes(f, ws, 0) && Prefix(f, ws, 0) == f && Goes(f, ws, 1);
  }

  /** A finished save has stored the secret for that spelling, unless the list holds that very spelling. */
  lemma SaveCompletes(f: Files, partner: Spelling, secret: Secret)
    ensures Prefix(f, Writes(Saving(partner, secret)), 1)
            == if partner.key in f.revoked && partner.variant == 0 then f
               else f.(sessions := f.sessions[partner := secret])
  {
    var ws := Writes(Saving(partner, secret));
    assert Goes(f, ws, 0) && Prefix(f, ws, 0) == f;
    assert Goes(f, ws, 1) <==> !(partner.key in f.revoked && partner.variant == 0);
  }

  /** And finished learning has recorded the key for the token, unless it is revoked. */
  lemma LearningCompletes(f: Files, token: TokenKey, k: Key)
    ensures Prefix(f, Writes(Learning(token, k)), 1)
            == if k in f.revoked then f else f.(trust := f.trust + {(token, k)})
  {
    var ws := Writes(Learning(token, k));
    assert Goes(f, ws, 0) && Prefix(f, ws, 0) == f;
    assert Goes(f, ws, 1) <==> k !in f.revoked;
  }

  // ---- the same by the steps of a process --------------------------------------------------------

  /** A process that finds the lock free and is not interrupted, with `n` writes behind it. */
  function Alone(s: Sys, p: Pid, task: Task, n: nat): Sys {
    if n == 0 then Next(s, Begin(p, task)) else Next(Next(Alone(s, p, task, n - 1), Read(p)), Commit(p))
  }

  ghost predicate Halfway(s: Sys, p: Pid, task: Task, n: nat) {
    p in s.locals && s.locals[p] == Locked(task, n, None)
  }

  /** The transaction has made its first `n` writes, or has ended at one before that was not permitted. */
  ghost predicate Along(f: Files, ws: seq<Write>, t: Sys, p: Pid, task: Task, n: nat)
    requires n <= |ws|
  {
    && t.files == Prefix(f, ws, n)
    && if Goes(f, ws, n) then Halfway(t, p, task, n) else p !in t.locals
  }

  /** Left alone, a transaction makes its writes one after the other, up to one that is not permitted. */
  lemma {:induction false} AloneIsPrefix(s: Sys, p: Pid, task: Task, n: nat)
    requires s.lock == None && p !in s.locals && n <= |Writes(task)|
    ensures Along(s.files, Writes(task), Alone(s, p, task, n), p, task, n)
  {
    if n == 0 {
      AloneStarts(s, p, task);
    } else {
      var t := Alone(s, p, task, n - 1);
      AloneIsPrefix(s, p, task, n - 1);
      AloneStep(t, p, task, n - 1);
      AlongOn(s.files, Writes(task), t, Alone(s, p, task, n), p, task, n);
    }
  }

  lemma AloneStarts(s: Sys, p: Pid, task: Task)
    requires s.lock == None && p !in s.locals
    ensures Along(s.files, Writes(task), Next(s, Begin(p, task)), p, task, 0)
  {}

  lemma AlongOn(f: Files, ws: seq<Write>, t: Sys, t': Sys, p: Pid, task: Task, n: nat)
    requires 0 < n <= |ws| && Along(f, ws, t, p, task, n - 1) && Stepped(t, t', p, task, n - 1, ws[n - 1])
    ensures Along(f, ws, t', p, task, n)
  {
    PrefixStep(f, ws, n);
  }

  lemma PrefixStep(f: Files, ws: seq<Write>, n: nat)
    requires 0 < n <= |ws|
    ensures var g := Prefix(f, ws, n - 1);
      && (Goes(f, ws, n) <==> Goes(f, ws, n - 1) && Permitted(g, ws[n - 1]))
      && Prefix(f, ws, n) == if Goes(f, ws, n) then Written(g, g, ws[n - 1]) else g
  {}

  /** Write `n`, made if the process is still at it and the write is permitted. */
  ghost predicate Stepped(t: Sys, t': Sys, p: Pid, task: Task, n: nat, w: Write) {
    if p !in t.locals then t'.files == t.files && p !in t'.locals
    else if Permitted(t.files, w) then t'.files == Written(t.files, t.files, w) && Halfway(t', p, task, n + 1)
    else t'.files == t.files && p !in t'.locals
  }

  lemma AloneStep(t: Sys, p: Pid, task: Task, n: nat)
    requires n < |Writes(task)| && (Halfway(t, p, task, n) || p !in t.locals)
    ensures Stepped(t, Next(Next(t, Read(p)), Commit(p)), p, task, n, Writes(task)[n])
  {
    var r := Next(t, Read(p));
    if p in t.locals {
      assert Pending(r, p) == Some((Writes(task)[n], t.files));
    }
  }

  // ---- the transactions ------------------------------------------------------------------------

  class Store {
    var manifest: seq<Spec>
    var sessions: map<Spelling, Secret>
    var trust: set<(TokenKey, Key)>
    var revoked: seq<Tomb>

    ghost function Abs(): Files
      reads this
    {
      Files(ManifestOf(manifest), sessions, trust, RevokedKeys(revoked))
    }

    method IsRevoked(k: Key) returns (yes: bool)
      ensures yes <==> k in Abs().revoked
    {
      ListsIsIn(revoked, k, |revoked|);
      for i := 0 to |revoked|
        invariant forall j :: 0 <= j < i ==> revoked[j].key != k
      {
        if revoked[i].key == k {
          return true;
        }
      }
      return false;
    }

    /** Append a tombstone unless there is one already; older entries keep their notes. */
    method AddRevoked(k: Key, note: string) returns (added: bool)
      modifies this`revoked
      ensures Abs() == Written(old(Abs()), old(Abs()), Tombstone(k))
      ensures added <==> k !in old(Abs()).revoked
      ensures revoked == if added then old(revoked) + [Tomb(k, note)] else old(revoked)
    {
      var listed := IsRevoked(k);
      if listed {
        return false;
      }
      KeysOfAppend(revoked, [Tomb(k, note)], |revoked|);
      revoked := revoked + [Tomb(k, note)];
      return true;
    }

    /** Lift a tombstone; the other entries stay, in order and with their notes. */
    method RemoveRevoked(k: Key) returns (removed: bool)
      modifies this`revoked
      ensures Abs() == Written(old(Abs()), old(Abs()), Lift(k))
      ensures removed <==> k in old(Abs()).revoked
      ensures revoked == if removed then WithoutTo(old(revoked), k, |old(revoked)|) else old(revoked)
    {
      var kept: seq<Tomb> := [];
      removed := false;
      for i := 0 to |revoked|
        invariant kept == WithoutTo(revoked, k, i)
        invariant removed <==> exists j :: 0 <= j < i && revoked[j].key == k
      {
        if revoked[i].key == k {
          removed := true;
        } else {
          kept := kept + [revoked[i]];
        }
      }
      ListsIsIn(revoked, k, |revoked|);
      WithoutKeys(revoked, k, |revoked|);
      if removed {
        revoked := kept;
      }
    }

    /** Drop the buddy's manifest entry, keeping every other in order. */
    method RemoveManifestEntry(k: Key) returns (removed: nat)
      requires NoDuplicates(manifest)
      modifies this`manifest
      ensures NoDuplicates(manifest) && Abs() == Written(old(Abs()), old(Abs()), DropManifest(k))
      ensures removed > 0 <==> k in old(Abs()).manifest
      ensures removed > 0 ==> manifest == UnlistedTo(old(manifest), k, |old(manifest)|)
    {
      var kept: seq<Spec> := [];
      removed := 0;
      for i := 0 to |manifest|
        invariant kept == UnlistedTo(manifest, k, i)
        invariant removed > 0 <==> exists j :: 0 <= j < i && manifest[j].key == k
      {
        if manifest[i].key == k {
          removed := removed + 1;
        } else {
          kept := kept + [manifest[i]];
        }
      }
      ManifestKeys(manifest, k, |manifest|);
      UnlistedManifest(manifest, k, |manifest|);
      UnlistedUnique(manifest, k, |manifest|);
      if removed > 0 {
        manifest := kept;
      }
    }

    /** Revoke a buddy: tombstone, then session, then manifest, cut short after `reach` writes. */
    method PeersRemove(k: Key, note: string, reach: nat) returns (finished: bool, inEffect: bool)
      requires NoDuplicates(manifest)
      modifies this
      ensures NoDuplicates(manifest)
      ensures Abs() == Prefix(old(Abs()), Writes(Removing(k)), if reach < 3 then reach else 3)
      ensures finished <==> reach >= 3
      ensures inEffect <==> reach >= 1
      ensures inEffect ==> k in Abs().revoked
    {
      ghost var f, ws := Abs(), Writes(Removing(k));
      assert Goes(f, ws, 0) && Prefix(f, ws, 0) == f;
      if reach == 0 {
        return false, false;
      }
      var _ := AddRevoked(k, note);
      assert Goes(f, ws, 1) && Prefix(f, ws, 1) == Abs();
      if reach == 1 {
        return false, true;
      }
      sessions := sessions - {Canonical(k)};
      assert Goes(f, ws, 2) && Prefix(f, ws, 2) == Abs();
      if reach == 2 {
        return false, true;
      }
      var _ := RemoveManifestEntry(k);
      assert Goes(f, ws, 3);
      return true, true;
    }

    method Listed(k: Key) returns (yes: bool)
      ensures yes <==> k in Abs().manifest
    {
      ManifestKeys(manifest, k, |manifest|);
      for i := 0 to |manifest|
        invariant forall j :: 0 <= j < i ==> manifest[j].key != k
      {
        if manifest[i].key == k {
          return true;
        }
      }
      return false;
    }

    /** Add or re-allow a buddy: manifest entry first, tombstone last, cut short after `reach` writes. */
    method PeersAdd(k: Key, entry: Entry, reach: nat) returns (finished: bool)
      requires NoDuplicates(manifest)
      modifies this
      ensures NoDuplicates(manifest)
      ensures Abs() == Prefix(old(Abs()), Writes(Adding(k, entry)), if reach < 2 then reach else 2)
      ensures old(k in Abs().revoked) && k !in Abs().revoked ==> k in Abs().manifest
      ensures finished ==> k in Abs().manifest && k !in Abs().revoked
    {
      ghost var f, ws := Abs(), Writes(Adding(k, entry));
      assert Goes(f, ws, 0) && Prefix(f, ws, 0) == f;
      ManifestSize(manifest, |manifest|);
      var tombed := IsRevoked(k);
      var listed := Listed(k);
      if !listed && |manifest| >= MAX_BUDDIES {
        assert !Goes(f, ws, 1) && Prefix(f, ws, 1) == f && !Goes(f, ws, 2);
        return false;
      }
      assert Goes(f, ws, 1);
      if reach == 0 {
        return listed && !tombed;
      }
      if !listed {
        PutSpec(k, entry);
      }
      assert Prefix(f, ws, 1) == Abs() && Goes(f, ws, 2);
      if reach == 1 {
        return !tombed;
      }
      if tombed {
        var _ := RemoveRevoked(k);
      }
      assert f.revoked - {k} == Abs().revoked;
      return true;
    }

    method PutSpec(k: Key, entry: Entry)
      requires NoDuplicates(manifest) && k !in Abs().manifest
      modifies this`manifest
      ensures NoDuplicates(manifest) && manifest == old(manifest) + [Spec(k, entry)]
      ensures Abs() == Written(old(Abs()), old(Abs()), PutManifest(k, entry))
    {
      ManifestKeys(manifest, k, |manifest|);
      ManifestAppend(manifest, [Spec(k, entry)], |manifest|);
      manifest := manifest + [Spec(k, entry)];
    }
  }
}
