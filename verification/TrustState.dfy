/**
 The local trust state (internal/role/trustlock.go, peerscmd.go, session.go, trust.go,
 supervisor.go, peersfile.go): one daemon with many workers and any number of command
 line processes share four lists under one lock. Every file write is one atomic step;
 between any two steps any other process may run, fail or crash.
 */
module TrustState {
  import opened Common

  datatype Key = Key(id: int)

  /**
   A key as it is spelled in a roster or a session line. Several spellings decode to one
   key; variant 0 is the canonical one, and the only one the revocation list holds.
   */
  datatype Spelling = Spelling(key: Key, variant: nat)

  function Canonical(k: Key): Spelling {
    Spelling(k, 0)
  }

  datatype Pid = Pid(id: int)
  datatype Secret = Secret(id: int)
  datatype Entry = Entry(id: int)
  datatype TokenKey = TokenKey(id: int)

  const MAX_BUDDIES := 48

  datatype Files = Files(
    manifest: map<Key, Entry>,
    sessions: map<Spelling, Secret>,
    trust: set<(TokenKey, Key)>,
    revoked: set<Key>)

  // ---- transactions under the lock -------------------------------------------------

  datatype Task =
    | Removing(k: Key)
    | Adding(k: Key, entry: Entry)
    | Allowing(k: Key)
    | Saving(partner: Spelling, secret: Secret)
    | Learning(token: TokenKey, k: Key)

  datatype Write =
    | Tombstone(k: Key)
    | DropSession(k: Key)
    | DropManifest(k: Key)
    | PutManifest(k: Key, entry: Entry)
    | Lift(k: Key)
    | PutSession(partner: Spelling, secret: Secret)
    | PutTrust(token: TokenKey, k: Key)

  /** The writes of a transaction, in order; each re-reads its file first. */
  function Writes(t: Task): seq<Write> {
    match t
    case Removing(k) => [Tombstone(k), DropSession(k), DropManifest(k)]
    case Adding(k, entry) => [PutManifest(k, entry), Lift(k)]
    case Allowing(k) => [Lift(k)]
    case Saving(partner, secret) => [PutSession(partner, secret)]
    case Learning(token, k) => [PutTrust(token, k)]
  }

  /** The revocation check of a save compares the spelling it was given with canonical ones. */
  predicate Listed(f: Files, partner: Spelling) {
    partner.key in f.revoked && partner == Canonical(partner.key)
  }

  /** A write goes ahead only if what was read allows it; otherwise the transaction ends. */
  predicate Permitted(snap: Files, w: Write) {
    match w
    case PutManifest(k, _) => k in snap.manifest || |snap.manifest| < MAX_BUDDIES
    case PutSession(partner, _) => !Listed(snap, partner)
    case PutTrust(_, k) => k !in snap.revoked
    case _ => true
  }

  /** The files once `w`, computed from what was read, has replaced its file. */
  function Written(files: Files, snap: Files, w: Write): Files {
    match w
    case Tombstone(k) => files.(revoked := snap.revoked + {k})
    case DropSession(k) => files.(sessions := snap.sessions - {Canonical(k)})
    case DropManifest(k) => files.(manifest := snap.manifest - {k})
    case PutManifest(k, entry) =>
      files.(manifest := if k in snap.manifest then snap.manifest else snap.manifest[k := entry])
    case Lift(k) => files.(revoked := snap.revoked - {k})
    case PutSession(partner, secret) => files.(sessions := snap.sessions[partner := secret])
    case PutTrust(token, k) => files.(trust := snap.trust + {(token, k)})
  }

  /** The partners a reader of the session store finds. */
  function Partners(f: Files): set<Key> {
    set sp | sp in f.sessions :: sp.key
  }

  // ---- processes ----------------------------------------------------------------------

  /**
   `Locked` is inside a transaction with `done` writes behind it; `read` is what it
   has read for the next one. `Checked` is a worker round past its revocation check,
   `Attempt` one that went on to connect. `Noted` and `Filtered` are an assembly after
   its first and second read, `Assembled` its outcome.
   */
  datatype Local =
    | Locked(task: Task, done: nat, read: Option<Files>)
    | Round(k: Key)
    | Checked(k: Key)
    | Attempt(k: Key)
    | Noted(manifest: set<Key>)
    | Filtered(manifest: set<Key>, revoked: set<Key>)
    | Assembled(peers: set<Key>)

  datatype Sys = Sys(files: Files, lock: Option<Pid>, locals: map<Pid, Local>)

  datatype Event =
    | Begin(p: Pid, task: Task)
    | Read(p: Pid)
    | Commit(p: Pid)
    | Leave(p: Pid)
    | BeginRound(p: Pid, k: Key)
    | Check(p: Pid)
    | Connect(p: Pid)
    | BeginAssembly(p: Pid)
    | Filter(p: Pid)
    | Assemble(p: Pid)

  /** The write the process holding the lock is about to commit. */
  function Pending(s: Sys, p: Pid): Option<(Write, Files)> {
    if p in s.locals && s.locals[p].Locked? && s.locals[p].read.Some? && s.locals[p].done < |Writes(s.locals[p].task)|
    then Some((Writes(s.locals[p].task)[s.locals[p].done], s.locals[p].read.value))
    else None
  }

  function SetLocal(s: Sys, p: Pid, l: Local): Sys {
    s.(locals := s.locals[p := l])
  }

  /** Leaving, failing and crashing look the same: the lock is free and nothing is remembered. */
  function Drop(s: Sys, p: Pid): Sys {
    Sys(s.files, if s.lock == Some(p) then None else s.lock, s.locals - {p})
  }

  function CommitWrite(s: Sys, p: Pid): Sys {
    match Pending(s, p)
    case None => s
    case Some((w, snap)) =>
      if !Permitted(snap, w) then Drop(s, p)
      else Sys(Written(s.files, snap, w), s.lock,
               s.locals[p := Locked(s.locals[p].task, s.locals[p].done + 1, None)])
  }

  function Next(s: Sys, e: Event): Sys {
    match e
    case Begin(p, task) =>
      if s.lock == None && p !in s.locals then Sys(s.files, Some(p), s.locals[p := Locked(task, 0, None)]) else s
    case Read(p) =>
      if p in s.locals && s.locals[p].Locked? then SetLocal(s, p, s.locals[p].(read := Some(s.files))) else s
    case Commit(p) => CommitWrite(s, p)
    case Leave(p) => Drop(s, p)
    case BeginRound(p, k) => if p !in s.locals then SetLocal(s, p, Round(k)) else s
    case Check(p) =>
      if p in s.locals && s.locals[p].Round? then
        if s.locals[p].k in s.files.revoked then Drop(s, p) else SetLocal(s, p, Checked(s.locals[p].k))
      else s
    case Connect(p) =>
      if p in s.locals && s.locals[p].Checked? then SetLocal(s, p, Attempt(s.locals[p].k)) else s
    case BeginAssembly(p) => if p !in s.locals then SetLocal(s, p, Noted(s.files.manifest.Keys)) else s
    case Filter(p) =>
      if p in s.locals && s.locals[p].Noted?
      then SetLocal(s, p, Filtered(s.locals[p].manifest, s.files.revoked)) else s
    case Assemble(p) =>
      if p in s.locals && s.locals[p].Filtered?
      then SetLocal(s, p, Assembled((s.locals[p].manifest + Partners(s.files)) - s.locals[p].revoked))
      else s
  }

  /** An assembly that nothing comes between gives the manifest and the partners without the revoked. */
  lemma AssemblyAlone(s: Sys, p: Pid)
    requires p !in s.locals
    ensures Next(Next(Next(s, BeginAssembly(p)), Filter(p)), Assemble(p))
            == s.(locals := s.locals[p := Assembled((s.files.manifest.Keys + Partners(s.files)) - s.files.revoked)])
  {}

  /** A round that nothing comes between goes on to connect exactly if the key is not revoked. */
  lemma RoundAlone(s: Sys, p: Pid, k: Key)
    requires p !in s.locals && s.lock != Some(p)
    ensures Next(Next(Next(s, BeginRound(p, k)), Check(p)), Connect(p))
            == if k in s.files.revoked then s else s.(locals := s.locals[p := Attempt(k)])
  {
    if k in s.files.revoked {
      assert Drop(SetLocal(s, p, Round(k)), p).locals == s.locals;
    }
  }

  // ---- what the lock guarantees ------------------------------------------------------------

  ghost predicate LockedOk(files: Files, l: Local)
    requires l.Locked?
  {
    && (l.read.Some? ==> l.read.value == files)
    && (l.task.Removing? && l.done >= 1 ==> l.task.k in files.revoked)
    && (l.task.Adding? && l.done >= 1 ==> l.task.k in files.manifest)
  }

  /**
   At most one process is inside a transaction; what it read is still what the files
   hold; a removal past its first write has its tombstone, and an addition past its
   first write has its manifest entry, durable.
   */
  ghost predicate Inv(s: Sys) {
    && (forall p :: p in s.locals && s.locals[p].Locked? ==> s.lock == Some(p))
    && (forall p :: p in s.locals && s.locals[p].Locked? ==> LockedOk(s.files, s.locals[p]))
  }

  predicate InTransaction(s: Sys, p: Pid) {
    p in s.locals && s.locals[p].Locked?
  }

  lemma CommitInv(s: Sys, p: Pid)
    requires Inv(s)
    ensures Inv(CommitWrite(s, p))
  {}

  lemma NextInv(s: Sys, e: Event)
    requires Inv(s)
    ensures Inv(Next(s, e))
  {
    if e.Commit? {
      CommitInv(s, e.p);
    }
  }

  ghost predicate IsRun(ss: seq<Sys>, es: seq<Event>) {
    && |ss| == |es| + 1
    && ss[0].lock == None && ss[0].locals == map[]
    && (forall n :: 0 <= n < |es| ==> ss[n + 1] == Next(ss[n], es[n]))
  }

  /** So over every run two processes are never inside a transaction at once. */
  lemma {:induction false} RunInv(ss: seq<Sys>, es: seq<Event>, n: nat)
    requires IsRun(ss, es) && n < |ss|
    ensures Inv(ss[n])
    ensures forall p, q :: InTransaction(ss[n], p) && InTransaction(ss[n], q) ==> p == q
  {
    if n > 0 {
      RunInv(ss, es, n - 1);
      NextInv(ss[n - 1], es[n - 1]);
    }
  }

  // ---- what one step can do to one key ---------------------------------------------------------

  /** This event is an explicit allow or add of `k`, at the write that lifts its tombstone. */
  predicate Lifts(s: Sys, e: Event, k: Key) {
    e.Commit? && Pending(s, e.p).Some? && Pending(s, e.p).value.0 == Lift(k)
  }

  function TrustOf(f: Files, k: Key): set<(TokenKey, Key)> {
    set x | x in f.trust && x.1 == k
  }

  /** The session lines that decode to `k`, under whatever spelling. */
  function SessionsOf(f: Files, k: Key): set<(Spelling, Secret)> {
    set sp | sp in f.sessions && sp.key == k :: (sp, f.sessions[sp])
  }

  /** This event stores a session for `k` under a spelling that is not the canonical one. */
  predicate SavesAlias(s: Sys, e: Event, k: Key) {
    e.Commit? && Pending(s, e.p).Some? && Pending(s, e.p).value.0.PutSession?
    && Pending(s, e.p).value.0.partner.key == k && Pending(s, e.p).value.0.partner != Canonical(k)
  }

  /** While `k` is tombstoned no trust line for it is added, and only a lift ends that. */
  lemma StepUnderTombstone(s: Sys, e: Event, k: Key)
    requires Inv(s) && k in s.files.revoked
    ensures k in Next(s, e).files.revoked <==> !Lifts(s, e, k)
    ensures TrustOf(Next(s, e).files, k) <= TrustOf(s.files, k)
  {}

  lemma OtherSessions(s: Sys, e: Event, k: Key)
    requires Inv(s) && k in s.files.revoked && !SavesAlias(s, e, k)
    ensures SessionsOf(Next(s, e).files, k) <= SessionsOf(s.files, k)
  {
    forall x | x in SessionsOf(Next(s, e).files, k) ensures x in SessionsOf(s.files, k) {
      assert x.0 in s.files.sessions && s.files.sessions[x.0] == x.1;
    }
  }

  /** The line such a save writes is already there. */
  predicate SavesAgain(s: Sys, e: Event, k: Key)
    requires SavesAlias(s, e, k)
  {
    (Pending(s, e.p).value.0.partner, Pending(s, e.p).value.0.secret) in SessionsOf(s.files, k)
  }

  /**
   And it gains no session exactly unless a new one is saved under another spelling: that
   is the one thing the check under the lock does not see.
   */
  lemma GainsSessionIff(s: Sys, e: Event, k: Key)
    requires Inv(s) && k in s.files.revoked
    ensures SessionsOf(Next(s, e).files, k) <= SessionsOf(s.files, k) <==> !SavesAlias(s, e, k) || SavesAgain(s, e, k)
  {
    if SavesAlias(s, e, k) {
      var w := Pending(s, e.p).value.0;
      assert Next(s, e).files.sessions == s.files.sessions[w.partner := w.secret];
      assert (w.partner, w.secret) in SessionsOf(Next(s, e).files, k);
    } else {
      OtherSessions(s, e, k);
    }
  }

  /** A session, a manifest entry or a trust line disappears only behind its tombstone. */
  lemma DeletionNeedsTombstone(s: Sys, e: Event, k: Key)
    requires Inv(s)
    ensures Canonical(k) in s.files.sessions && Canonical(k) !in Next(s, e).files.sessions ==> k in s.files.revoked
    ensures k in s.files.manifest && k !in Next(s, e).files.manifest ==> k in s.files.revoked
    ensures TrustOf(s.files, k) <= TrustOf(Next(s, e).files, k)
  {}

  /** `peers add` lifts a tombstone only once the manifest entry is durable. */
  lemma AddLiftsLast(s: Sys, e: Event, k: Key)
    requires Inv(s) && Lifts(s, e, k) && s.locals[e.p].task.Adding?
    ensures k in s.files.manifest && k in Next(s, e).files.manifest
  {}

  function KeyOf(w: Write): Key {
    if w.PutSession? then w.partner.key else w.k
  }

  /** All that the files say about `k` is the same. */
  predicate SameAbout(f: Files, g: Files, k: Key) {
    && SessionsOf(g, k) == SessionsOf(f, k) && TrustOf(g, k) == TrustOf(f, k)
    && (k in g.revoked <==> k in f.revoked)
    && (k in g.manifest <==> k in f.manifest) && (k in f.manifest ==> g.manifest[k] == f.manifest[k])
  }

  lemma WriteElsewhere(f: Files, w: Write, k: Key)
    requires KeyOf(w) != k
    ensures SameAbout(f, Written(f, f, w), k)
  {
    match w
    case PutSession(partner, secret) => assert SessionsOf(Written(f, f, w), k) == SessionsOf(f, k);
    case DropSession(x) => assert SessionsOf(Written(f, f, w), k) == SessionsOf(f, k);
    case _ =>
  }

  /** A write touches one key in one list: whatever concerns another key stays as it was. */
  lemma OtherKeysUntouched(s: Sys, e: Event, k: Key)
    requires Inv(s) && (e.Commit? && Pending(s, e.p).Some? ==> KeyOf(Pending(s, e.p).value.0) != k)
    ensures SameAbout(s.files, Next(s, e).files, k)
  {
    if e.Commit? && Pending(s, e.p).Some? {
      WriteElsewhere(s.files, Pending(s, e.p).value.0, k);
    }
  }

  // ---- revocation over whole runs -------------------------------------------------------------------

  /** From `i` on nobody lifts the tombstone of `k`. */
  ghost predicate NotLifted(ss: seq<Sys>, es: seq<Event>, i: nat, j: nat, k: Key)
    requires |ss| == |es| + 1
  {
    forall n :: i <= n < j && n < |es| ==> !Lifts(ss[n], es[n], k)
  }

  /** From `i` on nobody saves a session for `k` under a spelling of its own. */
  ghost predicate SpelledCanonically(ss: seq<Sys>, es: seq<Event>, i: nat, j: nat, k: Key)
    requires |ss| == |es| + 1
  {
    forall n :: i <= n < j && n < |es| ==> !SavesAlias(ss[n], es[n], k)
  }

  /**
   Once tombstoned, and until lifted, a key stays so and gains no trust line; it gains no
   session either as long as sessions for it are saved under its canonical spelling.
   */
  lemma {:induction false} Revoked(ss: seq<Sys>, es: seq<Event>, i: nat, j: nat, k: Key)
    requires IsRun(ss, es) && i <= j < |ss| && k in ss[i].files.revoked && NotLifted(ss, es, i, j, k)
    ensures k in ss[j].files.revoked
    ensures TrustOf(ss[j].files, k) <= TrustOf(ss[i].files, k)
    ensures SpelledCanonically(ss, es, i, j, k) ==> SessionsOf(ss[j].files, k) <= SessionsOf(ss[i].files, k)
    decreases j - i
  {
    if i < j {
      assert !Lifts(ss[j - 1], es[j - 1], k);
      Revoked(ss, es, i, j - 1, k);
      RunInv(ss, es, j - 1);
      StepUnderTombstone(ss[j - 1], es[j - 1], k);
      if SpelledCanonically(ss, es, i, j, k) {
        assert !SavesAlias(ss[j - 1], es[j - 1], k);
        OtherSessions(ss[j - 1], es[j - 1], k);
      }
    }
  }

  /** A save under another spelling of a revoked key goes through, whatever else is going on. */
  lemma AliasIsStored(s: Sys, p: Pid, k: Key, variant: nat, secret: Secret)
    requires Inv(s) && s.lock == None && p !in s.locals && k in s.files.revoked && variant > 0
    ensures var t := Next(Next(Next(s, Begin(p, Saving(Spelling(k, variant), secret))), Read(p)), Commit(p));
      k in t.files.revoked && (Spelling(k, variant), secret) in SessionsOf(t.files, k)
  {
    var s2 := Next(Next(s, Begin(p, Saving(Spelling(k, variant), secret))), Read(p));
    assert Pending(s2, p) == Some((PutSession(Spelling(k, variant), secret), s.files));
    assert Spelling(k, variant) in Next(s2, Commit(p)).files.sessions;
  }

  /** Between `f` and `g` the session line or the manifest entry of `k` was lost. */
  predicate Lost(f: Files, g: Files, k: Key) {
    (Canonical(k) in f.sessions && Canonical(k) !in g.sessions) || (k in f.manifest && k !in g.manifest)
  }

  /**
   If something for `k` was deleted between `i` and `j`, its tombstone was in place
   at the deletion, and still is unless someone lifted it since: no crash point leaves
   a half-done removal without it.
   */
  lemma {:induction false} NoLossWithoutTombstone(ss: seq<Sys>, es: seq<Event>, i: nat, j: nat, k: Key)
    requires IsRun(ss, es) && i <= j < |ss| && NotLifted(ss, es, i, j, k)
    requires Lost(ss[i].files, ss[j].files, k)
    ensures k in ss[j].files.revoked
    decreases j - i
  {
    assert !Lifts(ss[j - 1], es[j - 1], k);
    RunInv(ss, es, j - 1);
    if Lost(ss[i].files, ss[j - 1].files, k) {
      NoLossWithoutTombstone(ss, es, i, j - 1, k);
    }
    LossStep(ss[i].files, ss[j - 1], es[j - 1], ss[j], k);
  }

  lemma LossStep(f: Files, s: Sys, e: Event, s': Sys, k: Key)
    requires Inv(s) && s' == Next(s, e) && !Lifts(s, e, k)
    requires Lost(f, s'.files, k) && (Lost(f, s.files, k) ==> k in s.files.revoked)
    ensures k in s'.files.revoked
  {
    DeletionNeedsTombstone(s, e, k);
    assert k in s.files.revoked;
    StepUnderTombstone(s, e, k);
  }

  // ---- who may still connect ---------------------------------------------------------------------------

  /** Process `p` is past a revocation check that let `k` through. */
  predicate Cleared(s: Sys, p: Pid, k: Key) {
    && p in s.locals
    && match s.locals[p]
       case Checked(x) => x == k
       case Attempt(x) => x == k
       case Filtered(_, revoked) => k !in revoked
       case Assembled(peers) => k in peers
       case _ => false
  }

  /** A process gets past the check exactly by reading the list when `k` is not on it. */
  lemma ClearedByReading(s: Sys, e: Event, p: Pid, k: Key)
    requires !Cleared(s, p, k) && Cleared(Next(s, e), p, k)
    ensures k !in s.files.revoked && (e == Check(p) || e == Filter(p))
  {}

  /**
   After the tombstone no new attempt for `k` starts and no newly read peer set holds
   it: whoever is cleared for `k` later was already cleared when it was written.
   */
  lemma {:induction false} NobodyNewIsCleared(ss: seq<Sys>, es: seq<Event>, i: nat, j: nat, k: Key, p: Pid)
    requires IsRun(ss, es) && i <= j < |ss| && k in ss[i].files.revoked && NotLifted(ss, es, i, j, k)
    requires !Cleared(ss[i], p, k)
    ensures !Cleared(ss[j], p, k)
    decreases j - i
  {
    if i < j {
      NobodyNewIsCleared(ss, es, i, j - 1, k, p);
      Revoked(ss, es, i, j - 1, k);
      StaysUncleared(ss[j - 1], es[j - 1], p, k);
    }
  }

  lemma StaysUncleared(s: Sys, e: Event, p: Pid, k: Key)
    requires k in s.files.revoked && !Cleared(s, p, k)
    ensures !Cleared(Next(s, e), p, k)
  {
    if Cleared(Next(s, e), p, k) {
      ClearedByReading(s, e, p, k);
      assert false;
    }
  }

  /** Reads are not locked, so a check made just before the tombstone still lets its round through. */
  lemma EarlyCheckStillConnects(s: Sys, k: Key, worker: Pid, cli: Pid)
    requires Inv(s) && worker != cli && s.lock == None && worker !in s.locals && cli !in s.locals
    requires k !in s.files.revoked
    ensures var s1 := Next(Next(s, BeginRound(worker, k)), Check(worker));
      var s2 := Next(Next(Next(s1, Begin(cli, Removing(k))), Read(cli)), Commit(cli));
      var s3 := Next(s2, Connect(worker));
      k in s3.files.revoked && s3.locals[worker] == Attempt(k)
  {
    var s1 := Next(Next(s, BeginRound(worker, k)), Check(worker));
    var s2 := Next(Next(s1, Begin(cli, Removing(k))), Read(cli));
    assert Pending(s2, cli) == Some((Tombstone(k), s1.files));
  }
}
