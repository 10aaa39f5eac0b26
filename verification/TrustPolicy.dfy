/**
 Whom to trust (internal/role/trust.go): the decision about a partner's key, and the
 trust-on-first-use lines it rests on, which share the session store's file.
 */
module TrustPolicy {
  import opened Common
  import opened SessionText
  import opened SessionStore

  // ---- the file: learning and looking up -------------------------------------------------

  /** A line that binds a token to a key: a trust line of two fields, or a session line. */
  predicate Binds(l: string, tokenKey: string) {
    |Fields(l)| >= 2 && Fields(l)[0] == tokenKey
  }

  /** The fields of the first of the first `n` lines that binds the token. */
  function BoundTo(ls: seq<string>, tokenKey: string, n: nat): Option<seq<string>>
    requires n <= |ls|
  {
    if n == 0 then None
    else if BoundTo(ls, tokenKey, n - 1).Some? then BoundTo(ls, tokenKey, n - 1)
    else if Binds(ls[n - 1], tokenKey) then Some(Fields(ls[n - 1]))
    else None
  }

  function Bound(t: string, tokenKey: string): Option<seq<string>> {
    BoundTo(Scan(t).0, tokenKey, |Scan(t).0|)
  }

  function Closed(t: string): string {
    if t != "" && t[|t| - 1] != '\n' then t + "\n" else t
  }

  /** The file with one more trust line. */
  function Learned(t: string, tokenKey: string, key: string): string {
    Closed(t) + (tokenKey + " " + key) + "\n"
  }

  predicate Learnable(tokenKey: string, key: string) {
    Word(tokenKey) && Word(key) && |tokenKey| + 1 + |key| < MAX_LINE
  }

  lemma LearnablePlain(tokenKey: string, key: string)
    requires Learnable(tokenKey, key)
    ensures Plain(tokenKey + " " + key) && Chomp(tokenKey + " " + key) == tokenKey + " " + key
    ensures Fields(tokenKey + " " + key) == [tokenKey, key]
  {
    assert tokenKey + " " + key == tokenKey + (" " + key);
    TwoFields(tokenKey, key);
    LearnableLine(tokenKey, key);
  }

  lemma LearnableLine(tokenKey: string, key: string)
    requires Learnable(tokenKey, key)
    ensures Plain(tokenKey + " " + key) && Chomp(tokenKey + " " + key) == tokenKey + " " + key
  {
    assert forall i :: 0 <= i < |tokenKey| ==> !Space(tokenKey[i]);
    assert forall i :: 0 <= i < |key| ==> !Space(key[i]);
    assert (tokenKey + " " + key)[|tokenKey| + |key|] == key[|key| - 1];
  }

  /** Terminating the last line changes nothing a scanner sees. */
  lemma {:induction false} ScanClosed(t: string)
    ensures Scan(Closed(t)) == Scan(t)
    decreases |t|
  {
    if t != "" && t[|t| - 1] != '\n' {
      var n := LineLen(t);
      if n == |t| {
        CloseLast(t);
      } else {
        var l, rest := t[..n], t[n + 1..];
        assert t == l + "\n" + rest;
        assert rest != "" && rest[|rest| - 1] == t[|t| - 1];
        ScanClosed(rest);
        CloseRest(l, rest);
      }
    }
  }

  lemma CloseLast(t: string)
    requires t != "" && LineLen(t) == |t|
    ensures Scan(t + "\n") == Scan(t)
  {
    ScanFirst(t, "");
    assert t + "\n" + "" == t + "\n";
    assert Scan("") == ([], true) && [Chomp(t)] + [] == [Chomp(t)];
  }

  lemma CloseRest(l: string, rest: string)
    requires (forall i :: 0 <= i < |l| ==> l[i] != '\n') && Scan(rest + "\n") == Scan(rest)
    ensures Scan(l + "\n" + rest + "\n") == Scan(l + "\n" + rest)
  {
    Assoc(l, rest, "\n");
    ScanFirst(l, rest);
    ScanFirst(l, rest + "\n");
  }

  /** The first line of a text of whole lines, and the rest. */
  lemma SplitLine(t: string) returns (first: string, rest: string)
    requires t != "" && t[|t| - 1] == '\n'
    ensures t == first + "\n" + rest && (forall i :: 0 <= i < |first| ==> first[i] != '\n')
    ensures |rest| < |t| && (rest == "" || rest[|rest| - 1] == '\n')
  {
    var n := LineLen(t);
    assert n < |t|;
    first, rest := t[..n], t[n + 1..];
  }

  /** Whole lines followed by more text are scanned one after the other. */
  lemma {:induction false} ScanConcat(t: string, u: string)
    requires (t == "" || t[|t| - 1] == '\n') && Scan(t).1
    ensures Scan(t + u) == (Scan(t).0 + Scan(u).0, Scan(u).1)
    decreases |t|
  {
    if t == "" {
      assert t + u == u;
      assert Scan("") == ([], true) && [] + Scan(u).0 == Scan(u).0;
    } else {
      var first, rest := SplitLine(t);
      ScanFirst(first, rest);
      ScanConcat(rest, u);
      Assoc(first, rest, u);
      JoinStep(first, rest + u, t + u, Scan(rest).0 + Scan(u).0, Scan(u).1);
      AssocLines(Chomp(first), Scan(rest).0, Scan(u).0);
    }
  }

  lemma JoinStep(first: string, w: string, t: string, lines: seq<string>, ok: bool)
    requires (forall i :: 0 <= i < |first| ==> first[i] != '\n') && |first| < MAX_LINE
    requires t == first + "\n" + w && Scan(w) == (lines, ok)
    ensures Scan(t) == ([Chomp(first)] + lines, ok)
  {
    ScanFirst(first, w);
  }

  lemma Assoc(first: string, rest: string, u: string)
    ensures first + "\n" + rest + u == first + "\n" + (rest + u)
  {}

  lemma AssocLines(c: string, a: seq<string>, b: seq<string>)
    ensures [c] + (a + b) == [c] + a + b
  {}

  lemma ScanLine(l: string)
    requires Plain(l)
    ensures Scan(l + "\n") == ([Chomp(l)], true)
  {
    ScanFirst(l, "");
    assert l + "\n" + "" == l + "\n";
    assert Scan("") == ([], true) && [Chomp(l)] + [] == [Chomp(l)];
  }

  /** Learning adds exactly one line, at the end. */
  lemma {:induction false} LearnedLines(t: string, tokenKey: string, key: string)
    requires Scan(t).1 && Learnable(tokenKey, key)
    ensures Scan(Learned(t, tokenKey, key)) == (Scan(t).0 + [tokenKey + " " + key], true)
  {
    LearnablePlain(tokenKey, key);
    AppendLine(t, tokenKey + " " + key);
  }

  lemma AppendLine(t: string, l: string)
    requires Scan(t).1 && Plain(l)
    ensures Scan(Closed(t) + l + "\n") == (Scan(t).0 + [Chomp(l)], true)
  {
    ScanClosed(t);
    ScanLine(l);
    ScanConcat(Closed(t), l + "\n");
    assert Closed(t) + l + "\n" == Closed(t) + (l + "\n");
  }

  lemma BoundPush(ls: seq<string>, l: string, tk: string)
    ensures BoundTo(ls + [l], tk, |ls| + 1) ==
      if BoundTo(ls, tk, |ls|).Some? then BoundTo(ls, tk, |ls|) else if Binds(l, tk) then Some(Fields(l)) else None
  {
    BoundAppend(ls, [l], tk, |ls|);
    assert (ls + [l])[|ls|] == l;
  }

  lemma {:induction false} BoundAppend(a: seq<string>, b: seq<string>, tokenKey: string, n: nat)
    requires n <= |a|
    ensures BoundTo(a + b, tokenKey, n) == BoundTo(a, tokenKey, n)
  {
    if n > 0 {
      BoundAppend(a, b, tokenKey, n - 1);
      assert (a + b)[n - 1] == a[n - 1];
    }
  }

  lemma {:induction false} BoundByFields(a: seq<string>, b: seq<string>, tokenKey: string, n: nat)
    requires SameFields(a, b) && n <= |a|
    ensures BoundTo(a, tokenKey, n) == BoundTo(b, tokenKey, n)
  {
    if n > 0 {
      BoundByFields(a, b, tokenKey, n - 1);
    }
  }

  /** The first binding of a token is a trust line for this key. */
  ghost predicate Pinned(t: string, tokenKey: string, key: string) {
    Scan(t).1 && Bound(t, tokenKey) == Some([tokenKey, key])
  }

  /** A lookup after learning finds what was found before, or else what was learned. */
  lemma LearnedBound(t: string, tokenKey: string, key: string, tk: string)
    requires Scan(t).1 && Learnable(tokenKey, key)
    ensures Bound(Learned(t, tokenKey, key), tk) ==
      if Bound(t, tk).Some? then Bound(t, tk) else if tk == tokenKey then Some([tokenKey, key]) else None
  {
    LearnedLines(t, tokenKey, key);
    LearnablePlain(tokenKey, key);
    BoundPush(Scan(t).0, tokenKey + " " + key, tk);
  }

  /** The writers of sessions drop no trust line, so a first binding that is one stays first. */
  lemma {:induction false} KeptBound(ls: seq<string>, p: string, tokenKey: string, n: nat)
    requires n <= |ls| && BoundTo(ls, tokenKey, n).Some? && |BoundTo(ls, tokenKey, n).value| == 2
    ensures BoundTo(KeptTo(ls, p, n), tokenKey, |KeptTo(ls, p, n)|) == BoundTo(ls, tokenKey, n)
  {
    var kept := KeptTo(ls, p, n - 1);
    BoundAppend(kept, [ls[n - 1]], tokenKey, |kept|);
    if BoundTo(ls, tokenKey, n - 1).Some? {
      KeptBound(ls, p, tokenKey, n - 1);
    } else {
      KeptUnbound(ls, p, tokenKey, n - 1);
    }
  }

  lemma {:induction false} KeptUnbound(ls: seq<string>, p: string, tokenKey: string, n: nat)
    requires n <= |ls| && BoundTo(ls, tokenKey, n) == None
    ensures BoundTo(KeptTo(ls, p, n), tokenKey, |KeptTo(ls, p, n)|) == None
  {
    if n > 0 {
      KeptUnbound(ls, p, tokenKey, n - 1);
      var kept := KeptTo(ls, p, n - 1);
      BoundAppend(kept, [ls[n - 1]], tokenKey, |kept|);
    }
  }

  lemma SaveKeepsPin(t: string, tokenKey: string, key: string, tk: string, p: string, secret: string)
    requires Pinned(t, tokenKey, key) && Storable(tk, p, secret)
    ensures Pinned(Saved(t, tk, p, secret), tokenKey, key)
  {
    var ls, line := Scan(t).0, NewLine(tk, p, secret);
    KeptBound(ls, p, tokenKey, |ls|);
    SavedLines(t, tk, p, secret);
    var kept := Kept(ls, p);
    BoundAppend(kept, [line], tokenKey, |kept|);
    BoundByFields(Scan(Saved(t, tk, p, secret)).0, kept + [line], tokenKey, |kept| + 1);
  }

  lemma RemoveKeepsPin(t: string, tokenKey: string, key: string, p: string)
    requires Pinned(t, tokenKey, key)
    ensures Pinned(Removed(t, p), tokenKey, key)
  {
    var ls := Scan(t).0;
    if Mentions(ls, p) {
      KeptBound(ls, p, tokenKey, |ls|);
      RemovedLines(t, p);
      ScanPlain(t);
      KeptPlain(ls, p, |ls|);
      WrittenFields(Kept(ls, p));
      BoundByFields(Scan(Removed(t, p)).0, Kept(ls, p), tokenKey, |Kept(ls, p)|);
    }
  }

  // ---- any run of writers -------------------------------------------------------------------------

  datatype Write =
    | Save(tokenKey: string, p: string, secret: string)
    | Remove(p: string)
    | Learn(tokenKey: string, key: string)

  predicate Sane(w: Write) {
    match w
    case Save(tk, p, secret) => Storable(tk, p, secret)
    case Remove(p) => true
    case Learn(tk, key) => Learnable(tk, key)
  }

  function Next(t: string, w: Write): string {
    match w
    case Save(tk, p, secret) => Saved(t, tk, p, secret)
    case Remove(p) => Removed(t, p)
    case Learn(tk, key) => Learned(t, tk, key)
  }

  ghost predicate IsRun(ts: seq<string>, ws: seq<Write>) {
    |ts| == |ws| + 1 && forall i :: 0 <= i < |ws| ==> Sane(ws[i]) && ts[i + 1] == Next(ts[i], ws[i])
  }

  /** Once a token's first binding is a trust line, no later save, removal or learning changes it. */
  lemma {:induction false} PinIsForEver(ts: seq<string>, ws: seq<Write>, n: nat, tokenKey: string, key: string)
    requires IsRun(ts, ws) && n < |ts| && Pinned(ts[0], tokenKey, key)
    ensures Pinned(ts[n], tokenKey, key)
  {
    if n > 0 {
      PinIsForEver(ts, ws, n - 1, tokenKey, key);
      match ws[n - 1]
      case Save(tk, p, secret) => SaveKeepsPin(ts[n - 1], tokenKey, key, tk, p, secret);
      case Remove(p) => RemoveKeepsPin(ts[n - 1], tokenKey, key, p);
      case Learn(tk, k) =>
        LearnedBound(ts[n - 1], tk, k, tokenKey);
        LearnedLines(ts[n - 1], tk, k);
    }
  }

  // ---- the decision ---------------------------------------------------------------------------------

  datatype Policy = Policy(pinned: Option<string>, insecure: bool)

  datatype Decision = Revoked | Mismatch | KeyChanged | Unreadable | Trusted | NeedsSas

  /** Revocation first, then the configured pin, then --lab, then the store. */
  function Decide(policy: Policy, revoked: bool, store: string, tokenKey: string, partner: string): Decision {
    if revoked then Revoked
    else if policy.pinned.Some? then if partner == policy.pinned.value then Trusted else Mismatch
    else if policy.insecure then Trusted
    else
      match Bound(store, tokenKey)
      case Some(fields) => if |fields| >= 2 && fields[1] == partner then Trusted else KeyChanged
      case None => if Scan(store).1 then NeedsSas else Unreadable
  }

  /** Line `i` is the first that binds the token: it has a second field, and the token as its first. */
  ghost predicate FirstBinding(ls: seq<string>, tokenKey: string, i: int) {
    && 0 <= i < |ls| && |Fields(ls[i])| >= 2 && Fields(ls[i])[0] == tokenKey
    && forall j :: 0 <= j < i && |Fields(ls[j])| >= 2 ==> Fields(ls[j])[0] != tokenKey
  }

  lemma {:induction false} BoundAtFirst(ls: seq<string>, tokenKey: string, n: nat, i: int)
    requires n <= |ls| && FirstBinding(ls, tokenKey, i)
    ensures BoundTo(ls, tokenKey, n) == if i < n then Some(Fields(ls[i])) else None
  {
    if n > 0 {
      BoundAtFirst(ls, tokenKey, n - 1, i);
    }
  }

  lemma {:induction false} FirstIsFound(ls: seq<string>, tokenKey: string, n: nat) returns (i: int)
    requires n <= |ls| && BoundTo(ls, tokenKey, n).Some?
    ensures i < n && FirstBinding(ls, tokenKey, i)
  {
    if BoundTo(ls, tokenKey, n - 1).Some? {
      i := FirstIsFound(ls, tokenKey, n - 1);
    } else {
      i := n - 1;
      NoneBinds(ls, tokenKey, n - 1);
    }
  }

  lemma {:induction false} NoneBinds(ls: seq<string>, tokenKey: string, n: nat)
    requires n <= |ls| && BoundTo(ls, tokenKey, n).None?
    ensures forall j :: 0 <= j < n ==> !Binds(ls[j], tokenKey)
  {
    if n > 0 {
      NoneBinds(ls, tokenKey, n - 1);
    }
  }

  lemma BoundIsFirst(ls: seq<string>, tokenKey: string)
    ensures forall i :: FirstBinding(ls, tokenKey, i) ==> BoundTo(ls, tokenKey, |ls|) == Some(Fields(ls[i]))
    ensures BoundTo(ls, tokenKey, |ls|).Some? ==> exists i :: FirstBinding(ls, tokenKey, i)
  {
    forall i | FirstBinding(ls, tokenKey, i) ensures BoundTo(ls, tokenKey, |ls|) == Some(Fields(ls[i])) {
      BoundAtFirst(ls, tokenKey, |ls|, i);
    }
    if BoundTo(ls, tokenKey, |ls|).Some? {
      var i := FirstIsFound(ls, tokenKey, |ls|);
    }
  }

  /** The first line that binds the token names this key. */
  ghost predicate Knows(store: string, tokenKey: string, key: string) {
    exists i :: FirstBinding(Scan(store).0, tokenKey, i) && Fields(Scan(store).0[i])[1] == key
  }

  ghost predicate KnowsNobody(store: string, tokenKey: string) {
    forall i :: !FirstBinding(Scan(store).0, tokenKey, i)
  }

  lemma KnownIff(store: string, tokenKey: string, key: string)
    ensures Bound(store, tokenKey).Some? ==> |Bound(store, tokenKey).value| >= 2
    ensures Knows(store, tokenKey, key) <==> Bound(store, tokenKey).Some? && Bound(store, tokenKey).value[1] == key
    ensures KnowsNobody(store, tokenKey) <==> Bound(store, tokenKey).None?
  {
    BoundIsFirst(Scan(store).0, tokenKey);
  }

  /**
   A partner is trusted if and only if it is not revoked and is the configured pin, whatever
   the store and --lab say; or, without a pin, under --lab, or as the key on the first line
   that binds the token.
   */
  lemma TrustedIff(policy: Policy, revoked: bool, store: string, tokenKey: string, partner: string)
    ensures Decide(policy, revoked, store, tokenKey, partner) == Trusted <==>
      && !revoked
      && (policy.pinned.Some? ==> partner == policy.pinned.value)
      && (policy.pinned.None? ==> policy.insecure || Knows(store, tokenKey, partner))
  {
    KnownIff(store, tokenKey, partner);
  }

  /** The human is asked only about a stranger, and only where nothing else decides. */
  lemma AskedIff(policy: Policy, revoked: bool, store: string, tokenKey: string, partner: string)
    ensures Decide(policy, revoked, store, tokenKey, partner) == NeedsSas <==>
      !revoked && policy == Policy(None, false) && KnowsNobody(store, tokenKey) && Scan(store).1
  {
    KnownIff(store, tokenKey, partner);
  }

  /** And every refusal has its one reason. */
  lemma RefusedIff(policy: Policy, revoked: bool, store: string, tokenKey: string, partner: string)
    ensures var d := Decide(policy, revoked, store, tokenKey, partner);
      && (d == Revoked <==> revoked)
      && (d == Mismatch <==> !revoked && policy.pinned.Some? && partner != policy.pinned.value)
      && (d == KeyChanged <==> !revoked && policy == Policy(None, false)
                               && exists key :: key != partner && Knows(store, tokenKey, key))
      && (d == Unreadable <==> !revoked && policy == Policy(None, false)
                               && KnowsNobody(store, tokenKey) && !Scan(store).1)
  {
    KnownIff(store, tokenKey, partner);
    if Bound(store, tokenKey).Some? {
      KnownIff(store, tokenKey, Bound(store, tokenKey).value[1]);
    }
    forall key | Knows(store, tokenKey, key)
      ensures Bound(store, tokenKey).Some? && Bound(store, tokenKey).value[1] == key
    {
      KnownIff(store, tokenKey, key);
    }
  }

  /** Read the store for the token, line by line, up to the first line that binds it. */
  method LoadKnownPeer(store: string, tokenKey: string) returns (known: Option<string>, ok: bool)
    ensures known.Some? ==> ok && Knows(store, tokenKey, known.value)
    ensures known.None? ==> KnowsNobody(store, tokenKey) && ok == Scan(store).1
  {
    var scan := Scan(store);
    for i := 0 to |scan.0|
      invariant forall j :: 0 <= j < i && |Fields(scan.0[j])| >= 2 ==> Fields(scan.0[j])[0] != tokenKey
    {
      var fields := Fields(scan.0[i]);
      if |fields| >= 2 && fields[0] == tokenKey {
        assert FirstBinding(scan.0, tokenKey, i);
        return Some(fields[1]), true;
      }
    }
    return None, scan.1;
  }

  /** Revocation first, then the configured pin, then --lab, then the store. */
  method DecidePartner(policy: Policy, revoked: bool, store: string, tokenKey: string, partner: string)
      returns (d: Decision)
    ensures d == Decide(policy, revoked, store, tokenKey, partner)
  {
    if revoked {
      return Revoked;
    }
    if policy.pinned.Some? {
      if partner != policy.pinned.value {
        return Mismatch;
      }
      return Trusted;
    }
    if policy.insecure {
      return Trusted;
    }
    var known, ok := LoadKnownPeer(store, tokenKey);
    KnownIff(store, tokenKey, if known.Some? then known.value else partner);
    if !ok {
      return Unreadable;
    }
    if known.None? {
      return NeedsSas;
    }
    return if known.value == partner then Trusted else KeyChanged;
  }

  /** A configured pin decides alone, whatever is written to the store in between. */
  lemma PinDecides(ts: seq<string>, ws: seq<Write>, n: nat, tokenKey: string, pin: string, lab: bool, partner: string)
    requires IsRun(ts, ws) && n < |ts|
    ensures Decide(Policy(Some(pin), lab), false, ts[n], tokenKey, partner)
      == if partner == pin then Trusted else Mismatch
    ensures Decide(Policy(Some(pin), lab), true, ts[n], tokenKey, partner) == Revoked
  {
    TrustedIff(Policy(Some(pin), lab), false, ts[n], tokenKey, partner);
    RefusedIff(Policy(Some(pin), lab), false, ts[n], tokenKey, partner);
    RefusedIff(Policy(Some(pin), lab), true, ts[n], tokenKey, partner);
  }

  /**
   Trust on first use: after a key was confirmed for a token that had none, every later
   decision for that token, whatever was written since, trusts that key and refuses any other.
   */
  lemma FirstUseSticks(ts: seq<string>, ws: seq<Write>, n: nat, t: string, tokenKey: string, key: string, other: string)
    requires IsRun(ts, ws) && n < |ts| && Learnable(tokenKey, key) && other != key
    requires Decide(Policy(None, false), false, t, tokenKey, key) == NeedsSas && ts[0] == Learned(t, tokenKey, key)
    ensures Decide(Policy(None, false), false, ts[n], tokenKey, key) == Trusted
    ensures Decide(Policy(None, false), false, ts[n], tokenKey, other) == KeyChanged
  {
    LearnedBound(t, tokenKey, key, tokenKey);
    LearnedLines(t, tokenKey, key);
    PinIsForEver(ts, ws, n, tokenKey, key);
  }

  /** Record a key on first use, unless it is revoked; the caller holds the trust-state lock. */
  method LearnLocked(f: SessionFile, revoked: seq<string>, tokenKey: string, key: string) returns (ok: bool)
    modifies f
    ensures ok <==> key !in revoked
    ensures f.text == if key in revoked then old(f.text) else Some(Learned(old(f.Text()), tokenKey, key))
  {
    var listed := IsListed(revoked, key);
    if listed {
      return false;
    }
    var existing := f.Text();
    if existing != "" && existing[|existing| - 1] != '\n' {
      existing := existing + "\n";
    }
    f.text := Some(existing + (tokenKey + " " + key) + "\n");
    return true;
  }
}
