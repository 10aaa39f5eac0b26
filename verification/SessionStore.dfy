/**
 The line-based session store (internal/role/session.go) as a map from partner to
 secret. Writers compare a line's spelling of the key; readers decode it. `dec` is the
 decoding of a key, of which nothing is assumed.
 */
module SessionStore {
  import opened Common
  import opened SessionText

  datatype Pin = Pin(id: int)
  datatype Session = Session(pin: Pin, secret: string)

  // ---- what single lines mean --------------------------------------------------------

  /** A session line spelled for `p`: the one a save replaces and a removal drops. */
  predicate SpelledFor(l: string, p: string) {
    |Fields(l)| >= 3 && Fields(l)[1] == p
  }

  predicate Blank(l: string) {
    Fields(l) == []
  }

  /** A session line whose key decodes to `k`: the one a reader finds. */
  predicate Pins(dec: string -> Option<Pin>, l: string, k: Pin) {
    |Fields(l)| >= 3 && dec(Fields(l)[1]) == Some(k)
  }

  predicate Legacy(l: string) {
    |Fields(l)| == 2
  }

  // ---- what the writers keep ------------------------------------------------------------

  function KeptTo(ls: seq<string>, p: string, n: nat): seq<string>
    requires n <= |ls|
  {
    if n == 0 then []
    else if SpelledFor(ls[n - 1], p) || Blank(ls[n - 1]) then KeptTo(ls, p, n - 1)
    else KeptTo(ls, p, n - 1) + [ls[n - 1]]
  }

  function Kept(ls: seq<string>, p: string): seq<string> {
    KeptTo(ls, p, |ls|)
  }

  function NewLine(tokenKey: string, p: string, secret: string): string {
    tokenKey + " " + p + " " + secret
  }

  function Saved(t: string, tokenKey: string, p: string, secret: string): string {
    Joined(Kept(Scan(t).0, p) + [NewLine(tokenKey, p, secret)])
  }

  predicate Mentions(ls: seq<string>, p: string) {
    exists i :: 0 <= i < |ls| && SpelledFor(ls[i], p)
  }

  function Removed(t: string, p: string): string {
    if Scan(t).1 && Mentions(Scan(t).0, p) then Joined(Kept(Scan(t).0, p)) else t
  }

  // ---- what the readers find ----------------------------------------------------------------

  /** The secret on the first of the first `n` lines that pins `k`. */
  function FoundTo(dec: string -> Option<Pin>, ls: seq<string>, k: Pin, n: nat): Option<string>
    requires n <= |ls|
  {
    if n == 0 then None
    else if FoundTo(dec, ls, k, n - 1).Some? then FoundTo(dec, ls, k, n - 1)
    else if Pins(dec, ls[n - 1], k) then Some(Fields(ls[n - 1])[2])
    else None
  }

  /** The stored secret for `k`, or none. */
  function Lookup(dec: string -> Option<Pin>, t: string, k: Pin): Option<string> {
    FoundTo(dec, Scan(t).0, k, |Scan(t).0|)
  }

  /** The legacy lines among the first `n`, in order, as fields. */
  function LegacyTo(ls: seq<string>, n: nat): seq<seq<string>>
    requires n <= |ls|
  {
    if n == 0 then []
    else if Legacy(ls[n - 1]) then LegacyTo(ls, n - 1) + [Fields(ls[n - 1])]
    else LegacyTo(ls, n - 1)
  }

  function LegacyLines(t: string): seq<seq<string>> {
    LegacyTo(Scan(t).0, |Scan(t).0|)
  }

  // ---- only the fields matter ------------------------------------------------------------------

  ghost predicate SameFields(a: seq<string>, b: seq<string>) {
    |a| == |b| && forall i :: 0 <= i < |a| ==> Fields(a[i]) == Fields(b[i])
  }

  lemma {:induction false} FoundByFields(dec: string -> Option<Pin>, a: seq<string>, b: seq<string>, k: Pin, n: nat)
    requires SameFields(a, b) && n <= |a|
    ensures FoundTo(dec, a, k, n) == FoundTo(dec, b, k, n)
  {
    if n > 0 {
      FoundByFields(dec, a, b, k, n - 1);
    }
  }

  lemma {:induction false} LegacyByFields(a: seq<string>, b: seq<string>, n: nat)
    requires SameFields(a, b) && n <= |a|
    ensures LegacyTo(a, n) == LegacyTo(b, n)
  {
    if n > 0 {
      LegacyByFields(a, b, n - 1);
    }
  }

  /** Writing lines and scanning them again changes no field. */
  lemma WrittenFields(ls: seq<string>)
    requires AllPlain(ls)
    ensures Scan(Joined(ls)).1 && SameFields(Scan(Joined(ls)).0, ls)
  {
    ScanJoined(ls);
    forall i | 0 <= i < |ls| ensures Fields(Chomped(ls)[i]) == Fields(ls[i]) {
      FieldsChomp(ls[i]);
    }
  }

  lemma {:induction false} KeptPlain(ls: seq<string>, p: string, n: nat)
    requires AllPlain(ls) && n <= |ls|
    ensures AllPlain(KeptTo(ls, p, n))
  {
    if n > 0 {
      KeptPlain(ls, p, n - 1);
    }
  }

  // ---- prefixes and appends -------------------------------------------------------------------------

  lemma {:induction false} FoundAppend(dec: string -> Option<Pin>, a: seq<string>, b: seq<string>, k: Pin, n: nat)
    requires n <= |a|
    ensures FoundTo(dec, a + b, k, n) == FoundTo(dec, a, k, n)
  {
    if n > 0 {
      FoundAppend(dec, a, b, k, n - 1);
      assert (a + b)[n - 1] == a[n - 1];
    }
  }

  lemma {:induction false} LegacyAppend(a: seq<string>, b: seq<string>, n: nat)
    requires n <= |a|
    ensures LegacyTo(a + b, n) == LegacyTo(a, n)
  {
    if n > 0 {
      LegacyAppend(a, b, n - 1);
      assert (a + b)[n - 1] == a[n - 1];
    }
  }

  // ---- what filtering does to lookups ------------------------------------------------------------------

  /** Dropping one partner's lines hides no other partner. */
  lemma {:induction false} KeptFinds(dec: string -> Option<Pin>, ls: seq<string>, p: string, k: Pin, n: nat)
    requires n <= |ls| && dec(p) != Some(k)
    ensures FoundTo(dec, KeptTo(ls, p, n), k, |KeptTo(ls, p, n)|) == FoundTo(dec, ls, k, n)
  {
    if n > 0 {
      KeptFinds(dec, ls, p, k, n - 1);
      if !(SpelledFor(ls[n - 1], p) || Blank(ls[n - 1])) {
        FoundAppend(dec, KeptTo(ls, p, n - 1), [ls[n - 1]], k, |KeptTo(ls, p, n - 1)|);
      }
    }
  }

  lemma {:induction false} KeptLegacy(ls: seq<string>, p: string, n: nat)
    requires n <= |ls|
    ensures LegacyTo(KeptTo(ls, p, n), |KeptTo(ls, p, n)|) == LegacyTo(ls, n)
  {
    if n > 0 {
      KeptLegacy(ls, p, n - 1);
      if !(SpelledFor(ls[n - 1], p) || Blank(ls[n - 1])) {
        LegacyAppend(KeptTo(ls, p, n - 1), [ls[n - 1]], |KeptTo(ls, p, n - 1)|);
      }
    }
  }

  /** A line that pins `k` under another spelling than `p`. */
  predicate Alias(dec: string -> Option<Pin>, l: string, p: string, k: Pin) {
    Pins(dec, l, k) && !SpelledFor(l, p)
  }

  ghost predicate HasAlias(dec: string -> Option<Pin>, ls: seq<string>, p: string, k: Pin, n: nat)
    requires n <= |ls|
  {
    exists i :: 0 <= i < n && Alias(dec, ls[i], p, k)
  }

  /** After the filter a lookup of `k` finds something exactly if another spelling of `k` is stored. */
  lemma {:induction false} KeptOwn(dec: string -> Option<Pin>, ls: seq<string>, p: string, k: Pin, n: nat)
    requires n <= |ls|
    ensures FoundTo(dec, KeptTo(ls, p, n), k, |KeptTo(ls, p, n)|).Some? <==> HasAlias(dec, ls, p, k, n)
  {
    if n > 0 {
      KeptOwn(dec, ls, p, k, n - 1);
      if !(SpelledFor(ls[n - 1], p) || Blank(ls[n - 1])) {
        FoundAppend(dec, KeptTo(ls, p, n - 1), [ls[n - 1]], k, |KeptTo(ls, p, n - 1)|);
      }
      assert HasAlias(dec, ls, p, k, n) <==> HasAlias(dec, ls, p, k, n - 1) || Alias(dec, ls[n - 1], p, k);
    }
  }

  lemma {:induction false} KeptSpelling(ls: seq<string>, p: string, n: nat)
    requires n <= |ls|
    ensures forall i :: 0 <= i < |KeptTo(ls, p, n)| ==> !SpelledFor(KeptTo(ls, p, n)[i], p)
  {
    if n > 0 {
      KeptSpelling(ls, p, n - 1);
    }
  }

  // ---- the store refines a map ------------------------------------------------------------------------------

  /** A new line of three words, short enough to be scanned again. */
  predicate Storable(tokenKey: string, p: string, secret: string) {
    Word(tokenKey) && Word(p) && Word(secret) && |NewLine(tokenKey, p, secret)| < MAX_LINE
  }

  lemma StorablePlain(tokenKey: string, p: string, secret: string)
    requires Storable(tokenKey, p, secret)
    ensures Plain(NewLine(tokenKey, p, secret))
  {}

  /** What scanning a saved store gives, up to fields: the kept lines and then the new one. */
  lemma SavedLines(t: string, tokenKey: string, p: string, secret: string)
    requires Storable(tokenKey, p, secret)
    ensures Scan(Saved(t, tokenKey, p, secret)).1
    ensures SameFields(Scan(Saved(t, tokenKey, p, secret)).0, Kept(Scan(t).0, p) + [NewLine(tokenKey, p, secret)])
  {
    ScanPlain(t);
    KeptPlain(Scan(t).0, p, |Scan(t).0|);
    StorablePlain(tokenKey, p, secret);
    WrittenFields(Kept(Scan(t).0, p) + [NewLine(tokenKey, p, secret)]);
  }

  lemma SavedFound(dec: string -> Option<Pin>, t: string, tokenKey: string, p: string, secret: string, k: Pin)
    requires Storable(tokenKey, p, secret)
    ensures var kept := Kept(Scan(t).0, p);
      Lookup(dec, Saved(t, tokenKey, p, secret), k) ==
        if FoundTo(dec, kept, k, |kept|).Some? then FoundTo(dec, kept, k, |kept|)
        else if dec(p) == Some(k) then Some(secret) else None
  {
    var kept, line := Kept(Scan(t).0, p), NewLine(tokenKey, p, secret);
    SavedLines(t, tokenKey, p, secret);
    FoundByFields(dec, Scan(Saved(t, tokenKey, p, secret)).0, kept + [line], k, |kept| + 1);
    FoundAppend(dec, kept, [line], k, |kept|);
    ThreeFields(tokenKey, p, secret);
    assert (kept + [line])[|kept|] == line;
  }

  /** After a save the partner's lookup gives the new secret exactly if no other spelling of it is stored. */
  lemma SaveThenLookup(dec: string -> Option<Pin>, t: string, tokenKey: string, p: string, secret: string, k: Pin)
    requires Storable(tokenKey, p, secret) && dec(p) == Some(k)
    ensures !HasAlias(dec, Scan(t).0, p, k, |Scan(t).0|) ==>
      Lookup(dec, Saved(t, tokenKey, p, secret), k) == Some(secret)
    ensures HasAlias(dec, Scan(t).0, p, k, |Scan(t).0|) ==>
      var kept := Kept(Scan(t).0, p);
      Lookup(dec, Saved(t, tokenKey, p, secret), k) == FoundTo(dec, kept, k, |kept|)
  {
    SavedFound(dec, t, tokenKey, p, secret, k);
    KeptOwn(dec, Scan(t).0, p, k, |Scan(t).0|);
  }

  /** Exactly one line, the last, is spelled for the saved partner. */
  lemma SavedOnce(t: string, tokenKey: string, p: string, secret: string, i: nat)
    requires Storable(tokenKey, p, secret) && i < |Scan(Saved(t, tokenKey, p, secret)).0|
    ensures var ls := Scan(Saved(t, tokenKey, p, secret)).0;
      SpelledFor(ls[i], p) <==> i == |ls| - 1
  {
    SavedLines(t, tokenKey, p, secret);
    KeptSpelling(Scan(t).0, p, |Scan(t).0|);
    ThreeFields(tokenKey, p, secret);
  }

  /** A save changes no other partner's lookup, and keeps the legacy lines, of everything it scanned. */
  lemma SaveElsewhere(dec: string -> Option<Pin>, t: string, tokenKey: string, p: string, secret: string, k: Pin)
    requires Storable(tokenKey, p, secret) && dec(p) != Some(k)
    ensures Lookup(dec, Saved(t, tokenKey, p, secret), k) == Lookup(dec, t, k)
    ensures LegacyLines(Saved(t, tokenKey, p, secret)) == LegacyLines(t)
  {
    SavedFound(dec, t, tokenKey, p, secret, k);
    KeptFinds(dec, Scan(t).0, p, k, |Scan(t).0|);
    SavedLegacy(t, tokenKey, p, secret);
  }

  lemma SavedLegacy(t: string, tokenKey: string, p: string, secret: string)
    requires Storable(tokenKey, p, secret)
    ensures LegacyLines(Saved(t, tokenKey, p, secret)) == LegacyLines(t)
  {
    var kept, line := Kept(Scan(t).0, p), NewLine(tokenKey, p, secret);
    SavedLines(t, tokenKey, p, secret);
    LegacyByFields(Scan(Saved(t, tokenKey, p, secret)).0, kept + [line], |kept| + 1);
    LegacyAppend(kept, [line], |kept|);
    ThreeFields(tokenKey, p, secret);
    assert (kept + [line])[|kept|] == line;
    KeptLegacy(Scan(t).0, p, |Scan(t).0|);
  }

  lemma {:induction false} NothingToKeepOut(dec: string -> Option<Pin>, ls: seq<string>, p: string, k: Pin, n: nat)
    requires n <= |ls| && !Mentions(ls, p)
    ensures FoundTo(dec, ls, k, n).Some? <==> HasAlias(dec, ls, p, k, n)
  {
    if n > 0 {
      NothingToKeepOut(dec, ls, p, k, n - 1);
      assert HasAlias(dec, ls, p, k, n) <==> HasAlias(dec, ls, p, k, n - 1) || Alias(dec, ls[n - 1], p, k);
    }
  }

  lemma {:induction false} RemovedLines(t: string, p: string)
    requires Scan(t).1 && Mentions(Scan(t).0, p)
    ensures SameFields(Scan(Removed(t, p)).0, Kept(Scan(t).0, p))
  {
    ScanPlain(t);
    KeptPlain(Scan(t).0, p, |Scan(t).0|);
    WrittenFields(Kept(Scan(t).0, p));
  }

  /** After a removal the partner's lookup is empty exactly if no other spelling of its key is stored. */
  lemma RemoveThenLookup(dec: string -> Option<Pin>, t: string, p: string, k: Pin)
    requires Scan(t).1 && dec(p) == Some(k)
    ensures Lookup(dec, Removed(t, p), k) == None <==> !HasAlias(dec, Scan(t).0, p, k, |Scan(t).0|)
  {
    var ls := Scan(t).0;
    if Mentions(ls, p) {
      RemovedLines(t, p);
      FoundByFields(dec, Scan(Removed(t, p)).0, Kept(ls, p), k, |Kept(ls, p)|);
      KeptOwn(dec, ls, p, k, |ls|);
    } else {
      NothingToKeepOut(dec, ls, p, k, |ls|);
    }
  }

  /** A removal changes no other partner's lookup and no legacy line. */
  lemma RemoveElsewhere(dec: string -> Option<Pin>, t: string, p: string, k: Pin)
    requires dec(p) != Some(k)
    ensures Lookup(dec, Removed(t, p), k) == Lookup(dec, t, k)
    ensures LegacyLines(Removed(t, p)) == LegacyLines(t)
  {
    var ls := Scan(t).0;
    if Scan(t).1 && Mentions(ls, p) {
      RemovedLines(t, p);
      FoundByFields(dec, Scan(Removed(t, p)).0, Kept(ls, p), k, |Kept(ls, p)|);
      KeptFinds(dec, ls, p, k, |ls|);
      LegacyByFields(Scan(Removed(t, p)).0, Kept(ls, p), |Kept(ls, p)|);
      KeptLegacy(ls, p, |ls|);
    }
  }

  // ---- an overlong line ------------------------------------------------------------------------------------

  /**
   A save does not look at why the scan stopped: from the first overlong line on, the
   file is lost, as if it had never been there. A removal refuses such a store instead.
   */
  lemma SaveCutsAtOverlongLine(head: string, tail: string, tokenKey: string, p: string, secret: string)
    requires (head == "" || head[|head| - 1] == '\n') && LineLen(tail) >= MAX_LINE
    ensures Saved(head + tail, tokenKey, p, secret) == Saved(head, tokenKey, p, secret)
    ensures Removed(head + tail, p) == head + tail
  {
    ScanStops(head, tail);
  }

  lemma {:induction false} ScanStops(head: string, tail: string)
    requires (head == "" || head[|head| - 1] == '\n') && LineLen(tail) >= MAX_LINE
    ensures Scan(head + tail) == (Scan(head).0, false)
    decreases |head|
  {
    if head == "" {
      assert head + tail == tail;
    } else {
      assert LineLen(head) < |head|;
      var l, rest := head[..LineLen(head)], head[LineLen(head) + 1..];
      assert head == l + "\n" + rest;
      assert head + tail == l + "\n" + (rest + tail);
      ScanFirst(l, rest);
      ScanFirst(l, rest + tail);
      assert rest == "" || rest[|rest| - 1] == '\n';
      ScanStops(rest, tail);
    }
  }

  // ---- the store itself --------------------------------------------------------------------------------------

  /** The decoded sessions of the first `n` lines, in order. */
  function SessionsTo(dec: string -> Option<Pin>, ls: seq<string>, n: nat): seq<Session>
    requires n <= |ls|
  {
    if n == 0 then []
    else if |Fields(ls[n - 1])| >= 3 && dec(Fields(ls[n - 1])[1]).Some?
    then SessionsTo(dec, ls, n - 1) + [Session(dec(Fields(ls[n - 1])[1]).value, Fields(ls[n - 1])[2])]
    else SessionsTo(dec, ls, n - 1)
  }

  /** The secret of the first of the first `n` sessions for `k`. */
  function SearchTo(ss: seq<Session>, k: Pin, n: nat): Option<string>
    requires n <= |ss|
  {
    if n == 0 then None
    else if SearchTo(ss, k, n - 1).Some? then SearchTo(ss, k, n - 1)
    else if ss[n - 1].pin == k then Some(ss[n - 1].secret)
    else None
  }

  lemma {:induction false} SearchAppend(ss: seq<Session>, x: Session, k: Pin, n: nat)
    requires n <= |ss|
    ensures SearchTo(ss + [x], k, n) == SearchTo(ss, k, n)
  {
    if n > 0 {
      SearchAppend(ss, x, k, n - 1);
    }
  }

  lemma {:induction false} SearchStays(ss: seq<Session>, k: Pin, i: nat, n: nat)
    requires i <= n <= |ss| && SearchTo(ss, k, i).Some?
    ensures SearchTo(ss, k, n) == SearchTo(ss, k, i)
    decreases n - i
  {
    if i < n {
      SearchStays(ss, k, i, n - 1);
    }
  }

  /** Searching the decoded sessions from the front is the lookup. */
  lemma {:induction false} FoundInSessions(dec: string -> Option<Pin>, ls: seq<string>, k: Pin, n: nat)
    requires n <= |ls|
    ensures SearchTo(SessionsTo(dec, ls, n), k, |SessionsTo(dec, ls, n)|) == FoundTo(dec, ls, k, n)
  {
    if n > 0 {
      FoundInSessions(dec, ls, k, n - 1);
      var before, f := SessionsTo(dec, ls, n - 1), Fields(ls[n - 1]);
      if |f| >= 3 && dec(f[1]).Some? {
        SearchAppend(before, Session(dec(f[1]).value, f[2]), k, |before|);
      }
    }
  }

  /** Is this very spelling on the revocation list? */
  method IsListed(revoked: seq<string>, p: string) returns (yes: bool)
    ensures yes <==> p in revoked
  {
    for i := 0 to |revoked|
      invariant forall j :: 0 <= j < i ==> revoked[j] != p
    {
      if revoked[i] == p {
        return true;
      }
    }
    return false;
  }

  /** The file, absent until the first save. The caller holds the trust-state lock. */
  class SessionFile {
    var text: Option<string>

    function Text(): string
      reads this
    {
      if text.None? then "" else text.value
    }

    /** Replace the partner's line, unless its spelling is on the revocation list; every other line is kept. */
    method SaveLocked(revoked: seq<string>, tokenKey: string, p: string, secret: string) returns (ok: bool)
      modifies this
      ensures ok <==> p !in revoked
      ensures text == if p in revoked then old(text) else Some(Saved(old(Text()), tokenKey, p, secret))
    {
      var listed := IsListed(revoked, p);
      if listed {
        return false;
      }
      var ls := Scan(Text()).0;
      var kept: seq<string> := [];
      for i := 0 to |ls|
        invariant kept == KeptTo(ls, p, i)
      {
        if !SpelledFor(ls[i], p) && !Blank(ls[i]) {
          kept := kept + [ls[i]];
        }
      }
      text := Some(Joined(kept + [NewLine(tokenKey, p, secret)]));
      return true;
    }

    /** Drop the partner's lines, and rewrite the file only if there were any. */
    method RemoveLocked(p: string) returns (ok: bool, removed: nat)
      modifies this
      ensures ok <==> old(text).None? || Scan(old(Text())).1
      ensures removed > 0 <==> ok && Mentions(Scan(old(Text())).0, p)
      ensures text == if old(text).None? then None else Some(Removed(old(Text()), p))
    {
      if text.None? {
        return true, 0;
      }
      var scan := Scan(Text());
      var ls, kept: seq<string> := scan.0, [];
      removed := 0;
      for i := 0 to |ls|
        invariant kept == KeptTo(ls, p, i)
        invariant removed > 0 <==> exists j :: 0 <= j < i && SpelledFor(ls[j], p)
      {
        if SpelledFor(ls[i], p) {
          removed := removed + 1;
        } else if !Blank(ls[i]) {
          kept := kept + [ls[i]];
        }
      }
      if !scan.1 {
        return false, 0;
      }
      ok := true;
      if removed > 0 {
        text := Some(Joined(kept));
      }
    }

    /** Every stored session, or an error if the file could not be read to its end. */
    method LoadSessions(dec: string -> Option<Pin>) returns (out: seq<Session>, ok: bool)
      ensures out == SessionsTo(dec, Scan(Text()).0, |Scan(Text()).0|) && ok == Scan(Text()).1
    {
      var scan := Scan(Text());
      out, ok := [], scan.1;
      for i := 0 to |scan.0|
        invariant out == SessionsTo(dec, scan.0, i)
      {
        var fields := Fields(scan.0[i]);
        if |fields| >= 3 {
          var pin := dec(fields[1]);
          if pin.Some? {
            out := out + [Session(pin.value, fields[2])];
          }
        }
      }
    }

    /** The stored secret for one pinned partner. */
    method LoadSessionFor(dec: string -> Option<Pin>, k: Pin) returns (secret: Option<string>, ok: bool)
      ensures ok == Scan(Text()).1
      ensures secret == if ok then Lookup(dec, Text(), k) else None
    {
      var sessions;
      sessions, ok := LoadSessions(dec);
      if !ok {
        return None, false;
      }
      FoundInSessions(dec, Scan(Text()).0, k, |Scan(Text()).0|);
      for i := 0 to |sessions|
        invariant SearchTo(sessions, k, i) == None
      {
        if sessions[i].pin == k {
          SearchStays(sessions, k, i + 1, |sessions|);
          return Some(sessions[i].secret), true;
        }
      }
      return None, true;
    }
  }
}
