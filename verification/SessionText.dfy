/**
 The text of the session store (internal/role/session.go): white-space separated
 fields, newline terminated lines, and the line scanner's limit. Bytes are chars.
 */
module SessionText {
  /** A scanner gives up on a line of this many bytes. */
  const MAX_LINE := 65536

  predicate Space(c: char) {
    c == ' ' || c == '\t' || c == '\n' || c == '\r' || c == 11 as char || c == 12 as char
  }

  predicate Word(s: string) {
    s != "" && forall i :: 0 <= i < |s| ==> !Space(s[i])
  }

  /** Length of the run of non-space bytes at the front. */
  function WordLen(s: string): (n: nat)
    ensures n <= |s|
    ensures forall i :: 0 <= i < n ==> !Space(s[i])
    ensures n < |s| ==> Space(s[n])
    ensures s != "" && !Space(s[0]) ==> n > 0
  {
    if s == "" || Space(s[0]) then 0 else
      assert forall i :: 1 <= i < |s| ==> s[i] == s[1..][i - 1];
      1 + WordLen(s[1..])
  }

  function Fields(s: string): seq<string>
    decreases |s|
  {
    if s == "" then []
    else if Space(s[0]) then Fields(s[1..])
    else [s[..WordLen(s)]] + Fields(s[WordLen(s)..])
  }

  lemma WordLenOf(w: string, rest: string)
    requires Word(w) && (rest == "" || Space(rest[0]))
    ensures WordLen(w + rest) == |w|
  {
    var s := w + rest;
    assert forall i :: 0 <= i < |w| ==> s[i] == w[i];
    assert rest != "" ==> s[|w|] == rest[0];
  }

  lemma {:induction false} FieldsOf(w: string, rest: string)
    requires Word(w) && (rest == "" || Space(rest[0]))
    ensures Fields(w + rest) == [w] + Fields(rest)
  {
    WordLenOf(w, rest);
    assert (w + rest)[..|w|] == w && (w + rest)[|w|..] == rest;
  }

  lemma FieldsAfterSpace(s: string)
    ensures Fields(" " + s) == Fields(s)
  {}

  /** Three words written with single spaces read back as those three words. */
  lemma {:induction false} ThreeFields(a: string, b: string, c: string)
    requires Word(a) && Word(b) && Word(c)
    ensures Fields(a + " " + b + " " + c) == [a, b, c]
  {
    Regrouped(a, b, c);
    TwoFields(b, c);
    FieldThen(a, b + (" " + c));
  }

  lemma Regrouped(a: string, b: string, c: string)
    ensures a + " " + b + " " + c == a + (" " + (b + (" " + c)))
  {}

  lemma TwoFields(a: string, b: string)
    requires Word(a) && Word(b)
    ensures Fields(a + (" " + b)) == [a, b]
  {
    LastField(b);
    FieldThen(a, b);
  }

  lemma LastField(w: string)
    requires Word(w)
    ensures Fields(w) == [w]
  {
    FieldsOf(w, "");
    assert w + "" == w;
  }

  lemma FieldThen(w: string, s: string)
    requires Word(w)
    ensures Fields(w + (" " + s)) == [w] + Fields(s)
  {
    FieldsOf(w, " " + s);
    FieldsAfterSpace(s);
  }

  /** Trailing white space is not part of any field. */
  lemma {:induction false} FieldsTrailing(s: string, c: char)
    requires Space(c)
    ensures Fields(s + [c]) == Fields(s)
    decreases |s|
  {
    if s == "" {
      assert ([c])[1..] == "";
      assert s + [c] == [c];
    } else if Space(s[0]) {
      assert (s + [c])[1..] == s[1..] + [c];
      FieldsTrailing(s[1..], c);
    } else {
      var n := WordLen(s);
      var w, rest := s[..n], s[n..];
      assert s == w + rest;
      FieldsOf(w, rest);
      assert s + [c] == w + (rest + [c]);
      FieldsOf(w, rest + [c]);
      FieldsTrailing(rest, c);
    }
  }

  // ---- lines ---------------------------------------------------------------------

  /** Length of the first line, up to its newline or the end. */
  function LineLen(t: string): (n: nat)
    ensures n <= |t|
    ensures forall i :: 0 <= i < n ==> t[i] != '\n'
    ensures n < |t| ==> t[n] == '\n'
  {
    if t == "" || t[0] == '\n' then 0 else
      assert forall i :: 1 <= i < |t| ==> t[i] == t[1..][i - 1];
      1 + LineLen(t[1..])
  }

  function Chomp(l: string): string {
    if l != "" && l[|l| - 1] == '\r' then l[..|l| - 1] else l
  }

  /** The lines a scanner delivers, and whether it reached the end of the text. */
  function Scan(t: string): (seq<string>, bool)
    decreases |t|
  {
    if t == "" then ([], true)
    else if LineLen(t) >= MAX_LINE then ([], false)
    else if LineLen(t) == |t| then ([Chomp(t)], true)
    else ([Chomp(t[..LineLen(t)])] + Scan(t[LineLen(t) + 1..]).0, Scan(t[LineLen(t) + 1..]).1)
  }

  /** Every line followed by a newline: what both writers put in the file. */
  function Joined(ls: seq<string>): string {
    if ls == [] then "" else ls[0] + "\n" + Joined(ls[1..])
  }

  predicate Plain(l: string) {
    |l| < MAX_LINE && forall i :: 0 <= i < |l| ==> l[i] != '\n'
  }

  predicate AllPlain(ls: seq<string>) {
    forall i :: 0 <= i < |ls| ==> Plain(ls[i])
  }

  lemma LineLenOf(l: string, rest: string)
    requires forall i :: 0 <= i < |l| ==> l[i] != '\n'
    ensures LineLen(l + "\n" + rest) == |l|
  {
    var t := l + "\n" + rest;
    assert t[|l|] == '\n';
    assert forall i :: 0 <= i < |l| ==> t[i] == l[i];
  }

  /** Scanning a text by its first line. */
  lemma {:induction false} ScanFirst(l: string, rest: string)
    requires forall i :: 0 <= i < |l| ==> l[i] != '\n'
    ensures Scan(l + "\n" + rest)
            == if |l| >= 65536 then ([], false) else ([Chomp(l)] + Scan(rest).0, Scan(rest).1)
  {
    var t := l + "\n" + rest;
    LineLenOf(l, rest);
    assert t[..|l|] == l && t[|l| + 1..] == rest;
  }

  function Chomped(ls: seq<string>): seq<string> {
    seq(|ls|, i requires 0 <= i < |ls| => Chomp(ls[i]))
  }

  /** What is written line by line is scanned line by line, to the end. */
  lemma {:induction false} ScanJoined(ls: seq<string>)
    requires AllPlain(ls)
    ensures Scan(Joined(ls)) == (Chomped(ls), true)
  {
    if ls == [] {
      assert Chomped(ls) == [];
    } else {
      ScanJoined(ls[1..]);
      assert Plain(ls[0]);
      ScanThen(ls[0], Joined(ls[1..]), Chomped(ls[1..]));
      ChompedFirst(ls);
    }
  }

  lemma ScanThen(l: string, rest: string, ls: seq<string>)
    requires Plain(l) && Scan(rest) == (ls, true)
    ensures Scan(l + "\n" + rest) == ([Chomp(l)] + ls, true)
  {
    ScanFirst(l, rest);
  }

  lemma ChompedFirst(ls: seq<string>)
    requires ls != []
    ensures Chomped(ls) == [Chomp(ls[0])] + Chomped(ls[1..])
  {}

  lemma {:induction false} ScanPlain(t: string)
    ensures AllPlain(Scan(t).0)
    decreases |t|
  {
    if t != "" && LineLen(t) < MAX_LINE && LineLen(t) < |t| {
      ScanPlain(t[LineLen(t) + 1..]);
    }
  }

  lemma FieldsChomp(l: string)
    ensures Fields(Chomp(l)) == Fields(l)
  {
    if l != "" && l[|l| - 1] == '\r' {
      FieldsTrailing(l[..|l| - 1], '\r');
      assert l[..|l| - 1] + ['\r'] == l;
    }
  }
}
