/**
 How a public key is spelled (internal/crypto/keys.go): 43 base64 characters and a pad.
 They carry 258 bits for 256, and the decoder ignores the last two, so every key has four
 spellings. Writers of the session store and the revocation list compare spellings.
 */
module KeySpelling {
  import opened Common
  import opened SessionText
  import opened SessionStore

  predicate InAlphabet(c: char) {
    'A' <= c <= 'Z' || 'a' <= c <= 'z' || '0' <= c <= '9' || c == '+' || c == '/'
  }

  function DigitOf(c: char): (d: nat)
    requires InAlphabet(c)
    ensures d < 64
  {
    if 'A' <= c <= 'Z' then c as int - 'A' as int
    else if 'a' <= c <= 'z' then c as int - 'a' as int + 26
    else if '0' <= c <= '9' then c as int - '0' as int + 52
    else if c == '+' then 62 else 63
  }

  function CharOf(d: nat): (c: char)
    requires d < 64
    ensures InAlphabet(c) && DigitOf(c) == d
  {
    if d < 26 then ('A' as int + d) as char
    else if d < 52 then ('a' as int + d - 26) as char
    else if d < 62 then ('0' as int + d - 52) as char
    else if d == 62 then '+' else '/'
  }

  predicate AllDigits(s: string) {
    forall i :: 0 <= i < |s| ==> InAlphabet(s[i])
  }

  function Value(s: string): nat
    requires AllDigits(s)
  {
    if s == "" then 0 else 64 * Value(s[..|s| - 1]) + DigitOf(s[|s| - 1])
  }

  predicate Spelled(s: string) {
    |s| == 44 && s[43] == '=' && AllDigits(s[..43])
  }

  /** The last of the 43 digits, of which only the upper four bits count. */
  function LastDigit(s: string): (d: nat)
    requires Spelled(s)
    ensures d < 64
  {
    assert s[..43][42] == s[42];
    DigitOf(s[42])
  }

  function DecodeKey(s: string): Option<Pin> {
    if Spelled(s) then Some(Pin(Value(s[..43]) / 4)) else None
  }

  /** The spelling the encoder gives: the ignored bits are zero. */
  predicate Canonical(s: string) {
    Spelled(s) && LastDigit(s) % 4 == 0
  }

  // ---- four spellings per key ------------------------------------------------------------

  lemma {:induction false} ValueInjective(a: string, b: string)
    requires AllDigits(a) && AllDigits(b) && |a| == |b| && Value(a) == Value(b)
    ensures a == b
  {
    if a != "" {
      var n := |a| - 1;
      assert DigitOf(a[n]) == DigitOf(b[n]) && Value(a[..n]) == Value(b[..n]);
      ValueInjective(a[..n], b[..n]);
      assert CharOf(DigitOf(a[n])) == CharOf(DigitOf(b[n]));
      SameDigit(a[n], b[n]);
      assert a == a[..n] + [a[n]] && b == b[..n] + [b[n]];
    }
  }

  lemma SameDigit(c: char, d: char)
    requires InAlphabet(c) && InAlphabet(d) && DigitOf(c) == DigitOf(d)
    ensures c == d
  {}

  lemma DecodedValue(s: string)
    requires Spelled(s)
    ensures AllDigits(s[..42]) && DecodeKey(s) == Some(Pin(16 * Value(s[..42]) + LastDigit(s) / 4))
  {
    assert s[..43][..42] == s[..42] && s[..43][42] == s[42];
    assert forall i :: 0 <= i < 42 ==> s[..42][i] == s[..43][i];
  }

  /** Two spellings decode to one key exactly if they differ at most in the ignored bits. */
  lemma SameKeyIff(s: string, t: string)
    requires Spelled(s) && Spelled(t)
    ensures DecodeKey(s) == DecodeKey(t) <==> s[..42] == t[..42] && LastDigit(s) / 4 == LastDigit(t) / 4
  {
    DecodedValue(s);
    DecodedValue(t);
    SixteensAndRest(Value(s[..42]), LastDigit(s) / 4, Value(t[..42]), LastDigit(t) / 4);
    if Value(s[..42]) == Value(t[..42]) {
      ValueInjective(s[..42], t[..42]);
    }
  }

  lemma SixteensAndRest(v: nat, d: nat, w: nat, e: nat)
    requires d < 16 && e < 16
    ensures 16 * v + d == 16 * w + e <==> v == w && d == e
  {}

  /** So a key has one canonical spelling. */
  lemma CanonicalIsUnique(s: string, t: string)
    requires Canonical(s) && Canonical(t) && DecodeKey(s) == DecodeKey(t)
    ensures s == t
  {
    SameKeyIff(s, t);
    SameDigit(s[42], t[42]);
    assert s == s[..42] + [s[42]] + [s[43]] && t == t[..42] + [t[42]] + [t[43]];
  }

  // ---- what a revocation list catches -----------------------------------------------------

  /** A loaded revocation list holds canonical spellings. */
  ghost predicate Loaded(revoked: seq<string>) {
    forall s :: s in revoked ==> Canonical(s)
  }

  ghost predicate Tombstoned(revoked: seq<string>, k: Pin) {
    exists s :: s in revoked && DecodeKey(s) == Some(k)
  }

  /** A save for a revoked key is refused exactly if it names the key in its canonical spelling. */
  lemma RefusedIffCanonical(revoked: seq<string>, p: string, k: Pin)
    requires Loaded(revoked) && Tombstoned(revoked, k) && DecodeKey(p) == Some(k)
    ensures p in revoked <==> Canonical(p)
  {
    var s :| s in revoked && DecodeKey(s) == Some(k);
    if Canonical(p) {
      CanonicalIsUnique(s, p);
    }
  }

  /** Otherwise it is stored, and found again when the key is looked up. */
  lemma AliasFound(revoked: seq<string>, tokenKey: string, p: string, secret: string, k: Pin)
    requires Loaded(revoked) && Tombstoned(revoked, k) && DecodeKey(p) == Some(k) && !Canonical(p)
    requires Storable(tokenKey, p, secret)
    ensures p !in revoked && Lookup(DecodeKey, Saved("", tokenKey, p, secret), k) == Some(secret)
  {
    RefusedIffCanonical(revoked, p, k);
    assert Scan("") == ([], true);
    SaveThenLookup(DecodeKey, "", tokenKey, p, secret, k);
  }

  // ---- an input ------------------------------------------------------------------------------

  const ZERO := seq(42, i => 'A')
  const PLAIN := ZERO + "A="
  const ALIAS := ZERO + "B="

  lemma {:induction false} ZeroValue(s: string)
    requires forall i :: 0 <= i < |s| ==> s[i] == 'A'
    ensures AllDigits(s) && Value(s) == 0
  {
    if s != "" {
      ZeroValue(s[..|s| - 1]);
    }
  }

  lemma TwoSpellings()
    ensures Canonical(PLAIN) && Spelled(ALIAS) && !Canonical(ALIAS)
    ensures DecodeKey(PLAIN) == DecodeKey(ALIAS) == Some(Pin(0))
    ensures Word(PLAIN) && Word(ALIAS)
  {
    ZeroValue(ZERO);
    assert PLAIN[..43] == ZERO + "A" && ALIAS[..43] == ZERO + "B";
    assert PLAIN[..42] == ZERO && ALIAS[..42] == ZERO;
    DecodedValue(PLAIN);
    DecodedValue(ALIAS);
  }

  /** The key of 32 zero bytes, revoked, and a session for it under its second spelling. */
  lemma AliasOfRevokedKey()
    ensures Loaded([PLAIN]) && Tombstoned([PLAIN], Pin(0)) && ALIAS !in [PLAIN]
    ensures Lookup(DecodeKey, Saved("", "t", ALIAS, "s"), Pin(0)) == Some("s")
  {
    TwoSpellings();
    assert PLAIN in [PLAIN];
    AliasFound([PLAIN], "t", ALIAS, "s", Pin(0));
  }

  /** With that line in the store, neither a save nor a removal under the other spelling reaches it. */
  lemma AliasOutlivesSaveAndRemoval()
    ensures var t := Saved("", "t", ALIAS, "old");
      && Lookup(DecodeKey, Saved(t, "t", PLAIN, "new"), Pin(0)) == Some("old")
      && Lookup(DecodeKey, Removed(t, PLAIN), Pin(0)) == Some("old")
  {
    var t := Saved("", "t", ALIAS, "old");
    AliasOutlivesSave(t);
    AliasOutlivesRemoval(t);
  }

  lemma AliasOutlivesSave(t: string)
    requires t == Saved("", "t", ALIAS, "old")
    ensures Lookup(DecodeKey, Saved(t, "t", PLAIN, "new"), Pin(0)) == Some("old")
  {
    TwoSpellings();
    OneAliasLine(t);
    AliasLineKept(Scan(t).0);
    SaveThenLookup(DecodeKey, t, "t", PLAIN, "new", Pin(0));
  }

  lemma AliasOutlivesRemoval(t: string)
    requires t == Saved("", "t", ALIAS, "old")
    ensures Lookup(DecodeKey, Removed(t, PLAIN), Pin(0)) == Some("old")
  {
    OneAliasLine(t);
    AliasLineKept(Scan(t).0);
  }

  lemma AliasLineKept(ls: seq<string>)
    requires |ls| == 1 && Fields(ls[0]) == ["t", ALIAS, "old"]
    ensures Kept(ls, PLAIN) == ls && !Mentions(ls, PLAIN)
    ensures HasAlias(DecodeKey, ls, PLAIN, Pin(0), 1) && FoundTo(DecodeKey, ls, Pin(0), 1) == Some("old")
  {
    TwoSpellings();
    assert KeptTo(ls, PLAIN, 0) == [] && FoundTo(DecodeKey, ls, Pin(0), 0) == None;
  }

  lemma OneAliasLine(t: string)
    requires t == Saved("", "t", ALIAS, "old")
    ensures Scan(t).1 && |Scan(t).0| == 1 && Fields(Scan(t).0[0]) == ["t", ALIAS, "old"]
  {
    TwoSpellings();
    assert Scan("") == ([], true) && Kept([], ALIAS) == [];
    SavedLines("", "t", ALIAS, "old");
    ThreeFields("t", ALIAS, "old");
  }

  /** So one key can have two session lines: loading then gives the one partner twice. */
  lemma LoadedTwice()
    ensures var ls := Scan(Saved(Saved("", "t", ALIAS, "old"), "t", PLAIN, "new")).0;
      SessionsTo(DecodeKey, ls, |ls|) == [Session(Pin(0), "old"), Session(Pin(0), "new")]
  {
    var t := Saved("", "t", ALIAS, "old");
    TwoSpellings();
    OneAliasLine(t);
    AliasLineKept(Scan(t).0);
    SavedLines(t, "t", PLAIN, "new");
    ThreeFields("t", PLAIN, "new");
    BothLoaded(Scan(Saved(t, "t", PLAIN, "new")).0);
  }

  lemma BothLoaded(ls: seq<string>)
    requires |ls| == 2 && Fields(ls[0]) == ["t", ALIAS, "old"] && Fields(ls[1]) == ["t", PLAIN, "new"]
    ensures SessionsTo(DecodeKey, ls, 2) == [Session(Pin(0), "old"), Session(Pin(0), "new")]
  {
    TwoSpellings();
    assert SessionsTo(DecodeKey, ls, 0) == [];
    assert SessionsTo(DecodeKey, ls, 1) == [Session(Pin(0), "old")];
  }
}
