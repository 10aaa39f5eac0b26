/**
 BuddyDNS (internal/dns/resolver.go, pkg/protocol/names.go): the table of names and
 fingerprint aliases, and what a query is answered with. `fp` is the fingerprint of a key.
 */
module BuddyDns {
  import opened Common
  import opened PeerRegistry

  const MAX_NAME_LEN := 63
  const TLD := ".buddy"

  predicate Digit(c: char) { '0' <= c <= '9' }
  predicate Letter(c: char) { 'a' <= c <= 'z' }
  predicate Alnum(c: char) { Digit(c) || Letter(c) }

  /** The reserved shape of an alias: eight lower-case hex characters. */
  predicate AliasShape(s: string) {
    |s| == 8 && forall i :: 0 <= i < 8 ==> Digit(s[i]) || 'a' <= s[i] <= 'f'
  }

  /** One DNS label in lower case, not of the alias shape. */
  predicate ValidName(s: string) {
    && 1 <= |s| <= MAX_NAME_LEN
    && (forall i :: 0 <= i < |s| ==> Alnum(s[i]) || s[i] == '-')
    && Alnum(s[0]) && Alnum(s[|s| - 1])
    && !AliasShape(s)
  }

  const LETTERS := "abcdefghijklmnopqrstuvwxyz"
  const CAPITALS := "ABCDEFGHIJKLMNOPQRSTUVWXYZ"
  const HEX := "0123456789abcdef"

  lemma InLetters(c: char)
    ensures Letter(c) <==> c in LETTERS
  {
    if Letter(c) {
      assert LETTERS[c as int - 'a' as int] == c;
    }
  }

  lemma InDigits(c: char)
    ensures Digit(c) <==> c in "0123456789"
  {
    if Digit(c) {
      assert "0123456789"[c as int - '0' as int] == c;
    }
  }

  lemma InHex(c: char)
    ensures Digit(c) || 'a' <= c <= 'f' <==> c in HEX
  {
    if Digit(c) {
      assert HEX[c as int - '0' as int] == c;
    } else if 'a' <= c <= 'f' {
      assert HEX[c as int - 'a' as int + 10] == c;
    }
  }

  /** A name is one DNS label: up to 63 letters, digits and inner hyphens; eight hex digits are an alias instead. */
  lemma ValidNameIff(s: string)
    ensures AliasShape(s) <==> |s| == 8 && forall c :: c in s ==> c in HEX
    ensures ValidName(s) <==>
      && s != "" && |s| <= 63 && s[0] != '-' && s[|s| - 1] != '-'
      && (forall c :: c in s ==> c in LETTERS || c in "0123456789" || c == '-')
      && !(|s| == 8 && forall c :: c in s ==> c in HEX)
  {
    forall c ensures Alnum(c) <==> c in LETTERS || c in "0123456789" {
      InLetters(c);
      InDigits(c);
    }
    forall c ensures Digit(c) || 'a' <= c <= 'f' <==> c in HEX {
      InHex(c);
    }
  }

  type Table = map<string, Vip>

  // ---- building the table ----------------------------------------------------------------

  function Entered(t: Table, p: Peer, fp: string -> string): Table {
    match p.vip
    case None => t
    case Some(ip) => (if p.name != "" then t[p.name := ip] else t)[fp(p.key) := ip]
  }

  function PeersTo(l: seq<Peer>, fp: string -> string, n: nat): Table
    requires n <= |l|
  {
    if n == 0 then map[] else Entered(PeersTo(l, fp, n - 1), l[n - 1], fp)
  }

  function Built(l: seq<Peer>, fp: string -> string, selfName: string, selfIP: Option<Vip>): Table {
    var t := PeersTo(l, fp, |l|);
    if selfName != "" && selfIP.Some? then t[selfName := selfIP.value] else t
  }

  // ---- answering ---------------------------------------------------------------------------

  function Lower(s: string): string {
    seq(|s|, i requires 0 <= i < |s| => if 'A' <= s[i] <= 'Z' then (s[i] as int + 32) as char else s[i])
  }

  /** Lower case letter by letter: the 26 capitals become their letters and nothing else changes. */
  lemma LowerIs(s: string, i: nat, k: nat)
    requires i < |s| && k < 26
    ensures |Lower(s)| == |s|
    ensures s[i] == CAPITALS[k] ==> Lower(s)[i] == LETTERS[k]
    ensures s[i] !in CAPITALS ==> Lower(s)[i] == s[i]
  {
    if 'A' <= s[i] <= 'Z' {
      assert CAPITALS[s[i] as int - 'A' as int] == s[i];
    }
  }

  predicate HasSuffix(s: string, x: string) {
    |x| <= |s| && s[|s| - |x|..] == x
  }

  function TrimSuffix(s: string, x: string): string {
    if HasSuffix(s, x) then s[..|s| - |x|] else s
  }

  function Resolve(t: Table, qname: string): Option<Vip> {
    var q := TrimSuffix(Lower(qname), ".");
    var tag := TrimSuffix(q, TLD);
    if !HasSuffix(q, TLD) || tag == "" || '.' in tag || tag !in t then None else Some(t[tag])
  }

  /** A query for a label under the TLD is a look-up of that label, in any case and with or without the final dot. */
  lemma ResolveLabel(t: Table, tag: string)
    requires tag != "" && '.' !in tag && Lower(tag) == tag
    ensures Resolve(t, tag + TLD) == if tag in t then Some(t[tag]) else None
    ensures Resolve(t, tag + TLD + ".") == Resolve(t, tag + TLD)
  {
    var q := tag + TLD;
    assert Lower(q) == q by {
      assert forall i :: 0 <= i < |tag| ==> Lower(q)[i] == Lower(tag)[i];
    }
    assert Lower(q + ".") == q + ".";
    assert q[|q| - 1] == 'y' && q[|q| - 1..] == "y";
    assert !HasSuffix(q, ".");
    assert (q + ".")[|q|..] == "." && (q + ".")[..|q|] == q;
    assert q[|q| - 6..] == TLD && q[..|q| - 6] == tag;
  }

  lemma {:induction false} CaseBlind(t: Table, qname: string)
    ensures Resolve(t, Lower(qname)) == Resolve(t, qname)
  {
    assert Lower(Lower(qname)) == Lower(qname);
  }

  predicate AsksFor(qname: string, tag: string) {
    tag != "" && '.' !in tag && (Lower(qname) == tag + TLD || Lower(qname) == tag + TLD + ".")
  }

  /** Nothing outside the TLD, no bare TLD and no name of several labels is ever answered. */
  lemma OnlyOneLabel(t: Table, qname: string)
    requires Resolve(t, qname).Some?
    ensures exists tag :: AsksFor(qname, tag) && tag in t
  {}

  // ---- what the table holds --------------------------------------------------------------------

  /** Every listed name is a valid one, and no two peers share a name. */
  ghost predicate Roster(l: seq<Peer>, fp: string -> string) {
    && (forall i :: 0 <= i < |l| ==> AliasShape(fp(l[i].key)) && (l[i].name == "" || ValidName(l[i].name)))
    && (forall i, j :: 0 <= i < j < |l| && l[i].name != "" ==> l[i].name != l[j].name)
  }

  /** Peer `i` is the last listed one with an address and this alias. */
  ghost predicate LastAlias(l: seq<Peer>, fp: string -> string, n: nat, tag: string, i: int)
    requires n <= |l|
  {
    && 0 <= i < n && l[i].vip.Some? && fp(l[i].key) == tag
    && forall j :: i < j < n && l[j].vip.Some? ==> fp(l[j].key) != tag
  }

  lemma {:induction false} NameHeld(l: seq<Peer>, fp: string -> string, n: nat, i: nat)
    requires Roster(l, fp) && i < n <= |l| && l[i].name != "" && l[i].vip.Some?
    ensures l[i].name in PeersTo(l, fp, n) && PeersTo(l, fp, n)[l[i].name] == l[i].vip.value
  {
    if i < n - 1 {
      NameHeld(l, fp, n - 1, i);
    }
    assert fp(l[n - 1].key) != l[i].name;
  }

  lemma {:induction false} AliasHeld(l: seq<Peer>, fp: string -> string, n: nat, tag: string, i: nat)
    requires Roster(l, fp) && n <= |l| && LastAlias(l, fp, n, tag, i)
    ensures tag in PeersTo(l, fp, n) && PeersTo(l, fp, n)[tag] == l[i].vip.value
  {
    if i < n - 1 {
      AliasHeld(l, fp, n - 1, tag, i);
      assert l[n - 1].name != tag;
    }
  }

  ghost predicate Claims(l: seq<Peer>, fp: string -> string, n: nat, tag: string)
    requires n <= |l|
  {
    exists i :: 0 <= i < n && l[i].vip.Some? && ((l[i].name != "" && l[i].name == tag) || fp(l[i].key) == tag)
  }

  lemma {:induction false} NothingElse(l: seq<Peer>, fp: string -> string, n: nat, tag: string)
    requires n <= |l|
    ensures tag in PeersTo(l, fp, n) ==> Claims(l, fp, n, tag)
  {
    if n > 0 {
      NothingElse(l, fp, n - 1, tag);
      if tag in PeersTo(l, fp, n) && tag in PeersTo(l, fp, n - 1) {
        var i :| 0 <= i < n - 1 && l[i].vip.Some? && ((l[i].name != "" && l[i].name == tag) || fp(l[i].key) == tag);
      } else if tag in PeersTo(l, fp, n) {
        assert l[n - 1].vip.Some?;
      }
    }
  }

  lemma ValidIsLabel(s: string)
    requires ValidName(s) || AliasShape(s)
    ensures s != "" && '.' !in s && Lower(s) == s
  {}

  /** `name.buddy` is answered with the address of the key that name is pinned to, unless it is our own name. */
  lemma AnswersName(l: seq<Peer>, fp: string -> string, selfName: string, selfIP: Option<Vip>, i: nat)
    requires Roster(l, fp) && i < |l| && l[i].name != "" && l[i].vip.Some?
    ensures Resolve(Built(l, fp, selfName, selfIP), l[i].name + TLD)
            == if selfName == l[i].name && selfIP.Some? then selfIP else l[i].vip
  {
    NameHeld(l, fp, |l|, i);
    ValidIsLabel(l[i].name);
    ResolveLabel(Built(l, fp, selfName, selfIP), l[i].name);
  }

  /** An alias is answered with its peer's address: no name, ours included, ever shadows it. */
  lemma AnswersAlias(l: seq<Peer>, fp: string -> string, selfName: string, selfIP: Option<Vip>, i: nat)
    requires Roster(l, fp) && (selfName == "" || ValidName(selfName))
    requires i < |l| && LastAlias(l, fp, |l|, fp(l[i].key), i)
    ensures Resolve(Built(l, fp, selfName, selfIP), fp(l[i].key) + TLD) == l[i].vip
  {
    AliasHeld(l, fp, |l|, fp(l[i].key), i);
    ValidIsLabel(fp(l[i].key));
    ResolveLabel(Built(l, fp, selfName, selfIP), fp(l[i].key));
  }

  /** And nothing else is answered. */
  lemma AnswersNothingElse(l: seq<Peer>, fp: string -> string, selfName: string, selfIP: Option<Vip>, tag: string)
    requires tag != "" && '.' !in tag && Lower(tag) == tag
    requires !Claims(l, fp, |l|, tag) && !(tag == selfName && selfIP.Some?)
    ensures Resolve(Built(l, fp, selfName, selfIP), tag + TLD) == None
  {
    NothingElse(l, fp, |l|, tag);
    ResolveLabel(Built(l, fp, selfName, selfIP), tag);
  }

  /** A consistent registry whose names were checked on arrival lists such a roster. */
  lemma ListingIsRoster(r: Registry, l: seq<Peer>, fp: string -> string)
    requires Consistent(r) && Listing(r, l)
    requires forall k :: k in r.nameByKey ==> ValidName(r.nameByKey[k])
    requires forall i :: 0 <= i < |l| ==> AliasShape(fp(l[i].key))
    ensures Roster(l, fp)
  {
    forall i | 0 <= i < |l| ensures l[i].name == PinnedName(r, l[i].key) {
      assert r.peers[l[i].key] == l[i];
    }
  }

  /** Fill the table peer by peer. */
  method BuildTable(l: seq<Peer>, fp: string -> string, selfName: string, selfIP: Option<Vip>) returns (t: Table)
    ensures t == Built(l, fp, selfName, selfIP)
  {
    t := map[];
    for i := 0 to |l|
      invariant t == PeersTo(l, fp, i)
    {
      if l[i].vip.Some? {
        if l[i].name != "" {
          t := t[l[i].name := l[i].vip.value];
        }
        t := t[fp(l[i].key) := l[i].vip.value];
      }
    }
    if selfName != "" && selfIP.Some? {
      t := t[selfName := selfIP.value];
    }
  }
}
