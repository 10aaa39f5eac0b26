/**
 Netlink attributes (internal/wg/wg_linux.go, internal/nft/nft_linux.go): the encoder,
 whose length field is sixteen bits wide, and the walker. Either byte order.
 */
module Netlink {
  type Byte = x: int | 0 <= x < 256
  type U16 = x: int | 0 <= x < 0x1_0000

  datatype Endian = LittleEndian | BigEndian

  const NESTED := 0x8000
  const TYPE_MASK := 0x4000

  /** The longest value whose length still fits its field. */
  const MAX_DATA := 0xFFFB

  datatype Attr = Attr(typ: U16, val: seq<Byte>)

  function PutU16(e: Endian, v: U16): (b: seq<Byte>)
    ensures |b| == 2
  {
    if e == LittleEndian then [v % 256, v / 256] else [v / 256, v % 256]
  }

  function GetU16(e: Endian, b: seq<Byte>): U16
    requires |b| == 2
  {
    var first: int := b[0];
    var second: int := b[1];
    if e == LittleEndian then first + 256 * second else 256 * first + second
  }

  function Pad4(n: nat): (m: nat)
    ensures n <= m < n + 4 && m % 4 == 0
  {
    (n + 3) / 4 * 4
  }

  function Zeros(n: nat): (z: seq<Byte>)
    ensures |z| == n
  {
    seq(n, i => 0)
  }

  /** One attribute: length and type, the value, and padding to four bytes. */
  function Encode(e: Endian, a: Attr): (b: seq<Byte>)
    ensures |b| == Pad4(4 + |a.val|)
  {
    PutU16(e, (4 + |a.val|) % 0x1_0000) + PutU16(e, a.typ) + a.val + Zeros(Pad4(4 + |a.val|) - 4 - |a.val|)
  }

  function NestedType(t: U16): U16 {
    if t >= NESTED then t else t + NESTED
  }

  /** The type of a nested attribute carries the top bit, and the walker reads it without. */
  lemma NestedMark(t: U16)
    requires t < 0x4000
    ensures NestedType(t) == t + 0x8000 && NestedType(t) % 0x4000 == t
  {}

  function EncodeNested(e: Endian, t: U16, payload: seq<Byte>): seq<Byte> {
    Encode(e, Attr(NestedType(t), payload))
  }

  function EncodeAll(e: Endian, attrs: seq<Attr>): seq<Byte> {
    if attrs == [] then [] else Encode(e, attrs[0]) + EncodeAll(e, attrs[1..])
  }

  /** What the walker reports for any bytes: it stops at the first attribute that does not fit. */
  function Walk(e: Endian, b: seq<Byte>): seq<Attr>
    decreases |b|
  {
    if |b| < 4 then [] else
      var l, t := GetU16(e, b[0..2]), GetU16(e, b[2..4]);
      if l < 4 || l > |b| then []
      else if Pad4(l) > |b| then [Attr(t % TYPE_MASK, b[4..l])]
      else [Attr(t % TYPE_MASK, b[4..l])] + Walk(e, b[Pad4(l)..])
  }

  /** The walker strips the nested flag with the rest of the flag bits. */
  function Masked(a: Attr): Attr {
    Attr(a.typ % TYPE_MASK, a.val)
  }

  function AllMasked(attrs: seq<Attr>): seq<Attr> {
    seq(|attrs|, i requires 0 <= i < |attrs| => Masked(attrs[i]))
  }

  predicate Fits(a: Attr) {
    |a.val| <= MAX_DATA
  }

  predicate AllFit(attrs: seq<Attr>) {
    forall i :: 0 <= i < |attrs| ==> Fits(attrs[i])
  }

  lemma Header(e: Endian, a: Attr, rest: seq<Byte>)
    ensures var b := Encode(e, a) + rest;
      && |b| >= 4 && GetU16(e, b[0..2]) == (4 + |a.val|) % 0x1_0000 && GetU16(e, b[2..4]) == a.typ
      && b[4..4 + |a.val|] == a.val && b[Pad4(4 + |a.val|)..] == rest
  {}

  lemma WalkFirst(e: Endian, a: Attr, rest: seq<Byte>)
    requires Fits(a)
    ensures Walk(e, Encode(e, a) + rest) == [Masked(a)] + Walk(e, rest)
  {
    Header(e, a, rest);
    WalkStep(e, Encode(e, a) + rest, 4 + |a.val|, a.typ);
  }

  lemma WalkStep(e: Endian, b: seq<Byte>, l: nat, t: U16)
    requires |b| >= 4 && GetU16(e, b[0..2]) == l && GetU16(e, b[2..4]) == t && 4 <= l && Pad4(l) <= |b|
    ensures Walk(e, b) == [Attr(t % TYPE_MASK, b[4..l])] + Walk(e, b[Pad4(l)..])
  {}

  /** However the bytes look, no reported value is longer than a length field can say. */
  lemma {:induction false} WalkShort(e: Endian, b: seq<Byte>, i: nat)
    requires i < |Walk(e, b)|
    ensures |Walk(e, b)[i].val| <= MAX_DATA
    decreases |b|
  {
    var l := GetU16(e, b[0..2]);
    if i > 0 {
      WalkShort(e, b[Pad4(l)..], i - 1);
    }
  }

  /** Where the `i`-th reported attribute starts, each right after the padding of the one before. */
  function Offset(attrs: seq<Attr>, i: nat): nat
    requires i <= |attrs|
  {
    if i == 0 then 0 else Offset(attrs, i - 1) + Pad4(4 + |attrs[i - 1].val|)
  }

  lemma {:induction false} OffsetTail(attrs: seq<Attr>, i: nat)
    requires 0 < i <= |attrs|
    ensures Offset(attrs, i) == Pad4(4 + |attrs[0].val|) + Offset(attrs[1..], i - 1)
  {
    if i > 1 {
      OffsetTail(attrs, i - 1);
      assert attrs[1..][i - 2] == attrs[i - 1];
    }
  }

  /** Each value lies behind its header, and each header behind the padding before it. */
  ghost predicate LaidOut(attrs: seq<Attr>, b: seq<Byte>) {
    attrs != [] ==>
      var n := |attrs[0].val|;
      && 4 + n <= |b| && attrs[0].val == b[4..4 + n]
      && (|attrs| > 1 ==> Pad4(4 + n) <= |b| && LaidOut(attrs[1..], b[Pad4(4 + n)..]))
  }

  lemma {:induction false} WalkLaidOut(e: Endian, b: seq<Byte>)
    ensures LaidOut(Walk(e, b), b)
    decreases |b|
  {
    var walked := Walk(e, b);
    if walked != [] {
      var l := GetU16(e, b[0..2]);
      assert walked[0].val == b[4..l];
      if Pad4(l) <= |b| {
        WalkLaidOut(e, b[Pad4(l)..]);
        assert walked[1..] == Walk(e, b[Pad4(l)..]);
      }
    }
  }

  /** `v` is the part of `b` that starts at `at`. */
  ghost predicate PartOf(v: seq<Byte>, b: seq<Byte>, at: nat) {
    at + |v| <= |b| && v == b[at..at + |v|]
  }

  lemma PartOfTail(v: seq<Byte>, b: seq<Byte>, from: nat, at: nat)
    requires from <= |b| && PartOf(v, b[from..], at)
    ensures PartOf(v, b, from + at)
  {}

  lemma {:induction false} LaidOutAt(attrs: seq<Attr>, b: seq<Byte>, i: nat)
    requires LaidOut(attrs, b) && i < |attrs|
    ensures PartOf(attrs[i].val, b, Offset(attrs, i) + 4)
  {
    if i > 0 {
      var from := Pad4(4 + |attrs[0].val|);
      LaidOutAt(attrs[1..], b[from..], i - 1);
      PartOfTail(attrs[i].val, b, from, Offset(attrs[1..], i - 1) + 4);
      OffsetTail(attrs, i);
    }
  }

  /**
   On arbitrary bytes every reported value is the part of the input behind its own header,
   and every header starts where the padding of the attribute before it ends, so the values
   are disjoint parts of the input.
   */
  lemma {:induction false} WalkInBounds(e: Endian, b: seq<Byte>, i: nat)
    requires i < |Walk(e, b)|
    ensures PartOf(Walk(e, b)[i].val, b, Offset(Walk(e, b), i) + 4)
  {
    WalkLaidOut(e, b);
    LaidOutAt(Walk(e, b), b, i);
  }

  /**
   Walking the concatenation of any list of encoded attributes gives back exactly that
   list, flags stripped, if and only if every value fits its length field.
   */
  lemma {:induction false} RoundTrip(e: Endian, attrs: seq<Attr>)
    ensures Walk(e, EncodeAll(e, attrs)) == AllMasked(attrs) <==> AllFit(attrs)
  {
    if attrs != [] {
      assert AllFit(attrs) <==> Fits(attrs[0]) && AllFit(attrs[1..]);
      if Fits(attrs[0]) {
        HeadFits(e, attrs);
        RoundTrip(e, attrs[1..]);
      } else {
        HeadTooLong(e, attrs);
      }
    }
  }

  lemma HeadFits(e: Endian, attrs: seq<Attr>)
    requires attrs != [] && Fits(attrs[0])
    ensures Walk(e, EncodeAll(e, attrs)) == AllMasked(attrs) <==>
      Walk(e, EncodeAll(e, attrs[1..])) == AllMasked(attrs[1..])
  {
    WalkFirst(e, attrs[0], EncodeAll(e, attrs[1..]));
    MaskedFirst(attrs);
    SameTail(Masked(attrs[0]), Walk(e, EncodeAll(e, attrs[1..])), AllMasked(attrs[1..]));
  }

  lemma MaskedFirst(attrs: seq<Attr>)
    requires attrs != []
    ensures AllMasked(attrs) == [Masked(attrs[0])] + AllMasked(attrs[1..])
  {}

  lemma SameTail(a: Attr, x: seq<Attr>, y: seq<Attr>)
    ensures [a] + x == [a] + y <==> x == y
  {
    assert ([a] + x)[1..] == x && ([a] + y)[1..] == y;
  }

  lemma HeadTooLong(e: Endian, attrs: seq<Attr>)
    requires attrs != [] && !Fits(attrs[0])
    ensures Walk(e, EncodeAll(e, attrs)) != AllMasked(attrs)
  {
    if Walk(e, EncodeAll(e, attrs)) != [] {
      WalkShort(e, EncodeAll(e, attrs), 0);
    }
    assert AllMasked(attrs)[0].val == attrs[0].val;
  }

  /** Attribute by attribute, as the walker goes. */
  method AttrWalk(e: Endian, bytes: seq<Byte>) returns (out: seq<Attr>)
    ensures out == Walk(e, bytes)
  {
    out := [];
    var b := bytes;
    while |b| >= 4
      invariant Walk(e, bytes) == out + Walk(e, b)
      decreases |b|
    {
      var l, t := GetU16(e, b[0..2]), GetU16(e, b[2..4]);
      if l < 4 || l > |b| {
        return;
      }
      out := out + [Attr(t % TYPE_MASK, b[4..l])];
      if Pad4(l) > |b| {
        return;
      }
      b := b[Pad4(l)..];
    }
  }
}
