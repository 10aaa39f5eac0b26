/**
 The bytes a rule is sent as (internal/nft/nft_linux.go): expressions nested three
 deep in netlink attributes. Reading them back with the attribute walker gives the
 rule again, so what the kernel is sent means what the scope says.
 */
module FirewallWire {
  import opened Common
  import opened Netlink
  import opened Firewall
  import opened FirewallPolicy

  const LIST_ELEM := 1
  const EXPR_NAME := 1
  const EXPR_DATA := 2
  const DATA_VALUE := 1
  const DATA_VERDICT := 2
  const VERDICT_CODE := 1
  const REG_VERDICT := 0
  const REG_1 := 1

  /**
   An attribute encoder and walker. The lemmas below only use that walking undoes
   encoding and that encodings are not much longer than their values.
   */
  datatype Codec = Codec(enc: seq<Attr> -> seq<Byte>, walk: seq<Byte> -> seq<Attr>)

  predicate ShortAttrs(attrs: seq<Attr>, m: nat) {
    forall i :: 0 <= i < |attrs| ==> |attrs[i].val| <= m
  }

  ghost predicate Sound(c: Codec) {
    && (forall attrs :: AllFit(attrs) ==> c.walk(c.enc(attrs)) == AllMasked(attrs))
    && (forall attrs, m: nat :: ShortAttrs(attrs, m) ==> |c.enc(attrs)| <= |attrs| * (m + 7))
  }

  function NetlinkCodec(e: Endian): Codec {
    Codec(attrs => EncodeAll(e, attrs), b => Walk(e, b))
  }

  lemma {:induction false} EncodedSize(e: Endian, attrs: seq<Attr>, m: nat)
    requires ShortAttrs(attrs, m)
    ensures |EncodeAll(e, attrs)| <= |attrs| * (m + 7)
  {
    if attrs != [] {
      EncodedSize(e, attrs[1..], m);
      assert |attrs| * (m + 7) == (m + 7) + (|attrs| - 1) * (m + 7);
    }
  }

  lemma NetlinkSound(e: Endian)
    ensures Sound(NetlinkCodec(e))
  {
    forall attrs | AllFit(attrs) ensures Walk(e, EncodeAll(e, attrs)) == AllMasked(attrs) {
      RoundTrip(e, attrs);
    }
    forall attrs, m: nat | ShortAttrs(attrs, m) ensures |EncodeAll(e, attrs)| <= |attrs| * (m + 7) {
      EncodedSize(e, attrs, m);
    }
  }

  const META: seq<Byte> := [109, 101, 116, 97, 0]
  const PAYLOAD: seq<Byte> := [112, 97, 121, 108, 111, 97, 100, 0]
  const CT: seq<Byte> := [99, 116, 0]
  const BITWISE: seq<Byte> := [98, 105, 116, 119, 105, 115, 101, 0]
  const CMP: seq<Byte> := [99, 109, 112, 0]
  const IMMEDIATE: seq<Byte> := [105, 109, 109, 101, 100, 105, 97, 116, 101, 0]

  /** Thirty-two bits in network byte order. */
  function BE32(v: nat): (b: seq<Byte>)
    ensures |b| == 4
  {
    [v / 0x100_0000 % 256, v / 0x1_0000 % 256, v / 256 % 256, v % 256]
  }

  /** The number some bytes spell, most significant first. */
  function Number(b: seq<Byte>): nat {
    if b == [] then 0 else 256 * Number(b[..|b| - 1]) + b[|b| - 1] as int
  }

  lemma BE32RoundTrip(v: nat)
    requires v < 0x1_0000_0000
    ensures Number(BE32(v)) == v
  {
    var b := BE32(v);
    Digits(v);
    Push([], b[0]);
    Push([b[0]], b[1]);
    Push([b[0], b[1]], b[2]);
    Push([b[0], b[1], b[2]], b[3]);
    assert [] + [b[0]] == [b[0]] && [b[0]] + [b[1]] == [b[0], b[1]];
    assert [b[0], b[1]] + [b[2]] == [b[0], b[1], b[2]] && [b[0], b[1], b[2]] + [b[3]] == b;
  }

  lemma Push(b: seq<Byte>, x: Byte)
    ensures Number(b + [x]) == 256 * Number(b) + x as int
  {}

  lemma Digits(v: nat)
    requires v < 0x1_0000_0000
    ensures v / 0x100_0000 % 256 == v / 0x100_0000
    ensures v / 0x1_0000 == 256 * (v / 0x100_0000) + v / 0x1_0000 % 256
    ensures v / 256 == 256 * (v / 0x1_0000) + v / 256 % 256
  {}

  // ---- encoding ------------------------------------------------------------------------

  /** A raw register value, wrapped. */
  function Value(c: Codec, v: seq<Byte>): seq<Byte> {
    c.enc([Attr(DATA_VALUE, v)])
  }

  function NameOf(x: Expr): seq<Byte> {
    match x
    case Meta(_) => META
    case Payload(_, _, _) => PAYLOAD
    case Ct(_) => CT
    case Bitwise(_) => BITWISE
    case Cmp(_, _) => CMP
    case Immediate(_) => IMMEDIATE
  }

  function DataOf(c: Codec, x: Expr): seq<Attr> {
    match x
    case Meta(key) => [Attr(1, BE32(REG_1)), Attr(2, BE32(key))]
    case Payload(base, offset, len) =>
      [Attr(1, BE32(REG_1)), Attr(2, BE32(base)), Attr(3, BE32(offset)), Attr(4, BE32(len))]
    case Ct(key) => [Attr(1, BE32(REG_1)), Attr(2, BE32(key))]
    case Bitwise(mask) =>
      [Attr(1, BE32(REG_1)), Attr(2, BE32(REG_1)), Attr(3, BE32(|mask|)),
       Attr(NestedType(4), Value(c, mask)), Attr(NestedType(5), Value(c, Zeros(|mask|)))]
    case Cmp(op, value) => [Attr(1, BE32(REG_1)), Attr(2, BE32(op)), Attr(NestedType(3), Value(c, value))]
    case Immediate(code) =>
      [Attr(1, BE32(REG_VERDICT)),
       Attr(NestedType(2), c.enc([Attr(NestedType(DATA_VERDICT), c.enc([Attr(VERDICT_CODE, BE32(code))]))]))]
  }

  function Body(c: Codec, name: seq<Byte>, data: seq<Attr>): seq<Attr> {
    [Attr(EXPR_NAME, name), Attr(NestedType(EXPR_DATA), c.enc(data))]
  }

  /** One list element: the expression's kernel name and its nested body. */
  function Elem(c: Codec, x: Expr): Attr {
    Attr(NestedType(LIST_ELEM), c.enc(Body(c, NameOf(x), DataOf(c, x))))
  }

  function Elems(c: Codec, r: Rule): seq<Attr> {
    if r == [] then [] else [Elem(c, r[0])] + Elems(c, r[1..])
  }

  function RuleBytes(c: Codec, r: Rule): seq<Byte> {
    c.enc(Elems(c, r))
  }

  // ---- decoding ----------------------------------------------------------------------------

  /** The one wrapped value of a data attribute. */
  function Unwrap(c: Codec, typ: U16, b: seq<Byte>): Option<seq<Byte>> {
    var w := c.walk(b);
    if |w| == 1 && w[0].typ == typ then Some(w[0].val) else None
  }

  predicate IsWord(d: seq<Attr>, i: nat, typ: U16) {
    i < |d| && d[i].typ == typ && |d[i].val| == 4
  }

  predicate IsReg(d: seq<Attr>, i: nat, typ: U16, reg: nat) {
    IsWord(d, i, typ) && Number(d[i].val) == reg
  }

  /** The expressions by the kernel's attribute numbers. */
  function DecodeData(c: Codec, name: seq<Byte>, d: seq<Attr>): Option<Expr> {
    if name == META then
      if |d| == 2 && IsReg(d, 0, 1, 1) && IsWord(d, 1, 2) then Some(Meta(Number(d[1].val))) else None
    else if name == CT then
      if |d| == 2 && IsReg(d, 0, 1, 1) && IsWord(d, 1, 2) then Some(Ct(Number(d[1].val))) else None
    else if name == PAYLOAD then
      if |d| == 4 && IsReg(d, 0, 1, 1) && IsWord(d, 1, 2) && IsWord(d, 2, 3) && IsWord(d, 3, 4)
      then Some(Payload(Number(d[1].val), Number(d[2].val), Number(d[3].val))) else None
    else if name == CMP then
      if |d| == 3 && IsReg(d, 0, 1, 1) && IsWord(d, 1, 2) && d[2].typ == 3 && Unwrap(c, 1, d[2].val).Some?
      then Some(Cmp(Number(d[1].val), Unwrap(c, 1, d[2].val).value)) else None
    else if name == BITWISE then DecodeBitwise(c, d)
    else if name == IMMEDIATE then DecodeImmediate(c, d)
    else None
  }

  /** A mask without an exclusive-or part. */
  function DecodeBitwise(c: Codec, d: seq<Attr>): Option<Expr> {
    if |d| == 5 && IsReg(d, 0, 1, 1) && IsReg(d, 1, 2, 1) && d[3].typ == 4 && d[4].typ == 5 then
      var mask, xor := Unwrap(c, 1, d[3].val), Unwrap(c, 1, d[4].val);
      if mask.Some? && IsReg(d, 2, 3, |mask.value|) && xor == Some(Zeros(|mask.value|))
      then Some(Bitwise(mask.value)) else None
    else None
  }

  function DecodeImmediate(c: Codec, d: seq<Attr>): Option<Expr> {
    if |d| == 2 && IsReg(d, 0, 1, 0) && d[1].typ == 2 then
      match Unwrap(c, 2, d[1].val)
      case None => None
      case Some(verdict) =>
        var code := Unwrap(c, 1, verdict);
        if code.Some? && |code.value| == 4 then Some(Immediate(Number(code.value))) else None
    else None
  }

  function DecodeElem(c: Codec, a: Attr): Option<Expr> {
    var inner := c.walk(a.val);
    if a.typ == 1 && |inner| == 2 && inner[0].typ == 1 && inner[1].typ == 2
    then DecodeData(c, inner[0].val, c.walk(inner[1].val)) else None
  }

  function DecodeElems(c: Codec, elems: seq<Attr>): Option<Rule> {
    if elems == [] then Some([])
    else if DecodeElem(c, elems[0]).None? || DecodeElems(c, elems[1..]).None? then None
    else Some([DecodeElem(c, elems[0]).value] + DecodeElems(c, elems[1..]).value)
  }

  function DecodeRule(c: Codec, b: seq<Byte>): Option<Rule> {
    DecodeElems(c, c.walk(b))
  }

  // ---- sizes -----------------------------------------------------------------------------------

  predicate Small(x: Expr) {
    match x
    case Meta(key) => key < 0x1_0000_0000
    case Payload(base, offset, len) => base < 0x1_0000_0000 && offset < 0x1_0000_0000 && len < 0x1_0000_0000
    case Ct(key) => key < 0x1_0000_0000
    case Bitwise(mask) => |mask| <= 64
    case Cmp(op, value) => op < 0x1_0000_0000 && |value| <= 64
    case Immediate(code) => code < 0x1_0000_0000
  }

  lemma OneShort(c: Codec, a: Attr, m: nat)
    requires Sound(c) && |a.val| <= m
    ensures |c.enc([a])| <= m + 7
  {
    assert ShortAttrs([a], m);
  }

  lemma DataShort(c: Codec, x: Expr)
    requires Sound(c) && Small(x)
    ensures ShortAttrs(DataOf(c, x), 80) && |DataOf(c, x)| <= 5
    ensures |c.enc(DataOf(c, x))| <= 500
  {
    match x {
      case Bitwise(mask) =>
        OneShort(c, Attr(DATA_VALUE, mask), 64);
        OneShort(c, Attr(DATA_VALUE, Zeros(|mask|)), 64);
      case Cmp(op, value) => OneShort(c, Attr(DATA_VALUE, value), 64);
      case Immediate(code) =>
        OneShort(c, Attr(VERDICT_CODE, BE32(code)), 4);
        OneShort(c, Attr(NestedType(DATA_VERDICT), c.enc([Attr(VERDICT_CODE, BE32(code))])), 11);
      case _ =>
    }
    assert ShortAttrs(DataOf(c, x), 80);
    assert |DataOf(c, x)| * 87 <= 500;
  }

  lemma ElemShort(c: Codec, x: Expr)
    requires Sound(c) && Small(x)
    ensures Fits(Elem(c, x))
  {
    DataShort(c, x);
    assert ShortAttrs(Body(c, NameOf(x), DataOf(c, x)), 500);
  }

  // ---- round trips ---------------------------------------------------------------------------------

  lemma UnwrapOne(c: Codec, a: Attr)
    requires Sound(c) && Fits(a)
    ensures Unwrap(c, a.typ % TYPE_MASK, c.enc([a])) == Some(a.val)
  {}

  /** Reading a comparison whose fields read as they should. */
  lemma ReadCmp(c: Codec, d: seq<Attr>, op: nat, v: seq<Byte>)
    requires |d| == 3 && IsReg(d, 0, 1, REG_1) && IsReg(d, 1, 2, op)
    requires d[2].typ == 3 && Unwrap(c, DATA_VALUE, d[2].val) == Some(v)
    ensures DecodeData(c, CMP, d) == Some(Cmp(op, v))
  {}

  lemma ReadBitwise(c: Codec, d: seq<Attr>, mask: seq<Byte>)
    requires |d| == 5 && IsReg(d, 0, 1, REG_1) && IsReg(d, 1, 2, REG_1) && IsReg(d, 2, 3, |mask|)
    requires d[3].typ == 4 && Unwrap(c, DATA_VALUE, d[3].val) == Some(mask)
    requires d[4].typ == 5 && Unwrap(c, DATA_VALUE, d[4].val) == Some(Zeros(|mask|))
    ensures DecodeData(c, BITWISE, d) == Some(Bitwise(mask))
  {}

  lemma ReadImmediate(c: Codec, d: seq<Attr>, verdict: seq<Byte>, code: seq<Byte>)
    requires |d| == 2 && IsReg(d, 0, 1, REG_VERDICT) && d[1].typ == 2
    requires Unwrap(c, DATA_VERDICT, d[1].val) == Some(verdict)
    requires Unwrap(c, VERDICT_CODE, verdict) == Some(code) && |code| == 4
    ensures DecodeData(c, IMMEDIATE, d) == Some(Immediate(Number(code)))
  {}

  lemma CmpRoundTrip(c: Codec, op: nat, v: seq<Byte>)
    requires Sound(c) && op < 0x1_0000_0000 && |v| <= 64
    ensures DecodeData(c, CMP, AllMasked(DataOf(c, Cmp(op, v)))) == Some(Cmp(op, v))
  {
    BE32RoundTrip(REG_1);
    BE32RoundTrip(op);
    UnwrapOne(c, Attr(DATA_VALUE, v));
    ReadCmp(c, AllMasked(DataOf(c, Cmp(op, v))), op, v);
  }

  lemma BitwiseRoundTrip(c: Codec, mask: seq<Byte>)
    requires Sound(c) && |mask| <= 64
    ensures DecodeData(c, BITWISE, AllMasked(DataOf(c, Bitwise(mask)))) == Some(Bitwise(mask))
  {
    BE32RoundTrip(REG_1);
    BE32RoundTrip(|mask|);
    UnwrapOne(c, Attr(DATA_VALUE, mask));
    UnwrapOne(c, Attr(DATA_VALUE, Zeros(|mask|)));
    ReadBitwise(c, AllMasked(DataOf(c, Bitwise(mask))), mask);
  }

  lemma ImmediateRoundTrip(c: Codec, code: nat)
    requires Sound(c) && code < 0x1_0000_0000
    ensures DecodeData(c, IMMEDIATE, AllMasked(DataOf(c, Immediate(code)))) == Some(Immediate(code))
  {
    BE32RoundTrip(REG_VERDICT);
    BE32RoundTrip(code);
    var verdict := c.enc([Attr(VERDICT_CODE, BE32(code))]);
    OneShort(c, Attr(VERDICT_CODE, BE32(code)), 4);
    UnwrapOne(c, Attr(VERDICT_CODE, BE32(code)));
    UnwrapOne(c, Attr(NestedType(DATA_VERDICT), verdict));
    ReadImmediate(c, AllMasked(DataOf(c, Immediate(code))), verdict, BE32(code));
  }

  lemma PayloadRoundTrip(c: Codec, base: nat, offset: nat, len: nat)
    requires Small(Payload(base, offset, len))
    ensures DecodeData(c, PAYLOAD, AllMasked(DataOf(c, Payload(base, offset, len)))) == Some(Payload(base, offset, len))
  {
    var d := AllMasked(DataOf(c, Payload(base, offset, len)));
    RegRead(d, 0, 1, REG_1);
    RegRead(d, 1, 2, base);
    RegRead(d, 2, 3, offset);
    RegRead(d, 3, 4, len);
    ReadPayload(c, d, base, offset, len);
  }

  lemma RegRead(d: seq<Attr>, i: nat, typ: U16, v: nat)
    requires i < |d| && v < 0x1_0000_0000 && d[i] == Attr(typ, BE32(v))
    ensures IsReg(d, i, typ, v)
  {
    BE32RoundTrip(v);
  }

  lemma ReadPayload(c: Codec, d: seq<Attr>, base: nat, offset: nat, len: nat)
    requires |d| == 4 && IsReg(d, 0, 1, REG_1) && IsReg(d, 1, 2, base) && IsReg(d, 2, 3, offset) && IsReg(d, 3, 4, len)
    ensures DecodeData(c, PAYLOAD, d) == Some(Payload(base, offset, len))
  {}

  lemma DataRoundTrip(c: Codec, x: Expr)
    requires Sound(c) && Small(x)
    ensures DecodeData(c, NameOf(x), AllMasked(DataOf(c, x))) == Some(x)
  {
    match x
    case Meta(key) =>
      BE32RoundTrip(REG_1);
      BE32RoundTrip(key);
    case Payload(base, offset, len) => PayloadRoundTrip(c, base, offset, len);
    case Ct(key) =>
      BE32RoundTrip(REG_1);
      BE32RoundTrip(key);
    case Bitwise(mask) => BitwiseRoundTrip(c, mask);
    case Cmp(op, value) => CmpRoundTrip(c, op, value);
    case Immediate(code) => ImmediateRoundTrip(c, code);
  }

  lemma BodyWalk(c: Codec, name: seq<Byte>, data: seq<Attr>)
    requires Sound(c) && |name| <= 500 && |c.enc(data)| <= 500 && AllFit(data)
    ensures var w := c.walk(c.enc(Body(c, name, data)));
      w == [Attr(EXPR_NAME, name), Attr(EXPR_DATA, c.enc(data))] && c.walk(w[1].val) == AllMasked(data)
  {}

  lemma ElemRoundTrip(c: Codec, x: Expr)
    requires Sound(c) && Small(x)
    ensures DecodeElem(c, Masked(Elem(c, x))) == Some(x)
  {
    DataShort(c, x);
    DataRoundTrip(c, x);
    BodyWalk(c, NameOf(x), DataOf(c, x));
  }

  lemma MaskedCons(a: Attr, rest: seq<Attr>)
    ensures AllMasked([a] + rest) == [Masked(a)] + AllMasked(rest)
    ensures AllFit([a] + rest) <==> Fits(a) && AllFit(rest)
  {
    assert forall i :: 0 < i <= |rest| ==> ([a] + rest)[i] == rest[i - 1];
    assert ([a] + rest)[0] == a;
    if AllFit([a] + rest) {
      forall i | 0 <= i < |rest| ensures Fits(rest[i]) {
        assert ([a] + rest)[i + 1] == rest[i];
      }
    }
  }

  lemma {:induction false} ElemsRoundTrip(c: Codec, r: Rule)
    requires Sound(c) && forall i :: 0 <= i < |r| ==> Small(r[i])
    ensures AllFit(Elems(c, r)) && DecodeElems(c, AllMasked(Elems(c, r))) == Some(r)
  {
    if r != [] {
      ElemShort(c, r[0]);
      ElemRoundTrip(c, r[0]);
      ElemsRoundTrip(c, r[1..]);
      MaskedCons(Elem(c, r[0]), Elems(c, r[1..]));
      assert [r[0]] + r[1..] == r;
    }
  }

  /** The bytes of any rule read back as that rule. */
  lemma RuleRoundTrip(c: Codec, r: Rule)
    requires Sound(c) && forall i :: 0 <= i < |r| ==> Small(r[i])
    ensures DecodeRule(c, RuleBytes(c, r)) == Some(r)
  {
    ElemsRoundTrip(c, r);
  }

  // ---- what was sent means what the scope says -----------------------------------------------------------

  predicate SmallRule(r: Rule) {
    forall i :: 0 <= i < |r| ==> Small(r[i])
  }

  predicate SmallRules(rs: seq<Rule>) {
    forall r :: r in rs ==> SmallRule(r)
  }

  lemma {:induction false} PortRulesSmall(n: Name, ports: seq<Port>)
    ensures SmallRules(PortRules(n, ports))
  {
    if ports != [] {
      PortRuleSmall(n, ports[0]);
      PortRulesSmall(n, ports[1..]);
    }
  }

  lemma PortRuleSmall(n: Name, p: Port)
    ensures SmallRule(Iifname(n) + (L4Proto(ProtoOf(p)) + (Dport(p.port) + Verdict(NF_ACCEPT))))
  {}

  lemma FixedSmall(e: Endian, n: Name)
    ensures SmallRule(Iifname(n) + (CtEstRel(e) + Verdict(NF_ACCEPT)))
    ensures SmallRule(Iifname(n) + (L4Proto(ICMP) + Verdict(NF_ACCEPT)))
    ensures SmallRule(Iifname(n) + (L4Proto(ICMPV6) + Verdict(NF_ACCEPT)))
    ensures SmallRule(Iifname(n) + Verdict(NF_DROP))
  {}

  lemma ScopeSmall(e: Endian, n: Name, s: Scope)
    ensures SmallRules(RuleExprs(e, n, s))
  {
    PortRulesSmall(n, s.ports);
    FixedSmall(e, n);
  }

  lemma {:induction false} InputSmall(e: Endian, scopes: map<Name, Scope>, order: seq<Name>)
    requires forall n :: n in order ==> n in scopes
    ensures SmallRules(InputChain(e, scopes, order))
  {
    if order != [] {
      ScopeSmall(e, order[0], scopes[order[0]]);
      InputSmall(e, scopes, order[1..]);
    }
  }

  lemma {:induction false} ForwardSmall(e: Endian, order: seq<Name>)
    ensures SmallRules(ForwardChain(order))
  {
    if order != [] {
      FixedSmall(e, order[0]);
      ForwardSmall(e, order[1..]);
    }
  }

  function Written(enc: Rule -> seq<Byte>, rs: seq<Rule>): seq<seq<Byte>> {
    if rs == [] then [] else [enc(rs[0])] + Written(enc, rs[1..])
  }

  function ReadAll(dec: seq<Byte> -> Option<Rule>, bs: seq<seq<Byte>>): Option<seq<Rule>> {
    if bs == [] then Some([])
    else if dec(bs[0]).None? || ReadAll(dec, bs[1..]).None? then None
    else Some([dec(bs[0]).value] + ReadAll(dec, bs[1..]).value)
  }

  lemma {:induction false} ReadWritten(enc: Rule -> seq<Byte>, dec: seq<Byte> -> Option<Rule>, rs: seq<Rule>)
    requires forall r :: r in rs ==> dec(enc(r)) == Some(r)
    ensures ReadAll(dec, Written(enc, rs)) == Some(rs)
  {
    if rs != [] {
      ReadWritten(enc, dec, rs[1..]);
      assert Written(enc, rs)[1..] == Written(enc, rs[1..]);
      assert rs[0] in rs && [rs[0]] + rs[1..] == rs;
    }
  }

  /** One rule message per rule. */
  function Bytes(c: Codec, rs: seq<Rule>): seq<seq<Byte>> {
    Written(r => RuleBytes(c, r), rs)
  }

  /** The rules the kernel reads from the rule messages, if it can read them all. */
  function Decoded(c: Codec, bs: seq<seq<Byte>>): Option<seq<Rule>> {
    ReadAll(b => DecodeRule(c, b), bs)
  }

  lemma ChainRoundTrip(c: Codec, rs: seq<Rule>)
    requires Sound(c) && SmallRules(rs)
    ensures Decoded(c, Bytes(c, rs)) == Some(rs)
  {
    var enc, dec := r => RuleBytes(c, r), b => DecodeRule(c, b);
    forall r | r in rs ensures dec(enc(r)) == Some(r) {
      RuleRoundTrip(c, r);
    }
    ReadWritten(enc, dec, rs);
  }

  /** End to end: reading back the bytes sent for the input chain decides every packet as the scopes say. */
  lemma SentBytesMeanScopes(e: Endian, scopes: map<Name, Scope>, order: seq<Name>, p: Packet)
    requires |p.ct| == 4 && IfName(p.iif) && Names(order) && Lists(scopes, order)
    ensures var sent := Decoded(NetlinkCodec(e), Bytes(NetlinkCodec(e), InputChain(e, scopes, order)));
      sent.Some? && (Eval(sent.value, p) == Accept <==> p.iif !in scopes || Welcome(e, scopes[p.iif], p))
  {
    NetlinkSound(e);
    InputSmall(e, scopes, order);
    ChainRoundTrip(NetlinkCodec(e), InputChain(e, scopes, order));
    InputPolicy(e, scopes, order, p);
  }

  /** And the bytes sent for the forward chain drop exactly what arrives on a scoped interface. */
  lemma SentForwardMeansScopes(e: Endian, scopes: map<Name, Scope>, order: seq<Name>, p: Packet)
    requires IfName(p.iif) && Names(order) && Lists(scopes, order)
    ensures var sent := Decoded(NetlinkCodec(e), Bytes(NetlinkCodec(e), ForwardChain(order)));
      sent.Some? && (Eval(sent.value, p) == Drop <==> p.iif in scopes)
  {
    NetlinkSound(e);
    ForwardSmall(e, order);
    ChainRoundTrip(NetlinkCodec(e), ForwardChain(order));
    ForwardPolicy(scopes, order, p);
  }
}
