/**
 The scope compiler of internal/nft/nft_linux.go. A scope becomes a list of rules, a
 rule a list of register-machine expressions; the kernel takes the first rule that
 reaches a verdict. The policy of both chains is to accept.
 */
module Firewall {
  import opened Common
  import opened Netlink

  const META_IIFNAME := 6
  const META_L4PROTO := 16
  const CT_STATE := 0
  const TRANSPORT_HEADER := 2
  const CMP_EQ := 0
  const CMP_NEQ := 1
  const NF_DROP := 0
  const NF_ACCEPT := 1
  const IF_NAME_SIZE := 16
  const TCP := 6
  const UDP := 17
  const ICMP := 1
  const ICMPV6 := 58
  const EST_OR_REL := 6

  type Name = seq<Byte>

  datatype Port = Port(udp: bool, port: U16)
  datatype Scope = Scope(all: bool, ports: seq<Port>)

  /** Expressions on register 1, with the kernel's own keys. */
  datatype Expr =
    | Meta(key: nat)
    | Payload(base: nat, offset: nat, len: nat)
    | Ct(key: nat)
    | Bitwise(mask: seq<Byte>)
    | Cmp(op: nat, value: seq<Byte>)
    | Immediate(code: nat)

  type Rule = seq<Expr>

  /** A packet as the hooks see it: interface, protocol, transport header, conntrack state word. */
  datatype Packet = Packet(iif: Name, proto: Byte, transport: seq<Byte>, ct: seq<Byte>)

  // ---- the register machine -----------------------------------------------------------

  datatype Outcome = Skip | Accept | Drop

  /** Zero-padded, or cut, to the size of the interface register. */
  function Padded(n: Name): seq<Byte> {
    if |n| >= IF_NAME_SIZE then n[..IF_NAME_SIZE] else n + Zeros(IF_NAME_SIZE - |n|)
  }

  /** The register holds 16 bytes: the name, and then zeros. */
  lemma PaddedIs(n: Name, i: nat)
    requires |n| <= 16 && i < 16
    ensures |Padded(n)| == 16 && Padded(n)[i] == if i < |n| then n[i] else 0
  {}

  function And(a: nat, b: nat): nat {
    if a == 0 || b == 0 then 0 else (a % 2) * (b % 2) + 2 * And(a / 2, b / 2)
  }

  lemma {:induction false} AndSmall(a: nat, b: nat)
    ensures And(a, b) <= b
  {
    if a != 0 && b != 0 {
      AndSmall(a / 2, b / 2);
      assert (a % 2) * (b % 2) <= b % 2;
    }
  }

  function AndByte(a: Byte, b: Byte): Byte {
    AndSmall(a, b);
    And(a, b)
  }

  function AndBytes(a: seq<Byte>, b: seq<Byte>): (r: seq<Byte>)
    requires |a| == |b|
    ensures |r| == |a|
  {
    seq(|a|, i requires 0 <= i < |a| => AndByte(a[i], b[i]))
  }

  /** What a load puts in the register, by the kernel's numbers; none if the packet has no such field. */
  function Loaded(x: Expr, p: Packet, reg: seq<Byte>): Option<seq<Byte>> {
    match x
    case Meta(key) =>
      if key == 6 then Some(Padded(p.iif))
      else if key == 16 then Some([p.proto])
      else None
    case Payload(base, offset, len) =>
      if base == 2 && offset + len <= |p.transport| then Some(p.transport[offset..offset + len])
      else None
    case Ct(key) => if key == 0 then Some(p.ct) else None
    case Bitwise(mask) => if |reg| == |mask| then Some(AndBytes(reg, mask)) else None
    case _ => None
  }

  predicate Compares(op: nat, a: seq<Byte>, b: seq<Byte>) {
    (op == 0 && a == b) || (op == 1 && a != b)
  }

  function Exec(rule: Rule, p: Packet, reg: seq<Byte>): Outcome {
    if rule == [] then Skip
    else if rule[0].Immediate? then if rule[0].code == 1 then Accept else Drop
    else if rule[0].Cmp? then
      if Compares(rule[0].op, reg, rule[0].value) then Exec(rule[1..], p, reg) else Skip
    else
      match Loaded(rule[0], p, reg)
      case None => Skip
      case Some(v) => Exec(rule[1..], p, v)
  }

  /** The first verdict the rules reach, if any. */
  function First(rules: seq<Rule>, p: Packet): Outcome {
    if rules == [] then Skip
    else if Exec(rules[0], p, []) != Skip then Exec(rules[0], p, [])
    else First(rules[1..], p)
  }

  /** A chain without a verdict falls back to its policy. */
  function Eval(rules: seq<Rule>, p: Packet): Outcome {
    if First(rules, p) == Skip then Accept else First(rules, p)
  }

  // ---- the compiler -----------------------------------------------------------------------

  function Iifname(n: Name): Rule {
    [Meta(META_IIFNAME), Cmp(CMP_EQ, Padded(n))]
  }

  function L4Proto(proto: Byte): Rule {
    [Meta(META_L4PROTO), Cmp(CMP_EQ, [proto])]
  }

  function Dport(port: U16): Rule {
    [Payload(TRANSPORT_HEADER, 2, 2), Cmp(CMP_EQ, PutU16(BigEndian, port))]
  }

  /** A 32-bit word below 256 in host order. */
  function Word(e: Endian, low: Byte): (w: seq<Byte>)
    ensures |w| == 4
  {
    if e == LittleEndian then [low, 0, 0, 0] else [0, 0, 0, low]
  }

  function CtEstRel(e: Endian): Rule {
    [Ct(CT_STATE), Bitwise(Word(e, EST_OR_REL)), Cmp(CMP_NEQ, Word(e, 0))]
  }

  function Verdict(code: nat): Rule {
    [Immediate(code)]
  }

  function ProtoOf(p: Port): Byte {
    if p.udp then UDP else TCP
  }

  function PortRules(n: Name, ports: seq<Port>): seq<Rule> {
    if ports == [] then []
    else [Iifname(n) + (L4Proto(ProtoOf(ports[0])) + (Dport(ports[0].port) + Verdict(NF_ACCEPT)))]
         + PortRules(n, ports[1..])
  }

  function RuleExprs(e: Endian, n: Name, s: Scope): seq<Rule> {
    if s.all then [] else
      [Iifname(n) + (CtEstRel(e) + Verdict(NF_ACCEPT))]
      + PortRules(n, s.ports)
      + [Iifname(n) + (L4Proto(ICMP) + Verdict(NF_ACCEPT)),
         Iifname(n) + (L4Proto(ICMPV6) + Verdict(NF_ACCEPT)),
         Iifname(n) + Verdict(NF_DROP)]
  }

  function ForwardExprs(n: Name): seq<Rule> {
    [Iifname(n) + Verdict(NF_DROP)]
  }

  /** The two chains of the table for the interfaces in `order`. */
  function InputChain(e: Endian, scopes: map<Name, Scope>, order: seq<Name>): seq<Rule>
    requires forall n :: n in order ==> n in scopes
  {
    if order == [] then [] else RuleExprs(e, order[0], scopes[order[0]]) + InputChain(e, scopes, order[1..])
  }

  function ForwardChain(order: seq<Name>): seq<Rule> {
    if order == [] then [] else ForwardExprs(order[0]) + ForwardChain(order[1..])
  }

  // ---- what a packet deserves ------------------------------------------------------------------

  /** A name the kernel can give an interface. */
  predicate IfName(n: Name) {
    |n| < 16 && forall i :: 0 <= i < |n| ==> n[i] != 0
  }

  function LowByte(e: Endian, w: seq<Byte>): Byte
    requires |w| == 4
  {
    if e == LittleEndian then w[0] else w[3]
  }

  predicate Established(e: Endian, p: Packet)
    requires |p.ct| == 4
  {
    LowByte(e, p.ct) / 2 % 2 == 1
  }

  predicate Related(e: Endian, p: Packet)
    requires |p.ct| == 4
  {
    LowByte(e, p.ct) / 4 % 2 == 1
  }

  predicate IsPing(p: Packet) {
    p.proto == 1 || p.proto == 58
  }

  /** Addressed to a port, by the numbers the headers carry: 6 is TCP, 17 UDP, and bytes 2 and 3 the destination. */
  predicate Hits(p: Packet, port: Port) {
    && p.proto == (if port.udp then 17 else 6)
    && |p.transport| >= 4 && port.port == (p.transport[2] as int) * 256 + p.transport[3]
  }

  predicate Exposed(s: Scope, p: Packet) {
    exists i :: 0 <= i < |s.ports| && Hits(p, s.ports[i])
  }

  predicate Welcome(e: Endian, s: Scope, p: Packet)
    requires |p.ct| == 4
  {
    s.all || Established(e, p) || Related(e, p) || IsPing(p) || Exposed(s, p)
  }

  // ---- blocks of expressions ----------------------------------------------------------------------

  /** A test loads a field and compares it; the rest of the rule runs only if it holds. */
  lemma ExecTest(load: Expr, op: nat, v: seq<Byte>, rest: Rule, p: Packet, reg: seq<Byte>)
    requires !load.Immediate? && !load.Cmp?
    ensures Exec([load, Cmp(op, v)] + rest, p, reg) ==
      match Loaded(load, p, reg)
      case None => Skip
      case Some(w) => if Compares(op, w, v) then Exec(rest, p, w) else Skip
  {}

  lemma ExecIifname(n: Name, rest: Rule, p: Packet, reg: seq<Byte>)
    ensures Exec(Iifname(n) + rest, p, reg) == if Padded(p.iif) == Padded(n) then Exec(rest, p, Padded(n)) else Skip
  {}

  lemma ExecL4Proto(proto: Byte, rest: Rule, p: Packet, reg: seq<Byte>)
    ensures Exec(L4Proto(proto) + rest, p, reg) == if p.proto == proto then Exec(rest, p, [proto]) else Skip
  {}

  lemma ExecDport(port: U16, rest: Rule, p: Packet, reg: seq<Byte>)
    ensures Exec(Dport(port) + rest, p, reg) ==
      if |p.transport| >= 4 && p.transport[2..4] == PutU16(BigEndian, port)
      then Exec(rest, p, PutU16(BigEndian, port)) else Skip
  {}

  lemma ExecVerdict(code: nat, p: Packet, reg: seq<Byte>)
    ensures Exec(Verdict(code), p, reg) == if code == NF_ACCEPT then Accept else Drop
  {}

  lemma AndSix(x: Byte)
    ensures And(x, 6) != 0 <==> x / 2 % 2 == 1 || x / 4 % 2 == 1
  {
    assert And(x, 6) == if x == 0 then 0 else 2 * And(x / 2, 3);
    assert And(x / 2, 3) == if x / 2 == 0 then 0 else x / 2 % 2 + 2 * And(x / 2 / 2, 1);
    assert And(x / 2 / 2, 1) == if x / 2 / 2 == 0 then 0 else x / 2 / 2 % 2 + 2 * And(x / 2 / 2 / 2, 0);
    assert x / 2 / 2 == x / 4;
  }

  lemma MaskedState(e: Endian, ct: seq<Byte>)
    requires |ct| == 4
    ensures AndBytes(ct, Word(e, EST_OR_REL)) != Word(e, 0) <==> And(LowByte(e, ct), 6) != 0
  {
    var m := AndBytes(ct, Word(e, EST_OR_REL));
    if e == LittleEndian {
      assert m == [AndByte(ct[0], 6), 0, 0, 0];
    } else {
      assert m == [0, 0, 0, AndByte(ct[3], 6)];
    }
  }

  lemma ExecCtEstRel(e: Endian, rest: Rule, p: Packet, reg: seq<Byte>) returns (after: seq<Byte>)
    requires |p.ct| == 4
    ensures Exec(CtEstRel(e) + rest, p, reg) ==
      if Established(e, p) || Related(e, p) then Exec(rest, p, after) else Skip
  {
    var rule := CtEstRel(e) + rest;
    after := AndBytes(p.ct, Word(e, EST_OR_REL));
    assert rule[1..] == [Bitwise(Word(e, EST_OR_REL)), Cmp(CMP_NEQ, Word(e, 0))] + rest;
    ExecTest(Bitwise(Word(e, EST_OR_REL)), CMP_NEQ, Word(e, 0), rest, p, p.ct);
    MaskedState(e, p.ct);
    AndSix(LowByte(e, p.ct));
  }
}
