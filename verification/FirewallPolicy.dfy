/** What the compiled rules mean, for any interfaces in any order, and the state that drives them. */
module FirewallPolicy {
  import opened Netlink
  import opened Firewall

  lemma {:induction false} FirstAppend(a: seq<Rule>, b: seq<Rule>, p: Packet)
    ensures First(a + b, p) == if First(a, p) != Skip then First(a, p) else First(b, p)
  {
    if a == [] {
      assert a + b == b;
    } else {
      assert (a + b)[0] == a[0] && (a + b)[1..] == a[1..] + b;
      FirstAppend(a[1..], b, p);
    }
  }

  lemma FirstOne(r: Rule, p: Packet)
    ensures First([r], p) == Exec(r, p, [])
  {}

  // ---- interface names ------------------------------------------------------------------

  /** On real interface names the 16-byte register comparison is equality of names. */
  lemma PaddedInjective(a: Name, b: Name)
    requires IfName(a) && IfName(b) && Padded(a) == Padded(b)
    ensures a == b
  {
    PaddedMarks(a);
    PaddedMarks(b);
    assert Padded(b)[|a|] == 0;
    assert Padded(a)[|b|] == 0;
    assert forall i :: 0 <= i < |a| ==> a[i] == Padded(a)[i] && b[i] == Padded(b)[i];
  }

  lemma PaddedMarks(n: Name)
    requires IfName(n)
    ensures |Padded(n)| == IF_NAME_SIZE && forall i :: 0 <= i < IF_NAME_SIZE ==> (Padded(n)[i] == 0 <==> i >= |n|)
  {}

  // ---- one interface ------------------------------------------------------------------------

  /** The rule of one exposed port. */
  lemma PortRule(n: Name, port: Port, p: Packet)
    ensures Exec(Iifname(n) + (L4Proto(ProtoOf(port)) + (Dport(port.port) + Verdict(NF_ACCEPT))), p, [])
            == if Padded(p.iif) == Padded(n) && Hits(p, port) then Accept else Skip
  {
    ExecIifname(n, L4Proto(ProtoOf(port)) + (Dport(port.port) + Verdict(NF_ACCEPT)), p, []);
    ExecL4Proto(ProtoOf(port), Dport(port.port) + Verdict(NF_ACCEPT), p, Padded(n));
    ExecDport(port.port, Verdict(NF_ACCEPT), p, [ProtoOf(port)]);
    ExecVerdict(NF_ACCEPT, p, PutU16(BigEndian, port.port));
  }

  lemma PingRule(n: Name, proto: Byte, p: Packet)
    ensures Exec(Iifname(n) + (L4Proto(proto) + Verdict(NF_ACCEPT)), p, [])
            == if Padded(p.iif) == Padded(n) && p.proto == proto then Accept else Skip
  {
    ExecIifname(n, L4Proto(proto) + Verdict(NF_ACCEPT), p, []);
    ExecL4Proto(proto, Verdict(NF_ACCEPT), p, Padded(n));
    ExecVerdict(NF_ACCEPT, p, [proto]);
  }

  lemma StateRule(e: Endian, n: Name, p: Packet)
    requires |p.ct| == 4
    ensures Exec(Iifname(n) + (CtEstRel(e) + Verdict(NF_ACCEPT)), p, [])
            == if Padded(p.iif) == Padded(n) && (Established(e, p) || Related(e, p)) then Accept else Skip
  {
    ExecIifname(n, CtEstRel(e) + Verdict(NF_ACCEPT), p, []);
    var after := ExecCtEstRel(e, Verdict(NF_ACCEPT), p, Padded(n));
    ExecVerdict(NF_ACCEPT, p, after);
  }

  lemma DropRule(n: Name, p: Packet)
    ensures Exec(Iifname(n) + Verdict(NF_DROP), p, []) == if Padded(p.iif) == Padded(n) then Drop else Skip
  {
    ExecIifname(n, Verdict(NF_DROP), p, []);
    ExecVerdict(NF_DROP, p, Padded(n));
  }

  lemma {:induction false} PortsFirst(n: Name, ports: seq<Port>, p: Packet)
    ensures First(PortRules(n, ports), p) ==
      if Padded(p.iif) == Padded(n) && exists i :: 0 <= i < |ports| && Hits(p, ports[i]) then Accept else Skip
  {
    if ports != [] {
      PortRule(n, ports[0], p);
      PortsFirst(n, ports[1..], p);
      var rule := Iifname(n) + (L4Proto(ProtoOf(ports[0])) + (Dport(ports[0].port) + Verdict(NF_ACCEPT)));
      FirstOne(rule, p);
      FirstAppend([rule], PortRules(n, ports[1..]), p);
      assert (exists i :: 0 <= i < |ports| && Hits(p, ports[i]))
        <==> Hits(p, ports[0]) || exists i :: 0 <= i < |ports[1..]| && Hits(p, ports[1..][i]) by {
        if i :| 0 <= i < |ports| && Hits(p, ports[i]) && i > 0 {
          assert ports[1..][i - 1] == ports[i];
        }
        if i :| 0 <= i < |ports[1..]| && Hits(p, ports[1..][i]) {
          assert ports[i + 1] == ports[1..][i];
        }
      }
    }
  }

  lemma LastRules(n: Name, p: Packet)
    ensures First([Iifname(n) + (L4Proto(ICMP) + Verdict(NF_ACCEPT)),
                   Iifname(n) + (L4Proto(ICMPV6) + Verdict(NF_ACCEPT)),
                   Iifname(n) + Verdict(NF_DROP)], p)
            == if Padded(p.iif) != Padded(n) then Skip else if IsPing(p) then Accept else Drop
  {
    var a, b := Iifname(n) + (L4Proto(ICMP) + Verdict(NF_ACCEPT)), Iifname(n) + (L4Proto(ICMPV6) + Verdict(NF_ACCEPT));
    var c := Iifname(n) + Verdict(NF_DROP);
    PingRule(n, ICMP, p);
    PingRule(n, ICMPV6, p);
    DropRule(n, p);
    FirstOne(a, p);
    FirstOne(b, p);
    FirstOne(c, p);
    FirstAppend([b], [c], p);
    FirstAppend([a], [b, c], p);
    assert [a] + [b, c] == [a, b, c] && [b] + [c] == [b, c];
  }

  /** One interface's rules decide exactly its own packets, and those by its scope. */
  lemma ScopeFirst(e: Endian, n: Name, s: Scope, p: Packet)
    requires |p.ct| == 4
    ensures First(RuleExprs(e, n, s), p) ==
      if Padded(p.iif) != Padded(n) || s.all then Skip else if Welcome(e, s, p) then Accept else Drop
  {
    if !s.all {
      var state := Iifname(n) + (CtEstRel(e) + Verdict(NF_ACCEPT));
      var last := [Iifname(n) + (L4Proto(ICMP) + Verdict(NF_ACCEPT)),
                   Iifname(n) + (L4Proto(ICMPV6) + Verdict(NF_ACCEPT)),
                   Iifname(n) + Verdict(NF_DROP)];
      StateRule(e, n, p);
      FirstOne(state, p);
      PortsFirst(n, s.ports, p);
      LastRules(n, p);
      FirstAppend([state], PortRules(n, s.ports), p);
      FirstAppend([state] + PortRules(n, s.ports), last, p);
    }
  }

  // ---- the whole table --------------------------------------------------------------------------

  ghost predicate Distinct(order: seq<Name>) {
    forall i, j :: 0 <= i < j < |order| ==> order[i] != order[j]
  }

  ghost predicate Names(order: seq<Name>) {
    forall n :: n in order ==> IfName(n)
  }

  lemma {:induction false} InputFirst(e: Endian, scopes: map<Name, Scope>, order: seq<Name>, p: Packet)
    requires |p.ct| == 4 && IfName(p.iif) && Names(order) && forall n :: n in order ==> n in scopes
    ensures First(InputChain(e, scopes, order), p) ==
      if p.iif !in order || scopes[p.iif].all then Skip else if Welcome(e, scopes[p.iif], p) then Accept else Drop
  {
    if order != [] {
      var n := order[0];
      ScopeFirst(e, n, scopes[n], p);
      InputFirst(e, scopes, order[1..], p);
      FirstAppend(RuleExprs(e, n, scopes[n]), InputChain(e, scopes, order[1..]), p);
      if Padded(p.iif) == Padded(n) {
        PaddedInjective(p.iif, n);
      }
      assert p.iif in order <==> p.iif == n || p.iif in order[1..];
    }
  }

  lemma {:induction false} ForwardFirst(order: seq<Name>, p: Packet)
    requires IfName(p.iif) && Names(order)
    ensures First(ForwardChain(order), p) == if p.iif in order then Drop else Skip
  {
    if order != [] {
      var n := order[0];
      DropRule(n, p);
      FirstOne(Iifname(n) + Verdict(NF_DROP), p);
      ForwardFirst(order[1..], p);
      FirstAppend(ForwardExprs(n), ForwardChain(order[1..]), p);
      if Padded(p.iif) == Padded(n) {
        PaddedInjective(p.iif, n);
      }
      assert p.iif in order <==> p.iif == n || p.iif in order[1..];
    }
  }

  /** `order` lists exactly the scoped interfaces. */
  ghost predicate Lists(scopes: map<Name, Scope>, order: seq<Name>) {
    Distinct(order) && forall n :: n in order <==> n in scopes
  }

  /**
   For any scoped interfaces in any order, an input packet is accepted exactly when its
   interface is not scoped, is scoped `all`, or the packet is established or related, a
   ping, or for an exposed port.
   */
  lemma InputPolicy(e: Endian, scopes: map<Name, Scope>, order: seq<Name>, p: Packet)
    requires |p.ct| == 4 && IfName(p.iif) && Names(order) && Lists(scopes, order)
    ensures Eval(InputChain(e, scopes, order), p) == Accept <==>
      p.iif !in scopes || Welcome(e, scopes[p.iif], p)
    ensures Eval(InputChain(e, scopes, order), p) != Skip
  {
    InputFirst(e, scopes, order, p);
  }

  /** A forwarded packet is dropped exactly when it arrives on a scoped interface, `all` included. */
  lemma ForwardPolicy(scopes: map<Name, Scope>, order: seq<Name>, p: Packet)
    requires IfName(p.iif) && Names(order) && Lists(scopes, order)
    ensures Eval(ForwardChain(order), p) == Drop <==> p.iif in scopes
  {
    ForwardFirst(order, p);
  }

  /** So interfaces never influence each other, and the order of the rules is immaterial. */
  lemma {:induction false} NoInfluence(e: Endian, scopes: map<Name, Scope>, order: seq<Name>,
                    scopes': map<Name, Scope>, order': seq<Name>, p: Packet)
    requires |p.ct| == 4 && IfName(p.iif)
    requires Names(order) && Lists(scopes, order) && Names(order') && Lists(scopes', order')
    requires p.iif in scopes <==> p.iif in scopes'
    requires p.iif in scopes ==> scopes[p.iif] == scopes'[p.iif]
    ensures Eval(InputChain(e, scopes, order), p) == Eval(InputChain(e, scopes', order'), p)
    ensures Eval(ForwardChain(order), p) == Eval(ForwardChain(order'), p)
  {
    InputFirst(e, scopes, order, p);
    InputFirst(e, scopes', order', p);
    ForwardFirst(order, p);
    ForwardFirst(order', p);
  }
}
