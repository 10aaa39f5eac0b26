/**
 Leg accounting: the per-source counters the relay bumps and releases one leg at
 a time always equal a fresh count of the live legs.
 */
module RelayAccounting {
  import opened Common
  import opened RelayState

  lemma TallyCounts(ls: set<Leg>, k: AcctKey)
    ensures k in Tally(ls) <==> Charged(ls, k) != {}
    ensures Count(Tally(ls), k) == |Charged(ls, k)|
  {
    if k in Tally(ls) {
      var l :| l in ls && l.acct == k;
      assert l in Charged(ls, k);
    }
  }

  /** Counter maps without zero entries are equal when they count alike. */
  lemma SameCounts(a: map<AcctKey, nat>, b: map<AcctKey, nat>)
    requires forall k :: k in a ==> a[k] > 0
    requires forall k :: k in b ==> b[k] > 0
    requires forall k :: Count(a, k) == Count(b, k)
    ensures a == b
  {
    forall k ensures k in a <==> k in b { assert Count(a, k) == Count(b, k); }
    forall k | k in a ensures a[k] == b[k] { assert Count(a, k) == Count(b, k); }
  }

  lemma TallyPositive(ls: set<Leg>)
    ensures forall k :: k in Tally(ls) ==> Tally(ls)[k] > 0
  {
    forall k | k in Tally(ls) ensures Tally(ls)[k] > 0 { TallyCounts(ls, k); }
  }

  /** Bumping counts one leg in; releasing its key counts exactly that leg out. */
  lemma TallyStep(ls: set<Leg>, l: Leg)
    requires l !in ls
    ensures Tally(ls + {l}) == Bump(Tally(ls), l.acct)
    ensures Tally(ls) == Release(Tally(ls + {l}), l.acct)
  {
    TallyPositive(ls);
    TallyPositive(ls + {l});
    forall k ensures Count(Tally(ls + {l}), k) == Count(Tally(ls), k) + (if k == l.acct then 1 else 0) {
      TallyCounts(ls, k);
      TallyCounts(ls + {l}, k);
      if k == l.acct {
        assert Charged(ls + {l}, k) == Charged(ls, k) + {l};
      } else {
        assert Charged(ls + {l}, k) == Charged(ls, k);
      }
    }
    assert Count(Tally(ls + {l}), l.acct) == Count(Tally(ls), l.acct) + 1;
    SameCounts(Tally(ls + {l}), Bump(Tally(ls), l.acct));
    SameCounts(Tally(ls), Release(Tally(ls + {l}), l.acct));
  }

  /** Putting one session in place of another changes only its own legs. */
  lemma LiveAfterUpdate(m: map<Token, Session>, t: Token, ses: Session)
    ensures LiveLegs(m[t := ses]) == LiveLegs(m - {t}) + Members(ses.legs)
  {
    var more, less := m[t := ses], m - {t};
    forall l | l in LiveLegs(more) ensures l in LiveLegs(less) + Members(ses.legs) {
      var u :| u in more && l in more[u].legs;
      if u != t { assert l in less[u].legs; }
    }
    forall l | l in LiveLegs(less) ensures l in LiveLegs(more) {
      var u :| u in less && l in less[u].legs;
      assert l in more[u].legs;
    }
    forall l | l in ses.legs ensures l in LiveLegs(more) { assert l in more[t].legs; }
  }

  /** The forwarding record tells a leg apart from every other live leg. */
  lemma OthersDiffer(m: map<Token, Session>, t: Token, i: nat)
    requires Unique(m) && t in m && i < |m[t].legs|
    ensures forall l :: l in LiveLegs(m - {t}) ==> l.fwd != m[t].legs[i].fwd
    ensures forall l :: l in m[t].legs[..i] + m[t].legs[i + 1..] ==> l.fwd != m[t].legs[i].fwd
  {}

  /** Dropping leg `l` out of the middle of a session releases its charge. */
  lemma TallyDrop(m: map<Token, Session>, t: Token, ses: Session, a: seq<Leg>, l: Leg, b: seq<Leg>)
    requires Unique(m[t := ses.(legs := a + [l] + b)])
    ensures var whole := Tally(LiveLegs(m[t := ses.(legs := a + [l] + b)]));
            var less := Tally(LiveLegs(m[t := ses.(legs := a + b)]));
            less == Release(whole, l.acct) && whole == Bump(less, l.acct)
  {
    var whole := m[t := ses.(legs := a + [l] + b)];
    var less := m[t := ses.(legs := a + b)];
    assert whole[t].legs[|a|] == l && whole[t].legs[..|a|] == a && whole[t].legs[|a| + 1..] == b;
    OthersDiffer(whole, t, |a|);
    LiveAfterUpdate(m, t, ses.(legs := a + [l] + b));
    LiveAfterUpdate(m, t, ses.(legs := a + b));
    assert whole - {t} == m - {t};
    assert LiveLegs(whole) == LiveLegs(less) + {l};
    TallyStep(LiveLegs(less), l);
  }

  /** Flags do not count, and a session without legs counts like no session. */
  lemma LiveIgnoresFlags(m: map<Token, Session>, t: Token, ses: Session)
    requires ses.legs == if t in m then m[t].legs else []
    ensures LiveLegs(m[t := ses]) == LiveLegs(m)
  {
    LiveAfterUpdate(m, t, ses);
    if t in m {
      assert m[t := m[t]] == m;
      LiveAfterUpdate(m, t, m[t]);
    } else {
      assert m - {t} == m;
    }
  }

  /** A leg appended to a session, new or old, is one more charge to its key. */
  lemma TallyClaim(m: map<Token, Session>, t: Token, ses: Session, l: Leg)
    requires ses.legs == (if t in m then m[t].legs else []) + [l]
    requires Unique(m[t := ses])
    ensures Tally(LiveLegs(m[t := ses])) == Bump(Tally(LiveLegs(m)), l.acct)
  {
    var legs := if t in m then m[t].legs else [];
    assert legs + [l] + [] == ses.legs && legs + [] == legs;
    assert ses.(legs := legs + [l] + []) == ses;
    TallyDrop(m, t, ses, legs, l, []);
    LiveIgnoresFlags(m, t, ses.(legs := legs + []));
  }

  /** A leg recharged in place moves one charge from its old key to the new one. */
  lemma TallyMove(m: map<Token, Session>, t: Token, i: nat, l: Leg)
    requires Unique(m) && t in m && i < |m[t].legs| && l.fwd == m[t].legs[i].fwd
    ensures Tally(LiveLegs(m[t := m[t].(legs := m[t].legs[i := l])]))
         == Bump(Release(Tally(LiveLegs(m)), m[t].legs[i].acct), l.acct)
  {
    var ses := m[t];
    var a, b := ses.legs[..i], ses.legs[i + 1..];
    assert ses.legs == a + [ses.legs[i]] + b && ses.legs[i := l] == a + [l] + b;
    assert m[t := ses.(legs := a + [ses.legs[i]] + b)] == m;
    TallyDrop(m, t, ses, a, ses.legs[i], b);
    UniqueMove(m, t, i, l);
    TallyDrop(m, t, ses, a, l, b);
  }

  lemma UniqueMove(m: map<Token, Session>, t: Token, i: nat, l: Leg)
    requires Unique(m) && t in m && i < |m[t].legs| && l.fwd == m[t].legs[i].fwd
    ensures Unique(m[t := m[t].(legs := m[t].legs[i := l])])
  {
    var home :| Homed(m, home);
    assert Homed(m[t := m[t].(legs := m[t].legs[i := l])], home);
  }

  /** Counting a leg of key `k` out and in again restores the counters exactly when `k` has a live leg. */
  lemma BumpUndoesRelease(ls: set<Leg>, k: AcctKey)
    ensures Bump(Release(Tally(ls), k), k) == Tally(ls) <==> Charged(ls, k) != {}
  {
    TallyCounts(ls, k);
    if l :| l in Charged(ls, k) {
      assert (ls - {l}) + {l} == ls;
      TallyStep(ls - {l}, l);
    } else {
      assert k in Bump(Release(Tally(ls), k), k);
    }
  }
}
