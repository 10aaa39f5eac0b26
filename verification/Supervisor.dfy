/** The supervising goroutine itself (internal/role/supervisor.go). */
module Supervisor {
  import opened Common
  import opened SupervisorState
  import opened SupervisorRuns
  import TrustState

  class Supervise {
    var running: map<Key, Handle>
    var indexOf: map<Key, nat>
    var gen: nat
    ghost var live: set<Worker>
    ghost var exits: set<Exit>

    ghost function Abs(): Sup
      reads this
    {
      Sup(running, indexOf, gen, live, exits)
    }

    constructor ()
      ensures Abs() == IDLE && Inv(Abs())
    {
      running, indexOf, gen, live, exits := map[], map[], 0, {}, {};
    }

    /** The key's index, or the lowest free one. */
    method AllocIf(k: Key) returns (index: nat)
      modifies this`indexOf
      ensures index == Alloc(old(indexOf), k) && indexOf == old(indexOf)[k := index]
    {
      if k in indexOf {
        assert indexOf[k := indexOf[k]] == indexOf;
        return indexOf[k];
      }
      var used := Used(indexOf);
      index := 0;
      while index in used
        invariant indexOf == old(indexOf) && forall j :: 0 <= j < index ==> j in used
        decreases |used| - index
      {
        Prefix(used, index + 1);
        index := index + 1;
      }
      LowestIsUnique(used, index);
      indexOf := indexOf[k := index];
    }

    method StartWorker(spec: Spec)
      modifies this
      ensures Abs() == StartOne(old(Abs()), spec)
    {
      if spec.key in running {
        return;
      }
      gen := gen + 1;
      var index := AllocIf(spec.key);
      running := running[spec.key := Handle(gen, spec.scope)];
      live := live + {Worker(spec.key, gen, index)};
    }

    /** An exit event: only the current instance's frees its slot and its index. */
    method HandleExit(x: Exit)
      modifies this
      ensures Abs() == ExitOne(old(Abs()), x) && |running| <= |old(running)|
      ensures x in old(exits) ==> var c := Ctl(old(Abs()), Settled);
        Legal(c, Take(x)) && Moved(c, Take(x)) == Ctl(Abs(), Settled)
    {
      DropSize(running, x.key);
      if x.key in running && running[x.key].gen == x.gen {
        running := running - {x.key};
        indexOf := indexOf - {x.key};
      }
      exits := exits - {x};
    }

    /** Stop every worker that is no longer wanted, in any order. */
    method StopUnwanted(want: map<Key, Scope>, ghost from: Ctl, ghost cs: seq<Ctl>, ghost ms: seq<Move>)
      returns (ghost ds: seq<Ctl>, ghost ns: seq<Move>)
      requires Leads(cs, ms, from, Ctl(Abs(), Stopping(want, running.Keys)))
      modifies this`running
      ensures running == map k | k in old(running) && k in want :: old(running)[k]
      ensures Leads(ds, ns, from, Ctl(Abs(), Stopping(want, {}))) && ms <= ns
    {
      ghost var was := running;
      var todo := running.Keys;
      ds, ns := cs, ms;
      while todo != {}
        invariant todo <= was.Keys
        invariant running == map k | k in was && (k in todo || k in want) :: was[k]
        invariant Leads(ds, ns, from, Ctl(Abs(), Stopping(want, todo))) && ms <= ns
        decreases todo
      {
        var k := Pick(todo);
        ds, ns := Onward(ds, ns, from, Ctl(Abs(), Stopping(want, todo)), VisitRunning(k));
        todo := todo - {k};
        if k !in want {
          running := running - {k};
        }
      }
    }

    /** Start or rescope every wanted worker, in any order. */
    method StartWanted(want: map<Key, Scope>, ghost from: Ctl, ghost cs: seq<Ctl>, ghost ms: seq<Move>)
      returns (ghost ds: seq<Ctl>, ghost ns: seq<Move>)
      requires Leads(cs, ms, from, Ctl(Abs(), Starting(want, want.Keys))) && running.Keys <= want.Keys
      modifies this
      ensures InSync(running, want) && forall k :: k in old(running) ==> running[k].gen == old(running)[k].gen
      ensures old(live) <= live && exits == old(exits)
      ensures forall k :: k in old(indexOf) ==> k in indexOf && indexOf[k] == old(indexOf)[k]
      ensures Leads(ds, ns, from, Ctl(Abs(), Starting(want, {}))) && ms <= ns
    {
      var todo := want.Keys;
      ds, ns := cs, ms;
      while todo != {}
        invariant todo <= want.Keys && running.Keys <= want.Keys
        invariant forall k :: k in want && k !in todo ==> k in running && running[k].scope == want[k]
        invariant old(running).Keys <= running.Keys
        invariant forall k :: k in old(running) ==> running[k].gen == old(running)[k].gen
        invariant old(live) <= live && exits == old(exits)
        invariant forall k :: k in old(indexOf) ==> k in indexOf && indexOf[k] == old(indexOf)[k]
        invariant Leads(ds, ns, from, Ctl(Abs(), Starting(want, todo))) && ms <= ns
        decreases todo
      {
        var k := Pick(todo);
        ds, ns := Onward(ds, ns, from, Ctl(Abs(), Starting(want, todo)), VisitWanted(k));
        todo := todo - {k};
        if k in running {
          running := running[k := running[k].(scope := want[k])];
        } else {
          StartWorker(Spec(k, want[k]));
        }
      }
    }

    /**
     A successful reload, and the first start, which is a reload with nothing running:
     afterwards exactly the wanted buddies run, each with its wanted scope, and whoever was
     wanted already keeps its worker. It is a sequence of supervisor moves from a settled
     state to a settled state.
     */
    method Reload(want: map<Key, Scope>) returns (ghost ds: seq<Ctl>, ghost ns: seq<Move>)
      requires |want| <= TrustState.MAX_BUDDIES
      modifies this
      ensures InSync(running, want) && |running| <= TrustState.MAX_BUDDIES
      ensures forall k :: k in old(running) && k in want ==> running[k].gen == old(running)[k].gen
      ensures old(live) <= live && exits == old(exits)
      ensures forall k :: k in old(indexOf) ==> k in indexOf && indexOf[k] == old(indexOf)[k]
      ensures old(Inv(Abs())) ==> Inv(Abs())
      ensures Leads(ds, ns, Ctl(old(Abs()), Settled), Ctl(Abs(), Settled)) && [Begin(want)] <= ns
    {
      ghost var from := Ctl(Abs(), Settled);
      ds, ns := Onward([from], [], from, from, Begin(want));
      ds, ns := StopUnwanted(want, from, ds, ns);
      ds, ns := Onward(ds, ns, from, Ctl(Abs(), Stopping(want, {})), EndStops);
      ds, ns := StartWanted(want, from, ds, ns);
      ds, ns := Onward(ds, ns, from, Ctl(Abs(), Starting(want, {})), EndStarts);
      KeysSize(running, want);
      LeadsInv(ds, ns, from, Ctl(Abs(), Settled));
    }
  }

  lemma LowestIsUnique(used: set<nat>, i: nat)
    requires i !in used && forall j :: 0 <= j < i ==> j in used
    ensures i == FreeFrom(used, 0)
  {}
}
