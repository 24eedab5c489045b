/** The recursive abstract interpreter: nested working-set fixed points over
    stored (history, domain) pairs. */
module AiEngine {
  import opened Options
  import opened GotoProgram
  import opened AiSpec
  import opened AiStorage
  import opened AiMeasure

  class Interpreter<H(==, !new), D(!new)> {
    const a: Analysis<H, D>
    const storage: HistoryStorage<H, D>
    ghost const valid: D -> bool
    ghost const rank: D -> nat
    ghost const universe: seq<H>

    constructor (a: Analysis<H, D>, ghost valid: D -> bool, ghost rank: D -> nat, ghost universe: seq<H>)
      ensures this.a == a && this.valid == valid && this.rank == rank && this.universe == universe
      ensures fresh(storage) && storage.InSync() && storage.loc == a.loc && storage.domainMap == map[]
    {
      this.a, this.valid, this.rank, this.universe := a, valid, rank, universe;
      storage := new HistoryStorage(a.loc);
    }

    /** The contracts of the four components the interpreter is given. */
    ghost predicate Lawful() {
      && a.prog.WellFormed() && OrderLaws(a) && StepLaws(a)
      && DomainLaws(a, valid)
      && HeightLaws(a, valid, rank) && UniverseLaws(a, universe)
    }

    ghost predicate Ok()
      reads storage
    {
      && Lawful() && storage.loc == a.loc && storage.InSync()
      && AllValid(valid, storage.domainMap) && Within(universe, storage.domainMap)
    }

    lemma StartsOk()
      requires a.prog.WellFormed() && OrderLaws(a) && StepLaws(a) && DomainLaws(a, valid)
      requires HeightLaws(a, valid, rank) && UniverseLaws(a, universe)
      requires storage.loc == a.loc && storage.InSync() && storage.domainMap == map[]
      ensures Ok()
    {
    }

    ghost function Size(): nat
      reads storage
    {
      Measure(a, rank, universe, storage.domainMap)
    }

    method GetNext(pending: set<H>) returns (p: H, rest: set<H>)
      requires Lawful() && pending != {}
      ensures IsFirst(a, pending, p) && p == First(a, pending) && rest == pending - {p}
    {
      FirstIsLeast(a, pending);
      p :| p in pending && forall x :: x in pending ==> x == p || a.less(p, x);
      assert IsFirst(a, pending, p);
      rest := pending - {p};
    }

    /** Step the history, transform a copy of the state and merge it into the
        target; the result is the target if it has to be visited. */
    method ApplyEdge(p: H, to: Loc, caller: Option<H>) returns (queued: Option<H>)
      requires storage.InSync() && storage.loc == a.loc
      modifies storage
      ensures storage.InSync()
      ensures EdgeResult(storage.domainMap, queued) == EdgeF(a, old(storage.domainMap), p, to, caller)
    {
      var others := storage.AbstractTracesBefore(to);
      assert others == Traces(a, storage.domainMap, to);
      var next := a.step(p, to, others, caller);
      if next.Blocked? {
        return None;
      }
      var current := storage.GetState(p, a.bottom);
      var values := a.transform(p, next.to, current);
      var dest := storage.GetState(next.to, a.bottom);
      var j := a.merge(dest, values, p, next.to);
      storage.SetState(next.to, j.state);
      queued := if j.changed || (next.New? && !a.isBottom(values)) then Some(next.to) else None;
    }

    method VisitEdge(p: H, to: Loc, caller: Option<H>, pending: set<H>) returns (queued: bool, pending': set<H>)
      requires Ok() && Live(a, storage.domainMap, pending + {p}) && a.prog.Edge(a.loc(p), to, LocOf(a, caller))
      modifies storage
      ensures Ok() && Extends(a, old(storage.domainMap), storage.domainMap) && Live(a, storage.domainMap, pending')
      ensures storage.domainMap == EdgeF(a, old(storage.domainMap), p, to, caller).states
      ensures queued == EdgeF(a, old(storage.domainMap), p, to, caller).queued.Some?
      ensures pending' == Queue(pending, EdgeF(a, old(storage.domainMap), p, to, caller).queued)
      ensures Size() <= old(Size()) && (queued ==> Size() < old(Size()))
    {
      hide OrderLaws, StepLaws, DomainLaws, HeightLaws, UniverseLaws, EdgeF, Measure;
      EdgeKeeps(a, valid, storage.domainMap, p, to, caller);
      EdgeMeasure(a, valid, rank, universe, storage.domainMap, p, to, caller);
      var target := ApplyEdge(p, to, caller);
      queued, pending' := target.Some?, pending;
      if queued {
        pending' := pending + {target.value};
      }
    }

    method Fixedpoint(start: H) returns (newData: bool, ghost fuel: nat)
      requires Ok() && Live(a, storage.domainMap, {start})
      modifies storage
      ensures Ok() && Extends(a, old(storage.domainMap), storage.domainMap)
      ensures FixF(a, fuel, Work(old(storage.domainMap), {start})) == Some(storage.domainMap)
      ensures Size() <= old(Size()) && (newData ==> Size() < old(Size()))
      decreases Size(), 4
    {
      hide Lawful, AllValid, Within, Extends, Live, Measure, FixF, VisitF;
      ExtendsReflexive(a, storage.domainMap);
      var pending := {start};
      ghost var init := Work(storage.domainMap, {start});
      newData, fuel := false, 0;
      while pending != {}
        invariant Ok() && Extends(a, init.states, storage.domainMap) && Live(a, storage.domainMap, pending)
        invariant Size() <= old(Size()) && (newData ==> Size() < old(Size()))
        invariant FixFrom(a, init, fuel, Work(storage.domainMap, pending))
        decreases Size(), pending
      {
        ghost var before := Work(storage.domainMap, pending);
        var p, rest := GetNext(pending);
        assert rest + {p} == pending;
        var visited;
        ghost var v: nat;
        visited, pending, v := Visit(p, rest);
        newData := newData || visited;
        ExtendsTransitive(a, init.states, before.states, storage.domainMap);
        FixFromVisit(a, init, fuel, before, p, v, Work(storage.domainMap, pending));
        fuel := fuel + v + 1;
      }
      FixFromEnd(a, init, fuel, Work(storage.domainMap, pending));
    }

    method Visit(p: H, pending: set<H>) returns (newData: bool, pending': set<H>, ghost fuel: nat)
      requires Ok() && Live(a, storage.domainMap, pending + {p})
      modifies storage
      ensures Ok() && Extends(a, old(storage.domainMap), storage.domainMap) && Live(a, storage.domainMap, pending')
      ensures VisitF(a, fuel, Work(old(storage.domainMap), pending), p) == Some(Work(storage.domainMap, pending'))
      ensures Size() < old(Size()) || (Size() == old(Size()) && pending' == pending)
      ensures (newData ==> Size() < old(Size())) && (!newData ==> pending' == pending)
      decreases Size(), 3
    {
      var l := a.loc(p);
      newData, fuel, pending' := false, 0, pending;
      if l in a.prog.code {
        match a.prog.code[l]
        case FunctionCall(_) =>
          newData, pending', fuel := VisitFunctionCall(p, pending);
        case EndFunction =>
        case Local(succs) =>
          ghost var init := Work(storage.domainMap, pending);
          for i := 0 to |succs|
            invariant Ok() && Extends(a, init.states, storage.domainMap) && Live(a, storage.domainMap, pending' + {p})
            invariant LocalF(a, init, p, succs) == LocalF(a, Work(storage.domainMap, pending'), p, succs[i..])
            invariant Size() < old(Size()) || (Size() == old(Size()) && pending' == pending)
            invariant (newData ==> Size() < old(Size())) && (!newData ==> pending' == pending)
          {
            assert succs[i..][0] == succs[i] && succs[i..][1..] == succs[i + 1..];
            if succs[i] in a.prog.code {
              var queued;
              queued, pending' := VisitEdge(p, succs[i], None, pending');
              newData := newData || queued;
            }
          }
      }
    }

    lemma CallEdges(l: Loc)
      requires Lawful() && l in a.prog.code && a.prog.code[l].FunctionCall?
      ensures a.prog.functions != map[] ==> a.prog.code[l].callee in a.prog.functions
      ensures a.prog.Descends(l) ==>
                a.prog.Edge(l, a.prog.Entry(l), None) && a.prog.Edge(a.prog.Exit(l), l + 1, Some(l))
      ensures !a.prog.Descends(l) ==> a.prog.Edge(l, l + 1, None)
    {
    }

    method VisitFunctionCall(p: H, pending: set<H>) returns (newData: bool, pending': set<H>, ghost fuel: nat)
      requires Ok() && Live(a, storage.domainMap, pending + {p})
      requires a.loc(p) in a.prog.code && a.prog.code[a.loc(p)].FunctionCall?
      modifies storage
      ensures Ok() && Extends(a, old(storage.domainMap), storage.domainMap) && Live(a, storage.domainMap, pending')
      ensures VisitF(a, fuel, Work(old(storage.domainMap), pending), p) == Some(Work(storage.domainMap, pending'))
      ensures Size() < old(Size()) || (Size() == old(Size()) && pending' == pending)
      ensures (newData ==> Size() < old(Size())) && (!newData ==> pending' == pending)
      decreases Size(), 2
    {
      hide Lawful, AllValid, Within, Extends, Live, Measure, EdgeF, CallF;
      hide Program.Edge;
      CallEdges(a.loc(p));
      fuel := 0;
      var l := a.loc(p);
      if a.prog.functions != map[] {
        var callee := a.prog.code[l].callee;
        if a.prog.functions[callee].Body? && a.prog.interprocedural {
          newData, pending', fuel := VisitEdgeFunctionCall(p, l + 1, callee, pending);
          return;
        }
      }
      newData, pending' := VisitEdge(p, l + 1, None, pending);
    }

    /** A call that the recursive interpreter enters; the base interpreter only
        does the edge to the return site. */
    method VisitEdgeFunctionCall(p: H, ret: Loc, callee: Fid, pending: set<H>)
      returns (newData: bool, pending': set<H>, ghost fuel: nat)
      requires Ok() && Live(a, storage.domainMap, pending + {p})
      requires a.loc(p) in a.prog.code && a.prog.code[a.loc(p)] == FunctionCall(callee) && ret == a.loc(p) + 1
      requires a.prog.Descends(a.loc(p))
      modifies storage
      ensures Ok() && Extends(a, old(storage.domainMap), storage.domainMap) && Live(a, storage.domainMap, pending')
      ensures VisitF(a, fuel, Work(old(storage.domainMap), pending), p) == Some(Work(storage.domainMap, pending'))
      ensures Size() < old(Size()) || (Size() == old(Size()) && pending' == pending)
      ensures (newData ==> Size() < old(Size())) && (!newData ==> pending' == pending)
      decreases Size(), 1
    {
      hide Lawful, AllValid, Within, Extends, Live, Measure, FixF, ReturnF, EdgeF, VisitF;
      hide Program.Edge;
      CallEdges(a.loc(p));
      ghost var init := Work(storage.domainMap, pending);
      LivePart(a, storage.domainMap, pending + {p}, {p});
      ghost var inner: nat;
      inner := EnterCallee(p, callee);
      ghost var body := storage.domainMap;
      LiveGrows(a, init.states, body, pending + {p});
      newData, pending', fuel := VisitReturns(p, callee, pending);
      ExtendsTransitive(a, init.states, body, storage.domainMap);
      VisitEntered(a, init, p, inner, body, fuel, Work(storage.domainMap, pending'));
      fuel := inner + fuel;
    }

    /** The edge to the head of the callee and, if it brought something new, the
        nested fixed point of the callee. */
    method EnterCallee(p: H, callee: Fid) returns (ghost fuel: nat)
      requires Ok() && Live(a, storage.domainMap, {p}) && a.prog.Descends(a.loc(p))
      requires a.prog.code[a.loc(p)].callee == callee
      modifies storage
      ensures Ok() && Extends(a, old(storage.domainMap), storage.domainMap)
      ensures var e := EdgeF(a, old(storage.domainMap), p, a.prog.Entry(a.loc(p)), None);
              if e.queued.Some? then FixF(a, fuel, Work(e.states, {e.queued.value})) == Some(storage.domainMap)
              else storage.domainMap == e.states
      ensures Size() <= old(Size())
      decreases Size(), 0
    {
      hide Lawful, AllValid, Within, Measure, FixF, EdgeF;
      hide Program.Edge;
      CallEdges(a.loc(p));
      fuel := 0;
      var queued, caught := VisitEdge(p, a.prog.functions[callee].first, None, {});
      if queued {
        var head, none := GetNext(caught);
        var entered;
        entered, fuel := Fixedpoint(head);
      }
    }

    /** The return edges, over the live set of histories at the callee's end. */
    method VisitReturns(p: H, callee: Fid, pending: set<H>) returns (newData: bool, pending': set<H>, ghost fuel: nat)
      requires Ok() && Live(a, storage.domainMap, pending + {p}) && a.prog.Descends(a.loc(p))
      requires a.prog.code[a.loc(p)].callee == callee
      modifies storage
      ensures Ok() && Extends(a, old(storage.domainMap), storage.domainMap) && Live(a, storage.domainMap, pending')
      ensures ReturnF(a, fuel, Work(old(storage.domainMap), pending), p, None)
              == Some(Work(storage.domainMap, pending'))
      ensures Size() < old(Size()) || (Size() == old(Size()) && pending' == pending)
      ensures (newData ==> Size() < old(Size())) && (!newData ==> pending' == pending)
    {
      hide Lawful, AllValid, Within, Extends, Live, Measure, ReturnF, ReturnEdge;
      ExtendsReflexive(a, storage.domainMap);
      LivePart(a, storage.domainMap, pending + {p}, pending);
      var exit := a.prog.functions[callee].last;
      ghost var init := Work(storage.domainMap, pending);
      newData, pending', fuel := false, pending, 0;
      var last: Option<H> := None;
      var traces := storage.AbstractTracesBefore(exit);
      while After(a, traces, last) != {}
        invariant Ok() && Extends(a, init.states, storage.domainMap) && Live(a, storage.domainMap, pending')
        invariant traces == Traces(a, storage.domainMap, exit)
        invariant ReturnFrom(a, init, fuel, Work(storage.domainMap, pending'), p, last)
        invariant Size() < old(Size()) || (Size() == old(Size()) && pending' == pending)
        invariant (newData ==> Size() < old(Size())) && (!newData ==> pending' == pending)
        decreases Above(last)
      {
        ghost var before := Work(storage.domainMap, pending');
        ghost var was := last;
        var end, rest := GetNext(After(a, traces, last));
        KnownInUniverse(end);
        var queued;
        queued, pending' := VisitReturn(p, end, pending');
        newData := newData || queued;
        ExtendsTransitive(a, init.states, before.states, storage.domainMap);
        last := Some(end);
        traces := storage.AbstractTracesBefore(exit);
        AboveShrinks(was, end);
        ReturnFromEdge(a, init, fuel, before, p, was, end);
        fuel := fuel + 1;
      }
      ReturnFromEnd(a, init, fuel, Work(storage.domainMap, pending'), p, last);
    }

    lemma KnownInUniverse(h: H)
      requires Ok() && h in storage.domainMap
      ensures h in universe
    {
    }

    /** The edge from one history at the callee's end to the return site. */
    method VisitReturn(p: H, end: H, pending: set<H>) returns (newData: bool, pending': set<H>)
      requires Ok() && Live(a, storage.domainMap, pending) && a.prog.Descends(a.loc(p))
      requires end in storage.domainMap && a.loc(end) == a.prog.Exit(a.loc(p))
      modifies storage
      ensures Ok() && Extends(a, old(storage.domainMap), storage.domainMap) && Live(a, storage.domainMap, pending')
      ensures Work(storage.domainMap, pending') == ReturnEdge(a, Work(old(storage.domainMap), pending), p, end)
      ensures Size() < old(Size()) || (Size() == old(Size()) && pending' == pending)
      ensures (newData ==> Size() < old(Size())) && (!newData ==> pending' == pending)
    {
      hide Lawful, EdgeF;
      newData, pending' := false, pending;
      var state := storage.GetState(end, a.bottom);
      if !a.isBottom(state) {
        newData, pending' := VisitEdge(end, a.loc(p) + 1, Some(p), pending);
      }
    }

    /** The histories of the universe that an ordered iteration can still meet. */
    ghost function Above(last: Option<H>): set<H> {
      set h | h in universe && (last.None? || a.less(last.value, h))
    }

    lemma AboveShrinks(was: Option<H>, end: H)
      requires Lawful() && end in universe && (was.None? || a.less(was.value, end))
      ensures Above(Some(end)) < Above(was)
    {
      assert end in Above(was) && end !in Above(Some(end));
    }

    lemma EntryFacts(start: Loc)
      requires Lawful() && start in a.prog.code
      ensures valid(a.entry) && !a.isBottom(a.entry) && a.epoch(start) in universe
    {
    }

    lemma EntryWithin(states: map<H, D>, p: H)
      requires Within(universe, states) && p in universe
      ensures Within(universe, states[p := a.entry])
    {
    }

    /** Run the analysis from the first instruction of the entry function. */
    method Run(start: Option<Loc>) returns (ghost fuel: nat)
      requires Ok() && (start.Some? ==> start.value in a.prog.code)
      modifies storage
      ensures Ok()
      ensures start.None? ==> storage.domainMap == old(storage.domainMap)
      ensures start.Some? ==> RunF(a, fuel, old(storage.domainMap), start.value) == Some(storage.domainMap)
    {
      hide Lawful, Within, Measure, FixF;
      fuel := 0;
      if start.Some? {
        var p := a.epoch(start.value);
        EntryFacts(start.value);
        var state := storage.GetState(p, a.bottom);
        storage.SetState(p, a.entry);
        assert storage.domainMap == old(storage.domainMap)[p := a.entry];
        EntryWithin(old(storage.domainMap), p);
        var newData;
        newData, fuel := Fixedpoint(p);
      }
    }
  }
}
