/** A restriction on recursion is needed: on a recursive program the interpreter
    can miss a reachable location, because a return edge is computed only when the
    call is visited and the end of the callee is not propagated to earlier calls.
    Dead calls do not matter: a program with one that is recursive and can return
    is analysed soundly. */
module AiRecursion {
  import opened Options
  import opened GotoProgram
  import opened AiSpec
  import opened AiRuns
  import opened AiSoundness
  import opened Ahistorical

  /** main: 0 calls f; f: 2 branches to 3 and 5, 3 calls f and goes on to 4,
      4 and 5 lead to the end 6. */
  function Recursive(): Program {
    Program(
      map[0 := FunctionCall("f"), 1 := EndFunction, 2 := Kind.Local([3, 5]), 3 := FunctionCall("f"),
          4 := Kind.Local([6]), 5 := Kind.Local([6]), 6 := EndFunction],
      map[0 := "main", 1 := "main", 2 := "f", 3 := "f", 4 := "f", 5 := "f", 6 := "f"],
      map["main" := Body(0, 1), "f" := Body(2, 6)],
      true)
  }

  /** The domain that only tracks whether a location is reachable. */
  function Reachability(prog: Program): Analysis<Loc, bool> {
    Classic(prog, false, true, (d: bool) => !d, (h: Loc, h': Loc, d: bool) => d,
            (d: bool, e: bool, h: Loc, h': Loc) => Join(d || e, !d && e))
  }

  /** Every path of the program can be executed. */
  ghost function AllPaths(): Semantics<Loc, bool, ()> {
    Semantics((l, to, s, s') => true, (d, s) => d, (h, stack) => true, s => true)
  }

  type States = map<Loc, bool>

  // ----- single steps of the analysis -----

  /** An edge to a location that is not stored yet, or to one that is reachable
      already. */
  lemma EdgeTo(prog: Program, states: States, p: Loc, to: Loc, caller: Option<Loc>)
    requires p in states && states[p] && (to in states ==> states[to])
    ensures EdgeF(Reachability(prog), states, p, to, caller)
            == if to in states then EdgeResult(states, None) else EdgeResult(states[to := true], Some(to))
  {
    TracesAt(Reachability(prog), states, to);
    if to in states {
      assert states[to := true] == states;
    }
  }

  // ----- the run -----

  function S1(): States { map[0 := true, 2 := true] }
  function S2(): States { map[0 := true, 2 := true, 3 := true, 5 := true] }
  function S3(): States { map[0 := true, 2 := true, 3 := true, 5 := true, 6 := true] }
  function S4(): States { map[0 := true, 1 := true, 2 := true, 3 := true, 5 := true, 6 := true] }

  /** Visiting 2 reaches 3 and 5. */
  lemma VisitBranch(a: Analysis<Loc, bool>, fuel: nat)
    requires a == Reachability(Recursive())
    ensures VisitF(a, fuel, Work(S1(), {}), 2) == Some(Work(S2(), {3, 5}))
  {
    hide EdgeF;
    EdgeTo(Recursive(), S1(), 2, 3, None);
    var s := S1()[3 := true];
    EdgeTo(Recursive(), s, 2, 5, None);
    assert s[5 := true] == S2();
    assert [3, 5][1..] == [5] && [5][1..] == [];
    assert LocalF(a, Work(S2(), {3, 5}), 2, []) == Work(S2(), {3, 5});
    assert LocalF(a, Work(s, {3}), 2, [5]) == Work(S2(), {3, 5});
    assert LocalF(a, Work(S1(), {}), 2, [3, 5]) == Work(S2(), {3, 5});
  }

  /** Visiting the call 3 brings nothing: 2 is reachable already, and the end 6
      of the callee is not reached yet. */
  lemma VisitInnerCall(a: Analysis<Loc, bool>, fuel: nat)
    requires a == Reachability(Recursive())
    ensures VisitF(a, fuel, Work(S2(), {5}), 3) == Some(Work(S2(), {5}))
  {
    hide EdgeF;
    EdgeTo(Recursive(), S2(), 3, 2, None);
    TracesAt(a, S2(), 6);
  }

  lemma VisitTail(a: Analysis<Loc, bool>, fuel: nat)
    requires a == Reachability(Recursive())
    ensures VisitF(a, fuel, Work(S2(), {}), 5) == Some(Work(S3(), {6}))
  {
    hide EdgeF;
    EdgeTo(Recursive(), S2(), 5, 6, None);
    assert S2()[6 := true] == S3();
    assert [6][1..] == [];
    assert LocalF(a, Work(S3(), {6}), 5, []) == Work(S3(), {6});
    assert Queue({}, Some(6 as Loc)) == {6};
    assert LocalF(a, Work(S2(), {}), 5, [6]) == Work(S3(), {6});
  }

  lemma CalleeRun(a: Analysis<Loc, bool>)
    requires a == Reachability(Recursive())
    ensures FixF(a, 4, Work(S1(), {2})) == Some(S3())
  {
    hide VisitF;
    VisitBranch(a, 3);
    assert {2} - {2} == {};
    FixOne(a, 3, Work(S1(), {2}), 2, Work(S2(), {3, 5}));
    VisitInnerCall(a, 2);
    assert {3, 5} - {3} == {5};
    FixOne(a, 2, Work(S2(), {3, 5}), 3, Work(S2(), {5}));
    VisitTail(a, 1);
    assert {5} - {5} == {};
    FixOne(a, 1, Work(S2(), {5}), 5, Work(S3(), {6}));
    VisitEnd(a, S3(), 6);
    assert {6} - {6} == {};
    FixOne(a, 0, Work(S3(), {6}), 6, Work(S3(), {}));
  }

  lemma VisitEnd(a: Analysis<Loc, bool>, states: States, l: Loc)
    requires a == Reachability(Recursive()) && (l == 1 || l == 6)
    ensures VisitF(a, 0, Work(states, {}), l) == Some(Work(states, {}))
  {
  }

  lemma OuterReturnEdge(a: Analysis<Loc, bool>)
    requires a == Reachability(Recursive())
    ensures ReturnEdge(a, Work(S3(), {}), 0, 6) == Work(S4(), {1})
  {
    hide EdgeF;
    EdgeTo(Recursive(), S3(), 6, 1, Some(0));
    assert S3()[1 := true] == S4();
  }

  /** The return edges of the call 0. */
  lemma OuterReturn(a: Analysis<Loc, bool>)
    requires a == Reachability(Recursive())
    ensures ReturnF(a, 1, Work(S3(), {}), 0, None) == Some(Work(S4(), {1}))
  {
    hide EdgeF, ReturnEdge, Traces;
    TracesAt(a, S3(), 6);
    TracesAt(a, S4(), 6);
    OuterReturnEdge(a);
    assert After(a, {6}, None) == {6} && After(a, {6}, Some(6)) == {};
    assert ReturnF(a, 0, Work(S4(), {1}), 0, Some(6)) == Some(Work(S4(), {1}));
  }

  lemma WholeRun(a: Analysis<Loc, bool>)
    requires a == Reachability(Recursive())
    ensures RunF(a, 6, map[], 0) == Some(S4())
  {
    hide EdgeF, FixF, ReturnF, VisitF;
    var s: States := map[0 := true];
    EdgeTo(Recursive(), s, 0, 2, None);
    assert s[2 := true] == S1();
    CalleeRun(a);
    OuterReturn(a);
    VisitEntered(a, Work(s, {}), 0, 4, S3(), 1, Work(S4(), {1}));
    assert {0} - {0} == {};
    FixOne(a, 5, Work(s, {0}), 0, Work(S4(), {1}));
    VisitEnd(a, S4(), 1);
    VisitFuel(a, 0, 4, Work(S4(), {}), 1);
    assert {1} - {1} == {};
    FixOne(a, 4, Work(S4(), {1}), 1, Work(S4(), {}));
    NothingPending(a, 4, S4());
  }

  predicate OwnedAt(p: Program, l: Loc) {
    && l in p.code && l in p.owner
    && match p.code[l]
       case Local(succs) => forall to :: to in succs ==> to in p.owner && p.owner[to] == p.owner[l]
       case FunctionCall(callee) =>
         l + 1 in p.code && l + 1 in p.owner && p.owner[l + 1] == p.owner[l] && callee in p.functions
       case EndFunction => true
  }

  predicate BodyOwned(p: Program, f: Fid) {
    && f in p.functions && p.functions[f].Body?
    && var b := p.functions[f];
       && b.first in p.code && b.last in p.code && b.first in p.owner && b.last in p.owner
       && p.owner[b.first] == f && p.owner[b.last] == f && p.code[b.last].EndFunction?
  }

  lemma OwnedIsWellFormed(p: Program)
    requires p.owner.Keys == p.code.Keys
    requires (forall l :: l in p.code ==> OwnedAt(p, l)) && forall f :: f in p.functions ==> BodyOwned(p, f)
    ensures p.WellFormed()
  {
  }

  lemma WellFormedProgram()
    ensures Recursive().WellFormed()
  {
    hide Recursive, OwnedAt, BodyOwned;
    hide Program.WellFormed;
    RecursiveKeys();
    forall l | l in Recursive().code ensures OwnedAt(Recursive(), l) {
      RecursiveAt(l);
    }
    forall f | f in Recursive().functions ensures BodyOwned(Recursive(), f) {
      RecursiveBodies(f);
    }
    OwnedIsWellFormed(Recursive());
  }

  lemma RecursiveKeys()
    ensures Recursive().owner.Keys == Recursive().code.Keys
  {
    assert Recursive().code.Keys == {0, 1, 2, 3, 4, 5, 6};
  }

  lemma RecursiveAt(l: Loc)
    requires l in Recursive().code
    ensures OwnedAt(Recursive(), l)
  {
    assert l == 0 || l == 1 || l == 2 || l == 3 || l == 4 || l == 5 || l == 6;
  }

  lemma RecursiveBodies(f: Fid)
    requires f in Recursive().functions
    ensures BodyOwned(Recursive(), f)
  {
    assert f == "main" || f == "f";
  }

  lemma MeetsTheRest(a: Analysis<Loc, bool>, sem: Semantics<Loc, bool, ()>)
    requires a == Reachability(Recursive()) && sem == AllPaths()
    ensures a.prog.WellFormed() && OrderLaws(a) && StepLaws(a) && DomainLaws(a, d => true)
    ensures SoundDomain(a, sem, d => true) && SoundHistory(a, sem)
  {
    hide SoundHistory, StepLaws, UniverseLaws, Recursive, Program.WellFormed;
    WellFormedProgram();
    AhistoricalLaws(a, sem);
  }

  function Execution(): seq<Config<()>> {
    [Config([], 0, ()), Config([0], 2, ()), Config([0], 3, ()), Config([0, 3], 2, ()),
     Config([0, 3], 5, ()), Config([0, 3], 6, ()), Config([0], 4, ())]
  }

  lemma RecursiveSteps()
    ensures var p := Recursive();
            && p.LocalStep(2, 3) && p.LocalStep(2, 5) && p.LocalStep(5, 6)
            && p.Descends(0) && p.Descends(3) && p.Entry(0) == 2 && p.Entry(3) == 2 && p.Exit(3) == 6
  {
  }

  lemma ExecutionFlows(i: nat)
    requires i < 6
    ensures var c, c' := Execution()[i], Execution()[i + 1]; Recursive().Flow(c.loc, c.stack, c'.loc, c'.stack)
  {
    hide Recursive;
    hide Program.LocalStep, Program.Descends, Program.Entry, Program.Exit;
    RecursiveSteps();
    assert [] + [0] == [0];
    assert [0] + [3] == [0, 3];
    assert [0, 3][..1] == [0];
  }

  lemma ExecutionIsRun(a: Analysis<Loc, bool>, sem: Semantics<Loc, bool, ()>)
    requires a == Reachability(Recursive()) && sem == AllPaths()
    ensures IsRun(a, sem, 0, Execution())
  {
    hide Recursive, Program.Flow;
    var run := Execution();
    forall i | 0 <= i < 6 ensures StepsTo(a, sem, run[i], run[i + 1]) {
      ExecutionFlows(i);
    }
  }

  /** Location 4 of the recursive program is reached by a concrete execution,
      and the analysis, which meets all other requirements of soundness
      (`MeetsTheRest`), does not cover it. */
  lemma RecursionMissed(a: Analysis<Loc, bool>, sem: Semantics<Loc, bool, ()>)
    returns (states: States, run: seq<Config<()>>)
    requires a == Reachability(Recursive()) && sem == AllPaths()
    ensures RunF(a, 6, map[], 0) == Some(states) && IsRun(a, sem, 0, run) && |run| == 7
    ensures !Covered(a, sem, states, run[6].stack, run[6].loc, run[6].state)
  {
    hide RunF, IsRun;
    WholeRun(a);
    ExecutionIsRun(a, sem);
    states, run := S4(), Execution();
  }

  // ----- a dead recursive call -----

  /** main: 0 calls f; f: 2 branches to its end 4, so that the call 3 of f is never
      reached. */
  function Dead(): Program {
    Program(
      map[0 := FunctionCall("f"), 1 := EndFunction, 2 := Kind.Local([4]), 3 := FunctionCall("f"), 4 := EndFunction],
      map[0 := "main", 1 := "main", 2 := "f", 3 := "f", 4 := "f"],
      map["main" := Body(0, 1), "f" := Body(2, 4)],
      true)
  }

  lemma DeadWellFormed()
    ensures Dead().WellFormed()
  {
    hide Dead, OwnedAt, BodyOwned;
    hide Program.WellFormed;
    DeadKeys();
    forall l | l in Dead().code ensures OwnedAt(Dead(), l) {
      DeadAt(l);
    }
    forall f | f in Dead().functions ensures BodyOwned(Dead(), f) {
      DeadBodies(f);
    }
    OwnedIsWellFormed(Dead());
  }

  lemma DeadKeys()
    ensures Dead().owner.Keys == Dead().code.Keys
  {
    assert Dead().code.Keys == {0, 1, 2, 3, 4};
  }

  lemma DeadAt(l: Loc)
    requires l in Dead().code
    ensures OwnedAt(Dead(), l)
  {
    assert l == 0 || l == 1 || l == 2 || l == 3 || l == 4;
  }

  lemma DeadBodies(f: Fid)
    requires f in Dead().functions
    ensures BodyOwned(Dead(), f)
  {
    assert f == "main" || f == "f";
  }

  function MainAbove(f: Fid): nat {
    if f == "main" then 1 else 0
  }

  function DeadRanking(): Ranking {
    Ranking(MainAbove, (l: Loc) => l != 3)
  }

  lemma DeadReturns()
    ensures Dead().Descends(3) && Dead().CanReturn(3)
  {
    var p := Dead();
    assert p.Descends(3) && p.Entry(3) == 2 && p.Exit(3) == 4;
    assert p.LocalStep(2, 4);
    assert p.Traverses(Here, 2, 2);
    assert p.Traverses(Along(Here, 2), 2, 4);
  }

  /** With all locations live the program has no ranking. */
  lemma DeadUnranked(depth: Fid -> nat)
    ensures !Dead().ReturnsRanked(Everywhere(depth))
  {
    DeadReturns();
    assert Dead().code[3].callee == "f" && Dead().owner[3] == "f" && Everywhere(depth).live(3);
  }

  /** Without the dead call it has one. */
  lemma DeadRanked()
    ensures Dead().ReturnsRanked(DeadRanking())
  {
    hide Program.CanReturn;
    var p := Dead();
    forall l: Loc, to: Loc | l != 3 && p.LocalStep(l, to) ensures to != 3 {
      DeadStep(l, to);
    }
    forall l: Loc | l != 3 && p.Descends(l)
      ensures p.Entry(l) != 3 && l + 1 != 3 && MainAbove(p.code[l].callee) < MainAbove(p.owner[l])
    {
      DeadCall(l);
    }
  }

  lemma DeadStep(l: Loc, to: Loc)
    requires Dead().LocalStep(l, to)
    ensures l == 2 && to == 4
  {
  }

  lemma DeadCall(l: Loc)
    requires l != 3 && Dead().Descends(l)
    ensures l == 0 && Dead().Entry(l) == 2 && Dead().code[l].callee == "f" && Dead().owner[l] == "main"
  {
  }

  /** Every sound analysis covers every execution of it. */
  lemma DeadCovered<H(!new), D(!new), S(!new)>(
    a: Analysis<H, D>, sem: Semantics<H, D, S>, valid: D -> bool,
    fuel: nat, states: map<H, D>, run: seq<Config<S>>, i: nat)
    requires a.prog == Dead() && OrderLaws(a) && StepLaws(a) && DomainLaws(a, valid)
    requires SoundDomain(a, sem, valid) && SoundHistory(a, sem)
    requires RunF(a, fuel, map[], 0) == Some(states) && IsRun(a, sem, 0, run) && i < |run|
    ensures Covered(a, sem, states, run[i].stack, run[i].loc, run[i].state)
  {
    DeadRanked();
    DeadWellFormed();
    assert 0 in a.prog.code;
    hide OrderLaws, StepLaws, DomainLaws, SoundDomain, SoundHistory, RunF, IsRun;
    hide Program.WellFormed, Program.ReturnsRanked;
    RunSound(a, sem, valid, DeadRanking(), fuel, 0, states, run, i);
  }
}
