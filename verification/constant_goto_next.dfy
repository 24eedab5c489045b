/** The restriction on gotos is needed: a function with a goto to its own next
    instruction that the rewrite changes. */
module ConstantGotoNext {
  import opened Options
  import opened GotoProgram
  import opened AiSpec
  import opened Ahistorical
  import opened ConstantExpr
  import opened ConstantDomain
  import opened ConstantSoundness
  import opened ConstantPropagator

  const B := Symbol("b", true)
  const Y := Symbol("y", true)

  /** IF b GOTO 1; 1: y := b; */
  function Skewed(): Function {
    [Goto(1, Var(B)), Assign(Y, Var(B)), Instr.EndFunction]
  }

  /** Nothing is simplified, every symbol is tracked. */
  function Plain(): Lang {
    Lang(e => e, x => true, e => true)
  }

  type States = map<Loc, Values>

  function AfterGoto(): Values { Values(false, map[B := Const(Bool(true))]) }
  function AfterAssign(): Values { Values(false, map[B := Const(Bool(true)), Y := Const(Bool(true))]) }

  function S0(): States { map[0 := TOP] }
  function S1(): States { map[0 := TOP, 1 := AfterGoto()] }
  function S2(): States { map[0 := TOP, 1 := AfterGoto(), 2 := AfterAssign()] }

  /** Both edges of the goto teach that `b` is true. */
  lemma GotoTeaches()
    ensures TransformF(Plain(), Skewed()[0], 1, TOP) == AfterGoto()
  {
    var lang := Plain();
    assert PartialEval(lang.simplify, TOP.consts, Var(B)) == Var(B);
    assert AssignF(lang, TOP, Var(B), Const(Bool(true)), false) == AfterGoto();
    assert TOP.consts + AfterGoto().consts == AfterGoto().consts;
    assert EqualF(lang, TOP, Var(B), Const(Bool(true))) == AfterGoto();
  }

  lemma AssignTeaches()
    ensures TransformF(Plain(), Skewed()[1], 2, AfterGoto()) == AfterAssign()
  {
    assert PartialEval(Plain().simplify, AfterGoto().consts, Var(B)) == Const(Bool(true));
  }

  lemma FirstEdge(a: Analysis<Loc, Values>)
    requires a == Instance(Plain(), Skewed())
    ensures EdgeF(a, S0(), 0, 1, None) == EdgeResult(S1(), Some(1))
  {
    hide TransformF;
    TracesAt(a, S0(), 1);
    GotoTeaches();
    assert S0()[1 := BOTTOM][1 := AfterGoto()] == S1();
  }

  lemma SecondEdge(a: Analysis<Loc, Values>)
    requires a == Instance(Plain(), Skewed())
    ensures EdgeF(a, S1(), 0, 1, None) == EdgeResult(S1(), None)
  {
    hide TransformF;
    TracesAt(a, S1(), 1);
    GotoTeaches();
    assert Common(AfterGoto().consts, AfterGoto().consts) == AfterGoto().consts;
    assert S1()[1 := AfterGoto()] == S1();
  }

  lemma ThirdEdge(a: Analysis<Loc, Values>)
    requires a == Instance(Plain(), Skewed())
    ensures EdgeF(a, S1(), 1, 2, None) == EdgeResult(S2(), Some(2))
  {
    hide TransformF;
    TracesAt(a, S1(), 2);
    AssignTeaches();
    assert S1()[2 := BOTTOM][2 := AfterAssign()] == S2();
  }

  lemma VisitGoto(a: Analysis<Loc, Values>, fuel: nat)
    requires a == Instance(Plain(), Skewed())
    ensures VisitF(a, fuel, Work(S0(), {}), 0) == Some(Work(S1(), {1}))
  {
    hide EdgeF;
    FirstEdge(a);
    SecondEdge(a);
    assert a.prog.code[0] == Kind.Local([1, 1]);
    assert [1, 1][1..] == [1] && [1][1..] == [];
    assert LocalF(a, Work(S1(), {1}), 0, []) == Work(S1(), {1});
    assert LocalF(a, Work(S1(), {1}), 0, [1]) == Work(S1(), {1});
    assert LocalF(a, Work(S0(), {}), 0, [1, 1]) == Work(S1(), {1});
  }

  lemma VisitAssign(a: Analysis<Loc, Values>, fuel: nat)
    requires a == Instance(Plain(), Skewed())
    ensures VisitF(a, fuel, Work(S1(), {}), 1) == Some(Work(S2(), {2}))
  {
    hide EdgeF;
    ThirdEdge(a);
    assert a.prog.code[1] == Kind.Local([2]);
    assert [2][1..] == [];
    assert LocalF(a, Work(S2(), {2}), 1, []) == Work(S2(), {2});
    assert Queue({}, Some(2 as Loc)) == {2};
    assert LocalF(a, Work(S1(), {}), 1, [2]) == Work(S2(), {2});
  }

  lemma WholeRun(a: Analysis<Loc, Values>)
    requires a == Instance(Plain(), Skewed())
    ensures RunF(a, 3, map[], 0) == Some(S2())
  {
    hide VisitF, FixF;
    assert map[][0 := TOP] == S0();
    VisitGoto(a, 2);
    assert {0} - {0} == {};
    FixOne(a, 2, Work(S0(), {0}), 0, Work(S1(), {1}));
    VisitAssign(a, 1);
    assert {1} - {1} == {};
    FixOne(a, 1, Work(S1(), {1}), 1, Work(S2(), {2}));
    VisitEnd(a);
    assert {2} - {2} == {};
    FixOne(a, 0, Work(S2(), {2}), 2, Work(S2(), {}));
    NothingPending(a, 0, S2());
  }

  lemma VisitEnd(a: Analysis<Loc, Values>)
    requires a == Instance(Plain(), Skewed())
    ensures VisitF(a, 0, Work(S2(), {}), 2) == Some(Work(S2(), {}))
  {
  }

  /** The execution with `b` false. */
  function Lost(): seq<Point> {
    var s: Store := map[B := Bool(false), Y := Bool(false)];
    [Point(0, s), Point(1, s), Point(2, s)]
  }

  /** The analysis ends with `b` true after the goto, and the rewritten function
      loses the execution in which it is false. */
  lemma RewriteBreaks(m: Meaning) returns (states: States, run: seq<Point>)
    ensures Simplifies(m, Plain().simplify) && RunF(Instance(Plain(), Skewed()), 3, map[], 0) == Some(states)
    ensures IsExecution(m, Skewed(), run) && !IsExecution(m, Rewrite(Plain(), states, Skewed()), run)
  {
    hide RunF;
    WholeRun(Instance(Plain(), Skewed()));
    states, run := S2(), Lost();
    LostIsExecution(m);
    LostAfter(m);
  }

  lemma LostIsExecution(m: Meaning)
    ensures IsExecution(m, Skewed(), Lost())
  {
    var run, s := Lost(), Lost()[0].store;
    assert s[Y := Bool(false)] == s;
    assert Executes(m, Skewed()[0], 0, s, 1, s);
    assert Executes(m, Skewed()[1], 1, s, 2, s);
  }

  lemma LostAfter(m: Meaning)
    ensures !IsExecution(m, Rewrite(Plain(), S2(), Skewed()), Lost())
  {
    var f, run, s := Rewrite(Plain(), S2(), Skewed()), Lost(), Lost()[0].store;
    assert f[1] == Assign(Y, Const(Bool(true)));
    assert s[Y := Bool(true)] != s by {
      assert s[Y := Bool(true)][Y] != s[Y];
    }
    assert !Executes(m, f[run[1].loc], run[1].loc, run[1].store, run[1 + 1].loc, run[1 + 1].store);
  }
}
