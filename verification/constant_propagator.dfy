/** Constant propagation of a function, followed by the rewrite of its
    instructions. */
module ConstantPropagator {
  import opened Options
  import opened GotoProgram
  import opened AiSpec
  import opened AiMeasure
  import opened AiRuns
  import opened AiFlow
  import opened AiLeast
  import opened AiAbsorbed
  import opened AiStorage
  import opened AiEngine
  import opened Ahistorical
  import opened ConstantExpr
  import opened ConstantDomain
  import opened ConstantSoundness
  import opened ConstantPrecision

  type Function = seq<Instr>

  /** Typed instructions and goto targets in the function. */
  ghost predicate WellFormedFunction(f: Function) {
    forall l :: 0 <= l < |f| ==> TypedInstr(f[l]) && (f[l].Goto? ==> f[l].target < |f|)
  }

  /** The transformer is sound at every goto. */
  ghost predicate SoundGotos(m: Meaning, lang: Lang, f: Function) {
    forall l :: 0 <= l < |f| && f[l].Goto? ==> NothingLearnt(m, lang, Variables(f), f[l], l)
  }

  // ----- the function as a goto program -----

  function KindOf(i: Instr, l: Loc): Kind {
    match i
    case EndFunction => Kind.EndFunction
    case Goto(target, cond) => Kind.Local([target] + if cond != Const(Bool(true)) then [l + 1] else [])
    case _ => Kind.Local([l + 1])
  }

  function ProgramOf(f: Function): Program {
    var code := map l: Loc | l < |f| :: KindOf(f[l], l);
    Program(code, map l | l in code :: "f", map[], false)
  }

  lemma ProgramShape(f: Function)
    ensures var p := ProgramOf(f);
            && p.WellFormed() && (forall l :: !p.Descends(l)) && (forall l: Loc :: l in p.code <==> l < |f|)
  {
  }

  /** The edges of the program: an instruction that is no goto leads on exactly
      where it can be executed, and a goto to its target and, unless its condition
      is the literal true, to the next instruction. */
  lemma StepsAre(m: Meaning, f: Function, l: Loc, to: Loc)
    requires l < |f| && to < |f|
    ensures f[l].Goto? ==>
              (ProgramOf(f).LocalStep(l, to) <==>
               to == f[l].target || (to == l + 1 && f[l].cond != Const(Bool(true))))
    ensures !f[l].Goto? ==>
              (ProgramOf(f).LocalStep(l, to) <==> exists s: Store, s': Store :: Executes(m, f[l], l, s, to, s'))
  {
    hide Executes;
    assert ProgramOf(f).code[l] == KindOf(f[l], l);
    if !f[l].Goto? {
      forall s: Store, s': Store | Executes(m, f[l], l, s, to, s') ensures to == l + 1 && !f[l].EndFunction? {
        OnlyNext(m, f[l], l, s, to, s');
      }
      if to == l + 1 && !f[l].EndFunction? {
        var s, s' := CanExecute(m, f[l], l);
      }
    }
  }

  lemma OnlyNext(m: Meaning, i: Instr, l: Loc, s: Store, to: Loc, s': Store)
    requires !i.Goto? && Executes(m, i, l, s, to, s')
    ensures to == l + 1 && !i.EndFunction?
  {
  }

  lemma CanExecute(m: Meaning, i: Instr, l: Loc) returns (s: Store, s': Store)
    requires !i.Goto? && !i.EndFunction?
    ensures Executes(m, i, l, s, l + 1, s')
  {
    s := map[];
    match i
    case Decl(x) => s' := s[x := Cast(x.isBool, Int(0))];
    case Dead(x) => s' := s[x := Cast(x.isBool, Int(0))];
    case Assign(x, rhs) => s' := s[x := Eval(m, rhs, s)];
    case Skip => s' := s;
  }

  function Variables(f: Function): set<Symbol> {
    if f == [] then {} else InstrVars(f[0]) + Variables(f[1..])
  }

  lemma {:induction false} VariablesOf(f: Function, l: nat)
    requires l < |f|
    ensures InstrVars(f[l]) <= Variables(f)
  {
    if l == 0 {
    } else {
      VariablesOf(f[1..], l - 1);
    }
  }

  // ----- the instance of the interpreter -----

  function Instance(lang: Lang, f: Function): (a: Analysis<Loc, Values>)
    ensures a.prog == ProgramOf(f) && a.bottom == BOTTOM
  {
    Classic(ProgramOf(f), BOTTOM, TOP, (d: Values) => d.isBottom,
            (l: Loc, to: Loc, d: Values) => if l < |f| then TransformF(lang, f[l], to, d) else d,
            (d: Values, e: Values, h: Loc, h': Loc) => MergeF(d, e))
  }

  ghost function ValidIn(lang: Lang, f: Function): Values -> bool {
    d => ValidValues(lang, Variables(f), d)
  }

  ghost function RankIn(f: Function): Values -> nat {
    (d: Values) => if d.isBottom then |Variables(f)| + 1 else |d.consts|
  }

  ghost function Stores(m: Meaning, f: Function): Semantics<Loc, Values, Store> {
    Semantics(
      (l: Loc, to: Loc, s, s') => l < |f| && Executes(m, f[l], l, s, to, s'),
      (d, s) => Gamma(m, d, s), (h, stack) => true, s => TypedStore(s))
  }

  lemma CommonKeys(c: Consts, src: Consts)
    ensures Common(c, src) != c ==> Common(c, src).Keys != c.Keys
  {
    if Common(c, src).Keys == c.Keys {
      assert Common(c, src) == c;
    }
  }

  lemma MergeLowersRank(lang: Lang, f: Function, d: Values, e: Values)
    requires ValidIn(lang, f)(d) && ValidIn(lang, f)(e) && MergeF(d, e).changed
    ensures RankIn(f)(MergeF(d, e).state) < RankIn(f)(d)
  {
    if d.isBottom {
      SubsetSize(e.consts.Keys, Variables(f));
    } else {
      var kept := Common(d.consts, e.consts);
      CommonKeys(d.consts, e.consts);
      SubsetSize(kept.Keys, d.consts.Keys);
    }
  }

  lemma MergeValid(lang: Lang, vars: set<Symbol>, d: Values, e: Values)
    requires ValidValues(lang, vars, d) && ValidValues(lang, vars, e)
    ensures ValidValues(lang, vars, MergeF(d, e).state)
  {
  }

  lemma InstanceDomain(m: Meaning, lang: Lang, f: Function)
    requires Simplifies(m, lang.simplify) && WellFormedFunction(f)
    ensures DomainLaws(Instance(lang, f), ValidIn(lang, f))
    ensures HeightLaws(Instance(lang, f), ValidIn(lang, f), RankIn(f))
  {
    hide Simplifies, TransformF, ValidValues, Variables, RankIn;
    var a, valid := Instance(lang, f), ValidIn(lang, f);
    assert valid(BOTTOM) && valid(TOP) by {
      EmptyValid(lang, f);
    }
    forall l: Loc, to: Loc, d | valid(d) && !d.isBottom ensures valid(a.transform(l, to, d)) {
      if l < |f| {
        VariablesOf(f, l);
        TransformValid(m, lang, Variables(f), f[l], to, d);
      }
    }
    forall d, e | valid(d) && valid(e)
      ensures valid(MergeF(d, e).state)
      ensures MergeF(d, e).changed ==> RankIn(f)(MergeF(d, e).state) < RankIn(f)(d)
    {
      MergeValid(lang, Variables(f), d, e);
      if MergeF(d, e).changed {
        MergeLowersRank(lang, f, d, e);
      }
    }
  }

  /** The state of a location is always the join of its histories. */
  lemma StatesJoin(lang: Lang, f: Function, states: map<Loc, Values>, hs: set<Loc>)
    ensures var a := Instance(lang, f);
            JoinLaws(Leq, ValidIn(lang, f), a.merge, BOTTOM) && !LeavesBottom(a.merge, BOTTOM, states, hs)
  {
    var a, valid := Instance(lang, f), ValidIn(lang, f);
    EmptyValid(lang, f);
    forall d, e | valid(d) && valid(e) ensures valid(MergeF(d, e).state) {
      MergeValid(lang, Variables(f), d, e);
    }
    hide ValidValues, MergeF, Leq;
    forall d, e | valid(d) && valid(e) ensures Leq(d, MergeF(d, e).state) && Leq(e, MergeF(d, e).state) {
      ValidBottom(lang, f, d);
      MergeIsJoin(d, e, d);
    }
    forall d, e, u | valid(d) && valid(e) && Leq(d, u) && Leq(e, u) ensures Leq(MergeF(d, e).state, u) {
      ValidBottom(lang, f, d);
      MergeIsJoin(d, e, u);
    }
    forall d ensures Leq(d, d) && Leq(BOTTOM, d) && (Leq(d, BOTTOM) && valid(d) ==> d == BOTTOM) {
      LeqLaws(d, d, d);
      if valid(d) {
        ValidBottom(lang, f, d);
      }
    }
    forall d, e, u | Leq(d, e) && Leq(e, u) ensures Leq(d, u) {
      LeqLaws(d, e, u);
    }
    assert MergeF(BOTTOM, BOTTOM).state == BOTTOM by {
      MergeOfBottoms();
    }
  }

  lemma MergeOfBottoms()
    ensures MergeF(BOTTOM, BOTTOM).state == BOTTOM
  {
  }

  lemma ValidBottom(lang: Lang, f: Function, d: Values)
    requires ValidIn(lang, f)(d)
    ensures d.isBottom ==> d == BOTTOM
  {
  }

  lemma LeqLaws(d: Values, e: Values, u: Values)
    ensures Leq(d, d) && Leq(BOTTOM, d) && (Leq(d, BOTTOM) ==> d.isBottom)
    ensures Leq(d, e) && Leq(e, u) ==> Leq(d, u)
  {
  }

  lemma EmptyValid(lang: Lang, f: Function)
    ensures ValidIn(lang, f)(BOTTOM) && ValidIn(lang, f)(TOP)
  {
  }

  /** If the transformer is sound at every goto, the instance is sound. */
  lemma InstanceSound(m: Meaning, lang: Lang, f: Function)
    requires Simplifies(m, lang.simplify) && WellFormedFunction(f) && SoundGotos(m, lang, f)
    ensures SoundDomain(Instance(lang, f), Stores(m, f), ValidIn(lang, f))
  {
    hide Simplifies, TransformF, ValidValues, Variables, Executes, Gamma;
    var a, sem, valid := Instance(lang, f), Stores(m, f), ValidIn(lang, f);
    forall d: Values, s ensures d.isBottom ==> !Gamma(m, d, s) {
      GammaFacts(m, d, s);
    }
    forall s | TypedStore(s) ensures Gamma(m, TOP, s) {
      GammaFacts(m, TOP, s);
    }
    forall l: Loc, to: Loc, d, s, s' | valid(d) && Gamma(m, d, s) && sem.edge(l, to, s, s')
      ensures Gamma(m, a.transform(l, to, d), s')
    {
      GotoNextHolds(m, lang, f, l, d, s, to, s');
      TransformSound(m, lang, Variables(f), f[l], l, to, d, s, s');
    }
    forall d, e, s | Gamma(m, d, s) || Gamma(m, e, s) ensures Gamma(m, MergeF(d, e).state, s) {
      MergeSound(m, d, e, s);
    }
  }

  lemma GammaFacts(m: Meaning, d: Values, s: Store)
    ensures d.isBottom ==> !Gamma(m, d, s)
    ensures d == TOP && TypedStore(s) ==> Gamma(m, d, s)
  {
  }

  lemma GotoNextHolds(m: Meaning, lang: Lang, f: Function, l: Loc, d: Values, s: Store, to: Loc, s': Store)
    requires WellFormedFunction(f) && SoundGotos(m, lang, f) && l < |f| && Executes(m, f[l], l, s, to, s')
    requires ValidIn(lang, f)(d) && Gamma(m, d, s)
    ensures TypedInstr(f[l])
    ensures f[l].Goto? && f[l].target == l + 1 ==>
              Eval(m, f[l].cond, s) == Bool(true) || TransformF(lang, f[l], to, d) == d
  {
  }

  lemma InstanceBounds(lang: Lang, f: Function)
    ensures UpperBounds(Instance(lang, f), Leq, ValidIn(lang, f))
  {
    hide ValidValues, MergeF, Leq;
    forall d ensures Leq(d, d) {
      LeqLaws(d, d, d);
    }
    forall d, e | ValidIn(lang, f)(d) && ValidIn(lang, f)(e)
      ensures Leq(d, MergeF(d, e).state) && Leq(e, MergeF(d, e).state)
    {
      ValidBottom(lang, f, d);
      MergeIsJoin(d, e, d);
    }
  }

  ghost function Anything(): Values -> bool {
    d => true
  }

  /** Everything that termination and the absorption of flow ask for. */
  lemma InstanceReady(m: Meaning, lang: Lang, f: Function)
    requires Simplifies(m, lang.simplify) && WellFormedFunction(f)
    ensures Rules(Instance(lang, f), Leq, ValidIn(lang, f), Anything())
    ensures HeightLaws(Instance(lang, f), ValidIn(lang, f), RankIn(f))
    ensures UniverseLaws(Instance(lang, f), Listed(ProgramOf(f).code.Keys))
  {
    hide Simplifies, WellFormedFunction, DomainLaws, HeightLaws, UniverseLaws, StepLaws, SoundHistory, ProgramOf;
    hide UpperBounds, Leq;
    ProgramShape(f);
    InstanceDomain(m, lang, f);
    InstanceBounds(lang, f);
    AhistoricalLaws(Instance(lang, f), Stores(m, f));
    forall d, e, u | Leq(d, e) && Leq(e, u) ensures Leq(d, u) {
      LeqLaws(d, e, u);
    }
  }

  // ----- executions -----

  datatype Point = Point(loc: Loc, store: Store)

  /** An execution of the function from its first instruction. */
  ghost predicate IsExecution(m: Meaning, f: Function, run: seq<Point>) {
    && |run| > 0 && run[0].loc == 0 && TypedStore(run[0].store)
    && (forall i :: 0 <= i < |run| ==> run[i].loc < |f|)
    && (forall i :: 0 <= i < |run| - 1 ==>
          Executes(m, f[run[i].loc], run[i].loc, run[i].store, run[i + 1].loc, run[i + 1].store))
  }

  lemma ExecutesStep(m: Meaning, f: Function, l: Loc, s: Store, to: Loc, s': Store)
    requires l < |f| && to < |f| && Executes(m, f[l], l, s, to, s')
    ensures ProgramOf(f).LocalStep(l, to)
  {
  }

  /** What the analysis knows about the state before `l`. */
  function Known(states: map<Loc, Values>, l: Loc): Values {
    if l in states then states[l] else BOTTOM
  }

  /** The execution is at a goto to its own next instruction, with a condition
      that is false. */
  ghost predicate FallsThrough(m: Meaning, f: Function, run: seq<Point>) {
    && IsExecution(m, f, run)
    && var p := run[|run| - 1];
       f[p.loc].Goto? && f[p.loc].target == p.loc + 1 && Eval(m, f[p.loc].cond, p.store) != Bool(true)
  }

  /** If the execution falls through, nothing is learnt from the condition. */
  ghost predicate MissesNothing(m: Meaning, lang: Lang, f: Function, states: map<Loc, Values>, run: seq<Point>) {
    FallsThrough(m, f, run) ==>
      var l := run[|run| - 1].loc; TransformF(lang, f[l], l + 1, Known(states, l)) == Known(states, l)
  }

  ghost predicate NothingMissed(m: Meaning, lang: Lang, f: Function, states: map<Loc, Values>) {
    forall run: seq<Point> :: MissesNothing(m, lang, f, states, run)
  }

  lemma LeqDescribes(m: Meaning, d: Values, e: Values, s: Store)
    requires Leq(d, e) && Gamma(m, d, s)
    ensures Gamma(m, e, s)
  {
  }

  /** One step of an execution, from a described store to a described store. */
  lemma StepCovered(
    m: Meaning, lang: Lang, f: Function, states: map<Loc, Values>, l: Loc, s: Store, to: Loc, s': Store)
    requires Simplifies(m, lang.simplify) && WellFormedFunction(f) && l < |f| && to < |f|
    requires ValidIn(lang, f)(Known(states, l)) && Gamma(m, Known(states, l), s) && Executes(m, f[l], l, s, to, s')
    requires Absorbed(Instance(lang, f), Leq, states, l, to)
    requires f[l].Goto? && f[l].target == l + 1 && Eval(m, f[l].cond, s) != Bool(true) ==>
               TransformF(lang, f[l], l + 1, Known(states, l)) == Known(states, l)
    ensures Gamma(m, Known(states, to), s')
  {
    hide Simplifies, Executes, TransformF, Leq, ValidValues, Variables;
    var d := Known(states, l);
    assert l in states && !d.isBottom;
    if f[l].Goto? && f[l].target == l + 1 {
      GotoTarget(m, f[l], l, s, to, s');
    }
    TransformSound(m, lang, Variables(f), f[l], l, to, d, s, s');
    LeqDescribes(m, TransformF(lang, f[l], to, d), states[to], s');
  }

  lemma GotoTarget(m: Meaning, i: Instr, l: Loc, s: Store, to: Loc, s': Store)
    requires i.Goto? && i.target == l + 1 && Executes(m, i, l, s, to, s')
    ensures to == l + 1
  {
  }

  /** Every store of every execution is described by the state at its location. */
  lemma {:induction false} ExecutionCovered(
    m: Meaning, lang: Lang, f: Function, fuel: nat, states: map<Loc, Values>, run: seq<Point>, i: nat)
    requires Simplifies(m, lang.simplify) && WellFormedFunction(f) && IsExecution(m, f, run) && i < |run|
    requires RunF(Instance(lang, f), fuel, map[], 0) == Some(states)
    requires forall k :: 0 < k <= i ==> MissesNothing(m, lang, f, states, run[..k])
    ensures Gamma(m, Known(states, run[i].loc), run[i].store)
    decreases i
  {
    hide Simplifies, WellFormedFunction, RunF, Gamma, Executes, TransformF, Leq, Instance, Absorbed, ValidIn;
    if i == 0 {
      StartCovered(m, lang, f, fuel, states, run[0].store);
    } else {
      ExecutionCovered(m, lang, f, fuel, states, run, i - 1);
      var p, q := run[i - 1], run[i];
      assert Executes(m, f[p.loc], p.loc, p.store, run[i - 1 + 1].loc, run[i - 1 + 1].store);
      var front := run[..i];
      assert front[|front| - 1] == p && IsExecution(m, f, front) by {
        ExecutionFront(m, f, run, i);
      }
      assert MissesNothing(m, lang, f, states, front);
      StepAbsorbed(m, lang, f, fuel, states, p.loc, p.store, q.loc, q.store);
      StepCovered(m, lang, f, states, p.loc, p.store, q.loc, q.store);
    }
  }

  lemma StartCovered(m: Meaning, lang: Lang, f: Function, fuel: nat, states: map<Loc, Values>, s: Store)
    requires Simplifies(m, lang.simplify) && WellFormedFunction(f) && TypedStore(s)
    requires RunF(Instance(lang, f), fuel, map[], 0) == Some(states)
    ensures Gamma(m, Known(states, 0), s)
  {
    hide Simplifies, WellFormedFunction, RunF, Leq, Absorbed, ValidValues;
    InstanceReady(m, lang, f);
    RunAbsorbed(Instance(lang, f), Leq, ValidIn(lang, f), Anything(), fuel, 0, states);
    assert Instance(lang, f).entry == TOP;
    LeqDescribes(m, TOP, states[0], s);
  }

  lemma StepAbsorbed(
    m: Meaning, lang: Lang, f: Function, fuel: nat, states: map<Loc, Values>, l: Loc, s: Store, to: Loc, s': Store)
    requires Simplifies(m, lang.simplify) && WellFormedFunction(f) && l < |f| && to < |f|
    requires RunF(Instance(lang, f), fuel, map[], 0) == Some(states) && Executes(m, f[l], l, s, to, s')
    ensures Absorbed(Instance(lang, f), Leq, states, l, to) && ValidIn(lang, f)(Known(states, l))
  {
    hide Simplifies, WellFormedFunction, RunF, Executes, Leq, Absorbed;
    InstanceReady(m, lang, f);
    RunAbsorbed(Instance(lang, f), Leq, ValidIn(lang, f), Anything(), fuel, 0, states);
    ExecutesStep(m, f, l, s, to, s');
    StatesValid(m, lang, f, fuel, states, l);
  }

  lemma ExecutionFront(m: Meaning, f: Function, run: seq<Point>, i: nat)
    requires IsExecution(m, f, run) && 0 < i <= |run|
    ensures IsExecution(m, f, run[..i])
  {
    hide Executes;
  }

  /** A transformer that is sound at every goto misses nothing. */
  lemma {:induction false} SoundMissesNothing(
    m: Meaning, lang: Lang, f: Function, fuel: nat, states: map<Loc, Values>, run: seq<Point>)
    requires Simplifies(m, lang.simplify) && WellFormedFunction(f) && SoundGotos(m, lang, f)
    requires RunF(Instance(lang, f), fuel, map[], 0) == Some(states)
    ensures MissesNothing(m, lang, f, states, run)
    decreases |run|
  {
    hide Simplifies, WellFormedFunction, RunF, Gamma, Executes, TransformF, ValidValues;
    if FallsThrough(m, f, run) {
      var n := |run| - 1;
      forall k | 0 < k <= n ensures MissesNothing(m, lang, f, states, run[..k]) {
        SoundMissesNothing(m, lang, f, fuel, states, run[..k]);
      }
      ExecutionCovered(m, lang, f, fuel, states, run, n);
      StatesValid(m, lang, f, fuel, states, run[n].loc);
    }
  }

  lemma ExecutionStart(m: Meaning, f: Function, run: seq<Point>)
    requires IsExecution(m, f, run)
    ensures |run| > 0 && run[0].loc == 0 && |f| > 0
  {
  }

  // ----- the rewrite -----

  /** Evaluate conditions and right-hand sides with what is known. */
  function RewriteInstr(lang: Lang, d: Values, i: Instr): Instr {
    if d.isBottom then
      i
    else
      match i
      case Goto(target, cond) => Goto(target, PartialEval(lang.simplify, d.consts, cond))
      case Assign(x, rhs) => Assign(x, PartialEval(lang.simplify, d.consts, rhs))
      case _ => i
  }

  function Rewrite(lang: Lang, states: map<Loc, Values>, f: Function): Function {
    seq(|f|, l requires 0 <= l < |f| => RewriteInstr(lang, Known(states, l), f[l]))
  }

  /** `e'` is `e` evaluated with the constants of `d`: no known symbol is left, the
      value is the same, and a simplifier that folds leaves a literal if all symbols
      are known. */
  ghost predicate IsEvaluated(m: Meaning, lang: Lang, d: Values, e: Expr, e': Expr) {
    && Vars(e') <= Vars(e) - d.consts.Keys
    && (Typed(e) ==> forall s :: Gamma(m, d, s) ==> Eval(m, e', s) == Eval(m, e, s))
    && (Typed(e) && Folds(lang.simplify) && Vars(e) <= d.consts.Keys ==> e'.Const?)
  }

  /** What the pass makes of an instruction. */
  ghost predicate IsReplaced(m: Meaning, lang: Lang, d: Values, i: Instr, i': Instr) {
    if d.isBottom then
      i' == i
    else
      match i
      case Goto(target, cond) => i'.Goto? && i'.target == target && IsEvaluated(m, lang, d, cond, i'.cond)
      case Assign(x, rhs) => i'.Assign? && i'.x == x && IsEvaluated(m, lang, d, rhs, i'.rhs)
      case _ => i' == i
  }

  lemma PartialEvalIsEvaluated(m: Meaning, lang: Lang, d: Values, e: Expr)
    requires Simplifies(m, lang.simplify) && SymbolFree(d.consts)
    ensures IsEvaluated(m, lang, d, e, PartialEval(lang.simplify, d.consts, e))
  {
    hide Simplifies, Typed, Eval, Replace, Folds;
    var r := PartialEval(lang.simplify, d.consts, e);
    EvaluatedVars(m, lang, d, e);
    if Typed(e) {
      forall s | Gamma(m, d, s) ensures Eval(m, r, s) == Eval(m, e, s) {
        PartialEvalMeans(m, lang.simplify, d.consts, e, s);
      }
      if Folds(lang.simplify) && Vars(e) <= d.consts.Keys {
        FoldedLiteral(lang, d, e);
      }
    }
  }

  lemma EvaluatedVars(m: Meaning, lang: Lang, d: Values, e: Expr)
    requires Simplifies(m, lang.simplify) && SymbolFree(d.consts)
    ensures Vars(PartialEval(lang.simplify, d.consts, e)) <= Vars(e) - d.consts.Keys
  {
    ReplaceKeeps(d.consts, e);
  }

  lemma FoldedLiteral(lang: Lang, d: Values, e: Expr)
    requires Folds(lang.simplify) && SymbolFree(d.consts) && Typed(e)
    requires Vars(PartialEval(lang.simplify, d.consts, e)) == {}
    ensures PartialEval(lang.simplify, d.consts, e).Const?
  {
    ReplaceKeeps(d.consts, e);
  }

  /** The pass evaluates every condition and every right-hand side, and changes
      nothing else. */
  lemma RewriteReplaces(m: Meaning, lang: Lang, states: map<Loc, Values>, f: Function, l: nat)
    requires Simplifies(m, lang.simplify) && l < |f| && SymbolFree(Known(states, l).consts)
    ensures IsReplaced(m, lang, Known(states, l), f[l], Rewrite(lang, states, f)[l])
  {
    hide Simplifies, IsEvaluated, PartialEval;
    var d := Known(states, l);
    match f[l]
    case Goto(_, cond) => PartialEvalIsEvaluated(m, lang, d, cond);
    case Assign(_, rhs) => PartialEvalIsEvaluated(m, lang, d, rhs);
    case _ =>
  }

  /** Where the state describes the store, both instructions do the same. */
  lemma RewriteInstrSame(
    m: Meaning, lang: Lang, vars: set<Symbol>, d: Values, i: Instr, l: nat, s: Store, to: nat, s': Store)
    requires Simplifies(m, lang.simplify) && ValidValues(lang, vars, d) && TypedInstr(i) && Gamma(m, d, s)
    ensures Executes(m, RewriteInstr(lang, d, i), l, s, to, s') <==> Executes(m, i, l, s, to, s')
  {
    match i
    case Goto(_, cond) => PartialEvalMeans(m, lang.simplify, d.consts, cond, s);
    case Assign(_, rhs) => PartialEvalMeans(m, lang.simplify, d.consts, rhs, s);
    case _ =>
  }

  lemma StatesValid(m: Meaning, lang: Lang, f: Function, fuel: nat, states: map<Loc, Values>, l: Loc)
    requires Simplifies(m, lang.simplify) && WellFormedFunction(f) && |f| > 0
    requires RunF(Instance(lang, f), fuel, map[], 0) == Some(states)
    ensures ValidValues(lang, Variables(f), Known(states, l))
  {
    hide Simplifies, WellFormedFunction, RunF, ValidValues, Rules, UniverseLaws, HeightLaws, Absorbed;
    InstanceReady(m, lang, f);
    EmptyValid(lang, f);
    RunAbsorbed(Instance(lang, f), Leq, ValidIn(lang, f), Anything(), fuel, 0, states);
    assert ValidIn(lang, f)(Known(states, l));
  }

  /** The rewritten function has exactly the executions of the original: the same
      branches and the same stores, step by step. */
  lemma {:induction false} RewritePreserves(
    m: Meaning, lang: Lang, f: Function, fuel: nat, states: map<Loc, Values>, run: seq<Point>)
    requires Simplifies(m, lang.simplify) && WellFormedFunction(f)
    requires |f| > 0 ==> RunF(Instance(lang, f), fuel, map[], 0) == Some(states)
    requires NothingMissed(m, lang, f, states)
    ensures IsExecution(m, Rewrite(lang, states, f), run) <==> IsExecution(m, f, run)
    decreases |run|
  {
    hide Simplifies, RunF, Executes, RewriteInstr, Known, ValidValues, Gamma, NothingMissed;
    var g := Rewrite(lang, states, f);
    if |run| <= 1 {
    } else {
      var n := |run| - 2;
      var front := run[..n + 1];
      RewritePreserves(m, lang, f, fuel, states, front);
      ExecutionSplit(m, f, run);
      ExecutionSplit(m, g, run);
      if IsExecution(m, f, front) {
        var l := run[n].loc;
        assert front[n] == run[n];
        assert forall k :: 0 < k <= n ==> MissesNothing(m, lang, f, states, front[..k]) by {
          MissedNowhere(m, lang, f, states);
        }
        ExecutionCovered(m, lang, f, fuel, states, front, n);
        StatesValid(m, lang, f, fuel, states, l);
        RewriteInstrSame(
          m, lang, Variables(f), Known(states, l), f[l], l, run[n].store, run[n + 1].loc, run[n + 1].store);
      }
    }
  }

  lemma MissedNowhere(m: Meaning, lang: Lang, f: Function, states: map<Loc, Values>)
    requires NothingMissed(m, lang, f, states)
    ensures forall run: seq<Point> :: MissesNothing(m, lang, f, states, run)
  {
  }

  /** An execution is its front and one more step. */
  lemma ExecutionSplit(m: Meaning, f: Function, run: seq<Point>)
    requires |run| > 1
    ensures var n := |run| - 2;
            IsExecution(m, f, run) <==>
            && IsExecution(m, f, run[..n + 1]) && run[n + 1].loc < |f|
            && run[n].loc < |f|
            && Executes(m, f[run[n].loc], run[n].loc, run[n].store, run[n + 1].loc, run[n + 1].store)
  {
    hide Executes;
    var n := |run| - 2;
    var front := run[..n + 1];
    if IsExecution(m, f, front) && run[n].loc < |f| && run[n + 1].loc < |f|
       && Executes(m, f[run[n].loc], run[n].loc, run[n].store, run[n + 1].loc, run[n + 1].store) {
      forall i | 0 <= i < |run| - 1
        ensures Executes(m, f[run[i].loc], run[i].loc, run[i].store, run[i + 1].loc, run[i + 1].store)
      {
        if i < n {
          assert front[i] == run[i] && front[i + 1] == run[i + 1];
        }
      }
    }
  }

  // ----- the whole pass, in place -----

  /** Replace the instructions of the function by their rewritten forms. */
  method ReplaceAll(ghost m: Meaning, lang: Lang, code: array<Instr>, states: map<Loc, Values>)
    requires Simplifies(m, lang.simplify)
    requires forall l :: 0 <= l < code.Length ==> SymbolFree(Known(states, l).consts)
    modifies code
    ensures code[..] == Rewrite(lang, states, old(code[..]))
    ensures forall l :: 0 <= l < code.Length ==> IsReplaced(m, lang, Known(states, l), old(code[..])[l], code[l])
  {
    hide IsReplaced;
    for l := 0 to code.Length
      invariant forall k :: 0 <= k < l ==> code[k] == RewriteInstr(lang, Known(states, k), old(code[k]))
      invariant forall k :: l <= k < code.Length ==> code[k] == old(code[k])
    {
      var d := Known(states, l);
      if !d.isBottom {
        match code[l]
        case Goto(target, cond) =>
          var c, same := ReplaceConstantsAndSimplify(m, lang.simplify, d.consts, cond);
          if !same {
            code[l] := Goto(target, c);
          }
        case Assign(x, rhs) =>
          var r, same := ReplaceConstantsAndSimplify(m, lang.simplify, d.consts, rhs);
          code[l] := Assign(x, r);
        case _ =>
      }
    }
    assert code[..] == Rewrite(lang, states, old(code[..]));
    forall l | 0 <= l < code.Length ensures IsReplaced(m, lang, Known(states, l), old(code[..])[l], code[l]) {
      RewriteReplaces(m, lang, states, old(code[..]), l);
    }
  }

  lemma SoundNothingMissed(m: Meaning, lang: Lang, f: Function, fuel: nat, states: map<Loc, Values>)
    requires Simplifies(m, lang.simplify) && WellFormedFunction(f) && SoundGotos(m, lang, f)
    requires RunF(Instance(lang, f), fuel, map[], 0) == Some(states)
    ensures NothingMissed(m, lang, f, states)
  {
    hide Simplifies, WellFormedFunction, SoundGotos, RunF, MissesNothing;
    forall run: seq<Point> ensures MissesNothing(m, lang, f, states, run) {
      SoundMissesNothing(m, lang, f, fuel, states, run);
    }
  }

  /** Analyse the function and rewrite it.  Its executions stay the same if the
      analysis misses nothing, and it does so if the transformer is sound at every
      goto. */
  method Propagate(ghost m: Meaning, lang: Lang, code: array<Instr>)
    returns (ghost states: map<Loc, Values>, ghost fuel: nat)
    requires Simplifies(m, lang.simplify) && WellFormedFunction(code[..])
    modifies code
    ensures code.Length > 0 ==> RunF(Instance(lang, old(code[..])), fuel, map[], 0) == Some(states)
    ensures code[..] == Rewrite(lang, states, old(code[..]))
    ensures SoundGotos(m, lang, old(code[..])) || NothingMissed(m, lang, old(code[..]), states) ==>
              forall run :: IsExecution(m, code[..], run) <==> IsExecution(m, old(code[..]), run)
  {
    hide SoundGotos, NothingMissed;
    var f := code[..];
    var known, steps := Analyse(m, lang, f);
    states, fuel := known, steps;
    forall l | 0 <= l < code.Length ensures SymbolFree(Known(known, l).consts) {
      StatesValid(m, lang, f, fuel, known, l);
    }
    ReplaceAll(m, lang, code, known);
    if SoundGotos(m, lang, f) || NothingMissed(m, lang, f, states) {
      if |f| > 0 && SoundGotos(m, lang, f) {
        SoundNothingMissed(m, lang, f, fuel, states);
      }
      forall run ensures IsExecution(m, code[..], run) <==> IsExecution(m, f, run) {
        if |f| > 0 {
          RewritePreserves(m, lang, f, fuel, states, run);
        }
      }
    }
  }

  /** The analysis; what it knows at a location holds whenever an execution is
      there. */
  method Analyse(ghost m: Meaning, lang: Lang, f: Function) returns (states: map<Loc, Values>, ghost fuel: nat)
    requires Simplifies(m, lang.simplify) && WellFormedFunction(f)
    ensures |f| > 0 ==> RunF(Instance(lang, f), fuel, map[], 0) == Some(states)
    ensures NothingMissed(m, lang, f, states) ==>
              forall run: seq<Point>, i: nat :: IsExecution(m, f, run) && i < |run| ==>
                Gamma(m, Known(states, run[i].loc), run[i].store)
  {
    hide *;
    InstanceReady(m, lang, f);
    RulesParts(Instance(lang, f), Leq, ValidIn(lang, f), Anything());
    ProgramShape(f);
    var ai := new Interpreter<Loc, Values>(
      Instance(lang, f), ValidIn(lang, f), RankIn(f), Listed(ProgramOf(f).code.Keys));
    ai.StartsOk();
    fuel := ai.Run(if |f| > 0 then Some(0) else None);
    states := ai.storage.domainMap;
    forall run: seq<Point>, i: nat | NothingMissed(m, lang, f, states) && IsExecution(m, f, run) && i < |run|
      ensures Gamma(m, Known(states, run[i].loc), run[i].store)
    {
      ExecutionStart(m, f, run);
      MissedNowhere(m, lang, f, states);
      ExecutionCovered(m, lang, f, fuel, states, run, i);
    }
  }

  lemma RulesParts<D(!new)>(a: Analysis<Loc, D>, leq: (D, D) -> bool, valid: D -> bool, kept: D -> bool)
    requires Rules(a, leq, valid, kept)
    ensures a.prog.WellFormed() && OrderLaws(a) && StepLaws(a) && DomainLaws(a, valid)
  {
  }
}
