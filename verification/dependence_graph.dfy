/** Control dependences of one function, computed by the abstract interpreter
    from its postdominators. */
module DependenceGraph {
  import opened GotoProgram
  import opened AiSpec
  import opened CfgDominators

  /** A function: its instructions, which of them are gotos and assumes, its
      control flow graph, and the postdominators of every node. */
  datatype Func = Func(prog: Program, gotos: set<Loc>, assumes: set<Loc>, cfg: Cfg, pdoms: seq<seq<nat>>) {
    /** The function fills locations 0 to n - 1, the graph has the edges that the
        interpreter follows, and gotos and assumes are ordinary instructions. */
    ghost predicate Shaped() {
      && prog.WellFormed() && cfg.WellFormed() && (forall l :: !prog.Descends(l))
      && (forall l: Loc :: l in prog.code <==> l < |cfg.outs|)
      && (forall l, to :: 0 <= l < |cfg.outs| ==> (to in cfg.outs[l] <==> prog.LocalStep(l, to)))
      && (forall c :: c in gotos + assumes ==> c in prog.code && prog.code[c].Local?)
      && gotos !! assumes
    }

    ghost predicate WellFormed() {
      Shaped() && Exact(cfg.Walk(true), pdoms)
    }

    function Control(): set<Loc> {
      gotos + assumes
    }

    predicate PostDominated(s: nat, to: Loc) {
      s < |pdoms| && to in pdoms[s]
    }

    /** `to` postdominates one but not all successors of `c`; an assume counts as
        having a further successor. */
    predicate Depends(c: Loc, to: Loc) {
      && c < |cfg.outs|
      && (exists i :: 0 <= i < |cfg.outs[c]| && PostDominated(cfg.outs[c][i], to))
      && !(c !in assumes && forall i :: 0 <= i < |cfg.outs[c]| ==> PostDominated(cfg.outs[c][i], to))
    }

    predicate IsCall(l: Loc) {
      l in prog.code && prog.code[l].FunctionCall?
    }

    predicate IsEnd(l: Loc) {
      l in prog.code && prog.code[l].EndFunction?
    }
  }

  /** The abstract state; `reached` is false for bottom. */
  datatype Deps = Deps(reached: bool, controlDeps: set<Loc>, candidates: set<Loc>)

  const BOTTOM := Deps(false, {}, {})
  const ENTRY := Deps(true, {}, {})

  function NewCandidates(fn: Func, d: Deps, from: Loc): set<Loc> {
    if from in fn.Control() then d.candidates + {from} else d.candidates
  }

  /** The transformer along the edge from `from` to `to`. */
  function TransformF(fn: Func, d: Deps, from: Loc, to: Loc): Deps {
    var deps := set c | c in d.controlDeps && !fn.IsCall(c);
    if fn.IsEnd(from) && from !in fn.Control() then
      Deps(d.reached, deps, {})
    else
      var cands := NewCandidates(fn, d, from);
      Deps(d.reached, (deps - cands) + (set c | c in cands && fn.Depends(c, to)), cands)
  }

  function MergeF(d: Deps, src: Deps): Join<Deps> {
    var merged := Deps(true, d.controlDeps + src.controlDeps, d.candidates + src.candidates);
    Join(merged, merged != d)
  }

  /** The domain object, updated in place. */
  class DepGraphDomain {
    var reached: bool
    var controlDeps: set<Loc>
    var candidates: set<Loc>

    ghost function State(): Deps
      reads this
    {
      Deps(reached, controlDeps, candidates)
    }

    /** Union in the other state; say whether anything changed. */
    method Merge(src: Deps) returns (changed: bool)
      modifies this
      ensures Join(State(), changed) == MergeF(old(State()), src)
    {
      changed := !reached;
      reached := true;
      if !(src.controlDeps <= controlDeps) {
        controlDeps := controlDeps + src.controlDeps;
        changed := true;
      }
      if !(src.candidates <= candidates) {
        candidates := candidates + src.candidates;
        changed := true;
      }
      assert controlDeps == old(controlDeps) + src.controlDeps;
      assert candidates == old(candidates) + src.candidates;
    }

    method Transform(fn: Func, from: Loc, to: Loc)
      modifies this
      ensures State() == TransformF(fn, old(State()), from, to)
    {
      controlDeps := set c | c in controlDeps && !fn.IsCall(c);
      ControlDependencies(fn, from, to);
    }

    /** Add the source to the candidates if it is a control statement, and
        re-evaluate every candidate for the target. */
    method ControlDependencies(fn: Func, from: Loc, to: Loc)
      modifies this
      ensures reached == old(reached)
      ensures if fn.IsEnd(from) && from !in fn.Control() then controlDeps == old(controlDeps) && candidates == {}
              else candidates == NewCandidates(fn, old(State()), from)
                   && controlDeps == (old(controlDeps) - candidates) + set c | c in candidates && fn.Depends(c, to)
    {
      if from in fn.Control() {
        candidates := candidates + {from};
      } else if fn.IsEnd(from) {
        candidates := {};
        return;
      }
      if candidates == {} {
        return;
      }
      var rest := candidates;
      while rest != {}
        invariant rest <= candidates && candidates == NewCandidates(fn, old(State()), from) && reached == old(reached)
        invariant forall c :: c in controlDeps <==>
                    if c in candidates - rest then fn.Depends(c, to) else c in old(controlDeps)
        decreases rest
      {
        var c :| c in rest;
        rest := rest - {c};
        var depends := CheckSuccessors(fn, c, to);
        if depends {
          controlDeps := controlDeps + {c};
        } else {
          controlDeps := controlDeps - {c};
        }
      }
    }

    /** Look at all successors of the candidate `c`. */
    static method CheckSuccessors(fn: Func, c: Loc, to: Loc) returns (depends: bool)
      ensures depends == fn.Depends(c, to)
    {
      if c >= |fn.cfg.outs| {
        return false;
      }
      var succs := fn.cfg.outs[c];
      var postDomAll, postDomOne := c !in fn.assumes, false;
      for i := 0 to |succs|
        invariant postDomOne <==> exists k :: 0 <= k < i && fn.PostDominated(succs[k], to)
        invariant postDomAll <==> c !in fn.assumes && forall k :: 0 <= k < i ==> fn.PostDominated(succs[k], to)
      {
        if fn.PostDominated(succs[i], to) {
          postDomOne := true;
        } else {
          postDomAll := false;
        }
      }
      depends := !(postDomAll || !postDomOne);
    }
  }
}

module ControlDependence {
  import opened Options
  import opened GotoProgram
  import opened AiSpec
  import opened AiMeasure
  import opened AiPrecision
  import opened AiRuns
  import opened AiFlow
  import opened AiLeast
  import opened AiAbsorbed
  import opened AiStorage
  import opened AiEngine
  import opened Ahistorical
  import opened CfgDominators
  import opened DependenceGraph

  /** The instance of the interpreter.  Off the edges of the function, where the
      interpreter never applies it, the transformer is the identity. */
  function Instance(fn: Func): (a: Analysis<Loc, Deps>)
    ensures a.prog == fn.prog && a.bottom == BOTTOM
  {
    Classic(fn.prog, BOTTOM, ENTRY, (d: Deps) => !d.reached,
            (l: Loc, to: Loc, d: Deps) => if fn.prog.LocalStep(l, to) then TransformF(fn, d, l, to) else d,
            (d: Deps, e: Deps, h: Loc, h': Loc) => MergeF(d, e))
  }

  ghost predicate ValidDeps(fn: Func, d: Deps) {
    && d.controlDeps <= d.candidates <= fn.Control()
    && (!d.reached ==> d == BOTTOM)
  }

  ghost function ValidIn(fn: Func): Deps -> bool {
    d => ValidDeps(fn, d)
  }

  predicate LeqDeps(d: Deps, e: Deps) {
    d.reached ==> e.reached && d.controlDeps <= e.controlDeps && d.candidates <= e.candidates
  }

  /** The transformer in terms of the instructions.  Control statements become
      candidates when control leaves them, all candidates are dropped at the end of
      the function, candidates are dependences if and only if the target depends on
      them, and other dependences stay unless they are calls. */
  lemma TransformIs(fn: Func, d: Deps, from: Loc, to: Loc, c: Loc)
    ensures var d', control := TransformF(fn, d, from, to), from in fn.gotos || from in fn.assumes;
            && d'.reached == d.reached
            && (c in d'.candidates <==>
                if !control && from in fn.prog.code && fn.prog.code[from].EndFunction? then false
                else c in d.candidates || (control && c == from))
            && (c in d'.controlDeps <==>
                if c in d'.candidates then fn.Depends(c, to)
                else c in d.controlDeps && !(c in fn.prog.code && fn.prog.code[c].FunctionCall?))
  {
  }

  /** On valid states only the candidates matter. */
  lemma TransformValid(fn: Func, d: Deps, from: Loc, to: Loc)
    requires fn.WellFormed() && ValidDeps(fn, d) && d.reached && fn.prog.LocalStep(from, to)
    ensures var cands := NewCandidates(fn, d, from);
            TransformF(fn, d, from, to) == Deps(true, (set c | c in cands && fn.Depends(c, to)), cands)
    ensures ValidDeps(fn, TransformF(fn, d, from, to))
  {
    assert forall c :: c in d.controlDeps ==> !fn.IsCall(c);
  }

  ghost function RankOf(fn: Func, d: Deps): nat {
    var n := |fn.Control()|;
    (if d.reached then 0 else 1)
    + (if |d.controlDeps| <= n then n - |d.controlDeps| else 0)
    + (if |d.candidates| <= n then n - |d.candidates| else 0)
  }

  ghost function RankIn(fn: Func): Deps -> nat {
    d => RankOf(fn, d)
  }

  lemma MergeLowersRank(fn: Func, d: Deps, e: Deps)
    requires ValidDeps(fn, d) && ValidDeps(fn, e) && MergeF(d, e).changed
    ensures RankOf(fn, MergeF(d, e).state) < RankOf(fn, d)
  {
    var m := MergeF(d, e).state;
    SubsetSize(d.controlDeps, m.controlDeps);
    SubsetSize(d.candidates, m.candidates);
    SubsetSize(m.controlDeps, fn.Control());
    SubsetSize(m.candidates, fn.Control());
  }

  lemma InstanceDomain(fn: Func)
    requires fn.WellFormed()
    ensures var a := Instance(fn); var valid := ValidIn(fn);
            DomainLaws(a, valid) && HeightLaws(a, valid, RankIn(fn))
  {
    hide Func.WellFormed, TransformF, RankOf;
    var a := Instance(fn);
    forall l, to, d | ValidDeps(fn, d) && d.reached ensures ValidDeps(fn, a.transform(l, to, d)) {
      if fn.prog.LocalStep(l, to) {
        TransformValid(fn, d, l, to);
      }
    }
    forall d, e | ValidDeps(fn, d) && ValidDeps(fn, e) && MergeF(d, e).changed
      ensures RankOf(fn, MergeF(d, e).state) < RankOf(fn, d)
    {
      MergeLowersRank(fn, d, e);
    }
  }

  lemma TransformMonotone(fn: Func, d: Deps, e: Deps, from: Loc, to: Loc)
    requires fn.WellFormed() && ValidDeps(fn, d) && ValidDeps(fn, e) && d.reached && LeqDeps(d, e)
    requires fn.prog.LocalStep(from, to)
    ensures LeqDeps(TransformF(fn, d, from, to), TransformF(fn, e, from, to))
  {
    hide Func.WellFormed, TransformF;
    TransformValid(fn, d, from, to);
    TransformValid(fn, e, from, to);
  }

  lemma InstanceMonotone(fn: Func)
    requires fn.WellFormed()
    ensures var a := Instance(fn); var valid := ValidIn(fn);
            MonotoneLaws(a, LeqDeps, valid) && UpperBounds(a, LeqDeps, valid)
  {
    hide Func.WellFormed, TransformF;
    var a := Instance(fn);
    forall l, to, d, e | ValidDeps(fn, d) && ValidDeps(fn, e) && d.reached && LeqDeps(d, e)
      ensures LeqDeps(a.transform(l, to, d), a.transform(l, to, e))
    {
      if fn.prog.LocalStep(l, to) {
        TransformMonotone(fn, d, e, l, to);
      }
    }
    forall l, to, d, e, u |
      && ValidDeps(fn, d) && ValidDeps(fn, e) && ValidDeps(fn, u) && e.reached
      && LeqDeps(d, u) && LeqDeps(a.transform(l, to, e), u)
      ensures LeqDeps(a.merge(d, a.transform(l, to, e), l, to).state, u)
    {
      if fn.prog.LocalStep(l, to) {
        TransformValid(fn, e, l, to);
      }
      assert a.transform(l, to, e).reached;
    }
  }

  /** The merge is a join, except that two bottoms merge to a reached state. */
  lemma MergeJoins(fn: Func, states: map<Loc, Deps>, hs: set<Loc>)
    requires fn.WellFormed() && hs <= states.Keys
    ensures var a := Instance(fn);
            && JoinLaws(LeqDeps, ValidIn(fn), a.merge, BOTTOM)
            && (LeavesBottom(a.merge, BOTTOM, states, hs) <==> |hs| > 1 && forall h :: h in hs ==> states[h] == BOTTOM)
  {
    hide Func.WellFormed, MergeF, LeqDeps, ValidIn, Instance;
    var a, valid := Instance(fn), ValidIn(fn);
    forall d, e, h, k | valid(d) && valid(e)
      ensures var m := a.merge(d, e, h, k).state; valid(m) && LeqDeps(d, m) && LeqDeps(e, m)
    {
      MergeLaws(fn, d, e, d, h, k);
    }
    forall d, e, u, h, k | valid(d) && valid(e) && valid(u) && LeqDeps(d, u) && LeqDeps(e, u) && u != BOTTOM
      ensures LeqDeps(a.merge(d, e, h, k).state, u)
    {
      MergeLaws(fn, d, e, u, h, k);
    }
    forall d | valid(d)
      ensures LeqDeps(d, d) && LeqDeps(BOTTOM, d) && (LeqDeps(d, BOTTOM) ==> d == BOTTOM)
    {
      LeqLaws(fn, d, d, d);
    }
    forall d, e, u | valid(d) && LeqDeps(d, e) && LeqDeps(e, u) ensures LeqDeps(d, u) {
      LeqLaws(fn, d, e, u);
    }
    BottomValid(fn);
    if |hs| > 1 {
      var h :| h in hs;
      MergeLaws(fn, BOTTOM, BOTTOM, BOTTOM, h, h);
    }
  }

  ghost function IsReached(): Deps -> bool {
    (d: Deps) => d.reached
  }

  /** No run stores bottom: every state is the result of a merge. */
  lemma RunReached(fn: Func, fuel: nat, start: Loc, states: map<Loc, Deps>)
    requires fn.WellFormed() && start in fn.prog.code
    requires RunF(Instance(fn), fuel, map[], start) == Some(states)
    ensures forall l :: l in states ==> states[l].reached
  {
    hide Func.WellFormed, RunF, Instance, ValidIn, Absorbed;
    InstanceRules(fn);
    RunAbsorbed(Instance(fn), LeqDeps, ValidIn(fn), IsReached(), fuel, start, states);
  }

  lemma InstanceRules(fn: Func)
    requires fn.WellFormed()
    ensures Rules(Instance(fn), LeqDeps, ValidIn(fn), IsReached())
  {
    hide MonotoneLaws, UpperBounds, DomainLaws, HeightLaws, StepLaws, OrderLaws, UniverseLaws;
    InstanceReady(fn);
    InstanceMonotone(fn);
    InstanceLaws(fn);
  }

  /** So in a run the state of any set of histories is their join. */
  lemma StatesJoin(fn: Func, fuel: nat, start: Loc, states: map<Loc, Deps>, hs: set<Loc>)
    requires fn.WellFormed() && start in fn.prog.code && hs <= states.Keys
    requires RunF(Instance(fn), fuel, map[], start) == Some(states)
    ensures JoinLaws(LeqDeps, ValidIn(fn), Instance(fn).merge, BOTTOM)
    ensures !LeavesBottom(Instance(fn).merge, BOTTOM, states, hs)
  {
    hide Func.WellFormed, RunF, Instance, JoinLaws, LeavesBottom;
    RunReached(fn, fuel, start, states);
    MergeJoins(fn, states, hs);
    if |hs| > 1 {
      var h :| h in hs;
      assert states[h].reached;
    }
  }

  lemma BottomValid(fn: Func)
    ensures ValidIn(fn)(BOTTOM)
  {
  }

  lemma MergeLaws(fn: Func, d: Deps, e: Deps, u: Deps, h: Loc, k: Loc)
    requires ValidIn(fn)(d) && ValidIn(fn)(e) && ValidIn(fn)(u)
    ensures var m := Instance(fn).merge(d, e, h, k).state; ValidIn(fn)(m) && LeqDeps(d, m) && LeqDeps(e, m)
    ensures LeqDeps(d, u) && LeqDeps(e, u) && u != BOTTOM ==> LeqDeps(Instance(fn).merge(d, e, h, k).state, u)
    ensures Instance(fn).merge(BOTTOM, BOTTOM, h, k).state != BOTTOM
  {
  }

  lemma LeqLaws(fn: Func, d: Deps, e: Deps, u: Deps)
    requires ValidIn(fn)(d)
    ensures LeqDeps(d, d) && LeqDeps(BOTTOM, d) && (LeqDeps(d, BOTTOM) ==> d == BOTTOM)
    ensures LeqDeps(d, e) && LeqDeps(e, u) ==> LeqDeps(d, u)
  {
  }

  lemma InstanceLaws(fn: Func)
    requires fn.WellFormed()
    ensures Lattice(Instance(fn), LeqDeps, ValidIn(fn)) && Intraprocedural(Instance(fn))
  {
    hide MonotoneLaws, UpperBounds, DomainLaws, HeightLaws;
    InstanceDomain(fn);
    InstanceMonotone(fn);
  }

  // ----- the solution -----

  /** `to` is `n` steps away from `l`. */
  ghost predicate Steps(prog: Program, n: nat, l: Loc, to: Loc) {
    if n == 0 then l == to && l in prog.code else exists m :: Steps(prog, n - 1, l, m) && prog.LocalStep(m, to)
  }

  ghost predicate Reach(prog: Program, start: Loc, l: Loc) {
    exists n: nat :: Steps(prog, n, start, l)
  }

  /** A path of at least one step. */
  ghost predicate Leads(prog: Program, l: Loc, to: Loc) {
    exists n: nat :: n > 0 && Steps(prog, n, l, to)
  }

  ghost function Candidates(fn: Func, start: Loc, l: Loc): set<Loc> {
    set c | c in fn.Control() && Reach(fn.prog, start, c) && Leads(fn.prog, c, l)
  }

  ghost function Solution(fn: Func, start: Loc, l: Loc): Deps {
    if Reach(fn.prog, start, l) then
      var cands := Candidates(fn, start, l);
      Deps(true, (set c | c in cands && fn.Depends(c, l)), cands)
    else
      BOTTOM
  }

  ghost function SolutionOf(fn: Func, start: Loc): Loc -> Deps {
    (l: Loc) => Solution(fn, start, l)
  }

  lemma ReachStep(prog: Program, start: Loc, l: Loc, to: Loc)
    requires Reach(prog, start, l) && prog.LocalStep(l, to)
    ensures Reach(prog, start, to)
  {
    var n: nat :| Steps(prog, n, start, l);
    assert Steps(prog, n + 1, start, to);
  }

  lemma LeadsStep(prog: Program, c: Loc, l: Loc, to: Loc)
    requires (Leads(prog, c, l) || c == l) && prog.LocalStep(l, to)
    ensures Leads(prog, c, to)
  {
    if Leads(prog, c, l) {
      var n: nat :| n > 0 && Steps(prog, n, c, l);
      assert Steps(prog, n + 1, c, to);
    } else {
      assert Steps(prog, 0, c, l);
      assert Steps(prog, 1, c, to);
    }
  }

  /** The solution satisfies every inequation. */
  lemma SolutionPostFixed(fn: Func, start: Loc)
    requires fn.WellFormed() && start in fn.prog.code
    ensures PostFixed(Instance(fn), LeqDeps, ValidIn(fn), start, SolutionOf(fn, start))
  {
    assert Steps(fn.prog, 0, start, start);
    assert Reach(fn.prog, start, start);
    forall l: Loc, to | fn.prog.LocalStep(l, to) && Solution(fn, start, l).reached
      ensures LeqDeps(TransformF(fn, Solution(fn, start, l), l, to), Solution(fn, start, to))
    {
      SolutionStep(fn, start, l, to);
    }
  }

  lemma SolutionStep(fn: Func, start: Loc, l: Loc, to: Loc)
    requires fn.WellFormed() && fn.prog.LocalStep(l, to) && Reach(fn.prog, start, l)
    ensures LeqDeps(TransformF(fn, Solution(fn, start, l), l, to), Solution(fn, start, to))
  {
    hide Func.WellFormed, TransformF, Reach, Leads;
    var d := Solution(fn, start, l);
    TransformValid(fn, d, l, to);
    ReachStep(fn.prog, start, l, to);
    forall c | c in NewCandidates(fn, d, l) ensures c in Candidates(fn, start, to) {
      LeadsStep(fn.prog, c, l, to);
    }
  }

  /** Every solution of the inequations is reached wherever control can go. */
  lemma {:induction false} SolvedReach(fn: Func, start: Loc, x: Loc -> Deps, n: nat, l: Loc)
    requires fn.WellFormed() && PostFixed(Instance(fn), LeqDeps, ValidIn(fn), start, x)
    requires Steps(fn.prog, n, start, l)
    ensures x(l).reached
    decreases n
  {
    hide Func.WellFormed, TransformF;
    if n == 0 {
    } else {
      var m :| Steps(fn.prog, n - 1, start, m) && fn.prog.LocalStep(m, l);
      SolvedReach(fn, start, x, n - 1, m);
      SolvedEdge(fn, start, x, m, l);
    }
  }

  lemma SolvedEdge(fn: Func, start: Loc, x: Loc -> Deps, l: Loc, to: Loc)
    requires fn.WellFormed() && PostFixed(Instance(fn), LeqDeps, ValidIn(fn), start, x)
    requires fn.prog.LocalStep(l, to) && x(l).reached
    ensures x(to).reached && NewCandidates(fn, x(l), l) <= x(to).candidates
    ensures forall c :: c in NewCandidates(fn, x(l), l) && fn.Depends(c, to) ==> c in x(to).controlDeps
  {
    hide Func.WellFormed, TransformF;
    TransformValid(fn, x(l), l, to);
  }

  /** ... and has every reachable control statement with a path to `l` as a
      candidate there. */
  lemma {:induction false} SolvedCandidates(fn: Func, start: Loc, x: Loc -> Deps, c: Loc, n: nat, l: Loc)
    requires fn.WellFormed() && PostFixed(Instance(fn), LeqDeps, ValidIn(fn), start, x)
    requires c in fn.Control() && Reach(fn.prog, start, c) && n > 0 && Steps(fn.prog, n, c, l)
    ensures x(l).reached && c in x(l).candidates && (fn.Depends(c, l) ==> c in x(l).controlDeps)
    decreases n
  {
    hide Func.WellFormed, TransformF, PostFixed;
    var m :| Steps(fn.prog, n - 1, c, m) && fn.prog.LocalStep(m, l);
    if n > 1 {
      SolvedCandidates(fn, start, x, c, n - 1, m);
    } else {
      var k: nat :| Steps(fn.prog, k, start, c);
      SolvedReach(fn, start, x, k, c);
    }
    SolvedEdge(fn, start, x, m, l);
  }

  /** The analysis computes exactly the solution. */
  lemma AnalysisExact(fn: Func, fuel: nat, start: Loc, states: map<Loc, Deps>, l: Loc)
    requires fn.WellFormed() && start in fn.prog.code
    requires RunF(Instance(fn), fuel, map[], start) == Some(states)
    ensures StateAt(Instance(fn), states, l) == Solution(fn, start, l)
  {
    hide RunF, Func.WellFormed, PostFixed, Lattice, Solution, Instance;
    var a := Instance(fn);
    var valid := ValidIn(fn);
    var x := Result(a, states);
    InstanceLaws(fn);
    LeastSolution(a, LeqDeps, valid, fuel, start, states);
    SolutionPostFixed(fn, start);
    assert LeqDeps(StateAt(a, states, l), SolutionOf(fn, start)(l));
    SolutionBelow(fn, start, x, l);
  }

  lemma SolutionBelow(fn: Func, start: Loc, x: Loc -> Deps, l: Loc)
    requires fn.WellFormed() && PostFixed(Instance(fn), LeqDeps, ValidIn(fn), start, x)
    requires LeqDeps(x(l), Solution(fn, start, l))
    ensures x(l) == Solution(fn, start, l)
  {
    assert ValidDeps(fn, x(l));
    hide Func.WellFormed, TransformF, PostFixed;
    if Reach(fn.prog, start, l) {
      var n: nat :| Steps(fn.prog, n, start, l);
      SolvedReach(fn, start, x, n, l);
      forall c | c in Candidates(fn, start, l)
        ensures c in x(l).candidates && (fn.Depends(c, l) ==> c in x(l).controlDeps)
      {
        var k: nat :| k > 0 && Steps(fn.prog, k, c, l);
        SolvedCandidates(fn, start, x, c, k, l);
      }
    }
  }

  // ----- the definition of Kumar and Horwitz -----

  /** `n` postdominates one but not all of the successors of `m`; for an assume
      one is enough. */
  ghost predicate ControlDependent(fn: Func, n: Loc, m: Loc) {
    && (m in fn.gotos || m in fn.assumes) && m < |fn.cfg.outs|
    && (exists s :: s in fn.cfg.outs[m] && PostDominates(fn.cfg, n, s))
    && (m in fn.gotos ==> exists s :: s in fn.cfg.outs[m] && !PostDominates(fn.cfg, n, s))
  }

  lemma DependsIff(fn: Func, n: Loc, m: Loc)
    requires fn.WellFormed() && m in fn.Control()
    ensures fn.Depends(m, n) <==> ControlDependent(fn, n, m)
  {
    var outs := fn.cfg.outs[m];
    forall s | 0 <= s < |fn.cfg.outs| ensures fn.PostDominated(s, n) <==> PostDominates(fn.cfg, n, s) {
      BackwardDominance(fn.cfg, n, s);
    }
    assert forall i :: 0 <= i < |outs| ==> outs[i] in outs && fn.prog.LocalStep(m, outs[i]);
    forall s | fn.prog.LocalStep(m, s) ensures exists i :: 0 <= i < |outs| && outs[i] == s {
      assert s in outs;
    }
  }

  /** Paths of the graph are paths of the interpreter. */
  lemma {:induction false} PathSteps(fn: Func, p: seq<nat>, s: nat, i: nat)
    requires fn.WellFormed() && ExitPath(fn.cfg, p, s) && i < |p|
    ensures Steps(fn.prog, i, s, p[i])
    decreases i
  {
    if i == 0 {
    } else {
      PathSteps(fn, p, s, i - 1);
      assert p[i - 1 + 1] in fn.cfg.outs[p[i - 1]];
    }
  }

  lemma {:induction false} StepsJoin(prog: Program, l: Loc, n: nat, m: Loc, k: nat, to: Loc)
    requires Steps(prog, n, l, m) && Steps(prog, k, m, to)
    ensures Steps(prog, n + k, l, to)
    decreases k
  {
    if k == 0 {
    } else {
      var u :| Steps(prog, k - 1, m, u) && prog.LocalStep(u, to);
      StepsJoin(prog, l, n, m, k - 1, u);
    }
  }

  lemma EdgesAgree(fn: Func, m: Loc, s: Loc)
    requires fn.WellFormed() && m < |fn.cfg.outs|
    ensures s in fn.cfg.outs[m] <==> fn.prog.LocalStep(m, s)
  {
  }

  /** The candidate filter loses nothing: whatever `n` depends on leads to it. */
  lemma FilterComplete(fn: Func, start: Loc, n: Loc, m: Loc)
    requires fn.WellFormed() && ControlDependent(fn, n, m) && Reach(fn.prog, start, m)
    ensures Leads(fn.prog, m, n) && Reach(fn.prog, start, n)
  {
    hide Func.WellFormed;
    var s :| s in fn.cfg.outs[m] && PostDominates(fn.cfg, n, s);
    assert fn.prog.LocalStep(m, s) by {
      EdgesAgree(fn, m, s);
    }
    var p :| ExitPath(fn.cfg, p, s);
    var i :| 0 <= i < |p| && p[i] == n;
    PathSteps(fn, p, s, i);
    assert Steps(fn.prog, 0, m, m);
    assert Steps(fn.prog, 1, m, s);
    StepsJoin(fn.prog, m, 1, s, i, n);
    var k: nat :| Steps(fn.prog, k, start, m);
    StepsJoin(fn.prog, start, k, m, 1 + i, n);
  }

  /** In the result, the control dependences of `n` are exactly the reachable
      control statements that `n` depends on by the definition. */
  lemma ControlDepsExact(fn: Func, fuel: nat, start: Loc, states: map<Loc, Deps>, n: Loc, m: Loc)
    requires fn.WellFormed() && start in fn.prog.code
    requires RunF(Instance(fn), fuel, map[], start) == Some(states)
    ensures n in states && states[n].reached <==> Reach(fn.prog, start, n)
    ensures n in states && m in states[n].controlDeps <==> Reach(fn.prog, start, m) && ControlDependent(fn, n, m)
  {
    hide Func.WellFormed, RunF, Instance, Leads, Func.Depends;
    AnalysisExact(fn, fuel, start, states, n);
    if m in fn.Control() {
      DependsIff(fn, n, m);
      if ControlDependent(fn, n, m) && Reach(fn.prog, start, m) {
        FilterComplete(fn, start, n, m);
      }
    }
  }

  /** The whole computation: postdominators first, then the fixed point. */
  method Compute(shape: Func, start: Loc) returns (deps: map<Loc, set<Loc>>)
    requires shape.Shaped() && start in shape.prog.code
    ensures forall n :: n in deps <==> Reach(shape.prog, start, n)
    ensures forall n, m :: n in deps ==>
              (m in deps[n] <==> Reach(shape.prog, start, m) && ControlDependent(shape, n, m))
  {
    var pd := new Dominators(shape.cfg, true);
    var fn := shape.(pdoms := pd.doms[..]);
    assert fn.WellFormed();
    deps := Analyse(fn, start);
    forall n, m ensures ControlDependent(shape, n, m) <==> ControlDependent(fn, n, m) {
    }
  }

  method Analyse(fn: Func, start: Loc) returns (deps: map<Loc, set<Loc>>)
    requires fn.WellFormed() && start in fn.prog.code
    ensures forall n :: n in deps <==> Reach(fn.prog, start, n)
    ensures forall n, m :: n in deps ==> (m in deps[n] <==> Reach(fn.prog, start, m) && ControlDependent(fn, n, m))
  {
    hide *;
    var a := Instance(fn);
    InstanceReady(fn);
    var ai := new Interpreter<Loc, Deps>(a, ValidIn(fn), RankIn(fn), Listed(fn.prog.code.Keys));
    ai.StartsOk();
    var fuel := ai.Run(Some(start));
    var states := ai.storage.domainMap;
    deps := map l | l in states && states[l].reached :: states[l].controlDeps;
    forall n, m
      ensures n in deps <==> Reach(fn.prog, start, n)
      ensures n in deps ==> (m in deps[n] <==> Reach(fn.prog, start, m) && ControlDependent(fn, n, m))
    {
      ControlDepsExact(fn, fuel, start, states, n, m);
    }
  }

  lemma InstanceReady(fn: Func)
    requires fn.WellFormed()
    ensures var a := Instance(fn); var valid := ValidIn(fn);
            && a.prog == fn.prog && a.prog.WellFormed() && OrderLaws(a) && StepLaws(a) && DomainLaws(a, valid)
            && HeightLaws(a, valid, RankIn(fn)) && UniverseLaws(a, Listed(fn.prog.code.Keys))
  {
    hide DomainLaws, HeightLaws, UniverseLaws, StepLaws;
    InstanceDomain(fn);
    AhistoricalLaws(Instance(fn), Semantics((l, to, s: (), s') => true, (d, s) => true, (h, stack) => true, s => true));
  }
}
