/** Without entered calls the classical analysis computes the least solution of
    the data flow inequations, whatever the order of its working set. */
module AiLeast {
  import opened Options
  import opened GotoProgram
  import opened AiSpec
  import opened AiFlow
  import opened AiRuns
  import opened AiSoundness
  import opened AiPrecision
  import opened Ahistorical

  /** States that were never reached are bottom. */
  ghost function StateAt<D>(a: Analysis<Loc, D>, states: map<Loc, D>, l: Loc): D {
    if l in states then states[l] else a.bottom
  }

  ghost function Result<D>(a: Analysis<Loc, D>, states: map<Loc, D>): Loc -> D {
    (l: Loc) => StateAt(a, states, l)
  }

  /** A single function, or an interpreter that steps over calls. */
  ghost predicate Intraprocedural<D>(a: Analysis<Loc, D>) {
    forall l :: !a.prog.Descends(l)
  }

  ghost predicate Lattice<D(!new)>(a: Analysis<Loc, D>, leq: (D, D) -> bool, valid: D -> bool) {
    && a.prog.WellFormed() && IsAhistorical(a) && OrderLaws(a) && DomainLaws(a, valid)
    && MonotoneLaws(a, leq, valid) && UpperBounds(a, leq, valid)
  }

  /** `x` is above the entry state and solves the inequation of every local step
      from a reachable location. */
  ghost predicate PostFixed<D(!new)>(
    a: Analysis<Loc, D>, leq: (D, D) -> bool, valid: D -> bool, start: Loc, x: Loc -> D)
  {
    && (forall l :: valid(x(l))) && leq(a.entry, x(start))
    && (forall l, to :: a.prog.LocalStep(l, to) && !a.isBottom(x(l)) ==> leq(a.transform(l, to, x(l)), x(to)))
  }

  ghost predicate IsLeast<D(!new)>(
    a: Analysis<Loc, D>, leq: (D, D) -> bool, valid: D -> bool, start: Loc, states: map<Loc, D>)
  {
    && PostFixed(a, leq, valid, start, Result(a, states))
    && forall x: Loc -> D, l: Loc :: PostFixed(a, leq, valid, start, x) ==> leq(StateAt(a, states, l), x(l))
  }

  /** Domain elements as their own concrete states: an element stands for the
      reachable elements below it. */
  ghost function Tests<D(!new)>(a: Analysis<Loc, D>, leq: (D, D) -> bool, valid: D -> bool): Semantics<Loc, D, D> {
    Semantics(
      (l, to, d, e) => valid(d) && valid(e) && !a.isBottom(d) && !a.isBottom(e) && leq(e, a.transform(l, to, d)),
      (d, e) => valid(e) && !a.isBottom(e) && leq(e, d),
      (h, stack) => true,
      d => valid(d) && !a.isBottom(d) && leq(d, a.entry))
  }

  lemma TestsSound<D(!new)>(a: Analysis<Loc, D>, leq: (D, D) -> bool, valid: D -> bool)
    requires Lattice(a, leq, valid)
    ensures SoundDomain(a, Tests(a, leq, valid), valid)
  {
    var sem := Tests(a, leq, valid);
    forall d, d', h, h', s | valid(d) && valid(d') && (sem.gamma(d, s) || sem.gamma(d', s))
      ensures sem.gamma(a.merge(d, d', h, h').state, s)
    {
      assert leq(d, a.merge(d, d', h, h').state) && leq(d', a.merge(d, d', h, h').state);
    }
  }

  /** The soundness theorem for that meaning: what is stored at the end covers
      the entry state and is closed. */
  lemma TestsClosed<D(!new)>(
    a: Analysis<Loc, D>, leq: (D, D) -> bool, valid: D -> bool, fuel: nat, start: Loc, states: map<Loc, D>)
    requires Lattice(a, leq, valid) && Intraprocedural(a) && start in a.prog.code
    requires RunF(a, fuel, map[], start) == Some(states)
    ensures AllValid(valid, states) && Grows(Tests(a, leq, valid), map[start := a.entry], states)
    ensures forall h :: h in states ==> Closed(a, Tests(a, leq, valid), states, h)
  {
    var sem := Tests(a, leq, valid);
    TestsSound(a, leq, valid);
    AhistoricalLaws(a, sem);
    NeverReturning(a.prog);
    hide OrderLaws, StepLaws, DomainLaws, MonotoneLaws, UpperBounds, SoundDomain, SoundHistory, RunF, Closed, Grows;
    hide Program.WellFormed, Program.ReturnsRanked, Tests, UniverseLaws;
    RunClosed(a, sem, valid, Flat(), fuel, start, states);
  }

  /** The result solves every inequation: soundness for the element that is
      stored at the source of the edge. */
  lemma ResultPostFixed<D(!new)>(
    a: Analysis<Loc, D>, leq: (D, D) -> bool, valid: D -> bool, fuel: nat, start: Loc, states: map<Loc, D>)
    requires Lattice(a, leq, valid) && Intraprocedural(a) && start in a.prog.code
    requires RunF(a, fuel, map[], start) == Some(states)
    ensures PostFixed(a, leq, valid, start, Result(a, states))
  {
    hide OrderLaws, RunF;
    TestsClosed(a, leq, valid, fuel, start, states);
    assert Tests(a, leq, valid).gamma(map[start := a.entry][start], a.entry);
    forall l, to | a.prog.LocalStep(l, to) && !a.isBottom(StateAt(a, states, l))
      ensures leq(a.transform(l, to, StateAt(a, states, l)), StateAt(a, states, to))
    {
      EdgeSolved(a, leq, valid, states, l, to);
    }
  }

  lemma LatticeFacts<D(!new)>(a: Analysis<Loc, D>, leq: (D, D) -> bool, valid: D -> bool, l: Loc, to: Loc, d: D)
    requires Lattice(a, leq, valid) && valid(d) && !a.isBottom(d)
    ensures valid(a.transform(l, to, d)) && leq(d, d) && leq(a.transform(l, to, d), a.transform(l, to, d))
    ensures a.isBottom(a.transform(l, to, d)) ==> forall e :: leq(a.transform(l, to, d), e)
    ensures a.prog.owner.Keys == a.prog.code.Keys && forall k :: a.loc(k) == k
  {
  }

  lemma EdgeSolved<D(!new)>(
    a: Analysis<Loc, D>, leq: (D, D) -> bool, valid: D -> bool, states: map<Loc, D>, l: Loc, to: Loc)
    requires Lattice(a, leq, valid) && l in states && AllValid(valid, states) && !a.isBottom(states[l])
    requires a.prog.LocalStep(l, to) && Closed(a, Tests(a, leq, valid), states, l)
    ensures leq(a.transform(l, to, states[l]), StateAt(a, states, to))
  {
    hide Lattice;
    var sem := Tests(a, leq, valid);
    var d := states[l];
    var e := a.transform(l, to, d);
    LatticeFacts(a, leq, valid, l, to, d);
    if !a.isBottom(e) {
      assert Holds(a, sem, states, l, [], d);
      assert sem.edge(a.loc(l), to, d, e);
      assert Covered(a, sem, states, [], to, e);
    }
  }

  /** The classical analysis of a function computes the least solution. */
  lemma LeastSolution<D(!new)>(
    a: Analysis<Loc, D>, leq: (D, D) -> bool, valid: D -> bool, fuel: nat, start: Loc, states: map<Loc, D>)
    requires Lattice(a, leq, valid) && Intraprocedural(a) && start in a.prog.code
    requires RunF(a, fuel, map[], start) == Some(states)
    ensures IsLeast(a, leq, valid, start, states)
  {
    ResultPostFixed(a, leq, valid, fuel, start, states);
    forall x: Loc -> D, l: Loc | PostFixed(a, leq, valid, start, x) ensures leq(StateAt(a, states, l), x(l)) {
      PostFixedSolves(a, leq, valid, start, x);
      RunBelow(a, leq, valid, x, fuel, start, states);
    }
  }

  lemma PostFixedSolves<D(!new)>(
    a: Analysis<Loc, D>, leq: (D, D) -> bool, valid: D -> bool, start: Loc, x: Loc -> D)
    requires Lattice(a, leq, valid) && Intraprocedural(a) && PostFixed(a, leq, valid, start, x)
    ensures Setting(a, leq, valid, x)
  {
    hide OrderLaws, DomainLaws, MonotoneLaws, UpperBounds, UniverseLaws, StepLaws, SoundHistory, Solves;
    AhistoricalLaws(a, Tests(a, leq, valid));
    StepsSolved(a, leq, valid, start, x);
  }

  lemma StepsSolved<D(!new)>(
    a: Analysis<Loc, D>, leq: (D, D) -> bool, valid: D -> bool, start: Loc, x: Loc -> D)
    requires IsAhistorical(a) && Intraprocedural(a) && PostFixed(a, leq, valid, start, x)
    ensures Solves(a, leq, valid, x)
  {
  }

  /** The result does not depend on the order in which the working set is
      drained: two analyses that differ in `less` alone agree everywhere. */
  lemma OrderIndependent<D(!new)>(
    a: Analysis<Loc, D>, less: (Loc, Loc) -> bool, leq: (D, D) -> bool, valid: D -> bool,
    n: nat, m: nat, start: Loc, states: map<Loc, D>, states': map<Loc, D>, l: Loc)
    requires Lattice(a, leq, valid) && Lattice(a.(less := less), leq, valid)
    requires Intraprocedural(a) && start in a.prog.code
    requires forall d, e :: valid(d) && valid(e) && leq(d, e) && leq(e, d) ==> d == e
    requires RunF(a, n, map[], start) == Some(states) && RunF(a.(less := less), m, map[], start) == Some(states')
    ensures StateAt(a, states, l) == StateAt(a, states', l)
  {
    var a' := a.(less := less);
    LeastSolution(a, leq, valid, n, start, states);
    LeastSolution(a', leq, valid, m, start, states');
    hide Lattice, IsLeast, RunF;
    SameProblem(a, less, leq, valid, start, states, states', l);
    SameProblem(a', a.less, leq, valid, start, states', states, l);
  }

  lemma SameProblem<D(!new)>(
    a: Analysis<Loc, D>, less: (Loc, Loc) -> bool, leq: (D, D) -> bool, valid: D -> bool,
    start: Loc, states: map<Loc, D>, states': map<Loc, D>, l: Loc)
    requires IsLeast(a, leq, valid, start, states) && IsLeast(a.(less := less), leq, valid, start, states')
    ensures leq(StateAt(a, states, l), StateAt(a, states', l))
    ensures valid(StateAt(a, states, l))
  {
    var a' := a.(less := less);
    var x := Result(a, states');
    var x' := Result(a', states');
    assert forall k :: x(k) == x'(k);
    assert PostFixed(a, leq, valid, start, x);
    var y := Result(a, states);
    assert valid(y(l));
  }
}
