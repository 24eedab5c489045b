/** Concrete executions with matched calls and returns, and what it means for
    stored states to cover them. */
module AiRuns {
  import opened Options
  import opened GotoProgram
  import opened AiSpec

  /** The concrete side of an analysis: the transition relation of the program
      on concrete states, the states a domain element stands for, the call
      stacks a history stands for, and the initial states. */
  datatype Semantics<!H, !D, !S> = Semantics(
    edge: (Loc, Loc, S, S) -> bool,
    gamma: (D, S) -> bool,
    represents: (H, seq<Loc>) -> bool,
    init: S -> bool)

  datatype Config<S> = Config(stack: seq<Loc>, loc: Loc, state: S)

  ghost predicate StepsTo<H, D, S>(a: Analysis<H, D>, sem: Semantics<H, D, S>, c: Config<S>, c': Config<S>) {
    a.prog.Flow(c.loc, c.stack, c'.loc, c'.stack) && sem.edge(c.loc, c'.loc, c.state, c'.state)
  }

  /** An execution from the first instruction `start` with an empty stack. */
  ghost predicate IsRun<H, D, S>(a: Analysis<H, D>, sem: Semantics<H, D, S>, start: Loc, run: seq<Config<S>>) {
    && |run| > 0 && run[0].stack == [] && run[0].loc == start && sem.init(run[0].state)
    && forall i :: 0 <= i < |run| - 1 ==> StepsTo(a, sem, run[i], run[i + 1])
  }

  /** `h` stands for `stack`, and `s` is in its stored state. */
  ghost predicate Holds<H, D, S>(
    a: Analysis<H, D>, sem: Semantics<H, D, S>, states: map<H, D>, h: H, stack: seq<Loc>, s: S)
  {
    h in states && sem.represents(h, stack) && a.prog.ValidStack(stack, a.loc(h)) && sem.gamma(states[h], s)
  }

  /** Some stored state at `l` in the context `stack` contains `s`. */
  ghost predicate Covered<H(!new), D, S>(
    a: Analysis<H, D>, sem: Semantics<H, D, S>, states: map<H, D>, stack: seq<Loc>, l: Loc, s: S)
  {
    exists h :: a.loc(h) == l && Holds(a, sem, states, h, stack, s)
  }

  // ----- laws that relate the two sides -----

  /** A sound transformer, an upper-bound merge, an empty bottom and an entry
      state that covers the initial states. */
  ghost predicate SoundDomain<H(!new), D(!new), S(!new)>(
    a: Analysis<H, D>, sem: Semantics<H, D, S>, valid: D -> bool)
  {
    && (forall d, s :: a.isBottom(d) ==> !sem.gamma(d, s))
    && (forall s :: sem.init(s) ==> sem.gamma(a.entry, s))
    && (forall h, h', d, s, s' :: valid(d) && sem.gamma(d, s) && sem.edge(a.loc(h), a.loc(h'), s, s') ==>
          sem.gamma(a.transform(h, h', d), s'))
    && (forall d, d', h, h', s :: valid(d) && valid(d') && (sem.gamma(d, s) || sem.gamma(d', s)) ==>
          sem.gamma(a.merge(d, d', h, h').state, s))
  }

  /** The caller history handed to a return step is at the innermost call. */
  ghost predicate Returns<H, D>(a: Analysis<H, D>, stack: seq<Loc>, caller: Option<H>) {
    caller.Some? ==> |stack| > 0 && a.loc(caller.value) == stack[|stack| - 1]
  }

  /** `step` never blocks an edge that the call stack allows, and its result
      stands for the new stack. */
  ghost predicate SoundHistory<H(!new), D, S>(a: Analysis<H, D>, sem: Semantics<H, D, S>) {
    && (forall l :: sem.represents(a.epoch(l), []))
    && (forall h, stack, to, stack', others, caller
        {:trigger sem.represents(h, stack), a.prog.Flow(a.loc(h), stack, to, stack'), a.step(h, to, others, caller)} ::
          && sem.represents(h, stack) && a.prog.ValidStack(stack, a.loc(h))
          && a.prog.Flow(a.loc(h), stack, to, stack') && a.prog.Edge(a.loc(h), to, LocOf(a, caller))
          && Returns(a, stack, caller) && AllAt(a, others, to)
          ==> var next := a.step(h, to, others, caller);
              !next.Blocked? && sem.represents(next.to, stack'))
  }

  // ----- balanced walks -----

  /** How a walk inside one function got to its end: by a local step, or by a
      call with the whole walk of the callee. */
  datatype Walk<S> =
    | Start
    | Local(prev: Walk<S>, l: Loc, s: S)
    | Through(prev: Walk<S>, l: Loc, s: S, s1: S, inner: Walk<S>, s2: S)

  ghost predicate Walks<H, D, S>(
    a: Analysis<H, D>, sem: Semantics<H, D, S>, w: Walk<S>, l0: Loc, s0: S, l: Loc, s: S)
    decreases w
  {
    match w
    case Start => l == l0 && s == s0
    case Local(prev, lp, sp) =>
      Walks(a, sem, prev, l0, s0, lp, sp) && a.prog.LocalStep(lp, l) && sem.edge(lp, l, sp, s)
    case Through(prev, c, sc, s1, inner, s2) =>
      && Walks(a, sem, prev, l0, s0, c, sc) && a.prog.Descends(c) && l == c + 1
      && sem.edge(c, a.prog.Entry(c), sc, s1)
      && Walks(a, sem, inner, a.prog.Entry(c), s1, a.prog.Exit(c), s2)
      && sem.edge(a.prog.Exit(c), c + 1, s2, s)
  }

  /** Control can go from `l0` to `l` with every call on the way returned. */
  ghost predicate Balanced<H, D, S(!new)>(a: Analysis<H, D>, sem: Semantics<H, D, S>, l0: Loc, s0: S, l: Loc, s: S) {
    exists w :: Walks(a, sem, w, l0, s0, l, s)
  }

  /** A call at `l` can be completed, from `s` at the call to `s'` after it. */
  ghost predicate CallReturns<H, D, S(!new)>(a: Analysis<H, D>, sem: Semantics<H, D, S>, l: Loc, s: S, s': S) {
    a.prog.Descends(l) &&
    exists s1, s2 ::
      && sem.edge(l, a.prog.Entry(l), s, s1)
      && Balanced(a, sem, a.prog.Entry(l), s1, a.prog.Exit(l), s2)
      && sem.edge(a.prog.Exit(l), l + 1, s2, s')
  }

  /** Without its concrete states a walk is a way through the function. */
  lemma {:induction false} WalkLeads<H(!new), D, S(!new)>(
    a: Analysis<H, D>, sem: Semantics<H, D, S>, w: Walk<S>, l0: Loc, s0: S, l: Loc, s: S) returns (r: Route)
    requires Walks(a, sem, w, l0, s0, l, s)
    ensures a.prog.Traverses(r, l0, l)
    decreases w
  {
    match w
    case Start => r := Here;
    case Local(prev, lp, sp) =>
      var r0 := WalkLeads(a, sem, prev, l0, s0, lp, sp);
      r := Along(r0, lp);
    case Through(prev, c, sc, s1, inner, s2) =>
      var r0 := WalkLeads(a, sem, prev, l0, s0, c, sc);
      var r1 := WalkLeads(a, sem, inner, a.prog.Entry(c), s1, a.prog.Exit(c), s2);
      r := Past(r0, c, r1);
  }

  lemma ReturnsCanReturn<H(!new), D, S(!new)>(a: Analysis<H, D>, sem: Semantics<H, D, S>, l: Loc, s: S, s': S)
    requires CallReturns(a, sem, l, s, s')
    ensures a.prog.CanReturn(l)
  {
    hide Balanced;
    var s1, s2 :|
      && sem.edge(l, a.prog.Entry(l), s, s1)
      && Balanced(a, sem, a.prog.Entry(l), s1, a.prog.Exit(l), s2)
      && sem.edge(a.prog.Exit(l), l + 1, s2, s');
    BalancedLeads(a, sem, a.prog.Entry(l), s1, a.prog.Exit(l), s2);
  }

  lemma BalancedLeads<H(!new), D, S(!new)>(
    a: Analysis<H, D>, sem: Semantics<H, D, S>, l0: Loc, s0: S, l: Loc, s: S)
    requires Balanced(a, sem, l0, s0, l, s)
    ensures exists r :: a.prog.Traverses(r, l0, l)
  {
    var w :| Walks(a, sem, w, l0, s0, l, s);
    var r := WalkLeads(a, sem, w, l0, s0, l, s);
  }

  // ----- closed states -----

  /** Local steps from the state of `h` are covered. */
  ghost predicate ClosedLocal<H(!new), D, S(!new)>(
    a: Analysis<H, D>, sem: Semantics<H, D, S>, states: map<H, D>, h: H)
  {
    forall stack, s, to, s' ::
      Holds(a, sem, states, h, stack, s) && a.prog.LocalStep(a.loc(h), to) && sem.edge(a.loc(h), to, s, s')
      ==> Covered(a, sem, states, stack, to, s')
  }

  /** Calls from the state of `h` are covered at the head of the callee. */
  ghost predicate ClosedCall<H(!new), D, S(!new)>(a: Analysis<H, D>, sem: Semantics<H, D, S>, states: map<H, D>, h: H) {
    a.prog.Descends(a.loc(h)) ==>
    forall stack, s, s1 ::
      Holds(a, sem, states, h, stack, s) && sem.edge(a.loc(h), a.prog.Entry(a.loc(h)), s, s1)
      ==> Covered(a, sem, states, stack + [a.loc(h)], a.prog.Entry(a.loc(h)), s1)
  }

  /** Whatever a completed call from the state of `h` returns is covered. */
  ghost predicate ClosedReturn<H(!new), D, S(!new)>(
    a: Analysis<H, D>, sem: Semantics<H, D, S>, states: map<H, D>, h: H)
  {
    forall stack, s, s' ::
      Holds(a, sem, states, h, stack, s) && CallReturns(a, sem, a.loc(h), s, s')
      ==> Covered(a, sem, states, stack, a.loc(h) + 1, s')
  }

  ghost predicate Closed<H(!new), D, S(!new)>(a: Analysis<H, D>, sem: Semantics<H, D, S>, states: map<H, D>, h: H) {
    ClosedLocal(a, sem, states, h) && ClosedCall(a, sem, states, h) && ClosedReturn(a, sem, states, h)
  }

  /** All histories at locations of function `f` are closed. */
  ghost predicate FunctionClosed<H(!new), D, S(!new)>(
    a: Analysis<H, D>, sem: Semantics<H, D, S>, states: map<H, D>, f: Fid)
  {
    forall h :: h in states && a.loc(h) in a.prog.owner && a.prog.owner[a.loc(h)] == f ==> Closed(a, sem, states, h)
  }

  lemma SameFunction(prog: Program, l: Loc, to: Loc)
    requires prog.WellFormed() && l in prog.owner && (prog.LocalStep(l, to) || (prog.Descends(l) && to == l + 1))
    ensures to in prog.owner && prog.owner[to] == prog.owner[l]
  {
  }

  lemma LocalCovered<H(!new), D, S(!new)>(
    a: Analysis<H, D>, sem: Semantics<H, D, S>, states: map<H, D>, stack: seq<Loc>, l: Loc, s: S, to: Loc, s': S)
    requires l in a.prog.owner && FunctionClosed(a, sem, states, a.prog.owner[l])
    requires Covered(a, sem, states, stack, l, s) && a.prog.LocalStep(l, to) && sem.edge(l, to, s, s')
    ensures Covered(a, sem, states, stack, to, s')
  {
    hide Holds;
    hide Program.LocalStep;
    var h :| a.loc(h) == l && Holds(a, sem, states, h, stack, s);
    HoldsStored(a, sem, states, h, stack, s);
    assert ClosedLocal(a, sem, states, h);
  }

  lemma CallCovered<H(!new), D, S(!new)>(
    a: Analysis<H, D>, sem: Semantics<H, D, S>, states: map<H, D>, stack: seq<Loc>, l: Loc, s: S, s': S)
    requires l in a.prog.owner && FunctionClosed(a, sem, states, a.prog.owner[l])
    requires Covered(a, sem, states, stack, l, s) && CallReturns(a, sem, l, s, s')
    ensures Covered(a, sem, states, stack, l + 1, s')
  {
    hide Holds, CallReturns;
    var h :| a.loc(h) == l && Holds(a, sem, states, h, stack, s);
    HoldsStored(a, sem, states, h, stack, s);
    assert ClosedReturn(a, sem, states, h);
  }

  /** A balanced walk stays in its function and stays covered. */
  lemma {:induction false} WalkCovered<H(!new), D, S(!new)>(
    a: Analysis<H, D>, sem: Semantics<H, D, S>, states: map<H, D>,
    stack: seq<Loc>, w: Walk<S>, l0: Loc, s0: S, l: Loc, s: S)
    requires a.prog.WellFormed() && l0 in a.prog.owner && FunctionClosed(a, sem, states, a.prog.owner[l0])
    requires Covered(a, sem, states, stack, l0, s0) && Walks(a, sem, w, l0, s0, l, s)
    ensures l in a.prog.owner && a.prog.owner[l] == a.prog.owner[l0] && Covered(a, sem, states, stack, l, s)
    decreases w
  {
    hide FunctionClosed, Covered;
    hide Program.WellFormed, Program.LocalStep, Program.Descends;
    match w
    case Start =>
    case Local(prev, lp, sp) =>
      WalkCovered(a, sem, states, stack, prev, l0, s0, lp, sp);
      SameFunction(a.prog, lp, l);
      LocalCovered(a, sem, states, stack, lp, sp, l, s);
    case Through(prev, c, sc, s1, inner, s2) =>
      WalkCovered(a, sem, states, stack, prev, l0, s0, c, sc);
      SameFunction(a.prog, c, l);
      assert Balanced(a, sem, a.prog.Entry(c), s1, a.prog.Exit(c), s2);
      assert CallReturns(a, sem, c, sc, s);
      CallCovered(a, sem, states, stack, c, sc, s);
  }

  lemma HoldsStored<H, D, S>(
    a: Analysis<H, D>, sem: Semantics<H, D, S>, states: map<H, D>, h: H, stack: seq<Loc>, s: S)
    requires Holds(a, sem, states, h, stack, s)
    ensures h in states
  {
  }

  // ----- from closed states to covered executions -----

  /** The pending calls of an execution: the state at each call and the state
      in which its callee started. */
  datatype Frame<S> = Frame(atCall: S, atEntry: S)

  /** The execution that reached (`stack`, `l`, `s`) decomposes into balanced
      walks joined by the pending calls. */
  ghost predicate Framed<H, D, S(!new)>(
    a: Analysis<H, D>, sem: Semantics<H, D, S>, start: Loc, s0: S, frames: seq<Frame<S>>, stack: seq<Loc>, l: Loc, s: S)
    decreases |stack|
  {
    |frames| == |stack| &&
    if |stack| == 0 then
      Balanced(a, sem, start, s0, l, s)
    else
      var f, c := frames[|frames| - 1], stack[|stack| - 1];
      && Framed(a, sem, start, s0, frames[..|frames| - 1], stack[..|stack| - 1], c, f.atCall)
      && a.prog.Descends(c) && sem.edge(c, a.prog.Entry(c), f.atCall, f.atEntry)
      && Balanced(a, sem, a.prog.Entry(c), f.atEntry, l, s)
  }

  lemma BalancedLocal<H, D, S(!new)>(
    a: Analysis<H, D>, sem: Semantics<H, D, S>, l0: Loc, s0: S, l: Loc, s: S, to: Loc, s': S)
    requires Balanced(a, sem, l0, s0, l, s) && a.prog.LocalStep(l, to) && sem.edge(l, to, s, s')
    ensures Balanced(a, sem, l0, s0, to, s')
  {
    var w :| Walks(a, sem, w, l0, s0, l, s);
    assert Walks(a, sem, Walk.Local(w, l, s), l0, s0, to, s');
  }

  lemma BalancedStart<H, D, S(!new)>(a: Analysis<H, D>, sem: Semantics<H, D, S>, l: Loc, s: S)
    ensures Balanced(a, sem, l, s, l, s)
  {
    assert Walks(a, sem, Start, l, s, l, s);
  }

  /** A walk to a call, the walk of the callee to its end, and the return. */
  lemma BalancedReturn<H, D, S(!new)>(
    a: Analysis<H, D>, sem: Semantics<H, D, S>, l0: Loc, s0: S, c: Loc, sc: S, s1: S, s2: S, s: S)
    requires Balanced(a, sem, l0, s0, c, sc) && a.prog.Descends(c) && sem.edge(c, a.prog.Entry(c), sc, s1)
    requires Balanced(a, sem, a.prog.Entry(c), s1, a.prog.Exit(c), s2) && sem.edge(a.prog.Exit(c), c + 1, s2, s)
    ensures Balanced(a, sem, l0, s0, c + 1, s)
  {
    var w :| Walks(a, sem, w, l0, s0, c, sc);
    var inner :| Walks(a, sem, inner, a.prog.Entry(c), s1, a.prog.Exit(c), s2);
    assert Walks(a, sem, Through(w, c, sc, s1, inner, s2), l0, s0, c + 1, s);
  }

  lemma FramedStep<H, D, S(!new)>(
    a: Analysis<H, D>, sem: Semantics<H, D, S>, start: Loc, s0: S, frames: seq<Frame<S>>, c: Config<S>, c': Config<S>)
    returns (frames': seq<Frame<S>>)
    requires Framed(a, sem, start, s0, frames, c.stack, c.loc, c.state) && StepsTo(a, sem, c, c')
    ensures Framed(a, sem, start, s0, frames', c'.stack, c'.loc, c'.state)
  {
    hide Balanced;
    hide Program.LocalStep, Program.Descends;
    var n := |c.stack|;
    if a.prog.LocalStep(c.loc, c'.loc) && c'.stack == c.stack {
      frames' := frames;
      if n == 0 {
        BalancedLocal(a, sem, start, s0, c.loc, c.state, c'.loc, c'.state);
      } else {
        BalancedLocal(
          a, sem, a.prog.Entry(c.stack[n - 1]), frames[n - 1].atEntry, c.loc, c.state, c'.loc, c'.state);
      }
    } else if a.prog.Descends(c.loc) && c'.loc == a.prog.Entry(c.loc) && c'.stack == c.stack + [c.loc] {
      frames' := frames + [Frame(c.state, c'.state)];
      assert frames'[..n] == frames && c'.stack[..n] == c.stack;
      BalancedStart(a, sem, c'.loc, c'.state);
    } else {
      frames' := frames[..n - 1];
      var call, f := c.stack[n - 1], frames[n - 1];
      assert Framed(a, sem, start, s0, frames', c'.stack, call, f.atCall);
      if n == 1 {
        BalancedReturn(a, sem, start, s0, call, f.atCall, f.atEntry, c.state, c'.state);
      } else {
        BalancedReturn(
          a, sem, a.prog.Entry(c.stack[n - 2]), frames[n - 2].atEntry, call, f.atCall, f.atEntry, c.state, c'.state);
      }
    }
  }

  lemma {:induction false} FramedCovered<H(!new), D, S(!new)>(
    a: Analysis<H, D>, sem: Semantics<H, D, S>, states: map<H, D>,
    start: Loc, s0: S, frames: seq<Frame<S>>, stack: seq<Loc>, l: Loc, s: S)
    requires a.prog.WellFormed() && start in a.prog.owner
    requires forall f :: FunctionClosed(a, sem, states, f)
    requires Covered(a, sem, states, [], start, s0) && Framed(a, sem, start, s0, frames, stack, l, s)
    ensures l in a.prog.owner && Covered(a, sem, states, stack, l, s)
    decreases |stack|
  {
    hide Holds, Covered, Walks, FunctionClosed, Balanced;
    hide Program.WellFormed, Program.LocalStep, Program.Traverses, Program.ValidStack;
    if |stack| == 0 {
      BalancedCovered(a, sem, states, stack, start, s0, l, s);
    } else {
      var n, f, c := |stack|, frames[|frames| - 1], stack[|stack| - 1];
      FramedCovered(a, sem, states, start, s0, frames[..n - 1], stack[..n - 1], c, f.atCall);
      FrameCovered(a, sem, states, stack[..n - 1], c, f.atCall, f.atEntry, l, s);
      assert stack[..n - 1] + [c] == stack;
    }
  }

  lemma BalancedCovered<H(!new), D, S(!new)>(
    a: Analysis<H, D>, sem: Semantics<H, D, S>, states: map<H, D>,
    stack: seq<Loc>, l0: Loc, s0: S, l: Loc, s: S)
    requires a.prog.WellFormed() && l0 in a.prog.owner && FunctionClosed(a, sem, states, a.prog.owner[l0])
    requires Covered(a, sem, states, stack, l0, s0) && Balanced(a, sem, l0, s0, l, s)
    ensures l in a.prog.owner && Covered(a, sem, states, stack, l, s)
  {
    hide Covered, FunctionClosed, Walks;
    hide Program.WellFormed;
    var w :| Walks(a, sem, w, l0, s0, l, s);
    WalkCovered(a, sem, states, stack, w, l0, s0, l, s);
  }

  /** One frame: a covered call and the walk in the callee so far. */
  lemma FrameCovered<H(!new), D, S(!new)>(
    a: Analysis<H, D>, sem: Semantics<H, D, S>, states: map<H, D>,
    stack: seq<Loc>, c: Loc, atCall: S, atEntry: S, l: Loc, s: S)
    requires a.prog.WellFormed() && c in a.prog.owner && (forall f :: FunctionClosed(a, sem, states, f))
    requires Covered(a, sem, states, stack, c, atCall) && a.prog.Descends(c)
    requires sem.edge(c, a.prog.Entry(c), atCall, atEntry) && Balanced(a, sem, a.prog.Entry(c), atEntry, l, s)
    ensures l in a.prog.owner && Covered(a, sem, states, stack + [c], l, s)
  {
    hide Holds, Balanced;
    hide Program.LocalStep, Program.Traverses, Program.ValidStack;
    assert FunctionClosed(a, sem, states, a.prog.owner[c]);
    CallEntered(a, sem, states, stack, c, atCall, atEntry);
    assert a.prog.Entry(c) in a.prog.owner;
    hide FunctionClosed, Covered;
    BalancedCovered(a, sem, states, stack + [c], a.prog.Entry(c), atEntry, l, s);
  }

  lemma CallEntered<H(!new), D, S(!new)>(
    a: Analysis<H, D>, sem: Semantics<H, D, S>, states: map<H, D>, stack: seq<Loc>, c: Loc, s: S, s1: S)
    requires c in a.prog.owner && FunctionClosed(a, sem, states, a.prog.owner[c])
    requires Covered(a, sem, states, stack, c, s) && a.prog.Descends(c) && sem.edge(c, a.prog.Entry(c), s, s1)
    ensures Covered(a, sem, states, stack + [c], a.prog.Entry(c), s1)
  {
    hide Holds;
    hide Program.LocalStep, Program.Traverses, Program.ValidStack;
    var h :| a.loc(h) == c && Holds(a, sem, states, h, stack, s);
    HoldsStored(a, sem, states, h, stack, s);
    assert ClosedCall(a, sem, states, h);
  }

  lemma {:induction false} RunFramed<H(!new), D, S(!new)>(
    a: Analysis<H, D>, sem: Semantics<H, D, S>, start: Loc, run: seq<Config<S>>, i: nat)
    returns (frames: seq<Frame<S>>)
    requires IsRun(a, sem, start, run) && i < |run|
    ensures Framed(a, sem, start, run[0].state, frames, run[i].stack, run[i].loc, run[i].state)
    decreases i
  {
    if i == 0 {
      frames := [];
      assert Walks(a, sem, Start, start, run[0].state, start, run[0].state);
    } else {
      frames := RunFramed(a, sem, start, run, i - 1);
      assert StepsTo(a, sem, run[i - 1], run[i - 1 + 1]);
      frames := FramedStep(a, sem, start, run[0].state, frames, run[i - 1], run[i]);
    }
  }

  /** If every stored history is closed and the initial states are covered, then
      every configuration of every execution is covered, in its own context. */
  lemma RunCovered<H(!new), D, S(!new)>(
    a: Analysis<H, D>, sem: Semantics<H, D, S>, states: map<H, D>, start: Loc, run: seq<Config<S>>, i: nat)
    requires a.prog.WellFormed() && start in a.prog.owner
    requires forall f :: FunctionClosed(a, sem, states, f)
    requires IsRun(a, sem, start, run) && i < |run| && Covered(a, sem, states, [], start, run[0].state)
    ensures Covered(a, sem, states, run[i].stack, run[i].loc, run[i].state)
  {
    var frames := RunFramed(a, sem, start, run, i);
    FramedCovered(a, sem, states, start, run[0].state, frames, run[i].stack, run[i].loc, run[i].state);
  }
}
