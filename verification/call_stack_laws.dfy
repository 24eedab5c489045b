/** The call-stack history plugged into the abstract interpreter. */
module CallStackLaws {
  import opened Options
  import opened GotoProgram
  import opened AiSpec
  import opened AiRuns
  import opened AiSoundness
  import opened CallStackHistory
  import opened Ahistorical

  ghost predicate IsCallStack<D(!new)>(a: Analysis<Entry, D>, limit: nat) {
    && (forall e: Entry :: e.Entry? ==> a.loc(e) == e.loc)
    && (forall l :: a.epoch(l) == Entry(l, Null))
    && (forall x, y :: a.less(x, y) <==> EntryLess(x, y))
    && (forall e, to, others, caller :: a.step(e, to, others, caller) == StepEntry(a.prog, limit, e, to, others))
  }

  /** A history stands for exactly the call stack it records. */
  ghost predicate RecordsStack<D(!new), S(!new)>(sem: Semantics<Entry, D, S>) {
    forall e: Entry, stack :: sem.represents(e, stack) <==> e.Entry? && Sites(e.caller) == stack
  }

  lemma CallStackContract<D(!new)>(a: Analysis<Entry, D>, limit: nat)
    requires IsCallStack(a, limit)
    ensures OrderLaws(a) && StepLaws(a)
  {
    forall x ensures !a.less(x, x) {
      LessIrreflexive(x);
    }
    forall x, y, z | a.less(x, y) && a.less(y, z) ensures a.less(x, z) {
      LessTransitive(x, y, z);
    }
    forall x, y ensures x == y || a.less(x, y) || a.less(y, x) {
      LessTotal(x, y);
    }
  }

  lemma {:induction false} CountInSites(e: Entry, l: Loc)
    requires Count(e, l) > 0
    ensures l in Sites(e)
  {
    if e.loc == l {
    } else {
      CountInSites(e.caller, l);
    }
  }

  /** In a program without recursion no call site is its own caller. */
  lemma NotOnStack(prog: Program, depth: Fid -> nat, e: Entry)
    requires prog.WellFormed() && prog.Ranked(depth) && e.Entry? && prog.ValidStack(Sites(e.caller), e.loc)
    ensures Count(e.caller, e.loc) == 0
  {
    hide Program.WellFormed, Program.Ranked, Program.ValidStack;
    if Count(e.caller, e.loc) > 0 {
      CountInSites(e.caller, e.loc);
      var stack := Sites(e.caller);
      var i :| 0 <= i < |stack| && stack[i] == e.loc;
      prog.StackDepths(stack, e.loc, depth, i);
    }
  }

  /** So no stack is ever shortened, and a step of the history follows the call
      stack of the execution. */
  lemma NextFollowsFlow(prog: Program, limit: nat, depth: Fid -> nat, e: Entry, to: Loc, stack': seq<Loc>)
    requires prog.WellFormed() && prog.Ranked(depth) && e.Entry? && prog.ValidStack(Sites(e.caller), e.loc)
    requires prog.Flow(e.loc, Sites(e.caller), to, stack')
    ensures Next(prog, limit, e, to).Some? && Sites(Next(prog, limit, e, to).value.caller) == stack'
  {
    hide Program.ValidStack;
    var stack := Sites(e.caller);
    NotOnStack(prog, depth, e);
    if prog.Descends(e.loc) {
      FlowOfCall(prog, depth, e.loc, stack, to, stack');
    } else if e.caller.Entry? {
      hide Program.WellFormed, Program.Ranked;
      assert stack[|stack| - 1] == e.caller.loc && stack[..|stack| - 1] == Sites(e.caller.caller);
    }
  }

  lemma FlowOfCall(prog: Program, depth: Fid -> nat, l: Loc, stack: seq<Loc>, to: Loc, stack': seq<Loc>)
    requires prog.WellFormed() && prog.Ranked(depth) && prog.Descends(l) && prog.Flow(l, stack, to, stack')
    ensures stack' == stack + [l] && to != l + 1
  {
  }

  /** The history is sound for every program without recursion, whatever the
      recursion limit: it blocks no edge that the call stack allows. */
  lemma CallStackSound<D(!new), S(!new)>(
    a: Analysis<Entry, D>, sem: Semantics<Entry, D, S>, limit: nat, depth: Fid -> nat)
    requires IsCallStack(a, limit) && RecordsStack(sem) && a.prog.WellFormed() && a.prog.Ranked(depth)
    ensures SoundHistory(a, sem)
  {
    hide Program.WellFormed, Program.Ranked, Program.ValidStack, Program.Flow, Program.Edge, Next;
    forall e: Entry, stack, to, stack', others, caller |
      && sem.represents(e, stack) && a.prog.ValidStack(stack, a.loc(e)) && a.prog.Flow(a.loc(e), stack, to, stack')
      && a.prog.Edge(a.loc(e), to, LocOf(a, caller)) && Returns(a, stack, caller) && AllAt(a, others, to)
      ensures var next := a.step(e, to, others, caller); !next.Blocked? && sem.represents(next.to, stack')
    {
      NextFollowsFlow(a.prog, limit, depth, e, to, stack');
    }
  }

  /** Context-sensitive soundness: when an analysis with call-stack histories of a
      program without recursion returns, every configuration of every execution is
      in the state that is stored for exactly its call stack. */
  lemma ContextSound<D(!new), S(!new)>(
    a: Analysis<Entry, D>, sem: Semantics<Entry, D, S>, valid: D -> bool, limit: nat, depth: Fid -> nat,
    fuel: nat, start: Loc, states: map<Entry, D>, run: seq<Config<S>>, i: nat) returns (e: Entry)
    requires IsCallStack(a, limit) && RecordsStack(sem) && a.prog.WellFormed() && a.prog.Ranked(depth)
    requires DomainLaws(a, valid) && SoundDomain(a, sem, valid) && start in a.prog.code
    requires RunF(a, fuel, map[], start) == Some(states) && IsRun(a, sem, start, run) && i < |run|
    ensures e in states && e.Entry? && e.loc == run[i].loc && Sites(e.caller) == run[i].stack
    ensures sem.gamma(states[e], run[i].state)
  {
    hide Program.WellFormed, Program.Ranked, Program.ValidStack;
    hide DomainLaws, SoundDomain, SoundHistory, OrderLaws, StepLaws, RunF, IsRun;
    CallStackContract(a, limit);
    CallStackSound(a, sem, limit, depth);
    AcyclicRanked(a.prog, depth);
    hide Program.ReturnsRanked;
    RunSound(a, sem, valid, Everywhere(depth), fuel, start, states, run, i);
    e :| a.loc(e) == run[i].loc && Holds(a, sem, states, e, run[i].stack, run[i].state);
  }

  // ----- finitely many histories -----

  /** All chains over `sites` of length at most `n`. */
  ghost function Chains(sites: seq<Loc>, n: nat): seq<Entry> {
    if n == 0 then [Null] else Chains(sites, n - 1) + Stacks(sites, Chains(sites, n - 1))
  }

  /** Every location of `locs` on top of every chain of `chains`. */
  ghost function Stacks(locs: seq<Loc>, chains: seq<Entry>): seq<Entry> {
    if locs == [] then [] else
      seq(|chains|, i requires 0 <= i < |chains| => Entry(locs[0], chains[i])) + Stacks(locs[1..], chains)
  }

  lemma {:induction false} InStacks(locs: seq<Loc>, chains: seq<Entry>, l: Loc, c: Entry)
    requires l in locs && c in chains
    ensures Entry(l, c) in Stacks(locs, chains)
  {
    if locs[0] == l {
      var i :| 0 <= i < |chains| && chains[i] == c;
      assert seq(|chains|, i requires 0 <= i < |chains| => Entry(locs[0], chains[i]))[i] == Entry(l, c);
    } else {
      InStacks(locs[1..], chains, l, c);
    }
  }

  lemma {:induction false} InChains(sites: seq<Loc>, n: nat, c: Entry)
    requires Inside(c, sites) && Length(c) <= n
    ensures c in Chains(sites, n)
    decreases n
  {
    if c.Entry? {
      InChains(sites, n - 1, c.caller);
      InStacks(sites, Chains(sites, n - 1), c.loc, c.caller);
    } else if n > 0 {
      InChains(sites, n - 1, c);
    }
  }

  ghost function Filter(es: seq<Entry>, p: Entry -> bool): (r: seq<Entry>)
    ensures forall e :: e in r <==> e in es && p(e)
  {
    if es == [] then [] else (if p(es[0]) then [es[0]] else []) + Filter(es[1..], p)
  }

  /** The stacks of a program within the limit. */
  ghost predicate InLimit(prog: Program, limit: nat, sites: seq<Loc>, e: Entry) {
    Bounded(limit, e) && e.loc in prog.code && Inside(e.caller, sites)
  }

  ghost function Universe(prog: Program, limit: nat, sites: seq<Loc>): seq<Entry> {
    Filter(Stacks(Listed(prog.code.Keys), Chains(sites, limit * |sites|)), e => InLimit(prog, limit, sites, e))
  }

  lemma InUniverse(prog: Program, limit: nat, sites: seq<Loc>, e: Entry)
    requires Distinct(sites)
    ensures e in Universe(prog, limit, sites) <==> InLimit(prog, limit, sites, e)
  {
    if InLimit(prog, limit, sites, e) {
      LengthIsSum(e.caller, sites);
      SumBounded(e.caller, sites, limit);
      InChains(sites, limit * |sites|, e.caller);
      InStacks(Listed(prog.code.Keys), Chains(sites, limit * |sites|), e.loc, e.caller);
    }
  }

  /** A universe of stacks that is closed under the steps along edges. */
  ghost predicate ClosedStacks(prog: Program, limit: nat, u: seq<Entry>) {
    && (forall l :: l in prog.code ==> Entry(l, Null) in u)
    && (forall e :: e in u ==> e.Entry?)
    && (forall e, to, caller :: e in u && prog.Edge(e.loc, to, caller) && Next(prog, limit, e, to).Some? ==>
          Next(prog, limit, e, to).value in u)
  }

  lemma ClosedIsUniverse<D(!new)>(a: Analysis<Entry, D>, limit: nat, u: seq<Entry>)
    requires IsCallStack(a, limit) && ClosedStacks(a.prog, limit, u)
    ensures UniverseLaws(a, u)
  {
    hide Program.Edge, Next;
  }

  lemma NextInLimit(prog: Program, limit: nat, sites: seq<Loc>, e: Entry, to: Loc, caller: Option<Loc>)
    requires limit > 0 && prog.WellFormed() && ListsCalls(prog, sites) && InLimit(prog, limit, sites, e)
    requires prog.Edge(e.loc, to, caller) && Next(prog, limit, e, to).Some?
    ensures InLimit(prog, limit, sites, Next(prog, limit, e, to).value)
  {
    NextBounded(prog, limit, e, to);
    NextCallers(prog, limit, e, to, sites);
  }

  /** With a recursion limit the histories of any program, recursive or not, are
      finitely many. */
  lemma CallStackFinite<D(!new)>(a: Analysis<Entry, D>, limit: nat, sites: seq<Loc>)
    requires IsCallStack(a, limit) && limit > 0 && a.prog.WellFormed() && ListsCalls(a.prog, sites)
    ensures UniverseLaws(a, Universe(a.prog, limit, sites))
  {
    hide IsCallStack, UniverseLaws, Universe, Program.Edge, Program.WellFormed, Next;
    var u := Universe(a.prog, limit, sites);
    forall e ensures e in u <==> InLimit(a.prog, limit, sites, e) {
      InUniverse(a.prog, limit, sites, e);
    }
    forall e, to, caller | e in u && a.prog.Edge(e.loc, to, caller) && Next(a.prog, limit, e, to).Some?
      ensures Next(a.prog, limit, e, to).value in u
    {
      NextInLimit(a.prog, limit, sites, e, to, caller);
    }
    ClosedIsUniverse(a, limit, u);
  }

  /** The stacks that a program without recursion can have. */
  ghost function ValidStacks(prog: Program, sites: seq<Loc>): seq<Entry> {
    Filter(Universe(prog, 1, sites), (e: Entry) => e.Entry? && prog.ValidStack(Sites(e.caller), e.loc))
  }

  lemma {:induction false} ValidStackBounded(prog: Program, depth: Fid -> nat, e: Entry, sites: seq<Loc>)
    requires prog.WellFormed() && prog.Ranked(depth) && ListsCalls(prog, sites)
    requires e.Entry? && prog.ValidStack(Sites(e.caller), e.loc)
    ensures InLimit(prog, 1, sites, e)
    decreases e
  {
    if e.caller.Null? {
    } else {
      var stack := Sites(e.caller);
      assert stack == Sites(e.caller.caller) + [e.caller.loc];
      assert stack[..|stack| - 1] == Sites(e.caller.caller);
      ValidStackBounded(prog, depth, e.caller, sites);
      forall l ensures Count(e.caller, l) <= 1 {
        assert Count(e.caller.caller, l) <= 1;
        if l == e.caller.loc && Count(e.caller.caller, l) > 0 {
          CountInSites(e.caller.caller, l);
          var i :| 0 <= i < |Sites(e.caller.caller)| && Sites(e.caller.caller)[i] == l;
          prog.StackDepths(Sites(e.caller.caller), l, depth, i);
        }
      }
    }
  }

  /** Without recursion no limit is needed for finitely many histories. */
  lemma CallStackFiniteAcyclic<D(!new)>(a: Analysis<Entry, D>, limit: nat, depth: Fid -> nat, sites: seq<Loc>)
    requires IsCallStack(a, limit) && a.prog.WellFormed() && a.prog.Ranked(depth) && ListsCalls(a.prog, sites)
    ensures UniverseLaws(a, ValidStacks(a.prog, sites))
  {
    hide IsCallStack, UniverseLaws, Universe, Program.Edge, Program.WellFormed, Program.Ranked, Next;
    var u := ValidStacks(a.prog, sites);
    forall e: Entry ensures e in u <==> e.Entry? && a.prog.ValidStack(Sites(e.caller), e.loc) {
      InUniverse(a.prog, 1, sites, e);
      if e.Entry? && a.prog.ValidStack(Sites(e.caller), e.loc) {
        ValidStackBounded(a.prog, depth, e, sites);
      }
    }
    OwnersKnown(a.prog);
    forall e, to, caller | e in u && a.prog.Edge(e.loc, to, caller) && Next(a.prog, limit, e, to).Some?
      ensures Next(a.prog, limit, e, to).value in u
    {
      EdgeIsFlow(a.prog, limit, depth, e, to, caller);
    }
    ClosedIsUniverse(a, limit, u);
  }

  lemma OwnersKnown(prog: Program)
    requires prog.WellFormed()
    ensures prog.owner.Keys == prog.code.Keys
  {
  }

  /** An edge that the history accepts moves to a valid stack. */
  lemma EdgeIsFlow(prog: Program, limit: nat, depth: Fid -> nat, e: Entry, to: Loc, caller: Option<Loc>)
    requires prog.WellFormed() && prog.Ranked(depth) && e.Entry? && prog.ValidStack(Sites(e.caller), e.loc)
    requires prog.Edge(e.loc, to, caller) && Next(prog, limit, e, to).Some?
    ensures prog.ValidStack(Sites(Next(prog, limit, e, to).value.caller), to)
  {
    var stack := Sites(e.caller);
    var stack' := if prog.Descends(e.loc) then stack + [e.loc]
                  else if prog.code[e.loc].EndFunction? then stack[..|stack| - 1] else stack;
    assert prog.Flow(e.loc, stack, to, stack');
    prog.FlowKeepsStacksValid(e.loc, stack, to, stack');
    NextFollowsFlow(prog, limit, depth, e, to, stack');
  }
}
