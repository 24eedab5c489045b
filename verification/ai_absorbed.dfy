/** The same for a classical analysis of one function: what flows along an edge
    from the final state of its source is in the final state of its target. */
module AiAbsorbed {
  import opened Options
  import opened GotoProgram
  import opened AiSpec
  import opened AiFlow
  import opened Ahistorical
  import opened AiLeast

  ghost predicate Rules<D(!new)>(a: Analysis<Loc, D>, leq: (D, D) -> bool, valid: D -> bool, kept: D -> bool) {
    GrowthRules(a, leq, valid, kept) && OrderLaws(a) && IsAhistorical(a) && Intraprocedural(a)
  }

  /** What flows from `l` to `to` is in the state of `to`. */
  ghost predicate Absorbed<D>(a: Analysis<Loc, D>, leq: (D, D) -> bool, states: map<Loc, D>, l: Loc, to: Loc) {
    l in states && !a.isBottom(states[l]) ==> to in states && leq(a.transform(l, to, states[l]), states[to])
  }

  /** A bare location is never refused, and its only successor is the target. */
  lemma PassedOnAbsorbed<D(!new)>(a: Analysis<Loc, D>, leq: (D, D) -> bool, states: map<Loc, D>, l: Loc, to: Loc)
    requires IsAhistorical(a) && PassedOn(a, leq, states, l, to)
    ensures Absorbed(a, leq, states, l, to)
  {
  }

  /** The result of a whole analysis absorbs the flow along every edge. */
  lemma RunAbsorbed<D(!new)>(
    a: Analysis<Loc, D>, leq: (D, D) -> bool, valid: D -> bool, kept: D -> bool,
    fuel: nat, start: Loc, states: map<Loc, D>)
    requires Rules(a, leq, valid, kept) && RunF(a, fuel, map[], start) == Some(states)
    ensures AllValid(valid, states) && AllValid(kept, states)
    ensures start in states && leq(a.entry, states[start])
    ensures forall l, to :: a.prog.LocalStep(l, to) ==> Absorbed(a, leq, states, l, to)
  {
    RunSettled(a, leq, valid, kept, fuel, start, states);
    hide GrowthRules, RunF, PassedOn, Absorbed;
    forall l, to | a.prog.LocalStep(l, to) ensures Absorbed(a, leq, states, l, to) {
      if l in states {
        assert Settled(a, leq, states, l) && Onward(a.prog, a.loc(l), to);
      } else {
        Unstored(a, leq, states, l, to);
      }
      PassedOnAbsorbed(a, leq, states, l, to);
    }
  }
}
