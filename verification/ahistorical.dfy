/** The simplest history, a bare location, which gives the classical analysis
    with one state per location. */
module Ahistorical {
  import opened Options
  import opened GotoProgram
  import opened AiSpec
  import opened AiRuns

  /** Histories at one location are indistinguishable, so they always merge. */
  function StepLocation(to: Loc, others: set<Loc>): Step<Loc> {
    if others == {} then New(to) else Merged(to)
  }

  ghost predicate IsAhistorical<D(!new)>(a: Analysis<Loc, D>) {
    && (forall l :: a.loc(l) == l)
    && (forall l :: a.epoch(l) == l)
    && (forall h, to, others, caller :: a.step(h, to, others, caller) == StepLocation(to, others))
  }

  /** An analysis with one state per location, visited in location order. */
  function Classic<D>(
    prog: Program, bottom: D, entry: D, isBottom: D -> bool,
    transform: (Loc, Loc, D) -> D, merge: (D, D, Loc, Loc) -> Join<D>): (a: Analysis<Loc, D>)
  {
    Analysis(
      prog, (l: Loc) => l, (l: Loc) => l, (x: Loc, y: Loc) => x < y,
      (h: Loc, to: Loc, others: set<Loc>, caller: Option<Loc>) => StepLocation(to, others),
      bottom, entry, isBottom, transform, merge)
  }

  ghost function Listed(locs: set<Loc>): (s: seq<Loc>)
    ensures forall l :: l in s <==> l in locs
    decreases |locs|
  {
    if locs == {} then [] else var l :| l in locs; [l] + Listed(locs - {l})
  }

  /** Bare locations satisfy the contract of histories, there are finitely many,
      and they block nothing: each stands for every call stack. */
  lemma AhistoricalLaws<D(!new), S>(a: Analysis<Loc, D>, sem: Semantics<Loc, D, S>)
    requires IsAhistorical(a) && a.prog.WellFormed() && forall h, stack :: sem.represents(h, stack)
    ensures StepLaws(a) && UniverseLaws(a, Listed(a.prog.code.Keys)) && SoundHistory(a, sem)
  {
    hide UniverseLaws;
    LocationsFinite(a);
    forall to, others: set<Loc> | AllAt(a, others, to) && others != {}
      ensures to in others
    {
      var o :| o in others;
      assert a.loc(o) == to;
    }
  }

  lemma LocationsFinite<D(!new)>(a: Analysis<Loc, D>)
    requires IsAhistorical(a) && a.prog.WellFormed()
    ensures UniverseLaws(a, Listed(a.prog.code.Keys))
  {
  }

  // ----- concrete runs -----

  /** At most one history is registered at a location. */
  lemma TracesAt<D(!new)>(a: Analysis<Loc, D>, states: map<Loc, D>, l: Loc)
    requires IsAhistorical(a)
    ensures Traces(a, states, l) == if l in states then {l} else {}
  {
  }

  /** The first visit of a fixed point. */
  lemma FixOne<H(!new), D>(a: Analysis<H, D>, fuel: nat, w: Work<H, D>, p: H, w': Work<H, D>)
    requires OrderLaws(a) && IsFirst(a, w.pending, p)
    requires VisitF(a, fuel, Work(w.states, w.pending - {p}), p) == Some(w')
    ensures FixF(a, fuel + 1, w) == FixF(a, fuel, w')
  {
    FirstIsLeast(a, w.pending);
  }

  lemma NothingPending<H(!new), D>(a: Analysis<H, D>, fuel: nat, states: map<H, D>)
    ensures FixF(a, fuel, Work(states, {})) == Some(states)
  {
  }
}
