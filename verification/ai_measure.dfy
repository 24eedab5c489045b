/** Why the interpreter terminates: every queued history lowers a sum of ranks
    over the finitely many histories. */
module AiMeasure {
  import opened Options
  import opened GotoProgram
  import opened AiSpec

  ghost function Weight<H, D>(a: Analysis<H, D>, rank: D -> nat, states: map<H, D>, h: H): nat {
    if h in states then rank(states[h]) else rank(a.bottom) + 1
  }

  /** An unregistered history counts more than a bottom state. */
  ghost function Measure<H, D>(a: Analysis<H, D>, rank: D -> nat, universe: seq<H>, states: map<H, D>): nat {
    if universe == [] then 0 else Weight(a, rank, states, universe[0]) + Measure(a, rank, universe[1..], states)
  }

  lemma {:induction false} MeasureDrops<H(!new), D>(
    a: Analysis<H, D>, rank: D -> nat, universe: seq<H>, states: map<H, D>, states': map<H, D>, h: H)
    requires forall x :: Weight(a, rank, states', x) <= Weight(a, rank, states, x)
    ensures Measure(a, rank, universe, states') <= Measure(a, rank, universe, states)
    ensures h in universe && Weight(a, rank, states', h) < Weight(a, rank, states, h)
            ==> Measure(a, rank, universe, states') < Measure(a, rank, universe, states)
  {
    if universe == [] {
    } else {
      MeasureDrops(a, rank, universe[1..], states, states', h);
    }
  }

  /** For ranks that count the elements of sets. */
  lemma SubsetSize<T>(s: set<T>, t: set<T>)
    requires s <= t
    ensures |s| <= |t| && (s != t ==> |s| < |t|)
  {
    assert t == s + (t - s);
    if s != t {
      var x :| x in t && x !in s;
      assert x in t - s;
    }
  }

  ghost predicate Within<H(!new), D>(universe: seq<H>, states: map<H, D>) {
    forall h :: h in states ==> h in universe
  }

  /** An edge stays in the universe; if it queues a history the measure drops. */
  lemma EdgeMeasure<H(!new), D(!new)>(
    a: Analysis<H, D>, valid: D -> bool, rank: D -> nat, universe: seq<H>,
    states: map<H, D>, p: H, to: Loc, caller: Option<H>)
    requires StepLaws(a) && DomainLaws(a, valid) && HeightLaws(a, valid, rank) && UniverseLaws(a, universe)
    requires AllValid(valid, states) && Within(universe, states) && Live(a, states, {p})
    requires a.prog.Edge(a.loc(p), to, LocOf(a, caller))
    ensures var e := EdgeF(a, states, p, to, caller);
            && Within(universe, e.states)
            && Measure(a, rank, universe, e.states) <= Measure(a, rank, universe, states)
            && (e.queued.Some? ==> Measure(a, rank, universe, e.states) < Measure(a, rank, universe, states))
  {
    var e := EdgeF(a, states, p, to, caller);
    var others := Traces(a, states, to);
    assert AllAt(a, others, to);
    var next := a.step(p, to, others, caller);
    if next.Blocked? {
      MeasureDrops(a, rank, universe, states, e.states, p);
    } else {
      assert p in states && !a.isBottom(states[p]);
      var n := next.to;
      assert n in universe;
      var values := a.transform(p, n, states[p]);
      var target := Touch(a, states, n);
      assert valid(values) && valid(target[n]);
      assert e.states == target[n := a.merge(target[n], values, p, n).state];
      assert e.queued.Some? ==> Weight(a, rank, e.states, n) < Weight(a, rank, states, n);
      MeasureDrops(a, rank, universe, states, e.states, n);
    }
  }
}
