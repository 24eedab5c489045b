/** Dominance in a flow graph: paths from the roots, dominators, and the order
    they form. */
module Dominance {

  /** A flow graph, walked from its roots along `next`; `prev` is the inverse. */
  datatype Flow = Flow(next: seq<seq<nat>>, prev: seq<seq<nat>>, roots: set<nat>) {
    ghost predicate WellFormed() {
      && |next| == |prev|
      && (forall v :: v in roots ==> v < |next|)
      && (forall u, v :: 0 <= u < |next| && v in next[u] ==> v < |next|)
      && (forall u, v :: 0 <= v < |prev| && u in prev[v] ==> u < |next|)
      && (forall u, v :: 0 <= u < |next| && 0 <= v < |next| ==> (v in next[u] <==> u in prev[v]))
    }
  }

  /** A path from a root. */
  ghost predicate Path(g: Flow, p: seq<nat>) {
    && |p| > 0 && p[0] in g.roots
    && (forall i :: 0 <= i < |p| ==> p[i] < |g.next|)
    && (forall i :: 0 <= i < |p| - 1 ==> p[i + 1] in g.next[p[i]])
  }

  ghost predicate PathTo(g: Flow, p: seq<nat>, v: nat) {
    Path(g, p) && p[|p| - 1] == v
  }

  ghost predicate Reachable(g: Flow, v: nat) {
    exists p :: PathTo(g, p, v)
  }

  /** Every path from a root to `v` passes through `d`. */
  ghost predicate Dominates(g: Flow, d: nat, v: nat) {
    Reachable(g, v) && forall p :: PathTo(g, p, v) ==> d in p
  }

  lemma ExtendPath(g: Flow, p: seq<nat>, u: nat, v: nat)
    requires g.WellFormed() && PathTo(g, p, u) && v in g.next[u]
    ensures PathTo(g, p + [v], v)
  {
    var q := p + [v];
    forall i | 0 <= i < |q| - 1 ensures q[i + 1] in g.next[q[i]] {
      if i < |p| - 1 {
        assert p[i + 1] in g.next[p[i]];
      }
    }
  }

  lemma PrefixPath(g: Flow, p: seq<nat>, i: nat)
    requires Path(g, p) && i < |p|
    ensures PathTo(g, p[..i + 1], p[i])
  {
    var q := p[..i + 1];
    assert forall k :: 0 <= k < |q| ==> q[k] == p[k];
  }

  /** A path to `p[i]` can replace the part of `p` up to `i`. */
  lemma {:induction false} SplicePath(g: Flow, q: seq<nat>, p: seq<nat>, i: nat)
    requires g.WellFormed() && Path(g, p) && i < |p| && PathTo(g, q, p[i])
    ensures PathTo(g, q + p[i + 1..], p[|p| - 1])
    decreases |p| - i
  {
    if i + 1 == |p| {
      assert q + p[i + 1..] == q;
    } else {
      assert p[i + 1] in g.next[p[i]];
      ExtendPath(g, q, p[i], p[i + 1]);
      SplicePath(g, q + [p[i + 1]], p, i + 1);
      assert (q + [p[i + 1]]) + p[i + 2..] == q + p[i + 1..];
    }
  }

  // ----- dominance is a partial order -----

  lemma DominatesReflexive(g: Flow, v: nat)
    requires Reachable(g, v)
    ensures Dominates(g, v, v)
  {
  }

  lemma DominatorReachable(g: Flow, d: nat, v: nat)
    requires Dominates(g, d, v)
    ensures Reachable(g, d)
  {
    var p :| PathTo(g, p, v);
    var i :| 0 <= i < |p| && p[i] == d;
    PrefixPath(g, p, i);
  }

  lemma DominatesTransitive(g: Flow, a: nat, b: nat, c: nat)
    requires Dominates(g, a, b) && Dominates(g, b, c)
    ensures Dominates(g, a, c)
  {
    forall p | PathTo(g, p, c) ensures a in p {
      var i :| 0 <= i < |p| && p[i] == b;
      PrefixPath(g, p, i);
      assert a in p[..i + 1];
    }
  }

  /** No path reaches `a` if `a` and `b` dominate each other and differ. */
  lemma {:induction false} NoMutualDominance(g: Flow, a: nat, b: nat, p: seq<nat>)
    requires Dominates(g, a, b) && Dominates(g, b, a) && a != b
    ensures !PathTo(g, p, a)
    decreases |p|
  {
    if PathTo(g, p, a) {
      var i :| 0 <= i < |p| && p[i] == b;
      PrefixPath(g, p, i);
      var q := p[..i + 1];
      var j :| 0 <= j < |q| && q[j] == a;
      PrefixPath(g, q, j);
      NoMutualDominance(g, a, b, q[..j + 1]);
    }
  }

  lemma DominatesAntisymmetric(g: Flow, a: nat, b: nat)
    requires Dominates(g, a, b) && Dominates(g, b, a)
    ensures a == b
  {
    if a != b {
      var p :| PathTo(g, p, a);
      NoMutualDominance(g, a, b, p);
    }
  }

  function LastIndex(p: seq<nat>, x: nat): (i: nat)
    requires x in p
    ensures i < |p| && p[i] == x && x !in p[i + 1..]
  {
    if p[|p| - 1] == x then |p| - 1 else
      assert p == p[..|p| - 1] + [p[|p| - 1]];
      var i := LastIndex(p[..|p| - 1], x);
      assert p[i + 1..] == p[..|p| - 1][i + 1..] + [p[|p| - 1]];
      i
  }

  /** If `a` comes last on some path to `v`, every path to `a` passes `b`. */
  lemma LastDominated(g: Flow, a: nat, b: nat, v: nat, p: seq<nat>)
    requires g.WellFormed() && Dominates(g, a, v) && Dominates(g, b, v) && PathTo(g, p, v)
    requires a in p && b in p && LastIndex(p, b) <= LastIndex(p, a)
    ensures Dominates(g, b, a)
  {
    var i := LastIndex(p, a);
    DominatorReachable(g, a, v);
    forall q | PathTo(g, q, a) ensures b in q {
      SplicePath(g, q, p, i);
      assert b in q + p[i + 1..];
      assert b !in p[i + 1..];
    }
  }

  /** Any two dominators of the same point are comparable. */
  lemma DominatorsComparable(g: Flow, a: nat, b: nat, v: nat)
    requires g.WellFormed() && Dominates(g, a, v) && Dominates(g, b, v)
    ensures Dominates(g, a, b) || Dominates(g, b, a)
  {
    var p :| PathTo(g, p, v);
    if LastIndex(p, b) <= LastIndex(p, a) {
      LastDominated(g, a, b, v, p);
    } else {
      LastDominated(g, b, a, v, p);
    }
  }

  // ----- immediate dominators -----

  ghost predicate Strictly(g: Flow, d: nat, v: nat) {
    d != v && Dominates(g, d, v)
  }

  /** The strict dominator that all other strict dominators dominate. */
  ghost predicate ImmediatelyDominates(g: Flow, d: nat, v: nat) {
    Strictly(g, d, v) && forall e :: Strictly(g, e, v) ==> Dominates(g, e, d)
  }

  lemma {:induction false} NearestOf(g: Flow, v: nat, ds: set<nat>) returns (d: nat)
    requires g.WellFormed() && ds != {} && forall e :: e in ds ==> Strictly(g, e, v)
    ensures d in ds && forall e :: e in ds ==> Dominates(g, e, d)
    decreases |ds|
  {
    d :| d in ds;
    var rest := ds - {d};
    assert ds == {d} + rest;
    DominatorReachable(g, d, v);
    DominatesReflexive(g, d);
    if rest == {} {
    } else {
      var e := NearestOf(g, v, rest);
      DominatorsComparable(g, d, e, v);
      if Dominates(g, e, d) {
        forall x | x in ds ensures Dominates(g, x, d) {
          if x != d {
            DominatesTransitive(g, x, e, d);
          }
        }
      } else {
        d := e;
      }
    }
  }

  lemma DominatorOnPath(g: Flow, d: nat, v: nat)
    requires Dominates(g, d, v)
    ensures d < |g.next|
  {
    var p :| PathTo(g, p, v);
  }

  /** A reachable point with a strict dominator has exactly one immediate one. */
  lemma ImmediateDominator(g: Flow, v: nat, some: nat) returns (d: nat)
    requires g.WellFormed() && Strictly(g, some, v)
    ensures ImmediatelyDominates(g, d, v) && forall e :: ImmediatelyDominates(g, e, v) ==> e == d
  {
    var ds := set e: nat | e < |g.next| && Strictly(g, e, v);
    forall e | Strictly(g, e, v) ensures e in ds {
      DominatorOnPath(g, e, v);
    }
    d := NearestOf(g, v, ds);
    forall e | ImmediatelyDominates(g, e, v) ensures e == d {
      DominatesAntisymmetric(g, d, e);
    }
  }

  /** A single root dominates every reachable point. */
  lemma EntryDominates(g: Flow, entry: nat, v: nat)
    requires g.roots == {entry} && Reachable(g, v)
    ensures Dominates(g, entry, v)
  {
    forall p | PathTo(g, p, v) ensures entry in p {
      assert p[0] in g.roots;
    }
  }
}
