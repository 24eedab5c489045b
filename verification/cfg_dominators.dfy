/** The iterative computation of dominators and postdominators. */
module CfgDominators {
  import opened Dominance

  // ----- dominator sets as ordered sequences -----

  /** A std::set of program points, in iteration order. */
  ghost predicate Ascending(s: seq<nat>) {
    forall i, j :: 0 <= i < j < |s| ==> s[i] < s[j]
  }

  function Insert(s: seq<nat>, x: nat): (r: seq<nat>)
    ensures Ascending(s) ==> Ascending(r)
    ensures forall y :: y in r <==> y == x || y in s
  {
    if s == [] || x < s[0] then
      [x] + s
    else if s[0] == x then
      s
    else
      assert s == [s[0]] + s[1..];
      var r := Insert(s[1..], x);
      ConsAscending(s, r);
      [s[0]] + r
  }

  lemma ConsAscending(s: seq<nat>, r: seq<nat>)
    requires s != [] && (Ascending(s[1..]) ==> Ascending(r)) && forall y :: y in r ==> s[0] < y || y in s[1..]
    ensures Ascending(s) ==> Ascending([s[0]] + r)
  {
    if Ascending(s) {
      forall j | 0 <= j < |r| ensures s[0] < r[j] {
        assert r[j] in r;
        if r[j] in s[1..] {
          var k :| 1 <= k < |s| && s[k] == r[j];
        }
      }
    }
  }

  function Erase(s: seq<nat>, i: nat): (r: seq<nat>)
    requires i < |s|
    ensures Ascending(s) ==> Ascending(r) && forall y :: y in r <==> y in s && y != s[i]
  {
    assert forall y :: y in s <==> y in s[..i] || y == s[i] || y in s[i + 1..];
    s[..i] + s[i + 1..]
  }

  lemma {:induction false} AscendingGrows(s: seq<nat>, i: nat)
    requires Ascending(s) && i < |s|
    ensures s[0] + i <= s[i]
  {
    if i == 0 {
    } else {
      AscendingGrows(s, i - 1);
    }
  }

  lemma AscendingShort(s: seq<nat>, n: nat)
    requires Ascending(s) && forall x :: x in s ==> x < n
    ensures |s| <= n
  {
    if |s| > 0 {
      AscendingGrows(s, |s| - 1);
      assert s[|s| - 1] in s;
    }
  }

  // ----- the invariant of the working list -----

  /** What the edges into `v` ask of its dominators has been done. */
  ghost predicate Done(g: Flow, doms: seq<seq<nat>>, v: nat)
    requires |doms| == |g.prev| && v < |doms|
  {
    forall u :: u in g.prev[v] && u < |doms| && doms[u] != [] ==>
      doms[v] != [] && forall x :: x in doms[v] ==> x == v || x in doms[u]
  }

  /** A node that was visited is reachable, and none of its dominators is missing. */
  ghost predicate Above(g: Flow, doms: seq<seq<nat>>, v: nat)
    requires v < |doms|
  {
    doms[v] != [] ==> v in doms[v] && Reachable(g, v) && forall d :: Dominates(g, d, v) ==> d in doms[v]
  }

  ghost predicate Ordered(doms: seq<seq<nat>>) {
    forall v :: 0 <= v < |doms| ==> Ascending(doms[v]) && forall x :: x in doms[v] ==> x < |doms|
  }

  ghost predicate Inv(g: Flow, doms: seq<seq<nat>>, work: seq<nat>) {
    && |doms| == |g.next| == |g.prev| && Ordered(doms)
    && (forall v :: v in g.roots && v < |doms| ==> doms[v] == [v])
    && (forall v: nat :: v < |doms| ==> Above(g, doms, v))
    && (forall v :: v in work ==> v < |doms|)
    && (forall v: nat :: v < |doms| && v !in work ==> Done(g, doms, v))
  }

  /** Exactly the true dominators, and nothing for unreachable nodes. */
  ghost predicate Exact(g: Flow, doms: seq<seq<nat>>) {
    && |doms| == |g.next|
    && (forall v: nat, d: nat :: v < |doms| ==> (d in doms[v] <==> Dominates(g, d, v)))
    && (forall v: nat :: v < |doms| ==> (doms[v] == [] <==> !Reachable(g, v)))
  }

  lemma {:induction false} AlongPath(g: Flow, doms: seq<seq<nat>>, p: seq<nat>, v: nat)
    requires g.WellFormed() && Inv(g, doms, []) && PathTo(g, p, v)
    ensures doms[v] != [] && forall x :: x in doms[v] ==> x in p
    decreases |p|
  {
    if |p| <= 1 {
    } else {
      var u := p[|p| - 2];
      PrefixPath(g, p, |p| - 2);
      AlongPath(g, doms, p[..|p| - 1], u);
      assert v in g.next[u] && u in g.prev[v];
      assert Done(g, doms, v);
      assert p == p[..|p| - 1] + [v];
    }
  }

  lemma InvOrdered(g: Flow, doms: seq<seq<nat>>, work: seq<nat>)
    requires Inv(g, doms, work)
    ensures Ordered(doms)
  {
  }

  lemma InvExact(g: Flow, doms: seq<seq<nat>>)
    requires g.WellFormed() && Inv(g, doms, [])
    ensures Exact(g, doms)
  {
    forall v: nat | v < |doms|
      ensures doms[v] == [] <==> !Reachable(g, v)
      ensures forall d: nat :: d in doms[v] <==> Dominates(g, d, v)
    {
      assert Above(g, doms, v);
      forall p | PathTo(g, p, v) ensures doms[v] != [] && forall x :: x in doms[v] ==> x in p {
        AlongPath(g, doms, p, v);
      }
    }
  }

  // ----- one node -----

  /** What processing `cur` does: intersect the visited predecessors, always
      keeping `cur` itself. */
  ghost predicate Processed(g: Flow, doms: seq<seq<nat>>, doms': seq<seq<nat>>, cur: nat)
    requires cur < |doms| && cur < |g.prev|
  {
    && |doms'| == |doms| == |g.prev| && (forall v :: 0 <= v < |doms| && v != cur ==> doms'[v] == doms[v])
    && Ascending(doms'[cur]) && Done(g, doms', cur)
    && (doms'[cur] != [] ==> cur in doms'[cur]) && (doms[cur] != [] ==> doms'[cur] != [])
    && (forall x: nat :: x in doms'[cur] ==>
          x == cur || if doms[cur] != [] then x in doms[cur] else Offered(g, doms, cur, x))
    && (doms[cur] == [] && doms'[cur] != [] ==> exists u: nat :: Visited(g, doms, cur, u))
    && (forall x: nat :: doms'[cur] != [] && Kept(g, doms, cur, x) ==> x in doms'[cur])
  }

  ghost predicate Visited(g: Flow, doms: seq<seq<nat>>, cur: nat, u: nat)
    requires cur < |g.prev|
  {
    u in g.prev[cur] && u != cur && u < |doms| && doms[u] != []
  }

  ghost predicate Offered(g: Flow, doms: seq<seq<nat>>, cur: nat, x: nat)
    requires cur < |g.prev|
  {
    exists u: nat :: Visited(g, doms, cur, u) && x in doms[u]
  }

  ghost predicate Kept(g: Flow, doms: seq<seq<nat>>, cur: nat, x: nat)
    requires cur < |g.prev| && cur < |doms|
  {
    (doms[cur] != [] ==> x in doms[cur]) && forall u: nat :: Visited(g, doms, cur, u) ==> x in doms[u]
  }

  lemma DominatesPred(g: Flow, d: nat, u: nat, v: nat)
    requires g.WellFormed() && Dominates(g, d, v) && d != v && Reachable(g, u) && u < |g.next| && v in g.next[u]
    ensures Dominates(g, d, u)
  {
    forall p | PathTo(g, p, u) ensures d in p {
      ExtendPath(g, p, u, v);
    }
  }

  lemma ProcessedAbove(g: Flow, doms: seq<seq<nat>>, doms': seq<seq<nat>>, cur: nat, work: seq<nat>)
    requires g.WellFormed() && Inv(g, doms, work) && cur < |doms| && Processed(g, doms, doms', cur)
    ensures Above(g, doms', cur) && (cur in g.roots ==> doms'[cur] == [cur])
    ensures forall x :: x in doms'[cur] ==> x < |doms|
  {
    assert Above(g, doms, cur);
    if doms'[cur] != [] {
      if doms[cur] == [] {
        var u: nat :| Visited(g, doms, cur, u);
        assert Above(g, doms, u);
        var p :| PathTo(g, p, u);
        ExtendPath(g, p, u, cur);
      }
      forall d | Dominates(g, d, cur) ensures d in doms'[cur] {
        if d != cur {
          forall u: nat | Visited(g, doms, cur, u) ensures d in doms[u] {
            assert Above(g, doms, u);
            DominatesPred(g, d, u, cur);
          }
          assert Kept(g, doms, cur, d);
        }
      }
    }
    if cur in g.roots {
      RootStays(g, doms, doms', cur);
    }
  }

  lemma RootStays(g: Flow, doms: seq<seq<nat>>, doms': seq<seq<nat>>, cur: nat)
    requires cur < |doms| && cur < |g.prev| && Processed(g, doms, doms', cur) && doms[cur] == [cur]
    requires g.WellFormed() && cur in g.roots && doms'[cur] != []
    ensures doms'[cur] == [cur]
  {
    var s := doms'[cur];
    forall i | 0 <= i < |s| ensures s[i] == cur {
      assert s[i] in s;
    }
    AscendingGrows(s, |s| - 1);
  }

  /** Processing the front of the working list keeps the invariant, if a change
      queues the successors. */
  lemma ProcessedInv(g: Flow, doms: seq<seq<nat>>, doms': seq<seq<nat>>, cur: nat, rest: seq<nat>, rest': seq<nat>)
    requires g.WellFormed() && Inv(g, doms, [cur] + rest) && cur < |doms| && Processed(g, doms, doms', cur)
    requires rest' == rest + if doms'[cur] != doms[cur] then g.next[cur] else []
    ensures Inv(g, doms', rest')
  {
    ProcessedAbove(g, doms, doms', cur, [cur] + rest);
    forall v: nat | v < |doms'| ensures Above(g, doms', v) {
      assert Above(g, doms, v);
    }
    forall v | v in rest' ensures v < |doms'| {
      assert v in [cur] + rest || v in g.next[cur];
    }
    forall v: nat | v < |doms'| && v !in rest' ensures Done(g, doms', v) {
      if v != cur {
        assert v !in [cur] + rest;
        assert Done(g, doms, v);
      }
    }
  }

  /** An unvisited node takes over the set of a visited predecessor. */
  ghost predicate Adopted(g: Flow, doms: seq<seq<nat>>, doms': seq<seq<nat>>, cur: nat)
    requires cur < |doms| && cur < |g.prev|
  {
    && |doms'| == |doms| && (forall v :: 0 <= v < |doms| && v != cur ==> doms'[v] == doms[v])
    && Ascending(doms'[cur])
    && if doms'[cur] == [] then forall u: nat :: !Visited(g, doms, cur, u)
       else exists u: nat :: Visited(g, doms, cur, u) && forall x :: x in doms'[cur] <==> x == cur || x in doms[u]
  }

  /** A set is cut down to what `sources` have in common, except `cur` itself. */
  ghost predicate Narrowed(doms: seq<seq<nat>>, doms': seq<seq<nat>>, cur: nat, sources: seq<nat>)
    requires cur < |doms|
  {
    && |doms'| == |doms| && (forall v :: 0 <= v < |doms| && v != cur ==> doms'[v] == doms[v])
    && Ascending(doms'[cur])
    && forall x: nat :: x in doms'[cur] <==> x in doms[cur] && (x == cur || InAll(doms, cur, sources, x))
  }

  ghost predicate InAll(doms: seq<seq<nat>>, cur: nat, sources: seq<nat>, x: nat) {
    forall u :: u in sources && u != cur && u < |doms| && doms[u] != [] ==> x in doms[u]
  }

  lemma ProcessedBoth(g: Flow, doms: seq<seq<nat>>, middle: seq<seq<nat>>, doms': seq<seq<nat>>, cur: nat)
    requires cur < |doms| == |g.prev|
    requires if doms[cur] == [] then Adopted(g, doms, middle, cur) else middle == doms && cur in doms[cur]
    requires Narrowed(middle, doms', cur, g.prev[cur])
    ensures Processed(g, doms, doms', cur)
  {
    assert forall u: nat :: Visited(g, middle, cur, u) <==> Visited(g, doms, cur, u);
    forall x: nat | doms'[cur] != [] && Kept(g, doms, cur, x) ensures x in doms'[cur] {
      assert InAll(middle, cur, g.prev[cur], x);
    }
    if doms'[cur] != [] {
      assert doms'[cur][0] in doms'[cur];
      assert doms'[cur][0] in middle[cur];
      assert cur in middle[cur];
    }
    assert Done(g, doms', cur) by {
      forall u | u in g.prev[cur] && u < |doms'| && doms'[u] != []
        ensures doms'[cur] != [] && forall x :: x in doms'[cur] ==> x == cur || x in doms'[u]
      {
        if u != cur {
          assert Visited(g, doms, cur, u);
          assert cur in middle[cur];
          assert cur in doms'[cur];
        }
      }
    }
  }

  lemma InvParts(g: Flow, doms: seq<seq<nat>>, work: seq<nat>, v: nat)
    requires Inv(g, doms, work) && v in work
    ensures v < |doms| == |g.next| == |g.prev| && Ordered(doms) && (doms[v] != [] ==> v in doms[v])
  {
    assert Above(g, doms, v);
  }

  /** The state before the first iteration. */
  ghost predicate Seeded(g: Flow, doms: seq<seq<nat>>, work: seq<nat>) {
    && |doms| == |g.next|
    && (forall v: nat :: v < |doms| ==> doms[v] == if v in g.roots then [v] else [])
    && (forall w :: w in work <==> exists u :: u in g.roots && u < |g.next| && w in g.next[u])
  }

  /** `w` is a successor of a root before `v`. */
  ghost predicate QueuedBy(next: seq<seq<nat>>, roots: set<nat>, v: nat, w: nat) {
    exists u :: u in roots && u < v && u < |next| && w in next[u]
  }

  lemma SeededInv(g: Flow, doms: seq<seq<nat>>, work: seq<nat>)
    requires g.WellFormed() && Seeded(g, doms, work)
    ensures Inv(g, doms, work)
  {
    forall v: nat | v < |doms| ensures Above(g, doms, v) {
      if v in g.roots {
        assert PathTo(g, [v], v);
      }
    }
    forall v: nat | v < |doms| && v !in work ensures Done(g, doms, v) {
    }
  }

  // ----- termination -----

  /** An unvisited node counts more than any set of dominators. */
  ghost function Size(doms: seq<seq<nat>>, n: nat): nat {
    if doms == [] then 0 else (if doms[0] == [] then n + 1 else |doms[0]|) + Size(doms[1..], n)
  }

  lemma {:induction false} SizeDrops(doms: seq<seq<nat>>, doms': seq<seq<nat>>, n: nat, cur: nat)
    requires |doms| == |doms'| && cur < |doms| && forall v :: 0 <= v < |doms| && v != cur ==> doms'[v] == doms[v]
    requires doms'[cur] != [] && (doms[cur] == [] ==> |doms'[cur]| <= n)
    requires (doms[cur] != [] ==> |doms'[cur]| < |doms[cur]|)
    ensures Size(doms', n) < Size(doms, n)
  {
    if cur == 0 {
      assert doms'[1..] == doms[1..];
    } else {
      SizeDrops(doms[1..], doms'[1..], n, cur - 1);
    }
  }

  // ----- the computation -----

  /** A control flow graph; every edge is listed at both ends. */
  datatype Cfg = Cfg(outs: seq<seq<nat>>, ins: seq<seq<nat>>) {
    ghost predicate WellFormed() {
      Flow(outs, ins, {}).WellFormed()
    }

    /** The last node, nodes without successors and pure self-loops. */
    function Exits(): set<nat> {
      set v: nat | v < |outs| && (v == |outs| - 1 || outs[v] == [] || outs[v] == [v])
    }

    /** The graph that is walked: forwards from the first node, or backwards from
        the exits. */
    function Walk(postDom: bool): Flow {
      if postDom then Flow(ins, outs, Exits()) else Flow(outs, ins, if outs == [] then {} else {0})
    }

    lemma WalkWellFormed(postDom: bool)
      requires WellFormed()
      ensures Walk(postDom).WellFormed()
    {
    }
  }

  class Dominators {
    const cfg: Cfg
    const postDom: bool
    const doms: array<seq<nat>>

    constructor (cfg: Cfg, postDom: bool)
      requires cfg.WellFormed()
      ensures this.cfg == cfg && this.postDom == postDom && fresh(doms)
      ensures Exact(cfg.Walk(postDom), doms[..]) && ExactIn(cfg, postDom, doms[..])
      ensures forall v: nat :: v < doms.Length && (if postDom then StopsAt(cfg, v) else v == 0) ==> doms[v] == [v]
    {
      this.cfg, this.postDom := cfg, postDom;
      doms := new seq<nat>[|cfg.outs|](_ => []);
      new;
      Fixedpoint();
      ExactInEdges(cfg, postDom, doms[..]);
      forall v: nat | v < doms.Length && (if postDom then StopsAt(cfg, v) else v == 0) ensures doms[v] == [v] {
        EndsAlone(cfg, postDom, doms[..], v);
      }
    }

    ghost predicate Valid()
      reads this
    {
      cfg.WellFormed() && doms.Length == |cfg.outs|
    }

    function Graph(): Flow
      reads this
    {
      cfg.Walk(postDom)
    }

    /** The query `dominates`, answered by a look-up. */
    predicate Query(lhs: nat, rhs: nat)
      requires Valid() && rhs < doms.Length && Exact(Graph(), doms[..])
      reads this, doms
      ensures Query(lhs, rhs) <==> Dominates(Graph(), lhs, rhs)
    {
      assert doms[..][rhs] == doms[rhs];
      lhs in doms[rhs]
    }

    /** The query `program_point_reachable`: some root leads to the point. */
    predicate PointReachable(v: nat)
      requires Valid() && v < doms.Length && Exact(Graph(), doms[..])
      reads this, doms
      ensures PointReachable(v) <==> Reachable(Graph(), v)
    {
      assert doms[..][v] == doms[v];
      doms[v] != []
    }

    method Fixedpoint()
      requires Valid() && forall v :: 0 <= v < doms.Length ==> doms[v] == []
      modifies doms
      ensures Exact(Graph(), doms[..]) && Ordered(doms[..])
    {
      var g := Graph();
      cfg.WalkWellFormed(postDom);
      if doms.Length == 0 {
        return;
      }
      var work := Seed();
      SeededInv(g, doms[..], work);
      while work != []
        invariant Inv(g, doms[..], work)
        decreases Size(doms[..], doms.Length), |work|
      {
        hide Inv, Exact, Processed, Size;
        ghost var before := doms[..];
        var current, rest := work[0], work[1..];
        assert work == [current] + rest;
        InvParts(g, before, work, current);
        var changed := Process(current);
        work := rest;
        if changed {
          work := work + g.next[current];
          SizeDrops(before, doms[..], doms.Length, current);
        } else {
          assert doms[..] == before;
        }
        ProcessedInv(g, before, doms[..], current, rest, work);
      }
      InvExact(g, doms[..]);
      InvOrdered(g, doms[..], work);
    }

    /** The roots dominate themselves; their successors are to be visited. */
    method Seed() returns (work: seq<nat>)
      requires Valid() && doms.Length > 0 && forall v :: 0 <= v < doms.Length ==> doms[v] == []
      modifies doms
      ensures Seeded(Graph(), doms[..], work)
    {
      var n := doms.Length;
      var entry := if postDom then n - 1 else 0;
      var next := if postDom then cfg.ins else cfg.outs;
      doms[entry] := Insert(doms[entry], entry);
      work := next[entry];
      ghost var exits := cfg.Exits();
      if postDom {
        for v := 0 to n
          invariant doms.Length == n && next == cfg.ins && entry == n - 1
          invariant forall u :: 0 <= u < n ==> doms[u] == if u == entry || (u < v && u in exits) then [u] else []
          invariant forall w :: w in work <==> w in next[entry] || QueuedBy(next, exits, v, w)
        {
          if v != entry && (cfg.outs[v] == [] || cfg.outs[v] == [v]) {
            doms[v] := Insert(doms[v], v);
            work := work + next[v];
          }
        }
      }
    }

    /** Recompute one node from its visited predecessors. */
    method Process(current: nat) returns (changed: bool)
      requires Valid() && current < doms.Length && Ordered(doms[..])
      requires doms[current] != [] ==> current in doms[current]
      modifies doms
      ensures Processed(Graph(), old(doms[..]), doms[..], current)
      ensures changed <==> doms[current] != old(doms[current])
      ensures changed ==> doms[current] != [] && |doms[current]| <= doms.Length
      ensures changed && old(doms[current]) != [] ==> |doms[current]| < |old(doms[current])|
    {
      changed := false;
      if doms[current] == [] {
        changed := Adopt(current);
      }
      ghost var middle := doms[..];
      var removed := IntersectAll(current);
      ProcessedBoth(Graph(), old(doms[..]), middle, doms[..], current);
      changed := changed || removed;
      assert forall x :: x in doms[current] ==> x in middle[current];
      AscendingShort(doms[current], doms.Length);
    }

    /** Take over the dominators of a visited predecessor; the last one wins. */
    method Adopt(current: nat) returns (changed: bool)
      requires Valid() && current < doms.Length && Ordered(doms[..]) && doms[current] == []
      modifies doms
      ensures Adopted(Graph(), old(doms[..]), doms[..], current) && Ordered(doms[..])
      ensures changed <==> doms[current] != []
    {
      changed := false;
      var prev := (if postDom then cfg.outs else cfg.ins)[current];
      ghost var before := doms[..];
      ghost var g := Graph();
      ghost var from: nat := 0;
      for i := 0 to |prev|
        invariant forall v :: 0 <= v < doms.Length && v != current ==> doms[v] == before[v]
        invariant Ordered(doms[..]) && (changed <==> doms[current] != [])
        invariant !changed ==> forall k :: 0 <= k < i ==> !Visited(g, before, current, prev[k])
        invariant changed ==> Visited(g, before, current, from)
                              && forall x :: x in doms[current] <==> x == current || x in before[from]
      {
        var u := prev[i];
        assert u in prev;
        if doms[u] != [] {
          if u != current {
            from := u;
          }
          assert forall x :: x in doms[u] ==> x < doms.Length;
          doms[current] := Insert(doms[u], current);
          assert current in doms[current];
          changed := true;
        }
      }
    }

    /** Intersect with every visited predecessor. */
    method IntersectAll(current: nat) returns (changed: bool)
      requires Valid() && current < doms.Length && Ordered(doms[..])
      modifies doms
      ensures Narrowed(old(doms[..]), doms[..], current, Graph().prev[current])
      ensures changed <==> doms[current] != old(doms[current])
      ensures changed ==> |doms[current]| < |old(doms[current])|
    {
      changed := false;
      var prev := (if postDom then cfg.outs else cfg.ins)[current];
      ghost var before := doms[..];
      for i := 0 to |prev|
        invariant Narrowed(before, doms[..], current, prev[..i])
        invariant changed <==> doms[current] != before[current]
        invariant changed ==> |doms[current]| < |before[current]|
      {
        var other := prev[i];
        assert other in prev;
        ghost var between := doms[..];
        if doms[other] != [] {
          assert Ascending(doms[current]) && Ascending(doms[other]);
          var removed := Intersect(current, other);
          changed := changed || removed;
        }
        NarrowedMore(before, between, doms[..], current, prev, i);
      }
      assert prev[..|prev|] == prev;
    }

    /** The in-place intersection: two iterators walk the two ordered sets, and
        elements other than `current` that the other set lacks are erased.  With a
        self-loop both iterators walk the same set, and nothing is erased. */
    method Intersect(current: nat, other: nat) returns (removed: bool)
      requires current < doms.Length && other < doms.Length && Ascending(doms[current]) && Ascending(doms[other])
      modifies doms
      ensures forall v :: 0 <= v < doms.Length && v != current ==> doms[v] == old(doms[v])
      ensures Ascending(doms[current])
      ensures forall x :: x in doms[current] <==> x in old(doms[current]) && (x == current || x in old(doms[other]))
      ensures removed <==> doms[current] != old(doms[current])
      ensures removed ==> |doms[current]| < |old(doms[current])|
    {
      hide Merging, Ahead;
      removed := false;
      var n, o := 0, 0;
      ghost var mine, theirs := doms[current], doms[other];
      MergeStart(mine, theirs, current);
      while n < |doms[current]| && o < |doms[other]|
        invariant forall v :: 0 <= v < doms.Length && v != current ==> doms[v] == old(doms[v])
        invariant Merging(mine, theirs, doms[current], current, n, removed)
        invariant n <= |doms[current]| && o <= |theirs| && Ahead(theirs, o, doms[current], n)
        invariant other == current ==> doms[current] == mine && (o == n || (o + 1 == n && mine[o] == current))
        decreases |doms[current]| - n, |theirs| - o
      {
        if doms[current][n] == current {
          MergeKeep(mine, theirs, doms[current], current, n, removed, o, o);
          n := n + 1;
        } else if doms[current][n] < doms[other][o] {
          MergeErase(mine, theirs, doms[current], current, n, removed, o);
          removed := true;
          doms[current] := Erase(doms[current], n);
        } else if doms[other][o] < doms[current][n] {
          AheadMore(theirs, o, doms[current], n);
          o := o + 1;
        } else {
          MergeKeep(mine, theirs, doms[current], current, n, removed, o, o + 1);
          n, o := n + 1, o + 1;
        }
      }
      while n < |doms[current]|
        invariant forall v :: 0 <= v < doms.Length && v != current ==> doms[v] == old(doms[v])
        invariant Merging(mine, theirs, doms[current], current, n, removed)
        invariant n <= |doms[current]|
        invariant n < |doms[current]| ==> o == |theirs| && Ahead(theirs, o, doms[current], n)
        decreases |doms[current]| - n
      {
        if doms[current][n] == current {
          MergeKeep(mine, theirs, doms[current], current, n, removed, o, o);
          n := n + 1;
        } else {
          MergeErase(mine, theirs, doms[current], current, n, removed, o);
          removed := true;
          doms[current] := Erase(doms[current], n);
        }
      }
      MergeEnd(mine, theirs, doms[current], current, n, removed);
    }
  }

  /** An intersection under way: `now` is what is left of `mine`, its first `n`
      elements are settled, and what is gone was not in `theirs`. */
  ghost predicate Merging(mine: seq<nat>, theirs: seq<nat>, now: seq<nat>, cur: nat, n: nat, removed: bool) {
    && n <= |now| <= |mine| && Ascending(now)
    && (forall i :: 0 <= i < n ==> now[i] == cur || now[i] in theirs)
    && (forall x :: x in now ==> x in mine)
    && (forall x :: x in mine && x !in now ==> x != cur && x !in theirs)
    && (removed <==> now != mine) && (removed ==> |now| < |mine|)
  }

  /** What the other iterator has passed is before the current element. */
  ghost predicate Ahead(theirs: seq<nat>, o: nat, now: seq<nat>, n: nat) {
    n < |now| ==> forall i :: 0 <= i < o && i < |theirs| ==> theirs[i] < now[n]
  }

  lemma MergeStart(mine: seq<nat>, theirs: seq<nat>, cur: nat)
    requires Ascending(mine)
    ensures Merging(mine, theirs, mine, cur, 0, false) && Ahead(theirs, 0, mine, 0)
  {
  }

  lemma AheadMore(theirs: seq<nat>, o: nat, now: seq<nat>, n: nat)
    requires Ahead(theirs, o, now, n) && o < |theirs| && n < |now| && theirs[o] < now[n]
    ensures Ahead(theirs, o + 1, now, n)
  {
  }

  /** An element is kept because it is `cur` or because the other set has it. */
  lemma MergeKeep(
    mine: seq<nat>, theirs: seq<nat>, now: seq<nat>, cur: nat, n: nat, removed: bool, o: nat, o': nat)
    requires Merging(mine, theirs, now, cur, n, removed) && n < |now| && Ahead(theirs, o, now, n)
    requires (now[n] == cur && o' == o) || (o < |theirs| && now[n] == theirs[o] && o' == o + 1)
    ensures Merging(mine, theirs, now, cur, n + 1, removed) && Ahead(theirs, o', now, n + 1)
  {
  }

  /** An element is erased because the other iterator is past its place. */
  lemma MergeErase(mine: seq<nat>, theirs: seq<nat>, now: seq<nat>, cur: nat, n: nat, removed: bool, o: nat)
    requires Merging(mine, theirs, now, cur, n, removed) && n < |now| && now[n] != cur && Ahead(theirs, o, now, n)
    requires Ascending(theirs) && o <= |theirs| && (o < |theirs| ==> now[n] < theirs[o])
    ensures Merging(mine, theirs, Erase(now, n), cur, n, true) && Ahead(theirs, o, Erase(now, n), n)
  {
    assert now[n] !in theirs;
    assert forall i :: 0 <= i < n ==> Erase(now, n)[i] == now[i];
    assert n < |now| - 1 ==> Erase(now, n)[n] == now[n + 1];
  }

  lemma MergeEnd(mine: seq<nat>, theirs: seq<nat>, now: seq<nat>, cur: nat, n: nat, removed: bool)
    requires Merging(mine, theirs, now, cur, n, removed) && n >= |now|
    ensures Ascending(now) && (removed <==> now != mine) && (removed ==> |now| < |mine|)
    ensures forall x :: x in now <==> x in mine && (x == cur || x in theirs)
  {
  }

  lemma NarrowedMore(
    before: seq<seq<nat>>, between: seq<seq<nat>>, after: seq<seq<nat>>, cur: nat, prev: seq<nat>, i: nat)
    requires cur < |before| && i < |prev| && prev[i] < |before| && Narrowed(before, between, cur, prev[..i])
    requires |after| == |before| && (forall v :: 0 <= v < |before| && v != cur ==> after[v] == before[v])
    requires Ascending(after[cur])
    requires if between[prev[i]] == [] then after == between
             else forall x :: x in after[cur] <==> x in between[cur] && (x == cur || x in between[prev[i]])
    ensures Narrowed(before, after, cur, prev[..i + 1])
  {
    assert prev[..i + 1] == prev[..i] + [prev[i]];
    forall x: nat ensures InAll(before, cur, prev[..i + 1], x) <==>
                     InAll(before, cur, prev[..i], x)
                     && (prev[i] != cur && before[prev[i]] != [] ==> x in before[prev[i]])
    {
    }
  }

  // ----- postdominators in terms of forward paths -----

  /** Control stops at `v`: the last node, no successor, or a pure self-loop. */
  ghost predicate StopsAt(cfg: Cfg, v: nat) {
    v < |cfg.outs| && (v == |cfg.outs| - 1 || cfg.outs[v] == [] || cfg.outs[v] == [v])
  }

  /** A path along the edges from `v` to a node where control stops. */
  ghost predicate ExitPath(cfg: Cfg, p: seq<nat>, v: nat) {
    && |p| > 0 && p[0] == v && StopsAt(cfg, p[|p| - 1])
    && (forall i :: 0 <= i < |p| ==> p[i] < |cfg.outs|)
    && (forall i :: 0 <= i < |p| - 1 ==> p[i + 1] in cfg.outs[p[i]])
  }

  /** `v` can reach an exit, and every path from `v` to any exit passes `d`. */
  ghost predicate PostDominates(cfg: Cfg, d: nat, v: nat) {
    (exists p :: ExitPath(cfg, p, v)) && forall p :: ExitPath(cfg, p, v) ==> d in p
  }

  ghost function Reversed(p: seq<nat>): (r: seq<nat>)
    ensures |r| == |p| && forall i :: 0 <= i < |p| ==> r[i] == p[|p| - 1 - i]
    ensures forall x :: x in r <==> x in p
  {
    if p == [] then [] else
      assert p == p[..|p| - 1] + [p[|p| - 1]];
      [p[|p| - 1]] + Reversed(p[..|p| - 1])
  }

  lemma ReversedPath(cfg: Cfg, p: seq<nat>, v: nat)
    requires cfg.WellFormed()
    ensures PathTo(cfg.Walk(true), p, v) ==> ExitPath(cfg, Reversed(p), v)
    ensures ExitPath(cfg, p, v) ==> PathTo(cfg.Walk(true), Reversed(p), v)
  {
    var q := Reversed(p);
    if PathTo(cfg.Walk(true), p, v) {
      forall i | 0 <= i < |q| - 1 ensures q[i + 1] in cfg.outs[q[i]] {
        var k := |p| - 2 - i;
        assert p[k + 1] in cfg.ins[p[k]];
      }
    }
    if ExitPath(cfg, p, v) {
      forall i | 0 <= i < |q| - 1 ensures q[i + 1] in cfg.ins[q[i]] {
        var k := |p| - 2 - i;
        assert p[k + 1] in cfg.outs[p[k]];
      }
    }
  }

  /** Dominance in the backward walk is postdominance with several exits. */
  lemma BackwardDominance(cfg: Cfg, d: nat, v: nat)
    requires cfg.WellFormed()
    ensures Dominates(cfg.Walk(true), d, v) <==> PostDominates(cfg, d, v)
  {
    hide PathTo, ExitPath, Cfg.Walk;
    var g := cfg.Walk(true);
    if Dominates(g, d, v) {
      var q :| PathTo(g, q, v);
      ReversedPath(cfg, q, v);
      forall p | ExitPath(cfg, p, v) ensures d in p {
        ReversedPath(cfg, p, v);
      }
    }
    if PostDominates(cfg, d, v) {
      var q :| ExitPath(cfg, q, v);
      ReversedPath(cfg, q, v);
      forall p | PathTo(g, p, v) ensures d in p {
        ReversedPath(cfg, p, v);
      }
    }
  }

  lemma ExitsAre(cfg: Cfg, v: nat)
    ensures v in cfg.Exits() <==> StopsAt(cfg, v)
  {
  }

  /** A path along the edges from the first node to `v`. */
  ghost predicate EntryPath(cfg: Cfg, p: seq<nat>, v: nat) {
    && |p| > 0 && p[0] == 0 && p[|p| - 1] == v
    && (forall i :: 0 <= i < |p| ==> p[i] < |cfg.outs|)
    && (forall i :: 0 <= i < |p| - 1 ==> p[i + 1] in cfg.outs[p[i]])
  }

  /** `v` can be reached from the first node, and every path there passes `d`. */
  ghost predicate OnAllWays(cfg: Cfg, d: nat, v: nat) {
    (exists p :: EntryPath(cfg, p, v)) && forall p :: EntryPath(cfg, p, v) ==> d in p
  }

  lemma ForwardPath(cfg: Cfg, p: seq<nat>, v: nat)
    requires cfg.WellFormed()
    ensures PathTo(cfg.Walk(false), p, v) <==> EntryPath(cfg, p, v)
  {
  }

  /** Dominance in the forward walk, in terms of the edges. */
  lemma ForwardDominance(cfg: Cfg, d: nat, v: nat)
    requires cfg.WellFormed()
    ensures Dominates(cfg.Walk(false), d, v) <==> OnAllWays(cfg, d, v)
    ensures Reachable(cfg.Walk(false), v) <==> exists p :: EntryPath(cfg, p, v)
  {
    hide PathTo, EntryPath, Cfg.Walk;
    var g := cfg.Walk(false);
    forall p ensures PathTo(g, p, v) <==> EntryPath(cfg, p, v) {
      ForwardPath(cfg, p, v);
    }
  }

  lemma BackwardReachable(cfg: Cfg, v: nat)
    requires cfg.WellFormed()
    ensures Reachable(cfg.Walk(true), v) <==> exists p :: ExitPath(cfg, p, v)
  {
    hide PathTo, ExitPath, Cfg.Walk;
    var g := cfg.Walk(true);
    if Reachable(g, v) {
      var q :| PathTo(g, q, v);
      ReversedPath(cfg, q, v);
    }
    if p :| ExitPath(cfg, p, v) {
      ReversedPath(cfg, p, v);
    }
  }

  /** Some path connects `v` with the first node, or with a node where control
      stops. */
  ghost predicate Connected(cfg: Cfg, postDom: bool, v: nat) {
    if postDom then exists p :: ExitPath(cfg, p, v) else exists p :: EntryPath(cfg, p, v)
  }

  /** The computed sets in terms of the edges: exactly the dominators on all paths
      from the first node, or the postdominators on all paths to a node where
      control stops, and nothing for points that no path connects. */
  ghost predicate ExactIn(cfg: Cfg, postDom: bool, doms: seq<seq<nat>>) {
    && |doms| == |cfg.outs|
    && (forall v: nat, d: nat :: v < |doms| ==>
          (d in doms[v] <==> if postDom then PostDominates(cfg, d, v) else OnAllWays(cfg, d, v)))
    && (forall v: nat :: v < |doms| ==> (doms[v] != [] <==> Connected(cfg, postDom, v)))
  }

  lemma ExactInEdges(cfg: Cfg, postDom: bool, doms: seq<seq<nat>>)
    requires cfg.WellFormed() && Exact(cfg.Walk(postDom), doms)
    ensures ExactIn(cfg, postDom, doms)
  {
    hide ExitPath, EntryPath, PostDominates, OnAllWays, Dominates, Reachable, Connected;
    var g := cfg.Walk(postDom);
    forall v: nat, d: nat | v < |doms|
      ensures d in doms[v] <==> if postDom then PostDominates(cfg, d, v) else OnAllWays(cfg, d, v)
    {
      assert d in doms[v] <==> Dominates(g, d, v);
      if postDom {
        BackwardDominance(cfg, d, v);
      } else {
        ForwardDominance(cfg, d, v);
      }
    }
    forall v: nat | v < |doms| ensures doms[v] != [] <==> Connected(cfg, postDom, v) {
      WalkConnects(cfg, postDom, v);
    }
  }

  lemma WalkConnects(cfg: Cfg, postDom: bool, v: nat)
    requires cfg.WellFormed()
    ensures Reachable(cfg.Walk(postDom), v) <==> Connected(cfg, postDom, v)
  {
    if postDom {
      BackwardReachable(cfg, v);
    } else {
      ForwardDominance(cfg, 0, v);
    }
  }

  lemma OnlyOne(s: seq<nat>, v: nat)
    requires Ascending(s) && forall d: nat :: d in s <==> d == v
    ensures s == [v]
  {
    assert v in s;
    AscendingGrows(s, |s| - 1);
    assert s[0] in s && s[|s| - 1] in s;
  }

  /** A node where control stops is postdominated by itself only, and the first
      node dominated by itself only. */
  lemma EndsAlone(cfg: Cfg, postDom: bool, doms: seq<seq<nat>>, v: nat)
    requires cfg.WellFormed() && ExactIn(cfg, postDom, doms) && Ordered(doms) && v < |doms|
    requires if postDom then StopsAt(cfg, v) else v == 0
    ensures doms[v] == [v]
  {
    if postDom {
      assert ExitPath(cfg, [v], v);
    } else {
      assert EntryPath(cfg, [v], v);
    }
    forall d: nat ensures d in doms[v] <==> d == v {
      if postDom {
        assert forall p :: ExitPath(cfg, p, v) ==> p[0] == v && v in p;
      } else {
        assert forall p :: EntryPath(cfg, p, v) ==> p[0] == v && v in p;
      }
    }
    OnlyOne(doms[v], v);
  }

  /** Every reachable point except the entry has exactly one immediate dominator. */
  lemma UniqueImmediateDominator(cfg: Cfg, v: nat) returns (d: nat)
    requires cfg.WellFormed() && Reachable(cfg.Walk(false), v) && v != 0
    ensures ImmediatelyDominates(cfg.Walk(false), d, v)
    ensures forall e :: ImmediatelyDominates(cfg.Walk(false), e, v) ==> e == d
  {
    var g := cfg.Walk(false);
    cfg.WalkWellFormed(false);
    var p :| PathTo(g, p, v);
    EntryDominates(g, 0, v);
    d := ImmediateDominator(g, v, 0);
  }
}
