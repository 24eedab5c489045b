/** Call graphs: the complete one, the one rooted at a function, and inversion. */
module CallGraph {
  import opened Calls
  import opened CallVisits

  // ----- the graph -----

  /** A multimap from callers to callees, in insertion order. */
  type Edges = map<Fid, seq<Fid>>

  type Sites = map<(Fid, Fid), set<Site>>

  function EdgesOf(edges: Edges, f: Fid): seq<Fid> {
    if f in edges then edges[f] else []
  }

  function SitesOf(sites: Sites, f: Fid, g: Fid): set<Site> {
    if (f, g) in sites then sites[(f, g)] else {}
  }

  /** Only callers with an edge and pairs with a call site are keys. */
  ghost predicate NoEmpty(edges: Edges, sites: Sites) {
    (forall f :: f in edges ==> edges[f] != []) && (forall e :: e in sites ==> sites[e] != {})
  }

  /** Calls were added to the edges and call sites of `f`. */
  ghost predicate Added(
    edges: Edges, sites: Sites, f: Fid, calls: seq<Call>, collect: bool, edges': Edges, sites': Sites)
  {
    && (forall h :: EdgesOf(edges', h) == EdgesOf(edges, h) + if h == f then Callees(calls) else [])
    && (forall h, g ::
          SitesOf(sites', h, g) == SitesOf(sites, h, g) + if h == f && collect then SitesTo(calls, g) else {})
    && (NoEmpty(edges, sites) ==> NoEmpty(edges', sites'))
  }

  function Times(s: seq<Fid>, n: nat): seq<Fid> {
    if n == 0 then [] else Times(s, n - 1) + s
  }

  /** The graph holds the calls of every visited function, as often as it was
      visited, and the call sites of visited functions if they are collected. */
  ghost predicate Describes(fns: Functions, visits: map<Fid, nat>, edges: Edges, collect: bool, sites: Sites) {
    && NoEmpty(edges, sites)
    && (forall f :: EdgesOf(edges, f) == Times(Callees(CallsOf(fns, f)), Visits(visits, f)))
    && (forall f, g :: SitesOf(sites, f, g) ==
                       if collect && Visits(visits, f) > 0 then SitesTo(CallsOf(fns, f), g) else {})
  }

  /** One more look at a function. */
  lemma DescribesOne(
    fns: Functions, visits: map<Fid, nat>, edges: Edges, collect: bool, sites: Sites,
    f: Fid, edges': Edges, sites': Sites)
    requires Describes(fns, visits, edges, collect, sites)
    requires Added(edges, sites, f, CallsOf(fns, f), collect, edges', sites')
    ensures Describes(fns, visits[f := Visits(visits, f) + 1], edges', collect, sites')
  {
    hide Callees, CallsOf, SitesTo;
    var visits' := visits[f := Visits(visits, f) + 1];
    forall h ensures EdgesOf(edges', h) == Times(Callees(CallsOf(fns, h)), Visits(visits', h)) {
      assert EdgesOf(edges, h) == Times(Callees(CallsOf(fns, h)), Visits(visits, h));
    }
  }

  class Graph {
    const collect: bool
    var nodes: set<Fid>
    var edges: Edges
    var callsites: Sites

    constructor Empty(collect: bool)
      ensures this.collect == collect && nodes == {} && edges == map[] && callsites == map[]
    {
      this.collect := collect;
      nodes, edges, callsites := {}, map[], map[];
    }

    method AddPair(f: Fid, g: Fid)
      modifies this`nodes, this`edges
      ensures edges == old(edges)[f := EdgesOf(old(edges), f) + [g]] && nodes == old(nodes) + {f, g}
    {
      edges := edges[f := EdgesOf(edges, f) + [g]];
      nodes := nodes + {f} + {g};
    }

    method AddCall(f: Fid, call: Call)
      modifies this
      ensures edges == old(edges)[f := EdgesOf(old(edges), f) + [call.callee]] && nodes == old(nodes) + {f, call.callee}
      ensures callsites ==
              if collect then
                old(callsites)[(f, call.callee) := SitesOf(old(callsites), f, call.callee) + {call.site}]
              else
                old(callsites)
    {
      AddPair(f, call.callee);
      if collect {
        callsites := callsites[(f, call.callee) := SitesOf(callsites, f, call.callee) + {call.site}];
      }
    }

    /** Add all calls of a body. */
    method AddCalls(f: Fid, calls: seq<Call>)
      modifies this
      ensures nodes == old(nodes) + (if calls == [] then {} else {f}) + CalleeSet(calls)
      ensures Added(old(edges), old(callsites), f, calls, collect, edges, callsites)
    {
      hide Added, Callees, CalleeSet;
      AddedNone(edges, callsites, f, collect);
      for i := 0 to |calls|
        invariant nodes == old(nodes) + (if i == 0 then {} else {f}) + CalleeSet(calls[..i])
        invariant Added(old(edges), old(callsites), f, calls[..i], collect, edges, callsites)
      {
        ghost var before, beforeSites := edges, callsites;
        AddCall(f, calls[i]);
        CalleeSetMore(calls, i);
        AddedMore(old(edges), old(callsites), f, calls, i, collect, before, beforeSites, edges, callsites);
      }
      assert calls[..|calls|] == calls;
    }

    /** The complete graph: every function, each looked at once. */
    constructor Complete(fns: Functions, collect: bool)
      ensures this.collect == collect
      ensures nodes == fns.Keys + CalledFrom(fns, fns.Keys)
      ensures Describes(fns, OnceEach(fns.Keys), edges, collect, callsites)
    {
      this.collect := collect;
      nodes, edges, callsites := {}, map[], map[];
      new;
      hide Describes, Added, CalledFrom, OnceEach, CalleeSet;
      var rest := fns.Keys;
      ghost var done: set<Fid> := {};
      CompleteStart(fns, collect);
      while rest != {}
        invariant rest <= fns.Keys && done == fns.Keys - rest
        invariant nodes == done + CalledFrom(fns, done)
        invariant Describes(fns, OnceEach(done), edges, collect, callsites)
        decreases rest
      {
        var f :| f in rest;
        nodes := nodes + {f};
        ghost var before, beforeSites := edges, callsites;
        AddCalls(f, fns[f]);
        DescribesOne(fns, OnceEach(done), before, collect, beforeSites, f, edges, callsites);
        CompleteStep(fns, done, f);
        done := done + {f};
        rest := rest - {f};
      }
      assert done == fns.Keys;
    }

    /** The graph of the functions that can be reached from `root`. */
    constructor Rooted(fns: Functions, root: Fid, collect: bool)
      ensures this.collect == collect && IsRooted(fns, root, nodes, edges, collect, callsites)
    {
      this.collect := collect;
      nodes, edges, callsites := {}, map[], map[];
      new;
      hide Inv, IsRooted, Weights, CalleeSet;
      var stack := [root];
      ghost var visits: map<Fid, nat> := map[];
      InvStart(fns, root, collect);
      while stack != []
        invariant Inv(fns, root, stack, nodes, visits, edges, collect, callsites)
        decreases OpenSet(fns, edges), Weights(fns, stack)
      {
        ghost var before, beforeStack := State(nodes, visits, edges, callsites), stack;
        var f := stack[|stack| - 1];
        stack := stack[..|stack| - 1];
        nodes := nodes + {f};
        NoCalls(fns, before.edges.Keys + {f});
        if f in fns {
          stack := Expand(f, fns[f], stack);
          visits := visits[f := Visits(visits, f) + 1];
        }
        InvStep(fns, root, collect, beforeStack, before, stack, State(nodes, visits, edges, callsites));
        MeasureStep(fns, root, collect, beforeStack, before, stack, State(nodes, visits, edges, callsites));
      }
      InvEnd(fns, root, nodes, visits, edges, collect, callsites);
    }

    /** Add the calls of `f` and push every callee that has no edges yet. */
    method Expand(f: Fid, calls: seq<Call>, stack: seq<Fid>) returns (stack': seq<Fid>)
      modifies this
      ensures nodes == old(nodes) + (if calls == [] then {} else {f}) + CalleeSet(calls)
      ensures Added(old(edges), old(callsites), f, calls, collect, edges, callsites)
      ensures stack' == stack + Pushed(calls, old(edges).Keys + {f})
    {
      hide Added, Callees, CalleeSet;
      stack' := stack;
      AddedNone(edges, callsites, f, collect);
      for i := 0 to |calls|
        invariant nodes == old(nodes) + (if i == 0 then {} else {f}) + CalleeSet(calls[..i])
        invariant Added(old(edges), old(callsites), f, calls[..i], collect, edges, callsites)
        invariant edges.Keys == old(edges).Keys + (if i == 0 then {} else {f})
        invariant stack' == stack + Pushed(calls[..i], old(edges).Keys + {f})
      {
        ghost var before, beforeSites := edges, callsites;
        AddCall(f, calls[i]);
        assert calls[..i + 1][..i] == calls[..i];
        if calls[i].callee !in edges {
          stack' := stack' + [calls[i].callee];
        }
        CalleeSetMore(calls, i);
        AddedMore(old(edges), old(callsites), f, calls, i, collect, before, beforeSites, edges, callsites);
      }
      assert calls[..|calls|] == calls;
    }

    /** A copy with all edges turned round. */
    method GetInverted() returns (result: Graph)
      ensures fresh(result) && forall x :: x in result.nodes <==> x in nodes || EndOf(edges, edges.Keys, x)
      ensures forall f, g :: Occurs(result.edges, g, f) == Occurs(edges, f, g)
      ensures !result.collect && result.callsites == map[]
    {
      hide Occurs, CountIn, EndOf;
      result := new Graph.Empty(false);
      result.nodes := nodes;
      OccursNever(edges);
      EndsNone(edges);
      var rest := edges.Keys;
      ghost var done: set<Fid> := {};
      while rest != {}
        invariant rest <= edges.Keys && done == edges.Keys - rest && fresh(result)
        invariant !result.collect && result.callsites == map[]
        invariant forall x :: x in result.nodes <==> x in nodes || EndOf(edges, done, x)
        invariant forall f, g :: Occurs(result.edges, g, f) == if f in done then Occurs(edges, f, g) else 0
        decreases rest
      {
        var f :| f in rest;
        result.AddTurned(f, edges[f]);
        EndsMore(edges, done, f);
        rest, done := rest - {f}, done + {f};
      }
      assert done == edges.Keys;
    }

    /** Turn round the edges from `f`. */
    method AddTurned(f: Fid, callees: seq<Fid>)
      modifies this`nodes, this`edges
      ensures forall x :: x in nodes <==> x in old(nodes) || (callees != [] && (x == f || x in callees))
      ensures forall g, h :: Occurs(edges, g, h) == Occurs(old(edges), g, h) + if h == f then CountIn(callees, g) else 0
    {
      hide Occurs, CountIn;
      OccursNever(edges);
      for i := 0 to |callees|
        invariant forall x :: x in nodes <==> x in old(nodes) || (i > 0 && (x == f || x in callees[..i]))
        invariant forall g, h ::
                    Occurs(edges, g, h) == Occurs(old(edges), g, h) + if h == f then CountIn(callees[..i], g) else 0
      {
        ghost var before := edges;
        AddPair(callees[i], f);
        OccursMore(before, callees[i], f);
        CountMore(callees, i);
        assert callees[..i + 1] == callees[..i] + [callees[i]];
      }
      assert callees[..|callees|] == callees;
    }
  }

  ghost function CalledFrom(fns: Functions, fs: set<Fid>): set<Fid> {
    set f, g | f in fs && g in CalleeSet(CallsOf(fns, f)) :: g
  }

  ghost function OnceEach(fs: set<Fid>): map<Fid, nat> {
    map f | f in fs :: 1
  }

  lemma CompleteStart(fns: Functions, collect: bool)
    ensures CalledFrom(fns, {}) == {} && Describes(fns, OnceEach({}), map[], collect, map[])
  {
    assert OnceEach({}) == map[];
  }

  lemma CompleteStep(fns: Functions, done: set<Fid>, f: Fid)
    requires f !in done
    ensures CalledFrom(fns, done + {f}) == CalledFrom(fns, done) + CalleeSet(CallsOf(fns, f))
    ensures OnceEach(done + {f}) == OnceEach(done)[f := Visits(OnceEach(done), f) + 1]
  {
    hide CalleeSet, CallsOf;
  }

  lemma AddedNone(edges: Edges, sites: Sites, f: Fid, collect: bool)
    ensures Added(edges, sites, f, [], collect, edges, sites) && CalleeSet([]) == {}
  {
  }

  lemma EdgesMore(edges: Edges, edges1: Edges, f: Fid, calls: seq<Call>, i: nat, h: Fid)
    requires i < |calls| && EdgesOf(edges1, h) == EdgesOf(edges, h) + if h == f then Callees(calls[..i]) else []
    ensures EdgesOf(edges1[f := EdgesOf(edges1, f) + [calls[i].callee]], h)
            == EdgesOf(edges, h) + if h == f then Callees(calls[..i + 1]) else []
  {
    CalleesSnoc(calls, i);
    hide Callees;
  }

  lemma SitesMore(calls: seq<Call>, i: nat, g: Fid)
    requires i < |calls|
    ensures SitesTo(calls[..i + 1], g) == SitesTo(calls[..i], g) + if calls[i].callee == g then {calls[i].site} else {}
  {
    assert calls[..i + 1] == calls[..i] + [calls[i]];
    assert forall c :: c in calls[..i + 1] <==> c in calls[..i] || c == calls[i];
  }

  lemma AddedMore(
    edges: Edges, sites: Sites, f: Fid, calls: seq<Call>, i: nat, collect: bool,
    edges1: Edges, sites1: Sites, edges2: Edges, sites2: Sites)
    requires i < |calls| && Added(edges, sites, f, calls[..i], collect, edges1, sites1)
    requires edges2 == edges1[f := EdgesOf(edges1, f) + [calls[i].callee]]
    requires sites2 ==
             if collect then sites1[(f, calls[i].callee) := SitesOf(sites1, f, calls[i].callee) + {calls[i].site}]
             else sites1
    ensures Added(edges, sites, f, calls[..i + 1], collect, edges2, sites2)
  {
    hide Callees, SitesTo;
    forall h ensures EdgesOf(edges2, h) == EdgesOf(edges, h) + if h == f then Callees(calls[..i + 1]) else [] {
      EdgesMore(edges, edges1, f, calls, i, h);
    }
    forall h, g ensures SitesOf(sites2, h, g) ==
                        SitesOf(sites, h, g) + if h == f && collect then SitesTo(calls[..i + 1], g) else {} {
      SitesMore(calls, i, g);
      assert SitesOf(sites1, h, g) == SitesOf(sites, h, g) + if h == f && collect then SitesTo(calls[..i], g) else {};
    }
  }

  // ----- the rooted graph -----

  /** The nodes are the reachable functions; each has its calls as edges, as often
      as it is pushed, and its call sites if they are collected. */
  ghost predicate IsRooted(fns: Functions, root: Fid, nodes: set<Fid>, edges: Edges, collect: bool, sites: Sites) {
    && (forall f :: f in nodes <==> ReachableFrom(fns, root, f))
    && (forall f ::
          EdgesOf(edges, f) == if f in nodes then Times(Callees(CallsOf(fns, f)), Pushes(fns, root, f)) else [])
    && (forall f, g :: SitesOf(sites, f, g) == if collect && f in nodes then SitesTo(CallsOf(fns, f), g) else {})
  }

  datatype State = State(nodes: set<Fid>, visits: map<Fid, nat>, edges: Edges, sites: Sites)

  lemma NoCalls(fns: Functions, known: set<Fid>)
    ensures CalleeSet([]) == {} && Pushed([], known) == []
  {
  }

  /** Has calls that are not in the graph yet. */
  predicate Open(fns: Functions, edges: Edges, f: Fid) {
    CallsOf(fns, f) != [] && f !in edges
  }

  ghost function OpenSet(fns: Functions, edges: Edges): set<Fid> {
    set f | f in fns && Open(fns, edges, f)
  }

  /** `g` is an open callee of `f`, which is in the graph. */
  ghost predicate Owes(fns: Functions, edges: Edges, f: Fid, g: Fid) {
    f in edges && g in CalleeSet(CallsOf(fns, f)) && Open(fns, edges, g)
  }

  ghost predicate OnTop(stack: seq<Fid>, i: nat, g: Fid) {
    exists j :: i < j < |stack| && stack[j] == g
  }

  /** The last-in-first-out invariant: the open callees of a function in the graph
      lie above all its remaining duplicates on the stack. */
  ghost predicate CalleesAbove(fns: Functions, edges: Edges, stack: seq<Fid>) {
    forall i: nat, g :: i < |stack| && Owes(fns, edges, stack[i], g) ==> OnTop(stack, i, g)
  }

  /** Nodes and stack hold reachable functions, the root among them. */
  ghost predicate OnlyReachable(fns: Functions, root: Fid, stack: seq<Fid>, nodes: set<Fid>) {
    && (forall f :: f in nodes ==> ReachableFrom(fns, root, f))
    && (forall f :: f in stack ==> ReachableFrom(fns, root, f))
    && (root in nodes || root in stack)
  }

  /** A visited function and its callees are nodes. */
  ghost predicate VisitedNodes(fns: Functions, nodes: set<Fid>, visits: map<Fid, nat>) {
    forall f :: Visits(visits, f) > 0 ==> f in nodes && CalleeSet(CallsOf(fns, f)) <= nodes
  }

  /** An open node is on the stack. */
  ghost predicate OpenOnStack(fns: Functions, nodes: set<Fid>, edges: Edges, stack: seq<Fid>) {
    forall f :: f in nodes && Open(fns, edges, f) ==> f in stack
  }

  ghost predicate AllAccounted(fns: Functions, root: Fid, stack: seq<Fid>, visits: map<Fid, nat>, known: set<Fid>) {
    forall f :: ReachableFrom(fns, root, f) && CallsOf(fns, f) != [] ==> Accounted(fns, root, known, stack, visits, f)
  }

  ghost predicate Inv(
    fns: Functions, root: Fid, stack: seq<Fid>, nodes: set<Fid>, visits: map<Fid, nat>,
    edges: Edges, collect: bool, sites: Sites)
  {
    && Describes(fns, visits, edges, collect, sites) && OnlyReachable(fns, root, stack, nodes)
    && VisitedNodes(fns, nodes, visits) && OpenOnStack(fns, nodes, edges, stack) && CalleesAbove(fns, edges, stack)
    && AllAccounted(fns, root, stack, visits, edges.Keys)
  }

  lemma InvStart(fns: Functions, root: Fid, collect: bool)
    ensures Inv(fns, root, [root], {}, map[], map[], collect, map[])
  {
    assert InSteps(fns, root, 0, root);
    assert OnceEach({}) == map[];
    CompleteStart(fns, collect);
    var none: Edges := map[];
    assert none.Keys == {};
    forall f | ReachableFrom(fns, root, f) ensures Accounted(fns, root, {}, [root], map[], f) {
      AccountedStart(fns, root, f);
    }
  }

  lemma {:induction false} TimesEmpty(s: seq<Fid>, n: nat)
    ensures Times(s, n) == [] <==> n == 0 || s == []
  {
    if n == 0 {
    } else {
      TimesEmpty(s, n - 1);
    }
  }

  /** A function is in the graph if it was visited and has calls. */
  lemma InGraph(fns: Functions, visits: map<Fid, nat>, edges: Edges, collect: bool, sites: Sites, f: Fid)
    requires Describes(fns, visits, edges, collect, sites)
    ensures f in edges <==> Visits(visits, f) > 0 && CallsOf(fns, f) != []
  {
    TimesEmpty(Callees(CallsOf(fns, f)), Visits(visits, f));
    assert EdgesOf(edges, f) == Times(Callees(CallsOf(fns, f)), Visits(visits, f));
  }

  /** What one iteration does. */
  ghost predicate Iterates(fns: Functions, collect: bool, stack: seq<Fid>, x: State, stack': seq<Fid>, y: State) {
    && stack != []
    && var f, rest := stack[|stack| - 1], stack[..|stack| - 1];
       && y.nodes == x.nodes + {f} + CalleeSet(CallsOf(fns, f))
       && stack' == rest + Pushed(CallsOf(fns, f), x.edges.Keys + {f})
       && if f in fns then
            && y.visits == x.visits[f := Visits(x.visits, f) + 1]
            && Added(x.edges, x.sites, f, CallsOf(fns, f), collect, y.edges, y.sites)
          else
            y.visits == x.visits && y.edges == x.edges && y.sites == x.sites
  }

  lemma IterateDescribes(
    fns: Functions, root: Fid, collect: bool, stack: seq<Fid>, x: State, stack': seq<Fid>, y: State, h: Fid)
    requires Inv(fns, root, stack, x.nodes, x.visits, x.edges, collect, x.sites)
    requires Iterates(fns, collect, stack, x, stack', y)
    ensures Describes(fns, y.visits, y.edges, collect, y.sites)
    ensures var f := stack[|stack| - 1]; h in y.edges <==> h in x.edges || (h == f && CallsOf(fns, f) != [])
  {
    hide Describes, Added, CalleesAbove, CalleeSet, AllAccounted, OnlyReachable, Pushed;
    var f := stack[|stack| - 1];
    if f in fns {
      DescribesOne(fns, x.visits, x.edges, collect, x.sites, f, y.edges, y.sites);
    }
    InGraph(fns, x.visits, x.edges, collect, x.sites, h);
    InGraph(fns, y.visits, y.edges, collect, y.sites, h);
  }

  /** After popping `f`, its calls are in the graph and its open callees on top. */
  ghost predicate Pops(fns: Functions, edges: Edges, edges': Edges, stack: seq<Fid>, stack': seq<Fid>) {
    && stack != []
    && var f := stack[|stack| - 1];
       && (forall h :: h in edges' <==> h in edges || (h == f && CallsOf(fns, f) != []))
       && stack' == stack[..|stack| - 1] + Pushed(CallsOf(fns, f), edges.Keys + {f})
  }

  /** Pushed functions are not in the graph. */
  lemma PushedOutside(fns: Functions, edges: Edges, edges': Edges, stack: seq<Fid>, stack': seq<Fid>, k: nat)
    requires Pops(fns, edges, edges', stack, stack') && |stack| - 1 <= k < |stack'|
    ensures stack'[k] !in edges'
  {
    var n := |stack| - 1;
    var pushed := Pushed(CallsOf(fns, stack[n]), edges.Keys + {stack[n]});
    hide Pushed;
    assert stack'[k] == pushed[k - n] && pushed[k - n] in pushed;
  }

  /** A pushed function lies above everything that was there. */
  lemma PushedOnTop(fns: Functions, edges: Edges, edges': Edges, stack: seq<Fid>, stack': seq<Fid>, i: nat, g: Fid)
    requires Pops(fns, edges, edges', stack, stack') && i < |stack| - 1
    requires var f := stack[|stack| - 1]; g in CalleeSet(CallsOf(fns, f)) && g !in edges && g != f
    ensures OnTop(stack', i, g)
  {
    var n := |stack| - 1;
    PushedAre(CallsOf(fns, stack[n]), edges.Keys + {stack[n]});
    var pushed := Pushed(CallsOf(fns, stack[n]), edges.Keys + {stack[n]});
    hide Pushed, CalleeSet;
    var k :| 0 <= k < |pushed| && pushed[k] == g;
    assert stack'[n + k] == g;
  }

  lemma PopsAbove(fns: Functions, edges: Edges, edges': Edges, stack: seq<Fid>, stack': seq<Fid>, i: nat, g: Fid)
    requires Pops(fns, edges, edges', stack, stack') && CalleesAbove(fns, edges, stack)
    requires i < |stack| - 1 && Owes(fns, edges', stack[i], g)
    ensures OnTop(stack', i, g)
  {
    hide Pushed, CalleeSet;
    var f := stack[|stack| - 1];
    assert g != f && g !in edges;
    if stack[i] in edges {
      assert Owes(fns, edges, stack[i], g);
      var j :| i < j < |stack| && stack[j] == g;
      assert stack'[j] == g;
    } else {
      PushedOnTop(fns, edges, edges', stack, stack', i, g);
    }
  }

  lemma PopsOpen(
    fns: Functions, edges: Edges, edges': Edges, stack: seq<Fid>, stack': seq<Fid>, nodes: set<Fid>, nodes': set<Fid>)
    requires Pops(fns, edges, edges', stack, stack') && OpenOnStack(fns, nodes, edges, stack)
    requires var f := stack[|stack| - 1]; nodes' == nodes + {f} + CalleeSet(CallsOf(fns, f))
    ensures OpenOnStack(fns, nodes', edges', stack')
  {
    var n := |stack| - 1;
    var f := stack[n];
    PushedAre(CallsOf(fns, f), edges.Keys + {f});
    hide Pushed, CalleeSet;
    assert stack == stack[..n] + [f];
    forall h | h in nodes' && Open(fns, edges', h) ensures h in stack' {
      assert h != f && Open(fns, edges, h);
    }
  }

  lemma PopsReachable(fns: Functions, root: Fid, stack: seq<Fid>, known: set<Fid>, nodes: set<Fid>, nodes': set<Fid>)
    requires stack != [] && OnlyReachable(fns, root, stack, nodes)
    requires var f := stack[|stack| - 1]; nodes' == nodes + {f} + CalleeSet(CallsOf(fns, f))
    ensures OnlyReachable(fns, root, stack[..|stack| - 1] + Pushed(CallsOf(fns, stack[|stack| - 1]), known), nodes')
  {
    var n := |stack| - 1;
    var f := stack[n];
    PushedAre(CallsOf(fns, f), known);
    hide Pushed, CalleeSet, ReachableFrom;
    assert stack == stack[..n] + [f];
    forall g | g in CalleeSet(CallsOf(fns, f)) ensures ReachableFrom(fns, root, g) {
      ReachableStep(fns, root, f, g);
    }
  }

  lemma IteratePops(fns: Functions, root: Fid, collect: bool, stack: seq<Fid>, x: State, stack': seq<Fid>, y: State)
    requires Inv(fns, root, stack, x.nodes, x.visits, x.edges, collect, x.sites)
    requires Iterates(fns, collect, stack, x, stack', y)
    ensures Pops(fns, x.edges, y.edges, stack, stack') && Describes(fns, y.visits, y.edges, collect, y.sites)
  {
    hide Inv, Describes, Pushed, CalleeSet;
    forall h ensures Describes(fns, y.visits, y.edges, collect, y.sites)
             ensures var f := stack[|stack| - 1]; h in y.edges <==> h in x.edges || (h == f && CallsOf(fns, f) != []) {
      IterateDescribes(fns, root, collect, stack, x, stack', y, h);
    }
    assert Describes(fns, y.visits, y.edges, collect, y.sites) by {
      IterateDescribes(fns, root, collect, stack, x, stack', y, 0);
    }
  }

  lemma InvStep(fns: Functions, root: Fid, collect: bool, stack: seq<Fid>, x: State, stack': seq<Fid>, y: State)
    requires Inv(fns, root, stack, x.nodes, x.visits, x.edges, collect, x.sites)
    requires Iterates(fns, collect, stack, x, stack', y)
    ensures Inv(fns, root, stack', y.nodes, y.visits, y.edges, collect, y.sites)
  {
    hide Describes, OnlyReachable, OpenOnStack, Pushed, CalleeSet, Pops, Owes, OnTop, AllAccounted;
    IteratePops(fns, root, collect, stack, x, stack', y);
    PopsReachable(fns, root, stack, x.edges.Keys + {stack[|stack| - 1]}, x.nodes, y.nodes);
    PopsOpen(fns, x.edges, y.edges, stack, stack', x.nodes, y.nodes);
    forall i: nat, g | i < |stack'| && Owes(fns, y.edges, stack'[i], g) ensures OnTop(stack', i, g) {
      OwesBelow(fns, x.edges, y.edges, stack, stack', i, g);
      PopsAbove(fns, x.edges, y.edges, stack, stack', i, g);
    }
    PopsAccounted(fns, root, collect, stack, x, stack', y);
  }

  lemma PopsAccounted(fns: Functions, root: Fid, collect: bool, stack: seq<Fid>, x: State, stack': seq<Fid>, y: State)
    requires Iterates(fns, collect, stack, x, stack', y) && Pops(fns, x.edges, y.edges, stack, stack')
    requires CalleesAbove(fns, x.edges, stack) && AllAccounted(fns, root, stack, x.visits, x.edges.Keys)
    ensures AllAccounted(fns, root, stack', y.visits, y.edges.Keys)
  {
    hide ReachableFrom, Accounted, Pushed, CalleeSet, Added, CalleesAbove;
    var g := stack[|stack| - 1];
    assert Takes(fns, x.edges.Keys, stack, x.visits, y.edges.Keys, stack', y.visits);
    PushedAre(CallsOf(fns, g), x.edges.Keys + {g});
    forall h | g in x.edges && h in Pushed(CallsOf(fns, g), x.edges.Keys + {g}) ensures CallsOf(fns, h) == [] {
      NothingOpen(fns, x.edges, stack, h);
    }
    forall f | ReachableFrom(fns, root, f) && CallsOf(fns, f) != []
      ensures Accounted(fns, root, y.edges.Keys, stack', y.visits, f)
    {
      AccountedStep(fns, root, x.edges.Keys, stack, x.visits, y.edges.Keys, stack', y.visits, f);
    }
  }

  lemma OwesBelow(fns: Functions, edges: Edges, edges': Edges, stack: seq<Fid>, stack': seq<Fid>, i: nat, g: Fid)
    requires Pops(fns, edges, edges', stack, stack') && i < |stack'| && Owes(fns, edges', stack'[i], g)
    ensures i < |stack| - 1 && stack'[i] == stack[i]
  {
    hide Pushed;
    if i >= |stack| - 1 {
      PushedOutside(fns, edges, edges', stack, stack', i);
    }
  }

  // ----- termination -----

  ghost function Weights(fns: Functions, stack: seq<Fid>): nat {
    if stack == [] then 0 else Weights(fns, stack[..|stack| - 1]) + 1 + |CallsOf(fns, stack[|stack| - 1])|
  }

  lemma {:induction false} LeafWeights(fns: Functions, stack: seq<Fid>, more: seq<Fid>)
    requires forall g :: g in more ==> CallsOf(fns, g) == []
    ensures Weights(fns, stack + more) == Weights(fns, stack) + |more|
    decreases |more|
  {
    if more == [] {
      assert stack + more == stack;
    } else {
      var n := |more| - 1;
      LeafWeights(fns, stack, more[..n]);
      assert (stack + more)[..|stack + more| - 1] == stack + more[..n];
      assert more[n] in more;
    }
  }

  /** Either a function leaves the open ones, or only functions without calls are
      pushed for one with as many calls. */
  lemma MeasureStep(fns: Functions, root: Fid, collect: bool, stack: seq<Fid>, x: State, stack': seq<Fid>, y: State)
    requires Inv(fns, root, stack, x.nodes, x.visits, x.edges, collect, x.sites)
    requires Iterates(fns, collect, stack, x, stack', y)
    ensures OpenSet(fns, y.edges) < OpenSet(fns, x.edges)
            || (OpenSet(fns, y.edges) == OpenSet(fns, x.edges) && Weights(fns, stack') < Weights(fns, stack))
  {
    hide Describes, Added, Pushed, ReachableFrom, CalleeSet;
    var n := |stack| - 1;
    var f := stack[n];
    forall h ensures h in y.edges <==> h in x.edges || (h == f && CallsOf(fns, f) != []) {
      IterateDescribes(fns, root, collect, stack, x, stack', y, h);
    }
    if Open(fns, x.edges, f) {
      assert f in OpenSet(fns, x.edges) && f !in OpenSet(fns, y.edges);
    } else {
      PushedAre(CallsOf(fns, f), x.edges.Keys + {f});
      var pushed := Pushed(CallsOf(fns, f), x.edges.Keys + {f});
      forall g | g in pushed ensures CallsOf(fns, g) == [] {
        NothingOpen(fns, x.edges, stack, g);
      }
      LeafWeights(fns, stack[..n], pushed);
    }
  }

  lemma NothingOpen(fns: Functions, edges: Edges, stack: seq<Fid>, g: Fid)
    requires stack != [] && CalleesAbove(fns, edges, stack) && !Open(fns, edges, stack[|stack| - 1])
    requires g in CalleeSet(CallsOf(fns, stack[|stack| - 1])) && g !in edges
    ensures CallsOf(fns, g) == []
  {
    var n := |stack| - 1;
    assert CallsOf(fns, stack[n]) != [];
    assert !OnTop(stack, n, g);
    assert !Owes(fns, edges, stack[n], g);
  }

  /** With an empty stack every node with calls was visited. */
  lemma AllVisited(
    fns: Functions, root: Fid, nodes: set<Fid>, visits: map<Fid, nat>, edges: Edges, collect: bool, sites: Sites,
    f: Fid)
    requires Inv(fns, root, [], nodes, visits, edges, collect, sites) && f in nodes && CallsOf(fns, f) != []
    ensures Visits(visits, f) > 0
  {
    hide Describes, CalleesAbove, OnlyReachable;
    InGraph(fns, visits, edges, collect, sites, f);
  }

  lemma NodesReachable(
    fns: Functions, root: Fid, nodes: set<Fid>, visits: map<Fid, nat>, edges: Edges, collect: bool, sites: Sites)
    requires Inv(fns, root, [], nodes, visits, edges, collect, sites)
    ensures forall f :: f in nodes <==> ReachableFrom(fns, root, f)
  {
    hide Describes, CalleesAbove, OpenOnStack;
    forall g, h | g in nodes && h in CalleeSet(CallsOf(fns, g)) ensures h in nodes {
      AllVisited(fns, root, nodes, visits, edges, collect, sites, g);
    }
    forall f | ReachableFrom(fns, root, f) ensures f in nodes {
      var n: nat :| InSteps(fns, root, n, f);
      ClosedReaches(fns, root, nodes, n, f);
    }
  }

  lemma InvEnd(
    fns: Functions, root: Fid, nodes: set<Fid>, visits: map<Fid, nat>, edges: Edges, collect: bool, sites: Sites)
    requires Inv(fns, root, [], nodes, visits, edges, collect, sites)
    ensures IsRooted(fns, root, nodes, edges, collect, sites)
  {
    hide ReachableFrom, CalleesAbove, Describes, Callees, SitesTo, OnlyReachable, OpenOnStack, Times, Pushes;
    NodesReachable(fns, root, nodes, visits, edges, collect, sites);
    forall f
      ensures EdgesOf(edges, f) == if f in nodes then Times(Callees(CallsOf(fns, f)), Pushes(fns, root, f)) else []
    {
      if f in nodes && CallsOf(fns, f) != [] {
        AccountedEnd(fns, root, edges.Keys, visits, f);
      }
      RootedCalls(fns, root, nodes, visits, edges, collect, sites, f);
    }
    forall f, g ensures SitesOf(sites, f, g) == if collect && f in nodes then SitesTo(CallsOf(fns, f), g) else {} {
      if f in nodes && CallsOf(fns, f) != [] {
        AllVisited(fns, root, nodes, visits, edges, collect, sites, f);
      }
      RootedSites(fns, nodes, visits, edges, collect, sites, f);
    }
  }

  lemma RootedSites(
    fns: Functions, nodes: set<Fid>, visits: map<Fid, nat>, edges: Edges, collect: bool, sites: Sites, f: Fid)
    requires Describes(fns, visits, edges, collect, sites)
    requires (Visits(visits, f) > 0 ==> f in nodes) && (f in nodes && CallsOf(fns, f) != [] ==> Visits(visits, f) > 0)
    ensures forall g :: SitesOf(sites, f, g) == if collect && f in nodes then SitesTo(CallsOf(fns, f), g) else {}
  {
  }

  lemma RootedCalls(
    fns: Functions, root: Fid, nodes: set<Fid>, visits: map<Fid, nat>, edges: Edges, collect: bool, sites: Sites,
    f: Fid)
    requires Describes(fns, visits, edges, collect, sites) && (Visits(visits, f) > 0 ==> f in nodes)
    requires f in nodes && CallsOf(fns, f) != [] ==> Visits(visits, f) == Pushes(fns, root, f)
    ensures EdgesOf(edges, f) == if f in nodes then Times(Callees(CallsOf(fns, f)), Pushes(fns, root, f)) else []
  {
    hide Pushes;
    assert EdgesOf(edges, f) == Times(Callees(CallsOf(fns, f)), Visits(visits, f));
    if CallsOf(fns, f) == [] {
      TimesEmpty([], Visits(visits, f));
      TimesEmpty([], Pushes(fns, root, f));
    }
  }

  /** The nodes are those of the complete graph that can be reached, and the root,
      which is a node even if no function calls or defines it. */
  lemma RootedNodes(fns: Functions, root: Fid, nodes: set<Fid>, edges: Edges, collect: bool, sites: Sites, f: Fid)
    requires IsRooted(fns, root, nodes, edges, collect, sites)
    ensures f in nodes <==> f == root || (f in fns.Keys + CalledFrom(fns, fns.Keys) && ReachableFrom(fns, root, f))
  {
    hide SitesTo, Callees, Pushes, Times;
    assert InSteps(fns, root, 0, root);
    if f in nodes && f != root {
      var n: nat :| InSteps(fns, root, n, f);
      var h :| InSteps(fns, root, n - 1, h) && f in CalleeSet(CallsOf(fns, h));
      assert h in fns;
    }
  }

  /** As sets, the edges and call sites of the rooted graph are those of the
      complete graph that start at a reachable function. */
  lemma RootedEdges(
    fns: Functions, root: Fid, collect: bool,
    nodes: set<Fid>, edges: Edges, sites: Sites, allEdges: Edges, allSites: Sites, f: Fid, g: Fid)
    requires IsRooted(fns, root, nodes, edges, collect, sites)
    requires Describes(fns, OnceEach(fns.Keys), allEdges, collect, allSites)
    ensures g in EdgesOf(edges, f) <==> g in EdgesOf(allEdges, f) && ReachableFrom(fns, root, f)
    ensures SitesOf(sites, f, g) == if ReachableFrom(fns, root, f) then SitesOf(allSites, f, g) else {}
  {
    hide ReachableFrom, NoEmpty, Pushes, Times;
    AllOnce(fns, collect, allEdges, allSites, f);
    if f in nodes {
      PushedReachable(fns, root, f);
      TimesElements(Callees(CallsOf(fns, f)), Pushes(fns, root, f), g);
    }
  }

  lemma AllOnce(fns: Functions, collect: bool, allEdges: Edges, allSites: Sites, f: Fid)
    requires Describes(fns, OnceEach(fns.Keys), allEdges, collect, allSites)
    ensures EdgesOf(allEdges, f) == Callees(CallsOf(fns, f))
    ensures forall g :: SitesOf(allSites, f, g) == if collect then SitesTo(CallsOf(fns, f), g) else {}
  {
    assert EdgesOf(allEdges, f) == Times(Callees(CallsOf(fns, f)), Visits(OnceEach(fns.Keys), f));
    assert Times(Callees(CallsOf(fns, f)), 1) == Times(Callees(CallsOf(fns, f)), 0) + Callees(CallsOf(fns, f));
    assert f !in fns ==> Callees(CallsOf(fns, f)) == [];
  }

  /** With multiplicities, each edge of a reachable function occurs as often as in
      the complete graph, times the number of pushes of the function. */
  lemma RootedCounts(
    fns: Functions, root: Fid, collect: bool,
    nodes: set<Fid>, edges: Edges, sites: Sites, allEdges: Edges, allSites: Sites, f: Fid, g: Fid)
    requires IsRooted(fns, root, nodes, edges, collect, sites)
    requires Describes(fns, OnceEach(fns.Keys), allEdges, collect, allSites)
    ensures Occurs(edges, f, g) ==
            if ReachableFrom(fns, root, f) then Pushes(fns, root, f) * Occurs(allEdges, f, g) else 0
  {
    hide ReachableFrom, NoEmpty, Pushes, Times;
    AllOnce(fns, collect, allEdges, allSites, f);
    if f in nodes {
      TimesCount(Callees(CallsOf(fns, f)), Pushes(fns, root, f), g);
    }
  }

  lemma {:induction false} TimesCount(s: seq<Fid>, n: nat, g: Fid)
    ensures CountIn(Times(s, n), g) == n * CountIn(s, g)
  {
    if n == 0 {
      assert Times(s, n) == [];
    } else {
      TimesCount(s, n - 1, g);
      assert n * CountIn(s, g) == (n - 1) * CountIn(s, g) + CountIn(s, g);
    }
  }

  /** Every reachable function with calls is pushed once. */
  ghost predicate PushedOnce(fns: Functions, root: Fid) {
    forall f :: ReachableFrom(fns, root, f) && CallsOf(fns, f) != [] ==> Pushes(fns, root, f) == 1
  }

  /** The rooted graph has the parallel edges of the complete graph, one for each
      call site, exactly if every reachable function with calls is pushed once. */
  lemma RootedExact(
    fns: Functions, root: Fid, collect: bool,
    nodes: set<Fid>, edges: Edges, sites: Sites, allEdges: Edges, allSites: Sites)
    requires IsRooted(fns, root, nodes, edges, collect, sites)
    requires Describes(fns, OnceEach(fns.Keys), allEdges, collect, allSites)
    ensures (forall f, g :: ReachableFrom(fns, root, f) ==> Occurs(edges, f, g) == Occurs(allEdges, f, g))
            <==> PushedOnce(fns, root)
  {
    hide ReachableFrom, NoEmpty, Pushes, Times, IsRooted, Describes, Occurs;
    forall f, g ensures Occurs(edges, f, g) ==
                        if ReachableFrom(fns, root, f) then Pushes(fns, root, f) * Occurs(allEdges, f, g) else 0 {
      RootedCounts(fns, root, collect, nodes, edges, sites, allEdges, allSites, f, g);
    }
    forall f ensures CallsOf(fns, f) == [] ==> forall g :: Occurs(allEdges, f, g) == 0
             ensures CallsOf(fns, f) != [] ==> exists g :: Occurs(allEdges, f, g) > 0 {
      SomeEdge(fns, collect, allEdges, allSites, f);
    }
    if forall f, g :: ReachableFrom(fns, root, f) ==> Occurs(edges, f, g) == Occurs(allEdges, f, g) {
      forall f | ReachableFrom(fns, root, f) && CallsOf(fns, f) != [] ensures Pushes(fns, root, f) == 1 {
        var g :| Occurs(allEdges, f, g) > 0;
        assert Pushes(fns, root, f) * Occurs(allEdges, f, g) == Occurs(allEdges, f, g);
        OneFactor(Pushes(fns, root, f), Occurs(allEdges, f, g));
      }
    }
  }

  lemma OneFactor(k: nat, n: nat)
    requires n > 0 && k * n == n
    ensures k == 1
  {
  }

  lemma SomeEdge(fns: Functions, collect: bool, allEdges: Edges, allSites: Sites, f: Fid)
    requires Describes(fns, OnceEach(fns.Keys), allEdges, collect, allSites)
    ensures CallsOf(fns, f) == [] ==> forall g :: Occurs(allEdges, f, g) == 0
    ensures CallsOf(fns, f) != [] ==> exists g :: Occurs(allEdges, f, g) > 0
  {
    hide Describes;
    AllOnce(fns, collect, allEdges, allSites, f);
    if CallsOf(fns, f) != [] {
      assert Callees(CallsOf(fns, f))[0] in Callees(CallsOf(fns, f));
      assert Occurs(allEdges, f, CallsOf(fns, f)[0].callee) > 0;
    }
  }

  /** That is so if each of them has a single call from another function. */
  lemma CalledOnceExact(fns: Functions, root: Fid)
    requires forall f :: ReachableFrom(fns, root, f) && CallsOf(fns, f) != [] ==> f == root || CalledOnce(fns, root, f)
    ensures PushedOnce(fns, root)
  {
    hide ReachableFrom, CalledOnce, Pushes;
    forall f | ReachableFrom(fns, root, f) && CallsOf(fns, f) != [] ensures Pushes(fns, root, f) == 1 {
      VisitedOnce(fns, root, f);
    }
  }

  /** It is not so in general: 0 calls 1 twice, 1 calls 2 once, and the edge from 1
      to 2 is entered twice. */
  lemma EdgeRepeated(nodes: set<Fid>, edges: Edges, collect: bool, sites: Sites)
    requires IsRooted(CallingTwice(), 0, nodes, edges, collect, sites)
    ensures EdgesOf(edges, 1) == [2, 2] && Callees(CallsOf(CallingTwice(), 1)) == [2]
  {
    hide Pushes, ReachableFrom, SitesTo;
    PushedTwice();
    assert Callees(CallsOf(CallingTwice(), 1)) == [2];
    assert Times([2], 1) == [2] && Times([2], 2) == [2, 2];
  }

  function CallingTwice(): Functions {
    map[0 := [Call(0, 1), Call(1, 1)], 1 := [Call(2, 2)]]
  }

  lemma PushedTwice()
    ensures ReachableFrom(CallingTwice(), 0, 1) && Pushes(CallingTwice(), 0, 1) == 2
  {
    hide PushesFrom;
    var fns := CallingTwice();
    assert CallsOf(fns, 0)[0] in CallsOf(fns, 0);
    assert InSteps(fns, 0, 0, 0);
    assert InSteps(fns, 0, 1, 1);
    assert CallPath(fns, {0}, 0, 1, 1);
    assert CallPath(fns, {}, 0, 1, 1);
    assert CallPath(fns, {}, 1, 0, 1);
    PushesStep(fns, {}, 0, 1);
    assert {} + {0} == {0 as Fid};
    assert fns[0][1].callee == 1 && Reaches(fns, {0}, 1, 1);
    assert LastTo(fns, {} + {0}, fns[0], 1) == 1;
    assert Callees(fns[0]) == [1, 1];
    assert CountIn([1, 1], 1) == 2;
    AtGoal(fns, {} + {0}, 1);
  }

  lemma {:induction false} TimesElements(s: seq<Fid>, n: nat, x: Fid)
    requires n > 0
    ensures x in Times(s, n) <==> x in s
  {
    if n > 1 {
      TimesElements(s, n - 1, x);
    } else {
      assert Times(s, 1) == [] + s;
    }
  }

  // ----- inversion -----

  /** `x` is an end of an edge from one of `fs`. */
  ghost predicate EndOf(edges: Edges, fs: set<Fid>, x: Fid) {
    exists f :: f in fs && f in edges && edges[f] != [] && (x == f || x in edges[f])
  }

  lemma EndsNone(edges: Edges)
    ensures forall x :: !EndOf(edges, {}, x)
  {
  }

  lemma EndsMore(edges: Edges, fs: set<Fid>, f: Fid)
    requires f in edges
    ensures forall x :: EndOf(edges, fs + {f}, x) <==>
                        EndOf(edges, fs, x) || (edges[f] != [] && (x == f || x in edges[f]))
  {
  }

  /** How often a pair occurs. */
  ghost function Occurs(edges: Edges, f: Fid, g: Fid): nat {
    CountIn(EdgesOf(edges, f), g)
  }

  lemma OccursNever(edges: Edges)
    ensures forall f, g :: Occurs(map[], f, g) == 0
    ensures forall f, g :: f in edges ==> Occurs(edges, f, g) == CountIn(edges[f], g)
    ensures forall f, g :: f !in edges ==> Occurs(edges, f, g) == 0
    ensures forall g :: CountIn([], g) == 0
  {
  }

  lemma OccursMore(edges: Edges, f: Fid, g: Fid)
    ensures forall a, b :: Occurs(edges[f := EdgesOf(edges, f) + [g]], a, b)
                           == Occurs(edges, a, b) + if a == f && b == g then 1 else 0
  {
  }
}
