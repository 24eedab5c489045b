/** Where states flow, for every program, history and domain: the final state of
    every stored history has been passed on along local steps, over calls that are
    stepped over, and into the callees of calls that are entered.  Nothing is asked
    of the transformer, not even that it is monotone. */
module AiFlow {
  import opened Options
  import opened GotoProgram
  import opened AiSpec

  ghost predicate UpperBounds<H(!new), D(!new)>(a: Analysis<H, D>, leq: (D, D) -> bool, valid: D -> bool) {
    && (forall d :: leq(d, d))
    && (forall d, e, h, h' :: valid(d) && valid(e) ==>
          leq(d, a.merge(d, e, h, h').state) && leq(e, a.merge(d, e, h, h').state))
  }

  /** `kept` holds of every result of a merge. */
  ghost predicate GrowthRules<H(!new), D(!new)>(
    a: Analysis<H, D>, leq: (D, D) -> bool, valid: D -> bool, kept: D -> bool)
  {
    && a.prog.WellFormed() && StepLaws(a) && DomainLaws(a, valid) && UpperBounds(a, leq, valid)
    && (forall d, e, f :: leq(d, e) && leq(e, f) ==> leq(d, f))
    && kept(a.entry) && (forall d, e, h, h' :: valid(d) && valid(e) ==> kept(a.merge(d, e, h, h').state))
  }

  /** The history `h` steps to `n` if the right histories are at `to`. */
  ghost predicate Follows<H(!new), D(!new)>(a: Analysis<H, D>, h: H, to: Loc, n: H) {
    exists others :: AllAt(a, others, to) && a.step(h, to, others, None) in [New(n), Merged(n)]
  }

  ghost predicate Refused<H(!new), D(!new)>(a: Analysis<H, D>, h: H, to: Loc) {
    exists others :: AllAt(a, others, to) && a.step(h, to, others, None).Blocked?
  }

  /** What flows from `h` to its successor `n` is in the state of `n`. */
  ghost predicate Landed<H(!new), D(!new)>(
    a: Analysis<H, D>, leq: (D, D) -> bool, states: map<H, D>, h: H, to: Loc, n: H)
    requires h in states
  {
    n in states && a.loc(n) == to && Follows(a, h, to, n) && leq(a.transform(h, n, states[h]), states[n])
  }

  /** If `h` is reachable, its state is passed on to a successor at `to`, unless
      the history refuses the step. */
  ghost predicate PassedOn<H(!new), D(!new)>(
    a: Analysis<H, D>, leq: (D, D) -> bool, states: map<H, D>, h: H, to: Loc)
  {
    h in states && !a.isBottom(states[h]) ==>
      Refused(a, h, to) || exists n :: Landed(a, leq, states, h, to, n)
  }

  predicate Onward(prog: Program, l: Loc, to: Loc) {
    prog.LocalStep(l, to) || (prog.Descends(l) && to == prog.Entry(l))
  }

  ghost predicate Settled<H(!new), D(!new)>(a: Analysis<H, D>, leq: (D, D) -> bool, states: map<H, D>, h: H) {
    forall to :: Onward(a.prog, a.loc(h), to) ==> PassedOn(a, leq, states, h, to)
  }

  /** The invariant; `pending` holds the histories of all working sets, those of
      the suspended fixed points included. */
  ghost predicate Good<H(!new), D(!new)>(
    a: Analysis<H, D>, leq: (D, D) -> bool, valid: D -> bool, kept: D -> bool, states: map<H, D>, pending: set<H>)
  {
    && AllValid(valid, states) && Live(a, states, pending) && AllValid(kept, states)
    && forall h :: h in states && h !in pending ==> Settled(a, leq, states, h)
  }

  ghost predicate Rises<H(!new), D(!new)>(leq: (D, D) -> bool, states: map<H, D>, states': map<H, D>) {
    forall h :: h in states ==> h in states' && leq(states[h], states'[h])
  }

  lemma RisesTransitive<H(!new), D(!new)>(leq: (D, D) -> bool, s1: map<H, D>, s2: map<H, D>, s3: map<H, D>)
    requires Rises(leq, s1, s2) && Rises(leq, s2, s3) && forall d, e, f :: leq(d, e) && leq(e, f) ==> leq(d, f)
    ensures Rises(leq, s1, s3)
  {
  }

  // ----- one edge -----

  /** What an edge does: it changes the state of the next history at most. */
  lemma EdgeShape<H(!new), D(!new)>(
    a: Analysis<H, D>, leq: (D, D) -> bool, valid: D -> bool, kept: D -> bool,
    states: map<H, D>, p: H, to: Loc, caller: Option<H>)
    requires GrowthRules(a, leq, valid, kept) && AllValid(valid, states) && Live(a, states, {p})
    ensures var e := EdgeF(a, states, p, to, caller);
            var next := a.step(p, to, Traces(a, states, to), caller);
            if next.Blocked? then
              e == EdgeResult(states, None)
            else
              var n := next.to;
              && n in e.states && a.loc(n) == to && valid(e.states[n]) && kept(e.states[n])
              && leq(a.transform(p, n, states[p]), e.states[n]) && (n in states ==> leq(states[n], e.states[n]))
              && (forall h :: h != n ==> (h in states <==> h in e.states) && (h in states ==> e.states[h] == states[h]))
              && (e.queued == None || e.queued == Some(n)) && (e.queued.Some? ==> !a.isBottom(e.states[n]))
              && (e.queued == None ==> if n in states then e.states == states else a.isBottom(e.states[n]))
  {
    hide Program.WellFormed;
    var others := Traces(a, states, to);
    assert AllAt(a, others, to);
    var next := a.step(p, to, others, caller);
    if !next.Blocked? {
      var n := next.to;
      assert p in states && !a.isBottom(states[p]);
      var before := if n in states then states[n] else a.bottom;
      var values := a.transform(p, n, states[p]);
      assert valid(before) && valid(values);
      var j := a.merge(before, values, p, n);
      assert leq(before, j.state) && leq(values, j.state);
      var e := EdgeF(a, states, p, to, caller);
      assert e.states == Touch(a, states, n)[n := j.state];
      if n in states && !j.changed {
        assert states[n := states[n]] == states;
      }
    }
  }

  /** What was passed on stays so while the source does not change. */
  lemma StillPassedOn<H(!new), D(!new)>(
    a: Analysis<H, D>, leq: (D, D) -> bool, states: map<H, D>, states': map<H, D>, h: H, to: Loc)
    requires Rises(leq, states, states') && (forall d, e, f :: leq(d, e) && leq(e, f) ==> leq(d, f))
    requires PassedOn(a, leq, states, h, to) && h in states && h in states' && states'[h] == states[h]
    ensures PassedOn(a, leq, states', h, to)
  {
    hide Follows, Refused;
    if !a.isBottom(states[h]) && !Refused(a, h, to) {
      var n :| Landed(a, leq, states, h, to, n);
      assert Landed(a, leq, states', h, to, n);
    }
  }

  lemma EdgeGood<H(!new), D(!new)>(
    a: Analysis<H, D>, leq: (D, D) -> bool, valid: D -> bool, kept: D -> bool,
    states: map<H, D>, pending: set<H>, p: H, to: Loc, caller: Option<H>)
    requires GrowthRules(a, leq, valid, kept) && Good(a, leq, valid, kept, states, pending) && Live(a, states, {p})
    ensures var e := EdgeF(a, states, p, to, caller);
            Good(a, leq, valid, kept, e.states, Queue(pending, e.queued)) && Rises(leq, states, e.states)
  {
    hide StepLaws, DomainLaws, EdgeF, PassedOn, Onward;
    hide Program.WellFormed;
    EdgeShape(a, leq, valid, kept, states, p, to, caller);
    var e := EdgeF(a, states, p, to, caller);
    var pending' := Queue(pending, e.queued);
    assert Rises(leq, states, e.states);
    forall h, t | h in e.states && h !in pending' && Onward(a.prog, a.loc(h), t)
      ensures PassedOn(a, leq, e.states, h, t)
    {
      if h in states {
        assert Settled(a, leq, states, h);
        StillPassedOn(a, leq, states, e.states, h, t);
      } else {
        BottomPassesOn(a, leq, e.states, h, t);
      }
    }
  }

  lemma BottomPassesOn<H(!new), D(!new)>(a: Analysis<H, D>, leq: (D, D) -> bool, states: map<H, D>, h: H, to: Loc)
    requires h in states && a.isBottom(states[h])
    ensures PassedOn(a, leq, states, h, to)
  {
  }

  /** An edge passes on the state of its own source. */
  lemma EdgePasses<H(!new), D(!new)>(
    a: Analysis<H, D>, leq: (D, D) -> bool, valid: D -> bool, kept: D -> bool, states: map<H, D>, p: H, to: Loc)
    requires GrowthRules(a, leq, valid, kept) && AllValid(valid, states) && Live(a, states, {p})
    ensures var e := EdgeF(a, states, p, to, None);
            e.queued != Some(p) ==> p in e.states && e.states[p] == states[p] && PassedOn(a, leq, e.states, p, to)
  {
    hide StepLaws, DomainLaws, EdgeF;
    hide Program.WellFormed;
    EdgeShape(a, leq, valid, kept, states, p, to, None);
    var e := EdgeF(a, states, p, to, None);
    var others := Traces(a, states, to);
    assert AllAt(a, others, to);
    var next := a.step(p, to, others, None);
    assert p in states;
    if next.Blocked? {
      assert Refused(a, p, to);
    } else if e.queued != Some(p) {
      assert Follows(a, p, to, next.to);
      assert Landed(a, leq, e.states, p, to, next.to);
    }
  }

  // ----- a visit -----

  ghost predicate DoneTo<H(!new), D(!new)>(
    a: Analysis<H, D>, leq: (D, D) -> bool, states: map<H, D>, p: H, done: seq<Loc>)
  {
    forall to :: to in done && to in a.prog.code ==> PassedOn(a, leq, states, p, to)
  }

  lemma {:induction false} LocalGood<H(!new), D(!new)>(
    a: Analysis<H, D>, leq: (D, D) -> bool, valid: D -> bool, kept: D -> bool,
    w: Work<H, D>, outside: set<H>, p: H, done: seq<Loc>, succs: seq<Loc>)
    requires GrowthRules(a, leq, valid, kept) && Good(a, leq, valid, kept, w.states, w.pending + outside + {p})
    requires p in w.pending || DoneTo(a, leq, w.states, p, done)
    ensures var w' := LocalF(a, w, p, succs);
            && Good(a, leq, valid, kept, w'.states, w'.pending + outside + {p}) && Rises(leq, w.states, w'.states)
            && (p in w'.pending || DoneTo(a, leq, w'.states, p, done + succs))
    decreases |succs|
  {
    hide StepLaws, DomainLaws, EdgeF, Settled;
    hide Program.WellFormed;
    if succs == [] {
      assert done + succs == done;
    } else {
      var to := succs[0];
      assert (done + [to]) + succs[1..] == done + succs;
      if to !in a.prog.code {
        LocalGood(a, leq, valid, kept, w, outside, p, done + [to], succs[1..]);
      } else {
        var e := EdgeF(a, w.states, p, to, None);
        assert p in w.pending + outside + {p};
        EdgeGood(a, leq, valid, kept, w.states, w.pending + outside + {p}, p, to, None);
        var w1 := Work(e.states, Queue(w.pending, e.queued));
        assert Queue(w.pending + outside + {p}, e.queued) == w1.pending + outside + {p};
        if p !in w1.pending {
          DoneMore(a, leq, valid, kept, w.states, p, done, to);
        }
        LocalGood(a, leq, valid, kept, w1, outside, p, done + [to], succs[1..]);
        RisesTransitive(leq, w.states, w1.states, LocalF(a, w, p, succs).states);
      }
    }
  }

  lemma DoneMore<H(!new), D(!new)>(
    a: Analysis<H, D>, leq: (D, D) -> bool, valid: D -> bool, kept: D -> bool,
    states: map<H, D>, p: H, done: seq<Loc>, to: Loc)
    requires GrowthRules(a, leq, valid, kept) && AllValid(valid, states) && Live(a, states, {p})
    requires Rises(leq, states, EdgeF(a, states, p, to, None).states)
    requires DoneTo(a, leq, states, p, done) && EdgeF(a, states, p, to, None).queued != Some(p)
    ensures DoneTo(a, leq, EdgeF(a, states, p, to, None).states, p, done + [to])
  {
    hide StepLaws, DomainLaws, EdgeF, PassedOn;
    hide Program.WellFormed;
    assert p in states;
    EdgePasses(a, leq, valid, kept, states, p, to);
    var e := EdgeF(a, states, p, to, None);
    forall t | t in done + [to] && t in a.prog.code ensures PassedOn(a, leq, e.states, p, t) {
      if t in done {
        StillPassedOn(a, leq, states, e.states, p, t);
      }
    }
  }

  /** The successors of a location that is not an entered call. */
  function Successors(prog: Program, l: Loc): seq<Loc> {
    if l !in prog.code then [] else match prog.code[l]
      case Local(targets) => targets
      case FunctionCall(_) => [l + 1]
      case EndFunction => []
  }

  lemma VisitIsLocal<H(!new), D(!new)>(a: Analysis<H, D>, fuel: nat, w: Work<H, D>, p: H)
    requires a.prog.WellFormed() && !a.prog.Descends(a.loc(p))
    ensures VisitF(a, fuel, w, p) == Some(LocalF(a, w, p, Successors(a.prog, a.loc(p))))
    ensures forall to :: Onward(a.prog, a.loc(p), to) ==> to in Successors(a.prog, a.loc(p)) && to in a.prog.code
  {
    hide EdgeF;
    var l := a.loc(p);
    if l in a.prog.code && a.prog.code[l].FunctionCall? {
      assert [l + 1][1..] == [];
    }
  }

  lemma Visited<H(!new), D(!new)>(
    a: Analysis<H, D>, leq: (D, D) -> bool, valid: D -> bool, kept: D -> bool,
    states: map<H, D>, pending: set<H>, p: H)
    requires Good(a, leq, valid, kept, states, pending + {p}) && (p in pending || Settled(a, leq, states, p))
    ensures Good(a, leq, valid, kept, states, pending)
  {
    hide Settled;
    assert forall h :: h in pending ==> h in pending + {p};
  }

  lemma {:induction false} ReturnGood<H(!new), D(!new)>(
    a: Analysis<H, D>, leq: (D, D) -> bool, valid: D -> bool, kept: D -> bool,
    fuel: nat, w: Work<H, D>, outside: set<H>, p: H, last: Option<H>, w': Work<H, D>)
    requires GrowthRules(a, leq, valid, kept) && Good(a, leq, valid, kept, w.states, w.pending + outside)
    requires a.prog.Descends(a.loc(p)) && ReturnF(a, fuel, w, p, last) == Some(w')
    ensures Good(a, leq, valid, kept, w'.states, w'.pending + outside) && Rises(leq, w.states, w'.states)
    decreases fuel
  {
    hide StepLaws, DomainLaws, EdgeF, Good;
    hide Program.WellFormed, Program.Descends, Program.Exit;
    var ends := After(a, Traces(a, w.states, a.prog.Exit(a.loc(p))), last);
    if ends == {} {
    } else {
      var end := First(a, ends);
      var w1 := ReturnEdge(a, w, p, end);
      if !a.isBottom(w.states[end]) {
        var e := EdgeF(a, w.states, end, a.loc(p) + 1, Some(p));
        EdgeGood(a, leq, valid, kept, w.states, w.pending + outside, end, a.loc(p) + 1, Some(p));
        assert Queue(w.pending + outside, e.queued) == w1.pending + outside;
      }
      ReturnGood(a, leq, valid, kept, fuel - 1, w1, outside, p, Some(end), w');
      RisesTransitive(leq, w.states, w1.states, w'.states);
    }
  }

  /** The edge into the callee leaves the call settled or pending. */
  lemma EnteredGood<H(!new), D(!new)>(
    a: Analysis<H, D>, leq: (D, D) -> bool, valid: D -> bool, kept: D -> bool,
    states: map<H, D>, pending: set<H>, p: H)
    requires GrowthRules(a, leq, valid, kept) && Good(a, leq, valid, kept, states, pending + {p})
    requires a.prog.Descends(a.loc(p))
    ensures var e := EdgeF(a, states, p, a.prog.Entry(a.loc(p)), None);
            Good(a, leq, valid, kept, e.states, Queue(pending, e.queued)) && Rises(leq, states, e.states)
  {
    hide StepLaws, DomainLaws, EdgeF, PassedOn;
    hide Program.WellFormed;
    var to := a.prog.Entry(a.loc(p));
    assert p in pending + {p};
    EdgeGood(a, leq, valid, kept, states, pending + {p}, p, to, None);
    EdgePasses(a, leq, valid, kept, states, p, to);
    var e := EdgeF(a, states, p, to, None);
    assert Queue(pending + {p}, e.queued) == Queue(pending, e.queued) + {p};
    if p !in Queue(pending, e.queued) {
      assert Settled(a, leq, e.states, p);
    }
    Visited(a, leq, valid, kept, e.states, Queue(pending, e.queued), p);
  }

  lemma {:induction false} CallGood<H(!new), D(!new)>(
    a: Analysis<H, D>, leq: (D, D) -> bool, valid: D -> bool, kept: D -> bool,
    fuel: nat, w: Work<H, D>, outside: set<H>, p: H, w': Work<H, D>)
    requires GrowthRules(a, leq, valid, kept) && Good(a, leq, valid, kept, w.states, w.pending + outside + {p})
    requires a.prog.Descends(a.loc(p)) && CallF(a, fuel, w, p) == Some(w')
    ensures Good(a, leq, valid, kept, w'.states, w'.pending + outside) && Rises(leq, w.states, w'.states)
    decreases fuel, 1
  {
    hide StepLaws, DomainLaws, EdgeF, Good, FixF, ReturnF;
    hide Program.WellFormed, Program.Descends, Program.Entry;
    var e := EdgeF(a, w.states, p, a.prog.Entry(a.loc(p)), None);
    var all := w.pending + outside;
    EnteredGood(a, leq, valid, kept, w.states, all, p);
    var body := e.states;
    if e.queued.Some? {
      var inner := Work(e.states, {e.queued.value});
      body := FixF(a, fuel, inner).value;
      assert inner.pending + all == Queue(all, e.queued);
      FixGood(a, leq, valid, kept, fuel, inner, all, body);
    } else {
      assert Queue(all, e.queued) == all;
    }
    ReturnGood(a, leq, valid, kept, fuel, Work(body, w.pending), outside, p, None, w');
    RisesTransitive(leq, w.states, e.states, body);
    RisesTransitive(leq, w.states, body, w'.states);
  }

  lemma {:induction false} VisitGood<H(!new), D(!new)>(
    a: Analysis<H, D>, leq: (D, D) -> bool, valid: D -> bool, kept: D -> bool,
    fuel: nat, w: Work<H, D>, outside: set<H>, p: H, w': Work<H, D>)
    requires GrowthRules(a, leq, valid, kept) && Good(a, leq, valid, kept, w.states, w.pending + outside + {p})
    requires VisitF(a, fuel, w, p) == Some(w')
    ensures Good(a, leq, valid, kept, w'.states, w'.pending + outside) && Rises(leq, w.states, w'.states)
    decreases fuel, 2
  {
    hide StepLaws, DomainLaws, UpperBounds, EdgeF, LocalF, CallF, PassedOn, Good, Rises, Onward, Successors;
    if a.prog.Descends(a.loc(p)) {
      CallGood(a, leq, valid, kept, fuel, w, outside, p, w');
    } else {
      hide VisitF;
      var succs := Successors(a.prog, a.loc(p));
      VisitIsLocal(a, fuel, w, p);
      LocalGood(a, leq, valid, kept, w, outside, p, [], succs);
      assert [] + succs == succs;
      Visited(a, leq, valid, kept, w'.states, w'.pending + outside, p);
    }
  }

  lemma {:induction false} FixGood<H(!new), D(!new)>(
    a: Analysis<H, D>, leq: (D, D) -> bool, valid: D -> bool, kept: D -> bool,
    fuel: nat, w: Work<H, D>, outside: set<H>, states': map<H, D>)
    requires GrowthRules(a, leq, valid, kept) && Good(a, leq, valid, kept, w.states, w.pending + outside)
    requires FixF(a, fuel, w) == Some(states')
    ensures Good(a, leq, valid, kept, states', outside) && Rises(leq, w.states, states')
    decreases fuel, 0
  {
    hide StepLaws, DomainLaws, VisitF, Good;
    hide Program.WellFormed;
    if w.pending == {} {
      assert w.pending + outside == outside;
    } else {
      var p := First(a, w.pending);
      var rest := w.pending - {p};
      assert rest + outside + {p} == w.pending + outside;
      var w1 := VisitF(a, fuel - 1, Work(w.states, rest), p).value;
      VisitGood(a, leq, valid, kept, fuel - 1, Work(w.states, rest), outside, p, w1);
      FixGood(a, leq, valid, kept, fuel - 1, w1, outside, states');
      RisesTransitive(leq, w.states, w1.states, states');
    }
  }

  // ----- a whole analysis -----

  lemma RunSettled<H(!new), D(!new)>(
    a: Analysis<H, D>, leq: (D, D) -> bool, valid: D -> bool, kept: D -> bool,
    fuel: nat, start: Loc, states: map<H, D>)
    requires GrowthRules(a, leq, valid, kept) && RunF(a, fuel, map[], start) == Some(states)
    ensures AllValid(valid, states) && AllValid(kept, states)
    ensures a.epoch(start) in states && leq(a.entry, states[a.epoch(start)])
    ensures forall h :: h in states ==> Settled(a, leq, states, h)
  {
    hide StepLaws, FixF, Settled;
    hide Program.WellFormed;
    var first := a.epoch(start);
    var init: map<H, D> := map[first := a.entry];
    assert {first} + {} == {first};
    assert Good(a, leq, valid, kept, init, {first});
    FixGood(a, leq, valid, kept, fuel, Work(init, {first}), {}, states);
    assert leq(init[first], states[first]);
  }

  /** The recursive interpreter passes the state of a call on to the first
      instruction of a callee that has a body, recursive or not. */
  lemma CallsEntered<H(!new), D(!new)>(
    a: Analysis<H, D>, leq: (D, D) -> bool, valid: D -> bool, kept: D -> bool,
    fuel: nat, start: Loc, states: map<H, D>, h: H, callee: Fid)
    requires GrowthRules(a, leq, valid, kept) && RunF(a, fuel, map[], start) == Some(states)
    requires a.prog.interprocedural && a.loc(h) in a.prog.code && a.prog.code[a.loc(h)] == FunctionCall(callee)
    requires callee in a.prog.functions && a.prog.functions[callee].Body?
    ensures PassedOn(a, leq, states, h, a.prog.functions[callee].first)
  {
    hide StepLaws, FixF, PassedOn;
    hide Program.WellFormed;
    RunSettled(a, leq, valid, kept, fuel, start, states);
    if h in states {
      assert Settled(a, leq, states, h);
    } else {
      Unstored(a, leq, states, h, a.prog.functions[callee].first);
    }
  }

  lemma Unstored<H(!new), D(!new)>(a: Analysis<H, D>, leq: (D, D) -> bool, states: map<H, D>, h: H, to: Loc)
    requires h !in states
    ensures PassedOn(a, leq, states, h, to)
  {
  }

  /** Calls are stepped over by the base interpreter, and by the recursive one if
      the callee has no body. */
  lemma CallsSteppedOver<H(!new), D(!new)>(
    a: Analysis<H, D>, leq: (D, D) -> bool, valid: D -> bool, kept: D -> bool,
    fuel: nat, start: Loc, states: map<H, D>, h: H, callee: Fid)
    requires GrowthRules(a, leq, valid, kept) && RunF(a, fuel, map[], start) == Some(states)
    requires a.loc(h) in a.prog.code && a.prog.code[a.loc(h)] == FunctionCall(callee)
    requires !a.prog.interprocedural || callee !in a.prog.functions || a.prog.functions[callee].NoBody?
    ensures PassedOn(a, leq, states, h, a.loc(h) + 1)
  {
    hide StepLaws, FixF, PassedOn;
    RunSettled(a, leq, valid, kept, fuel, start, states);
    if h in states {
      assert Settled(a, leq, states, h);
    } else {
      Unstored(a, leq, states, h, a.loc(h) + 1);
    }
  }

  /** Other instructions pass their state on to all their successors. */
  lemma SuccessorsReached<H(!new), D(!new)>(
    a: Analysis<H, D>, leq: (D, D) -> bool, valid: D -> bool, kept: D -> bool,
    fuel: nat, start: Loc, states: map<H, D>, h: H, to: Loc)
    requires GrowthRules(a, leq, valid, kept) && RunF(a, fuel, map[], start) == Some(states)
    requires a.loc(h) in a.prog.code && a.prog.code[a.loc(h)].Local?
    requires to in a.prog.code[a.loc(h)].succs && to in a.prog.code
    ensures PassedOn(a, leq, states, h, to)
  {
    hide StepLaws, FixF, PassedOn;
    hide Program.WellFormed;
    RunSettled(a, leq, valid, kept, fuel, start, states);
    if h in states {
      assert Settled(a, leq, states, h);
    } else {
      Unstored(a, leq, states, h, to);
    }
  }

  // ----- the base interpreter stays in one function -----

  /** All stored and pending histories are in the function `f`. */
  ghost predicate Inside<H(!new), D>(a: Analysis<H, D>, f: Fid, states: map<H, D>, pending: set<H>) {
    forall h :: h in states || h in pending ==> a.loc(h) in a.prog.owner && a.prog.owner[a.loc(h)] == f
  }

  lemma EdgeInside<H(!new), D>(a: Analysis<H, D>, f: Fid, states: map<H, D>, pending: set<H>, p: H, to: Loc)
    requires StepLaws(a) && Inside(a, f, states, pending + {p}) && to in a.prog.owner && a.prog.owner[to] == f
    ensures var e := EdgeF(a, states, p, to, None); Inside(a, f, e.states, Queue(pending, e.queued) + {p})
  {
    var others := Traces(a, states, to);
    assert AllAt(a, others, to);
    assert p in pending + {p};
  }

  lemma {:induction false} LocalInside<H(!new), D>(
    a: Analysis<H, D>, f: Fid, w: Work<H, D>, p: H, succs: seq<Loc>)
    requires StepLaws(a) && Inside(a, f, w.states, w.pending + {p})
    requires forall to :: to in succs && to in a.prog.code ==> to in a.prog.owner && a.prog.owner[to] == f
    ensures var w' := LocalF(a, w, p, succs); Inside(a, f, w'.states, w'.pending + {p})
    decreases |succs|
  {
    hide StepLaws, EdgeF, Inside;
    if succs == [] {
    } else if succs[0] !in a.prog.code {
      LocalInside(a, f, w, p, succs[1..]);
    } else {
      EdgeInside(a, f, w.states, w.pending, p, succs[0]);
      var e := EdgeF(a, w.states, p, succs[0], None);
      LocalInside(a, f, Work(e.states, Queue(w.pending, e.queued)), p, succs[1..]);
    }
  }

  lemma {:induction false} FixInside<H(!new), D(!new)>(
    a: Analysis<H, D>, f: Fid, fuel: nat, w: Work<H, D>, states': map<H, D>)
    requires StepLaws(a) && a.prog.WellFormed() && !a.prog.interprocedural
    requires Inside(a, f, w.states, w.pending) && FixF(a, fuel, w) == Some(states')
    ensures Inside(a, f, states', {})
    decreases fuel
  {
    hide StepLaws, LocalF, VisitF;
    if w.pending == {} {
    } else {
      var p := First(a, w.pending);
      var w0 := Work(w.states, w.pending - {p});
      VisitIsLocal(a, fuel - 1, w0, p);
      LocalInside(a, f, w0, p, Successors(a.prog, a.loc(p)));
      FixInside(a, f, fuel - 1, VisitF(a, fuel - 1, w0, p).value, states');
    }
  }

  /** Every history that the base interpreter stores is in the function in which
      it starts, whatever that function calls. */
  lemma BaseStaysInside<H(!new), D(!new)>(a: Analysis<H, D>, fuel: nat, start: Loc, states: map<H, D>, h: H)
    requires StepLaws(a) && a.prog.WellFormed() && !a.prog.interprocedural
    requires start in a.prog.code && RunF(a, fuel, map[], start) == Some(states) && h in states
    ensures a.loc(h) in a.prog.owner && a.prog.owner[a.loc(h)] == a.prog.owner[start]
  {
    hide FixF;
    var first := a.epoch(start);
    FixInside(a, a.prog.owner[start], fuel, Work(map[first := a.entry], {first}), states);
  }
}
