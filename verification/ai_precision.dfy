/** Precision of the interpreter: it never goes above a solution of the data
    flow inequations, on any program, recursive ones included. */
module AiPrecision {
  import opened Options
  import opened GotoProgram
  import opened AiSpec

  /** A monotone transformer and a merge that is least among the upper bounds of
      the states it is used on. */
  ghost predicate MonotoneLaws<H(!new), D(!new)>(a: Analysis<H, D>, leq: (D, D) -> bool, valid: D -> bool) {
    && (forall d, e :: a.isBottom(d) ==> leq(d, e))
    && (forall d, e :: leq(d, e) && a.isBottom(e) ==> a.isBottom(d))
    && (forall d, e, f :: leq(d, e) && leq(e, f) ==> leq(d, f))
    && (forall h, h', d, e :: valid(d) && valid(e) && !a.isBottom(d) && leq(d, e) ==>
          leq(a.transform(h, h', d), a.transform(h, h', e)))
    && (forall h, h', d, e, u ::
          && valid(d) && valid(e) && valid(u) && !a.isBottom(e)
          && leq(d, u) && leq(a.transform(h, h', e), u)
          ==> leq(a.merge(d, a.transform(h, h', e), h, h').state, u))
  }

  /** `x` solves the inequations of all edges that leave reachable states. */
  ghost predicate Solves<H(!new), D(!new)>(a: Analysis<H, D>, leq: (D, D) -> bool, valid: D -> bool, x: H -> D) {
    && (forall h :: valid(x(h)))
    && (forall h, to, others, caller ::
          && a.prog.Edge(a.loc(h), to, LocOf(a, caller)) && AllAt(a, others, to) && !a.isBottom(x(h))
          && !a.step(h, to, others, caller).Blocked?
          ==> var h' := a.step(h, to, others, caller).to;
              leq(a.transform(h, h', x(h)), x(h')))
  }

  ghost predicate Below<H(!new), D>(leq: (D, D) -> bool, states: map<H, D>, x: H -> D) {
    forall h :: h in states ==> leq(states[h], x(h))
  }

  ghost predicate Setting<H(!new), D(!new)>(a: Analysis<H, D>, leq: (D, D) -> bool, valid: D -> bool, x: H -> D) {
    && a.prog.WellFormed() && StepLaws(a) && DomainLaws(a, valid)
    && MonotoneLaws(a, leq, valid) && Solves(a, leq, valid, x)
  }

  /** The invariant: valid states, reachable pending ones, all below `x`. */
  ghost predicate Fits<H(!new), D(!new)>(
    a: Analysis<H, D>, leq: (D, D) -> bool, valid: D -> bool, x: H -> D, states: map<H, D>, pending: set<H>)
  {
    AllValid(valid, states) && Live(a, states, pending) && Below(leq, states, x)
  }

  /** What flows along one edge stays below a solution. */
  lemma FlowBelow<H(!new), D(!new)>(
    a: Analysis<H, D>, leq: (D, D) -> bool, valid: D -> bool, x: H -> D,
    p: H, d: D, to: Loc, others: set<H>, caller: Option<H>, dest: D)
    requires Setting(a, leq, valid, x) && valid(d) && !a.isBottom(d) && leq(d, x(p))
    requires a.prog.Edge(a.loc(p), to, LocOf(a, caller)) && AllAt(a, others, to)
    requires !a.step(p, to, others, caller).Blocked?
    requires var n := a.step(p, to, others, caller).to; valid(dest) && leq(dest, x(n))
    ensures var n := a.step(p, to, others, caller).to; leq(a.merge(dest, a.transform(p, n, d), p, n).state, x(n))
  {
    hide StepLaws, DomainLaws;
    var n := a.step(p, to, others, caller).to;
    assert !a.isBottom(x(p));
    assert leq(a.transform(p, n, d), a.transform(p, n, x(p)));
    assert leq(a.transform(p, n, x(p)), x(n));
    assert leq(a.transform(p, n, d), x(n));
  }

  lemma EdgeBelow<H(!new), D(!new)>(
    a: Analysis<H, D>, leq: (D, D) -> bool, valid: D -> bool, x: H -> D,
    states: map<H, D>, p: H, to: Loc, caller: Option<H>)
    requires Setting(a, leq, valid, x) && Fits(a, leq, valid, x, states, {p})
    requires a.prog.Edge(a.loc(p), to, LocOf(a, caller))
    ensures Below(leq, EdgeF(a, states, p, to, caller).states, x)
  {
    hide Setting;
    var e := EdgeF(a, states, p, to, caller);
    var others := Traces(a, states, to);
    assert AllAt(a, others, to);
    var next := a.step(p, to, others, caller);
    BottomBelow(a, leq, valid, x);
    if !next.Blocked? {
      assert p in states && !a.isBottom(states[p]) && leq(states[p], x(p));
      var n := next.to;
      var target := Touch(a, states, n);
      FlowBelow(a, leq, valid, x, p, states[p], to, others, caller, target[n]);
      assert e.states == target[n := a.merge(target[n], a.transform(p, n, states[p]), p, n).state];
    }
  }

  lemma BottomBelow<H(!new), D(!new)>(a: Analysis<H, D>, leq: (D, D) -> bool, valid: D -> bool, x: H -> D)
    requires Setting(a, leq, valid, x)
    ensures valid(a.bottom) && forall h :: leq(a.bottom, x(h))
  {
  }

  lemma EdgeFits<H(!new), D(!new)>(
    a: Analysis<H, D>, leq: (D, D) -> bool, valid: D -> bool, x: H -> D,
    states: map<H, D>, pending: set<H>, p: H, to: Loc, caller: Option<H>)
    requires Setting(a, leq, valid, x) && Fits(a, leq, valid, x, states, pending) && Live(a, states, {p})
    requires a.prog.Edge(a.loc(p), to, LocOf(a, caller))
    ensures var e := EdgeF(a, states, p, to, caller);
            && Fits(a, leq, valid, x, e.states, Queue(pending, e.queued)) && Extends(a, states, e.states)
  {
    hide Solves, MonotoneLaws, StepLaws, DomainLaws, EdgeF, Below;
    EdgeKeeps(a, valid, states, p, to, caller);
    EdgeBelow(a, leq, valid, x, states, p, to, caller);
  }

  lemma {:induction false} LocalBelow<H(!new), D(!new)>(
    a: Analysis<H, D>, leq: (D, D) -> bool, valid: D -> bool, x: H -> D, w: Work<H, D>, p: H, succs: seq<Loc>)
    requires Setting(a, leq, valid, x) && Fits(a, leq, valid, x, w.states, w.pending) && Live(a, w.states, {p})
    requires forall to :: to in succs && to in a.prog.code ==> a.prog.LocalStep(a.loc(p), to)
    ensures var w' := LocalF(a, w, p, succs);
            Fits(a, leq, valid, x, w'.states, w'.pending) && Extends(a, w.states, w'.states)
    decreases |succs|
  {
    hide Setting, Fits, EdgeF;
    if succs == [] {
    } else {
      assert succs[0] in succs && forall to :: to in succs[1..] ==> to in succs;
      if succs[0] !in a.prog.code {
        LocalBelow(a, leq, valid, x, w, p, succs[1..]);
      } else {
        var e := EdgeF(a, w.states, p, succs[0], None);
        EdgeFits(a, leq, valid, x, w.states, w.pending, p, succs[0], None);
        LocalBelow(a, leq, valid, x, Work(e.states, Queue(w.pending, e.queued)), p, succs[1..]);
      }
    }
  }

  lemma {:induction false} ReturnBelow<H(!new), D(!new)>(
    a: Analysis<H, D>, leq: (D, D) -> bool, valid: D -> bool, x: H -> D,
    fuel: nat, w: Work<H, D>, p: H, last: Option<H>, w': Work<H, D>)
    requires Setting(a, leq, valid, x) && Fits(a, leq, valid, x, w.states, w.pending)
    requires a.prog.Descends(a.loc(p)) && ReturnF(a, fuel, w, p, last) == Some(w')
    ensures Fits(a, leq, valid, x, w'.states, w'.pending) && Extends(a, w.states, w'.states)
    decreases fuel
  {
    hide Setting, Fits, EdgeF;
    var ends := After(a, Traces(a, w.states, a.prog.Exit(a.loc(p))), last);
    if ends == {} {
    } else {
      var end := First(a, ends);
      if !a.isBottom(w.states[end]) {
        EdgeFits(a, leq, valid, x, w.states, w.pending, end, a.loc(p) + 1, Some(p));
      }
      ReturnBelow(a, leq, valid, x, fuel - 1, ReturnEdge(a, w, p, end), p, Some(end), w');
    }
  }

  lemma {:induction false} CallBelow<H(!new), D(!new)>(
    a: Analysis<H, D>, leq: (D, D) -> bool, valid: D -> bool, x: H -> D,
    fuel: nat, w: Work<H, D>, p: H, w': Work<H, D>)
    requires Setting(a, leq, valid, x) && Fits(a, leq, valid, x, w.states, w.pending) && Live(a, w.states, {p})
    requires a.prog.Descends(a.loc(p)) && CallF(a, fuel, w, p) == Some(w')
    ensures Fits(a, leq, valid, x, w'.states, w'.pending) && Extends(a, w.states, w'.states)
    decreases fuel, 1
  {
    hide Setting, EdgeF, FixF, ReturnF, AllValid, Below;
    var entry := a.prog.Entry(a.loc(p));
    var e := EdgeF(a, w.states, p, entry, None);
    EdgeFits(a, leq, valid, x, w.states, {}, p, entry, None);
    var body := e.states;
    if e.queued.Some? {
      assert Queue({}, e.queued) == {e.queued.value};
      body := FixF(a, fuel, Work(e.states, {e.queued.value})).value;
      FixBelow(a, leq, valid, x, fuel, Work(e.states, {e.queued.value}), body);
    }
    ReturnBelow(a, leq, valid, x, fuel, Work(body, w.pending), p, None, w');
  }

  lemma {:induction false} VisitBelow<H(!new), D(!new)>(
    a: Analysis<H, D>, leq: (D, D) -> bool, valid: D -> bool, x: H -> D,
    fuel: nat, w: Work<H, D>, p: H, w': Work<H, D>)
    requires Setting(a, leq, valid, x) && Fits(a, leq, valid, x, w.states, w.pending) && Live(a, w.states, {p})
    requires VisitF(a, fuel, w, p) == Some(w')
    ensures Fits(a, leq, valid, x, w'.states, w'.pending) && Extends(a, w.states, w'.states)
    decreases fuel, 2
  {
    hide Solves, MonotoneLaws, StepLaws, DomainLaws, Fits, EdgeF, CallF, LocalF;
    var l := a.loc(p);
    if l in a.prog.code {
      match a.prog.code[l]
      case EndFunction =>
      case Local(succs) =>
        LocalBelow(a, leq, valid, x, w, p, succs);
      case FunctionCall(_) =>
        if a.prog.Descends(l) {
          CallBelow(a, leq, valid, x, fuel, w, p, w');
        } else {
          EdgeFits(a, leq, valid, x, w.states, w.pending, p, l + 1, None);
        }
    }
  }

  /** The fixed point stays below every solution that is above its start. */
  lemma {:induction false} FixBelow<H(!new), D(!new)>(
    a: Analysis<H, D>, leq: (D, D) -> bool, valid: D -> bool, x: H -> D, fuel: nat, w: Work<H, D>, states': map<H, D>)
    requires Setting(a, leq, valid, x) && Fits(a, leq, valid, x, w.states, w.pending)
    requires FixF(a, fuel, w) == Some(states')
    ensures Fits(a, leq, valid, x, states', {}) && Extends(a, w.states, states')
    decreases fuel, 0
  {
    hide Setting, VisitF, AllValid, Below;
    if w.pending == {} {
    } else {
      var p := First(a, w.pending);
      var w1 := VisitF(a, fuel - 1, Work(w.states, w.pending - {p}), p).value;
      VisitBelow(a, leq, valid, x, fuel - 1, Work(w.states, w.pending - {p}), p, w1);
      FixBelow(a, leq, valid, x, fuel - 1, w1, states');
    }
  }

  /** A whole analysis, of any program, is at least as precise as every solution
      that covers the entry state. */
  lemma RunBelow<H(!new), D(!new)>(
    a: Analysis<H, D>, leq: (D, D) -> bool, valid: D -> bool, x: H -> D, fuel: nat, start: Loc, states: map<H, D>)
    requires Setting(a, leq, valid, x) && leq(a.entry, x(a.epoch(start)))
    requires RunF(a, fuel, map[], start) == Some(states)
    ensures Below(leq, states, x)
  {
    hide Solves, MonotoneLaws, FixF;
    FixBelow(a, leq, valid, x, fuel, Work(map[a.epoch(start) := a.entry], {a.epoch(start)}), states);
  }
}
