/** Where stored histories come from, for every program, history and domain: apart
    from the first one, each is at a location that control leads to from a
    reachable one. */
module AiOrigin {
  import opened Options
  import opened GotoProgram
  import opened AiSpec

  /** The recursive interpreter and a callee with a body. */
  predicate Enters(prog: Program, l: Loc) {
    && prog.interprocedural && l in prog.code && prog.code[l].FunctionCall?
    && prog.code[l].callee in prog.functions && prog.functions[prog.code[l].callee].Body?
  }

  /** Control leads from `l` to `to`: to a successor, over a call that is not
      entered, into a callee, or from the end of a callee behind one of its calls. */
  ghost predicate LeadsTo(prog: Program, l: Loc, to: Loc) {
    l in prog.code &&
    match prog.code[l]
    case Local(succs) => to in succs
    case FunctionCall(callee) => if Enters(prog, l) then to == prog.functions[callee].first else to == l + 1
    case EndFunction =>
      exists c: Loc :: Enters(prog, c) && l == prog.functions[prog.code[c].callee].last && to == c + 1
  }

  /** `h` is reachable, and control leads from it to `n`. */
  ghost predicate Brings<H(!new), D>(a: Analysis<H, D>, states: map<H, D>, h: H, n: H) {
    h in states && !a.isBottom(states[h]) && LeadsTo(a.prog, a.loc(h), a.loc(n))
  }

  ghost predicate Justified<H(!new), D>(a: Analysis<H, D>, first: H, states: map<H, D>) {
    forall n :: n in states ==> n == first || exists h :: Brings(a, states, h, n)
  }

  ghost predicate Good<H(!new), D(!new)>(
    a: Analysis<H, D>, valid: D -> bool, first: H, states: map<H, D>, pending: set<H>)
  {
    AllValid(valid, states) && Live(a, states, pending) && Justified(a, first, states)
  }

  lemma EdgeJustified<H(!new), D(!new)>(
    a: Analysis<H, D>, valid: D -> bool, first: H, states: map<H, D>, pending: set<H>, p: H, to: Loc, caller: Option<H>)
    requires StepLaws(a) && DomainLaws(a, valid) && Good(a, valid, first, states, pending) && Live(a, states, {p})
    requires LeadsTo(a.prog, a.loc(p), to)
    ensures var e := EdgeF(a, states, p, to, caller);
            Good(a, valid, first, e.states, Queue(pending, e.queued)) && Extends(a, states, e.states)
  {
    EdgeKeeps(a, valid, states, p, to, caller);
    hide StepLaws, DomainLaws, EdgeF, LeadsTo;
    var e := EdgeF(a, states, p, to, caller);
    assert p in states && p in e.states;
    forall n | n in e.states && n != first ensures exists h :: Brings(a, e.states, h, n) {
      if n in states {
        var h :| Brings(a, states, h, n);
        assert Brings(a, e.states, h, n);
      } else {
        assert Brings(a, e.states, p, n);
      }
    }
  }

  lemma {:induction false} LocalJustified<H(!new), D(!new)>(
    a: Analysis<H, D>, valid: D -> bool, first: H, w: Work<H, D>, p: H, succs: seq<Loc>)
    requires StepLaws(a) && DomainLaws(a, valid) && Good(a, valid, first, w.states, w.pending + {p})
    requires forall to :: to in succs ==> LeadsTo(a.prog, a.loc(p), to)
    ensures var w' := LocalF(a, w, p, succs);
            Good(a, valid, first, w'.states, w'.pending + {p}) && Extends(a, w.states, w'.states)
    decreases |succs|
  {
    hide StepLaws, DomainLaws, EdgeF, LeadsTo, Justified;
    if succs == [] {
      ExtendsReflexive(a, w.states);
    } else if succs[0] !in a.prog.code {
      LocalJustified(a, valid, first, w, p, succs[1..]);
    } else {
      assert p in w.pending + {p};
      EdgeJustified(a, valid, first, w.states, w.pending + {p}, p, succs[0], None);
      var e := EdgeF(a, w.states, p, succs[0], None);
      var w1 := Work(e.states, Queue(w.pending, e.queued));
      assert Queue(w.pending + {p}, e.queued) == w1.pending + {p};
      LocalJustified(a, valid, first, w1, p, succs[1..]);
      ExtendsTransitive(a, w.states, w1.states, LocalF(a, w, p, succs).states);
    }
  }

  lemma ReturnLeads(prog: Program, l: Loc)
    requires prog.WellFormed() && prog.Descends(l)
    ensures LeadsTo(prog, prog.Exit(l), l + 1)
  {
    assert Enters(prog, l);
  }

  lemma {:induction false} ReturnJustified<H(!new), D(!new)>(
    a: Analysis<H, D>, valid: D -> bool, first: H, fuel: nat, w: Work<H, D>, p: H, last: Option<H>, w': Work<H, D>)
    requires StepLaws(a) && DomainLaws(a, valid) && a.prog.WellFormed() && Good(a, valid, first, w.states, w.pending)
    requires a.prog.Descends(a.loc(p)) && ReturnF(a, fuel, w, p, last) == Some(w')
    ensures Good(a, valid, first, w'.states, w'.pending) && Extends(a, w.states, w'.states)
    decreases fuel
  {
    hide StepLaws, DomainLaws, EdgeF, Good, Justified, LeadsTo;
    hide Program.WellFormed, Program.Descends, Program.Exit;
    var exit := a.prog.Exit(a.loc(p));
    var ends := After(a, Traces(a, w.states, exit), last);
    if ends == {} {
      ExtendsReflexive(a, w.states);
    } else {
      var end := First(a, ends);
      var w1 := ReturnEdge(a, w, p, end);
      if a.isBottom(w.states[end]) {
        ExtendsReflexive(a, w.states);
      } else {
        ReturnLeads(a.prog, a.loc(p));
        EdgeJustified(a, valid, first, w.states, w.pending, end, a.loc(p) + 1, Some(p));
      }
      ReturnJustified(a, valid, first, fuel - 1, w1, p, Some(end), w');
      ExtendsTransitive(a, w.states, w1.states, w'.states);
    }
  }

  lemma GoodPart<H(!new), D(!new)>(
    a: Analysis<H, D>, valid: D -> bool, first: H, states: map<H, D>, states': map<H, D>, pending: set<H>, all: set<H>)
    requires Good(a, valid, first, states', all) && Extends(a, states, states') && Live(a, states, pending)
    ensures Good(a, valid, first, states', pending)
  {
    hide Justified;
  }

  lemma {:induction false} CallJustified<H(!new), D(!new)>(
    a: Analysis<H, D>, valid: D -> bool, first: H, fuel: nat, w: Work<H, D>, p: H, w': Work<H, D>)
    requires StepLaws(a) && DomainLaws(a, valid) && a.prog.WellFormed() && Good(a, valid, first, w.states, w.pending)
    requires Live(a, w.states, {p}) && a.prog.Descends(a.loc(p)) && CallF(a, fuel, w, p) == Some(w')
    ensures Good(a, valid, first, w'.states, w'.pending) && Extends(a, w.states, w'.states)
    decreases fuel, 1
  {
    hide StepLaws, DomainLaws, EdgeF, FixF, ReturnF, Justified;
    var to := a.prog.Entry(a.loc(p));
    assert LeadsTo(a.prog, a.loc(p), to);
    hide Program.WellFormed, Program.Descends, Program.Entry, LeadsTo;
    EdgeJustified(a, valid, first, w.states, w.pending, p, to, None);
    var e := EdgeF(a, w.states, p, to, None);
    var body := e.states;
    if e.queued.Some? {
      var inner := Work(e.states, {e.queued.value});
      GoodPart(a, valid, first, e.states, e.states, inner.pending, Queue(w.pending, e.queued));
      body := FixF(a, fuel, inner).value;
      FixJustified(a, valid, first, fuel, inner, body);
      ExtendsTransitive(a, w.states, e.states, body);
      GoodPart(a, valid, first, w.states, body, w.pending, {});
    }
    ReturnJustified(a, valid, first, fuel, Work(body, w.pending), p, None, w');
    ExtendsTransitive(a, w.states, body, w'.states);
  }

  lemma {:induction false} VisitJustified<H(!new), D(!new)>(
    a: Analysis<H, D>, valid: D -> bool, first: H, fuel: nat, w: Work<H, D>, p: H, w': Work<H, D>)
    requires StepLaws(a) && DomainLaws(a, valid) && a.prog.WellFormed() && Good(a, valid, first, w.states, w.pending)
    requires Live(a, w.states, {p}) && VisitF(a, fuel, w, p) == Some(w')
    ensures Good(a, valid, first, w'.states, w'.pending) && Extends(a, w.states, w'.states)
    decreases fuel, 2
  {
    hide StepLaws, DomainLaws, EdgeF, LocalF, CallF, Justified;
    hide Program.WellFormed;
    var l := a.loc(p);
    if l !in a.prog.code {
      ExtendsReflexive(a, w.states);
    } else {
      match a.prog.code[l]
      case Local(succs) =>
        LocalJustified(a, valid, first, w, p, succs);
        GoodPart(a, valid, first, w'.states, w'.states, w'.pending, w'.pending + {p});
      case EndFunction => ExtendsReflexive(a, w.states);
      case FunctionCall(callee) =>
        if a.prog.Descends(l) {
          CallJustified(a, valid, first, fuel, w, p, w');
        } else {
          assert LeadsTo(a.prog, l, l + 1);
          EdgeJustified(a, valid, first, w.states, w.pending, p, l + 1, None);
        }
    }
  }

  lemma {:induction false} FixJustified<H(!new), D(!new)>(
    a: Analysis<H, D>, valid: D -> bool, first: H, fuel: nat, w: Work<H, D>, states': map<H, D>)
    requires StepLaws(a) && DomainLaws(a, valid) && a.prog.WellFormed() && Good(a, valid, first, w.states, w.pending)
    requires FixF(a, fuel, w) == Some(states')
    ensures Good(a, valid, first, states', {}) && Extends(a, w.states, states')
    decreases fuel, 0
  {
    hide StepLaws, DomainLaws, VisitF, Justified;
    hide Program.WellFormed;
    if w.pending == {} {
      ExtendsReflexive(a, w.states);
    } else {
      var p := First(a, w.pending);
      var w0 := Work(w.states, w.pending - {p});
      var w1 := VisitF(a, fuel - 1, w0, p).value;
      VisitJustified(a, valid, first, fuel - 1, w0, p, w1);
      FixJustified(a, valid, first, fuel - 1, w1, states');
      ExtendsTransitive(a, w.states, w1.states, states');
    }
  }

  /** Nothing is stored where control does not lead. */
  lemma RunJustified<H(!new), D(!new)>(
    a: Analysis<H, D>, valid: D -> bool, fuel: nat, start: Loc, states: map<H, D>, n: H)
    requires StepLaws(a) && DomainLaws(a, valid) && a.prog.WellFormed()
    requires RunF(a, fuel, map[], start) == Some(states) && n in states && n != a.epoch(start)
    ensures exists h :: Brings(a, states, h, n)
  {
    hide StepLaws, FixF;
    hide Program.WellFormed;
    var first := a.epoch(start);
    var init: map<H, D> := map[first := a.entry];
    assert Good(a, valid, first, init, {first});
    FixJustified(a, valid, first, fuel, Work(init, {first}), states);
  }
}
