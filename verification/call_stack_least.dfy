/** With call-stack histories and no recursion the interpreter computes the least
    solution of the interprocedural inequations, whatever the order of its
    working sets. */
module CallStackLeast {
  import opened Options
  import opened GotoProgram
  import opened AiSpec
  import opened AiPrecision
  import opened AiFlow
  import opened AiLeast
  import opened CallStackHistory
  import opened CallStackLaws

  /** The history steps as a call stack; its order is left open. */
  ghost predicate HasStackSteps<D(!new)>(a: Analysis<Entry, D>, limit: nat) {
    && (forall e: Entry :: e.Entry? ==> a.loc(e) == e.loc)
    && (forall l :: a.epoch(l) == Entry(l, Null))
    && (forall e, to, others, caller :: a.step(e, to, others, caller) == StepEntry(a.prog, limit, e, to, others))
  }

  /** The merge is an upper bound, and changes nothing if there is nothing new. */
  ghost predicate JoinDomain<D(!new)>(a: Analysis<Entry, D>, leq: (D, D) -> bool, valid: D -> bool) {
    && DomainLaws(a, valid) && UpperBounds(a, leq, valid)
    && (forall d, e, f :: leq(d, e) && leq(e, f) ==> leq(d, f))
    && (forall d, e, h, h' :: valid(d) && valid(e) && leq(e, d) ==> !a.merge(d, e, h, h').changed)
  }

  ghost predicate StackSetting<D(!new)>(
    a: Analysis<Entry, D>, leq: (D, D) -> bool, valid: D -> bool, limit: nat, depth: Fid -> nat)
  {
    && a.prog.WellFormed() && a.prog.Ranked(depth) && HasStackSteps(a, limit)
    && OrderLaws(a) && StepLaws(a) && JoinDomain(a, leq, valid)
  }

  // ----- contexts -----

  /** `c` is a proper part of the stack `h`. */
  ghost predicate Under(c: Entry, h: Entry) {
    h.Entry? && (h.caller == c || Under(c, h.caller))
  }

  /** `q` is one of the calls that are active in the context `c`. */
  ghost predicate Active(c: Entry, q: Entry) {
    c.Entry? && (q == c || Active(c.caller, q))
  }

  lemma {:induction false} UnderNull(h: Entry)
    requires h.Entry?
    ensures Under(Null, h)
  {
    if h.caller.Null? {
    } else {
      UnderNull(h.caller);
    }
  }

  lemma {:induction false} UnderLonger(c: Entry, h: Entry)
    requires Under(c, h)
    ensures Length(c) < Length(h)
  {
    if h.caller == c {
    } else {
      UnderLonger(c, h.caller);
    }
  }

  lemma {:induction false} UnderCaller(p: Entry, h: Entry)
    requires p.Entry? && Under(p, h)
    ensures Under(p.caller, h)
  {
    if h.caller == p {
    } else {
      UnderCaller(p, h.caller);
    }
  }

  lemma {:induction false} ActiveCounts(c: Entry, q: Entry)
    requires Active(c, q)
    ensures q.Entry? && Count(c, q.loc) > 0
  {
    if q == c {
    } else {
      ActiveCounts(c.caller, q);
    }
  }

  // ----- absorbed flow -----

  /** What flows from `h` to `n` is in the state of `n`. */
  ghost predicate Absorbed<D>(a: Analysis<Entry, D>, leq: (D, D) -> bool, states: map<Entry, D>, h: Entry, n: Entry) {
    h in states && !a.isBottom(states[h]) ==> n in states && leq(a.transform(h, n, states[h]), states[n])
  }

  /** Control can go on from `l` to `to` without returning. */
  ghost predicate GoesOn(prog: Program, l: Loc, to: Loc) {
    prog.LocalStep(l, to) || (prog.Descends(l) && to == prog.Entry(l))
  }

  function Onward(prog: Program, h: Entry, to: Loc): Entry
    requires h.Entry?
  {
    if prog.Descends(h.loc) then Entry(to, h) else Entry(to, h.caller)
  }

  ghost predicate EdgesDone<D(!new)>(a: Analysis<Entry, D>, leq: (D, D) -> bool, states: map<Entry, D>, h: Entry) {
    h.Entry? ==> forall to :: GoesOn(a.prog, h.loc, to) ==> Absorbed(a, leq, states, h, Onward(a.prog, h, to))
  }

  /** `e` is at the end of the function that its caller called. */
  ghost predicate AtEnd(prog: Program, e: Entry) {
    e.Entry? && e.caller.Entry? && prog.Descends(e.caller.loc) && e.loc == prog.Exit(e.caller.loc)
  }

  function Back(e: Entry): Entry
    requires e.Entry? && e.caller.Entry?
  {
    Entry(e.caller.loc + 1, e.caller.caller)
  }

  ghost predicate ReturnDone<D>(a: Analysis<Entry, D>, leq: (D, D) -> bool, states: map<Entry, D>, e: Entry) {
    AtEnd(a.prog, e) ==> Absorbed(a, leq, states, e, Back(e))
  }

  // ----- the invariant -----

  ghost predicate Stacked(prog: Program, h: Entry) {
    h.Entry? && prog.ValidStack(Sites(h.caller), h.loc)
  }

  ghost predicate AllStacked<D>(prog: Program, states: map<Entry, D>) {
    forall h :: h in states ==> Stacked(prog, h)
  }

  ghost predicate AllEdgesDone<D(!new)>(
    a: Analysis<Entry, D>, leq: (D, D) -> bool, states: map<Entry, D>, pending: set<Entry>)
  {
    forall h :: h in states && h !in pending ==> EdgesDone(a, leq, states, h)
  }

  ghost predicate AllReturned<D(!new)>(a: Analysis<Entry, D>, leq: (D, D) -> bool, c: Entry, states: map<Entry, D>) {
    forall e :: e in states && e.Entry? && !Active(c, e.caller) ==> ReturnDone(a, leq, states, e)
  }

  /** With `pending` and the suspended `outer` to be visited: all other edges are
      absorbed, and all returns but those of the calls that are active in `busy`. */
  ghost predicate Good<D(!new)>(
    a: Analysis<Entry, D>, leq: (D, D) -> bool, valid: D -> bool,
    busy: Entry, outer: set<Entry>, states: map<Entry, D>, pending: set<Entry>)
  {
    && AllValid(valid, states) && Live(a, states, pending) && AllStacked(a.prog, states)
    && AllEdgesDone(a, leq, states, pending + outer) && AllReturned(a, leq, busy, states)
  }

  /** Only histories under `c` changed, and they grew. */
  ghost predicate Later<D(!new)>(
    a: Analysis<Entry, D>, leq: (D, D) -> bool, c: Entry, states: map<Entry, D>, states': map<Entry, D>)
  {
    && (forall h :: h in states ==> h in states' && leq(states[h], states'[h]))
    && (forall h :: h in states' && !Under(c, h) ==> h in states && states'[h] == states[h])
  }

  ghost predicate InContext(prog: Program, c: Entry, f: Fid, hs: set<Entry>) {
    forall h :: h in hs ==> h.Entry? && h.caller == c && h.loc in prog.owner && prog.owner[h.loc] == f
  }

  // ----- one edge -----

  /** The step from `p` to `to` is accepted and gives `n`. */
  ghost predicate StepTo<D(!new)>(a: Analysis<Entry, D>, p: Entry, to: Loc, caller: Option<Entry>, n: Entry) {
    && n.Entry? && n.loc == to && Stacked(a.prog, n)
    && forall others :: a.step(p, to, others, caller) == if n in others then Merged(n) else New(n)
  }

  ghost predicate NoStep<D(!new)>(a: Analysis<Entry, D>, p: Entry, to: Loc, caller: Option<Entry>) {
    forall others :: a.step(p, to, others, caller) == Blocked
  }

  lemma OnwardNext(prog: Program, limit: nat, depth: Fid -> nat, h: Entry, to: Loc)
    requires prog.WellFormed() && prog.Ranked(depth) && Stacked(prog, h) && GoesOn(prog, h.loc, to)
    ensures Next(prog, limit, h, to) == Some(Onward(prog, h, to)) && Stacked(prog, Onward(prog, h, to))
  {
    hide Program.WellFormed, Program.Ranked, Program.ValidStack;
    NotOnStack(prog, depth, h);
    var stack := Sites(h.caller);
    if prog.Descends(h.loc) {
      assert prog.Flow(h.loc, stack, to, stack + [h.loc]);
      FlowOfCall(prog, depth, h.loc, stack, to, stack + [h.loc]);
      prog.FlowKeepsStacksValid(h.loc, stack, to, stack + [h.loc]);
    } else {
      prog.FlowKeepsStacksValid(h.loc, stack, to, stack);
    }
  }

  lemma GoesOnSteps<D(!new)>(
    a: Analysis<Entry, D>, leq: (D, D) -> bool, valid: D -> bool, limit: nat, depth: Fid -> nat,
    h: Entry, to: Loc, caller: Option<Entry>)
    requires StackSetting(a, leq, valid, limit, depth) && Stacked(a.prog, h) && GoesOn(a.prog, h.loc, to)
    ensures StepTo(a, h, to, caller, Onward(a.prog, h, to))
  {
    hide OrderLaws, StepLaws, JoinDomain, Next, GoesOn;
    hide Program.WellFormed, Program.Ranked, Program.ValidStack;
    OnwardNext(a.prog, limit, depth, h, to);
  }

  lemma BackNext(prog: Program, limit: nat, e: Entry, l: Loc)
    requires prog.WellFormed() && Stacked(prog, e) && prog.Descends(l) && e.loc == prog.Exit(l)
    ensures if e.caller.Entry? && e.caller.loc == l
            then AtEnd(prog, e) && Next(prog, limit, e, l + 1) == Some(Back(e)) && Stacked(prog, Back(e))
            else Next(prog, limit, e, l + 1) == None
  {
    hide Program.ValidStack;
    if e.caller.Entry? && e.caller.loc == l {
      var stack := Sites(e.caller);
      assert stack[|stack| - 1] == l && stack[..|stack| - 1] == Sites(e.caller.caller);
      prog.FlowKeepsStacksValid(e.loc, stack, l + 1, stack[..|stack| - 1]);
    }
  }

  /** A return is accepted from the end of the function that was called here. */
  lemma BackSteps<D(!new)>(
    a: Analysis<Entry, D>, leq: (D, D) -> bool, valid: D -> bool, limit: nat, depth: Fid -> nat,
    e: Entry, l: Loc, caller: Option<Entry>)
    requires StackSetting(a, leq, valid, limit, depth) && Stacked(a.prog, e)
    requires a.prog.Descends(l) && e.loc == a.prog.Exit(l)
    ensures if e.caller.Entry? && e.caller.loc == l then AtEnd(a.prog, e) && StepTo(a, e, l + 1, caller, Back(e))
            else NoStep(a, e, l + 1, caller)
  {
    hide OrderLaws, StepLaws, JoinDomain, Next;
    hide Program.WellFormed, Program.Ranked, Program.ValidStack;
    BackNext(a.prog, limit, e, l);
  }

  /** What an accepted edge does. */
  lemma EdgeShape<D(!new)>(
    a: Analysis<Entry, D>, limit: nat, states: map<Entry, D>, p: Entry, to: Loc, caller: Option<Entry>, n: Entry)
    requires HasStackSteps(a, limit) && p in states && StepTo(a, p, to, caller, n)
    ensures var e := EdgeF(a, states, p, to, caller);
            var values := a.transform(p, n, states[p]);
            var j := a.merge(if n in states then states[n] else a.bottom, values, p, n);
            && e.states == states[n := j.state]
            && e.queued == if j.changed || (n !in states && !a.isBottom(values)) then Some(n) else None
  {
    assert n in Traces(a, states, to) <==> n in states;
    var target := Touch(a, states, n);
    var j := a.merge(target[n], a.transform(p, n, states[p]), p, n);
    assert target[n := j.state] == states[n := j.state];
  }

  /** `states'` differs from `states` at `n` alone, where it grew. */
  ghost predicate GrowsAt<D(!new)>(
    a: Analysis<Entry, D>, leq: (D, D) -> bool, states: map<Entry, D>, states': map<Entry, D>, n: Entry)
  {
    && n in states' && (n in states ==> leq(states[n], states'[n]))
    && (forall h :: h != n ==> (h in states <==> h in states') && (h in states ==> states'[h] == states[h]))
  }

  lemma EdgeGrowsAt<D(!new)>(
    a: Analysis<Entry, D>, leq: (D, D) -> bool, valid: D -> bool, limit: nat, depth: Fid -> nat,
    states: map<Entry, D>, p: Entry, to: Loc, caller: Option<Entry>, n: Entry)
    requires StackSetting(a, leq, valid, limit, depth) && AllValid(valid, states) && Live(a, states, {p})
    requires StepTo(a, p, to, caller, n)
    ensures var e := EdgeF(a, states, p, to, caller);
            && GrowsAt(a, leq, states, e.states, n) && AllValid(valid, e.states)
            && leq(a.transform(p, n, states[p]), e.states[n])
            && (e.queued == None || e.queued == Some(n))
            && (e.queued == None ==> if n in states then e.states == states else a.isBottom(e.states[n]))
            && Extends(a, states, e.states) && (e.queued.Some? ==> !a.isBottom(e.states[n]))
  {
    hide OrderLaws, EdgeF;
    hide Program.WellFormed, Program.Ranked;
    EdgeShape(a, limit, states, p, to, caller, n);
    EdgeKeeps(a, valid, states, p, to, caller);
    var values := a.transform(p, n, states[p]);
    assert p in states && !a.isBottom(states[p]) && valid(values);
    var before := if n in states then states[n] else a.bottom;
    assert valid(before);
    var j := a.merge(before, values, p, n);
    assert leq(before, j.state) && leq(values, j.state);
    if n in states && !j.changed {
      assert states[n := states[n]] == states;
    }
  }

  lemma AbsorbedGrows<D(!new)>(
    a: Analysis<Entry, D>, leq: (D, D) -> bool, states: map<Entry, D>, states': map<Entry, D>, n: Entry, h: Entry,
    m: Entry)
    requires GrowsAt(a, leq, states, states', n) && Absorbed(a, leq, states, h, m)
    requires (forall d, e, f :: leq(d, e) && leq(e, f) ==> leq(d, f)) && forall d :: leq(d, d)
    requires h != n || (h in states && states'[h] == states[h]) || a.isBottom(states'[h])
    ensures Absorbed(a, leq, states', h, m)
  {
    if h in states' && !a.isBottom(states'[h]) {
      assert leq(states[m], states'[m]);
    }
  }

  /** Growth at a pending history of an active context keeps what was absorbed. */
  lemma GrowthKeeps<D(!new)>(
    a: Analysis<Entry, D>, leq: (D, D) -> bool, busy: Entry, states: map<Entry, D>, states': map<Entry, D>,
    pending: set<Entry>, pending': set<Entry>, n: Entry)
    requires GrowsAt(a, leq, states, states', n) && n.Entry? && (n.caller.Null? || Active(busy, n.caller))
    requires pending <= pending'
    requires (forall d, e, f :: leq(d, e) && leq(e, f) ==> leq(d, f)) && forall d :: leq(d, d)
    requires n in pending' || (if n in states then states'[n] == states[n] else a.isBottom(states'[n]))
    requires AllEdgesDone(a, leq, states, pending) && AllReturned(a, leq, busy, states)
    ensures AllEdgesDone(a, leq, states', pending') && AllReturned(a, leq, busy, states')
  {
    hide Absorbed, GrowsAt;
    assert n in states' && forall h :: h != n ==> (h in states <==> h in states') by {
      GrowsParts(a, leq, states, states', n);
    }
    forall h, to | h in states' && h !in pending' && h.Entry? && GoesOn(a.prog, h.loc, to)
      ensures Absorbed(a, leq, states', h, Onward(a.prog, h, to))
    {
      if h in states {
        assert Absorbed(a, leq, states, h, Onward(a.prog, h, to));
        AbsorbedGrows(a, leq, states, states', n, h, Onward(a.prog, h, to));
      } else {
        BottomAbsorbed(a, leq, states', h, Onward(a.prog, h, to));
      }
    }
    forall e | e in states' && e.Entry? && !Active(busy, e.caller) ensures ReturnDone(a, leq, states', e) {
      if AtEnd(a.prog, e) {
        assert e != n;
        assert ReturnDone(a, leq, states, e);
        AbsorbedGrows(a, leq, states, states', n, e, Back(e));
      }
    }
  }

  lemma GrowsParts<D(!new)>(
    a: Analysis<Entry, D>, leq: (D, D) -> bool, states: map<Entry, D>, states': map<Entry, D>, n: Entry)
    requires GrowsAt(a, leq, states, states', n)
    ensures n in states' && forall h :: h != n ==> (h in states <==> h in states')
  {
  }

  lemma BottomAbsorbed<D>(a: Analysis<Entry, D>, leq: (D, D) -> bool, states: map<Entry, D>, h: Entry, m: Entry)
    requires h in states && a.isBottom(states[h])
    ensures Absorbed(a, leq, states, h, m)
  {
  }

  /** An edge inside the context `c` keeps the invariant and is absorbed. */
  lemma EdgeGood<D(!new)>(
    a: Analysis<Entry, D>, leq: (D, D) -> bool, valid: D -> bool, limit: nat, depth: Fid -> nat,
    busy: Entry, c: Entry, outer: set<Entry>, states: map<Entry, D>, pending: set<Entry>,
    p: Entry, to: Loc, caller: Option<Entry>, n: Entry)
    requires StackSetting(a, leq, valid, limit, depth) && Good(a, leq, valid, busy, outer, states, pending)
    requires Live(a, states, {p}) && StepTo(a, p, to, caller, n) && n.caller == c && (c.Null? || Active(busy, c))
    ensures var e := EdgeF(a, states, p, to, caller);
            && Good(a, leq, valid, busy, outer, e.states, Queue(pending, e.queued))
            && Later(a, leq, c, states, e.states) && Extends(a, states, e.states)
            && GrowsAt(a, leq, states, e.states, n)
            && leq(a.transform(p, n, states[p]), e.states[n]) && (e.queued == None || e.queued == Some(n))
            && (e.queued == None && n in states ==> e.states == states)
  {
    hide OrderLaws, StepLaws, EdgeF, AllEdgesDone, AllReturned;
    hide Program.WellFormed, Program.Ranked;
    EdgeGrowsAt(a, leq, valid, limit, depth, states, p, to, caller, n);
    var e := EdgeF(a, states, p, to, caller);
    var pending' := Queue(pending, e.queued);
    hide DomainLaws;
    GrowthKeeps(a, leq, busy, states, e.states, pending + outer, pending' + outer, n);
    assert Under(c, n);
  }

  // ----- local instructions -----

  ghost predicate DoneTo<D(!new)>(
    a: Analysis<Entry, D>, leq: (D, D) -> bool, states: map<Entry, D>, p: Entry, done: seq<Loc>)
    requires p.Entry?
  {
    forall to :: to in done && to in a.prog.code ==> Absorbed(a, leq, states, p, Entry(to, p.caller))
  }

  /** The edges to `succs` of an instruction that is no entered call. */
  lemma {:induction false} LocalGood<D(!new)>(
    a: Analysis<Entry, D>, leq: (D, D) -> bool, valid: D -> bool, limit: nat, depth: Fid -> nat,
    c: Entry, outer: set<Entry>, f: Fid, w: Work<Entry, D>, p: Entry, done: seq<Loc>, succs: seq<Loc>)
    requires StackSetting(a, leq, valid, limit, depth) && Good(a, leq, valid, c, outer, w.states, w.pending + {p})
    requires InContext(a.prog, c, f, w.pending + {p}) && !a.prog.Descends(p.loc)
    requires forall to :: to in succs && to in a.prog.code ==> a.prog.LocalStep(p.loc, to)
    requires p in w.pending || DoneTo(a, leq, w.states, p, done)
    ensures var w' := LocalF(a, w, p, succs);
            && Good(a, leq, valid, c, outer, w'.states, w'.pending + {p}) && InContext(a.prog, c, f, w'.pending + {p})
            && Later(a, leq, c, w.states, w'.states) && Extends(a, w.states, w'.states)
            && (p in w'.pending || DoneTo(a, leq, w'.states, p, done + succs))
    decreases |succs|
  {
    hide StackSetting, EdgeF, Good, Later, Absorbed, Program.LocalStep, Program.Descends;
    if succs == [] {
      assert done + succs == done;
      LaterReflexive(a, leq, valid, limit, depth, c, w.states);
    } else {
      var to := succs[0];
      assert (done + [to]) + succs[1..] == done + succs;
      if to !in a.prog.code {
        LocalGood(a, leq, valid, limit, depth, c, outer, f, w, p, done + [to], succs[1..]);
      } else {
        assert to in succs && p in w.pending + {p};
        var e := EdgeF(a, w.states, p, to, None);
        LocalEdge(a, leq, valid, limit, depth, c, outer, f, w, p, done, to);
        var w1 := Work(e.states, Queue(w.pending, e.queued));
        LocalGood(a, leq, valid, limit, depth, c, outer, f, w1, p, done + [to], succs[1..]);
        LaterTransitive(a, leq, valid, limit, depth, c, w.states, w1.states, LocalF(a, w, p, succs).states);
      }
    }
  }

  lemma LaterReflexive<D(!new)>(
    a: Analysis<Entry, D>, leq: (D, D) -> bool, valid: D -> bool, limit: nat, depth: Fid -> nat,
    c: Entry, states: map<Entry, D>)
    requires StackSetting(a, leq, valid, limit, depth)
    ensures Later(a, leq, c, states, states) && Extends(a, states, states)
  {
    hide OrderLaws, StepLaws, DomainLaws;
  }

  lemma LaterTransitive<D(!new)>(
    a: Analysis<Entry, D>, leq: (D, D) -> bool, valid: D -> bool, limit: nat, depth: Fid -> nat,
    c: Entry, s1: map<Entry, D>, s2: map<Entry, D>, s3: map<Entry, D>)
    requires StackSetting(a, leq, valid, limit, depth)
    requires Later(a, leq, c, s1, s2) && Later(a, leq, c, s2, s3) && Extends(a, s1, s2) && Extends(a, s2, s3)
    ensures Later(a, leq, c, s1, s3) && Extends(a, s1, s3)
  {
    hide OrderLaws, StepLaws, DomainLaws;
  }

  /** One more local edge. */
  lemma LocalEdge<D(!new)>(
    a: Analysis<Entry, D>, leq: (D, D) -> bool, valid: D -> bool, limit: nat, depth: Fid -> nat,
    c: Entry, outer: set<Entry>, f: Fid, w: Work<Entry, D>, p: Entry, done: seq<Loc>, to: Loc)
    requires StackSetting(a, leq, valid, limit, depth) && Good(a, leq, valid, c, outer, w.states, w.pending + {p})
    requires InContext(a.prog, c, f, w.pending + {p}) && !a.prog.Descends(p.loc) && a.prog.LocalStep(p.loc, to)
    requires p.Entry? && (p in w.pending || DoneTo(a, leq, w.states, p, done))
    ensures var e := EdgeF(a, w.states, p, to, None);
            var pending := Queue(w.pending, e.queued);
            && Good(a, leq, valid, c, outer, e.states, pending + {p}) && InContext(a.prog, c, f, pending + {p})
            && Later(a, leq, c, w.states, e.states) && Extends(a, w.states, e.states)
            && (p in pending || DoneTo(a, leq, e.states, p, done + [to]))
  {
    hide OrderLaws, StepLaws, EdgeF, Later, AllEdgesDone, AllReturned, Extends;
    hide Program.WellFormed, Program.Ranked, Program.LocalStep, Program.ValidStack;
    var n := Entry(to, p.caller);
    assert p in w.pending + {p};
    assert Stacked(a.prog, p) && GoesOn(a.prog, p.loc, to) && n == Onward(a.prog, p, to);
    GoesOnSteps(a, leq, valid, limit, depth, p, to, None);
    EdgeGood(a, leq, valid, limit, depth, c, c, outer, w.states, w.pending + {p}, p, to, None, n);
    LocalOwner(a.prog, p.loc, to);
    var e := EdgeF(a, w.states, p, to, None);
    var pending := Queue(w.pending, e.queued);
    assert Queue(w.pending + {p}, e.queued) == pending + {p};
    hide DomainLaws, Stacked, StepTo;
    if p !in pending {
      forall t | t in done + [to] && t in a.prog.code ensures Absorbed(a, leq, e.states, p, Entry(t, p.caller)) {
        if t in done {
          AbsorbedGrows(a, leq, w.states, e.states, n, p, Entry(t, p.caller));
        }
      }
    }
  }

  lemma LocalOwner(prog: Program, l: Loc, to: Loc)
    requires prog.WellFormed() && prog.LocalStep(l, to)
    ensures to in prog.owner && l in prog.owner && prog.owner[to] == prog.owner[l]
  {
  }

  // ----- return edges -----

  /** What is absorbed already changes nothing. */
  lemma AbsorbedNoop<D(!new)>(
    a: Analysis<Entry, D>, leq: (D, D) -> bool, valid: D -> bool, limit: nat, depth: Fid -> nat,
    states: map<Entry, D>, p: Entry, to: Loc, caller: Option<Entry>, n: Entry)
    requires StackSetting(a, leq, valid, limit, depth) && AllValid(valid, states) && Live(a, states, {p})
    requires StepTo(a, p, to, caller, n) && Absorbed(a, leq, states, p, n)
    ensures EdgeF(a, states, p, to, caller) == EdgeResult(states, None)
  {
    hide OrderLaws, StepLaws, EdgeF, StepTo;
    hide Program.WellFormed, Program.Ranked;
    EdgeShape(a, limit, states, p, to, caller, n);
    assert p in states && !a.isBottom(states[p]);
    var values := a.transform(p, n, states[p]);
    assert valid(values) && valid(states[n]);
    assert !a.merge(states[n], values, p, n).changed;
    assert states[n := states[n]] == states;
  }

  lemma NoStepNoop<D(!new)>(
    a: Analysis<Entry, D>, states: map<Entry, D>, p: Entry, to: Loc, caller: Option<Entry>)
    requires NoStep(a, p, to, caller)
    ensures EdgeF(a, states, p, to, caller) == EdgeResult(states, None)
  {
  }

  /** Another end history of the same call site belongs to a call that is not
      active. */
  lemma OtherCaller(prog: Program, depth: Fid -> nat, p: Entry, q: Entry)
    requires prog.WellFormed() && prog.Ranked(depth) && Stacked(prog, p) && q.Entry? && q.loc == p.loc && q != p
    ensures !Active(p, q)
  {
    hide Program.WellFormed, Program.Ranked, Program.ValidStack;
    NotOnStack(prog, depth, p);
    if Active(p, q) {
      ActiveCounts(p.caller, q);
    }
  }

  /** The end histories in `ends` have returned. */
  ghost predicate EndsDone<D(!new)>(
    a: Analysis<Entry, D>, leq: (D, D) -> bool, states: map<Entry, D>, p: Entry, ends: set<Entry>)
  {
    forall e :: e in ends && e.Entry? && e.caller == p ==> ReturnDone(a, leq, states, e)
  }

  /** The call site of `p`, its callee's end and its return site. */
  lemma CallSite(prog: Program, depth: Fid -> nat, l: Loc)
    requires prog.WellFormed() && prog.Ranked(depth) && prog.Descends(l)
    ensures prog.Exit(l) != l + 1 && prog.Entry(l) != l
    ensures l in prog.owner && l + 1 in prog.owner && prog.owner[l + 1] == prog.owner[l]
    ensures prog.Entry(l) in prog.owner && prog.owner[prog.Entry(l)] == prog.code[l].callee
  {
  }

  /** The return edge from `e`, taken for the call `p`. */
  lemma ReturnEdgeGood<D(!new)>(
    a: Analysis<Entry, D>, leq: (D, D) -> bool, valid: D -> bool, limit: nat, depth: Fid -> nat,
    outer: set<Entry>, f: Fid, w: Work<Entry, D>, p: Entry, e: Entry, ends: set<Entry>)
    requires StackSetting(a, leq, valid, limit, depth) && p.Entry?
    requires Good(a, leq, valid, p, outer, w.states, w.pending + {p}) && InContext(a.prog, p.caller, f, w.pending + {p})
    requires a.prog.Descends(p.loc) && e in w.states && e.Entry? && e.loc == a.prog.Exit(p.loc)
    requires EndsDone(a, leq, w.states, p, ends) && AllAt(a, ends, e.loc)
    ensures var w' := ReturnEdge(a, w, p, e);
            && Good(a, leq, valid, p, outer, w'.states, w'.pending + {p})
            && InContext(a.prog, p.caller, f, w'.pending + {p})
            && Later(a, leq, p.caller, w.states, w'.states) && Extends(a, w.states, w'.states)
            && OnlyAtReturn(w.states, w'.states, p) && EndsDone(a, leq, w'.states, p, ends + {e})
  {
    hide OrderLaws, StepLaws, JoinDomain, EdgeF, Later, Extends, EndsDone, Good, InContext, Stacked, AllReturned;
    hide AllEdgesDone, StepTo, NoStep, OnlyAtReturn, AllStacked, AllValid, Live;
    hide Program.WellFormed, Program.Ranked, Program.ValidStack, Program.Descends, Program.Exit;
    GoodParts(a, leq, valid, p, outer, w.states, w.pending, e);
    LaterReflexive(a, leq, valid, limit, depth, p.caller, w.states);
    NothingAtReturn(w.states, p);
    OneLive(a, w.states, e);
    if a.isBottom(w.states[e]) {
      EndBottom(a, leq, w.states, p, ends, e);
    } else if e.caller == p {
      BackSteps(a, leq, valid, limit, depth, e, p.loc, Some(p));
      OwnReturn(a, leq, valid, limit, depth, outer, f, w, p, e, ends);
    } else {
      OtherEnd(a, leq, w.states, p, ends, e);
      OtherReturn(a, leq, valid, limit, depth, w.states, p, e);
    }
  }

  lemma NothingAtReturn<D(!new)>(states: map<Entry, D>, p: Entry)
    requires p.Entry?
    ensures OnlyAtReturn(states, states, p)
  {
  }

  lemma OneLive<D(!new)>(a: Analysis<Entry, D>, states: map<Entry, D>, e: Entry)
    requires e in states
    ensures !a.isBottom(states[e]) ==> Live(a, states, {e})
  {
  }

  lemma GoodParts<D(!new)>(
    a: Analysis<Entry, D>, leq: (D, D) -> bool, valid: D -> bool,
    p: Entry, outer: set<Entry>, states: map<Entry, D>, pending: set<Entry>, e: Entry)
    requires Good(a, leq, valid, p, outer, states, pending + {p}) && e in states
    ensures AllValid(valid, states) && AllReturned(a, leq, p, states) && Stacked(a.prog, p) && Stacked(a.prog, e)
  {
    hide AllEdgesDone, AllReturned, Stacked;
    assert p in pending + {p};
  }

  /** The return edge from an end history of another call changes nothing. */
  lemma OtherReturn<D(!new)>(
    a: Analysis<Entry, D>, leq: (D, D) -> bool, valid: D -> bool, limit: nat, depth: Fid -> nat,
    states: map<Entry, D>, p: Entry, e: Entry)
    requires StackSetting(a, leq, valid, limit, depth) && AllValid(valid, states) && AllReturned(a, leq, p, states)
    requires Stacked(a.prog, p) && Stacked(a.prog, e) && e.caller != p && a.prog.Descends(p.loc)
    requires e in states && !a.isBottom(states[e]) && e.loc == a.prog.Exit(p.loc)
    ensures EdgeF(a, states, e, p.loc + 1, Some(p)) == EdgeResult(states, None)
  {
    hide OrderLaws, StepLaws, EdgeF, JoinDomain, AllReturned;
    hide Program.WellFormed, Program.Ranked, Program.ValidStack, Program.Descends;
    BackSteps(a, leq, valid, limit, depth, e, p.loc, Some(p));
    if e.caller.Entry? && e.caller.loc == p.loc {
      OtherCaller(a.prog, depth, p, e.caller);
      ReturnedElsewhere(a, leq, p, states, e);
      AbsorbedNoop(a, leq, valid, limit, depth, states, e, p.loc + 1, Some(p), Back(e));
    } else {
      NoStepNoop(a, states, e, p.loc + 1, Some(p));
    }
  }

  /** Only the history at the return site of `p`, in its context, may change. */
  ghost predicate OnlyAtReturn<D(!new)>(states: map<Entry, D>, states': map<Entry, D>, p: Entry)
    requires p.Entry?
  {
    forall h :: h != Entry(p.loc + 1, p.caller) ==>
      (h in states <==> h in states') && (h in states ==> states'[h] == states[h])
  }

  lemma EndBottom<D(!new)>(
    a: Analysis<Entry, D>, leq: (D, D) -> bool, states: map<Entry, D>, p: Entry, ends: set<Entry>, e: Entry)
    requires EndsDone(a, leq, states, p, ends) && e in states && a.isBottom(states[e])
    ensures EndsDone(a, leq, states, p, ends + {e})
  {
  }

  lemma OtherEnd<D(!new)>(
    a: Analysis<Entry, D>, leq: (D, D) -> bool, states: map<Entry, D>, p: Entry, ends: set<Entry>, e: Entry)
    requires EndsDone(a, leq, states, p, ends) && e.Entry? && e.caller != p
    ensures EndsDone(a, leq, states, p, ends + {e})
  {
  }

  lemma ReturnedElsewhere<D(!new)>(
    a: Analysis<Entry, D>, leq: (D, D) -> bool, busy: Entry, states: map<Entry, D>, e: Entry)
    requires AllReturned(a, leq, busy, states) && e in states && AtEnd(a.prog, e) && !Active(busy, e.caller)
    ensures Absorbed(a, leq, states, e, Back(e))
  {
  }

  /** The return of the call `p` itself. */
  lemma OwnReturn<D(!new)>(
    a: Analysis<Entry, D>, leq: (D, D) -> bool, valid: D -> bool, limit: nat, depth: Fid -> nat,
    outer: set<Entry>, f: Fid, w: Work<Entry, D>, p: Entry, e: Entry, ends: set<Entry>)
    requires StackSetting(a, leq, valid, limit, depth) && p.Entry?
    requires Good(a, leq, valid, p, outer, w.states, w.pending + {p}) && InContext(a.prog, p.caller, f, w.pending + {p})
    requires a.prog.Descends(p.loc) && Live(a, w.states, {e}) && e.Entry? && e.caller == p && AtEnd(a.prog, e)
    requires StepTo(a, e, p.loc + 1, Some(p), Back(e))
    requires EndsDone(a, leq, w.states, p, ends) && AllAt(a, ends, e.loc)
    ensures var r := EdgeF(a, w.states, e, p.loc + 1, Some(p));
            var pending := Queue(w.pending, r.queued);
            && Good(a, leq, valid, p, outer, r.states, pending + {p}) && InContext(a.prog, p.caller, f, pending + {p})
            && Later(a, leq, p.caller, w.states, r.states) && Extends(a, w.states, r.states)
            && OnlyAtReturn(w.states, r.states, p) && EndsDone(a, leq, r.states, p, ends + {e})
  {
    hide OrderLaws, StepLaws, EdgeF, Later, Extends, AllEdgesDone, AllReturned, Good, StepTo, DomainLaws, Stacked;
    hide Program.WellFormed, Program.Ranked, Program.Descends;
    var n := Back(e);
    CallSite(a.prog, depth, p.loc);
    EdgeGood(a, leq, valid, limit, depth, p, p.caller, outer, w.states, w.pending + {p}, e, p.loc + 1, Some(p), n);
    var r := EdgeF(a, w.states, e, p.loc + 1, Some(p));
    assert Queue(w.pending + {p}, r.queued) == Queue(w.pending, r.queued) + {p};
    assert p in w.pending + {p};
    assert e != n && Absorbed(a, leq, r.states, e, n);
    forall x | x in ends + {e} && x.Entry? && x.caller == p ensures ReturnDone(a, leq, r.states, x) {
      assert AtEnd(a.prog, x) ==> x == e;
    }
  }

  /** All return edges of the call `p`. */
  lemma {:induction false} ReturnGood<D(!new)>(
    a: Analysis<Entry, D>, leq: (D, D) -> bool, valid: D -> bool, limit: nat, depth: Fid -> nat,
    outer: set<Entry>, f: Fid, fuel: nat, w: Work<Entry, D>, p: Entry, last: Option<Entry>,
    traces: set<Entry>, w': Work<Entry, D>)
    requires StackSetting(a, leq, valid, limit, depth) && p.Entry? && a.loc(p) == p.loc
    requires Good(a, leq, valid, p, outer, w.states, w.pending + {p}) && InContext(a.prog, p.caller, f, w.pending + {p})
    requires a.prog.Descends(p.loc) && ReturnF(a, fuel, w, p, last) == Some(w')
    requires traces == Traces(a, w.states, a.prog.Exit(p.loc))
    requires EndsDone(a, leq, w.states, p, traces - After(a, traces, last))
    ensures Good(a, leq, valid, p, outer, w'.states, w'.pending + {p})
    ensures InContext(a.prog, p.caller, f, w'.pending + {p})
    ensures Later(a, leq, p.caller, w.states, w'.states) && Extends(a, w.states, w'.states)
    ensures OnlyAtReturn(w.states, w'.states, p) && EndsDone(a, leq, w'.states, p, traces)
    decreases fuel
  {
    hide StackSetting, Good, Later, Extends, EndsDone, ReturnEdge, InContext;
    hide Program.Descends;
    var ends := After(a, traces, last);
    if ends == {} {
      assert traces - ends == traces;
      LaterReflexive(a, leq, valid, limit, depth, p.caller, w.states);
    } else {
      var e := First(a, ends);
      var w1 := ReturnEdge(a, w, p, e);
      SettingParts(a, leq, valid, limit, depth, p.loc);
      StoredEntry(a, leq, valid, limit, depth, p, outer, w.states, w.pending + {p}, e);
      ReturnEdgeGood(a, leq, valid, limit, depth, outer, f, w, p, e, traces - ends);
      NextAfter(a, traces, last);
      assert traces - After(a, traces, Some(e)) == (traces - ends) + {e};
      SameTraces(a, leq, valid, limit, depth, p, outer, w.states, w1.states, w.pending + {p}, w1.pending + {p});
      ReturnGood(a, leq, valid, limit, depth, outer, f, fuel - 1, w1, p, Some(e), traces, w');
      LaterTransitive(a, leq, valid, limit, depth, p.caller, w.states, w1.states, w'.states);
    }
  }

  lemma SettingParts<D(!new)>(
    a: Analysis<Entry, D>, leq: (D, D) -> bool, valid: D -> bool, limit: nat, depth: Fid -> nat, l: Loc)
    requires StackSetting(a, leq, valid, limit, depth) && a.prog.Descends(l)
    ensures OrderLaws(a) && a.prog.Exit(l) != l + 1
  {
    CallSite(a.prog, depth, l);
  }

  lemma StoredEntry<D(!new)>(
    a: Analysis<Entry, D>, leq: (D, D) -> bool, valid: D -> bool, limit: nat, depth: Fid -> nat,
    busy: Entry, outer: set<Entry>, states: map<Entry, D>, pending: set<Entry>, e: Entry)
    requires StackSetting(a, leq, valid, limit, depth) && Good(a, leq, valid, busy, outer, states, pending)
    requires e in states
    ensures e.Entry? && a.loc(e) == e.loc && Stacked(a.prog, e)
  {
    hide OrderLaws, StepLaws, JoinDomain, AllEdgesDone, AllReturned;
  }

  /** Returning does not touch the histories at the end of the callee. */
  lemma SameTraces<D(!new)>(
    a: Analysis<Entry, D>, leq: (D, D) -> bool, valid: D -> bool, limit: nat, depth: Fid -> nat,
    p: Entry, outer: set<Entry>, states: map<Entry, D>, states': map<Entry, D>, pending: set<Entry>,
    pending': set<Entry>)
    requires StackSetting(a, leq, valid, limit, depth) && p.Entry? && a.prog.Descends(p.loc)
    requires Good(a, leq, valid, p, outer, states, pending) && Good(a, leq, valid, p, outer, states', pending')
    requires OnlyAtReturn(states, states', p)
    ensures Traces(a, states', a.prog.Exit(p.loc)) == Traces(a, states, a.prog.Exit(p.loc))
  {
    hide OrderLaws, StepLaws, JoinDomain, AllEdgesDone, AllReturned;
    CallSite(a.prog, depth, p.loc);
  }

  // ----- entered calls -----

  /** The nested fixed point starts in the context of the call. */
  lemma Suspended<D(!new)>(
    a: Analysis<Entry, D>, leq: (D, D) -> bool, valid: D -> bool,
    c: Entry, outer: set<Entry>, states: map<Entry, D>, pending: set<Entry>, p: Entry)
    requires Good(a, leq, valid, c, outer, states, pending) && p.Entry? && p.caller == c
    ensures Good(a, leq, valid, p, outer + pending, states, {})
  {
    hide EdgesDone, ReturnDone;
    assert pending + outer == {} + (outer + pending);
  }

  /** With the call's own returns done, the suspended fixed point goes on. */
  lemma Resumed<D(!new)>(
    a: Analysis<Entry, D>, leq: (D, D) -> bool, valid: D -> bool,
    c: Entry, outer: set<Entry>, states: map<Entry, D>, pending: set<Entry>, p: Entry)
    requires Good(a, leq, valid, p, outer, states, pending + {p}) && p.Entry? && p.caller == c
    requires EdgesDone(a, leq, states, p)
    requires forall e :: e in states && AtEnd(a.prog, e) && e.caller == p ==> ReturnDone(a, leq, states, e)
    ensures Good(a, leq, valid, c, outer, states, pending)
  {
    hide EdgesDone, Absorbed;
  }

  lemma SameOutside<D(!new)>(
    a: Analysis<Entry, D>, leq: (D, D) -> bool, states: map<Entry, D>, states': map<Entry, D>, p: Entry)
    requires Later(a, leq, p, states, states') && p in states
    ensures p in states' && states'[p] == states[p]
  {
    if Under(p, p) {
      UnderLonger(p, p);
    }
  }

  /** The pending histories of the context stay live in the nested fixed point. */
  lemma Reopened<D(!new)>(
    a: Analysis<Entry, D>, leq: (D, D) -> bool, valid: D -> bool,
    p: Entry, outer: set<Entry>, states: map<Entry, D>, body: map<Entry, D>, pending: set<Entry>)
    requires Live(a, states, pending) && Extends(a, states, body)
    requires Good(a, leq, valid, p, outer + pending, body, {})
    ensures Good(a, leq, valid, p, outer, body, pending)
  {
    hide EdgesDone, AllReturned;
    assert {} + (outer + pending) == pending + outer;
  }

  /** The entry edge of the call is absorbed, and stays so. */
  lemma EntryDone<D(!new)>(
    a: Analysis<Entry, D>, leq: (D, D) -> bool, valid: D -> bool, limit: nat, depth: Fid -> nat,
    states: map<Entry, D>, between: map<Entry, D>, body: map<Entry, D>, p: Entry)
    requires StackSetting(a, leq, valid, limit, depth) && p.Entry? && a.prog.Descends(p.loc) && p in states
    requires between.Keys >= {p, Entry(a.prog.Entry(p.loc), p)} && between[p] == states[p]
    requires leq(a.transform(p, Entry(a.prog.Entry(p.loc), p), states[p]), between[Entry(a.prog.Entry(p.loc), p)])
    requires Later(a, leq, p, between, body)
    ensures EdgesDone(a, leq, body, p) && p in body
  {
    hide OrderLaws, StepLaws, DomainLaws;
    hide Program.WellFormed, Program.Ranked;
    SameOutside(a, leq, between, body, p);
    var n := Entry(a.prog.Entry(p.loc), p);
    assert leq(between[n], body[n]);
    forall to | GoesOn(a.prog, p.loc, to) ensures Absorbed(a, leq, body, p, Onward(a.prog, p, to)) {
      assert to == a.prog.Entry(p.loc);
    }
  }

  lemma EdgesDoneGrow<D(!new)>(
    a: Analysis<Entry, D>, leq: (D, D) -> bool, valid: D -> bool, limit: nat, depth: Fid -> nat,
    c: Entry, body: map<Entry, D>, states: map<Entry, D>, p: Entry)
    requires StackSetting(a, leq, valid, limit, depth) && p.Entry? && p in body && EdgesDone(a, leq, body, p)
    requires OnlyAtReturn(body, states, p) && Later(a, leq, c, body, states)
    ensures EdgesDone(a, leq, states, p)
  {
    hide OrderLaws, StepLaws, DomainLaws;
    hide Program.WellFormed, Program.Ranked;
    assert states[p] == body[p];
    forall to | GoesOn(a.prog, p.loc, to) ensures Absorbed(a, leq, states, p, Onward(a.prog, p, to)) {
      assert Absorbed(a, leq, body, p, Onward(a.prog, p, to));
    }
  }

  /** What changed under a call changed under the context of the call. */
  lemma LaterUnder<D(!new)>(
    a: Analysis<Entry, D>, leq: (D, D) -> bool, p: Entry, states: map<Entry, D>, states': map<Entry, D>)
    requires p.Entry? && Later(a, leq, p, states, states')
    ensures Later(a, leq, p.caller, states, states')
  {
    forall h | h in states' && !Under(p.caller, h) ensures h in states && states'[h] == states[h] {
      if Under(p, h) {
        UnderCaller(p, h);
      }
    }
  }

  lemma NothingReturned<D(!new)>(
    a: Analysis<Entry, D>, leq: (D, D) -> bool, states: map<Entry, D>, p: Entry, traces: set<Entry>)
    ensures EndsDone(a, leq, states, p, traces - After(a, traces, None))
  {
  }

  lemma AllEnds<D(!new)>(
    a: Analysis<Entry, D>, leq: (D, D) -> bool, valid: D -> bool, limit: nat, depth: Fid -> nat,
    states: map<Entry, D>, p: Entry, traces: set<Entry>)
    requires StackSetting(a, leq, valid, limit, depth) && p.Entry? && a.prog.Descends(p.loc)
    requires traces == Traces(a, states, a.prog.Exit(p.loc)) && EndsDone(a, leq, states, p, traces)
    ensures forall e :: e in states && AtEnd(a.prog, e) && e.caller == p ==> ReturnDone(a, leq, states, e)
  {
    hide OrderLaws, StepLaws, JoinDomain, ReturnDone;
  }

  /** The entry edge of the call `p`, in its own context. */
  lemma EntryGood<D(!new)>(
    a: Analysis<Entry, D>, leq: (D, D) -> bool, valid: D -> bool, limit: nat, depth: Fid -> nat,
    c: Entry, outer: set<Entry>, f: Fid, w: Work<Entry, D>, p: Entry)
    requires StackSetting(a, leq, valid, limit, depth) && Good(a, leq, valid, c, outer, w.states, w.pending + {p})
    requires InContext(a.prog, c, f, w.pending + {p}) && p.Entry? && a.prog.Descends(p.loc)
    ensures var entry := a.prog.Entry(p.loc);
            var e := EdgeF(a, w.states, p, entry, None);
            && Good(a, leq, valid, p, outer + (w.pending + {p}), e.states, Queue({}, e.queued))
            && InContext(a.prog, p, a.prog.code[p.loc].callee, Queue({}, e.queued))
            && Later(a, leq, p, w.states, e.states) && Extends(a, w.states, e.states)
            && p in w.states && p in e.states && e.states[p] == w.states[p] && Entry(entry, p) in e.states
            && leq(a.transform(p, Entry(entry, p), w.states[p]), e.states[Entry(entry, p)])
  {
    hide OrderLaws, StepLaws, EdgeF, Later, Extends, AllEdgesDone, AllReturned, JoinDomain, StepTo;
    hide Program.WellFormed, Program.Ranked, Program.ValidStack, Program.LocalStep;
    var entry := a.prog.Entry(p.loc);
    var n := Entry(entry, p);
    assert p in w.pending + {p} && Stacked(a.prog, p) && GoesOn(a.prog, p.loc, entry) && n == Onward(a.prog, p, entry);
    CallSite(a.prog, depth, p.loc);
    GoesOnSteps(a, leq, valid, limit, depth, p, entry, None);
    Suspended(a, leq, valid, c, outer, w.states, w.pending + {p}, p);
    EdgeGood(a, leq, valid, limit, depth, p, p, outer + (w.pending + {p}), w.states, {}, p, entry, None, n);
  }

  lemma {:induction false} CallGood<D(!new)>(
    a: Analysis<Entry, D>, leq: (D, D) -> bool, valid: D -> bool, limit: nat, depth: Fid -> nat,
    c: Entry, outer: set<Entry>, f: Fid, fuel: nat, w: Work<Entry, D>, p: Entry, w': Work<Entry, D>)
    requires StackSetting(a, leq, valid, limit, depth) && Good(a, leq, valid, c, outer, w.states, w.pending + {p})
    requires InContext(a.prog, c, f, w.pending + {p}) && p.Entry? && p.caller == c && a.loc(p) == p.loc
    requires a.prog.Descends(p.loc) && CallF(a, fuel, w, p) == Some(w')
    ensures Good(a, leq, valid, c, outer, w'.states, w'.pending) && InContext(a.prog, c, f, w'.pending)
    ensures Later(a, leq, c, w.states, w'.states) && Extends(a, w.states, w'.states)
    decreases fuel, 1
  {
    hide StackSetting, Good, Later, Extends, InContext, EdgeF, FixF, ReturnF, EdgesDone, EndsDone, Traces;
    var entry := a.prog.Entry(p.loc);
    var all := w.pending + {p};
    var e := EdgeF(a, w.states, p, entry, None);
    EntryGood(a, leq, valid, limit, depth, c, outer, f, w, p);
    var body := e.states;
    LaterReflexive(a, leq, valid, limit, depth, p, e.states);
    if e.queued.Some? {
      assert Queue({}, e.queued) == {e.queued.value};
      body := FixF(a, fuel, Work(e.states, {e.queued.value})).value;
      FixGood(a, leq, valid, limit, depth, p, outer + all, a.prog.code[p.loc].callee, fuel,
              Work(e.states, {e.queued.value}), body);
    }
    LaterTransitive(a, leq, valid, limit, depth, p, w.states, e.states, body);
    EntryDone(a, leq, valid, limit, depth, w.states, e.states, body, p);
    AfterBody(a, leq, valid, limit, depth, c, outer, f, fuel, w.states, body, w.pending, p, w');
  }

  /** The return edges after the fixed point of the callee. */
  lemma AfterBody<D(!new)>(
    a: Analysis<Entry, D>, leq: (D, D) -> bool, valid: D -> bool, limit: nat, depth: Fid -> nat,
    c: Entry, outer: set<Entry>, f: Fid, fuel: nat, states: map<Entry, D>, body: map<Entry, D>,
    pending: set<Entry>, p: Entry, w': Work<Entry, D>)
    requires StackSetting(a, leq, valid, limit, depth) && Good(a, leq, valid, c, outer, states, pending + {p})
    requires InContext(a.prog, c, f, pending + {p}) && p.Entry? && p.caller == c && a.loc(p) == p.loc
    requires Good(a, leq, valid, p, outer + (pending + {p}), body, {}) && EdgesDone(a, leq, body, p)
    requires Later(a, leq, p, states, body) && Extends(a, states, body) && p in body
    requires a.prog.Descends(p.loc) && ReturnF(a, fuel, Work(body, pending), p, None) == Some(w')
    ensures Good(a, leq, valid, c, outer, w'.states, w'.pending) && InContext(a.prog, c, f, w'.pending)
    ensures Later(a, leq, c, states, w'.states) && Extends(a, states, w'.states)
  {
    hide StackSetting, Good, Later, Extends, InContext, ReturnF, EdgesDone, EndsDone, Traces;
    hide Program.Descends;
    assert Live(a, states, pending + {p}) by {
      GoodLive(a, leq, valid, c, outer, states, pending + {p});
    }
    Reopened(a, leq, valid, p, outer, states, body, pending + {p});
    var traces := Traces(a, body, a.prog.Exit(p.loc));
    NothingReturned(a, leq, body, p, traces);
    ReturnGood(a, leq, valid, limit, depth, outer, f, fuel, Work(body, pending), p, None, traces, w');
    SameTraces(a, leq, valid, limit, depth, p, outer, body, w'.states, pending + {p}, w'.pending + {p});
    AllEnds(a, leq, valid, limit, depth, w'.states, p, traces);
    EdgesDoneGrow(a, leq, valid, limit, depth, c, body, w'.states, p);
    Resumed(a, leq, valid, c, outer, w'.states, w'.pending, p);
    LaterUnder(a, leq, p, states, body);
    LaterTransitive(a, leq, valid, limit, depth, c, states, body, w'.states);
    FewerInContext(a.prog, c, f, w'.pending, p);
  }

  lemma GoodLive<D(!new)>(
    a: Analysis<Entry, D>, leq: (D, D) -> bool, valid: D -> bool,
    c: Entry, outer: set<Entry>, states: map<Entry, D>, pending: set<Entry>)
    requires Good(a, leq, valid, c, outer, states, pending)
    ensures Live(a, states, pending)
  {
  }

  lemma FewerInContext(prog: Program, c: Entry, f: Fid, pending: set<Entry>, p: Entry)
    requires InContext(prog, c, f, pending + {p})
    ensures InContext(prog, c, f, pending)
  {
  }

  // ----- the fixed point -----

  /** A visited history with all its edges done need not be an exception. */
  lemma Visited<D(!new)>(
    a: Analysis<Entry, D>, leq: (D, D) -> bool, valid: D -> bool,
    c: Entry, outer: set<Entry>, f: Fid, states: map<Entry, D>, pending: set<Entry>, p: Entry)
    requires Good(a, leq, valid, c, outer, states, pending + {p}) && InContext(a.prog, c, f, pending + {p})
    requires p in pending || EdgesDone(a, leq, states, p)
    ensures Good(a, leq, valid, c, outer, states, pending) && InContext(a.prog, c, f, pending)
  {
    hide EdgesDone, AllReturned;
  }

  lemma LocalVisit<D(!new)>(
    a: Analysis<Entry, D>, leq: (D, D) -> bool, valid: D -> bool, limit: nat, depth: Fid -> nat,
    c: Entry, outer: set<Entry>, f: Fid, w: Work<Entry, D>, p: Entry, succs: seq<Loc>)
    requires StackSetting(a, leq, valid, limit, depth) && Good(a, leq, valid, c, outer, w.states, w.pending + {p})
    requires InContext(a.prog, c, f, w.pending + {p}) && p.Entry? && !a.prog.Descends(p.loc)
    requires forall to :: to in a.prog.code ==> (to in succs <==> a.prog.LocalStep(p.loc, to))
    ensures var w' := LocalF(a, w, p, succs);
            && Good(a, leq, valid, c, outer, w'.states, w'.pending) && InContext(a.prog, c, f, w'.pending)
            && Later(a, leq, c, w.states, w'.states) && Extends(a, w.states, w'.states)
  {
    hide StackSetting, Good, Later, Extends, InContext, LocalF, Absorbed;
    var w' := LocalF(a, w, p, succs);
    LocalGood(a, leq, valid, limit, depth, c, outer, f, w, p, [], succs);
    assert [] + succs == succs;
    if p !in w'.pending {
      assert EdgesDone(a, leq, w'.states, p);
    }
    Visited(a, leq, valid, c, outer, f, w'.states, w'.pending, p);
  }

  lemma {:induction false} VisitGood<D(!new)>(
    a: Analysis<Entry, D>, leq: (D, D) -> bool, valid: D -> bool, limit: nat, depth: Fid -> nat,
    c: Entry, outer: set<Entry>, f: Fid, fuel: nat, w: Work<Entry, D>, p: Entry, w': Work<Entry, D>)
    requires StackSetting(a, leq, valid, limit, depth) && Good(a, leq, valid, c, outer, w.states, w.pending + {p})
    requires InContext(a.prog, c, f, w.pending + {p}) && VisitF(a, fuel, w, p) == Some(w')
    ensures Good(a, leq, valid, c, outer, w'.states, w'.pending) && InContext(a.prog, c, f, w'.pending)
    ensures Later(a, leq, c, w.states, w'.states) && Extends(a, w.states, w'.states)
    decreases fuel, 2
  {
    hide StackSetting, Good, Later, Extends, EdgeF, LocalF, CallF;
    assert p in w.pending + {p};
    PendingEntry(a, leq, valid, limit, depth, c, outer, w.states, w.pending + {p}, p);
    var l := p.loc;
    match a.prog.code[l]
    case EndFunction =>
      assert EdgesDone(a, leq, w.states, p);
      LaterReflexive(a, leq, valid, limit, depth, c, w.states);
      Visited(a, leq, valid, c, outer, f, w.states, w.pending, p);
    case Local(succs) => LocalVisit(a, leq, valid, limit, depth, c, outer, f, w, p, succs);
    case FunctionCall(_) =>
      if a.prog.Descends(l) {
        CallGood(a, leq, valid, limit, depth, c, outer, f, fuel, w, p, w');
      } else {
        LocalVisit(a, leq, valid, limit, depth, c, outer, f, w, p, [l + 1]);
        SkipIsLocal(a, w, p);
      }
  }

  lemma PendingEntry<D(!new)>(
    a: Analysis<Entry, D>, leq: (D, D) -> bool, valid: D -> bool, limit: nat, depth: Fid -> nat,
    c: Entry, outer: set<Entry>, states: map<Entry, D>, pending: set<Entry>, p: Entry)
    requires StackSetting(a, leq, valid, limit, depth) && Good(a, leq, valid, c, outer, states, pending) && p in pending
    ensures p.Entry? && a.loc(p) == p.loc && p.loc in a.prog.code
    ensures a.prog.code[p.loc].FunctionCall? ==> p.loc + 1 in a.prog.code
  {
    hide OrderLaws, StepLaws, JoinDomain, AllEdgesDone, AllReturned;
  }

  lemma SkipIsLocal<D(!new)>(a: Analysis<Entry, D>, w: Work<Entry, D>, p: Entry)
    requires p.Entry? && a.loc(p) == p.loc && p.loc + 1 in a.prog.code
    ensures var e := EdgeF(a, w.states, p, p.loc + 1, None);
            LocalF(a, w, p, [p.loc + 1]) == Work(e.states, Queue(w.pending, e.queued))
  {
    hide EdgeF;
    assert [p.loc + 1][1..] == [];
  }

  lemma {:induction false} FixGood<D(!new)>(
    a: Analysis<Entry, D>, leq: (D, D) -> bool, valid: D -> bool, limit: nat, depth: Fid -> nat,
    c: Entry, outer: set<Entry>, f: Fid, fuel: nat, w: Work<Entry, D>, states': map<Entry, D>)
    requires StackSetting(a, leq, valid, limit, depth) && Good(a, leq, valid, c, outer, w.states, w.pending)
    requires InContext(a.prog, c, f, w.pending) && FixF(a, fuel, w) == Some(states')
    ensures Good(a, leq, valid, c, outer, states', {}) && Later(a, leq, c, w.states, states')
    ensures Extends(a, w.states, states')
    decreases fuel, 0
  {
    hide StackSetting, Good, Later, Extends, InContext, VisitF;
    if w.pending == {} {
      LaterReflexive(a, leq, valid, limit, depth, c, w.states);
    } else {
      var p := First(a, w.pending);
      var rest := w.pending - {p};
      assert rest + {p} == w.pending;
      var w1 := VisitF(a, fuel - 1, Work(w.states, rest), p).value;
      VisitGood(a, leq, valid, limit, depth, c, outer, f, fuel - 1, Work(w.states, rest), p, w1);
      FixGood(a, leq, valid, limit, depth, c, outer, f, fuel - 1, w1, states');
      LaterTransitive(a, leq, valid, limit, depth, c, w.states, w1.states, states');
    }
  }

  // ----- the theorems -----

  /** States that were never reached are bottom. */
  ghost function StackResult<D>(a: Analysis<Entry, D>, states: map<Entry, D>): Entry -> D {
    (h: Entry) => if h in states then states[h] else a.bottom
  }

  lemma RunGood<D(!new)>(
    a: Analysis<Entry, D>, leq: (D, D) -> bool, valid: D -> bool, limit: nat, depth: Fid -> nat,
    fuel: nat, start: Loc, states: map<Entry, D>)
    requires StackSetting(a, leq, valid, limit, depth) && start in a.prog.code
    requires RunF(a, fuel, map[], start) == Some(states)
    ensures Good(a, leq, valid, Null, {}, states, {})
    ensures a.epoch(start) in states && leq(a.entry, states[a.epoch(start)])
  {
    hide OrderLaws, StepLaws, FixF;
    hide Program.Ranked;
    var p := Entry(start, Null);
    var init: map<Entry, D> := map[p := a.entry];
    assert Sites(p.caller) == [] && Stacked(a.prog, p);
    assert Good(a, leq, valid, Null, {}, init, {p}) && InContext(a.prog, Null, a.prog.owner[start], {p});
    FixGood(a, leq, valid, limit, depth, Null, {}, a.prog.owner[start], fuel, Work(init, {p}), states);
    assert leq(init[p], states[p]);
  }

  /** One inequation of the interprocedural problem. */
  lemma EdgeSolved<D(!new)>(
    a: Analysis<Entry, D>, leq: (D, D) -> bool, valid: D -> bool, limit: nat, depth: Fid -> nat,
    states: map<Entry, D>, h: Entry, to: Loc, others: set<Entry>, caller: Option<Entry>)
    requires StackSetting(a, leq, valid, limit, depth) && Good(a, leq, valid, Null, {}, states, {})
    requires a.prog.Edge(a.loc(h), to, LocOf(a, caller)) && h in states && !a.isBottom(states[h])
    requires !a.step(h, to, others, caller).Blocked?
    ensures var n := a.step(h, to, others, caller).to;
            n in states && leq(a.transform(h, n, states[h]), states[n])
  {
    hide OrderLaws, StepLaws, JoinDomain, AllValid, Live;
    hide Program.WellFormed, Program.Ranked, Program.ValidStack, Program.LocalStep, Program.Descends;
    assert Stacked(a.prog, h) && a.loc(h) == h.loc;
    if caller.None? {
      assert GoesOn(a.prog, h.loc, to);
      GoesOnSteps(a, leq, valid, limit, depth, h, to, caller);
      assert EdgesDone(a, leq, states, h);
      assert Absorbed(a, leq, states, h, Onward(a.prog, h, to));
    } else {
      BackSteps(a, leq, valid, limit, depth, h, a.loc(caller.value), caller);
      assert ReturnDone(a, leq, states, h);
    }
  }

  /** The result solves the interprocedural inequations. */
  lemma ResultSolves<D(!new)>(
    a: Analysis<Entry, D>, leq: (D, D) -> bool, valid: D -> bool, limit: nat, depth: Fid -> nat,
    fuel: nat, start: Loc, states: map<Entry, D>)
    requires StackSetting(a, leq, valid, limit, depth) && start in a.prog.code
    requires RunF(a, fuel, map[], start) == Some(states)
    ensures Solves(a, leq, valid, StackResult(a, states))
    ensures leq(a.entry, StackResult(a, states)(a.epoch(start)))
  {
    RunGood(a, leq, valid, limit, depth, fuel, start, states);
    hide OrderLaws, StepLaws, UpperBounds, RunF, AllEdgesDone, AllReturned, AllStacked;
    hide Program.WellFormed, Program.Ranked, Program.Edge;
    var x := StackResult(a, states);
    forall h, to, others, caller |
      && a.prog.Edge(a.loc(h), to, LocOf(a, caller)) && AllAt(a, others, to) && !a.isBottom(x(h))
      && !a.step(h, to, others, caller).Blocked?
      ensures var n := a.step(h, to, others, caller).to; leq(a.transform(h, n, x(h)), x(n))
    {
      EdgeSolved(a, leq, valid, limit, depth, states, h, to, others, caller);
    }
  }

  /** The flow around a call, in terms of the program text: from the call into the
      first instruction of the callee on top of the stack, and from the last one back
      behind the call. */
  lemma CallsFlow<D(!new)>(
    a: Analysis<Entry, D>, leq: (D, D) -> bool, valid: D -> bool, limit: nat, depth: Fid -> nat,
    fuel: nat, start: Loc, states: map<Entry, D>, l: Loc, under: Entry, callee: Fid)
    requires StackSetting(a, leq, valid, limit, depth) && start in a.prog.code
    requires RunF(a, fuel, map[], start) == Some(states)
    requires a.prog.interprocedural && l in a.prog.code && a.prog.code[l] == FunctionCall(callee)
    requires callee in a.prog.functions && a.prog.functions[callee].Body? && Count(under, l) == 0
    ensures var x, call, body := StackResult(a, states), Entry(l, under), a.prog.functions[callee];
            var head, end, back := Entry(body.first, call), Entry(body.last, call), Entry(l + 1, under);
            && (!a.isBottom(x(call)) && body.first != l + 1 ==> leq(a.transform(call, head, x(call)), x(head)))
            && (!a.isBottom(x(end)) ==> leq(a.transform(end, back, x(end)), x(back)))
  {
    ResultSolves(a, leq, valid, limit, depth, fuel, start, states);
    hide OrderLaws, StepLaws, UpperBounds, RunF, JoinDomain;
    hide Program.Ranked;
    var x, call, body := StackResult(a, states), Entry(l, under), a.prog.functions[callee];
    var head, end, back := Entry(body.first, call), Entry(body.last, call), Entry(l + 1, under);
    var none: set<Entry> := {};
    assert a.step(end, l + 1, none, Some(call)) == New(back);
    assert a.prog.Edge(a.loc(end), l + 1, LocOf(a, Some(call))) && AllAt(a, none, l + 1);
    if body.first != l + 1 {
      assert a.step(call, body.first, none, None) == New(head);
      assert a.prog.Edge(a.loc(call), body.first, LocOf(a, None)) && AllAt(a, none, body.first);
    }
  }

  /** With monotone transformers it is the least solution above the entry state. */
  lemma LeastStackSolution<D(!new)>(
    a: Analysis<Entry, D>, leq: (D, D) -> bool, valid: D -> bool, limit: nat, depth: Fid -> nat,
    fuel: nat, start: Loc, states: map<Entry, D>, y: Entry -> D, h: Entry)
    requires StackSetting(a, leq, valid, limit, depth) && MonotoneLaws(a, leq, valid) && start in a.prog.code
    requires RunF(a, fuel, map[], start) == Some(states)
    requires Solves(a, leq, valid, y) && leq(a.entry, y(a.epoch(start)))
    ensures Solves(a, leq, valid, StackResult(a, states)) && leq(StackResult(a, states)(h), y(h))
  {
    hide OrderLaws, StepLaws, UpperBounds, RunF, Solves;
    hide Program.WellFormed, Program.Ranked;
    ResultSolves(a, leq, valid, limit, depth, fuel, start, states);
    RunBelow(a, leq, valid, y, fuel, start, states);
  }

  /** Two analyses that differ in the order of their working sets agree. */
  lemma StackOrderIndependent<D(!new)>(
    a: Analysis<Entry, D>, less: (Entry, Entry) -> bool, leq: (D, D) -> bool, valid: D -> bool,
    limit: nat, depth: Fid -> nat, n: nat, m: nat, start: Loc, states: map<Entry, D>, states': map<Entry, D>, h: Entry)
    requires StackSetting(a, leq, valid, limit, depth) && StackSetting(a.(less := less), leq, valid, limit, depth)
    requires MonotoneLaws(a, leq, valid) && MonotoneLaws(a.(less := less), leq, valid) && start in a.prog.code
    requires forall d, e :: valid(d) && valid(e) && leq(d, e) && leq(e, d) ==> d == e
    requires RunF(a, n, map[], start) == Some(states) && RunF(a.(less := less), m, map[], start) == Some(states')
    ensures StackResult(a, states)(h) == StackResult(a, states')(h)
  {
    var a' := a.(less := less);
    hide StackSetting, MonotoneLaws, RunF;
    ResultSolves(a, leq, valid, limit, depth, n, start, states);
    ResultSolves(a', leq, valid, limit, depth, m, start, states');
    SameSolutions(a, less, leq, valid, StackResult(a, states));
    SameSolutions(a, less, leq, valid, StackResult(a', states'));
    LeastStackSolution(a, leq, valid, limit, depth, n, start, states, StackResult(a', states'), h);
    LeastStackSolution(a', leq, valid, limit, depth, m, start, states', StackResult(a, states), h);
    assert valid(StackResult(a, states)(h)) && valid(StackResult(a', states')(h));
  }

  lemma SameSolutions<D(!new)>(
    a: Analysis<Entry, D>, less: (Entry, Entry) -> bool, leq: (D, D) -> bool, valid: D -> bool, x: Entry -> D)
    ensures Solves(a, leq, valid, x) <==> Solves(a.(less := less), leq, valid, x)
  {
    var a' := a.(less := less);
    forall h, to, others, caller: Option<Entry>
      ensures a.prog.Edge(a.loc(h), to, LocOf(a, caller)) <==> a'.prog.Edge(a'.loc(h), to, LocOf(a', caller))
      ensures AllAt(a, others, to) <==> AllAt(a', others, to)
    {
    }
  }
}
