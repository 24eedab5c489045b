/** Soundness of the recursive interpreter, for programs in which no call that can
    return is part of a recursion. */
module AiSoundness {
  import opened Options
  import opened GotoProgram
  import opened AiSpec
  import opened AiRuns

  /** Everything soundness needs: the contracts of history and domain, their
      soundness, and no recursion through calls that can return. */
  ghost predicate Setup<H(!new), D(!new), S(!new)>(
    a: Analysis<H, D>, sem: Semantics<H, D, S>, valid: D -> bool, rank: Ranking)
  {
    && a.prog.WellFormed() && a.prog.ReturnsRanked(rank)
    && OrderLaws(a) && StepLaws(a) && DomainLaws(a, valid)
    && SoundDomain(a, sem, valid) && SoundHistory(a, sem)
  }

  /** An entered callee is not above its caller, and below it if it can return. */
  lemma Callee<H(!new), D(!new), S(!new)>(
    a: Analysis<H, D>, sem: Semantics<H, D, S>, valid: D -> bool, rank: Ranking, l: Loc)
    requires Setup(a, sem, valid, rank) && a.prog.Descends(l) && rank.live(l)
    ensures rank.live(a.prog.Entry(l)) && rank.live(l + 1)
    ensures var o := a.prog.owner; var g := a.prog.code[l].callee;
            && l in o && l + 1 in o && o[l + 1] == o[l] && l + 1 in a.prog.code
            && a.prog.Entry(l) in o && o[a.prog.Entry(l)] == g && a.prog.Entry(l) in a.prog.code
            && a.prog.Exit(l) in o && o[a.prog.Exit(l)] == g
            && rank.depth(g) <= rank.depth(o[l]) && (a.prog.CanReturn(l) ==> rank.depth(g) < rank.depth(o[l]))
  {
  }

  // ----- one edge -----

  /** Stored states only grow. */
  ghost predicate Grows<H(!new), D, S(!new)>(sem: Semantics<H, D, S>, states: map<H, D>, states': map<H, D>) {
    forall h, s :: h in states && sem.gamma(states[h], s) ==> h in states' && sem.gamma(states'[h], s)
  }

  lemma EdgeGrows<H(!new), D(!new), S(!new)>(
    a: Analysis<H, D>, sem: Semantics<H, D, S>, valid: D -> bool, states: map<H, D>, p: H, to: Loc, caller: Option<H>)
    requires StepLaws(a) && DomainLaws(a, valid) && SoundDomain(a, sem, valid)
    requires AllValid(valid, states) && Live(a, states, {p})
    ensures Grows(sem, states, EdgeF(a, states, p, to, caller).states)
  {
    var e := EdgeF(a, states, p, to, caller);
    assert AllAt(a, Traces(a, states, to), to);
    var next := a.step(p, to, Traces(a, states, to), caller);
    if !next.Blocked? {
      assert p in states && !a.isBottom(states[p]);
      var values := a.transform(p, next.to, states[p]);
      var target := Touch(a, states, next.to);
      assert valid(values) && valid(target[next.to]);
      assert e.states == target[next.to := a.merge(target[next.to], values, p, next.to).state];
    }
  }

  /** An edge that the call stack allows covers its concrete successors. */
  lemma EdgeCovers<H(!new), D(!new), S(!new)>(
    a: Analysis<H, D>, sem: Semantics<H, D, S>, valid: D -> bool, rank: Ranking,
    states: map<H, D>, p: H, to: Loc, caller: Option<H>, stack: seq<Loc>, stack': seq<Loc>, s: S, s': S)
    requires Setup(a, sem, valid, rank) && AllValid(valid, states) && Live(a, states, {p})
    requires Holds(a, sem, states, p, stack, s) && sem.edge(a.loc(p), to, s, s')
    requires a.prog.Flow(a.loc(p), stack, to, stack') && a.prog.Edge(a.loc(p), to, LocOf(a, caller))
    requires Returns(a, stack, caller)
    ensures Covered(a, sem, EdgeF(a, states, p, to, caller).states, stack', to, s')
  {
    var e := EdgeF(a, states, p, to, caller);
    var others := Traces(a, states, to);
    assert AllAt(a, others, to);
    var next := a.step(p, to, others, caller);
    assert !next.Blocked? && sem.represents(next.to, stack') && a.loc(next.to) == to;
    assert p in states && !a.isBottom(states[p]);
    var values := a.transform(p, next.to, states[p]);
    var target := Touch(a, states, next.to);
    assert valid(values) && valid(target[next.to]);
    assert sem.gamma(values, s');
    assert e.states == target[next.to := a.merge(target[next.to], values, p, next.to).state];
    a.prog.FlowKeepsStacksValid(a.loc(p), stack, to, stack');
    assert Holds(a, sem, e.states, next.to, stack', s');
  }

  lemma CoveredGrows<H(!new), D, S(!new)>(
    a: Analysis<H, D>, sem: Semantics<H, D, S>, states: map<H, D>, states': map<H, D>, stack: seq<Loc>, l: Loc, s: S)
    requires Grows(sem, states, states') && Covered(a, sem, states, stack, l, s)
    ensures Covered(a, sem, states', stack, l, s)
  {
    var h :| a.loc(h) == l && Holds(a, sem, states, h, stack, s);
    assert Holds(a, sem, states', h, stack, s);
  }

  /** A history whose own state did not change stays closed as others grow. */
  lemma ClosedGrows<H(!new), D, S(!new)>(
    a: Analysis<H, D>, sem: Semantics<H, D, S>, states: map<H, D>, states': map<H, D>, h: H)
    requires Grows(sem, states, states') && h in states && h in states' && states'[h] == states[h]
    requires Closed(a, sem, states, h)
    ensures Closed(a, sem, states', h)
  {
    forall stack, s, l, s' | Holds(a, sem, states', h, stack, s) && Covered(a, sem, states, stack, l, s')
      ensures Covered(a, sem, states', stack, l, s')
    {
      CoveredGrows(a, sem, states, states', stack, l, s');
    }
    assert forall stack, s :: Holds(a, sem, states', h, stack, s) ==> Holds(a, sem, states, h, stack, s);
    forall stack, s, s1 |
      && a.prog.Descends(a.loc(h)) && Holds(a, sem, states', h, stack, s)
      && sem.edge(a.loc(h), a.prog.Entry(a.loc(h)), s, s1)
      ensures Covered(a, sem, states', stack + [a.loc(h)], a.prog.Entry(a.loc(h)), s1)
    {
      CoveredGrows(a, sem, states, states', stack + [a.loc(h)], a.prog.Entry(a.loc(h)), s1);
    }
  }

  /** A bottom state is closed: it stands for no execution. */
  lemma BottomClosed<H(!new), D(!new), S(!new)>(
    a: Analysis<H, D>, sem: Semantics<H, D, S>, valid: D -> bool, states: map<H, D>, h: H)
    requires SoundDomain(a, sem, valid) && h in states && a.isBottom(states[h])
    ensures Closed(a, sem, states, h)
  {
    assert forall stack, s :: !Holds(a, sem, states, h, stack, s);
  }

  // ----- the invariant -----

  ghost predicate InFunction<H, D>(a: Analysis<H, D>, rank: Ranking, f: Fid, hs: set<H>) {
    forall h :: h in hs ==>
      a.loc(h) in a.prog.code && a.loc(h) in a.prog.owner && a.prog.owner[a.loc(h)] == f && rank.live(a.loc(h))
  }

  /** The histories of `hs` are in functions at the depth of `f` or above. */
  ghost predicate NotBelow<H, D>(a: Analysis<H, D>, rank: Ranking, f: Fid, hs: set<H>) {
    forall h :: h in hs ==> a.loc(h) in a.prog.owner && rank.depth(f) <= rank.depth(a.prog.owner[a.loc(h)])
  }

  /** The working sets of the suspended outer fixed points, and the states at the
      time of the suspension. */
  datatype Outer<H, D> = Outer(hs: set<H>, states: map<H, D>)

  /** `h` is suspended, and its state is as it was then. */
  ghost predicate Waits<H, D>(outer: Outer<H, D>, states: map<H, D>, h: H) {
    h in outer.hs && h in outer.states && h in states && states[h] == outer.states[h]
  }

  /** Every history is closed, or pending, or waits unchanged in an outer fixed
      point. */
  ghost predicate Settled<H(!new), D, S(!new)>(
    a: Analysis<H, D>, sem: Semantics<H, D, S>, outer: Outer<H, D>, states: map<H, D>, pending: set<H>)
  {
    forall h :: h in states && h !in pending && !Waits(outer, states, h) ==> Closed(a, sem, states, h)
  }

  /** Everything grew. */
  ghost predicate Later<H(!new), D, S(!new)>(
    a: Analysis<H, D>, sem: Semantics<H, D, S>, states: map<H, D>, states': map<H, D>)
  {
    Extends(a, states, states') && Grows(sem, states, states')
  }

  /** The invariant of a fixed point. */
  ghost predicate Good<H(!new), D, S(!new)>(
    a: Analysis<H, D>, sem: Semantics<H, D, S>, valid: D -> bool,
    outer: Outer<H, D>, states: map<H, D>, pending: set<H>)
  {
    AllValid(valid, states) && Live(a, states, pending) && Settled(a, sem, outer, states, pending)
  }

  lemma EdgeGood<H(!new), D(!new), S(!new)>(
    a: Analysis<H, D>, sem: Semantics<H, D, S>, valid: D -> bool, rank: Ranking, outer: Outer<H, D>,
    states: map<H, D>, pending: set<H>, p: H, to: Loc, caller: Option<H>)
    requires Setup(a, sem, valid, rank) && Good(a, sem, valid, outer, states, pending) && Live(a, states, {p})
    ensures var e := EdgeF(a, states, p, to, caller);
            && Good(a, sem, valid, outer, e.states, Queue(pending, e.queued)) && Later(a, sem, states, e.states)
  {
    hide OrderLaws, StepLaws, DomainLaws, SoundDomain, SoundHistory, EdgeF, Closed;
    var e := EdgeF(a, states, p, to, caller);
    EdgeKeeps(a, valid, states, p, to, caller);
    EdgeGrows(a, sem, valid, states, p, to, caller);
    var pending' := Queue(pending, e.queued);
    forall h | h in e.states && h !in pending' && !Waits(outer, e.states, h) ensures Closed(a, sem, e.states, h) {
      if h in states {
        ClosedGrows(a, sem, states, e.states, h);
      } else {
        BottomClosed(a, sem, valid, e.states, h);
      }
    }
  }

  lemma LaterTransitive<H(!new), D, S(!new)>(
    a: Analysis<H, D>, sem: Semantics<H, D, S>, s1: map<H, D>, s2: map<H, D>, s3: map<H, D>)
    requires Later(a, sem, s1, s2) && Later(a, sem, s2, s3)
    ensures Later(a, sem, s1, s3)
  {
  }

  lemma LaterReflexive<H(!new), D, S(!new)>(a: Analysis<H, D>, sem: Semantics<H, D, S>, states: map<H, D>)
    ensures Later(a, sem, states, states)
  {
  }

  // ----- local instructions -----

  /** The edges from `p` to the targets in `done` are covered. */
  ghost predicate DoneClosed<H(!new), D, S(!new)>(
    a: Analysis<H, D>, sem: Semantics<H, D, S>, states: map<H, D>, p: H, done: seq<Loc>)
  {
    forall stack, s, to, s' ::
      Holds(a, sem, states, p, stack, s) && to in done && to in a.prog.code && sem.edge(a.loc(p), to, s, s')
      ==> Covered(a, sem, states, stack, to, s')
  }

  /** One more local edge. */
  lemma DoneEdge<H(!new), D(!new), S(!new)>(
    a: Analysis<H, D>, sem: Semantics<H, D, S>, valid: D -> bool, rank: Ranking,
    states: map<H, D>, p: H, done: seq<Loc>, to: Loc)
    requires Setup(a, sem, valid, rank) && AllValid(valid, states) && Live(a, states, {p})
    requires DoneClosed(a, sem, states, p, done) && a.prog.LocalStep(a.loc(p), to)
    requires EdgeF(a, states, p, to, None).queued != Some(p)
    ensures DoneClosed(a, sem, EdgeF(a, states, p, to, None).states, p, done + [to])
  {
    hide OrderLaws, StepLaws, DomainLaws, SoundDomain, SoundHistory, EdgeF;
    var e := EdgeF(a, states, p, to, None);
    EdgeKeeps(a, valid, states, p, to, None);
    EdgeGrows(a, sem, valid, states, p, to, None);
    forall stack, s, t, s' |
      Holds(a, sem, e.states, p, stack, s) && t in done + [to] && t in a.prog.code && sem.edge(a.loc(p), t, s, s')
      ensures Covered(a, sem, e.states, stack, t, s')
    {
      assert Holds(a, sem, states, p, stack, s);
      if t in done {
        CoveredGrows(a, sem, states, e.states, stack, t, s');
      } else {
        EdgeCovers(a, sem, valid, rank, states, p, to, None, stack, stack, s, s');
      }
    }
  }

  /** The instruction of `p` is local, with targets in its own function. */
  ghost predicate LocalTargets<H, D>(a: Analysis<H, D>, rank: Ranking, f: Fid, p: H, succs: seq<Loc>) {
    forall to :: to in succs && to in a.prog.code ==>
      a.prog.LocalStep(a.loc(p), to) && to in a.prog.owner && a.prog.owner[to] == f && rank.live(to)
  }

  lemma {:induction false} LocalSound<H(!new), D(!new), S(!new)>(
    a: Analysis<H, D>, sem: Semantics<H, D, S>, valid: D -> bool, rank: Ranking, outer: Outer<H, D>, f: Fid,
    w: Work<H, D>, p: H, done: seq<Loc>, succs: seq<Loc>)
    requires Setup(a, sem, valid, rank) && Good(a, sem, valid, outer, w.states, w.pending + {p})
    requires InFunction(a, rank, f, w.pending + {p}) && LocalTargets(a, rank, f, p, succs)
    requires p in w.pending || DoneClosed(a, sem, w.states, p, done)
    ensures var w' := LocalF(a, w, p, succs);
            && Good(a, sem, valid, outer, w'.states, w'.pending + {p}) && InFunction(a, rank, f, w'.pending + {p})
            && Later(a, sem, w.states, w'.states)
            && (p in w'.pending || DoneClosed(a, sem, w'.states, p, done + succs))
    decreases |succs|
  {
    hide OrderLaws, StepLaws, DomainLaws, SoundDomain, SoundHistory, EdgeF, Settled;
    if succs == [] {
      assert done + succs == done;
    } else {
      var to := succs[0];
      assert (done + [to]) + succs[1..] == done + succs;
      if to !in a.prog.code {
        LocalSound(a, sem, valid, rank, outer, f, w, p, done + [to], succs[1..]);
      } else {
        assert to in succs;
        var e := EdgeF(a, w.states, p, to, None);
        EdgeKeeps(a, valid, w.states, p, to, None);
        EdgeGood(a, sem, valid, rank, outer, w.states, w.pending + {p}, p, to, None);
        var w1 := Work(e.states, Queue(w.pending, e.queued));
        assert Queue(w.pending + {p}, e.queued) == w1.pending + {p};
        if p !in w1.pending {
          DoneEdge(a, sem, valid, rank, w.states, p, done, to);
        }
        LocalSound(a, sem, valid, rank, outer, f, w1, p, done + [to], succs[1..]);
        LaterTransitive(a, sem, w.states, w1.states, LocalF(a, w, p, succs).states);
      }
    }
  }

  // ----- entered calls -----

  /** The return edges to `ret` from the histories `ends` at `exit`, taken for
      the call at `l`, are covered. */
  ghost predicate ReturnsDone<H(!new), D, S(!new)>(
    a: Analysis<H, D>, sem: Semantics<H, D, S>, states: map<H, D>, l: Loc, exit: Loc, ret: Loc, ends: set<H>)
  {
    forall end, stack, s, s' ::
      && end in ends && Holds(a, sem, states, end, stack, s) && sem.edge(exit, ret, s, s')
      && |stack| > 0 && stack[|stack| - 1] == l
      ==> Covered(a, sem, states, stack[..|stack| - 1], ret, s')
  }

  /** Away from `l` the stored states are the same. */
  ghost predicate OnlyAt<H(!new), D>(a: Analysis<H, D>, states: map<H, D>, states': map<H, D>, l: Loc) {
    forall h :: a.loc(h) != l ==> (h in states <==> h in states') && (h in states ==> states'[h] == states[h])
  }

  /** Returning touches the callee's end only if that is the return site. */
  lemma ReturnEdgeGood<H(!new), D(!new), S(!new)>(
    a: Analysis<H, D>, sem: Semantics<H, D, S>, valid: D -> bool, rank: Ranking, outer: Outer<H, D>, f: Fid,
    w: Work<H, D>, p: H, end: H)
    requires Setup(a, sem, valid, rank) && Good(a, sem, valid, outer, w.states, w.pending + {p})
    requires InFunction(a, rank, f, w.pending + {p}) && a.prog.Descends(a.loc(p))
    requires end in w.states && a.loc(end) == a.prog.Exit(a.loc(p))
    ensures var w' := ReturnEdge(a, w, p, end);
            && Good(a, sem, valid, outer, w'.states, w'.pending + {p}) && InFunction(a, rank, f, w'.pending + {p})
            && Later(a, sem, w.states, w'.states) && OnlyAt(a, w.states, w'.states, a.loc(p) + 1)
            && (a.loc(end) != a.loc(p) + 1 ==> Traces(a, w'.states, a.loc(end)) == Traces(a, w.states, a.loc(end)))
  {
    hide Setup, Good, Later, EdgeF;
    Callee(a, sem, valid, rank, a.loc(p));
    LaterReflexive(a, sem, w.states);
    if !a.isBottom(w.states[end]) {
      StepOver(a, sem, valid, rank, outer, f, w, p, end, a.loc(p) + 1, Some(p));
    }
  }

  /** An edge from `q` to another location of the function of `p`. */
  lemma StepOver<H(!new), D(!new), S(!new)>(
    a: Analysis<H, D>, sem: Semantics<H, D, S>, valid: D -> bool, rank: Ranking, outer: Outer<H, D>, f: Fid,
    w: Work<H, D>, p: H, q: H, to: Loc, caller: Option<H>)
    requires Setup(a, sem, valid, rank) && Good(a, sem, valid, outer, w.states, w.pending + {p})
    requires InFunction(a, rank, f, w.pending + {p}) && Live(a, w.states, {q})
    requires to in a.prog.code && to in a.prog.owner && a.prog.owner[to] == f && rank.live(to)
    ensures var e := EdgeF(a, w.states, q, to, caller); var pending := Queue(w.pending, e.queued);
            && Good(a, sem, valid, outer, e.states, pending + {p}) && InFunction(a, rank, f, pending + {p})
            && Later(a, sem, w.states, e.states) && OnlyAt(a, w.states, e.states, to)
  {
    hide OrderLaws, StepLaws, DomainLaws, SoundDomain, SoundHistory, EdgeF, Later, Settled;
    hide Program.WellFormed, Program.ReturnsRanked;
    var e := EdgeF(a, w.states, q, to, caller);
    EdgeKeeps(a, valid, w.states, q, to, caller);
    EdgeGood(a, sem, valid, rank, outer, w.states, w.pending + {p}, q, to, caller);
    assert Queue(w.pending + {p}, e.queued) == Queue(w.pending, e.queued) + {p};
  }

  /** One concrete return, of a history that was done or of `end`. */
  lemma ReturnCovered<H(!new), D(!new), S(!new)>(
    a: Analysis<H, D>, sem: Semantics<H, D, S>, valid: D -> bool, rank: Ranking,
    states: map<H, D>, p: H, end: H, ends: set<H>, h: H, stack: seq<Loc>, s: S, s': S)
    requires Setup(a, sem, valid, rank) && AllValid(valid, states) && a.prog.Descends(a.loc(p))
    requires Live(a, states, {end})
    requires a.loc(end) == a.prog.Exit(a.loc(p)) && h in ends + {end} && Holds(a, sem, states, h, stack, s)
    requires ReturnsDone(a, sem, states, a.loc(p), a.loc(end), a.loc(p) + 1, ends)
    requires sem.edge(a.loc(end), a.loc(p) + 1, s, s') && |stack| > 0 && stack[|stack| - 1] == a.loc(p)
    ensures Covered(a, sem, EdgeF(a, states, end, a.loc(p) + 1, Some(p)).states, stack[..|stack| - 1], a.loc(p) + 1, s')
  {
    hide OrderLaws, StepLaws, DomainLaws, SoundDomain, SoundHistory, EdgeF, Holds;
    var ret, stack' := a.loc(p) + 1, stack[..|stack| - 1];
    if h in ends {
      EdgeGrows(a, sem, valid, states, end, ret, Some(p));
      CoveredGrows(a, sem, states, EdgeF(a, states, end, ret, Some(p)).states, stack', ret, s');
    } else {
      EdgeCovers(a, sem, valid, rank, states, end, ret, Some(p), stack, stack', s, s');
    }
  }

  lemma ReturnEdgeDone<H(!new), D(!new), S(!new)>(
    a: Analysis<H, D>, sem: Semantics<H, D, S>, valid: D -> bool, rank: Ranking, outer: Outer<H, D>, f: Fid,
    w: Work<H, D>, p: H, end: H, ends: set<H>)
    requires Setup(a, sem, valid, rank) && Good(a, sem, valid, outer, w.states, w.pending + {p})
    requires a.prog.Descends(a.loc(p)) && a.prog.CanReturn(a.loc(p)) && rank.live(a.loc(p))
    requires end in w.states && a.loc(end) == a.prog.Exit(a.loc(p))
    requires AllAt(a, ends, a.loc(end)) && OnlyAt(a, w.states, ReturnEdge(a, w, p, end).states, a.loc(p) + 1)
    requires ReturnsDone(a, sem, w.states, a.loc(p), a.loc(end), a.loc(p) + 1, ends)
    ensures ReturnsDone(a, sem, ReturnEdge(a, w, p, end).states, a.loc(p), a.loc(end), a.loc(p) + 1, ends + {end})
  {
    hide Setup, EdgeF, Covered, Settled, ReturnEdge, OnlyAt, Holds, AllValid, Live, Program.CanReturn;
    var l, exit := a.loc(p), a.loc(end);
    ExitElsewhere(a, sem, valid, rank, l);
    var ret := l + 1;
    var w' := ReturnEdge(a, w, p, end);
    forall h, stack, s, s' |
      && h in ends + {end} && Holds(a, sem, w'.states, h, stack, s) && sem.edge(exit, ret, s, s')
      && |stack| > 0 && stack[|stack| - 1] == l
      ensures Covered(a, sem, w'.states, stack[..|stack| - 1], ret, s')
    {
      HoldsElsewhere(a, sem, w.states, w'.states, h, ret, stack, s);
      ReturnOne(a, sem, valid, rank, w, p, end, ends, h, stack, s, s');
    }
  }

  lemma HoldsElsewhere<H(!new), D, S>(
    a: Analysis<H, D>, sem: Semantics<H, D, S>, states: map<H, D>, states': map<H, D>, h: H, l: Loc, stack: seq<Loc>,
    s: S)
    requires OnlyAt(a, states, states', l) && a.loc(h) != l && Holds(a, sem, states', h, stack, s)
    ensures Holds(a, sem, states, h, stack, s)
  {
  }

  lemma ReturnOne<H(!new), D(!new), S(!new)>(
    a: Analysis<H, D>, sem: Semantics<H, D, S>, valid: D -> bool, rank: Ranking,
    w: Work<H, D>, p: H, end: H, ends: set<H>, h: H, stack: seq<Loc>, s: S, s': S)
    requires Setup(a, sem, valid, rank) && AllValid(valid, w.states) && a.prog.Descends(a.loc(p)) && end in w.states
    requires a.loc(end) == a.prog.Exit(a.loc(p)) && h in ends + {end} && Holds(a, sem, w.states, h, stack, s)
    requires ReturnsDone(a, sem, w.states, a.loc(p), a.loc(end), a.loc(p) + 1, ends)
    requires sem.edge(a.loc(end), a.loc(p) + 1, s, s') && |stack| > 0 && stack[|stack| - 1] == a.loc(p)
    ensures Covered(a, sem, ReturnEdge(a, w, p, end).states, stack[..|stack| - 1], a.loc(p) + 1, s')
  {
    hide Setup, EdgeF, Covered, Holds, AllValid;
    if a.isBottom(w.states[end]) {
      BottomHoldsNothing(a, sem, valid, rank, w.states, end);
    } else {
      ReturnCovered(a, sem, valid, rank, w.states, p, end, ends, h, stack, s, s');
    }
  }

  lemma BottomHoldsNothing<H(!new), D(!new), S(!new)>(
    a: Analysis<H, D>, sem: Semantics<H, D, S>, valid: D -> bool, rank: Ranking, states: map<H, D>, h: H)
    requires Setup(a, sem, valid, rank) && h in states && a.isBottom(states[h])
    ensures forall stack, s :: !Holds(a, sem, states, h, stack, s)
  {
  }

  lemma AfterFirst<H(!new), D(!new), S(!new)>(
    a: Analysis<H, D>, sem: Semantics<H, D, S>, valid: D -> bool, rank: Ranking, hs: set<H>, last: Option<H>)
    requires Setup(a, sem, valid, rank) && After(a, hs, last) != {}
    ensures After(a, hs, Some(First(a, After(a, hs, last)))) == After(a, hs, last) - {First(a, After(a, hs, last))}
  {
    NextAfter(a, hs, last);
  }

  /** The return edges of the call `p` keep the invariant. */
  lemma {:induction false} ReturnGood<H(!new), D(!new), S(!new)>(
    a: Analysis<H, D>, sem: Semantics<H, D, S>, valid: D -> bool, rank: Ranking, outer: Outer<H, D>, f: Fid,
    fuel: nat, w: Work<H, D>, p: H, last: Option<H>, w': Work<H, D>)
    requires Setup(a, sem, valid, rank) && Good(a, sem, valid, outer, w.states, w.pending + {p})
    requires InFunction(a, rank, f, w.pending + {p}) && a.prog.Descends(a.loc(p))
    requires ReturnF(a, fuel, w, p, last) == Some(w')
    ensures Good(a, sem, valid, outer, w'.states, w'.pending + {p}) && InFunction(a, rank, f, w'.pending + {p})
    ensures Later(a, sem, w.states, w'.states) && OnlyAt(a, w.states, w'.states, a.loc(p) + 1)
    decreases fuel
  {
    hide Setup, Good, Later, ReturnEdge, InFunction, OnlyAt;
    hide Program.Descends;
    OnlyAtReflexive(a, w.states, a.loc(p) + 1);
    var ends := After(a, Traces(a, w.states, a.prog.Exit(a.loc(p))), last);
    if ends == {} {
      LaterReflexive(a, sem, w.states);
    } else {
      var end := First(a, ends);
      var w1 := ReturnEdge(a, w, p, end);
      ReturnEdgeGood(a, sem, valid, rank, outer, f, w, p, end);
      ReturnGood(a, sem, valid, rank, outer, f, fuel - 1, w1, p, Some(end), w');
      OnlyAtTransitive(a, w.states, w1.states, w'.states, a.loc(p) + 1);
      LaterTransitive(a, sem, w.states, w1.states, w'.states);
    }
  }

  lemma OnlyAtReflexive<H(!new), D>(a: Analysis<H, D>, states: map<H, D>, l: Loc)
    ensures OnlyAt(a, states, states, l)
  {
  }

  lemma OnlyAtTransitive<H(!new), D>(
    a: Analysis<H, D>, s1: map<H, D>, s2: map<H, D>, s3: map<H, D>, l: Loc)
    requires OnlyAt(a, s1, s2, l) && OnlyAt(a, s2, s3, l)
    ensures OnlyAt(a, s1, s3, l)
  {
  }

  lemma ExitElsewhere<H(!new), D(!new), S(!new)>(
    a: Analysis<H, D>, sem: Semantics<H, D, S>, valid: D -> bool, rank: Ranking, l: Loc)
    requires Setup(a, sem, valid, rank) && a.prog.Descends(l) && a.prog.CanReturn(l) && rank.live(l)
    ensures a.prog.Exit(l) != l + 1
  {
    hide OrderLaws, StepLaws, DomainLaws, SoundDomain, SoundHistory, Program.CanReturn;
    Callee(a, sem, valid, rank, l);
  }

  /** All return edges of a call `p` that can return. */
  lemma {:induction false} ReturnSound<H(!new), D(!new), S(!new)>(
    a: Analysis<H, D>, sem: Semantics<H, D, S>, valid: D -> bool, rank: Ranking, outer: Outer<H, D>, f: Fid,
    fuel: nat, w: Work<H, D>, p: H, last: Option<H>, traces: set<H>, w': Work<H, D>)
    requires Setup(a, sem, valid, rank) && Good(a, sem, valid, outer, w.states, w.pending + {p})
    requires InFunction(a, rank, f, w.pending + {p}) && rank.live(a.loc(p))
    requires a.prog.Descends(a.loc(p)) && a.prog.CanReturn(a.loc(p))
    requires ReturnF(a, fuel, w, p, last) == Some(w') && traces == Traces(a, w.states, a.prog.Exit(a.loc(p)))
    requires ReturnsDone(
               a, sem, w.states, a.loc(p), a.prog.Exit(a.loc(p)), a.loc(p) + 1, traces - After(a, traces, last))
    ensures ReturnsDone(a, sem, w'.states, a.loc(p), a.prog.Exit(a.loc(p)), a.loc(p) + 1, traces)
    decreases fuel
  {
    hide Setup, Good, Later, ReturnsDone, ReturnEdge, InFunction, Program.CanReturn;
    var ends := After(a, traces, last);
    if ends == {} {
      assert traces - ends == traces;
    } else {
      var end := First(a, ends);
      var w1 := ReturnEdge(a, w, p, end);
      ExitElsewhere(a, sem, valid, rank, a.loc(p));
      ReturnEdgeGood(a, sem, valid, rank, outer, f, w, p, end);
      ReturnEdgeDone(a, sem, valid, rank, outer, f, w, p, end, traces - ends);
      AfterFirst(a, sem, valid, rank, traces, last);
      assert traces - After(a, traces, Some(end)) == (traces - ends) + {end};
      ReturnSound(a, sem, valid, rank, outer, f, fuel - 1, w1, p, Some(end), traces, w');
    }
  }

  // ----- suspending a fixed point -----

  /** The nested fixed point starts with everything suspended. */
  lemma Suspended<H(!new), D(!new), S(!new)>(
    a: Analysis<H, D>, sem: Semantics<H, D, S>, valid: D -> bool, outer: Outer<H, D>, states: map<H, D>,
    pending: set<H>)
    requires Good(a, sem, valid, outer, states, pending)
    ensures Good(a, sem, valid, Outer(outer.hs + pending, states), states, {})
  {
    hide Closed;
  }

  /** After the nested fixed point the suspended one goes on with its invariant:
      what waited and did not change is as it was. */
  lemma Resumed<H(!new), D(!new), S(!new)>(
    a: Analysis<H, D>, sem: Semantics<H, D, S>, valid: D -> bool, outer: Outer<H, D>,
    states: map<H, D>, body: map<H, D>, pending: set<H>)
    requires Good(a, sem, valid, outer, states, pending) && Later(a, sem, states, body)
    requires Good(a, sem, valid, Outer(outer.hs + pending, states), body, {})
    ensures Good(a, sem, valid, outer, body, pending)
  {
    hide Closed;
    forall h | h in body && h !in pending && !Waits(outer, body, h) ensures Closed(a, sem, body, h) {
      if Waits(Outer(outer.hs + pending, states), body, h) {
        ClosedGrows(a, sem, states, body, h);
      }
    }
  }

  /** A callee below all that waits is closed. */
  lemma CalleeClosed<H(!new), D(!new), S(!new)>(
    a: Analysis<H, D>, sem: Semantics<H, D, S>, valid: D -> bool, rank: Ranking, f: Fid, g: Fid,
    outer: Outer<H, D>, body: map<H, D>)
    requires Good(a, sem, valid, outer, body, {}) && NotBelow(a, rank, f, outer.hs) && rank.depth(g) < rank.depth(f)
    ensures FunctionClosed(a, sem, body, g)
  {
    hide Closed;
  }

  lemma EntryCovered<H(!new), D(!new), S(!new)>(
    a: Analysis<H, D>, sem: Semantics<H, D, S>, valid: D -> bool, rank: Ranking,
    states: map<H, D>, p: H, states': map<H, D>)
    requires Setup(a, sem, valid, rank) && AllValid(valid, states) && Live(a, states, {p}) && a.prog.Descends(a.loc(p))
    requires Grows(sem, EdgeF(a, states, p, a.prog.Entry(a.loc(p)), None).states, states')
    requires p in states' && states'[p] == states[p]
    ensures ClosedCall(a, sem, states', p)
  {
    hide OrderLaws, StepLaws, DomainLaws, SoundDomain, SoundHistory, EdgeF, Grows;
    var l, entry := a.loc(p), a.prog.Entry(a.loc(p));
    var e := EdgeF(a, states, p, entry, None);
    forall stack, s, s1 | Holds(a, sem, states', p, stack, s) && sem.edge(l, entry, s, s1)
      ensures Covered(a, sem, states', stack + [l], entry, s1)
    {
      EdgeCovers(a, sem, valid, rank, states, p, entry, None, stack, stack + [l], s, s1);
      CoveredGrows(a, sem, e.states, states', stack + [l], entry, s1);
    }
  }

  /** What a concrete callee ends with is covered at the end of the callee. */
  lemma ExitCovered<H(!new), D(!new), S(!new)>(
    a: Analysis<H, D>, sem: Semantics<H, D, S>, valid: D -> bool, rank: Ranking,
    body: map<H, D>, p: H, stack: seq<Loc>, s: S, s1: S, s2: S)
    requires Setup(a, sem, valid, rank) && a.prog.Descends(a.loc(p)) && rank.live(a.loc(p))
    requires FunctionClosed(a, sem, body, a.prog.code[a.loc(p)].callee)
    requires ClosedCall(a, sem, body, p) && Holds(a, sem, body, p, stack, s)
    requires sem.edge(a.loc(p), a.prog.Entry(a.loc(p)), s, s1)
    requires Balanced(a, sem, a.prog.Entry(a.loc(p)), s1, a.prog.Exit(a.loc(p)), s2)
    ensures Covered(a, sem, body, stack + [a.loc(p)], a.prog.Exit(a.loc(p)), s2)
  {
    hide OrderLaws, StepLaws, DomainLaws, SoundDomain, SoundHistory, FunctionClosed, Holds, Covered, Walks;
    hide Program.ReturnsRanked;
    var l, entry, exit := a.loc(p), a.prog.Entry(a.loc(p)), a.prog.Exit(a.loc(p));
    Callee(a, sem, valid, rank, l);
    var walk :| Walks(a, sem, walk, entry, s1, exit, s2);
    WalkCovered(a, sem, body, stack + [l], walk, entry, s1, exit, s2);
  }

  /** A completed concrete call is covered at the return site: the walk through
      the callee is covered in `body`, and the return edge from there was taken. */
  lemma CallCovered<H(!new), D(!new), S(!new)>(
    a: Analysis<H, D>, sem: Semantics<H, D, S>, valid: D -> bool, rank: Ranking,
    body: map<H, D>, states: map<H, D>, p: H, stack: seq<Loc>, s: S, s': S)
    requires Setup(a, sem, valid, rank) && a.prog.Descends(a.loc(p)) && rank.live(a.loc(p))
    requires FunctionClosed(a, sem, body, a.prog.code[a.loc(p)].callee)
    requires ClosedCall(a, sem, body, p) && Holds(a, sem, body, p, stack, s) && CallReturns(a, sem, a.loc(p), s, s')
    requires OnlyAt(a, body, states, a.loc(p) + 1)
    requires var exit := a.prog.Exit(a.loc(p));
             ReturnsDone(a, sem, states, a.loc(p), exit, a.loc(p) + 1, Traces(a, body, exit))
    ensures Covered(a, sem, states, stack, a.loc(p) + 1, s')
  {
    hide Setup, FunctionClosed, ClosedCall, Balanced, Walks;
    hide Program.Traverses, Program.CanReturn, Program.LocalStep, Program.ValidStack;
    var l, entry, exit := a.loc(p), a.prog.Entry(a.loc(p)), a.prog.Exit(a.loc(p));
    ReturnsCanReturn(a, sem, l, s, s');
    ExitElsewhere(a, sem, valid, rank, l);
    var s1, s2 :| sem.edge(l, entry, s, s1) && Balanced(a, sem, entry, s1, exit, s2) && sem.edge(exit, l + 1, s2, s');
    ExitCovered(a, sem, valid, rank, body, p, stack, s, s1, s2);
    var stack1 := stack + [l];
    var end :| a.loc(end) == exit && Holds(a, sem, body, end, stack1, s2);
    assert Holds(a, sem, states, end, stack1, s2);
    assert stack1[..|stack1| - 1] == stack;
  }

  /** The call `p` is closed after its return edges. */
  lemma CallClosed<H(!new), D(!new), S(!new)>(
    a: Analysis<H, D>, sem: Semantics<H, D, S>, valid: D -> bool, rank: Ranking,
    body: map<H, D>, states: map<H, D>, p: H)
    requires Setup(a, sem, valid, rank) && a.prog.Descends(a.loc(p)) && rank.live(a.loc(p)) && p in body
    requires FunctionClosed(a, sem, body, a.prog.code[a.loc(p)].callee)
    requires ClosedCall(a, sem, body, p) && OnlyAt(a, body, states, a.loc(p) + 1) && Grows(sem, body, states)
    requires var exit := a.prog.Exit(a.loc(p));
             ReturnsDone(a, sem, states, a.loc(p), exit, a.loc(p) + 1, Traces(a, body, exit))
    ensures Closed(a, sem, states, p)
  {
    hide Setup, FunctionClosed, ReturnsDone, Covered, CallReturns;
    var l := a.loc(p);
    var entry := a.prog.Entry(l);
    forall stack, s ensures Holds(a, sem, states, p, stack, s) ==> Holds(a, sem, body, p, stack, s) {
    }
    forall stack, s, s1 | Holds(a, sem, states, p, stack, s) && sem.edge(l, entry, s, s1)
      ensures Covered(a, sem, states, stack + [l], entry, s1)
    {
      CoveredGrows(a, sem, body, states, stack + [l], entry, s1);
    }
    forall stack, s, s' | Holds(a, sem, states, p, stack, s) && CallReturns(a, sem, l, s, s')
      ensures Covered(a, sem, states, stack, l + 1, s')
    {
      CallCovered(a, sem, valid, rank, body, states, p, stack, s, s');
    }
  }

  // ----- the fixed point -----

  /** If `p` is closed or pending again, it need not be an exception. */
  lemma GoodVisited<H(!new), D(!new), S(!new)>(
    a: Analysis<H, D>, sem: Semantics<H, D, S>, valid: D -> bool, rank: Ranking, outer: Outer<H, D>, f: Fid,
    w: Work<H, D>, p: H)
    requires Good(a, sem, valid, outer, w.states, w.pending + {p}) && InFunction(a, rank, f, w.pending + {p})
    requires p in w.pending || Closed(a, sem, w.states, p)
    ensures Good(a, sem, valid, outer, w.states, w.pending) && InFunction(a, rank, f, w.pending)
  {
    hide Closed;
  }

  lemma {:induction false} CallSound<H(!new), D(!new), S(!new)>(
    a: Analysis<H, D>, sem: Semantics<H, D, S>, valid: D -> bool, rank: Ranking, outer: Outer<H, D>, f: Fid,
    fuel: nat, w: Work<H, D>, p: H, w': Work<H, D>)
    requires Setup(a, sem, valid, rank) && Good(a, sem, valid, outer, w.states, w.pending + {p})
    requires InFunction(a, rank, f, w.pending + {p}) && NotBelow(a, rank, f, outer.hs)
    requires a.prog.Descends(a.loc(p)) && CallF(a, fuel, w, p) == Some(w')
    ensures Good(a, sem, valid, outer, w'.states, w'.pending) && InFunction(a, rank, f, w'.pending)
    ensures Later(a, sem, w.states, w'.states)
    decreases fuel, 1
  {
    hide Setup, EdgeF, ReturnF, FixF, Good, Later, Closed, ClosedCall, ReturnsDone, NotBelow, Live, AllValid;
    var l := a.loc(p);
    var g, entry := a.prog.code[l].callee, a.prog.Entry(l);
    Callee(a, sem, valid, rank, l);
    var all := w.pending + {p};
    var inner := Outer(outer.hs + all, w.states);
    var e := EdgeF(a, w.states, p, entry, None);
    GoodParts(a, sem, valid, outer, w.states, all, p);
    Suspended(a, sem, valid, outer, w.states, all);
    EdgeGood(a, sem, valid, rank, inner, w.states, {}, p, entry, None);
    Deeper(a, rank, f, g, outer.hs, all);
    var body := e.states;
    LaterReflexive(a, sem, e.states);
    if e.queued.Some? {
      assert Queue({}, e.queued) == {e.queued.value};
      body := FixF(a, fuel, Work(e.states, {e.queued.value})).value;
      EdgeQueues(a, sem, valid, rank, w.states, p, entry, None);
      FixSound(a, sem, valid, rank, inner, g, fuel, Work(e.states, {e.queued.value}), body);
    }
    LaterTransitive(a, sem, w.states, e.states, body);
    Resumed(a, sem, valid, outer, w.states, body, all);
    if Waits(inner, body, p) {
      LaterGrows(a, sem, e.states, body);
      EntryCovered(a, sem, valid, rank, w.states, p, body);
    }
    CallReturnsSound(a, sem, valid, rank, outer, inner, f, fuel, body, w.pending, p, w');
    LaterTransitive(a, sem, w.states, body, w'.states);
  }

  lemma LaterGrows<H(!new), D, S(!new)>(
    a: Analysis<H, D>, sem: Semantics<H, D, S>, states: map<H, D>, states': map<H, D>)
    requires Later(a, sem, states, states')
    ensures Grows(sem, states, states')
  {
  }

  lemma GoodParts<H(!new), D, S(!new)>(
    a: Analysis<H, D>, sem: Semantics<H, D, S>, valid: D -> bool,
    outer: Outer<H, D>, states: map<H, D>, pending: set<H>, p: H)
    requires Good(a, sem, valid, outer, states, pending) && p in pending
    ensures AllValid(valid, states) && Live(a, states, {p})
  {
    hide Settled;
  }

  /** What waits for a callee is not below it. */
  lemma Deeper<H, D>(a: Analysis<H, D>, rank: Ranking, f: Fid, g: Fid, hs: set<H>, all: set<H>)
    requires NotBelow(a, rank, f, hs) && InFunction(a, rank, f, all) && rank.depth(g) <= rank.depth(f)
    ensures NotBelow(a, rank, g, hs + all) && NotBelow(a, rank, f, hs + all)
  {
  }

  lemma EdgeQueues<H(!new), D(!new), S(!new)>(
    a: Analysis<H, D>, sem: Semantics<H, D, S>, valid: D -> bool, rank: Ranking,
    states: map<H, D>, p: H, to: Loc, caller: Option<H>)
    requires Setup(a, sem, valid, rank) && AllValid(valid, states) && Live(a, states, {p})
    ensures OnlyQueued(a, states, EdgeF(a, states, p, to, caller), to)
  {
    EdgeKeeps(a, valid, states, p, to, caller);
  }

  /** The return edges close the call, unless the nested fixed point changed and
      closed it already. */
  lemma CallReturnsSound<H(!new), D(!new), S(!new)>(
    a: Analysis<H, D>, sem: Semantics<H, D, S>, valid: D -> bool, rank: Ranking,
    outer: Outer<H, D>, inner: Outer<H, D>, f: Fid,
    fuel: nat, body: map<H, D>, pending: set<H>, p: H, w': Work<H, D>)
    requires Setup(a, sem, valid, rank) && a.prog.Descends(a.loc(p)) && InFunction(a, rank, f, pending + {p})
    requires Good(a, sem, valid, outer, body, pending + {p}) && Good(a, sem, valid, inner, body, {})
    requires NotBelow(a, rank, f, inner.hs) && (Waits(inner, body, p) ==> ClosedCall(a, sem, body, p))
    requires ReturnF(a, fuel, Work(body, pending), p, None) == Some(w')
    ensures Good(a, sem, valid, outer, w'.states, w'.pending) && InFunction(a, rank, f, w'.pending)
    ensures Later(a, sem, body, w'.states)
  {
    hide Setup, ReturnF, Settled, Closed, ClosedCall, OnlyAt, Waits, NotBelow, Later, Program.CanReturn;
    var l := a.loc(p);
    ReturnGood(a, sem, valid, rank, outer, f, fuel, Work(body, pending), p, None, w');
    LaterGrows(a, sem, body, w'.states);
    assert p in pending + {p} && p in body;
    if !Waits(inner, body, p) {
      NotWaiting(a, sem, valid, inner, body, p);
      SameElsewhere(a, body, w'.states, p);
      ClosedGrows(a, sem, body, w'.states, p);
    } else if a.prog.CanReturn(l) {
      Callee(a, sem, valid, rank, l);
      CalleeClosed(a, sem, valid, rank, f, a.prog.code[l].callee, inner, body);
      var traces := Traces(a, body, a.prog.Exit(l));
      assert traces - After(a, traces, None) == {};
      ReturnSound(a, sem, valid, rank, outer, f, fuel, Work(body, pending), p, None, traces, w');
      CallClosed(a, sem, valid, rank, body, w'.states, p);
    } else {
      CallNeverReturns(a, sem, body, w'.states, p);
    }
    GoodVisited(a, sem, valid, rank, outer, f, w', p);
  }

  lemma NotWaiting<H(!new), D, S(!new)>(
    a: Analysis<H, D>, sem: Semantics<H, D, S>, valid: D -> bool, outer: Outer<H, D>, states: map<H, D>, p: H)
    requires Good(a, sem, valid, outer, states, {}) && p in states && !Waits(outer, states, p)
    ensures Closed(a, sem, states, p)
  {
    hide Closed;
  }

  lemma SameElsewhere<H(!new), D>(a: Analysis<H, D>, states: map<H, D>, states': map<H, D>, p: H)
    requires OnlyAt(a, states, states', a.loc(p) + 1) && p in states
    ensures p in states' && states'[p] == states[p]
  {
  }

  /** A call that cannot return is closed once it is covered at its callee. */
  lemma CallNeverReturns<H(!new), D, S(!new)>(
    a: Analysis<H, D>, sem: Semantics<H, D, S>, body: map<H, D>, states: map<H, D>, p: H)
    requires a.prog.Descends(a.loc(p)) && !a.prog.CanReturn(a.loc(p)) && p in body
    requires ClosedCall(a, sem, body, p) && OnlyAt(a, body, states, a.loc(p) + 1) && Grows(sem, body, states)
    ensures Closed(a, sem, states, p)
  {
    hide Covered, CallReturns, Program.CanReturn;
    var l := a.loc(p);
    var entry := a.prog.Entry(l);
    SameElsewhere(a, body, states, p);
    forall stack, s, s1 | Holds(a, sem, states, p, stack, s) && sem.edge(l, entry, s, s1)
      ensures Covered(a, sem, states, stack + [l], entry, s1)
    {
      assert Holds(a, sem, body, p, stack, s);
      CoveredGrows(a, sem, body, states, stack + [l], entry, s1);
    }
    forall s, s' ensures !CallReturns(a, sem, l, s, s') {
      if CallReturns(a, sem, l, s, s') {
        ReturnsCanReturn(a, sem, l, s, s');
      }
    }
  }

  lemma {:induction false} VisitSound<H(!new), D(!new), S(!new)>(
    a: Analysis<H, D>, sem: Semantics<H, D, S>, valid: D -> bool, rank: Ranking, outer: Outer<H, D>, f: Fid,
    fuel: nat, w: Work<H, D>, p: H, w': Work<H, D>)
    requires Setup(a, sem, valid, rank) && Good(a, sem, valid, outer, w.states, w.pending + {p})
    requires InFunction(a, rank, f, w.pending + {p}) && NotBelow(a, rank, f, outer.hs)
    requires VisitF(a, fuel, w, p) == Some(w')
    ensures Good(a, sem, valid, outer, w'.states, w'.pending) && InFunction(a, rank, f, w'.pending)
    ensures Later(a, sem, w.states, w'.states)
    decreases fuel, 2
  {
    hide Setup, EdgeF, LocalF, CallF, Good, Later, NotBelow;
    var l := a.loc(p);
    assert p in w.pending + {p};
    match a.prog.code[l]
    case EndFunction =>
      LaterReflexive(a, sem, w.states);
      NoStepsClosed(a, sem, w.states, p);
      GoodVisited(a, sem, valid, rank, outer, f, w, p);
    case Local(succs) =>
      LocalVisit(a, sem, valid, rank, outer, f, w, p, succs);
    case FunctionCall(_) =>
      if a.prog.Descends(l) {
        CallSound(a, sem, valid, rank, outer, f, fuel, w, p, w');
      } else {
        LocalVisit(a, sem, valid, rank, outer, f, w, p, [l + 1]);
        SkipIsLocal(a, sem, valid, rank, w, p);
      }
  }

  /** Visiting an instruction that is not an entered call or a function end. */
  lemma LocalVisit<H(!new), D(!new), S(!new)>(
    a: Analysis<H, D>, sem: Semantics<H, D, S>, valid: D -> bool, rank: Ranking, outer: Outer<H, D>, f: Fid,
    w: Work<H, D>, p: H, succs: seq<Loc>)
    requires Setup(a, sem, valid, rank) && Good(a, sem, valid, outer, w.states, w.pending + {p})
    requires InFunction(a, rank, f, w.pending + {p}) && !a.prog.Descends(a.loc(p)) && a.loc(p) in a.prog.code
    requires match a.prog.code[a.loc(p)]
             case Local(targets) => succs == targets
             case FunctionCall(_) => succs == [a.loc(p) + 1]
             case EndFunction => false
    ensures var w' := LocalF(a, w, p, succs);
            && Good(a, sem, valid, outer, w'.states, w'.pending) && InFunction(a, rank, f, w'.pending)
            && Later(a, sem, w.states, w'.states)
  {
    hide Setup, LocalF, Good, Later, DoneClosed, LocalTargets;
    hide Program.LocalStep, Program.Descends;
    LocalShape(a, sem, valid, rank, f, w.pending, p, succs);
    var w' := LocalF(a, w, p, succs);
    NothingDone(a, sem, w.states, p);
    LocalSound(a, sem, valid, rank, outer, f, w, p, [], succs);
    assert [] + succs == succs;
    if p !in w'.pending {
      LocalClosed(a, sem, w'.states, p, succs);
    }
    GoodVisited(a, sem, valid, rank, outer, f, w', p);
  }

  lemma NothingDone<H(!new), D, S(!new)>(a: Analysis<H, D>, sem: Semantics<H, D, S>, states: map<H, D>, p: H)
    ensures DoneClosed(a, sem, states, p, [])
  {
  }

  lemma LocalShape<H(!new), D(!new), S(!new)>(
    a: Analysis<H, D>, sem: Semantics<H, D, S>, valid: D -> bool, rank: Ranking, f: Fid,
    pending: set<H>, p: H, succs: seq<Loc>)
    requires Setup(a, sem, valid, rank) && InFunction(a, rank, f, pending + {p})
    requires !a.prog.Descends(a.loc(p)) && a.loc(p) in a.prog.code
    requires match a.prog.code[a.loc(p)]
             case Local(targets) => succs == targets
             case FunctionCall(_) => succs == [a.loc(p) + 1]
             case EndFunction => false
    ensures LocalTargets(a, rank, f, p, succs) && forall to :: a.prog.LocalStep(a.loc(p), to) ==> to in succs
  {
    hide OrderLaws, StepLaws, DomainLaws, SoundDomain, SoundHistory;
    assert p in pending + {p};
  }

  lemma SkipIsLocal<H(!new), D(!new), S(!new)>(
    a: Analysis<H, D>, sem: Semantics<H, D, S>, valid: D -> bool, rank: Ranking, w: Work<H, D>, p: H)
    requires Setup(a, sem, valid, rank) && a.loc(p) in a.prog.code && a.prog.code[a.loc(p)].FunctionCall?
    ensures var e := EdgeF(a, w.states, p, a.loc(p) + 1, None);
            LocalF(a, w, p, [a.loc(p) + 1]) == Work(e.states, Queue(w.pending, e.queued))
  {
    hide OrderLaws, StepLaws, DomainLaws, SoundDomain, SoundHistory, EdgeF;
    assert [a.loc(p) + 1][1..] == [];
  }

  lemma NoStepsClosed<H(!new), D, S(!new)>(a: Analysis<H, D>, sem: Semantics<H, D, S>, states: map<H, D>, p: H)
    requires a.loc(p) in a.prog.code && a.prog.code[a.loc(p)].EndFunction?
    ensures Closed(a, sem, states, p)
  {
  }

  lemma LocalClosed<H(!new), D, S(!new)>(
    a: Analysis<H, D>, sem: Semantics<H, D, S>, states: map<H, D>, p: H, succs: seq<Loc>)
    requires a.loc(p) in a.prog.code && !a.prog.Descends(a.loc(p)) && DoneClosed(a, sem, states, p, succs)
    requires forall to :: a.prog.LocalStep(a.loc(p), to) ==> to in succs
    ensures Closed(a, sem, states, p)
  {
  }

  /** The fixed point closes everything that does not wait outside. */
  lemma {:induction false} FixSound<H(!new), D(!new), S(!new)>(
    a: Analysis<H, D>, sem: Semantics<H, D, S>, valid: D -> bool, rank: Ranking, outer: Outer<H, D>, f: Fid,
    fuel: nat, w: Work<H, D>, states': map<H, D>)
    requires Setup(a, sem, valid, rank) && Good(a, sem, valid, outer, w.states, w.pending)
    requires InFunction(a, rank, f, w.pending) && NotBelow(a, rank, f, outer.hs) && FixF(a, fuel, w) == Some(states')
    ensures Good(a, sem, valid, outer, states', {}) && Later(a, sem, w.states, states')
    decreases fuel, 0
  {
    hide Setup, VisitF, Good, Later, NotBelow;
    if w.pending == {} {
      LaterReflexive(a, sem, w.states);
    } else {
      var p := First(a, w.pending);
      var rest := w.pending - {p};
      assert rest + {p} == w.pending;
      var w1 := VisitF(a, fuel - 1, Work(w.states, rest), p).value;
      VisitSound(a, sem, valid, rank, outer, f, fuel - 1, Work(w.states, rest), p, w1);
      FixSound(a, sem, valid, rank, outer, f, fuel - 1, w1, states');
      LaterTransitive(a, sem, w.states, w1.states, states');
    }
  }

  // ----- the theorem -----

  /** Whole-program soundness: when an analysis of a program without recursion
      through live calls that can return ends, every configuration of every
      concrete execution is contained in a state stored for its location and its
      call stack. */
  lemma RunSound<H(!new), D(!new), S(!new)>(
    a: Analysis<H, D>, sem: Semantics<H, D, S>, valid: D -> bool, rank: Ranking,
    fuel: nat, start: Loc, states: map<H, D>, run: seq<Config<S>>, i: nat)
    requires Setup(a, sem, valid, rank) && start in a.prog.code && rank.live(start)
    requires RunF(a, fuel, map[], start) == Some(states)
    requires IsRun(a, sem, start, run) && i < |run|
    ensures Covered(a, sem, states, run[i].stack, run[i].loc, run[i].state)
  {
    hide Closed, FixF, SoundHistory, SoundDomain, DomainLaws, OrderLaws;
    hide Program.ReturnsRanked;
    RunClosed(a, sem, valid, rank, fuel, start, states);
    EntryHolds(a, sem, valid, rank, start, run[0].state);
    CoveredGrows(a, sem, map[a.epoch(start) := a.entry], states, [], start, run[0].state);
    RunCovered(a, sem, states, start, run, i);
  }

  lemma EntryHolds<H(!new), D(!new), S(!new)>(
    a: Analysis<H, D>, sem: Semantics<H, D, S>, valid: D -> bool, rank: Ranking, start: Loc, s: S)
    requires Setup(a, sem, valid, rank) && start in a.prog.code && sem.init(s)
    ensures Covered(a, sem, map[a.epoch(start) := a.entry], [], start, s)
  {
    assert Holds(a, sem, map[a.epoch(start) := a.entry], a.epoch(start), [], s);
  }

  /** After a run from empty storage every stored history is closed. */
  lemma RunClosed<H(!new), D(!new), S(!new)>(
    a: Analysis<H, D>, sem: Semantics<H, D, S>, valid: D -> bool, rank: Ranking,
    fuel: nat, start: Loc, states: map<H, D>)
    requires Setup(a, sem, valid, rank) && start in a.prog.code && rank.live(start)
    requires RunF(a, fuel, map[], start) == Some(states)
    ensures AllValid(valid, states) && Grows(sem, map[a.epoch(start) := a.entry], states)
    ensures forall h :: h in states ==> Closed(a, sem, states, h)
  {
    hide Closed, FixF, SoundHistory, SoundDomain, OrderLaws;
    hide Program.ReturnsRanked;
    var f, p := a.prog.owner[start], a.epoch(start);
    var init: map<H, D> := map[p := a.entry];
    var none: Outer<H, D> := Outer({}, map[]);
    assert a.loc(p) == start;
    assert Good(a, sem, valid, none, init, {p}) && InFunction(a, rank, f, {p});
    FixSound(a, sem, valid, rank, none, f, fuel, Work(init, {p}), states);
  }

  /** A program without recursion is a special case. */
  lemma AcyclicRanked(prog: Program, depth: Fid -> nat)
    requires prog.Ranked(depth)
    ensures prog.ReturnsRanked(Everywhere(depth))
  {
  }

  /** So is one in which no entered call can return, however recursive it is. */
  lemma NeverReturning(prog: Program)
    requires forall l :: prog.Descends(l) ==> !prog.CanReturn(l)
    ensures prog.ReturnsRanked(Flat())
  {
  }
}
