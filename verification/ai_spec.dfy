/** The abstract interpreter as pure functions on the stored states.  The
    methods of `AiEngine` are proved to compute these functions; the theorems
    about the analysis are proved about them. */
module AiSpec {
  import opened Options
  import opened GotoProgram

  datatype Step<+H> = New(to: H) | Merged(to: H) | Blocked

  datatype Join<+D> = Join(state: D, changed: bool)

  /** One configuration of the interpreter: the program, the history (`loc`,
      `epoch`, `less`, `step`) and the domain (`bottom`, `entry`, `isBottom`,
      `transform`, `merge`). */
  datatype Analysis<!H, !D> = Analysis(
    prog: Program,
    loc: H -> Loc,
    epoch: Loc -> H,
    less: (H, H) -> bool,
    step: (H, Loc, set<H>, Option<H>) -> Step<H>,
    bottom: D,
    entry: D,
    isBottom: D -> bool,
    transform: (H, H, D) -> D,
    merge: (D, D, H, H) -> Join<D>)

  /** The stored states and the working set of the innermost fixed point. */
  datatype Work<H, D> = Work(states: map<H, D>, pending: set<H>)

  datatype EdgeResult<H, D> = EdgeResult(states: map<H, D>, queued: Option<H>)

  // ----- laws of histories and domains -----

  /** The order of histories is a strict total order, as std::set needs. */
  ghost predicate OrderLaws<H(!new), D>(a: Analysis<H, D>) {
    && (forall x :: !a.less(x, x))
    && (forall x, y, z :: a.less(x, y) && a.less(y, z) ==> a.less(x, z))
    && (forall x, y :: x == y || a.less(x, y) || a.less(y, x))
  }

  ghost predicate AllAt<H, D>(a: Analysis<H, D>, hs: set<H>, l: Loc) {
    forall h :: h in hs ==> a.loc(h) == l
  }

  /** The contract of `step`: a new history is at the target and not among the
      others, a merged one is among the others. */
  ghost predicate StepLaws<H(!new), D>(a: Analysis<H, D>) {
    && (forall l :: a.loc(a.epoch(l)) == l)
    && (forall h, to, others, caller :: AllAt(a, others, to) ==>
          match a.step(h, to, others, caller)
          case New(n) => a.loc(n) == to && n !in others
          case Merged(n) => n in others
          case Blocked => true)
  }

  /** `merge` reports whether it changed its destination and keeps reachable
      states reachable; `valid` is an invariant of the states of the domain. */
  ghost predicate DomainLaws<H(!new), D(!new)>(a: Analysis<H, D>, valid: D -> bool) {
    && valid(a.bottom) && valid(a.entry) && a.isBottom(a.bottom) && !a.isBottom(a.entry)
    && (forall h, h', d :: valid(d) && !a.isBottom(d) ==> valid(a.transform(h, h', d)))
    && (forall d, d', h, h' :: valid(d) && valid(d') ==>
          var j := a.merge(d, d', h, h');
          && valid(j.state)
          && (j.changed ==> !a.isBottom(j.state))
          && (!j.changed ==> j.state == d)
          && (!a.isBottom(d') || !a.isBottom(d) ==> !a.isBottom(j.state)))
  }

  /** The domain has finite height: each change by `merge` lowers a rank. */
  ghost predicate HeightLaws<H(!new), D(!new)>(a: Analysis<H, D>, valid: D -> bool, rank: D -> nat) {
    forall d, d', h, h' :: valid(d) && valid(d') && a.merge(d, d', h, h').changed ==>
      rank(a.merge(d, d', h, h').state) < rank(d)
  }

  /** `universe` lists finitely many histories and is closed under the steps
      along edges of the program. */
  ghost predicate UniverseLaws<H(!new), D>(a: Analysis<H, D>, universe: seq<H>) {
    && (forall l :: l in a.prog.code ==> a.epoch(l) in universe)
    && (forall h, to, others, caller ::
          && h in universe && AllAt(a, others, to) && (forall o :: o in others ==> o in universe)
          && a.prog.Edge(a.loc(h), to, LocOf(a, caller))
          ==> match a.step(h, to, others, caller)
              case New(n) => n in universe
              case _ => true)
  }

  function LocOf<H, D>(a: Analysis<H, D>, h: Option<H>): Option<Loc> {
    if h.Some? then Some(a.loc(h.value)) else None
  }

  // ----- one edge -----

  /** The histories registered at `l`. */
  function Traces<H(==), D>(a: Analysis<H, D>, states: map<H, D>, l: Loc): set<H> {
    set h | h in states && a.loc(h) == l
  }

  /** States are created as bottom on access. */
  function Touch<H(==), D>(a: Analysis<H, D>, states: map<H, D>, h: H): map<H, D> {
    if h in states then states else states[h := a.bottom]
  }

  function Queue<H(==)>(pending: set<H>, queued: Option<H>): set<H> {
    if queued.Some? then pending + {queued.value} else pending
  }

  /** One application of the transformer: step the history, transform a copy of
      the state, merge it into the target, and queue the target if it grew or
      is new and reachable. */
  function EdgeF<H(==), D>(a: Analysis<H, D>, states: map<H, D>, p: H, to: Loc, caller: Option<H>): EdgeResult<H, D> {
    var next := a.step(p, to, Traces(a, states, to), caller);
    if next.Blocked? then
      EdgeResult(states, None)
    else
      var current := Touch(a, states, p);
      var values := a.transform(p, next.to, current[p]);
      var target := Touch(a, current, next.to);
      var j := a.merge(target[next.to], values, p, next.to);
      EdgeResult(
        target[next.to := j.state],
        if j.changed || (next.New? && !a.isBottom(values)) then Some(next.to) else None)
  }

  // ----- what one edge keeps -----

  ghost predicate AllValid<H(!new), D>(valid: D -> bool, states: map<H, D>) {
    forall h :: h in states ==> valid(states[h])
  }

  /** Every history of `hs` has a state that is not bottom. */
  ghost predicate Live<H(!new), D>(a: Analysis<H, D>, states: map<H, D>, hs: set<H>) {
    forall h :: h in hs ==> h in states && !a.isBottom(states[h])
  }

  /** Histories stay registered, and reachable ones stay reachable. */
  ghost predicate Extends<H(!new), D>(a: Analysis<H, D>, states: map<H, D>, states': map<H, D>) {
    forall h :: h in states ==> h in states' && (!a.isBottom(states[h]) ==> !a.isBottom(states'[h]))
  }

  lemma LiveGrows<H(!new), D>(a: Analysis<H, D>, states: map<H, D>, states': map<H, D>, hs: set<H>)
    requires Live(a, states, hs) && Extends(a, states, states')
    ensures Live(a, states', hs)
  {
  }

  lemma LivePart<H(!new), D>(a: Analysis<H, D>, states: map<H, D>, hs: set<H>, part: set<H>)
    requires Live(a, states, hs) && part <= hs
    ensures Live(a, states, part)
  {
  }

  lemma ExtendsReflexive<H(!new), D>(a: Analysis<H, D>, states: map<H, D>)
    ensures Extends(a, states, states)
  {
  }

  lemma ExtendsTransitive<H(!new), D>(a: Analysis<H, D>, states: map<H, D>, states': map<H, D>, states'': map<H, D>)
    requires Extends(a, states, states') && Extends(a, states', states'')
    ensures Extends(a, states, states'')
  {
  }

  /** Only the queued history changes; one that is new and not queued is bottom. */
  ghost predicate OnlyQueued<H(!new), D>(a: Analysis<H, D>, states: map<H, D>, e: EdgeResult<H, D>, to: Loc) {
    && (forall h :: h in states ==> h in e.states && (e.states[h] == states[h] || e.queued == Some(h)))
    && (forall h :: h in e.states && h !in states ==>
          a.loc(h) == to && (a.isBottom(e.states[h]) || e.queued == Some(h)))
    && (e.queued.Some? ==> e.queued.value in e.states && a.loc(e.queued.value) == to
                           && !a.isBottom(e.states[e.queued.value]))
  }

  lemma EdgeKeeps<H(!new), D(!new)>(
    a: Analysis<H, D>, valid: D -> bool, states: map<H, D>, p: H, to: Loc, caller: Option<H>)
    requires StepLaws(a) && DomainLaws(a, valid) && AllValid(valid, states) && Live(a, states, {p})
    ensures var e := EdgeF(a, states, p, to, caller);
            AllValid(valid, e.states) && Extends(a, states, e.states) && OnlyQueued(a, states, e, to)
  {
    var e := EdgeF(a, states, p, to, caller);
    var others := Traces(a, states, to);
    assert AllAt(a, others, to);
    var next := a.step(p, to, others, caller);
    if !next.Blocked? {
      assert p in states && !a.isBottom(states[p]);
      var values := a.transform(p, next.to, states[p]);
      var target := Touch(a, states, next.to);
      assert valid(values) && valid(target[next.to]);
      assert e.states == target[next.to := a.merge(target[next.to], values, p, next.to).state];
    }
  }

  // ----- the working set -----

  ghost predicate IsFirst<H, D>(a: Analysis<H, D>, hs: set<H>, h: H) {
    h in hs && forall x :: x in hs ==> x == h || a.less(h, x)
  }

  /** The least history of a working set. */
  ghost function First<H(!new), D>(a: Analysis<H, D>, hs: set<H>): (h: H)
    requires hs != {}
    ensures h in hs
  {
    if exists x :: IsFirst(a, hs, x) then
      var x :| IsFirst(a, hs, x); x
    else
      var x :| x in hs; x
  }

  lemma {:induction false} FirstExists<H(!new), D>(a: Analysis<H, D>, hs: set<H>) returns (h: H)
    requires OrderLaws(a) && hs != {}
    ensures IsFirst(a, hs, h)
    decreases |hs|
  {
    var x :| x in hs;
    if hs == {x} {
      h := x;
    } else {
      var rest := hs - {x};
      assert hs == {x} + rest;
      var y := FirstExists(a, rest);
      h := if a.less(x, y) then x else y;
      forall z | z in hs ensures z == h || a.less(h, z) {
        if z != x {
          assert z in rest;
        }
      }
    }
  }

  lemma FirstIsLeast<H(!new), D>(a: Analysis<H, D>, hs: set<H>)
    requires OrderLaws(a) && hs != {}
    ensures IsFirst(a, hs, First(a, hs))
    ensures forall x :: IsFirst(a, hs, x) ==> x == First(a, hs)
  {
    var h := FirstExists(a, hs);
    forall x | IsFirst(a, hs, x) ensures x == First(a, hs) {
      var f := First(a, hs);
      assert x in hs && f in hs;
    }
  }

  /** The histories that an ordered iteration has still to visit. */
  function After<H(==), D>(a: Analysis<H, D>, hs: set<H>, last: Option<H>): set<H> {
    set h | h in hs && (last.None? || a.less(last.value, h))
  }

  lemma NextAfter<H(!new), D>(a: Analysis<H, D>, hs: set<H>, last: Option<H>)
    requires OrderLaws(a) && After(a, hs, last) != {}
    ensures After(a, hs, Some(First(a, After(a, hs, last)))) == After(a, hs, last) - {First(a, After(a, hs, last))}
  {
    FirstIsLeast(a, After(a, hs, last));
  }

  // ----- the recursive interpreter -----

  /** The edges to `succs`, in order. */
  function LocalF<H(==), D>(a: Analysis<H, D>, w: Work<H, D>, p: H, succs: seq<Loc>): Work<H, D>
    decreases |succs|
  {
    if succs == [] then
      w
    else if succs[0] !in a.prog.code then
      LocalF(a, w, p, succs[1..])
    else
      var e := EdgeF(a, w.states, p, succs[0], None);
      LocalF(a, Work(e.states, Queue(w.pending, e.queued)), p, succs[1..])
  }

  /** The return edge of the call `p` from one history at the callee's end. */
  function ReturnEdge<H(==), D>(a: Analysis<H, D>, w: Work<H, D>, p: H, end: H): Work<H, D>
    requires end in w.states
  {
    if a.isBottom(w.states[end]) then
      w
    else
      var e := EdgeF(a, w.states, end, a.loc(p) + 1, Some(p));
      Work(e.states, Queue(w.pending, e.queued))
  }

  /** The return edges of the call `p`, from every reachable history at the end
      of the callee, in the order of the (live) set of histories. */
  ghost function ReturnF<H(!new), D>(
    a: Analysis<H, D>, fuel: nat, w: Work<H, D>, p: H, last: Option<H>): Option<Work<H, D>>
    requires a.prog.Descends(a.loc(p))
  {
    var ends := After(a, Traces(a, w.states, a.prog.Exit(a.loc(p))), last);
    if ends == {} then
      Some(w)
    else if fuel == 0 then
      None
    else
      var end := First(a, ends);
      ReturnF(a, fuel - 1, ReturnEdge(a, w, p, end), p, Some(end))
  }

  /** A call that is entered: the edge to the head of the callee, the fixed point
      of the callee if that edge brought something new, and the return edges. */
  ghost function CallF<H(!new), D>(a: Analysis<H, D>, fuel: nat, w: Work<H, D>, p: H): Option<Work<H, D>>
    requires a.prog.Descends(a.loc(p))
    decreases fuel, 1
  {
    var e := EdgeF(a, w.states, p, a.prog.Entry(a.loc(p)), None);
    var body := if e.queued.Some? then FixF(a, fuel, Work(e.states, {e.queued.value})) else Some(e.states);
    if body.None? then None else ReturnF(a, fuel, Work(body.value, w.pending), p, None)
  }

  ghost function VisitF<H(!new), D>(a: Analysis<H, D>, fuel: nat, w: Work<H, D>, p: H): Option<Work<H, D>>
    decreases fuel, 2
  {
    var l := a.loc(p);
    if l !in a.prog.code then
      Some(w)
    else
      match a.prog.code[l]
      case Local(succs) => Some(LocalF(a, w, p, succs))
      case EndFunction => Some(w)
      case FunctionCall(_) =>
        if a.prog.Descends(l) then
          CallF(a, fuel, w, p)
        else
          var e := EdgeF(a, w.states, p, l + 1, None);
          Some(Work(e.states, Queue(w.pending, e.queued)))
  }

  /** The fixed point: visit the least pending history until none is left.
      `fuel` only bounds the recursion; None means that it ran out. */
  ghost function FixF<H(!new), D>(a: Analysis<H, D>, fuel: nat, w: Work<H, D>): Option<map<H, D>>
    decreases fuel, 0
  {
    if w.pending == {} then
      Some(w.states)
    else if fuel == 0 then
      None
    else
      var p := First(a, w.pending);
      var v := VisitF(a, fuel - 1, Work(w.states, w.pending - {p}), p);
      if v.None? then None else FixF(a, fuel - 1, v.value)
  }

  /** A whole analysis from the first instruction `start` of the entry function. */
  ghost function RunF<H(!new), D>(a: Analysis<H, D>, fuel: nat, states: map<H, D>, start: Loc): Option<map<H, D>> {
    FixF(a, fuel, Work(states[a.epoch(start) := a.entry], {a.epoch(start)}))
  }

  // ----- more fuel changes nothing -----

  lemma {:induction false} ReturnFuel<H(!new), D>(
    a: Analysis<H, D>, n: nat, m: nat, w: Work<H, D>, p: H, last: Option<H>)
    requires a.prog.Descends(a.loc(p)) && n <= m && ReturnF(a, n, w, p, last).Some?
    ensures ReturnF(a, m, w, p, last) == ReturnF(a, n, w, p, last)
    decreases n
  {
    var ends := After(a, Traces(a, w.states, a.prog.Exit(a.loc(p))), last);
    if ends == {} {
    } else {
      var end := First(a, ends);
      ReturnFuel(a, n - 1, m - 1, ReturnEdge(a, w, p, end), p, Some(end));
    }
  }

  lemma {:induction false} VisitFuel<H(!new), D>(a: Analysis<H, D>, n: nat, m: nat, w: Work<H, D>, p: H)
    requires n <= m && VisitF(a, n, w, p).Some?
    ensures VisitF(a, m, w, p) == VisitF(a, n, w, p)
    decreases n, 1
  {
    if a.prog.Descends(a.loc(p)) {
      var e := EdgeF(a, w.states, p, a.prog.Entry(a.loc(p)), None);
      if e.queued.Some? {
        FixFuel(a, n, m, Work(e.states, {e.queued.value}));
      }
      var body := if e.queued.Some? then FixF(a, n, Work(e.states, {e.queued.value})) else Some(e.states);
      ReturnFuel(a, n, m, Work(body.value, w.pending), p, None);
    }
  }

  lemma {:induction false} FixFuel<H(!new), D>(a: Analysis<H, D>, n: nat, m: nat, w: Work<H, D>)
    requires n <= m && FixF(a, n, w).Some?
    ensures FixF(a, m, w) == FixF(a, n, w)
    decreases n, 0
  {
    if w.pending == {} {
    } else {
      var p := First(a, w.pending);
      VisitFuel(a, n - 1, m - 1, Work(w.states, w.pending - {p}), p);
      FixFuel(a, n - 1, m - 1, VisitF(a, n - 1, Work(w.states, w.pending - {p}), p).value);
    }
  }

  /** Continuing from `w` gives the result of starting from `init`, at the cost
      of `used` more fuel. */
  ghost predicate FixFrom<H(!new), D>(a: Analysis<H, D>, init: Work<H, D>, used: nat, w: Work<H, D>) {
    forall n: nat :: FixF(a, n, w).Some? ==> FixF(a, n + used, init) == FixF(a, n, w)
  }

  lemma FixFromVisit<H(!new), D>(
    a: Analysis<H, D>, init: Work<H, D>, used: nat, w: Work<H, D>, p: H, v: nat, w': Work<H, D>)
    requires w.pending != {} && p == First(a, w.pending)
    requires VisitF(a, v, Work(w.states, w.pending - {p}), p) == Some(w') && FixFrom(a, init, used, w)
    ensures FixFrom(a, init, used + v + 1, w')
  {
    forall n: nat | FixF(a, n, w').Some? ensures FixF(a, n + (used + v + 1), init) == FixF(a, n, w') {
      VisitFuel(a, v, n + v, Work(w.states, w.pending - {p}), p);
      FixFuel(a, n, n + v, w');
      assert FixF(a, n + v + 1, w) == FixF(a, n, w');
      assert FixF(a, (n + v + 1) + used, init) == FixF(a, n, w');
    }
  }

  lemma FixFromEnd<H(!new), D>(a: Analysis<H, D>, init: Work<H, D>, used: nat, w: Work<H, D>)
    requires w.pending == {} && FixFrom(a, init, used, w)
    ensures FixF(a, used, init) == Some(w.states)
  {
    assert FixF(a, 0, w) == Some(w.states);
    assert FixF(a, 0 + used, init) == Some(w.states);
  }

  ghost predicate ReturnFrom<H(!new), D>(
    a: Analysis<H, D>, init: Work<H, D>, used: nat, w: Work<H, D>, p: H, last: Option<H>)
    requires a.prog.Descends(a.loc(p))
  {
    forall n: nat :: ReturnF(a, n, w, p, last).Some? ==>
      ReturnF(a, n + used, init, p, None) == ReturnF(a, n, w, p, last)
  }

  lemma ReturnFromEdge<H(!new), D>(
    a: Analysis<H, D>, init: Work<H, D>, used: nat, w: Work<H, D>, p: H, last: Option<H>, end: H)
    requires a.prog.Descends(a.loc(p)) && ReturnFrom(a, init, used, w, p, last)
    requires var ends := After(a, Traces(a, w.states, a.prog.Exit(a.loc(p))), last);
             && ends != {} && end == First(a, ends)
    ensures ReturnFrom(a, init, used + 1, ReturnEdge(a, w, p, end), p, Some(end))
  {
    var w' := ReturnEdge(a, w, p, end);
    forall n: nat | ReturnF(a, n, w', p, Some(end)).Some?
      ensures ReturnF(a, n + (used + 1), init, p, None) == ReturnF(a, n, w', p, Some(end))
    {
      assert ReturnF(a, n + 1, w, p, last) == ReturnF(a, n, w', p, Some(end));
      assert ReturnF(a, (n + 1) + used, init, p, None) == ReturnF(a, n, w', p, Some(end));
    }
  }

  lemma ReturnFromEnd<H(!new), D>(
    a: Analysis<H, D>, init: Work<H, D>, used: nat, w: Work<H, D>, p: H, last: Option<H>)
    requires a.prog.Descends(a.loc(p)) && ReturnFrom(a, init, used, w, p, last)
    requires After(a, Traces(a, w.states, a.prog.Exit(a.loc(p))), last) == {}
    ensures ReturnF(a, used, init, p, None) == Some(w)
  {
    assert ReturnF(a, 0, w, p, last) == Some(w);
    assert ReturnF(a, 0 + used, init, p, None) == Some(w);
  }

  /** Assembling an entered call from the fixed point of its body and its
      return edges. */
  lemma VisitEntered<H(!new), D>(
    a: Analysis<H, D>, w: Work<H, D>, p: H, n: nat, body: map<H, D>, m: nat, w': Work<H, D>)
    requires a.prog.Descends(a.loc(p))
    requires var e := EdgeF(a, w.states, p, a.prog.Entry(a.loc(p)), None);
             if e.queued.Some? then FixF(a, n, Work(e.states, {e.queued.value})) == Some(body) else body == e.states
    requires ReturnF(a, m, Work(body, w.pending), p, None) == Some(w')
    ensures VisitF(a, n + m, w, p) == Some(w')
  {
    var e := EdgeF(a, w.states, p, a.prog.Entry(a.loc(p)), None);
    if e.queued.Some? {
      FixFuel(a, n, n + m, Work(e.states, {e.queued.value}));
    }
    ReturnFuel(a, m, n + m, Work(body, w.pending), p, None);
  }
}
