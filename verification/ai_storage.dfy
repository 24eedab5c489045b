/** The most precise storage: one domain per history, with an index of the
    registered histories of every location. */
module AiStorage {
  import opened GotoProgram
  import opened AiSpec

  /** `upper` is an upper bound of all the stored states of `hs`. */
  ghost predicate Bounds<H, D>(leq: (D, D) -> bool, domainMap: map<H, D>, hs: set<H>, upper: D) {
    forall h :: h in hs && h in domainMap ==> leq(domainMap[h], upper)
  }

  /** The least of the valid upper bounds. */
  ghost predicate IsLub<H(!new), D(!new)>(
    leq: (D, D) -> bool, valid: D -> bool, domainMap: map<H, D>, hs: set<H>, d: D)
  {
    valid(d) && Bounds(leq, domainMap, hs, d) && forall u :: valid(u) && Bounds(leq, domainMap, hs, u) ==> leq(d, u)
  }

  /** On valid states `leq` is a preorder with `bottom` as its only least element,
      and `merge` computes joins, except that it may leave bottom. */
  ghost predicate JoinLaws<H(!new), D(!new)>(
    leq: (D, D) -> bool, valid: D -> bool, merge: (D, D, H, H) -> Join<D>, bottom: D)
  {
    && valid(bottom) && (forall d :: valid(d) ==> leq(d, d) && leq(bottom, d))
    && (forall d :: valid(d) && leq(d, bottom) ==> d == bottom)
    && (forall d, e, f :: valid(d) && valid(e) && valid(f) && leq(d, e) && leq(e, f) ==> leq(d, f))
    && (forall d, e, h, k :: valid(d) && valid(e) ==>
          var m := merge(d, e, h, k).state; valid(m) && leq(d, m) && leq(e, m))
    && (forall d, e, h, k, u :: valid(d) && valid(e) && valid(u) && leq(d, u) && leq(e, u) && u != bottom ==>
          leq(merge(d, e, h, k).state, u))
  }

  /** All of several histories are bottom, and `merge` leaves bottom for one. */
  ghost predicate LeavesBottom<H(!new), D>(
    merge: (D, D, H, H) -> Join<D>, bottom: D, domainMap: map<H, D>, hs: set<H>)
  {
    && |hs| > 1 && (forall h :: h in hs && h in domainMap ==> domainMap[h] == bottom)
    && exists h :: h in hs && merge(bottom, bottom, h, h).state != bottom
  }

  class HistoryStorage<H(==, !new), D(!new)> {
    const loc: H -> Loc
    var traceMap: map<Loc, set<H>>
    var domainMap: map<H, D>

    /** The two maps register the same histories. */
    ghost predicate InSync()
      reads this
    {
      && (forall l, h :: l in traceMap && h in traceMap[l] ==> loc(h) == l && h in domainMap)
      && (forall h :: h in domainMap ==> loc(h) in traceMap && h in traceMap[loc(h)])
    }

    constructor (loc: H -> Loc)
      ensures InSync() && this.loc == loc && traceMap == map[] && domainMap == map[]
    {
      this.loc := loc;
      traceMap, domainMap := map[], map[];
    }

    method RegisterTrace(p: H)
      modifies this`traceMap
      ensures traceMap == old(traceMap)[loc(p) := old(if loc(p) in traceMap then traceMap[loc(p)] else {}) + {p}]
    {
      if loc(p) !in traceMap {
        traceMap := traceMap[loc(p) := {}];
      }
      traceMap := traceMap[loc(p) := traceMap[loc(p)] + {p}];
    }

    /** The histories that have reached `l`. */
    method AbstractTracesBefore(l: Loc) returns (traces: set<H>)
      requires InSync()
      ensures traces == set h | h in domainMap && loc(h) == l
    {
      traces := if l in traceMap then traceMap[l] else {};
    }

    /** Look up the state of a history, registering it as bottom if it has none. */
    method GetState(p: H, bottom: D) returns (d: D)
      requires InSync()
      modifies this
      ensures InSync()
      ensures domainMap == if p in old(domainMap) then old(domainMap) else old(domainMap)[p := bottom]
      ensures d == domainMap[p]
    {
      RegisterTrace(p);
      if p !in domainMap {
        domainMap := domainMap[p := bottom];
      }
      d := domainMap[p];
    }

    /** Write through the reference that GetState hands out. */
    method SetState(p: H, d: D)
      requires InSync() && p in domainMap
      modifies this`domainMap
      ensures InSync() && domainMap == old(domainMap)[p := d]
    {
      domainMap := domainMap[p := d];
    }

    method Clear()
      modifies this
      ensures InSync() && traceMap == map[] && domainMap == map[]
    {
      traceMap, domainMap := map[], map[];
    }

    method StateOfHistory(p: H, bottom: D) returns (d: D)
      ensures d == if p in domainMap then domainMap[p] else bottom
    {
      d := if p in domainMap then domainMap[p] else bottom;
    }

    /** The state of a location: the join over exactly its registered histories,
        unless all are bottom and `merge` leaves bottom. */
    method StateOfLocation(
      l: Loc, bottom: D, merge: (D, D, H, H) -> Join<D>, ghost leq: (D, D) -> bool, ghost valid: D -> bool)
      returns (d: D)
      requires InSync() && JoinLaws(leq, valid, merge, bottom) && AllValid(valid, domainMap)
      ensures var hs := set h | h in domainMap && loc(h) == l;
              && valid(d) && Bounds(leq, domainMap, hs, d)
              && (IsLub(leq, valid, domainMap, hs, d) <==> !LeavesBottom(merge, bottom, domainMap, hs))
    {
      hide JoinLaws;
      var traces := AbstractTracesBefore(l);
      if |traces| == 0 {
        d := bottom;
        BottomIsLub(leq, valid, merge, bottom, domainMap);
        assert traces == {};
      } else if |traces| == 1 {
        var p :| p in traces;
        assert traces == {p} by {
          assert |traces - {p}| == 0;
        }
        d := domainMap[p];
        OneIsLub(leq, valid, merge, bottom, domainMap, p);
      } else {
        d := bottom;
        BottomIsLub(leq, valid, merge, bottom, domainMap);
        var rest := traces;
        while rest != {}
          invariant rest <= traces
          invariant Joined(leq, valid, merge, bottom, domainMap, traces - rest, d)
          decreases rest
        {
          var p :| p in rest;
          var e := merge(d, domainMap[p], p, p).state;
          JoinOne(leq, valid, merge, bottom, domainMap, traces - rest, p, d);
          assert traces - (rest - {p}) == (traces - rest) + {p};
          d, rest := e, rest - {p};
        }
        assert traces - rest == traces;
        JoinedIsLub(leq, valid, merge, bottom, domainMap, traces, d);
      }
    }
  }

  /** What the loop has computed from `done`: the least bound that is not bottom,
      or bottom if nothing was added to it. */
  ghost predicate Joined<H(!new), D(!new)>(
    leq: (D, D) -> bool, valid: D -> bool, merge: (D, D, H, H) -> Join<D>, bottom: D,
    domainMap: map<H, D>, done: set<H>, d: D)
  {
    && valid(d) && Bounds(leq, domainMap, done, d)
    && (forall u :: valid(u) && u != bottom && Bounds(leq, domainMap, done, u) ==> leq(d, u))
    && (d == bottom <==> forall h :: h in done ==>
          (h in domainMap ==> domainMap[h] == bottom) && merge(bottom, bottom, h, h).state == bottom)
  }

  lemma BottomIsLub<H(!new), D(!new)>(
    leq: (D, D) -> bool, valid: D -> bool, merge: (D, D, H, H) -> Join<D>, bottom: D, domainMap: map<H, D>)
    requires JoinLaws(leq, valid, merge, bottom)
    ensures IsLub(leq, valid, domainMap, {}, bottom) && Joined(leq, valid, merge, bottom, domainMap, {}, bottom)
  {
  }

  lemma OneIsLub<H(!new), D(!new)>(
    leq: (D, D) -> bool, valid: D -> bool, merge: (D, D, H, H) -> Join<D>, bottom: D, domainMap: map<H, D>, p: H)
    requires JoinLaws(leq, valid, merge, bottom) && p in domainMap && valid(domainMap[p])
    ensures IsLub(leq, valid, domainMap, {p}, domainMap[p])
  {
  }

  lemma JoinOne<H(!new), D(!new)>(
    leq: (D, D) -> bool, valid: D -> bool, merge: (D, D, H, H) -> Join<D>, bottom: D,
    domainMap: map<H, D>, done: set<H>, p: H, d: D)
    requires JoinLaws(leq, valid, merge, bottom) && Joined(leq, valid, merge, bottom, domainMap, done, d)
    requires p in domainMap && valid(domainMap[p]) && done <= domainMap.Keys && AllValid(valid, domainMap)
    ensures Joined(leq, valid, merge, bottom, domainMap, done + {p}, merge(d, domainMap[p], p, p).state)
  {
    var e := merge(d, domainMap[p], p, p).state;
    forall h | h in done + {p} && h in domainMap ensures leq(domainMap[h], e) {
      assert leq(d, e) && valid(domainMap[h]);
    }
    forall u | valid(u) && u != bottom && Bounds(leq, domainMap, done + {p}, u) ensures leq(e, u) {
      assert Bounds(leq, domainMap, done, u);
    }
    assert e == bottom ==> d == bottom && domainMap[p] == bottom;
  }

  lemma JoinedIsLub<H(!new), D(!new)>(
    leq: (D, D) -> bool, valid: D -> bool, merge: (D, D, H, H) -> Join<D>, bottom: D,
    domainMap: map<H, D>, hs: set<H>, d: D)
    requires JoinLaws(leq, valid, merge, bottom) && Joined(leq, valid, merge, bottom, domainMap, hs, d)
    requires |hs| > 1 && hs <= domainMap.Keys && AllValid(valid, domainMap)
    ensures IsLub(leq, valid, domainMap, hs, d) <==> !LeavesBottom(merge, bottom, domainMap, hs)
  {
    if forall h :: h in hs ==> domainMap[h] == bottom {
      assert Bounds(leq, domainMap, hs, bottom);
    } else {
      var h :| h in hs && domainMap[h] != bottom;
      assert !Bounds(leq, domainMap, hs, bottom);
    }
  }
}
