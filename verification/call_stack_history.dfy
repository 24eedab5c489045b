/** Histories that record the call stack, with an optional limit on recursion. */
module CallStackHistory {
  import opened Options
  import opened GotoProgram
  import opened AiSpec

  /** A call stack: the current location and, linked from it, the calls that led
      here.  A history is an `Entry`; `Null` ends the chain of callers. */
  datatype Entry = Null | Entry(loc: Loc, caller: Entry)

  function Count(e: Entry, l: Loc): nat {
    if e.Null? then 0 else (if e.loc == l then 1 else 0) + Count(e.caller, l)
  }

  /** The innermost entry at `l`. */
  function Nearest(e: Entry, l: Loc): (r: Entry)
    requires Count(e, l) > 0
    ensures r.Entry? && r.loc == l
  {
    if e.loc == l then e else Nearest(e.caller, l)
  }

  /** The call sites of a chain, outermost first. */
  function Sites(e: Entry): seq<Loc> {
    if e.Null? then [] else Sites(e.caller) + [e.loc]
  }

  /** At the recursion limit the stack is cut back to the most recent call from
      the same site. */
  function Shorten(limit: nat, e: Entry): Entry
    requires e.Entry?
  {
    if limit != 0 && Count(e.caller, e.loc) >= limit then Nearest(e.caller, e.loc) else e
  }

  /** The stack after a step to `to`; None if the step is refused. */
  function Next(prog: Program, limit: nat, e: Entry, to: Loc): (r: Option<Entry>)
    requires e.Entry?
    ensures r.Some? ==> r.value.Entry? && r.value.loc == to
  {
    if e.loc in prog.code && prog.code[e.loc].FunctionCall? then
      Some(if to == e.loc + 1 then Entry(to, e.caller) else Entry(to, Shorten(limit, e)))
    else if e.loc in prog.code && prog.code[e.loc].EndFunction? then
      if e.caller.Entry? && to == e.caller.loc + 1 then Some(Entry(to, e.caller.caller)) else None
    else
      Some(Entry(to, e.caller))
  }

  function StepEntry(prog: Program, limit: nat, e: Entry, to: Loc, others: set<Entry>): Step<Entry> {
    if e.Null? then
      Blocked
    else
      var next := Next(prog, limit, e, to);
      if next.None? then Blocked else if next.value in others then Merged(next.value) else New(next.value)
  }

  // ----- the order of histories -----

  /** By location, then shorter stacks first, then by the callers. */
  predicate EntryLess(x: Entry, y: Entry) {
    if x.Null? || y.Null? then
      x.Null? && y.Entry?
    else
      x.loc < y.loc || (x.loc == y.loc && EntryLess(x.caller, y.caller))
  }

  lemma {:induction false} LessIrreflexive(x: Entry)
    ensures !EntryLess(x, x)
  {
    if x.Null? {
    } else {
      LessIrreflexive(x.caller);
    }
  }

  lemma {:induction false} LessTransitive(x: Entry, y: Entry, z: Entry)
    requires EntryLess(x, y) && EntryLess(y, z)
    ensures EntryLess(x, z)
  {
    if x.Entry? && y.Entry? && z.Entry? && x.loc == y.loc == z.loc {
      LessTransitive(x.caller, y.caller, z.caller);
    }
  }

  /** Incomparable stacks are equal. */
  lemma {:induction false} LessTotal(x: Entry, y: Entry)
    ensures x == y || EntryLess(x, y) || EntryLess(y, x)
  {
    if x.Entry? && y.Entry? && x.loc == y.loc {
      LessTotal(x.caller, y.caller);
    }
  }

  /** The locations of a stack, innermost first. */
  function Innermost(e: Entry): seq<Loc> {
    if e.Null? then [] else [e.loc] + Innermost(e.caller)
  }

  /** The lexicographic order, in which a proper prefix is lower. */
  ghost predicate LexBelow(a: seq<Loc>, b: seq<Loc>) {
    exists k: nat :: DiffersAt(a, b, k)
  }

  ghost predicate DiffersAt(a: seq<Loc>, b: seq<Loc>, k: nat) {
    k <= |a| && k < |b| && a[..k] == b[..k] && (k == |a| || a[k] < b[k])
  }

  /** Stacks are ordered by location, innermost first, and shorter stacks are lower. */
  lemma {:induction false} LessIsLexicographic(x: Entry, y: Entry)
    ensures EntryLess(x, y) <==> LexBelow(Innermost(x), Innermost(y))
  {
    var a, b := Innermost(x), Innermost(y);
    if x.Null? || y.Null? {
      if y.Entry? {
        assert DiffersAt(a, b, 0);
      }
    } else {
      LessIsLexicographic(x.caller, y.caller);
      var a', b' := Innermost(x.caller), Innermost(y.caller);
      if x.loc < y.loc {
        assert DiffersAt(a, b, 0);
      } else if EntryLess(x, y) {
        var k: nat :| DiffersAt(a', b', k);
        assert a[..k + 1] == [x.loc] + a'[..k] && b[..k + 1] == [y.loc] + b'[..k];
        assert DiffersAt(a, b, k + 1);
      }
      if k: nat :| DiffersAt(a, b, k) {
        if k > 0 {
          assert a[..k] == [x.loc] + a'[..k - 1] && b[..k] == [y.loc] + b'[..k - 1];
          assert a[0] == a[..k][0] && b[0] == b[..k][0];
          assert a'[..k - 1] == a[..k][1..] && b'[..k - 1] == b[..k][1..];
          assert DiffersAt(a', b', k - 1);
        }
      }
    }
  }

  // ----- a step in terms of the call sites -----

  lemma {:induction false} CountOccurs(e: Entry, l: Loc)
    ensures Count(e, l) == multiset(Sites(e))[l]
  {
    if e.Null? {
    } else {
      CountOccurs(e.caller, l);
    }
  }

  /** `i` is the last place of `l` in `s`. */
  ghost predicate LastAt(s: seq<Loc>, l: Loc, i: nat) {
    i < |s| && s[i] == l && l !in s[i + 1..]
  }

  lemma {:induction false} NearestIsLast(e: Entry, l: Loc) returns (i: nat)
    requires Count(e, l) > 0
    ensures LastAt(Sites(e), l, i) && Sites(Nearest(e, l)) == Sites(e)[..i + 1]
  {
    var s := Sites(e);
    if e.loc == l {
      i := |s| - 1;
    } else {
      i := NearestIsLast(e.caller, l);
      assert s[i + 1..] == Sites(e.caller)[i + 1..] + [e.loc];
    }
  }

  /** The call sites after a step, with `s` before it.  A call that is entered adds
      its site, or cuts `s` back to the last call from the same site if that occurs
      as often as the limit allows; a return drops the last site and must go back
      to it; all other steps leave the sites alone. */
  lemma NextSites(prog: Program, limit: nat, e: Entry, to: Loc)
    requires e.Entry?
    ensures var s, next := Sites(e.caller), Next(prog, limit, e, to);
            if e.loc in prog.code && prog.code[e.loc].FunctionCall? && to != e.loc + 1 then
              && next.Some? && next.value.loc == to
              && if limit == 0 || multiset(s)[e.loc] < limit then Sites(next.value.caller) == s + [e.loc]
                 else exists i: nat :: LastAt(s, e.loc, i) && Sites(next.value.caller) == s[..i + 1]
            else if e.loc in prog.code && prog.code[e.loc].EndFunction? then
              && (next.Some? <==> s != [] && to == s[|s| - 1] + 1)
              && (next.Some? ==> next.value.loc == to && Sites(next.value.caller) == s[..|s| - 1])
            else
              next.Some? && next.value.loc == to && Sites(next.value.caller) == s
  {
    CountOccurs(e.caller, e.loc);
    if limit != 0 && Count(e.caller, e.loc) >= limit {
      var i := NearestIsLast(e.caller, e.loc);
    }
  }

  // ----- shared, immutable stack entries -----

  /** An entry as the program shares it by pointer; `value` is what it denotes. */
  class StackEntry {
    const loc: Loc
    const caller: StackEntry?
    ghost const value: Entry

    ghost predicate Valid()
      ensures Valid() ==> value.Entry?
      decreases value
    {
      && value.Entry? && value.loc == loc && value.caller == Value(caller)
      && (caller != null ==> caller.Valid())
    }

    static ghost function Value(e: StackEntry?): Entry {
      if e == null then Null else e.value
    }

    constructor (loc: Loc, caller: StackEntry?)
      requires caller != null ==> caller.Valid()
      ensures Valid() && value == Entry(loc, Value(caller))
    {
      this.loc, this.caller := loc, caller;
      value := Entry(loc, Value(caller));
    }

    /** The comparison with its pointer-equality shortcut is the order of values. */
    predicate Less(other: StackEntry)
      requires Valid() && other.Valid()
      ensures Less(other) <==> EntryLess(value, other.value)
      decreases value
    {
      if loc != other.loc then
        loc < other.loc
      else if caller == other.caller then
        LessIrreflexive(Value(caller)); false
      else if caller == null then
        true
      else if other.caller == null then
        false
      else
        caller.Less(other.caller)
    }

    predicate Same(other: StackEntry)
      requires Valid() && other.Valid()
      ensures Same(other) <==> value == other.value
      decreases value
    {
      loc == other.loc &&
      (caller == other.caller || (caller != null && other.caller != null && caller.Same(other.caller)))
    }

    /** The most recent call from the site `l`, if there are `limit` of them. */
    static method FindRecursion(start: StackEntry?, l: Loc, limit: nat) returns (found: StackEntry?)
      requires (start != null ==> start.Valid()) && limit != 0
      ensures found != null ==> found.Valid()
      ensures Value(found) ==
              if Count(Value(start), l) >= limit then Nearest(Value(start), l) else Null
    {
      var calls := 0;
      var first: StackEntry? := null;
      var i := start;
      while i != null
        invariant (i != null ==> i.Valid()) && (first != null ==> first.Valid())
        invariant calls + Count(Value(i), l) == Count(Value(start), l) && calls < limit
        invariant if calls == 0 then
                    first == null && (Count(Value(i), l) > 0 ==> Nearest(Value(start), l) == Nearest(Value(i), l))
                  else first != null && Value(first) == Nearest(Value(start), l)
        decreases Value(i)
      {
        if i.loc == l {
          if first == null {
            first := i;
          }
          calls := calls + 1;
          if calls == limit {
            return first;
          }
        }
        i := i.caller;
      }
      found := null;
    }

    /** One step: build the next stack and merge it with an equal one. */
    method Step(prog: Program, limit: nat, to: Loc, others: set<StackEntry>) returns (r: Step<StackEntry>)
      requires Valid() && forall o :: o in others ==> o.Valid()
      ensures r.New? || r.Merged? ==> r.to.Valid()
      ensures match StepEntry(prog, limit, value, to, set o | o in others :: o.value)
              case Blocked => r.Blocked?
              case Merged(next) => r.Merged? && r.to in others && r.to.value == next
              case New(next) => r.New? && r.to.value == next && fresh(r.to)
    {
      var next: StackEntry;
      if loc in prog.code && prog.code[loc].FunctionCall? {
        if to == loc + 1 {
          next := new StackEntry(to, caller);
        } else {
          var shorten := this;
          if limit != 0 {
            var found := FindRecursion(caller, loc, limit);
            if found != null {
              shorten := found;
            }
          }
          next := new StackEntry(to, shorten);
        }
      } else if loc in prog.code && prog.code[loc].EndFunction? {
        if caller == null || to != caller.loc + 1 {
          return Blocked;
        }
        next := new StackEntry(to, caller.caller);
      } else {
        next := new StackEntry(to, caller);
      }
      assert Next(prog, limit, value, to) == Some(next.value);
      if o :| o in others && o.Same(next) {
        assert o.value in set o | o in others :: o.value;
        r := Merged(o);
      } else {
        r := New(next);
      }
    }
  }

  // ----- with a recursion limit there are finitely many histories -----

  /** No call site occurs more than `limit` times among the callers. */
  ghost predicate Bounded(limit: nat, e: Entry) {
    e.Entry? && forall l :: Count(e.caller, l) <= limit
  }

  lemma {:induction false} NearestIsPart(e: Entry, l: Loc, k: Loc)
    requires Count(e, l) > 0
    ensures Count(Nearest(e, l), k) <= Count(e, k)
  {
    if e.loc == l {
    } else {
      NearestIsPart(e.caller, l, k);
    }
  }

  lemma NextBounded(prog: Program, limit: nat, e: Entry, to: Loc)
    requires limit > 0 && Bounded(limit, e) && Next(prog, limit, e, to).Some?
    ensures Bounded(limit, Next(prog, limit, e, to).value)
  {
    var next := Next(prog, limit, e, to).value;
    forall l ensures Count(next.caller, l) <= limit {
      assert Count(e.caller, l) <= limit && Count(e.caller, e.loc) <= limit;
      if Count(e.caller, e.loc) >= limit {
        NearestIsPart(e.caller, e.loc, l);
      }
      assert e.caller.Entry? ==> Count(e.caller.caller, l) <= Count(e.caller, l);
    }
  }

  /** The history after following `path` up to `path[n]`, starting at `path[0]`;
      None once a step is refused. */
  function StackAt(prog: Program, limit: nat, path: seq<Loc>, n: nat): (r: Option<Entry>)
    requires n < |path|
    ensures r.Some? ==> r.value.Entry? && r.value.loc == path[n]
  {
    if n == 0 then
      Some(Entry(path[0], Null))
    else
      var before := StackAt(prog, limit, path, n - 1);
      if before.None? then None else Next(prog, limit, before.value, path[n])
  }

  ghost function Length(e: Entry): nat {
    if e.Null? then 0 else 1 + Length(e.caller)
  }

  /** All locations of the chain are in `locs`. */
  ghost predicate Inside(e: Entry, locs: seq<Loc>) {
    e.Entry? ==> e.loc in locs && Inside(e.caller, locs)
  }

  ghost predicate Distinct(locs: seq<Loc>) {
    forall i, j :: 0 <= i < j < |locs| ==> locs[i] != locs[j]
  }

  ghost function SumCounts(e: Entry, locs: seq<Loc>): nat {
    if locs == [] then 0 else Count(e, locs[0]) + SumCounts(e, locs[1..])
  }

  lemma {:induction false} SumOfNull(locs: seq<Loc>)
    ensures SumCounts(Null, locs) == 0
  {
    if locs == [] {
    } else {
      SumOfNull(locs[1..]);
    }
  }

  lemma {:induction false} SumOfEntry(e: Entry, locs: seq<Loc>)
    requires e.Entry? && Distinct(locs)
    ensures SumCounts(e, locs) == SumCounts(e.caller, locs) + (if e.loc in locs then 1 else 0)
  {
    if locs == [] {
    } else {
      assert Distinct(locs[1..]);
      SumOfEntry(e, locs[1..]);
      assert locs == [locs[0]] + locs[1..];
      assert locs[0] !in locs[1..];
    }
  }

  lemma {:induction false} LengthIsSum(e: Entry, locs: seq<Loc>)
    requires Inside(e, locs) && Distinct(locs)
    ensures Length(e) == SumCounts(e, locs)
  {
    if e.Null? {
      SumOfNull(locs);
    } else {
      LengthIsSum(e.caller, locs);
      SumOfEntry(e, locs);
    }
  }

  lemma {:induction false} SumBounded(e: Entry, locs: seq<Loc>, limit: nat)
    requires forall l :: Count(e, l) <= limit
    ensures SumCounts(e, locs) <= limit * |locs|
  {
    if locs == [] {
    } else {
      SumBounded(e, locs[1..], limit);
      assert limit * |locs| == limit + limit * (|locs| - 1);
    }
  }

  /** `sites` lists the call sites of the program. */
  ghost predicate ListsCalls(prog: Program, sites: seq<Loc>) {
    Distinct(sites) && forall l :: l in sites <==> l in prog.code && prog.code[l].FunctionCall?
  }

  lemma {:induction false} NearestInside(e: Entry, l: Loc, locs: seq<Loc>)
    requires Count(e, l) > 0 && Inside(e, locs)
    ensures Inside(Nearest(e, l), locs)
  {
    if e.loc == l {
    } else {
      NearestInside(e.caller, l, locs);
    }
  }

  /** The callers of a history are call sites. */
  lemma NextCallers(prog: Program, limit: nat, e: Entry, to: Loc, sites: seq<Loc>)
    requires e.Entry? && Inside(e.caller, sites) && ListsCalls(prog, sites) && Next(prog, limit, e, to).Some?
    ensures Inside(Next(prog, limit, e, to).value.caller, sites)
  {
    if limit != 0 && Count(e.caller, e.loc) >= limit {
      NearestInside(e.caller, e.loc, sites);
    }
  }

  /** With a limit, every history that any sequence of steps reaches has each
      call site at most `limit` times among its callers, and so a bounded depth. */
  lemma {:induction false} ReachedBounded(prog: Program, limit: nat, path: seq<Loc>, n: nat, sites: seq<Loc>)
    requires limit > 0 && ListsCalls(prog, sites) && n < |path| && StackAt(prog, limit, path, n).Some?
    ensures var e := StackAt(prog, limit, path, n).value;
            && Bounded(limit, e) && Inside(e.caller, sites) && Length(e) <= 1 + limit * |sites|
  {
    var e := StackAt(prog, limit, path, n).value;
    if n == 0 {
    } else {
      ReachedBounded(prog, limit, path, n - 1, sites);
      var before := StackAt(prog, limit, path, n - 1).value;
      NextBounded(prog, limit, before, path[n]);
      NextCallers(prog, limit, before, path[n], sites);
    }
    LengthIsSum(e.caller, sites);
    SumBounded(e.caller, sites, limit);
  }
}
