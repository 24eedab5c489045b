/** The calls of a program, function by function. */
module Calls {
  /** Function identifiers are interned strings, that is, numbers. */
  type Fid = nat

  type Site = nat

  datatype Call = Call(site: Site, callee: Fid)

  /** The call instructions of every function that has a body, in order. */
  type Functions = map<Fid, seq<Call>>

  function CallsOf(fns: Functions, f: Fid): seq<Call> {
    if f in fns then fns[f] else []
  }

  /** The callees of a list of calls, in order. */
  function Callees(calls: seq<Call>): (r: seq<Fid>)
    ensures |r| == |calls| && forall i :: 0 <= i < |r| ==> r[i] == calls[i].callee
  {
    if calls == [] then [] else [calls[0].callee] + Callees(calls[1..])
  }

  /** The callees of all calls. */
  function CalleeSet(calls: seq<Call>): set<Fid> {
    set c | c in calls :: c.callee
  }

  /** The call instructions that lead to `g`. */
  function SitesTo(calls: seq<Call>, g: Fid): set<Site> {
    set c | c in calls && c.callee == g :: c.site
  }

  // ----- reachable functions -----

  ghost predicate InSteps(fns: Functions, root: Fid, n: nat, f: Fid) {
    if n == 0 then f == root else exists g :: InSteps(fns, root, n - 1, g) && f in CalleeSet(CallsOf(fns, g))
  }

  ghost predicate ReachableFrom(fns: Functions, root: Fid, f: Fid) {
    exists n: nat :: InSteps(fns, root, n, f)
  }

  lemma ReachableStep(fns: Functions, root: Fid, f: Fid, g: Fid)
    requires ReachableFrom(fns, root, f) && g in CalleeSet(CallsOf(fns, f))
    ensures ReachableFrom(fns, root, g)
  {
    var n: nat :| InSteps(fns, root, n, f);
    assert InSteps(fns, root, n + 1, g);
  }

  lemma {:induction false} ClosedReaches(fns: Functions, root: Fid, nodes: set<Fid>, n: nat, f: Fid)
    requires root in nodes && forall g, h :: g in nodes && h in CalleeSet(CallsOf(fns, g)) ==> h in nodes
    requires InSteps(fns, root, n, f)
    ensures f in nodes
  {
    if n == 0 {
    } else {
      var g :| InSteps(fns, root, n - 1, g) && f in CalleeSet(CallsOf(fns, g));
      ClosedReaches(fns, root, nodes, n - 1, g);
    }
  }

  // ----- lists of calls -----

  lemma CalleesSnoc(calls: seq<Call>, i: nat)
    requires i < |calls|
    ensures Callees(calls[..i + 1]) == Callees(calls[..i]) + [calls[i].callee]
  {
  }

  lemma CalleeSetMore(calls: seq<Call>, i: nat)
    requires i < |calls|
    ensures CalleeSet([]) == {} && CalleeSet(calls[..i + 1]) == CalleeSet(calls[..i]) + {calls[i].callee}
  {
    assert calls[..i + 1] == calls[..i] + [calls[i]];
  }

  /** The callees of `calls` that are not in `known`, in order. */
  function Pushed(calls: seq<Call>, known: set<Fid>): (r: seq<Fid>)
    ensures forall g :: g in r ==> g !in known
  {
    if calls == [] then [] else
      var g := calls[|calls| - 1].callee;
      Pushed(calls[..|calls| - 1], known) + if g in known then [] else [g]
  }

  lemma {:induction false} PushedAre(calls: seq<Call>, known: set<Fid>)
    ensures |Pushed(calls, known)| <= |calls|
    ensures forall g :: g in Pushed(calls, known) <==> g in CalleeSet(calls) && g !in known
  {
    if calls == [] {
      assert CalleeSet(calls) == {};
    } else {
      var n := |calls| - 1;
      PushedAre(calls[..n], known);
      CalleeSetMore(calls, n);
      assert calls[..n + 1] == calls;
    }
  }

  ghost function CountIn(s: seq<Fid>, g: Fid): nat {
    multiset(s)[g]
  }

  lemma CountMore(s: seq<Fid>, i: nat)
    requires i < |s|
    ensures forall g :: CountIn([], g) == 0 && CountIn(s[..i + 1], g) == CountIn(s[..i], g) + if g == s[i] then 1 else 0
  {
    assert s[..i + 1] == s[..i] + [s[i]];
  }
}
