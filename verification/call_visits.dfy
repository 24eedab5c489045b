/** How often the exploration of a rooted call graph looks at a function.  The
    count is read off the calls alone: the exploration takes the last pushed
    callee first, so it comes to a function along the path that follows, at every
    function, the last call from which the goal can still be reached. */
module CallVisits {
  import opened Calls

  function Visits(visits: map<Fid, nat>, f: Fid): nat {
    if f in visits then visits[f] else 0
  }

  // ----- reaching a function past others -----

  /** `n` calls lead from `g` to `f`, never through a function of `avoid`. */
  ghost predicate CallPath(fns: Functions, avoid: set<Fid>, n: nat, g: Fid, f: Fid) {
    && g !in avoid
    && if n == 0 then g == f else exists h :: h in CalleeSet(CallsOf(fns, g)) && CallPath(fns, avoid, n - 1, h, f)
  }

  ghost predicate Reaches(fns: Functions, avoid: set<Fid>, g: Fid, f: Fid) {
    exists n: nat :: CallPath(fns, avoid, n, g, f)
  }

  lemma ReachesBy(fns: Functions, avoid: set<Fid>, g: Fid, h: Fid, f: Fid)
    requires g !in avoid && h in CalleeSet(CallsOf(fns, g)) && Reaches(fns, avoid, h, f)
    ensures Reaches(fns, avoid, g, f)
  {
    var n: nat :| CallPath(fns, avoid, n, h, f);
    assert CallPath(fns, avoid, n + 1, g, f);
  }

  /** With fewer functions to avoid more can be reached. */
  lemma {:induction false} FewerAvoided(fns: Functions, avoid: set<Fid>, x: Fid, n: nat, g: Fid, f: Fid)
    requires CallPath(fns, avoid + {x}, n, g, f)
    ensures CallPath(fns, avoid, n, g, f)
    decreases n
  {
    if n == 0 {
    } else {
      var h :| h in CalleeSet(CallsOf(fns, g)) && CallPath(fns, avoid + {x}, n - 1, h, f);
      FewerAvoided(fns, avoid, x, n - 1, h, f);
    }
  }

  /** A function that does not lead to the goal need not be avoided. */
  lemma {:induction false} MoreAvoided(fns: Functions, avoid: set<Fid>, x: Fid, n: nat, g: Fid, f: Fid)
    requires CallPath(fns, avoid, n, g, f) && !Reaches(fns, avoid, x, f)
    ensures CallPath(fns, avoid + {x}, n, g, f)
    decreases n
  {
    if n == 0 {
    } else {
      var h :| h in CalleeSet(CallsOf(fns, g)) && CallPath(fns, avoid, n - 1, h, f);
      MoreAvoided(fns, avoid, x, n - 1, h, f);
    }
  }

  lemma ReachesSame(fns: Functions, avoid: set<Fid>, x: Fid, g: Fid, f: Fid)
    requires !Reaches(fns, avoid, x, f)
    ensures Reaches(fns, avoid + {x}, g, f) <==> Reaches(fns, avoid, g, f)
  {
    if Reaches(fns, avoid, g, f) {
      var n: nat :| CallPath(fns, avoid, n, g, f);
      MoreAvoided(fns, avoid, x, n, g, f);
    }
    ReachesFewer(fns, avoid, x, g, f);
  }

  lemma ReachesFewer(fns: Functions, avoid: set<Fid>, x: Fid, g: Fid, f: Fid)
    ensures Reaches(fns, avoid + {x}, g, f) ==> Reaches(fns, avoid, g, f)
  {
    if Reaches(fns, avoid + {x}, g, f) {
      var n: nat :| CallPath(fns, avoid + {x}, n, g, f);
      FewerAvoided(fns, avoid, x, n, g, f);
    }
  }

  /** Some callee of `g` leads on without coming back to `g`. */
  ghost predicate LeadsOn(fns: Functions, avoid: set<Fid>, g: Fid, f: Fid) {
    exists h :: h in CalleeSet(CallsOf(fns, g)) && Reaches(fns, avoid + {g}, h, f)
  }

  /** A path to the goal can be cut at its last visit of `g`. */
  lemma {:induction false} CutLoops(fns: Functions, avoid: set<Fid>, g: Fid, f: Fid, n: nat, y: Fid)
    requires g != f && CallPath(fns, avoid, n, y, f)
    ensures LeadsOn(fns, avoid, g, f) || (y != g && Reaches(fns, avoid + {g}, y, f))
    decreases n
  {
    if n == 0 {
      assert CallPath(fns, avoid + {g}, 0, y, f);
    } else {
      var h :| h in CalleeSet(CallsOf(fns, y)) && CallPath(fns, avoid, n - 1, h, f);
      CutLoops(fns, avoid, g, f, n - 1, h);
      if y != g && !LeadsOn(fns, avoid, g, f) {
        ReachesBy(fns, avoid + {g}, y, h, f);
      }
    }
  }

  lemma NextExists(fns: Functions, avoid: set<Fid>, g: Fid, f: Fid)
    requires g != f && Reaches(fns, avoid, g, f)
    ensures g in fns && g !in avoid && LeadsOn(fns, avoid, g, f)
  {
    var n: nat :| CallPath(fns, avoid, n, g, f);
    CutLoops(fns, avoid, g, f, n, g);
    assert CallsOf(fns, g) != [];
  }

  // ----- the path that the exploration takes -----

  /** The callee of the last call from which `f` can be reached. */
  ghost function LastTo(fns: Functions, avoid: set<Fid>, calls: seq<Call>, f: Fid): Fid {
    if calls == [] then
      f
    else
      var c := calls[|calls| - 1].callee;
      if Reaches(fns, avoid, c, f) then c else LastTo(fns, avoid, calls[..|calls| - 1], f)
  }

  /** The calls of `f` that are met on that path from `g`. */
  ghost function PushesFrom(fns: Functions, avoid: set<Fid>, g: Fid, f: Fid): nat
    decreases fns.Keys - avoid
  {
    if g == f || g in avoid || g !in fns then
      0
    else
      CountIn(Callees(fns[g]), f) + PushesFrom(fns, avoid + {g}, LastTo(fns, avoid + {g}, fns[g], f), f)
  }

  /** How often the exploration from `root` pushes, and so visits, `f`. */
  ghost function Pushes(fns: Functions, root: Fid, f: Fid): nat {
    (if f == root then 1 else 0) + PushesFrom(fns, {}, root, f)
  }

  lemma {:induction false} LastReaches(fns: Functions, avoid: set<Fid>, calls: seq<Call>, f: Fid, h: Fid)
    requires h in CalleeSet(calls) && Reaches(fns, avoid, h, f)
    ensures LastTo(fns, avoid, calls, f) in CalleeSet(calls) && Reaches(fns, avoid, LastTo(fns, avoid, calls, f), f)
    decreases |calls|
  {
    var n := |calls| - 1;
    CalleeSetMore(calls, n);
    assert calls[..n + 1] == calls;
    if !Reaches(fns, avoid, calls[n].callee, f) {
      LastReaches(fns, avoid, calls[..n], f, h);
    }
  }

  lemma {:induction false} LastSame(fns: Functions, avoid: set<Fid>, avoid': set<Fid>, calls: seq<Call>, f: Fid)
    requires forall h :: Reaches(fns, avoid', h, f) <==> Reaches(fns, avoid, h, f)
    ensures LastTo(fns, avoid', calls, f) == LastTo(fns, avoid, calls, f)
    decreases |calls|
  {
    if calls == [] {
    } else {
      LastSame(fns, avoid, avoid', calls[..|calls| - 1], f);
    }
  }

  /** The path avoids by itself what does not lead to the goal. */
  lemma {:induction false} PushesSame(fns: Functions, avoid: set<Fid>, x: Fid, g: Fid, f: Fid)
    requires !Reaches(fns, avoid, x, f) && Reaches(fns, avoid, g, f)
    ensures PushesFrom(fns, avoid + {x}, g, f) == PushesFrom(fns, avoid, g, f)
    decreases fns.Keys - avoid
  {
    if g == f {
    } else {
      NextExists(fns, avoid, g, f);
      var more := avoid + {g};
      ReachesFewer(fns, avoid, g, x, f);
      assert avoid + {x} + {g} == more + {x};
      forall h ensures Reaches(fns, more + {x}, h, f) <==> Reaches(fns, more, h, f) {
        ReachesSame(fns, more, x, h, f);
      }
      LastSame(fns, more, more + {x}, fns[g], f);
      var h :| h in CalleeSet(CallsOf(fns, g)) && Reaches(fns, more, h, f);
      LastReaches(fns, more, fns[g], f, h);
      PushesSame(fns, more, x, LastTo(fns, more, fns[g], f), f);
    }
  }

  // ----- the invariant of the exploration -----

  /** `p` is the topmost place on the stack from which `f` can be reached. */
  ghost predicate Topmost(fns: Functions, known: set<Fid>, stack: seq<Fid>, p: nat, f: Fid) {
    && p < |stack| && Reaches(fns, known, stack[p], f)
    && forall q :: p < q < |stack| ==> !Reaches(fns, known, stack[q], f)
  }

  /** Visits so far, duplicates on the stack and pushes to come add up. */
  ghost predicate Accounted(
    fns: Functions, root: Fid, known: set<Fid>, stack: seq<Fid>, visits: map<Fid, nat>, f: Fid)
  {
    if f in known then
      Visits(visits, f) + CountIn(stack, f) == Pushes(fns, root, f)
    else
      && Visits(visits, f) == 0
      && exists p: nat :: Topmost(fns, known, stack, p, f)
                     && CountIn(stack, f) + PushesFrom(fns, known, stack[p], f) == Pushes(fns, root, f)
  }

  /** A visit of the function on top: it becomes known if it has calls, and its
      unknown callees are pushed. */
  ghost predicate Takes(
    fns: Functions, known: set<Fid>, stack: seq<Fid>, visits: map<Fid, nat>,
    known': set<Fid>, stack': seq<Fid>, visits': map<Fid, nat>)
  {
    && stack != []
    && var g := stack[|stack| - 1];
       && known' == (if CallsOf(fns, g) == [] then known else known + {g})
       && stack' == stack[..|stack| - 1] + Pushed(CallsOf(fns, g), known + {g})
       && (forall h :: Visits(visits', h) == Visits(visits, h) + if h == g && g in fns then 1 else 0)
  }

  lemma {:induction false} InitiallyLeads(fns: Functions, root: Fid, n: nat, g: Fid, m: nat, f: Fid)
    requires InSteps(fns, root, n, g) && CallPath(fns, {}, m, g, f)
    ensures Reaches(fns, {}, root, f)
    decreases n
  {
    if n == 0 {
    } else {
      var h :| InSteps(fns, root, n - 1, h) && g in CalleeSet(CallsOf(fns, h));
      assert CallPath(fns, {}, m + 1, h, f);
      InitiallyLeads(fns, root, n - 1, h, m + 1, f);
    }
  }

  lemma AccountedStart(fns: Functions, root: Fid, f: Fid)
    requires ReachableFrom(fns, root, f)
    ensures Accounted(fns, root, {}, [root], map[], f) && Reaches(fns, {}, root, f)
  {
    var n: nat :| InSteps(fns, root, n, f);
    assert CallPath(fns, {}, 0, f, f);
    InitiallyLeads(fns, root, n, f, 0, f);
    assert Topmost(fns, {}, [root], 0, f);
    assert CountIn([root], f) == if f == root then 1 else 0;
  }

  lemma {:induction false} PushedCount(calls: seq<Call>, known: set<Fid>, f: Fid)
    ensures CountIn(Pushed(calls, known), f) == if f in known then 0 else CountIn(Callees(calls), f)
    decreases |calls|
  {
    if calls == [] {
    } else {
      var n := |calls| - 1;
      PushedCount(calls[..n], known, f);
      CalleesSnoc(calls, n);
      assert calls[..n + 1] == calls;
    }
  }

  /** The last pushed callee that leads to `f` is the one that `LastTo` names. */
  lemma {:induction false} PushedLast(fns: Functions, known: set<Fid>, calls: seq<Call>, f: Fid, h: Fid)
    returns (k: nat)
    requires h in CalleeSet(calls) && Reaches(fns, known, h, f)
    ensures k < |Pushed(calls, known)| && Pushed(calls, known)[k] == LastTo(fns, known, calls, f)
    ensures forall q :: k < q < |Pushed(calls, known)| ==> !Reaches(fns, known, Pushed(calls, known)[q], f)
    decreases |calls|
  {
    var n := |calls| - 1;
    CalleeSetMore(calls, n);
    assert calls[..n + 1] == calls;
    if Reaches(fns, known, calls[n].callee, f) {
      k := |Pushed(calls, known)| - 1;
    } else {
      k := PushedLast(fns, known, calls[..n], f, h);
    }
  }

  lemma StackCount(stack: seq<Fid>, more: seq<Fid>, f: Fid)
    requires stack != []
    ensures var n := |stack| - 1;
            CountIn(stack[..n] + more, f) + (if stack[n] == f then 1 else 0) == CountIn(stack, f) + CountIn(more, f)
  {
    var n := |stack| - 1;
    assert stack == stack[..n] + [stack[n]];
  }

  /** The function on top leads to `f`: the path goes on in its last callee that
      does. */
  lemma AccountedAlong(
    fns: Functions, root: Fid, known: set<Fid>, stack: seq<Fid>, visits: map<Fid, nat>,
    known': set<Fid>, stack': seq<Fid>, visits': map<Fid, nat>, f: Fid)
    requires Takes(fns, known, stack, visits, known', stack', visits')
    requires Accounted(fns, root, known, stack, visits, f) && f !in known
    requires var g := stack[|stack| - 1]; g != f && Reaches(fns, known, g, f)
    ensures Accounted(fns, root, known', stack', visits', f)
  {
    hide Reaches, CountIn, Pushed, Pushes, PushesFrom, LastTo, Topmost;
    var n := |stack| - 1;
    var g := stack[n];
    PushesStep(fns, known, g, f);
    TopStays(fns, known, stack, f);
    var k := TopmostAlong(fns, known, stack, stack', f);
    PushedCount(fns[g], known + {g}, f);
    StackCount(stack, Pushed(fns[g], known + {g}), f);
  }

  lemma TopStays(fns: Functions, known: set<Fid>, stack: seq<Fid>, f: Fid)
    requires stack != [] && Reaches(fns, known, stack[|stack| - 1], f)
    ensures forall p: nat :: Topmost(fns, known, stack, p, f) <==> p == |stack| - 1
  {
    hide Reaches;
  }

  lemma TopmostAlong(fns: Functions, known: set<Fid>, stack: seq<Fid>, stack': seq<Fid>, f: Fid) returns (p: nat)
    requires stack != []
    requires var g := stack[|stack| - 1];
             && g != f && Reaches(fns, known, g, f)
             && stack' == stack[..|stack| - 1] + Pushed(CallsOf(fns, g), known + {g})
    ensures var g := stack[|stack| - 1];
            Topmost(fns, known + {g}, stack', p, f) && g in fns && stack'[p] == LastTo(fns, known + {g}, fns[g], f)
  {
    hide Reaches, Pushed, LastTo;
    var n := |stack| - 1;
    var g := stack[n];
    NextExists(fns, known, g, f);
    var h :| h in CalleeSet(CallsOf(fns, g)) && Reaches(fns, known + {g}, h, f);
    var k := PushedLast(fns, known + {g}, fns[g], f, h);
    LastReaches(fns, known + {g}, fns[g], f, h);
    p := n + k;
  }

  lemma PushesStep(fns: Functions, avoid: set<Fid>, g: Fid, f: Fid)
    requires g != f && Reaches(fns, avoid, g, f)
    ensures g in fns && CallsOf(fns, g) == fns[g] && fns[g] != []
    ensures PushesFrom(fns, avoid, g, f)
            == CountIn(Callees(fns[g]), f) + PushesFrom(fns, avoid + {g}, LastTo(fns, avoid + {g}, fns[g], f), f)
  {
    hide Reaches, CountIn;
    NextExists(fns, avoid, g, f);
    assert CallsOf(fns, g) != [];
  }

  /** The function on top does not lead to `f`, nor does anything it pushes. */
  lemma AccountedAside(
    fns: Functions, root: Fid, known: set<Fid>, stack: seq<Fid>, visits: map<Fid, nat>,
    known': set<Fid>, stack': seq<Fid>, visits': map<Fid, nat>, f: Fid)
    requires Takes(fns, known, stack, visits, known', stack', visits')
    requires Accounted(fns, root, known, stack, visits, f) && f !in known
    requires var g := stack[|stack| - 1];
             && !Reaches(fns, known, g, f)
             && forall h :: h in Pushed(CallsOf(fns, g), known + {g}) ==> !Reaches(fns, known', h, f)
    ensures Accounted(fns, root, known', stack', visits', f)
  {
    hide Reaches, CountIn, Pushed, Pushes;
    var n := |stack| - 1;
    var g := stack[n];
    var pushed := Pushed(CallsOf(fns, g), known + {g});
    var p: nat :| Topmost(fns, known, stack, p, f)
             && CountIn(stack, f) + PushesFrom(fns, known, stack[p], f) == Pushes(fns, root, f);
    KnownSame(fns, known, g, f);
    assert g != f;
    PushesSame(fns, known, g, stack[p], f);
    assert forall q :: n <= q < |stack'| ==> stack'[q] == pushed[q - n] && stack'[q] in pushed;
    assert forall q :: 0 <= q < n ==> stack'[q] == stack[q];
    assert Topmost(fns, known', stack', p, f);
    NotPushed(fns, known', pushed, f);
    StackCount(stack, pushed, f);
  }

  lemma KnownSame(fns: Functions, known: set<Fid>, g: Fid, f: Fid)
    requires !Reaches(fns, known, g, f) && f !in known
    ensures forall h :: Reaches(fns, known + {g}, h, f) <==> Reaches(fns, known, h, f)
    ensures g != f
  {
    forall h ensures Reaches(fns, known + {g}, h, f) <==> Reaches(fns, known, h, f) {
      ReachesSame(fns, known, g, h, f);
    }
    assert CallPath(fns, known, 0, f, f);
  }

  lemma NotPushed(fns: Functions, known: set<Fid>, pushed: seq<Fid>, f: Fid)
    requires f !in known && forall h :: h in pushed ==> !Reaches(fns, known, h, f)
    ensures CountIn(pushed, f) == 0
  {
    assert CallPath(fns, known, 0, f, f);
    assert f !in pushed;
  }

  /** Functions without calls lead nowhere. */
  lemma LeafLeadsNowhere(fns: Functions, avoid: set<Fid>, g: Fid, f: Fid)
    requires CallsOf(fns, g) == [] && g != f
    ensures !Reaches(fns, avoid, g, f)
  {
    forall n: nat ensures !CallPath(fns, avoid, n, g, f) {
    }
  }

  /** One visit keeps the account of every function with calls; a function that is
      known already may only push functions without calls. */
  lemma AccountedStep(
    fns: Functions, root: Fid, known: set<Fid>, stack: seq<Fid>, visits: map<Fid, nat>,
    known': set<Fid>, stack': seq<Fid>, visits': map<Fid, nat>, f: Fid)
    requires Takes(fns, known, stack, visits, known', stack', visits')
    requires Accounted(fns, root, known, stack, visits, f) && CallsOf(fns, f) != []
    requires var g := stack[|stack| - 1];
             g in known ==> forall h :: h in Pushed(CallsOf(fns, g), known + {g}) ==> CallsOf(fns, h) == []
    ensures Accounted(fns, root, known', stack', visits', f)
  {
    hide Reaches, CountIn, Pushed, Pushes, PushesFrom;
    var g := stack[|stack| - 1];
    var pushed := Pushed(CallsOf(fns, g), known + {g});
    if f in known || f == g {
      PushedCount(CallsOf(fns, g), known + {g}, f);
      StackCount(stack, pushed, f);
      if f !in known {
        SelfReached(fns, root, known, stack, visits, f);
      }
    } else if Reaches(fns, known, g, f) {
      AccountedAlong(fns, root, known, stack, visits, known', stack', visits', f);
    } else {
      forall h | h in pushed ensures !Reaches(fns, known', h, f) {
        PushedAside(fns, known, known', g, h, f);
      }
      AccountedAside(fns, root, known, stack, visits, known', stack', visits', f);
    }
  }

  /** With `f` on top no pushes are to come. */
  lemma SelfReached(fns: Functions, root: Fid, known: set<Fid>, stack: seq<Fid>, visits: map<Fid, nat>, f: Fid)
    requires stack != [] && stack[|stack| - 1] == f && f !in known
    requires Accounted(fns, root, known, stack, visits, f)
    ensures Visits(visits, f) == 0 && CountIn(stack, f) == Pushes(fns, root, f)
  {
    hide Pushes, CountIn;
    assert CallPath(fns, known, 0, f, f);
    assert Topmost(fns, known, stack, |stack| - 1, f);
  }

  lemma PushedAside(fns: Functions, known: set<Fid>, known': set<Fid>, g: Fid, h: Fid, f: Fid)
    requires known' == (if CallsOf(fns, g) == [] then known else known + {g})
    requires h in Pushed(CallsOf(fns, g), known + {g}) && !Reaches(fns, known, g, f) && f != g
    requires CallsOf(fns, f) != [] && (g in known ==> CallsOf(fns, h) == [])
    ensures !Reaches(fns, known', h, f)
  {
    PushedAre(CallsOf(fns, g), known + {g});
    hide Pushed, Reaches;
    if g in known {
      LeafLeadsNowhere(fns, known', h, f);
    } else if Reaches(fns, known', h, f) {
      ReachesFewer(fns, known, g, h, f);
      ReachesBy(fns, known, g, h, f);
    }
  }

  lemma AccountedEnd(fns: Functions, root: Fid, known: set<Fid>, visits: map<Fid, nat>, f: Fid)
    requires Accounted(fns, root, known, [], visits, f)
    ensures f in known && Visits(visits, f) == Pushes(fns, root, f)
  {
  }

  // ----- when a function is visited once -----

  /** A reachable function is pushed at least once. */
  lemma {:induction false} PushedOnPath(fns: Functions, avoid: set<Fid>, g: Fid, f: Fid)
    requires g != f && Reaches(fns, avoid, g, f)
    ensures PushesFrom(fns, avoid, g, f) > 0
    decreases fns.Keys - avoid
  {
    hide Reaches;
    NextExists(fns, avoid, g, f);
    var h :| h in CalleeSet(CallsOf(fns, g)) && Reaches(fns, avoid + {g}, h, f);
    LastReaches(fns, avoid + {g}, fns[g], f, h);
    var next := LastTo(fns, avoid + {g}, fns[g], f);
    if next == f {
      CalledCount(fns[g], f);
    } else {
      PushedOnPath(fns, avoid + {g}, next, f);
    }
  }

  lemma CalledCount(calls: seq<Call>, f: Fid)
    ensures f in CalleeSet(calls) <==> CountIn(Callees(calls), f) > 0
  {
    if f in CalleeSet(calls) {
      var i :| 0 <= i < |calls| && calls[i].callee == f;
      assert Callees(calls)[i] == f;
    }
  }

  lemma PushedReachable(fns: Functions, root: Fid, f: Fid)
    requires ReachableFrom(fns, root, f)
    ensures Pushes(fns, root, f) > 0
  {
    AccountedStart(fns, root, f);
    if f != root {
      PushedOnPath(fns, {}, root, f);
    }
  }

  /** In the bodies of reachable functions there is at most one call of `f` from
      another function. */
  ghost predicate CalledOnce(fns: Functions, root: Fid, f: Fid) {
    forall g, h :: IsCaller(fns, root, g, f) && IsCaller(fns, root, h, f) ==>
      g == h && CountIn(Callees(CallsOf(fns, g)), f) == 1
  }

  ghost predicate IsCaller(fns: Functions, root: Fid, g: Fid, f: Fid) {
    ReachableFrom(fns, root, g) && g != f && f in CalleeSet(CallsOf(fns, g))
  }

  lemma {:induction false} CallerOnPath(fns: Functions, root: Fid, avoid: set<Fid>, n: nat, g: Fid, f: Fid)
    returns (h: Fid)
    requires ReachableFrom(fns, root, g) && g != f && CallPath(fns, avoid, n, g, f)
    ensures IsCaller(fns, root, h, f) && h !in avoid
    decreases n
  {
    hide ReachableFrom;
    var next :| next in CalleeSet(CallsOf(fns, g)) && CallPath(fns, avoid, n - 1, next, f);
    if next == f {
      h := g;
    } else {
      ReachableStep(fns, root, g, next);
      h := CallerOnPath(fns, root, avoid, n - 1, next, f);
    }
  }

  lemma {:induction false} OncePath(fns: Functions, root: Fid, avoid: set<Fid>, g: Fid, f: Fid)
    requires CalledOnce(fns, root, f) && ReachableFrom(fns, root, g) && g != f && Reaches(fns, avoid, g, f)
    ensures PushesFrom(fns, avoid, g, f) == 1
    decreases fns.Keys - avoid
  {
    hide ReachableFrom, CountIn, PushesFrom;
    NextExists(fns, avoid, g, f);
    PushesStep(fns, avoid, g, f);
    var h :| h in CalleeSet(CallsOf(fns, g)) && Reaches(fns, avoid + {g}, h, f);
    LastReaches(fns, avoid + {g}, fns[g], f, h);
    var next := LastTo(fns, avoid + {g}, fns[g], f);
    CalledCount(fns[g], f);
    if next == f {
      assert IsCaller(fns, root, g, f);
      AtGoal(fns, avoid + {g}, f);
    } else {
      ReachableStep(fns, root, g, next);
      OncePath(fns, root, avoid + {g}, next, f);
      var n: nat :| CallPath(fns, avoid + {g}, n, next, f);
      var other := CallerOnPath(fns, root, avoid + {g}, n, next, f);
      assert !IsCaller(fns, root, g, f);
    }
  }

  lemma AtGoal(fns: Functions, avoid: set<Fid>, f: Fid)
    ensures PushesFrom(fns, avoid, f, f) == 0
  {
  }

  /** The root, and a function with a single call from elsewhere, is visited once. */
  lemma VisitedOnce(fns: Functions, root: Fid, f: Fid)
    requires ReachableFrom(fns, root, f) && (f == root || CalledOnce(fns, root, f))
    ensures Pushes(fns, root, f) == 1
  {
    AccountedStart(fns, root, f);
    assert InSteps(fns, root, 0, root);
    if f != root {
      OncePath(fns, root, {}, root, f);
    }
  }
}
