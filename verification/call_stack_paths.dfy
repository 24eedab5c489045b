/** Without a recursion limit, the call-stack history accepts exactly the paths
    whose calls and returns match. */
module CallStackPaths {
  import opened Options
  import opened GotoProgram
  import opened CallStackHistory

  /** Step `i` of the path enters a function. */
  predicate IsCall(prog: Program, path: seq<Loc>, i: nat)
    requires i + 1 < |path|
  {
    path[i] in prog.code && prog.code[path[i]].FunctionCall? && path[i + 1] != path[i] + 1
  }

  /** Step `i` of the path leaves a function. */
  predicate IsReturn(prog: Program, path: seq<Loc>, i: nat)
    requires i + 1 < |path|
  {
    path[i] in prog.code && prog.code[path[i]].EndFunction?
  }

  /** Calls minus returns before `path[n]`. */
  function Height(prog: Program, path: seq<Loc>, n: nat): int
    requires n < |path|
  {
    if n == 0 then
      0
    else
      Height(prog, path, n - 1)
      + (if IsCall(prog, path, n - 1) then 1 else if IsReturn(prog, path, n - 1) then -1 else 0)
  }

  /** After the call `j` the path stays deeper than `j` up to `path[n]`. */
  ghost predicate Open(prog: Program, path: seq<Loc>, n: nat, j: nat)
    requires n < |path|
  {
    j < n && IsCall(prog, path, j) && forall m :: j < m <= n ==> Height(prog, path, j) < Height(prog, path, m)
  }

  /** The return `i` closes the call `j`: the path from `j` to `i` is balanced. */
  ghost predicate Matches(prog: Program, path: seq<Loc>, j: nat, i: nat)
    requires i + 1 < |path|
  {
    Open(prog, path, i, j) && Height(prog, path, i) == Height(prog, path, j) + 1
  }

  /** Every return before `path[n]` closes a call and goes to the instruction
      after it. */
  ghost predicate WellMatched(prog: Program, path: seq<Loc>, n: nat)
    requires n < |path|
  {
    forall i :: 0 <= i < n && IsReturn(prog, path, i) ==>
      exists j: nat :: Matches(prog, path, j, i) && path[i + 1] == path[j] + 1
  }

  /** `open` lists the open calls of the path, and the history holds their sites. */
  ghost predicate Follows(prog: Program, path: seq<Loc>, n: nat, e: Entry, open: seq<nat>)
    requires n < |path|
  {
    && e.Entry? && |open| == |Sites(e.caller)| == Height(prog, path, n)
    && forall d :: 0 <= d < |open| ==>
         Open(prog, path, n, open[d]) && Height(prog, path, open[d]) == d && Sites(e.caller)[d] == path[open[d]]
  }

  /** Two open calls at the same height are the same call. */
  lemma OpenUnique(prog: Program, path: seq<Loc>, n: nat, j: nat, k: nat)
    requires n < |path| && Open(prog, path, n, j) && Open(prog, path, n, k)
    requires Height(prog, path, j) == Height(prog, path, k)
    ensures j == k
  {
  }

  /** What stays open after one more step. */
  lemma StillOpen(prog: Program, path: seq<Loc>, n: nat, j: nat)
    requires n + 1 < |path| && Open(prog, path, n, j) && Height(prog, path, j) < Height(prog, path, n + 1)
    ensures Open(prog, path, n + 1, j)
  {
  }

  /** One step of the history keeps track of the open calls. */
  lemma FollowsStep(prog: Program, path: seq<Loc>, n: nat, e: Entry, open: seq<nat>, e': Entry)
    returns (open': seq<nat>)
    requires n + 1 < |path| && Follows(prog, path, n, e, open) && e.loc == path[n]
    requires Next(prog, 0, e, path[n + 1]) == Some(e')
    ensures Follows(prog, path, n + 1, e', open')
  {
    var h := Height(prog, path, n + 1);
    if IsCall(prog, path, n) {
      open' := open + [n];
      assert Sites(e'.caller) == Sites(e.caller) + [path[n]];
      forall d | 0 <= d < |open| ensures Open(prog, path, n + 1, open'[d]) {
        StillOpen(prog, path, n, open[d]);
      }
    } else if IsReturn(prog, path, n) {
      open' := open[..|open| - 1];
      assert Sites(e.caller) == Sites(e.caller.caller) + [e.caller.loc];
      forall d | 0 <= d < |open'| ensures Open(prog, path, n + 1, open'[d]) {
        StillOpen(prog, path, n, open[d]);
      }
    } else {
      open' := open;
      forall d | 0 <= d < |open| ensures Open(prog, path, n + 1, open'[d]) {
        StillOpen(prog, path, n, open[d]);
      }
    }
  }

  lemma {:induction false} Tracked(prog: Program, path: seq<Loc>, n: nat) returns (open: seq<nat>)
    requires n < |path| && StackAt(prog, 0, path, n).Some?
    ensures Follows(prog, path, n, StackAt(prog, 0, path, n).value, open)
  {
    if n == 0 {
      open := [];
    } else {
      open := Tracked(prog, path, n - 1);
      open := FollowsStep(
        prog, path, n - 1, StackAt(prog, 0, path, n - 1).value, open, StackAt(prog, 0, path, n).value);
    }
  }

  /** A return step is accepted exactly if it closes an open call and goes to the
      instruction after it. */
  lemma ReturnAccepted(prog: Program, path: seq<Loc>, i: nat, e: Entry)
    requires i + 1 < |path| && IsReturn(prog, path, i) && StackAt(prog, 0, path, i) == Some(e)
    ensures Next(prog, 0, e, path[i + 1]).Some? <==>
            exists j: nat :: Matches(prog, path, j, i) && path[i + 1] == path[j] + 1
  {
    var open := Tracked(prog, path, i);
    if e.caller.Entry? {
      assert Sites(e.caller) == Sites(e.caller.caller) + [e.caller.loc];
      var top := open[|open| - 1];
      assert Matches(prog, path, top, i) && e.caller.loc == path[top];
      forall j: nat | Matches(prog, path, j, i) ensures j == top {
        OpenUnique(prog, path, i, j, top);
      }
    } else {
      forall j: nat ensures !Matches(prog, path, j, i) {
        if Matches(prog, path, j, i) {
          HeightNonNegative(prog, path, j, i);
        }
      }
    }
  }

  lemma {:induction false} Accepted(prog: Program, path: seq<Loc>, n: nat, j: nat)
    requires j <= n < |path| && StackAt(prog, 0, path, n).Some?
    ensures StackAt(prog, 0, path, j).Some?
    decreases n
  {
    if j < n {
      Accepted(prog, path, n - 1, j);
    }
  }

  lemma HeightNonNegative(prog: Program, path: seq<Loc>, j: nat, i: nat)
    requires j <= i < |path| && StackAt(prog, 0, path, i).Some?
    ensures Height(prog, path, j) >= 0
  {
    Accepted(prog, path, i, j);
    var open := Tracked(prog, path, j);
  }

  /** No step of the path is refused if and only if its calls and returns match;
      then the history holds exactly the sites of the calls that are still open,
      in the order of nesting. */
  lemma {:induction false} AcceptedIffMatched(prog: Program, path: seq<Loc>, n: nat)
    requires n < |path|
    ensures StackAt(prog, 0, path, n).Some? <==> WellMatched(prog, path, n)
    ensures StackAt(prog, 0, path, n).Some? ==>
              exists open :: Follows(prog, path, n, StackAt(prog, 0, path, n).value, open)
  {
    if StackAt(prog, 0, path, n).Some? {
      var open := Tracked(prog, path, n);
    }
    if n == 0 {
    } else {
      AcceptedIffMatched(prog, path, n - 1);
      if StackAt(prog, 0, path, n - 1).Some? && IsReturn(prog, path, n - 1) {
        ReturnAccepted(prog, path, n - 1, StackAt(prog, 0, path, n - 1).value);
      }
      assert WellMatched(prog, path, n) ==> WellMatched(prog, path, n - 1);
    }
  }

  // ----- returning restores the context of the call -----

  lemma {:induction false} SitesInjective(x: Entry, y: Entry)
    requires Sites(x) == Sites(y)
    ensures x == y
  {
    if x.Entry? && y.Entry? {
      var sx, sy := Sites(x), Sites(y);
      assert sx[|sx| - 1] == x.loc && sy[|sy| - 1] == y.loc;
      assert sx[..|sx| - 1] == Sites(x.caller) && sy[..|sy| - 1] == Sites(y.caller);
      SitesInjective(x.caller, y.caller);
    }
  }

  /** While the call `j` is open, the stack starts with the stack at `j`. */
  lemma {:induction false} CallKept(prog: Program, path: seq<Loc>, j: nat, m: nat)
    requires m < |path| && Open(prog, path, m, j) && StackAt(prog, 0, path, m).Some?
    ensures StackAt(prog, 0, path, j).Some?
    ensures Sites(StackAt(prog, 0, path, j).value) <= Sites(StackAt(prog, 0, path, m).value.caller)
    decreases m
  {
    Accepted(prog, path, m, j);
    var e := StackAt(prog, 0, path, m).value;
    var before := StackAt(prog, 0, path, m - 1).value;
    if m > j + 1 {
      CallKept(prog, path, j, m - 1);
      if IsReturn(prog, path, m - 1) {
        var open := Tracked(prog, path, j);
        var open' := Tracked(prog, path, m);
        assert |Sites(StackAt(prog, 0, path, j).value)| == |open| + 1 <= |open'|;
        assert Sites(before.caller) == Sites(e.caller) + [before.caller.loc];
      }
    }
  }

  /** A return lands in the context its own call had, with the location advanced
      past the call. */
  lemma ReturnRestores(prog: Program, path: seq<Loc>, j: nat, i: nat)
    requires i + 1 < |path| && IsReturn(prog, path, i) && Matches(prog, path, j, i)
    requires StackAt(prog, 0, path, i + 1).Some?
    ensures StackAt(prog, 0, path, j).Some?
    ensures StackAt(prog, 0, path, i + 1).value == Entry(path[j] + 1, StackAt(prog, 0, path, j).value.caller)
  {
    Accepted(prog, path, i + 1, i);
    CallKept(prog, path, j, i);
    var atCall, atEnd := StackAt(prog, 0, path, j).value, StackAt(prog, 0, path, i).value;
    var open := Tracked(prog, path, j);
    var open' := Tracked(prog, path, i);
    assert |Sites(atCall)| == |open| + 1 == |open'|;
    SitesInjective(atCall, atEnd.caller);
  }
}
