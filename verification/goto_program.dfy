/** Values that may be absent. */
module Options {
  datatype Option<+T> = None | Some(value: T)
}

/** Goto programs as the abstract interpreter sees them: numbered instructions
    that are local steps, function calls or function ends. */
module GotoProgram {
  import opened Options

  /** The location number of an instruction, unique in the whole program. */
  type Loc = nat

  /** A function identifier. */
  type Fid = string

  /** `succs` may hold duplicates (GOTO next), and targets outside the program
      stand for the end of the instruction list. */
  datatype Kind = Local(succs: seq<Loc>) | FunctionCall(callee: Fid) | EndFunction

  datatype Body = Body(first: Loc, last: Loc) | NoBody

  /** A way through one function: local steps, and calls with a way through the
      callee. */
  datatype Route = Here | Along(prev: Route, l: Loc) | Past(prev: Route, l: Loc, inner: Route)

  /** Depths of functions, and a set of locations that control does not leave. */
  datatype Ranking = Ranking(depth: Fid -> nat, live: Loc -> bool)

  function Everywhere(depth: Fid -> nat): Ranking {
    Ranking(depth, l => true)
  }

  /** All functions at one depth. */
  function Flat(): Ranking {
    Everywhere(f => 0)
  }

  /** `functions` is empty when a single function is analysed on its own.
      `interprocedural` tells the recursive interpreter from the base one. */
  datatype Program = Program(
    code: map<Loc, Kind>,
    owner: map<Loc, Fid>,
    functions: map<Fid, Body>,
    interprocedural: bool)
  {
    /** The data invariants that the interpreter states about its input. */
    ghost predicate WellFormed() {
      && owner.Keys == code.Keys
      && (forall l, to :: l in code && code[l].Local? && to in code[l].succs && to in code ==> owner[to] == owner[l])
      && (forall l :: l in code && code[l].FunctionCall? ==>
            l + 1 in code && owner[l + 1] == owner[l] && (functions != map[] ==> code[l].callee in functions))
      && (forall f :: f in functions && functions[f].Body? ==>
            var b := functions[f];
            b.first in code && b.last in code && owner[b.first] == f && owner[b.last] == f && code[b.last].EndFunction?)
    }

    /** The call at `l` is analysed by entering the body of the callee. */
    predicate Descends(l: Loc) {
      && l in code && code[l].FunctionCall? && interprocedural
      && code[l].callee in functions && functions[code[l].callee].Body?
    }

    function Entry(l: Loc): Loc
      requires Descends(l)
    {
      functions[code[l].callee].first
    }

    function Exit(l: Loc): Loc
      requires Descends(l)
    {
      functions[code[l].callee].last
    }

    /** Steps inside one function, calls that are stepped over included. */
    predicate LocalStep(l: Loc, to: Loc) {
      && l in code && to in code
      && match code[l]
         case Local(succs) => to in succs
         case FunctionCall(_) => !Descends(l) && to == l + 1
         case EndFunction => false
    }

    /** The edges of the interprocedural graph; a return edge is taken on
        behalf of the call `caller`. */
    predicate Edge(l: Loc, to: Loc, caller: Option<Loc>) {
      || (LocalStep(l, to) && caller.None?)
      || (Descends(l) && to == Entry(l) && caller.None?)
      || (caller.Some? && Descends(caller.value) && l == Exit(caller.value) && to == caller.value + 1)
    }

    /** `stack` lists call sites, outermost first, that lead to `l`. */
    predicate ValidStack(stack: seq<Loc>, l: Loc) {
      l in code && l in owner &&
      (|stack| > 0 ==>
         var c := stack[|stack| - 1];
         Descends(c) && owner[l] == code[c].callee && ValidStack(stack[..|stack| - 1], c))
    }

    /** What an edge does to the call stack. */
    predicate Flow(l: Loc, stack: seq<Loc>, to: Loc, stack': seq<Loc>) {
      || (LocalStep(l, to) && stack' == stack)
      || (Descends(l) && to == Entry(l) && stack' == stack + [l])
      || (|stack| > 0 && stack' == stack[..|stack| - 1]
          && var c := stack[|stack| - 1]; Descends(c) && l == Exit(c) && to == c + 1)
    }

    /** The call graph is acyclic: `depth` decreases along every entered call. */
    ghost predicate Ranked(depth: Fid -> nat) {
      forall l :: Descends(l) && l in owner ==> depth(code[l].callee) < depth(owner[l])
    }

    ghost predicate Traverses(r: Route, from: Loc, to: Loc) {
      match r
      case Here => to == from
      case Along(prev, l) => Traverses(prev, from, l) && LocalStep(l, to)
      case Past(prev, l, inner) =>
        Traverses(prev, from, l) && Descends(l) && to == l + 1 && Traverses(inner, Entry(l), Exit(l))
    }

    /** There is a way through the callee of the call at `l`. */
    ghost predicate CanReturn(l: Loc)
      requires Descends(l)
    {
      exists r :: Traverses(r, Entry(l), Exit(l))
    }

    /** No live call that can return is part of a recursion: the depth never rises
        along an entered call, and decreases along one that can return. */
    ghost predicate ReturnsRanked(rank: Ranking) {
      && (forall l: Loc, to: Loc :: rank.live(l) && LocalStep(l, to) ==> rank.live(to))
      && (forall l: Loc :: rank.live(l) && Descends(l) ==> rank.live(Entry(l)) && rank.live(l + 1))
      && (forall l: Loc :: rank.live(l) && Descends(l) && l in owner ==>
            && rank.depth(code[l].callee) <= rank.depth(owner[l])
            && (CanReturn(l) ==> rank.depth(code[l].callee) < rank.depth(owner[l])))
    }

    lemma FlowKeepsStacksValid(l: Loc, stack: seq<Loc>, to: Loc, stack': seq<Loc>)
      requires WellFormed() && ValidStack(stack, l) && Flow(l, stack, to, stack')
      ensures ValidStack(stack', to)
    {
      if LocalStep(l, to) && stack' == stack {
        if |stack| > 0 {
          assert owner[to] == owner[l];
        }
      } else if Descends(l) && to == Entry(l) && stack' == stack + [l] {
        assert stack'[..|stack'| - 1] == stack;
      } else {
        var c := stack[|stack| - 1];
        assert owner[c + 1] == owner[c];
      }
    }

    /** In an acyclic program no call site occurs twice on a stack. */
    lemma {:induction false} StackDepths(stack: seq<Loc>, l: Loc, depth: Fid -> nat, i: nat)
      requires WellFormed() && ValidStack(stack, l) && Ranked(depth) && i < |stack|
      ensures stack[i] in owner && depth(owner[l]) < depth(owner[stack[i]])
      decreases |stack|
    {
      var c := stack[|stack| - 1];
      assert depth(code[c].callee) < depth(owner[c]);
      if i < |stack| - 1 {
        StackDepths(stack[..|stack| - 1], c, depth, i);
      }
    }
  }
}
