/** The domain of constant propagation: a bottom flag and a map from symbols to
    constants. */
module ConstantDomain {
  import opened AiSpec
  import opened ConstantExpr

  datatype Values = Values(isBottom: bool, consts: Consts)

  const TOP := Values(false, map[])
  const BOTTOM := Values(true, map[])

  /** The simplifier, the user's choice of the symbols to track, and the
      expressions that may be propagated if all their symbols are known. */
  datatype Lang = Lang(simplify: Expr -> Expr, tracked: Symbol -> bool, forwards: Expr -> bool)

  function SetTo(d: Values, x: Symbol, e: Expr): Values {
    Values(false, d.consts[x := e])
  }

  function Forget(d: Values, x: Symbol): Values {
    d.(consts := d.consts - {x})
  }

  /** Built from known constants only, with operators that may be propagated. */
  predicate IsConstant(lang: Lang, d: Values, e: Expr) {
    Vars(e) <= d.consts.Keys && lang.forwards(e)
  }

  /** Record an assignment, or with `isAssignment` false an equality that is
      known to hold, which never forgets anything. */
  function AssignF(lang: Lang, d: Values, lhs: Expr, rhs: Expr, isAssignment: bool): Values {
    if lhs.Var? then
      if !lang.tracked(lhs.x) then
        d
      else
        var tmp := PartialEval(lang.simplify, d.consts, rhs);
        if IsConstant(lang, d, tmp) then SetTo(d, lhs.x, tmp) else if isAssignment then Forget(d, lhs.x) else d
    else if isAssignment then
      TOP
    else
      d
  }

  /** Keep what both states agree on. */
  function Common(c: Consts, src: Consts): Consts {
    map x | x in c && x in src && src[x] == c[x] :: c[x]
  }

  function MergeF(d: Values, src: Values): Join<Values> {
    if src.isBottom then
      Join(d, false)
    else if d.isBottom then
      Join(src, true)
    else
      var kept := Common(d.consts, src.consts);
      Join(Values(false, kept), kept != d.consts)
  }

  predicate Conflict(c: Consts, src: Consts) {
    exists x :: x in src && x in c && c[x] != src[x]
  }

  function MeetF(d: Values, src: Values): Join<Values> {
    if src.isBottom || d.isBottom then
      Join(d, false)
    else if Conflict(d.consts, src.consts) then
      Join(BOTTOM, true)
    else
      Join(Values(false, d.consts + src.consts), !(src.consts.Keys <= d.consts.Keys))
  }

  // ----- learning from branch conditions -----

  /** Learn from `l == r` in both directions. */
  function EqualF(lang: Lang, d: Values, l: Expr, r: Expr): Values {
    var copy := AssignF(lang, d, l, r, false);
    var other := if !IsConstant(lang, d, r) || IsConstant(lang, d, l) then AssignF(lang, d, r, l, false) else d;
    MeetF(other, copy).state
  }

  /** A boolean that differs from a constant equals the other constant. */
  function NotEqualF(lang: Lang, d: Values, l0: Expr, r0: Expr): Values {
    var swap := l0.Const? && !r0.Const?;
    var l, r := if swap then r0 else l0, if swap then l0 else r0;
    if l.Const? || !r.Const? || !IsBool(l) then
      d
    else
      EqualF(lang, d, l, Const(Bool(r.v == Int(0) || r.v == Bool(false))))
  }

  function TwoWayF(lang: Lang, d: Values, e: Expr): Values {
    match e
    case Not(Equal(l, r)) => NotEqualF(lang, d, l, r)
    case Not(NotEqual(l, r)) => EqualF(lang, d, l, r)
    case Not(Var(x)) => EqualF(lang, d, Var(x), Const(Bool(false)))
    case Var(x) => if x.isBool then EqualF(lang, d, e, Const(Bool(true))) else d
    case NotEqual(l, r) => NotEqualF(lang, d, l, r)
    case Equal(l, r) => EqualF(lang, d, l, r)
    case _ => d
  }

  // ----- instructions -----

  datatype Instr =
    | Decl(x: Symbol)
    | Assign(x: Symbol, rhs: Expr)
    | Goto(target: nat, cond: Expr)
    | Dead(x: Symbol)
    | Skip
    | EndFunction

  function Guard(i: Instr, to: nat): Expr
    requires i.Goto?
  {
    if i.target == to then i.cond else Not(i.cond)
  }

  function TransformF(lang: Lang, i: Instr, to: nat, d: Values): Values {
    if d.isBottom then
      d
    else
      match i
      case Decl(x) => Forget(d, x)
      case Assign(x, rhs) => AssignF(lang, d, Var(x), rhs, true)
      case Goto(_, _) =>
        var g := PartialEval(lang.simplify, d.consts, Guard(i, to));
        if g == Const(Bool(false)) then BOTTOM else TwoWayF(lang, d, g)
      case Dead(x) => Forget(d, x)
      case _ => d
  }

  /** The state object, updated in place. */
  class ValueMap {
    var isBottom: bool
    var consts: Consts

    function State(): Values
      reads this
    {
      Values(isBottom, consts)
    }

    constructor Copy(d: Values)
      ensures State() == d
    {
      isBottom, consts := d.isBottom, d.consts;
    }

    method SetToBottom()
      modifies this
      ensures State() == BOTTOM
    {
      isBottom, consts := true, map[];
    }

    method SetToTop()
      modifies this
      ensures State() == TOP
    {
      isBottom, consts := false, map[];
    }

    method Merge(src: Values) returns (changed: bool)
      modifies this
      ensures Join(State(), changed) == MergeF(old(State()), src)
    {
      if src.isBottom {
        return false;
      }
      if isBottom {
        consts, isBottom := src.consts, false;
        return true;
      }
      changed := false;
      if src.consts == map[] {
        changed := consts != map[];
        SetToTop();
        assert Common(old(consts), src.consts) == map[];
        return;
      }
      var rest := consts.Keys;
      while rest != {}
        invariant !isBottom && rest <= consts.Keys <= old(consts).Keys
        invariant forall x :: x in consts ==> consts[x] == old(consts[x])
        invariant forall x :: x in old(consts).Keys - rest ==>
                    (x in consts <==> x in src.consts && src.consts[x] == old(consts[x]))
        invariant changed <==> consts != old(consts)
        decreases rest
      {
        var x :| x in rest;
        rest := rest - {x};
        if x !in src.consts || consts[x] != src.consts[x] {
          consts := consts - {x};
          changed := true;
          assert x in old(consts) && x !in consts;
        }
      }
      assert consts == Common(old(consts), src.consts);
    }

    method Meet(src: Values) returns (changed: bool)
      modifies this
      ensures Join(State(), changed) == MeetF(old(State()), src)
    {
      if src.isBottom || isBottom {
        return false;
      }
      changed := false;
      var rest := src.consts.Keys;
      while rest != {}
        invariant !isBottom && rest <= src.consts.Keys
        invariant consts == old(consts) + map x | x in src.consts.Keys - rest :: src.consts[x]
        invariant forall x :: x in src.consts.Keys - rest && x in old(consts) ==> old(consts[x]) == src.consts[x]
        invariant changed <==> !((src.consts.Keys - rest) <= old(consts).Keys)
        decreases rest
      {
        var x :| x in rest;
        rest := rest - {x};
        if x in consts {
          assert x in old(consts);
          if consts[x] != src.consts[x] {
            assert Conflict(old(consts), src.consts);
            SetToBottom();
            return true;
          }
        } else {
          assert x !in old(consts);
          consts, isBottom := consts[x := src.consts[x]], false;
          changed := true;
        }
      }
      assert src.consts.Keys - rest == src.consts.Keys;
      assert (map x | x in src.consts.Keys - rest :: src.consts[x]) == src.consts;
    }

    method AssignRec(ghost m: Meaning, lang: Lang, lhs: Expr, rhs: Expr, isAssignment: bool)
      requires Simplifies(m, lang.simplify) && SymbolFree(consts)
      modifies this
      ensures State() == AssignF(lang, old(State()), lhs, rhs, isAssignment)
      ensures !lhs.Var? ==> State() == if isAssignment then TOP else old(State())
    {
      if lhs.Var? {
        if !lang.tracked(lhs.x) {
          return;
        }
        var tmp, same := ReplaceConstantsAndSimplify(m, lang.simplify, consts, rhs);
        if IsConstant(lang, State(), tmp) {
          consts, isBottom := consts[lhs.x := tmp], false;
        } else if isAssignment {
          consts := consts - {lhs.x};
        }
      } else if isAssignment {
        SetToTop();
      }
    }

    method LearnEqual(ghost m: Meaning, lang: Lang, l: Expr, r: Expr)
      requires Simplifies(m, lang.simplify) && SymbolFree(consts)
      modifies this
      ensures State() == EqualF(lang, old(State()), l, r)
    {
      hide AssignF, MeetF, Simplifies, SymbolFree, IsConstant;
      var copy := new ValueMap.Copy(State());
      copy.AssignRec(m, lang, l, r, false);
      if !IsConstant(lang, State(), r) || IsConstant(lang, State(), l) {
        AssignRec(m, lang, r, l, false);
      }
      var changed := Meet(copy.State());
    }

    method TwoWayPropagate(ghost m: Meaning, lang: Lang, e: Expr)
      requires Simplifies(m, lang.simplify) && SymbolFree(consts)
      modifies this
      ensures State() == TwoWayF(lang, old(State()), e)
      decreases if e.Not? then 2 else if e.Var? then 1 else 0
    {
      match e
      case Not(Equal(l, r)) => TwoWayPropagate(m, lang, NotEqual(l, r));
      case Not(NotEqual(l, r)) => TwoWayPropagate(m, lang, Equal(l, r));
      case Not(Var(x)) => TwoWayPropagate(m, lang, Equal(Var(x), Const(Bool(false))));
      case Var(x) =>
        if x.isBool {
          TwoWayPropagate(m, lang, Equal(e, Const(Bool(true))));
        }
      case NotEqual(l0, r0) =>
        var l, r := l0, r0;
        if l.Const? && !r.Const? {
          l, r := r, l;
        }
        if !l.Const? && r.Const? && IsBool(l) {
          LearnEqual(m, lang, l, Const(Bool(r.v == Int(0) || r.v == Bool(false))));
        }
      case Equal(l, r) => LearnEqual(m, lang, l, r);
      case _ =>
    }

    method Transform(ghost m: Meaning, lang: Lang, i: Instr, to: nat)
      requires Simplifies(m, lang.simplify) && SymbolFree(consts)
      modifies this
      ensures State() == TransformF(lang, i, to, old(State()))
    {
      if isBottom {
        return;
      }
      match i
      case Decl(x) => consts := consts - {x};
      case Assign(x, rhs) => AssignRec(m, lang, Var(x), rhs, true);
      case Goto(target, cond) =>
        var guard := if target == to then cond else Not(cond);
        var g, same := ReplaceConstantsAndSimplify(m, lang.simplify, consts, guard);
        if g == Const(Bool(false)) {
          SetToBottom();
        } else {
          TwoWayPropagate(m, lang, g);
        }
      case Dead(x) => consts := consts - {x};
      case _ =>
    }
  }
}
