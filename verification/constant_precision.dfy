/** What constant propagation records, and not only that it is sound: which
    symbols are known after an instruction, and which branches are cut. */
module ConstantPrecision {
  import opened AiSpec
  import opened ConstantExpr
  import opened ConstantDomain
  import opened ConstantSoundness

  /** Apart from `x`, both know the same. */
  ghost predicate SameBut(c: Consts, c': Consts, x: Symbol) {
    forall y :: y != x ==> (y in c' <==> y in c) && (y in c ==> c'[y] == c[y])
  }

  /** A symbol-free expression that may be propagated. */
  predicate Recordable(lang: Lang, e: Expr) {
    Vars(e) == {} && lang.forwards(e)
  }

  // ----- assignments -----

  /** After an assignment a tracked symbol is known if and only if the evaluated
      right-hand side can be recorded; all other symbols keep their constants. */
  lemma AssignRecords(m: Meaning, lang: Lang, d: Values, x: Symbol, rhs: Expr, to: nat)
    requires Simplifies(m, lang.simplify) && SymbolFree(d.consts) && !d.isBottom && Typed(rhs)
    ensures var d', r := TransformF(lang, Assign(x, rhs), to, d), PartialEval(lang.simplify, d.consts, rhs);
            && !d'.isBottom && SameBut(d.consts, d'.consts, x) && (!lang.tracked(x) ==> d' == d)
            && (lang.tracked(x) ==> (x in d'.consts <==> Recordable(lang, r)))
            && (lang.tracked(x) && Vars(rhs) <= d.consts.Keys && lang.forwards(r) ==> x in d'.consts)
            && (lang.tracked(x) && x in d'.consts ==>
                  forall s :: Gamma(m, d, s) ==> Eval(m, d'.consts[x], s) == Eval(m, rhs, s))
  {
    hide Eval, Simplifies, Replace, Typed;
    PartialEvalKeeps(m, lang.simplify, d.consts, rhs);
    forall s | Gamma(m, d, s)
      ensures Eval(m, PartialEval(lang.simplify, d.consts, rhs), s) == Eval(m, rhs, s)
    {
      PartialEvalMeans(m, lang.simplify, d.consts, rhs, s);
    }
  }

  /** With a simplifier that folds, the literal that is recorded is the value. */
  lemma AssignFolds(m: Meaning, lang: Lang, d: Values, x: Symbol, rhs: Expr, to: nat, s: Store)
    requires Simplifies(m, lang.simplify) && Folds(lang.simplify) && SymbolFree(d.consts) && Typed(rhs)
    requires lang.tracked(x) && Vars(rhs) <= d.consts.Keys && (forall v :: lang.forwards(Const(v))) && Gamma(m, d, s)
    ensures var d' := TransformF(lang, Assign(x, rhs), to, d);
            x in d'.consts && d'.consts[x] == Const(Eval(m, rhs, s)) && SameBut(d.consts, d'.consts, x)
  {
    hide Simplifies, Typed;
    KnownFolds(m, lang, d, rhs, s);
    AssignRecords(m, lang, d, x, rhs, to);
  }

  /** A declaration or the end of a scope forgets its symbol and nothing else;
      the remaining instructions change nothing. */
  lemma ScopeForgets(lang: Lang, d: Values, i: Instr, to: nat)
    requires !d.isBottom
    ensures i.Decl? || i.Dead? ==>
              var d' := TransformF(lang, i, to, d);
              !d'.isBottom && i.x !in d'.consts && SameBut(d.consts, d'.consts, i.x)
    ensures i.Skip? || i.EndFunction? ==> TransformF(lang, i, to, d) == d
  {
  }

  // ----- learning from conditions -----

  /** The condition `g` says that `x` has the value of `c`. */
  ghost predicate Fixes(g: Expr, x: Symbol, c: Expr) {
    match g
    case Equal(l, r) => Pairs(l, r, x, c)
    case NotEqual(l, r) => x.isBool && c.Const? && c.v.Bool? && Pairs(l, r, x, Const(Bool(!c.v.b)))
    case Var(y) => x == y && x.isBool && c == Const(Bool(true))
    case Not(Equal(l, r)) => x.isBool && c.Const? && c.v.Bool? && Pairs(l, r, x, Const(Bool(!c.v.b)))
    case Not(NotEqual(l, r)) => Pairs(l, r, x, c)
    case Not(Var(y)) => x == y && x.isBool && c == Const(Bool(false))
    case _ => false
  }

  /** `x` is on one side and `c` on the other. */
  ghost predicate Pairs(l: Expr, r: Expr, x: Symbol, c: Expr) {
    (l == Var(x) && c == r) || (r == Var(x) && c == l)
  }

  ghost predicate IsLearnt(lang: Lang, g: Expr, x: Symbol, c: Expr) {
    lang.tracked(x) && Fixes(g, x, c) && Recordable(lang, lang.simplify(c))
  }

  /** What was known stays, and `x` becomes known as the value of one of the sides
      that can be recorded. */
  ghost predicate LearntFrom(lang: Lang, d: Values, d': Values, g: Expr) {
    && !d'.isBottom && (forall y :: y in d.consts ==> y in d'.consts && d'.consts[y] == d.consts[y])
    && (forall x, c :: x !in d.consts && IsLearnt(lang, g, x, c) ==> x in d'.consts)
    && (forall x :: x in d'.consts && x !in d.consts ==>
          exists c :: IsLearnt(lang, g, x, c) && d'.consts[x] == lang.simplify(c))
  }

  lemma UnknownStays(lang: Lang, d: Values, e: Expr)
    requires SymbolFree(d.consts) && Unknown(d, e)
    ensures PartialEval(lang.simplify, d.consts, e) == lang.simplify(e)
  {
    ReplaceKeeps(d.consts, e);
  }

  lemma AssumeRecords(m: Meaning, lang: Lang, d: Values, l: Expr, r: Expr)
    requires Simplifies(m, lang.simplify) && SymbolFree(d.consts) && !d.isBottom && Typed(r) && Unknown(d, r)
    ensures AssignF(lang, d, l, r, false) ==
            if l.Var? && lang.tracked(l.x) && Recordable(lang, lang.simplify(r)) then SetTo(d, l.x, lang.simplify(r))
            else d
  {
    hide Replace, Typed, SymbolFree;
    UnknownStays(lang, d, r);
    assert Vars(lang.simplify(r)) <= Vars(r);
  }

  /** The other side of an equality is recorded whenever it is a symbol. */
  lemma OtherSide(m: Meaning, lang: Lang, d: Values, l: Expr, r: Expr)
    requires Simplifies(m, lang.simplify) && SymbolFree(d.consts) && !d.isBottom && Typed(l)
    requires Unknown(d, l) && Unknown(d, r)
    ensures (if !IsConstant(lang, d, r) || IsConstant(lang, d, l) then AssignF(lang, d, r, l, false) else d) ==
            if r.Var? && lang.tracked(r.x) && Recordable(lang, lang.simplify(l)) then SetTo(d, r.x, lang.simplify(l))
            else d
  {
    hide Simplifies, AssignF, SymbolFree, Typed;
    AssumeRecords(m, lang, d, r, l);
  }

  lemma BothLearnt(lang: Lang, d: Values, l: Expr, r: Expr, copy: Values, other: Values)
    requires !d.isBottom && Unknown(d, l) && Unknown(d, r)
    requires copy ==
             if l.Var? && lang.tracked(l.x) && Recordable(lang, lang.simplify(r)) then SetTo(d, l.x, lang.simplify(r))
             else d
    requires other ==
             if r.Var? && lang.tracked(r.x) && Recordable(lang, lang.simplify(l)) then SetTo(d, r.x, lang.simplify(l))
             else d
    ensures LearntFrom(lang, d, Values(false, other.consts + copy.consts), Equal(l, r))
  {
    hide Recordable;
    var d' := Values(false, other.consts + copy.consts);
    forall x | x in d'.consts && x !in d.consts
      ensures exists c :: IsLearnt(lang, Equal(l, r), x, c) && d'.consts[x] == lang.simplify(c)
    {
      assert IsLearnt(lang, Equal(l, r), x, if x in copy.consts then r else l);
    }
  }

  lemma EqualLearnt(m: Meaning, lang: Lang, d: Values, l: Expr, r: Expr)
    requires Simplifies(m, lang.simplify) && SymbolFree(d.consts) && !d.isBottom
    requires Typed(l) && Typed(r) && Unknown(d, l) && Unknown(d, r)
    ensures LearntFrom(lang, d, EqualF(lang, d, l, r), Equal(l, r))
  {
    hide Simplifies, AssignF, SymbolFree, Typed, MeetF, LearntFrom, Unknown, IsConstant;
    NoConflict(m, lang, d, l, r);
    AssumeRecords(m, lang, d, l, r);
    OtherSide(m, lang, d, l, r);
    var other := if !IsConstant(lang, d, r) || IsConstant(lang, d, l) then AssignF(lang, d, r, l, false) else d;
    BothLearnt(lang, d, l, r, AssignF(lang, d, l, r, false), other);
  }

  /** Conditions that say the same teach the same. */
  lemma SameFixes(lang: Lang, d: Values, d': Values, g: Expr, g': Expr)
    requires LearntFrom(lang, d, d', g) && forall x, c :: Fixes(g, x, c) <==> Fixes(g', x, c)
    ensures LearntFrom(lang, d, d', g')
  {
    hide Fixes, Recordable;
    forall x, c ensures IsLearnt(lang, g, x, c) <==> IsLearnt(lang, g', x, c) {
    }
  }

  lemma NothingFixed(lang: Lang, d: Values, g: Expr)
    requires !d.isBottom && forall x, c :: !Fixes(g, x, c)
    ensures LearntFrom(lang, d, d, g)
  {
    hide Fixes, Recordable;
  }

  /** An inequality of Booleans. */
  lemma NotEqualLearnt(m: Meaning, lang: Lang, d: Values, l: Expr, r: Expr)
    requires Simplifies(m, lang.simplify) && SymbolFree(d.consts) && !d.isBottom
    requires Typed(l) && Typed(r) && IsBool(l) == IsBool(r) && Unknown(d, l) && Unknown(d, r)
    ensures LearntFrom(lang, d, NotEqualF(lang, d, l, r), NotEqual(l, r))
  {
    hide Simplifies, EqualF, SymbolFree, LearntFrom;
    var swap := l.Const? && !r.Const?;
    var x, c := if swap then r else l, if swap then l else r;
    if x.Const? || !c.Const? || !IsBool(x) {
      NothingFixed(lang, d, NotEqual(l, r));
    } else {
      var b := Const(Bool(c.v == Int(0) || c.v == Bool(false)));
      EqualLearnt(m, lang, d, x, b);
      SameFixes(lang, d, EqualF(lang, d, x, b), Equal(x, b), NotEqual(l, r));
    }
  }

  /** What is learnt from an evaluated condition, for every form it can have: a
      symbol becomes known if and only if the condition fixes it to something that
      can be recorded, and nothing is forgotten. */
  lemma GuardLearnt(m: Meaning, lang: Lang, d: Values, g: Expr)
    requires Simplifies(m, lang.simplify) && SymbolFree(d.consts) && !d.isBottom
    requires Typed(g) && IsBool(g) && Unknown(d, g)
    ensures LearntFrom(lang, d, TwoWayF(lang, d, g), g)
  {
    hide Simplifies, EqualF, NotEqualF, SymbolFree, LearntFrom;
    match g
    case Not(op) => NegationLearnt(m, lang, d, op);
    case Var(x) =>
      EqualLearnt(m, lang, d, g, Const(Bool(true)));
      SameFixes(lang, d, EqualF(lang, d, g, Const(Bool(true))), Equal(g, Const(Bool(true))), g);
    case NotEqual(l, r) => NotEqualLearnt(m, lang, d, l, r);
    case Equal(l, r) => EqualLearnt(m, lang, d, l, r);
    case _ => NothingFixed(lang, d, g);
  }

  lemma NegationLearnt(m: Meaning, lang: Lang, d: Values, op: Expr)
    requires Simplifies(m, lang.simplify) && SymbolFree(d.consts) && !d.isBottom
    requires Typed(op) && IsBool(op) && Unknown(d, op)
    ensures LearntFrom(lang, d, TwoWayF(lang, d, Not(op)), Not(op))
  {
    hide Simplifies, EqualF, NotEqualF, SymbolFree, LearntFrom;
    match op
    case Equal(l, r) =>
      NotEqualLearnt(m, lang, d, l, r);
      SameFixes(lang, d, NotEqualF(lang, d, l, r), NotEqual(l, r), Not(op));
    case NotEqual(l, r) =>
      EqualLearnt(m, lang, d, l, r);
      SameFixes(lang, d, EqualF(lang, d, l, r), Equal(l, r), Not(op));
    case Var(x) =>
      EqualLearnt(m, lang, d, op, Const(Bool(false)));
      SameFixes(lang, d, EqualF(lang, d, op, Const(Bool(false))), Equal(op, Const(Bool(false))), Not(op));
    case _ => NothingFixed(lang, d, Not(op));
  }

  // ----- branches -----

  /** Along the edge to its target a goto learns from its condition, along the other
      edge from the negation. */
  lemma GotoLearns(m: Meaning, lang: Lang, d: Values, i: Instr, to: nat)
    requires Simplifies(m, lang.simplify) && SymbolFree(d.consts) && !d.isBottom && i.Goto? && TypedInstr(i)
    ensures var g := PartialEval(lang.simplify, d.consts, if to == i.target then i.cond else Not(i.cond));
            var d' := TransformF(lang, i, to, d);
            if g == Const(Bool(false)) then d' == BOTTOM else LearntFrom(lang, d, d', g)
  {
    hide Simplifies, TwoWayF, SymbolFree, LearntFrom;
    var guard := if to == i.target then i.cond else Not(i.cond);
    var g := PartialEval(lang.simplify, d.consts, guard);
    PartialEvalKeeps(m, lang.simplify, d.consts, guard);
    GuardLearnt(m, lang, d, g);
  }

  /** If the condition depends on known symbols only, a simplifier that folds cuts
      exactly the edge that no described store takes, and the other edge leaves the
      state alone. */
  lemma KnownBranch(m: Meaning, lang: Lang, d: Values, i: Instr, to: nat, s: Store)
    requires Simplifies(m, lang.simplify) && Folds(lang.simplify) && SymbolFree(d.consts) && Gamma(m, d, s)
    requires i.Goto? && TypedInstr(i) && Vars(i.cond) <= d.consts.Keys
    ensures TransformF(lang, i, to, d) ==
            if (Eval(m, i.cond, s) == Bool(true)) == (to == i.target) then d else BOTTOM
  {
    hide Simplifies, SymbolFree, Folds;
    var guard := if to == i.target then i.cond else Not(i.cond);
    assert Typed(guard) && Vars(guard) == Vars(i.cond);
    KnownFolds(m, lang, d, guard, s);
  }

  lemma KnownFolds(m: Meaning, lang: Lang, d: Values, e: Expr, s: Store)
    requires Simplifies(m, lang.simplify) && Folds(lang.simplify) && SymbolFree(d.consts) && Gamma(m, d, s)
    requires Typed(e) && Vars(e) <= d.consts.Keys
    ensures PartialEval(lang.simplify, d.consts, e) == Const(Eval(m, e, s))
  {
    hide Simplifies, Typed, Vars;
    var r := PartialEval(lang.simplify, d.consts, e);
    ReplaceKeeps(d.consts, e);
    PartialEvalKeeps(m, lang.simplify, d.consts, e);
    assert Vars(r) == {};
    assert r.Const?;
    PartialEvalMeans(m, lang.simplify, d.consts, e, s);
  }

  /** `meet` reports a change if and only if there is one. */
  lemma MeetChanged(d: Values, src: Values)
    ensures MeetF(d, src).changed <==> MeetF(d, src).state != d
  {
    if !src.isBottom && !d.isBottom && !Conflict(d.consts, src.consts) {
      var both := d.consts + src.consts;
      if src.consts.Keys <= d.consts.Keys {
        assert both == d.consts;
      } else {
        var x :| x in src.consts && x !in d.consts;
        assert x in both;
      }
    }
  }
}
