/** The transformer of constant propagation is sound for every instruction. */
module ConstantSoundness {
  import opened ConstantExpr
  import opened ConstantDomain

  /** The stores that a state stands for. */
  ghost predicate Gamma(m: Meaning, d: Values, s: Store) {
    !d.isBottom && TypedStore(s) && Agrees(m, d.consts, s)
  }

  /** Known constants are symbol-free and belong to tracked symbols of `vars`;
      bottom knows nothing. */
  ghost predicate ValidValues(lang: Lang, vars: set<Symbol>, d: Values) {
    && SymbolFree(d.consts) && d.consts.Keys <= vars && (forall x :: x in d.consts ==> lang.tracked(x))
    && (d.isBottom ==> d == BOTTOM)
  }

  /** Execution of one instruction at `l`. */
  ghost predicate Executes(m: Meaning, i: Instr, l: nat, s: Store, to: nat, s': Store) {
    match i
    case Decl(x) => to == l + 1 && exists v: Val :: (v.Bool? <==> x.isBool) && s' == s[x := v]
    case Assign(x, rhs) => to == l + 1 && s' == s[x := Eval(m, rhs, s)]
    case Goto(target, cond) => s' == s && to == if Eval(m, cond, s) == Bool(true) then target else l + 1
    case Dead(x) => to == l + 1 && exists v: Val :: (v.Bool? <==> x.isBool) && s' == s[x := v]
    case Skip => to == l + 1 && s' == s
    case EndFunction => false
  }

  ghost predicate TypedInstr(i: Instr) {
    match i
    case Assign(x, rhs) => Typed(rhs) && IsBool(rhs) == x.isBool
    case Goto(_, cond) => Typed(cond) && IsBool(cond)
    case _ => true
  }

  function InstrVars(i: Instr): set<Symbol> {
    match i
    case Assign(x, rhs) => {x} + Vars(rhs)
    case Goto(_, cond) => Vars(cond)
    case _ => {}
  }

  lemma ClosedEval(m: Meaning, e: Expr, s: Store, t: Store)
    requires Vars(e) == {}
    ensures Eval(m, e, s) == Eval(m, e, t)
  {
    EvalDependsOnVars(m, e, s, t);
  }

  /** Changing one symbol keeps the other constants. */
  lemma AgreesElsewhere(m: Meaning, c: Consts, s: Store, x: Symbol, v: Val)
    requires SymbolFree(c) && Agrees(m, c, s)
    ensures Agrees(m, c - {x}, s[x := v])
  {
    forall y | y in c - {x} ensures Eval(m, (c - {x})[y], s[x := v]) == Get(s[x := v], y) {
      ClosedEval(m, c[y], s, s[x := v]);
    }
  }

  /** What an assignment evaluates to: a constant is symbol-free. */
  lemma EvaluatedConstant(m: Meaning, lang: Lang, d: Values, e: Expr)
    requires Simplifies(m, lang.simplify) && SymbolFree(d.consts) && Typed(e)
    ensures var tmp := PartialEval(lang.simplify, d.consts, e);
            Typed(tmp) && IsBool(tmp) == IsBool(e) && (IsConstant(lang, d, tmp) ==> Vars(tmp) == {})
  {
    PartialEvalKeeps(m, lang.simplify, d.consts, e);
  }

  lemma ValidClosed(lang: Lang, vars: set<Symbol>, d: Values)
    requires ValidValues(lang, vars, d)
    ensures SymbolFree(d.consts)
  {
  }

  lemma SetValid(lang: Lang, vars: set<Symbol>, d: Values, x: Symbol, e: Expr)
    requires ValidValues(lang, vars, d) && !d.isBottom && lang.tracked(x) && x in vars
    requires Vars(e) == {} && Typed(e) && IsBool(e) == x.isBool
    ensures ValidValues(lang, vars, SetTo(d, x, e))
  {
    hide Vars, Typed, IsBool;
  }

  lemma ForgetValid(lang: Lang, vars: set<Symbol>, d: Values, x: Symbol)
    requires ValidValues(lang, vars, d) && !d.isBottom
    ensures ValidValues(lang, vars, Forget(d, x)) && ValidValues(lang, vars, TOP)
  {
    hide Vars, Typed, IsBool;
  }

  lemma AssignValid(m: Meaning, lang: Lang, vars: set<Symbol>, d: Values, lhs: Expr, rhs: Expr, isAssignment: bool)
    requires Simplifies(m, lang.simplify) && ValidValues(lang, vars, d) && !d.isBottom
    requires Typed(rhs) && IsBool(lhs) == IsBool(rhs) && (lhs.Var? ==> lhs.x in vars)
    ensures ValidValues(lang, vars, AssignF(lang, d, lhs, rhs, isAssignment))
    ensures !AssignF(lang, d, lhs, rhs, isAssignment).isBottom
  {
    hide Simplifies, PartialEval, Typed, Vars, SymbolFree, ValidValues;
    assert SymbolFree(d.consts) by {
      ValidClosed(lang, vars, d);
    }
    EvaluatedConstant(m, lang, d, rhs);
    if lhs.Var? {
      ForgetValid(lang, vars, d, lhs.x);
      var tmp := PartialEval(lang.simplify, d.consts, rhs);
      if lang.tracked(lhs.x) && IsConstant(lang, d, tmp) {
        SetValid(lang, vars, d, lhs.x, tmp);
      }
    } else {
      ForgetValid(lang, vars, d, Symbol("", false));
    }
  }

  /** A real assignment. */
  lemma AssignSound(m: Meaning, lang: Lang, vars: set<Symbol>, d: Values, x: Symbol, rhs: Expr, s: Store)
    requires Simplifies(m, lang.simplify) && ValidValues(lang, vars, d) && Gamma(m, d, s)
    requires Typed(rhs) && IsBool(rhs) == x.isBool
    ensures Gamma(m, AssignF(lang, d, Var(x), rhs, true), s[x := Eval(m, rhs, s)])
  {
    var v := Eval(m, rhs, s);
    EvalTyped(m, rhs, s);
    AgreesElsewhere(m, d.consts, s, x, v);
    var tmp := PartialEval(lang.simplify, d.consts, rhs);
    EvaluatedConstant(m, lang, d, rhs);
    PartialEvalMeans(m, lang.simplify, d.consts, rhs, s);
    if IsConstant(lang, d, tmp) {
      ClosedEval(m, tmp, s, s[x := v]);
    }
    assert !lang.tracked(x) ==> d.consts - {x} == d.consts;
  }

  /** An equality that holds. */
  lemma AssumeSound(m: Meaning, lang: Lang, d: Values, lhs: Expr, rhs: Expr, s: Store)
    requires Simplifies(m, lang.simplify) && SymbolFree(d.consts) && Gamma(m, d, s)
    requires Typed(rhs) && Eval(m, lhs, s) == Eval(m, rhs, s)
    ensures Gamma(m, AssignF(lang, d, lhs, rhs, false), s)
  {
    PartialEvalMeans(m, lang.simplify, d.consts, rhs, s);
  }

  // ----- learning from branch conditions -----

  /** No symbol of `e` is known. */
  ghost predicate Unknown(d: Values, e: Expr) {
    Vars(e) !! d.consts.Keys
  }

  /** Learning from an equality between unknown symbols adds at most one constant
      on each side, never for the same symbol, so the meet finds no conflict. */
  lemma NoConflict(m: Meaning, lang: Lang, d: Values, l: Expr, r: Expr)
    requires Simplifies(m, lang.simplify) && SymbolFree(d.consts) && !d.isBottom
    requires Typed(l) && Typed(r) && Unknown(d, l) && Unknown(d, r)
    ensures var copy := AssignF(lang, d, l, r, false);
            var other := if !IsConstant(lang, d, r) || IsConstant(lang, d, l) then AssignF(lang, d, r, l, false) else d;
            !copy.isBottom && !other.isBottom && !Conflict(other.consts, copy.consts)
            && EqualF(lang, d, l, r) == Values(false, other.consts + copy.consts)
  {
    EvaluatedConstant(m, lang, d, l);
    EvaluatedConstant(m, lang, d, r);
    var copy := AssignF(lang, d, l, r, false);
    var other := if !IsConstant(lang, d, r) || IsConstant(lang, d, l) then AssignF(lang, d, r, l, false) else d;
    forall x | x in other.consts && x in copy.consts ensures other.consts[x] == copy.consts[x] {
      if x !in d.consts {
        assert l == Var(x) && r == Var(x);
        VarNotConstant(m, lang, d, x);
      }
    }
  }

  /** Two equal variables teach nothing. */
  lemma VarNotConstant(m: Meaning, lang: Lang, d: Values, x: Symbol)
    requires Simplifies(m, lang.simplify) && SymbolFree(d.consts) && x !in d.consts
    ensures !IsConstant(lang, d, PartialEval(lang.simplify, d.consts, Var(x)))
  {
    var r := PartialEval(lang.simplify, d.consts, Var(x));
    assert Replace(d.consts, Var(x)) == Var(x);
    EvaluatedConstant(m, lang, d, Var(x));
    if IsConstant(lang, d, r) {
      var v, w := if x.isBool then Bool(true) else Int(1), if x.isBool then Bool(false) else Int(0);
      var s: Store := map[x := v];
      var t: Store := map[x := w];
      assert r == lang.simplify(Var(x)) && TypedStore(s) && TypedStore(t);
      assert Eval(m, r, s) == v;
      assert Eval(m, r, t) == w;
      ClosedEval(m, r, s, t);
    }
  }

  lemma EqualSound(m: Meaning, lang: Lang, d: Values, l: Expr, r: Expr, s: Store)
    requires Simplifies(m, lang.simplify) && SymbolFree(d.consts) && Gamma(m, d, s)
    requires Typed(l) && Typed(r) && Unknown(d, l) && Unknown(d, r) && Eval(m, l, s) == Eval(m, r, s)
    ensures Gamma(m, EqualF(lang, d, l, r), s)
  {
    NoConflict(m, lang, d, l, r);
    AssumeSound(m, lang, d, l, r, s);
    AssumeSound(m, lang, d, r, l, s);
  }

  lemma EqualValid(m: Meaning, lang: Lang, vars: set<Symbol>, d: Values, l: Expr, r: Expr)
    requires Simplifies(m, lang.simplify) && ValidValues(lang, vars, d) && !d.isBottom
    requires Typed(l) && Typed(r) && IsBool(l) == IsBool(r) && Vars(l) + Vars(r) <= vars
    requires Unknown(d, l) && Unknown(d, r)
    ensures ValidValues(lang, vars, EqualF(lang, d, l, r))
  {
    hide Simplifies, PartialEval, AssignF, EqualF, Typed, IsBool;
    NoConflict(m, lang, d, l, r);
    AssignValid(m, lang, vars, d, l, r, false);
    AssignValid(m, lang, vars, d, r, l, false);
  }

  lemma NotEqualSound(m: Meaning, lang: Lang, d: Values, l: Expr, r: Expr, s: Store)
    requires Simplifies(m, lang.simplify) && SymbolFree(d.consts) && Gamma(m, d, s)
    requires Typed(l) && Typed(r) && IsBool(l) == IsBool(r) && Unknown(d, l) && Unknown(d, r)
    requires Eval(m, l, s) != Eval(m, r, s)
    ensures Gamma(m, NotEqualF(lang, d, l, r), s)
  {
    EvalTyped(m, l, s);
    EvalTyped(m, r, s);
    var swap := l.Const? && !r.Const?;
    var x, c := if swap then r else l, if swap then l else r;
    if !x.Const? && c.Const? && IsBool(x) {
      EqualSound(m, lang, d, x, Const(Bool(c.v == Int(0) || c.v == Bool(false))), s);
    }
  }

  lemma NotEqualValid(m: Meaning, lang: Lang, vars: set<Symbol>, d: Values, l: Expr, r: Expr)
    requires Simplifies(m, lang.simplify) && ValidValues(lang, vars, d) && !d.isBottom
    requires Typed(l) && Typed(r) && IsBool(l) == IsBool(r) && Vars(l) + Vars(r) <= vars
    requires Unknown(d, l) && Unknown(d, r)
    ensures ValidValues(lang, vars, NotEqualF(lang, d, l, r))
  {
    var swap := l.Const? && !r.Const?;
    var x, c := if swap then r else l, if swap then l else r;
    if !x.Const? && c.Const? && IsBool(x) {
      EqualValid(m, lang, vars, d, x, Const(Bool(c.v == Int(0) || c.v == Bool(false))));
    }
  }

  /** A branch condition that holds is never learnt wrongly. */
  lemma TwoWaySound(m: Meaning, lang: Lang, d: Values, e: Expr, s: Store)
    requires Simplifies(m, lang.simplify) && SymbolFree(d.consts) && Gamma(m, d, s)
    requires Typed(e) && Unknown(d, e) && Eval(m, e, s) == Bool(true)
    ensures Gamma(m, TwoWayF(lang, d, e), s)
  {
    hide EqualF, NotEqualF, Simplifies;
    match e
    case Not(Equal(l, r)) =>
      assert Typed(Equal(l, r)) && Vars(e) == Vars(Equal(l, r));
      assert Eval(m, Equal(l, r), s) == Bool(Eval(m, l, s) == Eval(m, r, s));
      NotEqualSound(m, lang, d, l, r, s);
    case Not(NotEqual(l, r)) =>
      assert Typed(NotEqual(l, r)) && Vars(e) == Vars(NotEqual(l, r));
      assert Eval(m, NotEqual(l, r), s) == Bool(Eval(m, l, s) != Eval(m, r, s));
      EqualSound(m, lang, d, l, r, s);
    case Not(Var(x)) =>
      EvalTyped(m, Var(x), s);
      EqualSound(m, lang, d, Var(x), Const(Bool(false)), s);
    case Var(x) =>
      if x.isBool {
        EqualSound(m, lang, d, e, Const(Bool(true)), s);
      }
    case NotEqual(l, r) => NotEqualSound(m, lang, d, l, r, s);
    case Equal(l, r) => EqualSound(m, lang, d, l, r, s);
    case _ =>
  }

  lemma TwoWayValid(m: Meaning, lang: Lang, vars: set<Symbol>, d: Values, e: Expr)
    requires Simplifies(m, lang.simplify) && ValidValues(lang, vars, d) && !d.isBottom
    requires Typed(e) && Unknown(d, e) && Vars(e) <= vars
    ensures ValidValues(lang, vars, TwoWayF(lang, d, e))
  {
    hide EqualF, NotEqualF, Simplifies;
    match e
    case Not(Equal(l, r)) => NotEqualValid(m, lang, vars, d, l, r);
    case Not(NotEqual(l, r)) => EqualValid(m, lang, vars, d, l, r);
    case Not(Var(x)) => EqualValid(m, lang, vars, d, Var(x), Const(Bool(false)));
    case Var(x) =>
      if x.isBool {
        EqualValid(m, lang, vars, d, e, Const(Bool(true)));
      }
    case NotEqual(l, r) => NotEqualValid(m, lang, vars, d, l, r);
    case Equal(l, r) => EqualValid(m, lang, vars, d, l, r);
    case _ =>
  }

  // ----- the transformer -----

  lemma TransformValid(m: Meaning, lang: Lang, vars: set<Symbol>, i: Instr, to: nat, d: Values)
    requires Simplifies(m, lang.simplify) && ValidValues(lang, vars, d) && TypedInstr(i) && InstrVars(i) <= vars
    ensures ValidValues(lang, vars, TransformF(lang, i, to, d))
  {
    hide TwoWayF, AssignF, Simplifies;
    if !d.isBottom {
      match i
      case Assign(x, rhs) => AssignValid(m, lang, vars, d, Var(x), rhs, true);
      case Goto(_, cond) =>
        PartialEvalKeeps(m, lang.simplify, d.consts, Guard(i, to));
        var g := PartialEval(lang.simplify, d.consts, Guard(i, to));
        TwoWayValid(m, lang, vars, d, g);
      case _ =>
    }
  }

  /** Every concrete step is covered, except that for a goto to its own next
      instruction the condition must hold or nothing be learnt. */
  lemma TransformSound(
    m: Meaning, lang: Lang, vars: set<Symbol>, i: Instr, l: nat, to: nat, d: Values, s: Store, s': Store)
    requires Simplifies(m, lang.simplify) && ValidValues(lang, vars, d) && TypedInstr(i)
    requires Gamma(m, d, s) && Executes(m, i, l, s, to, s')
    requires i.Goto? && i.target == l + 1 ==> Eval(m, i.cond, s) == Bool(true) || TransformF(lang, i, to, d) == d
    ensures Gamma(m, TransformF(lang, i, to, d), s')
  {
    hide TwoWayF, AssignF, Simplifies;
    if TransformF(lang, i, to, d) == d && i.Goto? {
      return;
    }
    match i
    case Decl(x) =>
      var v: Val :| (v.Bool? <==> x.isBool) && s' == s[x := v];
      AgreesElsewhere(m, d.consts, s, x, v);
    case Dead(x) =>
      var v: Val :| (v.Bool? <==> x.isBool) && s' == s[x := v];
      AgreesElsewhere(m, d.consts, s, x, v);
    case Assign(x, rhs) => AssignSound(m, lang, vars, d, x, rhs, s);
    case Goto(_, cond) =>
      EvalTyped(m, cond, s);
      var guard := Guard(i, to);
      assert Eval(m, guard, s) == Bool(true);
      PartialEvalKeeps(m, lang.simplify, d.consts, guard);
      PartialEvalMeans(m, lang.simplify, d.consts, guard, s);
      TwoWaySound(m, lang, d, PartialEval(lang.simplify, d.consts, guard), s);
    case Skip =>
  }

  lemma MergeSound(m: Meaning, d: Values, e: Values, s: Store)
    requires Gamma(m, d, s) || Gamma(m, e, s)
    ensures Gamma(m, MergeF(d, e).state, s)
  {
  }

  /** Less is known in a larger state. */
  ghost predicate Leq(d: Values, e: Values) {
    d.isBottom || (!e.isBottom && forall x :: x in e.consts ==> x in d.consts && d.consts[x] == e.consts[x])
  }

  /** The merge is the join of this order, and reports exactly the changes. */
  lemma MergeIsJoin(d: Values, e: Values, u: Values)
    requires d.isBottom ==> d == BOTTOM
    ensures Leq(d, MergeF(d, e).state) && Leq(e, MergeF(d, e).state)
    ensures Leq(d, u) && Leq(e, u) ==> Leq(MergeF(d, e).state, u)
    ensures MergeF(d, e).changed <==> MergeF(d, e).state != d
  {
    if !d.isBottom && !e.isBottom {
      var kept := Common(d.consts, e.consts);
      assert forall x :: x in kept ==> x in d.consts && x in e.consts;
    }
  }

  /** The meet is the intersection of what the two states stand for, except that a
      bottom argument is ignored and that different expressions for a symbol count
      as a contradiction, even if they have the same value. */
  lemma MeetExact(m: Meaning, d: Values, e: Values, s: Store)
    ensures Gamma(m, MeetF(d, e).state, s) <==>
            Gamma(m, d, s) && (e.isBottom || (Gamma(m, e, s) && !Conflict(d.consts, e.consts)))
  {
    if !d.isBottom && !e.isBottom && !Conflict(d.consts, e.consts) {
      var both := d.consts + e.consts;
      assert forall x :: x in d.consts ==> x in both && both[x] == d.consts[x];
    }
  }

  /** Two expressions with the same value that meet in bottom. */
  lemma MeetLoses(m: Meaning, x: Symbol, s: Store) returns (d: Values, e: Values)
    requires x.isBool && TypedStore(s) && Get(s, x) == Bool(true)
    ensures SymbolFree(d.consts) && SymbolFree(e.consts) && Gamma(m, d, s) && Gamma(m, e, s)
    ensures MeetF(d, e).state == BOTTOM
  {
    d := Values(false, map[x := Not(Const(Bool(false)))]);
    e := Values(false, map[x := Const(Bool(true))]);
    assert x in e.consts && d.consts[x] != e.consts[x];
    assert Eval(m, Const(Bool(false)), s) == Bool(false);
    assert Eval(m, Not(Const(Bool(false))), s) == Bool(true);
  }

  ghost predicate Literals(c: Consts) {
    forall x :: x in c ==> c[x].Const?
  }

  /** On literals the meet is the intersection, bottom arguments aside. */
  lemma MeetOfLiterals(m: Meaning, d: Values, e: Values, s: Store)
    requires Literals(d.consts) && Literals(e.consts)
    ensures Gamma(m, MeetF(d, e).state, s) <==> Gamma(m, d, s) && (e.isBottom || Gamma(m, e, s))
  {
    MeetExact(m, d, e, s);
    if !d.isBottom && !e.isBottom && Conflict(d.consts, e.consts) {
      var x :| x in e.consts && x in d.consts && d.consts[x] != e.consts[x];
      assert Eval(m, d.consts[x], s) != Eval(m, e.consts[x], s);
    }
  }

  // ----- a simplifier that folds -----

  /** A result without symbols is a literal. */
  ghost predicate Folds(simplify: Expr -> Expr) {
    forall e :: Typed(e) && Vars(simplify(e)) == {} ==> simplify(e).Const?
  }

  lemma AssignLiteral(m: Meaning, lang: Lang, d: Values, lhs: Expr, rhs: Expr, isAssignment: bool)
    requires Simplifies(m, lang.simplify) && Folds(lang.simplify) && Typed(rhs)
    requires SymbolFree(d.consts) && Literals(d.consts)
    ensures Literals(AssignF(lang, d, lhs, rhs, isAssignment).consts)
  {
    hide Simplifies, Vars, SymbolFree;
    EvaluatedConstant(m, lang, d, rhs);
    ReplaceKeeps(d.consts, rhs);
  }

  lemma EqualLiteral(m: Meaning, lang: Lang, d: Values, l: Expr, r: Expr)
    requires Simplifies(m, lang.simplify) && Folds(lang.simplify) && Typed(l) && Typed(r)
    requires SymbolFree(d.consts) && Literals(d.consts)
    ensures Literals(EqualF(lang, d, l, r).consts)
  {
    hide AssignF, Simplifies, Folds, SymbolFree;
    AssignLiteral(m, lang, d, l, r, false);
    AssignLiteral(m, lang, d, r, l, false);
  }

  lemma TwoWayLiteral(m: Meaning, lang: Lang, d: Values, e: Expr)
    requires Simplifies(m, lang.simplify) && Folds(lang.simplify) && Typed(e)
    requires SymbolFree(d.consts) && Literals(d.consts)
    ensures Literals(TwoWayF(lang, d, e).consts)
  {
    hide EqualF, Simplifies, Folds, SymbolFree, Literals;
    match e
    case Not(Equal(l, r)) => NotEqualLiteral(m, lang, d, l, r);
    case Not(NotEqual(l, r)) => EqualLiteral(m, lang, d, l, r);
    case Not(Var(x)) => EqualLiteral(m, lang, d, Var(x), Const(Bool(false)));
    case Var(x) => EqualLiteral(m, lang, d, e, Const(Bool(true)));
    case NotEqual(l, r) => NotEqualLiteral(m, lang, d, l, r);
    case Equal(l, r) => EqualLiteral(m, lang, d, l, r);
    case _ =>
  }

  lemma NotEqualLiteral(m: Meaning, lang: Lang, d: Values, l: Expr, r: Expr)
    requires Simplifies(m, lang.simplify) && Folds(lang.simplify) && Typed(l) && Typed(r)
    requires SymbolFree(d.consts) && Literals(d.consts)
    ensures Literals(NotEqualF(lang, d, l, r).consts)
  {
    hide EqualF, Simplifies, Folds, SymbolFree, Literals;
    var swap := l.Const? && !r.Const?;
    var x, c := if swap then r else l, if swap then l else r;
    if c.Const? {
      EqualLiteral(m, lang, d, x, Const(Bool(c.v == Int(0) || c.v == Bool(false))));
    }
  }

  /** With such a simplifier only literals are ever stored, so that the meet is
      always the intersection. */
  lemma LiteralsKept(m: Meaning, lang: Lang, i: Instr, to: nat, d: Values, e: Values)
    requires Simplifies(m, lang.simplify) && Folds(lang.simplify) && TypedInstr(i)
    requires SymbolFree(d.consts) && Literals(d.consts) && Literals(e.consts)
    ensures Literals(TransformF(lang, i, to, d).consts) && Literals(MergeF(d, e).state.consts)
  {
    hide TwoWayF, AssignF, Simplifies, Folds, SymbolFree;
    match i
    case Assign(x, rhs) => AssignLiteral(m, lang, d, Var(x), rhs, true);
    case Goto(_, _) =>
      PartialEvalKeeps(m, lang.simplify, d.consts, Guard(i, to));
      TwoWayLiteral(m, lang, d, PartialEval(lang.simplify, d.consts, Guard(i, to)));
    case _ =>
  }

  // ----- a goto to its own next instruction -----

  /** The transformer covers all steps of `i` at `l`. */
  ghost predicate SoundAt(m: Meaning, lang: Lang, vars: set<Symbol>, i: Instr, l: nat) {
    forall to, d, s, s' :: ValidValues(lang, vars, d) && Gamma(m, d, s) && Executes(m, i, l, s, to, s') ==>
      Gamma(m, TransformF(lang, i, to, d), s')
  }

  /** If the goto leads to its own next instruction, nothing is learnt from its
      condition in a state that describes a store in which it is false. */
  ghost predicate NothingLearnt(m: Meaning, lang: Lang, vars: set<Symbol>, i: Instr, l: nat)
    requires i.Goto?
  {
    i.target == l + 1 ==>
    forall d, s :: ValidValues(lang, vars, d) && Gamma(m, d, s) && Eval(m, i.cond, s) != Bool(true) ==>
      TransformF(lang, i, l + 1, d) == d
  }

  /** Learning from an equality is all or nothing: if anything is learnt, a store
      in which the equality is false is lost. */
  lemma EqualLearns(m: Meaning, lang: Lang, d: Values, l: Expr, r: Expr, s: Store)
    requires Simplifies(m, lang.simplify) && SymbolFree(d.consts) && Gamma(m, d, s)
    requires Typed(l) && Typed(r) && Unknown(d, l) && Unknown(d, r) && Eval(m, l, s) != Eval(m, r, s)
    ensures EqualF(lang, d, l, r) == d || !Gamma(m, EqualF(lang, d, l, r), s)
  {
    hide EqualF, Simplifies;
    NoConflict(m, lang, d, l, r);
    SideLearns(m, lang, d, l, r, s);
    SideLearns(m, lang, d, r, l, s);
    var copy := AssignF(lang, d, l, r, false);
    var other := if !IsConstant(lang, d, r) || IsConstant(lang, d, l) then AssignF(lang, d, r, l, false) else d;
    hide AssignF, IsConstant;
    var both := EqualF(lang, d, l, r).consts;
    if copy != d {
      assert both[l.x] == copy.consts[l.x];
    } else if other != d {
      assert both[r.x] == other.consts[r.x] by {
        assert r.x !in copy.consts;
      }
    }
  }

  lemma SideLearns(m: Meaning, lang: Lang, d: Values, l: Expr, r: Expr, s: Store)
    requires Simplifies(m, lang.simplify) && SymbolFree(d.consts) && Gamma(m, d, s)
    requires Typed(r) && Unknown(d, l) && Eval(m, l, s) != Eval(m, r, s)
    ensures var a := AssignF(lang, d, l, r, false);
            a == d || (l.Var? && l.x !in d.consts && l.x in a.consts && Eval(m, a.consts[l.x], s) != Get(s, l.x))
  {
    PartialEvalMeans(m, lang.simplify, d.consts, r, s);
  }

  lemma NotEqualLearns(m: Meaning, lang: Lang, d: Values, l: Expr, r: Expr, s: Store)
    requires Simplifies(m, lang.simplify) && SymbolFree(d.consts) && Gamma(m, d, s)
    requires Typed(l) && Typed(r) && IsBool(l) == IsBool(r) && Unknown(d, l) && Unknown(d, r)
    requires Eval(m, l, s) == Eval(m, r, s)
    ensures NotEqualF(lang, d, l, r) == d || !Gamma(m, NotEqualF(lang, d, l, r), s)
  {
    EvalTyped(m, l, s);
    EvalTyped(m, r, s);
    var swap := l.Const? && !r.Const?;
    var x, c := if swap then r else l, if swap then l else r;
    if !x.Const? && c.Const? && IsBool(x) {
      EqualLearns(m, lang, d, x, Const(Bool(c.v == Int(0) || c.v == Bool(false))), s);
    }
  }

  lemma TwoWayLearns(m: Meaning, lang: Lang, d: Values, e: Expr, s: Store)
    requires Simplifies(m, lang.simplify) && SymbolFree(d.consts) && Gamma(m, d, s)
    requires Typed(e) && IsBool(e) && Unknown(d, e) && Eval(m, e, s) != Bool(true)
    ensures TwoWayF(lang, d, e) == d || !Gamma(m, TwoWayF(lang, d, e), s)
  {
    hide EqualF, NotEqualF, Simplifies, Gamma;
    assert TypedStore(s) by {
      DescribedTyped(m, d, s);
    }
    match e
    case Not(Equal(l, r)) =>
      assert Typed(Equal(l, r)) && Vars(e) == Vars(Equal(l, r));
      assert Eval(m, Equal(l, r), s) == Bool(Eval(m, l, s) == Eval(m, r, s));
      NotEqualLearns(m, lang, d, l, r, s);
    case Not(NotEqual(l, r)) =>
      assert Typed(NotEqual(l, r)) && Vars(e) == Vars(NotEqual(l, r));
      assert Eval(m, NotEqual(l, r), s) == Bool(Eval(m, l, s) != Eval(m, r, s));
      EqualLearns(m, lang, d, l, r, s);
    case Not(Var(x)) =>
      EvalTyped(m, Var(x), s);
      EqualLearns(m, lang, d, Var(x), Const(Bool(false)), s);
    case Var(x) => EqualLearns(m, lang, d, e, Const(Bool(true)), s);
    case NotEqual(l, r) => NotEqualLearns(m, lang, d, l, r, s);
    case Equal(l, r) => EqualLearns(m, lang, d, l, r, s);
    case _ =>
  }

  lemma DescribedTyped(m: Meaning, d: Values, s: Store)
    requires Gamma(m, d, s)
    ensures TypedStore(s)
  {
  }

  /** If anything is learnt on the edge to the next instruction from a condition
      that is false in `s`, then `s` is lost. */
  lemma GotoLearns(m: Meaning, lang: Lang, vars: set<Symbol>, i: Instr, l: nat, d: Values, s: Store)
    requires Simplifies(m, lang.simplify) && ValidValues(lang, vars, d) && i.Goto? && TypedInstr(i)
    requires i.target == l + 1 && Gamma(m, d, s) && Eval(m, i.cond, s) != Bool(true)
    ensures TransformF(lang, i, l + 1, d) == d || !Gamma(m, TransformF(lang, i, l + 1, d), s)
  {
    hide TwoWayF, Simplifies;
    PartialEvalKeeps(m, lang.simplify, d.consts, i.cond);
    PartialEvalMeans(m, lang.simplify, d.consts, i.cond, s);
    TwoWayLearns(m, lang, d, PartialEval(lang.simplify, d.consts, i.cond), s);
  }

  /** Both edges of a goto to its own next instruction use the condition itself,
      so the transformer is sound for it exactly if it never learns anything from
      a condition that can be false. */
  lemma GotoNextExact(m: Meaning, lang: Lang, vars: set<Symbol>, i: Instr, l: nat)
    requires Simplifies(m, lang.simplify) && i.Goto? && TypedInstr(i)
    ensures SoundAt(m, lang, vars, i, l) <==> NothingLearnt(m, lang, vars, i, l)
  {
    hide TransformF, Simplifies, Gamma, ValidValues;
    if NothingLearnt(m, lang, vars, i, l) {
      forall to, d, s, s' | ValidValues(lang, vars, d) && Gamma(m, d, s) && Executes(m, i, l, s, to, s')
        ensures Gamma(m, TransformF(lang, i, to, d), s')
      {
        TransformSound(m, lang, vars, i, l, to, d, s, s');
      }
    } else {
      var d, s :| ValidValues(lang, vars, d) && Gamma(m, d, s) && Eval(m, i.cond, s) != Bool(true)
                  && TransformF(lang, i, l + 1, d) != d;
      GotoLearns(m, lang, vars, i, l, d, s);
      assert Executes(m, i, l, s, l + 1, s);
    }
  }

  /** The constants that describe a store exactly on `vars`. */
  ghost function Snapshot(s: Store, vars: set<Symbol>): Values {
    Values(false, map x | x in vars :: Const(Get(s, x)))
  }

  /** The goto leaves its own next instruction alone or always jumps to it. */
  ghost predicate GuardKept(m: Meaning, i: Instr, l: nat)
    requires i.Goto?
  {
    i.target != l + 1 || forall s :: TypedStore(s) ==> Eval(m, i.cond, s) == Bool(true)
  }

  /** With a simplifier that folds and all symbols tracked, that means that the
      condition always holds. */
  lemma GotoNextFolded(m: Meaning, lang: Lang, vars: set<Symbol>, i: Instr, l: nat)
    requires Simplifies(m, lang.simplify) && i.Goto? && TypedInstr(i)
    ensures GuardKept(m, i, l) ==> NothingLearnt(m, lang, vars, i, l)
    ensures Folds(lang.simplify) && Vars(i.cond) <= vars && (forall x :: x in vars ==> lang.tracked(x)) ==>
              (NothingLearnt(m, lang, vars, i, l) <==> GuardKept(m, i, l))
  {
    if Folds(lang.simplify) && Vars(i.cond) <= vars && (forall x :: x in vars ==> lang.tracked(x))
       && !GuardKept(m, i, l)
    {
      var s :| TypedStore(s) && Eval(m, i.cond, s) != Bool(true);
      SnapshotLost(m, lang, vars, i, l, s);
    }
  }

  lemma SnapshotLost(m: Meaning, lang: Lang, vars: set<Symbol>, i: Instr, l: nat, s: Store)
    requires Simplifies(m, lang.simplify) && Folds(lang.simplify) && i.Goto? && TypedInstr(i)
    requires Vars(i.cond) <= vars && (forall x :: x in vars ==> lang.tracked(x))
    requires i.target == l + 1 && TypedStore(s) && Eval(m, i.cond, s) != Bool(true)
    ensures ValidValues(lang, vars, Snapshot(s, vars)) && Gamma(m, Snapshot(s, vars), s)
    ensures TransformF(lang, i, l + 1, Snapshot(s, vars)) == BOTTOM
  {
    hide Simplifies, Typed, Eval, Replace;
    var d := Snapshot(s, vars);
    SnapshotValid(m, lang, vars, s);
    PartialEvalMeans(m, lang.simplify, d.consts, i.cond, s);
    FoldedFalse(m, lang, d, i.cond, s);
  }

  lemma SnapshotValid(m: Meaning, lang: Lang, vars: set<Symbol>, s: Store)
    requires TypedStore(s) && forall x :: x in vars ==> lang.tracked(x)
    ensures ValidValues(lang, vars, Snapshot(s, vars)) && Gamma(m, Snapshot(s, vars), s)
  {
  }

  lemma FoldedFalse(m: Meaning, lang: Lang, d: Values, e: Expr, s: Store)
    requires Simplifies(m, lang.simplify) && Folds(lang.simplify) && Typed(e) && IsBool(e) && TypedStore(s)
    requires SymbolFree(d.consts) && Vars(e) <= d.consts.Keys
    requires Eval(m, PartialEval(lang.simplify, d.consts, e), s) != Bool(true)
    ensures PartialEval(lang.simplify, d.consts, e) == Const(Bool(false))
  {
    hide Simplifies;
    ReplaceKeeps(d.consts, e);
    PartialEvalKeeps(m, lang.simplify, d.consts, e);
    var g := PartialEval(lang.simplify, d.consts, e);
    assert g.Const?;
    EvalTyped(m, g, s);
  }

  // ----- the same in terms of the condition and the tracked symbols -----

  ghost predicate SameTracked(lang: Lang, vars: set<Symbol>, s: Store, t: Store) {
    forall x :: x in vars && lang.tracked(x) ==> Get(s, x) == Get(t, x)
  }

  /** Where the condition is false, the tracked symbols do not say so. */
  ghost predicate Undetermined(m: Meaning, lang: Lang, vars: set<Symbol>, e: Expr) {
    forall s :: TypedStore(s) && Eval(m, e, s) != Bool(true) ==>
      exists t :: TypedStore(t) && SameTracked(lang, vars, s, t) && Eval(m, e, t) == Bool(true)
  }

  /** Every expression with only one value is simplified to it. */
  ghost predicate Decides(m: Meaning, simplify: Expr -> Expr) {
    forall e, v :: Typed(e) && HasValue(m, e, v) ==> simplify(e) == Const(v)
  }

  ghost predicate HasValue(m: Meaning, e: Expr, v: Val) {
    forall s :: TypedStore(s) ==> Eval(m, e, s) == v
  }

  /** A state cannot tell stores apart that agree on the tracked symbols. */
  lemma GammaTracked(m: Meaning, lang: Lang, vars: set<Symbol>, d: Values, s: Store, t: Store)
    requires ValidValues(lang, vars, d) && Gamma(m, d, s) && TypedStore(t) && SameTracked(lang, vars, s, t)
    ensures Gamma(m, d, t)
  {
    forall x | x in d.consts ensures Eval(m, d.consts[x], t) == Get(t, x) {
      ClosedEval(m, d.consts[x], s, t);
    }
  }

  lemma UndeterminedTeachesNothing(
    m: Meaning, lang: Lang, vars: set<Symbol>, i: Instr, l: nat, d: Values, s: Store)
    requires Simplifies(m, lang.simplify) && i.Goto? && TypedInstr(i) && Vars(i.cond) <= vars
    requires i.target == l + 1 && Undetermined(m, lang, vars, i.cond)
    requires ValidValues(lang, vars, d) && Gamma(m, d, s) && Eval(m, i.cond, s) != Bool(true)
    ensures TransformF(lang, i, l + 1, d) == d
  {
    hide Simplifies, TransformF, ValidValues, Eval;
    assert TypedStore(s);
    var t :| TypedStore(t) && SameTracked(lang, vars, s, t) && Eval(m, i.cond, t) == Bool(true);
    GammaTracked(m, lang, vars, d, s, t);
    assert Executes(m, i, l, t, l + 1, t);
    TransformSound(m, lang, vars, i, l, l + 1, d, t, t);
    TransformValid(m, lang, vars, i, l + 1, d);
    GammaTracked(m, lang, vars, TransformF(lang, i, l + 1, d), t, s);
    GotoLearns(m, lang, vars, i, l, d, s);
  }

  /** The tracked part of a store. */
  ghost function TrackedPart(lang: Lang, s: Store, vars: set<Symbol>): Consts {
    map x | x in vars && lang.tracked(x) :: Const(Get(s, x))
  }

  ghost function Overlay(lang: Lang, s: Store, vars: set<Symbol>, t: Store): Store {
    t + map x | x in vars && lang.tracked(x) :: Get(s, x)
  }

  /** With the tracked part replaced, an expression has the value that it has in
      stores with that part. */
  lemma ReplacedValue(m: Meaning, lang: Lang, vars: set<Symbol>, e: Expr, s: Store, t: Store)
    requires TypedStore(s) && TypedStore(t)
    ensures TypedStore(Overlay(lang, s, vars, t)) && SameTracked(lang, vars, s, Overlay(lang, s, vars, t))
    ensures Eval(m, Replace(TrackedPart(lang, s, vars), e), t) == Eval(m, e, Overlay(lang, s, vars, t))
  {
    var c, u := TrackedPart(lang, s, vars), Overlay(lang, s, vars, t);
    ReplaceKeeps(c, e);
    ReplaceMeans(m, c, e, u);
    EvalDependsOnVars(m, Replace(c, e), t, u);
  }

  lemma DeterminedIsLearnt(m: Meaning, lang: Lang, vars: set<Symbol>, i: Instr, l: nat, s: Store)
    requires Simplifies(m, lang.simplify) && Decides(m, lang.simplify) && i.Goto? && TypedInstr(i)
    requires i.target == l + 1 && TypedStore(s)
    requires forall t :: TypedStore(t) && SameTracked(lang, vars, s, t) ==> Eval(m, i.cond, t) != Bool(true)
    ensures !NothingLearnt(m, lang, vars, i, l)
  {
    hide Simplifies, Eval, Typed, Replace, Overlay;
    var d := Values(false, TrackedPart(lang, s, vars));
    assert ValidValues(lang, vars, d) && Gamma(m, d, s) by {
      TrackedDescribes(m, lang, vars, s);
    }
    var e := Replace(d.consts, i.cond);
    ReplaceKeeps(d.consts, i.cond);
    forall t | TypedStore(t) ensures Eval(m, e, t) == Bool(false) {
      ReplacedValue(m, lang, vars, i.cond, s, t);
      EvalTyped(m, i.cond, Overlay(lang, s, vars, t));
    }
    assert HasValue(m, e, Bool(false));
    assert TransformF(lang, i, l + 1, d) == BOTTOM;
  }

  lemma TrackedDescribes(m: Meaning, lang: Lang, vars: set<Symbol>, s: Store)
    requires TypedStore(s)
    ensures var d := Values(false, TrackedPart(lang, s, vars)); ValidValues(lang, vars, d) && Gamma(m, d, s)
  {
  }

  /** Nothing is learnt wrongly if the tracked symbols never determine the
      condition to be false, and with a simplifier that decides only then. */
  lemma GotoNextTracked(m: Meaning, lang: Lang, vars: set<Symbol>, i: Instr, l: nat)
    requires Simplifies(m, lang.simplify) && i.Goto? && TypedInstr(i) && Vars(i.cond) <= vars
    ensures i.target != l + 1 || Undetermined(m, lang, vars, i.cond) ==> NothingLearnt(m, lang, vars, i, l)
    ensures Decides(m, lang.simplify) ==>
              (NothingLearnt(m, lang, vars, i, l) <==> i.target != l + 1 || Undetermined(m, lang, vars, i.cond))
  {
    hide Simplifies, Decides, TransformF, ValidValues, Gamma, Eval;
    if i.target == l + 1 && Undetermined(m, lang, vars, i.cond) {
      forall d, s | ValidValues(lang, vars, d) && Gamma(m, d, s) && Eval(m, i.cond, s) != Bool(true)
        ensures TransformF(lang, i, l + 1, d) == d
      {
        UndeterminedTeachesNothing(m, lang, vars, i, l, d, s);
      }
    }
    if i.target == l + 1 && Decides(m, lang.simplify) && !Undetermined(m, lang, vars, i.cond) {
      var s :| TypedStore(s) && Eval(m, i.cond, s) != Bool(true)
               && forall t :: TypedStore(t) && SameTracked(lang, vars, s, t) ==> Eval(m, i.cond, t) != Bool(true);
      DeterminedIsLearnt(m, lang, vars, i, l, s);
    }
  }

  /** A condition over untracked symbols teaches nothing, unless it is always
      false. */
  lemma GotoNextUntracked(m: Meaning, lang: Lang, vars: set<Symbol>, i: Instr, l: nat)
    requires Simplifies(m, lang.simplify) && i.Goto? && TypedInstr(i)
    requires Untracked(lang, i.cond) && lang.simplify(i.cond) != Const(Bool(false))
    ensures NothingLearnt(m, lang, vars, i, l)
  {
    forall d, s | ValidValues(lang, vars, d) && Gamma(m, d, s) && i.target == l + 1
      ensures TransformF(lang, i, l + 1, d) == d
    {
      ReplaceKeeps(d.consts, i.cond);
      UntrackedSame(m, lang, d, lang.simplify(i.cond));
    }
  }

  lemma UntrackedSame(m: Meaning, lang: Lang, d: Values, e: Expr)
    requires !d.isBottom && Untracked(lang, e)
    ensures TwoWayF(lang, d, e) == d
  {
    hide EqualF;
    match e
    case Not(Equal(l, r)) =>
      assert Vars(e) == Vars(Equal(l, r));
      UntrackedNotEqual(lang, d, l, r);
    case Not(NotEqual(l, r)) =>
      assert Vars(e) == Vars(NotEqual(l, r));
      UntrackedEqual(lang, d, l, r);
    case Not(Var(x)) => UntrackedEqual(lang, d, Var(x), Const(Bool(false)));
    case Var(x) => UntrackedEqual(lang, d, e, Const(Bool(true)));
    case NotEqual(l, r) => UntrackedNotEqual(lang, d, l, r);
    case Equal(l, r) => UntrackedEqual(lang, d, l, r);
    case _ =>
  }

  ghost predicate Untracked(lang: Lang, e: Expr) {
    forall x :: x in Vars(e) ==> !lang.tracked(x)
  }

  lemma UntrackedEqual(lang: Lang, d: Values, l: Expr, r: Expr)
    requires !d.isBottom && Untracked(lang, l) && Untracked(lang, r)
    ensures EqualF(lang, d, l, r) == d
  {
    assert d.consts + d.consts == d.consts;
  }

  lemma UntrackedNotEqual(lang: Lang, d: Values, l: Expr, r: Expr)
    requires !d.isBottom && Untracked(lang, l) && Untracked(lang, r)
    ensures NotEqualF(lang, d, l, r) == d
  {
    hide EqualF;
    var swap := l.Const? && !r.Const?;
    var x, c := if swap then r else l, if swap then l else r;
    if c.Const? {
      UntrackedEqual(lang, d, x, Const(Bool(c.v == Int(0) || c.v == Bool(false))));
    }
  }
}
