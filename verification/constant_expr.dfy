/** Scalar expressions over typed symbols, with a simplifier that is a parameter. */
module ConstantExpr {
  datatype Val = Int(i: int) | Bool(b: bool)

  /** The type belongs to the symbol, as in the symbol table. */
  datatype Symbol = Symbol(id: string, isBool: bool)

  /** `Apply` stands for every operator that constant propagation does not look
      into; its result type is part of the node. */
  datatype Expr =
    | Const(v: Val)
    | Var(x: Symbol)
    | Not(op: Expr)
    | Equal(lhs: Expr, rhs: Expr)
    | NotEqual(lhs: Expr, rhs: Expr)
    | Apply(name: string, isBool: bool, arg0: Expr, arg1: Expr)

  type Store = map<Symbol, Val>

  /** What the named operators compute. */
  type Meaning = (string, Val, Val) -> Val

  function Get(s: Store, x: Symbol): Val {
    if x in s then s[x] else if x.isBool then Bool(false) else Int(0)
  }

  function Cast(isBool: bool, v: Val): (r: Val)
    ensures r.Bool? <==> isBool
  {
    match v
    case Int(i) => if isBool then Bool(i != 0) else v
    case Bool(b) => if isBool then v else Int(if b then 1 else 0)
  }

  function Eval(m: Meaning, e: Expr, s: Store): Val {
    match e
    case Const(v) => v
    case Var(x) => Get(s, x)
    case Not(op) => Bool(Eval(m, op, s) != Bool(true))
    case Equal(l, r) => Bool(Eval(m, l, s) == Eval(m, r, s))
    case NotEqual(l, r) => Bool(Eval(m, l, s) != Eval(m, r, s))
    case Apply(f, isBool, a, b) => Cast(isBool, m(f, Eval(m, a, s), Eval(m, b, s)))
  }

  function Vars(e: Expr): set<Symbol> {
    match e
    case Const(_) => {}
    case Var(x) => {x}
    case Not(op) => Vars(op)
    case Equal(l, r) => Vars(l) + Vars(r)
    case NotEqual(l, r) => Vars(l) + Vars(r)
    case Apply(_, _, a, b) => Vars(a) + Vars(b)
  }

  function IsBool(e: Expr): bool {
    match e
    case Const(v) => v.Bool?
    case Var(x) => x.isBool
    case Not(_) => true
    case Equal(_, _) => true
    case NotEqual(_, _) => true
    case Apply(_, isBool, _, _) => isBool
  }

  /** Operands have the types the operators ask for. */
  predicate Typed(e: Expr) {
    match e
    case Const(_) => true
    case Var(_) => true
    case Not(op) => Typed(op) && IsBool(op)
    case Equal(l, r) => Typed(l) && Typed(r) && IsBool(l) == IsBool(r)
    case NotEqual(l, r) => Typed(l) && Typed(r) && IsBool(l) == IsBool(r)
    case Apply(_, _, a, b) => Typed(a) && Typed(b)
  }

  ghost predicate TypedStore(s: Store) {
    forall x :: x in s ==> (s[x].Bool? <==> x.isBool)
  }

  lemma EvalTyped(m: Meaning, e: Expr, s: Store)
    requires TypedStore(s)
    ensures Eval(m, e, s).Bool? <==> IsBool(e)
  {
  }

  lemma {:induction false} EvalDependsOnVars(m: Meaning, e: Expr, s: Store, t: Store)
    requires forall x :: x in Vars(e) ==> Get(s, x) == Get(t, x)
    ensures Eval(m, e, s) == Eval(m, e, t)
  {
    match e
    case Const(_) =>
    case Var(_) =>
    case Not(op) =>
      EvalDependsOnVars(m, op, s, t);
    case Equal(l, r) =>
      EvalDependsOnVars(m, l, s, t);
      EvalDependsOnVars(m, r, s, t);
    case NotEqual(l, r) =>
      EvalDependsOnVars(m, l, s, t);
      EvalDependsOnVars(m, r, s, t);
    case Apply(_, _, a, b) =>
      EvalDependsOnVars(m, a, s, t);
      EvalDependsOnVars(m, b, s, t);
  }

  /** A symbol-free expression of the same type for each of some symbols. */
  type Consts = map<Symbol, Expr>

  ghost predicate SymbolFree(c: Consts) {
    forall x :: x in c ==> Vars(c[x]) == {} && Typed(c[x]) && IsBool(c[x]) == x.isBool
  }

  function Replace(c: Consts, e: Expr): Expr {
    match e
    case Const(_) => e
    case Var(x) => if x in c then c[x] else e
    case Not(op) => Not(Replace(c, op))
    case Equal(l, r) => Equal(Replace(c, l), Replace(c, r))
    case NotEqual(l, r) => NotEqual(Replace(c, l), Replace(c, r))
    case Apply(f, isBool, a, b) => Apply(f, isBool, Replace(c, a), Replace(c, b))
  }

  lemma {:induction false} ReplaceKeeps(c: Consts, e: Expr)
    requires SymbolFree(c)
    ensures Vars(Replace(c, e)) == Vars(e) - c.Keys
    ensures IsBool(Replace(c, e)) == IsBool(e) && (Typed(e) ==> Typed(Replace(c, e)))
    ensures Vars(e) !! c.Keys ==> Replace(c, e) == e
  {
    match e
    case Const(_) =>
    case Var(_) =>
    case Not(op) =>
      ReplaceKeeps(c, op);
    case Equal(l, r) =>
      ReplaceKeeps(c, l);
      ReplaceKeeps(c, r);
    case NotEqual(l, r) =>
      ReplaceKeeps(c, l);
      ReplaceKeeps(c, r);
    case Apply(_, _, a, b) =>
      ReplaceKeeps(c, a);
      ReplaceKeeps(c, b);
  }

  /** The store agrees with every known constant. */
  ghost predicate Agrees(m: Meaning, c: Consts, s: Store) {
    forall x :: x in c ==> Eval(m, c[x], s) == Get(s, x)
  }

  lemma {:induction false} ReplaceMeans(m: Meaning, c: Consts, e: Expr, s: Store)
    requires Agrees(m, c, s)
    ensures Eval(m, Replace(c, e), s) == Eval(m, e, s)
  {
    match e
    case Const(_) =>
    case Var(_) =>
    case Not(op) =>
      ReplaceMeans(m, c, op, s);
    case Equal(l, r) =>
      ReplaceMeans(m, c, l, s);
      ReplaceMeans(m, c, r, s);
    case NotEqual(l, r) =>
      ReplaceMeans(m, c, l, s);
      ReplaceMeans(m, c, r, s);
    case Apply(_, _, a, b) =>
      ReplaceMeans(m, c, a, s);
      ReplaceMeans(m, c, b, s);
  }

  // ----- evaluation with known constants -----

  /** The simplifier keeps type and value and brings in no new symbols. */
  ghost predicate Simplifies(m: Meaning, simplify: Expr -> Expr) {
    && (forall e :: Vars(simplify(e)) <= Vars(e) && IsBool(simplify(e)) == IsBool(e))
    && (forall e :: Typed(e) ==> Typed(simplify(e)))
    && (forall e, s :: Typed(e) && TypedStore(s) ==> Eval(m, simplify(e), s) == Eval(m, e, s))
  }

  function PartialEval(simplify: Expr -> Expr, c: Consts, e: Expr): Expr {
    simplify(Replace(c, e))
  }

  lemma PartialEvalMeans(m: Meaning, simplify: Expr -> Expr, c: Consts, e: Expr, s: Store)
    requires Simplifies(m, simplify) && SymbolFree(c) && Typed(e) && TypedStore(s) && Agrees(m, c, s)
    ensures Eval(m, PartialEval(simplify, c, e), s) == Eval(m, e, s)
  {
    ReplaceKeeps(c, e);
    ReplaceMeans(m, c, e, s);
  }

  lemma PartialEvalKeeps(m: Meaning, simplify: Expr -> Expr, c: Consts, e: Expr)
    requires Simplifies(m, simplify) && SymbolFree(c) && Typed(e)
    ensures var r := PartialEval(simplify, c, e);
            Vars(r) <= Vars(e) - c.Keys && Typed(r) && IsBool(r) == IsBool(e)
  {
    ReplaceKeeps(c, e);
  }

  /** Replace and simplify until no known symbol is left.  One round is enough:
      constants are symbol-free and the simplifier brings in no symbols. */
  method ReplaceConstantsAndSimplify(ghost m: Meaning, simplify: Expr -> Expr, c: Consts, e: Expr)
    returns (r: Expr, same: bool)
    requires Simplifies(m, simplify) && SymbolFree(c)
    ensures r == PartialEval(simplify, c, e)
    ensures same <==> Vars(e) * c.Keys == {} && r == e
  {
    r, same := e, true;
    ReplaceKeeps(c, e);
    while Vars(r) * c.Keys != {}
      invariant if same then r == e else r == PartialEval(simplify, c, e)
      invariant same || (Vars(r) * c.Keys == {} && Vars(e) * c.Keys != {})
      decreases same
    {
      r := simplify(Replace(c, r));
      same := false;
    }
    if same {
      assert Replace(c, r) == r;
      r := simplify(r);
      same := r == e;
    }
  }
}
