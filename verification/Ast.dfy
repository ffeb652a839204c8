// The part of the syntax tree the SSA builder lowers, and what it means.
//
// Names are already resolved: an identifier is the id of its symbol, as the
// scope resolver leaves it in the node's side table.
module Ast {

  datatype Option<+T> = None | Some(value: T)

  const WORD_MODULUS: int := 0x1_0000_0000_0000_0000
  const WORD_LIMIT: int := 0x8000_0000_0000_0000

  // The only value type the front end produces: a signed 64-bit integer.
  type Word = x: int | -WORD_LIMIT <= x < WORD_LIMIT

  // Two's complement wrap-around.
  function Wrap(x: int): (w: Word)
    ensures (w - x) % WORD_MODULUS == 0
    ensures -WORD_LIMIT <= x < WORD_LIMIT ==> w == x
  {
    (x + WORD_LIMIT) % WORD_MODULUS - WORD_LIMIT
  }

  type Sym = nat

  datatype BinOp = Plus | Times | Greater | GreaterEq | Less | LessEq | Equal | NotEqual

  datatype Expr =
    | IntLit(value: Word)
    | Ident(sym: Sym)
    | Binary(op: BinOp, lhs: Expr, rhs: Expr)
    | Assign(target: Sym, rhs: Expr)
    | VarDecl(sym: Sym, init: Option<Expr>)

  // A block's return statement is stored apart from its other statements and
  // visited after them; here it is simply the last element of the list.
  datatype Stmt =
    | ExprStmt(expr: Expr)
    | Return(result: Option<Expr>)
    | If(cond: Expr, thenBranch: Stmt, elseBranch: Option<Stmt>)
    | While(cond: Expr, body: Stmt)
    | Block(stmts: seq<Stmt>)

  // ----- Meaning -----

  type Env = map<Sym, Word>

  function Truth(b: bool): Word { if b then 1 else 0 }

  function EvalOp(op: BinOp, a: Word, b: Word): Word {
    match op
    case Plus => Wrap(a + b)
    case Times => Wrap(a * b)
    case Greater => Truth(a > b)
    case GreaterEq => Truth(a >= b)
    case Less => Truth(a < b)
    case LessEq => Truth(a <= b)
    case Equal => Truth(a == b)
    case NotEqual => Truth(a != b)
  }

  // Operands left to right; assignments and declarations are expressions.
  function Eval(e: Expr, env: Env): (Word, Env) {
    match e
    case IntLit(v) => (v, env)
    case Ident(s) => (if s in env then env[s] else 0, env)
    case Binary(op, l, r) =>
      var (a, env1) := Eval(l, env);
      var (b, env2) := Eval(r, env1);
      (EvalOp(op, a, b), env2)
    case Assign(s, r) =>
      var (v, env1) := Eval(r, env);
      (v, env1[s := v])
    case VarDecl(s, init) =>
      match init
      case None => (0, env[s := 0])
      case Some(i) =>
        var (v, env1) := Eval(i, env);
        (v, env1[s := v])
  }

  datatype Outcome = Normal(env: Env) | Returned(value: Word) | OutOfFuel

  // Fuel bounds the number of loop iterations on a path, nothing else.
  function Exec(s: Stmt, env: Env, fuel: nat): Outcome
    decreases fuel, s, 0
  {
    match s
    case ExprStmt(e) => Normal(Eval(e, env).1)
    case Return(None) => Returned(0)
    case Return(Some(e)) => Returned(Eval(e, env).0)
    case If(c, t, els) =>
      var (v, env1) := Eval(c, env);
      if v != 0 then Exec(t, env1, fuel)
      else if els.Some? then Exec(els.value, env1, fuel)
      else Normal(env1)
    case While(c, body) =>
      if fuel == 0 then OutOfFuel
      else
        var (v, env1) := Eval(c, env);
        if v == 0 then Normal(env1)
        else
          (match Exec(body, env1, fuel - 1)
           case Normal(env2) => Exec(s, env2, fuel - 1)
           case Returned(r) => Returned(r)
           case OutOfFuel => OutOfFuel)
    case Block(stmts) => ExecFrom(stmts, 0, env, fuel)
  }

  function ExecFrom(stmts: seq<Stmt>, i: nat, env: Env, fuel: nat): Outcome
    requires i <= |stmts|
    decreases fuel, stmts, |stmts| - i + 1
  {
    if i == |stmts| then Normal(env)
    else
      match Exec(stmts[i], env, fuel)
      case Normal(env1) => ExecFrom(stmts, i + 1, env1, fuel)
      case Returned(r) => Returned(r)
      case OutOfFuel => OutOfFuel
  }

  // A body that falls off its end returns 0.
  function ExecBody(body: Stmt, env: Env, fuel: nat): Option<Word> {
    match Exec(body, env, fuel)
    case Normal(_) => Some(0)
    case Returned(v) => Some(v)
    case OutOfFuel => None
  }

  // Parameters are bound left to right.
  function Bind(params: seq<Sym>, args: seq<Word>): (env: Env)
    requires |params| == |args|
    ensures forall s :: s in env <==> s in params
  {
    if params == [] then map[]
    else
      var n := |params| - 1;
      assert forall s :: s in params <==> s in params[..n] || s == params[n];
      Bind(params[..n], args[..n])[params[n] := args[n]]
  }

  // The function called on args returns v.
  ghost predicate Yields(params: seq<Sym>, body: Stmt, args: seq<Word>, v: Word)
    requires |params| == |args|
  {
    exists fuel: nat :: ExecBody(body, Bind(params, args), fuel) == Some(v)
  }

  // ----- Scoping -----

  // Symbols bound once e has been evaluated, when those of bound were before.
  function BoundAfter(e: Expr, bound: set<Sym>): (after: set<Sym>)
    ensures bound <= after
  {
    match e
    case IntLit(_) => bound
    case Ident(_) => bound
    case Binary(_, l, r) => BoundAfter(r, BoundAfter(l, bound))
    case Assign(_, r) => BoundAfter(r, bound)
    case VarDecl(s, init) => (if init.Some? then BoundAfter(init.value, bound) else bound) + {s}
  }

  // Every name is declared before it is read or assigned. A declaration does
  // not see itself in its own initialiser.
  predicate ScopedExpr(e: Expr, bound: set<Sym>) {
    match e
    case IntLit(_) => true
    case Ident(s) => s in bound
    case Binary(_, l, r) => ScopedExpr(l, bound) && ScopedExpr(r, BoundAfter(l, bound))
    case Assign(s, r) => s in bound && ScopedExpr(r, bound)
    case VarDecl(_, init) => init.Some? ==> ScopedExpr(init.value, bound)
  }

  // Only a declaration at the statement level of a block outlives its statement.
  function BoundAfterStmt(s: Stmt, bound: set<Sym>): (after: set<Sym>)
    ensures bound <= after
  {
    if s.ExprStmt? then BoundAfter(s.expr, bound) else bound
  }

  predicate ScopedStmt(s: Stmt, bound: set<Sym>)
    decreases s, 0
  {
    match s
    case ExprStmt(e) => ScopedExpr(e, bound)
    case Return(r) => r.Some? ==> ScopedExpr(r.value, bound)
    case If(c, t, els) =>
      && ScopedExpr(c, bound)
      && ScopedStmt(t, BoundAfter(c, bound))
      && (els.Some? ==> ScopedStmt(els.value, BoundAfter(c, bound)))
    case While(c, body) => ScopedExpr(c, bound) && ScopedStmt(body, BoundAfter(c, bound))
    case Block(stmts) => ScopedFrom(stmts, 0, bound)
  }

  predicate ScopedFrom(stmts: seq<Stmt>, i: nat, bound: set<Sym>)
    requires i <= |stmts|
    decreases stmts, |stmts| - i + 1
  {
    i < |stmts| ==> ScopedStmt(stmts[i], bound) && ScopedFrom(stmts, i + 1, BoundAfterStmt(stmts[i], bound))
  }
}
