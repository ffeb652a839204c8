// What a lowered operator computes.
module Operators {
  import opened Ast
  import opened Cfg
  import opened CriticalEdges
  import opened IR
  import opened SsaBuilder
  import opened SsaFunction

  // The word that operator op makes of a and b: for arithmetic the one congruent
  // to the sum or product, for a comparison 1 if it holds and 0 if not.
  ghost predicate Computes(op: BinOp, a: Word, b: Word, v: Word) {
    match op
    case Plus => (v - (a + b)) % WORD_MODULUS == 0
    case Times => (v - a * b) % WORD_MODULUS == 0
    case Greater => v == if a > b then 1 else 0
    case GreaterEq => v == if a >= b then 1 else 0
    case Less => v == if a < b then 1 else 0
    case LessEq => v == if a <= b then 1 else 0
    case Equal => v == if a == b then 1 else 0
    case NotEqual => v == if a != b then 1 else 0
  }

  // return p op q, with parameters p and q.
  function Applied(op: BinOp, p: Sym, q: Sym): Stmt {
    Return(Some(Binary(op, Ident(p), Ident(q))))
  }

  lemma CongruentOnce(v: Word, w: Word, x: int)
    requires (v - x) % WORD_MODULUS == 0 && (w - x) % WORD_MODULUS == 0
    ensures v == w
  {
    var m, n := (v - x) / WORD_MODULUS, (w - x) / WORD_MODULUS;
    assert v - w == WORD_MODULUS * (m - n);
  }

  lemma OperatorComputes(op: BinOp, a: Word, b: Word, v: Word)
    ensures EvalOp(op, a, b) == v <==> Computes(op, a, b, v)
  {
    if Computes(op, a, b, v) {
      match op
      case Plus => CongruentOnce(v, Wrap(a + b), a + b);
      case Times => CongruentOnce(v, Wrap(a * b), a * b);
      case _ =>
    }
  }

  lemma BindTwo(p: Sym, q: Sym, a: Word, b: Word)
    requires p != q
    ensures Bind([p, q], [a, b]) == map[p := a, q := b]
  {
    assert [p, q][..1] == [p] && [a, b][..1] == [a] && [p][..0] == [] && [a][..0] == [];
    assert Bind([p], [a]) == map[p := a];
  }

  lemma AppliedScoped(op: BinOp, p: Sym, q: Sym)
    ensures ScopedStmt(Applied(op, p, q), SymSet([p, q]))
  {
    assert [p, q][0] == p && [p, q][1] == q;
  }

  // A function that applies an operator to its two parameters yields its result.
  lemma AppliedYields(op: BinOp, p: Sym, q: Sym, a: Word, b: Word, v: Word)
    requires p != q
    ensures Yields([p, q], Applied(op, p, q), [a, b], v) <==> Computes(op, a, b, v)
  {
    var env, body := Bind([p, q], [a, b]), Applied(op, p, q);
    BindTwo(p, q, a, b);
    assert Eval(Binary(op, Ident(p), Ident(q)), env).0 == EvalOp(op, a, b) by {
      assert Eval(Ident(p), env) == (a, env) && Eval(Ident(q), env) == (b, env);
    }
    forall fuel: nat ensures ExecBody(body, env, fuel) == Some(EvalOp(op, a, b)) {}
    OperatorComputes(op, a, b, v);
    if EvalOp(op, a, b) == v { assert ExecBody(body, env, 0) == Some(v); }
  }

  // Lowered, it returns the operator's result, and nothing else, for all arguments.
  method LowerOperator(op: BinOp, p: Sym, q: Sym) returns (f: Function)
    requires p != q
    ensures fresh(f)
    ensures forall a: Word, b: Word, v: Word :: Returns(f.blocks, [a, b], v) <==> Computes(op, a, b, v)
  {
    hide WellFormed, SingleAssignment, PhisAtJoins, NoCriticalEdge, ListsOk, Yields, Computes, Returns, NeverStuck;
    AppliedScoped(op, p, q);
    f := LowerFunction([p, q], Applied(op, p, q));
    forall a: Word, b: Word, v: Word ensures Returns(f.blocks, [a, b], v) <==> Computes(op, a, b, v) {
      AppliedYields(op, p, q, a, b, v);
    }
  }
}
