// The operators of the language, one by one, as the parser takes them.
module ParserOperators {
  import opened Grammar
  import opened Parser
  import opened SimpleParsing

  predicate IsAtom(t: Tok) { t.Ident? || t.Literal? }

  // What stands in a program between two operands.
  predicate InLanguage(op: Tok) {
    op in {AssignOp, BinOp("*"), BinOp("+"), BinOp(">"), BinOp("<"), BinOp("<="), BinOp(">="), BinOp("=="), BinOp("!=")}
  }

  function Node(op: Tok, l: Tree, r: Tree): Tree
    requires op.AssignOp? || op.BinOp?
  {
    if op.BinOp? then Binary(op.text, l, r) else Assignment(l, r)
  }

  // Of two operators in a row the second takes the operand between them.
  predicate SecondFirst(op: Tok, op': Tok) {
    || op == AssignOp
    || (op' == BinOp("*") && op != BinOp("*"))
    || (op' == BinOp("+") && op !in {BinOp("*"), BinOp("+")})
  }

  lemma KnownInLanguage(op: Tok)
    ensures Known(op) <==> InLanguage(op)
  {
  }

  // A name or literal that nothing goes on with is the only operand there.
  lemma AtomHere(tokens: seq<Tok>, pos: nat, t: Tok)
    requires IsAtom(t) && TokAt(tokens, pos) == t && EndsOperand(TokAt(tokens, pos + 1))
    ensures OperandHere(tokens, pos, Atom(t)) && forall x :: OperandHere(tokens, pos, x) ==> x == Atom(t)
  {
    hide Here, Within;
    HereOne(tokens, pos, t);
    forall x | OperandHere(tokens, pos, x) ensures x == Atom(t) {
      forall y | OperandHere(tokens, pos, y) ensures Within(Atom(t), y) { AtomWithin(tokens, pos, t, y); }
      OnlyItself(tokens, pos, Atom(t), pos + 1, x);
    }
  }

  // An expression that starts with such an operand and an operator.
  lemma AtomFirst(tokens: seq<Tok>, pos: nat, t: Tok, c: Chain)
    requires IsAtom(t) && TokAt(tokens, pos) == t && IsOperator(TokAt(tokens, pos + 1)) && ChainHere(tokens, pos, c)
    ensures c.More? && c.operand == Atom(t) && c.op == TokAt(tokens, pos + 1) && Known(c.op) && ChainHere(tokens, pos + 2, c.rest)
  {
    hide ChainHere, OperandHere;
    AtomHere(tokens, pos, t);
    FirstOperand(tokens, pos, c);
  }

  // One that ends after it.
  lemma AtomLast(tokens: seq<Tok>, pos: nat, t: Tok, c: Chain)
    requires IsAtom(t) && TokAt(tokens, pos) == t && TokAt(tokens, pos + 1) == End && ChainHere(tokens, pos, c)
    ensures c == Last(Atom(t))
  {
    hide ChainHere, OperandHere;
    AtomHere(tokens, pos, t);
    FirstOperand(tokens, pos, c);
  }

  // ----- Chains of names and literals -----

  lemma AtomChain(x: Tok)
    requires IsAtom(x)
    ensures var c := Last(Atom(x));
      WellFormed(c) && Yield(c) == [x] && Trees(c) == [Leaf(x)] && Ops(c) == []
  {
    assert YieldOperand(Atom(x)) == [x] && MeaningOperand(Atom(x)) == Leaf(x);
  }

  lemma AtomMore(x: Tok, op: Tok, r: Chain)
    requires IsAtom(x) && Known(op) && WellFormed(r)
    ensures var c := More(Atom(x), op, r);
      WellFormed(c) && Yield(c) == [x, op] + Yield(r) && Trees(c) == [Leaf(x)] + Trees(r) && Ops(c) == [op] + Ops(r)
  {
    assert YieldOperand(Atom(x)) == [x] && MeaningOperand(Atom(x)) == Leaf(x);
  }

  lemma TreeOfOne(op: Tok, a: Tree, b: Tree)
    requires Known(op)
    ensures TreeOf([a, b], [op]) == Node(op, a, b)
  {
    hide TreeOf, BindingPower;
    assert IsSplit([op], 0);
    TreeSplit([a, b], [op], 0);
    NoOperator([a, b][..1]);
    NoOperator([a, b][1..]);
    assert [op][..0] == [] && [op][1..] == [];
  }

  lemma NoOperator(operands: seq<Tree>)
    requires |operands| == 1
    ensures TreeOf(operands, []) == operands[0]
  {
  }

  lemma TreeOfTwo(op: Tok, op': Tok, a: Tree, b: Tree, c: Tree)
    requires InLanguage(op) && InLanguage(op')
    ensures Known(op) && Known(op')
    ensures TreeOf([a, b, c], [op, op']) == if SecondFirst(op, op') then Node(op, a, Node(op', b, c)) else Node(op', Node(op, a, b), c)
  {
    hide TreeOf;
    var ops, operands := [op, op'], [a, b, c];
    if SecondFirst(op, op') {
      assert IsSplit(ops, 0);
      TreeSplit(operands, ops, 0);
      NoOperator(operands[..1]);
      assert operands[1..] == [b, c] && ops[1..] == [op'] && ops[..0] == [];
      TreeOfOne(op', b, c);
    } else {
      assert IsSplit(ops, 1);
      TreeSplit(operands, ops, 1);
      NoOperator(operands[2..]);
      assert operands[..2] == [a, b] && ops[..1] == [op] && ops[2..] == [];
      TreeOfOne(op, a, b);
    }
  }

  // ----- One operator and two -----

  // Two operands and an operator are an expression exactly when the language has the operator.
  method ParseOne(x: Tok, op: Tok, y: Tok) returns (ok: bool, stack: seq<Tree>, read: nat)
    requires IsAtom(x) && IsAtom(y) && (op.BinOp? || op.AssignOp?)
    ensures ok <==> InLanguage(op)
    ensures ok ==> read == 3 && stack == [Node(op, Leaf(x), Leaf(y))]
  {
    hide ChainHere, Meaning, Known, InLanguage;
    var tokens := [x, op, y];
    var parser := new SimpleParser(tokens);
    KnownInLanguage(op);
    ghost var chain;
    ok, chain := parser.ParseExpr();
    if ok {
      AtomFirst(tokens, 0, x, chain);
      AtomLast(tokens, 2, y, chain.rest);
      OneChain(x, op, y);
    } else if InLanguage(op) {
      OneChain(x, op, y);
    }
    stack, read := parser.parseStack, parser.pos;
  }

  lemma OneChain(x: Tok, op: Tok, y: Tok)
    requires IsAtom(x) && IsAtom(y) && Known(op)
    ensures var c := More(Atom(x), op, Last(Atom(y)));
      ChainHere([x, op, y], 0, c) && Meaning(c) == Node(op, Leaf(x), Leaf(y)) && |Yield(c)| == 3
  {
    hide Yield, Trees, Ops, TreeOf, WellFormed, Known;
    var c := More(Atom(x), op, Last(Atom(y)));
    AtomChain(y);
    AtomMore(x, op, Last(Atom(y)));
    TreeOfOne(op, Leaf(x), Leaf(y));
    assert Yield(c) == [x, op, y] && Trees(c) == [Leaf(x), Leaf(y)] && Ops(c) == [op];
  }

  // With two operators the tree groups to the side the language says.
  method ParseTwo(x: Tok, op: Tok, y: Tok, op': Tok, z: Tok) returns (ok: bool, stack: seq<Tree>, read: nat)
    requires IsAtom(x) && IsAtom(y) && IsAtom(z) && InLanguage(op) && InLanguage(op')
    ensures ok && read == 5
    ensures stack == [
      if SecondFirst(op, op') then Node(op, Leaf(x), Node(op', Leaf(y), Leaf(z)))
      else Node(op', Node(op, Leaf(x), Leaf(y)), Leaf(z))]
  {
    hide ChainHere, Meaning, Known, InLanguage, SecondFirst;
    var parser := new SimpleParser([x, op, y, op', z]);
    KnownInLanguage(op);
    KnownInLanguage(op');
    TwoChain(x, op, y, op', z);
    ghost var chain;
    ok, chain := parser.ParseExpr();
    stack, read := parser.parseStack, parser.pos;
  }

  lemma TwoChain(x: Tok, op: Tok, y: Tok, op': Tok, z: Tok)
    requires IsAtom(x) && IsAtom(y) && IsAtom(z) && InLanguage(op) && InLanguage(op')
    ensures var c := More(Atom(x), op, More(Atom(y), op', Last(Atom(z))));
      && ChainHere([x, op, y, op', z], 0, c) && |Yield(c)| == 5
      && Meaning(c) ==
          if SecondFirst(op, op') then Node(op, Leaf(x), Node(op', Leaf(y), Leaf(z)))
          else Node(op', Node(op, Leaf(x), Leaf(y)), Leaf(z))
  {
    hide Yield, Trees, Ops, TreeOf, WellFormed, Known, InLanguage, SecondFirst;
    KnownInLanguage(op);
    KnownInLanguage(op');
    var last := More(Atom(y), op', Last(Atom(z)));
    var c := More(Atom(x), op, last);
    AtomChain(z);
    AtomMore(y, op', Last(Atom(z)));
    AtomMore(x, op, last);
    TreeOfTwo(op, op', Leaf(x), Leaf(y), Leaf(z));
    assert Yield(c) == [x, op, y, op', z] && Trees(c) == [Leaf(x), Leaf(y), Leaf(z)] && Ops(c) == [op, op'];
  }
}
