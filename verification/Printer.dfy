// Printing a tree with the parentheses it needs.
module Printer {
  import opened Grammar

  // The trees a parser can give: names and literals at the leaves, known operators.
  predicate Printable(t: Tree) {
    match t
    case Leaf(tok) => tok.Ident? || tok.Literal?
    case Binary(op, l, r) => Known(BinOp(op)) && Printable(l) && Printable(r)
    case Assignment(l, r) => Printable(l) && Printable(r)
    case Member(b, _) => Printable(b)
    case Call(f, args) => Printable(f) && AllPrintable(args)
  }

  predicate AllPrintable(ts: seq<Tree>) {
    ts == [] || (Printable(ts[0]) && AllPrintable(ts[1..]))
  }

  predicate IsNode(t: Tree) { t.Binary? || t.Assignment? }

  function OpOf(t: Tree): Tok
    requires IsNode(t)
  {
    if t.Assignment? then AssignOp else BinOp(t.op)
  }

  // Whether a tree to the left of an operator would come apart without parentheses.
  predicate NeedsLeft(l: Tree, op: Tok)
    requires Known(op) && Printable(l)
  {
    IsNode(l) && (OpPrintable(l); !Beats(OpOf(l), op))
  }

  predicate NeedsRight(r: Tree, op: Tok)
    requires Known(op) && Printable(r)
  {
    IsNode(r) && (OpPrintable(r); !Looser(op, OpOf(r)))
  }

  lemma {:induction false} OpPrintable(t: Tree)
    requires IsNode(t) && Printable(t)
    ensures Known(OpOf(t))
  {
  }

  function Print(t: Tree): (c: Chain)
    requires Printable(t)
    ensures WellFormed(c)
    decreases t, 1
  {
    match t
    case Binary(op, l, r) => Append(Left(l, BinOp(op)), BinOp(op), Right(r, BinOp(op)))
    case Assignment(l, r) => Append(Left(l, AssignOp), AssignOp, Right(r, AssignOp))
    case _ => Last(PrintOperand(t))
  }

  function Left(l: Tree, op: Tok): (c: Chain)
    requires Known(op) && Printable(l)
    ensures WellFormed(c)
    decreases l, 2
  {
    if NeedsLeft(l, op) then Last(Group(Print(l))) else Print(l)
  }

  function Right(r: Tree, op: Tok): (c: Chain)
    requires Known(op) && Printable(r)
    ensures WellFormed(c)
    decreases r, 2
  {
    if NeedsRight(r, op) then Last(Group(Print(r))) else Print(r)
  }

  function Append(a: Chain, op: Tok, b: Chain): (c: Chain)
    requires WellFormed(a) && Known(op) && WellFormed(b)
    ensures WellFormed(c)
  {
    match a
    case Last(p) => More(p, op, b)
    case More(p, o, r) => More(p, o, Append(r, op, b))
  }

  function PrintOperand(t: Tree): (p: Operand)
    requires Printable(t)
    ensures WellFormedOperand(p)
    decreases t, if IsNode(t) then 2 else 0
  {
    match t
    case Leaf(tok) => Atom(tok)
    case Member(b, name) => MemberOf(PrintOperand(b), Ident(name))
    case Call(f, args) => if args == [] then CallEmpty(PrintOperand(f)) else CallOf(PrintOperand(f), PrintArgs(args))
    case _ => Group(Print(t))
  }

  function PrintArgs(ts: seq<Tree>): (a: Args)
    requires ts != [] && AllPrintable(ts)
    ensures WellFormedArgs(a)
    decreases ts, 3
  {
    if |ts| == 1 then Single(Print(ts[0])) else Several(Print(ts[0]), PrintArgs(ts[1..]))
  }

  // ----- What printing means -----

  lemma {:induction false} AppendOps(a: Chain, op: Tok, b: Chain)
    requires WellFormed(a) && Known(op) && WellFormed(b)
    ensures Ops(Append(a, op, b)) == Ops(a) + [op] + Ops(b)
  {
    hide WellFormedOperand, Known;
    match a
    case Last(p) =>
    case More(p, o, r) => AppendOps(r, op, b);
  }

  lemma {:induction false} AppendTrees(a: Chain, op: Tok, b: Chain)
    requires WellFormed(a) && Known(op) && WellFormed(b)
    ensures Trees(Append(a, op, b)) == Trees(a) + Trees(b)
  {
    hide MeaningOperand, WellFormedOperand, Known, Ops;
    match a
    case Last(p) => assert Append(a, op, b) == More(p, op, b);
    case More(p, o, r) =>
      AppendTrees(r, op, b);
      assert Trees(Append(a, op, b)) == [MeaningOperand(p)] + Trees(Append(r, op, b));
  }

  lemma {:induction false} AppendParts(a: Chain, op: Tok, b: Chain)
    requires WellFormed(a) && Known(op) && WellFormed(b)
    ensures Trees(Append(a, op, b)) == Trees(a) + Trees(b) && Ops(Append(a, op, b)) == Ops(a) + [op] + Ops(b)
  {
    hide Trees, Ops, Append;
    AppendOps(a, op, b);
    AppendTrees(a, op, b);
  }

  // The printed chain of a tree with an operator splits at that operator.
  lemma AppendSplits(a: seq<Tok>, op: Tok, b: seq<Tok>)
    requires AllKnown(a) && Known(op) && AllKnown(b)
    requires forall i :: 0 <= i < |a| ==> Beats(a[i], op)
    requires forall i :: 0 <= i < |b| ==> Looser(op, b[i])
    ensures AllKnown(a + [op] + b) && IsSplit(a + [op] + b, |a|)
  {
    var ops := a + [op] + b;
    forall j | 0 <= j < |a| ensures Loosest(op, ops[j], op.AssignOp?) { assert ops[j] == a[j]; }
    forall j | |a| < j < |ops| ensures Loosest(op, ops[j], !op.AssignOp?) { assert ops[j] == b[j - |a| - 1]; }
  }

  // All the operators of a printed tree are as tight as its own, or tighter.
  lemma {:induction false} PrintedTight(t: Tree, i: nat)
    requires Printable(t) && i < |Ops(Print(t))|
    ensures IsNode(t) && Known(OpOf(t)) && Known(Ops(Print(t))[i])
    ensures BindingPower(Ops(Print(t))[i]) >= BindingPower(OpOf(t))
    decreases t, 0
  {
    if t.Binary? || t.Assignment? {
      var op, l, r := OpOf(t), t.lhs, t.rhs;
      var a, b := Left(l, op), Right(r, op);
      AppendParts(a, op, b);
      var n := |Ops(a)|;
      if i < n {
        LeftTight(l, op, i);
      } else if i > n {
        RightTight(r, op, i - n - 1);
      }
    }
  }

  lemma {:induction false} LeftTight(l: Tree, op: Tok, i: nat)
    requires Printable(l) && Known(op) && i < |Ops(Left(l, op))|
    ensures Known(Ops(Left(l, op))[i]) && Beats(Ops(Left(l, op))[i], op)
    decreases l, 1
  {
    PrintedTight(l, i);
  }

  lemma {:induction false} RightTight(r: Tree, op: Tok, i: nat)
    requires Printable(r) && Known(op) && i < |Ops(Right(r, op))|
    ensures Known(Ops(Right(r, op))[i]) && Looser(op, Ops(Right(r, op))[i])
    decreases r, 1
  {
    PrintedTight(r, i);
  }

  // A printed tree means that tree.
  lemma {:induction false} PrintMeans(t: Tree)
    requires Printable(t)
    ensures Meaning(Print(t)) == t
    decreases t, 1
  {
    if t.Binary? || t.Assignment? {
      var op, l, r := OpOf(t), t.lhs, t.rhs;
      LeftMeans(l, op);
      RightMeans(r, op);
      NodeMeans(t, op, l, r);
    } else {
      OperandMeans(t);
      assert Trees(Print(t)) == [MeaningOperand(PrintOperand(t))];
    }
  }

  lemma {:induction false} NodeMeans(t: Tree, op: Tok, l: Tree, r: Tree)
    requires Printable(t) && IsNode(t) && op == OpOf(t) && l == t.lhs && r == t.rhs && Known(op)
    requires Meaning(Left(l, op)) == l && Meaning(Right(r, op)) == r
    ensures Meaning(Print(t)) == t
  {
    hide TreeOf, Trees, Left, Right;
    var a, b := Left(l, op), Right(r, op);
    AppendParts(a, op, b);
    OpsKnown(a);
    OpsKnown(b);
    var n := |Ops(a)|;
    forall i | 0 <= i < n ensures Beats(Ops(a)[i], op) { LeftTight(l, op, i); }
    forall i | 0 <= i < |Ops(b)| ensures Looser(op, Ops(b)[i]) { RightTight(r, op, i); }
    AppendSplits(Ops(a), op, Ops(b));
    var operands, ops := Trees(a) + Trees(b), Ops(a) + [op] + Ops(b);
    TreeSplit(operands, ops, n);
    assert operands[..n + 1] == Trees(a) && operands[n + 1..] == Trees(b) && ops[..n] == Ops(a) && ops[n + 1..] == Ops(b);
  }

  lemma {:induction false} LeftMeans(l: Tree, op: Tok)
    requires Printable(l) && Known(op)
    ensures Meaning(Left(l, op)) == l
    decreases l, 2
  {
    PrintMeans(l);
    GroupMeans(Print(l));
  }

  lemma {:induction false} RightMeans(r: Tree, op: Tok)
    requires Printable(r) && Known(op)
    ensures Meaning(Right(r, op)) == r
    decreases r, 2
  {
    PrintMeans(r);
    GroupMeans(Print(r));
  }

  lemma {:induction false} GroupMeans(c: Chain)
    requires WellFormed(c)
    ensures Meaning(Last(Group(c))) == Meaning(c)
  {
    assert Trees(Last(Group(c))) == [Meaning(c)];
  }

  lemma {:induction false} OperandMeans(t: Tree)
    requires Printable(t)
    ensures MeaningOperand(PrintOperand(t)) == t
    decreases t, if IsNode(t) then 2 else 0
  {
    match t
    case Leaf(_) =>
    case Member(b, _) => OperandMeans(b);
    case Call(f, args) =>
      OperandMeans(f);
      if args != [] { ArgsMean(args); }
    case _ => PrintMeans(t);
  }

  lemma {:induction false} ArgsMean(ts: seq<Tree>)
    requires ts != [] && AllPrintable(ts)
    ensures MeaningArgs(PrintArgs(ts)) == ts
    decreases ts, 3
  {
    PrintMeans(ts[0]);
    if |ts| > 1 { ArgsMean(ts[1..]); }
  }

  // ----- What can be printed -----

  lemma {:induction false} TreePrintable(operands: seq<Tree>, ops: seq<Tok>)
    requires |operands| == |ops| + 1 && AllKnown(ops) && forall i :: 0 <= i < |operands| ==> Printable(operands[i])
    ensures Printable(TreeOf(operands, ops))
    decreases |ops|
  {
    hide Split, Known;
    if ops != [] {
      var k := Split(ops);
      SplitInRange(ops, k);
      TreePrintable(operands[..k + 1], ops[..k]);
      TreePrintable(operands[k + 1..], ops[k + 1..]);
      JoinPrintable(ops[k], TreeOf(operands[..k + 1], ops[..k]), TreeOf(operands[k + 1..], ops[k + 1..]));
    }
  }

  lemma {:induction false} JoinPrintable(op: Tok, l: Tree, r: Tree)
    requires Known(op) && Printable(l) && Printable(r)
    ensures Printable(Join(op, l, r))
  {
  }

  lemma {:induction false} MeaningPrintable(c: Chain)
    requires WellFormed(c)
    ensures Printable(Meaning(c))
    decreases c, 2
  {
    hide TreeOf, Printable;
    OpsKnown(c);
    TreesPrintable(c);
    TreePrintable(Trees(c), Ops(c));
  }

  lemma {:induction false} TreesPrintable(c: Chain)
    requires WellFormed(c)
    ensures forall i :: 0 <= i < |Trees(c)| ==> Printable(Trees(c)[i])
    decreases c, 1
  {
    hide Printable, MeaningOperand;
    match c
    case Last(p) => OperandPrintable(p);
    case More(p, _, r) =>
      OperandPrintable(p);
      TreesPrintable(r);
  }

  lemma {:induction false} OperandPrintable(p: Operand)
    requires WellFormedOperand(p)
    ensures Printable(MeaningOperand(p))
    decreases p, 3
  {
    match p
    case Atom(_) =>
    case Group(c) => MeaningPrintable(c);
    case MemberOf(b, _) => OperandPrintable(b);
    case CallEmpty(f) => OperandPrintable(f);
    case CallOf(f, args) =>
      OperandPrintable(f);
      ArgsPrintable(args);
  }

  lemma {:induction false} ArgsPrintable(a: Args)
    requires WellFormedArgs(a)
    ensures AllPrintable(MeaningArgs(a))
    decreases a, 3
  {
    match a
    case Single(c) =>
      MeaningPrintable(c);
      assert MeaningArgs(a)[1..] == [];
    case Several(c, r) =>
      MeaningPrintable(c);
      ArgsPrintable(r);
      assert MeaningArgs(a)[1..] == MeaningArgs(r);
  }

  // Exactly the trees of expressions can be printed, so parsing and printing
  // undo each other on all of them.
  lemma {:induction false} PrintableExactly(t: Tree)
    ensures Printable(t) <==> exists c :: WellFormed(c) && Meaning(c) == t
  {
    hide Printable, Meaning, WellFormed, Print;
    if Printable(t) {
      PrintMeans(t);
      assert WellFormed(Print(t)) && Meaning(Print(t)) == t;
    }
    if c :| WellFormed(c) && Meaning(c) == t { MeaningPrintable(c); }
  }
}
