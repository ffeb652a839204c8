// The parser object, and what it parses.
module SimpleParsing {
  import opened Grammar
  import opened Parser
  import opened Printer

  class SimpleParser {
    const tokens: seq<Tok>
    var pos: nat
    var parseStack: seq<Tree>
    var operators: seq<Tok>
    var nextId: nat

    constructor (tokens: seq<Tok>)
      ensures this.tokens == tokens && pos == 0 && parseStack == [] && operators == [] && nextId == 0
    {
      this.tokens, pos, parseStack, operators, nextId := tokens, 0, [], [], 0;
    }

    function Current(): Tok
      reads this
    {
      TokAt(tokens, pos)
    }

    // Stays on the sentinel past the end.
    method Advance()
      modifies `pos
      ensures pos == if old(pos) < |tokens| then old(pos) + 1 else old(pos)
    {
      if pos < |tokens| {
        pos := pos + 1;
      }
    }

    // Every node gets its number here.
    method Push(t: Tree)
      modifies `parseStack, `nextId
      ensures parseStack == old(parseStack) + [t] && nextId == old(nextId) + 1
    {
      parseStack := parseStack + [t];
      nextId := nextId + 1;
    }

    method Pop() returns (t: Tree)
      requires parseStack != []
      modifies `parseStack
      ensures old(parseStack) == parseStack + [t]
    {
      t := parseStack[|parseStack| - 1];
      parseStack := parseStack[..|parseStack| - 1];
    }

    // Folds the operator on top with the two trees on top.
    method ParseBinaryExpr(ghost trees: seq<Tree>, ghost a: Tree, ghost b: Tree, ghost ops: seq<Tok>, ghost op: Tok)
      requires parseStack == trees + [a, b] && operators == ops + [op] && Known(op)
      modifies `parseStack, `operators, `nextId
      ensures parseStack == trees + [Join(op, a, b)] && operators == ops && nextId == old(nextId) + 1
    {
      var top := operators[|operators| - 1];
      operators := operators[..|operators| - 1];
      assert top == op;
      var rhs := Pop();
      assert (parseStack + [rhs])[|parseStack|] == b && (parseStack + [rhs])[..|parseStack|] == trees + [a];
      var lhs := Pop();
      assert (parseStack + [lhs])[|parseStack|] == a && (parseStack + [lhs])[..|parseStack|] == trees;
      if top.AssignOp? {
        Push(Assignment(lhs, rhs));
      } else {
        Push(Binary(top.text, lhs, rhs));
      }
    }

    // Parses the expression at the cursor: one tree more on the stack, as many
    // nodes numbered as it has, the operators as they were. It fails only where
    // no expression starts.
    method ParseExpr() returns (ok: bool, ghost chain: Chain)
      requires pos <= |tokens|
      modifies `pos, `parseStack, `operators, `nextId
      ensures ok ==> ChainHere(tokens, old(pos), chain) && old(pos) < pos == old(pos) + |Yield(chain)| <= |tokens|
      ensures ok ==> parseStack == old(parseStack) + [Meaning(chain)] && operators == old(operators)
      ensures ok ==> nextId == old(nextId) + Size(Meaning(chain))
      ensures forall c :: ChainHere(tokens, old(pos), c) ==> ok && c == chain
      decreases |tokens| - pos, 2
    {
      hide ChainHere, OperandHere, Yield, YieldOperand, ReadSoFar, Holds, HoldsUnder, TreeOf, MeaningOperand, Meaning, Prepend, Size, SizeAll, Stacked, AllKnown;
      ok, chain := true, Last(Atom(End));
      var base := |operators|;
      ghost var start, stack0, ops0, id0 := pos, parseStack, operators, nextId;
      ghost var items: seq<Item>, trees: seq<Tree>, stack: seq<Tok> := [], [], [];
      ReadNothing(tokens, start);
      while true
        invariant ok && start <= pos <= |tokens|
        invariant parseStack == stack0 + trees && operators == ops0 + stack && |trees| == |stack|
        invariant ReadSoFar(tokens, start, items, pos) && Holds(items, trees, stack)
        invariant nextId == id0 + SizeAll(trees)
        decreases |tokens| - pos
      {
        ghost var before := pos;
        ghost var operand;
        ok, operand := ParseOperand();
        if !ok {
          NoMoreChains(tokens, start, items, before);
          return;
        }
        OperandIsWellFormed(tokens, before, operand);
        ghost var x := MeaningOperand(operand);
        SizeAllAppend(trees, x);
        var op := Current();
        if !IsOperator(op) {
          chain := ReadEnd(tokens, start, items, before, operand);
          EndHolds(items, trees, stack, operand);
          trees := trees + [x];
          break;
        }
        ReadMore(tokens, start, items, before, operand, op);
        if !Known(op) {
          ok := false;
          return;
        }
        PushHolds(items, trees, stack, operand, op);
        items := items + [Item(operand, op)];
        trees, stack := FoldTighter(base, op, stack0, ops0, items, trees + [x], stack);
        operators := operators + [op];
        Advance();
        stack := stack + [op];
      }
      FoldRest(base, stack0, ops0, trees, stack, Meaning(chain));
    }

    // Folds while the operator on top does not give way to the one that comes next.
    method FoldTighter(base: nat, op: Tok, ghost stack0: seq<Tree>, ghost ops0: seq<Tok>, ghost items: seq<Item>, ghost trees0: seq<Tree>, ghost stack1: seq<Tok>)
      returns (ghost trees: seq<Tree>, ghost stack: seq<Tok>)
      requires base == |ops0| && HoldsUnder(items, trees0, stack1, op)
      requires parseStack == stack0 + trees0 && operators == ops0 + stack1
      modifies `parseStack, `operators, `nextId
      ensures parseStack == stack0 + trees && operators == ops0 + stack && |trees| == |stack| + 1
      ensures Holds(items, trees, stack + [op])
      ensures nextId - SizeAll(trees) == old(nextId) - SizeAll(trees0)
    {
      hide Equivalent, TreeOf, Stacked, Size, SizeAll, BindingPower, Join, ItemsOk, Looser, Beats;
      trees, stack := trees0, stack1;
      StackedKnown(stack);
      while |operators| > base && (if op.AssignOp? then BindingPower(operators[|operators| - 1]) > BindingPower(op)
                                   else BindingPower(operators[|operators| - 1]) >= BindingPower(op))
        invariant parseStack == stack0 + trees && operators == ops0 + stack && |trees| == |stack| + 1
        invariant Stacked(stack) && (stack != [] ==> Known(stack[|stack| - 1]))
        invariant Equivalent(ItemTrees(items), ItemOps(items), trees, stack + [op])
        invariant nextId - SizeAll(trees) == old(nextId) - SizeAll(trees0)
        decreases |stack|
      {
        ghost var n := |stack| - 1;
        ghost var a, b, top := trees[n], trees[n + 1], stack[n];
        ghost var below, under := trees[..n], stack[..n];
        assert trees == below + [a, b] && stack == under + [top] && stack + [op] == under + [top, op];
        assert operators[|operators| - 1] == top;
        BeatsIs(top, op);
        FoldUnder(ItemTrees(items), ItemOps(items), below, a, b, under, top, op);
        FoldSizes(below, a, b, top);
        StackParts(under, top);
        StackedKnown(under);
        ParseBinaryExpr(stack0 + below, a, b, ops0 + under, top);
        trees, stack := below + [Join(top, a, b)], under;
      }
      if stack != [] {
        assert operators[|operators| - 1] == stack[|stack| - 1];
        BeatsIs(stack[|stack| - 1], op);
        LooserOrBeats(stack[|stack| - 1], op);
      }
      StackMore(stack, op);
    }

    // At the end of the expression all that was pushed since it started is folded.
    method FoldRest(base: nat, ghost stack0: seq<Tree>, ghost ops0: seq<Tok>, ghost trees0: seq<Tree>, ghost stack1: seq<Tok>, ghost result: Tree)
      requires base == |ops0| && Stacked(stack1) && AllKnown(stack1)
      requires parseStack == stack0 + trees0 && operators == ops0 + stack1 && |trees0| == |stack1| + 1
      requires TreeOf(trees0, stack1) == result
      modifies `parseStack, `operators, `nextId
      ensures parseStack == stack0 + [result] && operators == ops0
      ensures nextId - Size(result) == old(nextId) - SizeAll(trees0)
    {
      hide Stacked, Size, SizeAll, Join, TreeOf, AllKnown;
      ghost var trees, stack := trees0, stack1;
      while |operators| > base
        invariant parseStack == stack0 + trees && operators == ops0 + stack && |trees| == |stack| + 1
        invariant Stacked(stack) && AllKnown(stack) && TreeOf(trees, stack) == result
        invariant nextId - SizeAll(trees) == old(nextId) - SizeAll(trees0)
        decreases |stack|
      {
        ghost var n := |stack| - 1;
        ghost var a, b, top := trees[n], trees[n + 1], stack[n];
        ghost var below, under := trees[..n], stack[..n];
        assert trees == below + [a, b] && stack == under + [top];
        FoldLast(below, a, b, under, top);
        FoldSizes(below, a, b, top);
        ParseBinaryExpr(stack0 + below, a, b, ops0 + under, top);
        trees, stack := below + [Join(top, a, b)], under;
      }
      AloneTree(trees, stack, result);
    }

    method ParseOperand() returns (ok: bool, ghost operand: Operand)
      requires pos <= |tokens|
      modifies `pos, `parseStack, `operators, `nextId
      ensures ok ==> OperandHere(tokens, old(pos), operand) && old(pos) < pos == old(pos) + |YieldOperand(operand)| <= |tokens|
      ensures ok ==> parseStack == old(parseStack) + [MeaningOperand(operand)] && operators == old(operators)
      ensures ok ==> nextId == old(nextId) + Size(MeaningOperand(operand))
      ensures forall x :: OperandHere(tokens, old(pos), x) ==> ok && x == operand
      decreases |tokens| - pos, 1
    {
      hide Here, YieldOperand, Yield, MeaningOperand, Meaning, Within;
      ghost var start, stack0, id0 := pos, parseStack, nextId;
      ok, operand := ParsePrimary();
      if !ok {
        return;
      }
      while Current().OpenPar? || Current().Dot?
        invariant start < pos <= |tokens| && OnlyOperand(tokens, start, operand, pos)
        invariant parseStack == stack0 + [MeaningOperand(operand)] && operators == old(operators)
        invariant nextId == id0 + Size(MeaningOperand(operand))
        decreases |tokens| - pos
      {
        if Current().Dot? {
          ok, operand := ParseMemberExpr(start, operand, stack0, id0);
        } else {
          ok, operand := ParseCallExpr(start, operand, stack0, id0);
        }
        if !ok {
          return;
        }
      }
      assert OperandHere(tokens, start, operand);
      forall x | OperandHere(tokens, start, x) ensures x == operand {
        OnlyItself(tokens, start, operand, pos, x);
      }
    }

    // A name, a literal or a group.
    method ParsePrimary() returns (ok: bool, ghost operand: Operand)
      requires pos <= |tokens|
      modifies `pos, `parseStack, `operators, `nextId
      ensures ok ==> OnlyOperand(tokens, old(pos), operand, pos) && old(pos) < pos <= |tokens|
      ensures ok ==> parseStack == old(parseStack) + [MeaningOperand(operand)] && operators == old(operators)
      ensures ok ==> nextId == old(nextId) + Size(MeaningOperand(operand))
      ensures !ok ==> forall x :: !OperandHere(tokens, old(pos), x)
      decreases |tokens| - pos, 0
    {
      hide Here, Yield, Within, Meaning;
      ok, operand := false, Atom(End);
      ghost var start := pos;
      var t := Current();
      if t.Ident? || t.Literal? {
        HereOne(tokens, start, t);
        Advance();
        Push(Leaf(t));
        ok, operand := true, Atom(t);
        forall x | OperandHere(tokens, start, x) ensures Within(operand, x) { AtomWithin(tokens, start, t, x); }
      } else if t.OpenPar? {
        Advance();
        ghost var inside := pos;
        ghost var c;
        ok, c := ParseExpr();
        if !ok {
          NoGroup(tokens, start, inside);
          return;
        }
        if !Current().ClosePar? {
          ok := false;
          NotClosed(tokens, start, inside, c);
          return;
        }
        Advance();
        operand := Group(c);
        GroupHere(tokens, start, c);
        assert |YieldOperand(operand)| == |Yield(c)| + 2;
        forall x | OperandHere(tokens, start, x) ensures Within(operand, x) { GroupWithin(tokens, start, inside, c, x); }
      } else {
        forall x ensures !OperandHere(tokens, start, x) {
          if OperandHere(tokens, start, x) { FirstToken(tokens, start, x); }
        }
      }
    }

    method ParseMemberExpr(ghost start: nat, ghost q: Operand, ghost stack0: seq<Tree>, ghost id0: nat) returns (ok: bool, ghost operand: Operand)
      requires Current().Dot? && start < pos <= |tokens| && OnlyOperand(tokens, start, q, pos)
      requires parseStack == stack0 + [MeaningOperand(q)] && nextId == id0 + Size(MeaningOperand(q))
      modifies `pos, `parseStack, `operators, `nextId
      ensures ok ==> OnlyOperand(tokens, start, operand, pos) && old(pos) < pos <= |tokens|
      ensures ok ==> parseStack == stack0 + [MeaningOperand(operand)] && operators == old(operators)
      ensures ok ==> nextId == id0 + Size(MeaningOperand(operand))
      ensures !ok ==> forall x :: !OperandHere(tokens, start, x)
    {
      hide Here, YieldOperand, Within;
      operand := q;
      ghost var dot := pos;
      var base := Pop();
      assert (parseStack + [base])[|parseStack|] == MeaningOperand(q) && (parseStack + [base])[..|parseStack|] == stack0;
      Advance();
      var member := Current();
      ok := member.Ident? || member.BinOp?;
      if ok {
        operand := MemberOf(q, member);
        Advance();
        Push(Member(base, if member.Ident? then member.name else member.text));
      }
      MemberOnly(tokens, start, q, dot, member);
    }

    method ParseCallExpr(ghost start: nat, ghost q: Operand, ghost stack0: seq<Tree>, ghost id0: nat) returns (ok: bool, ghost operand: Operand)
      requires Current().OpenPar? && start < pos <= |tokens| && OnlyOperand(tokens, start, q, pos)
      requires parseStack == stack0 + [MeaningOperand(q)] && nextId == id0 + Size(MeaningOperand(q))
      modifies `pos, `parseStack, `operators, `nextId
      ensures ok ==> OnlyOperand(tokens, start, operand, pos) && old(pos) < pos <= |tokens|
      ensures ok ==> parseStack == stack0 + [MeaningOperand(operand)] && operators == old(operators)
      ensures ok ==> nextId == id0 + Size(MeaningOperand(operand))
      ensures !ok ==> forall x :: !OperandHere(tokens, start, x)
      decreases |tokens| - pos, 3
    {
      hide Here, Yield, YieldOperand, YieldArgs, Within, ArgsHere, ChainHere, Meaning, SizeAll;
      operand := q;
      ghost var open := pos;
      var callee := Pop();
      assert (parseStack + [callee])[|parseStack|] == MeaningOperand(q) && (parseStack + [callee])[..|parseStack|] == stack0;
      Advance();
      var args: seq<Tree> := [];
      if Current().ClosePar? {
        Advance();
        operand := CallEmpty(q);
        ok := true;
        EmptyCallOnly(tokens, start, q, open);
        assert SizeAll([]) == 0 by { NoSize(); }
      } else {
        ghost var first := pos;
        ghost var read;
        ok, args, read := ParseArguments();
        if ok {
          operand := CallOf(q, read);
          Advance();
        }
        CallOnly(tokens, start, q, open, first, ok, read);
      }
      if ok {
        Push(Call(callee, args));
      }
    }

    // One or more arguments, up to the closing parenthesis.
    method ParseArguments() returns (ok: bool, args: seq<Tree>, ghost read: Args)
      requires pos <= |tokens|
      modifies `pos, `parseStack, `operators, `nextId
      ensures ok ==> ArgsHere(tokens, old(pos), read) && args == MeaningArgs(read) && pos == old(pos) + |YieldArgs(read)| < |tokens|
      ensures ok ==> parseStack == old(parseStack) && operators == old(operators) && nextId == old(nextId) + SizeAll(args)
      ensures forall a :: ArgsHere(tokens, old(pos), a) ==> ok && a == read
      decreases |tokens| - pos, 3
    {
      hide Here, Yield, YieldArgs, ChainHere, Meaning, SizeAll, PrependArgs, YieldCommas, Size;
      ok, args, read := true, [], Single(Last(Atom(End)));
      ghost var start, stack0, id0 := pos, parseStack, nextId;
      ghost var cs: seq<Chain> := [];
      StartOfArgs(tokens, start);
      assert SizeAll([]) == 0 by { NoSize(); }
      while true
        invariant start <= pos <= |tokens| && parseStack == stack0 && operators == old(operators) && nextId == id0 + SizeAll(args)
        invariant AllWellFormed(cs) && args == Meanings(cs)
        invariant Here(tokens, start, YieldCommas(cs)) && pos == start + |YieldCommas(cs)|
        invariant OnlyArgs(tokens, start, cs, pos)
        decreases |tokens| - pos
      {
        ghost var before := pos;
        ghost var c;
        ok, c := ParseExpr();
        if !ok {
          NoArg(tokens, start, cs, before);
          return;
        }
        assert WellFormed(c) by { ChainIsWellFormed(tokens, before, c); }
        OneMoreArg(tokens, start, cs, before, c);
        var arg := Pop();
        assert (parseStack + [arg])[|parseStack|] == Meaning(c) && (parseStack + [arg])[..|parseStack|] == stack0;
        SizeAllAppend(args, arg);
        args := args + [arg];
        if Current().Comma? {
          Advance();
          CommaHere(tokens, start, cs, before, c);
          cs := cs + [c];
        } else {
          ok := Current().ClosePar?;
          if ok {
            PrependArgsMeans(cs, c);
            read := PrependArgs(cs, Single(c));
            ArgsComplete(tokens, start, cs, before, c);
          }
          return;
        }
      }
    }
  }

  // A printed tree, whatever ends it, is parsed back.
  method Reparse(t: Tree, rest: seq<Tok>) returns (ok: bool, result: Tree)
    requires Printable(t) && (rest == [] || EndsChain(rest[0]))
    ensures ok && result == t
  {
    var parser := new SimpleParser(Yield(Print(t)) + rest);
    PrintedIsHere(t, rest);
    ghost var chain;
    ok, chain := parser.ParseExpr();
    assert parser.parseStack == [t];
    result := parser.Pop();
    assert (parser.parseStack + [result])[|parser.parseStack|] == t;
  }
}
