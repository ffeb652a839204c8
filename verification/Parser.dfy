// The expression parser: a cursor, a stack of trees and a stack of operators.
module Parser {
  import opened Grammar
  import opened Printer

  function TokAt(tokens: seq<Tok>, pos: nat): Tok {
    if pos < |tokens| then tokens[pos] else End
  }

  // ys is what comes next.
  ghost predicate Here(tokens: seq<Tok>, pos: nat, ys: seq<Tok>) {
    pos + |ys| <= |tokens| && tokens[pos..pos + |ys|] == ys
  }

  lemma HereAppend(tokens: seq<Tok>, pos: nat, xs: seq<Tok>, ys: seq<Tok>)
    ensures Here(tokens, pos, xs + ys) <==> Here(tokens, pos, xs) && Here(tokens, pos + |xs|, ys)
  {
    if pos + |xs + ys| <= |tokens| {
      var all := tokens[pos..pos + |xs + ys|];
      assert all[..|xs|] == tokens[pos..pos + |xs|] && all[|xs|..] == tokens[pos + |xs|..pos + |xs| + |ys|];
      assert all == all[..|xs|] + all[|xs|..];
      assert (xs + ys)[..|xs|] == xs && (xs + ys)[|xs|..] == ys;
    }
  }

  lemma HereOne(tokens: seq<Tok>, pos: nat, t: Tok)
    requires t != End
    ensures Here(tokens, pos, [t]) <==> TokAt(tokens, pos) == t
  {
    if pos < |tokens| { assert tokens[pos..pos + 1] == [tokens[pos]]; }
  }

  // What may follow an operand, and a whole expression.
  predicate EndsOperand(t: Tok) { !t.OpenPar? && !t.Dot? }

  predicate EndsChain(t: Tok) { EndsOperand(t) && !IsOperator(t) }

  ghost predicate ChainHere(tokens: seq<Tok>, pos: nat, c: Chain) {
    WellFormed(c) && Here(tokens, pos, Yield(c)) && EndsChain(TokAt(tokens, pos + |Yield(c)|))
  }

  ghost predicate OperandHere(tokens: seq<Tok>, pos: nat, p: Operand) {
    WellFormedOperand(p) && Here(tokens, pos, YieldOperand(p)) && EndsOperand(TokAt(tokens, pos + |YieldOperand(p)|))
  }

  ghost predicate ArgsHere(tokens: seq<Tok>, pos: nat, a: Args) {
    WellFormedArgs(a) && Here(tokens, pos, YieldArgs(a)) && TokAt(tokens, pos + |YieldArgs(a)|) == ClosePar
  }

  lemma {:induction false} YieldNotEmpty(c: Chain)
    ensures |Yield(c)| > 0
  {
    match c
    case Last(p) => YieldOperandNotEmpty(p);
    case More(p, _, _) =>
  }

  lemma {:induction false} YieldOperandNotEmpty(p: Operand)
    ensures |YieldOperand(p)| > 0
  {
  }

  // ----- A chain, operand by operand -----

  datatype Item = Item(operand: Operand, op: Tok)

  function Prepend(items: seq<Item>, rest: Chain): Chain {
    if items == [] then rest else More(items[0].operand, items[0].op, Prepend(items[1..], rest))
  }

  lemma {:induction false} PrependSnoc(items: seq<Item>, i: Item, rest: Chain)
    ensures Prepend(items + [i], rest) == Prepend(items, More(i.operand, i.op, rest))
    decreases items
  {
    if items == [] {
      assert (items + [i])[1..] == [];
    } else {
      assert (items + [i])[1..] == items[1..] + [i];
      PrependSnoc(items[1..], i, rest);
    }
  }

  ghost predicate ItemsOk(items: seq<Item>) {
    forall k :: 0 <= k < |items| ==> WellFormedOperand(items[k].operand) && Known(items[k].op)
  }

  function ItemTrees(items: seq<Item>): (trees: seq<Tree>)
    requires ItemsOk(items)
    ensures |trees| == |items|
  {
    seq(|items|, k requires 0 <= k < |items| => MeaningOperand(items[k].operand))
  }

  function ItemOps(items: seq<Item>): seq<Tok> {
    seq(|items|, k requires 0 <= k < |items| => items[k].op)
  }

  lemma {:induction false} PrependMeans(items: seq<Item>, p: Operand)
    requires ItemsOk(items) && WellFormedOperand(p)
    ensures var c := Prepend(items, Last(p));
      && WellFormed(c) && Trees(c) == ItemTrees(items) + [MeaningOperand(p)] && Ops(c) == ItemOps(items)
    decreases items
  {
    if items != [] {
      PrependMeans(items[1..], p);
      assert ItemTrees(items) == [MeaningOperand(items[0].operand)] + ItemTrees(items[1..]);
      assert ItemOps(items) == [items[0].op] + ItemOps(items[1..]);
    }
  }

  // The yield of items followed by a chain.
  function YieldItems(items: seq<Item>): seq<Tok> {
    if items == [] then []
    else YieldItems(items[..|items| - 1]) + (YieldOperand(items[|items| - 1].operand) + [items[|items| - 1].op])
  }

  lemma {:induction false} PrependYields(items: seq<Item>, rest: Chain)
    ensures Yield(Prepend(items, rest)) == YieldItems(items) + Yield(rest)
  {
    if items != [] {
      var n := |items| - 1;
      assert items == items[..n] + [items[n]];
      PrependSnoc(items[..n], items[n], rest);
      PrependYields(items[..n], More(items[n].operand, items[n].op, rest));
    }
  }

  // Any chain at start begins with the items read so far, and goes on at pos.
  ghost predicate OnlyWay(tokens: seq<Tok>, start: nat, items: seq<Item>, pos: nat) {
    forall c :: ChainHere(tokens, start, c) ==> GoesOn(tokens, items, pos, c)
  }

  ghost predicate GoesOn(tokens: seq<Tok>, items: seq<Item>, pos: nat, c: Chain) {
    exists rest :: c == Prepend(items, rest) && ChainHere(tokens, pos, rest)
  }

  // A chain at pos starts with an operand there, followed by the operator or the end.
  lemma FirstOperand(tokens: seq<Tok>, pos: nat, c: Chain)
    requires ChainHere(tokens, pos, c)
    ensures var p := c.operand;
      && OperandHere(tokens, pos, p)
      && (c.Last? ==> EndsChain(TokAt(tokens, pos + |YieldOperand(p)|)))
      && (c.More? ==> TokAt(tokens, pos + |YieldOperand(p)|) == c.op && Known(c.op))
      && (c.More? ==> ChainHere(tokens, pos + |YieldOperand(p)| + 1, c.rest))
  {
    hide YieldOperand;
    match c
    case Last(p) =>
    case More(p, op, r) =>
      HereAppend(tokens, pos, YieldOperand(p) + [op], Yield(r));
      HereAppend(tokens, pos, YieldOperand(p), [op]);
      HereOne(tokens, pos + |YieldOperand(p)|, op);
  }

  // With operand p read up to an operator, every chain has both, and goes on after them.
  lemma {:induction false} OneMoreItem(tokens: seq<Tok>, start: nat, items: seq<Item>, pos: nat, p: Operand, op: Tok)
    requires OnlyWay(tokens, start, items, pos)
    requires forall x :: OperandHere(tokens, pos, x) ==> x == p
    requires TokAt(tokens, pos + |YieldOperand(p)|) == op && IsOperator(op)
    ensures Known(op) ==> OnlyWay(tokens, start, items + [Item(p, op)], pos + |YieldOperand(p)| + 1)
    ensures !Known(op) ==> forall c :: !ChainHere(tokens, start, c)
  {
    hide YieldOperand, Prepend, ChainHere, OperandHere;
    forall c | ChainHere(tokens, start, c)
      ensures Known(op) && GoesOn(tokens, items + [Item(p, op)], pos + |YieldOperand(p)| + 1, c)
    {
      assert GoesOn(tokens, items, pos, c);
      var rest :| c == Prepend(items, rest) && ChainHere(tokens, pos, rest);
      FirstOperand(tokens, pos, rest);
      assert rest == More(p, op, rest.rest);
      PrependSnoc(items, Item(p, op), rest.rest);
    }
  }

  // With operand p read up to something else, the chain is over.
  lemma {:induction false} LastOperand(tokens: seq<Tok>, start: nat, items: seq<Item>, pos: nat, p: Operand)
    requires OnlyWay(tokens, start, items, pos)
    requires forall x :: OperandHere(tokens, pos, x) ==> x == p
    requires !IsOperator(TokAt(tokens, pos + |YieldOperand(p)|))
    ensures forall c :: ChainHere(tokens, start, c) ==> c == Prepend(items, Last(p))
  {
    hide YieldOperand, Prepend, ChainHere, OperandHere;
    forall c | ChainHere(tokens, start, c) ensures c == Prepend(items, Last(p)) {
      assert GoesOn(tokens, items, pos, c);
      var rest :| c == Prepend(items, rest) && ChainHere(tokens, pos, rest);
      FirstOperand(tokens, pos, rest);
      assert IsOperator(TokAt(tokens, pos + |YieldOperand(p)|)) || rest == Last(p);
    }
  }

  lemma NoOperand(tokens: seq<Tok>, start: nat, items: seq<Item>, pos: nat)
    requires OnlyWay(tokens, start, items, pos) && forall x :: !OperandHere(tokens, pos, x)
    ensures forall c :: !ChainHere(tokens, start, c)
  {
    hide Prepend, ChainHere, OperandHere;
    forall c ensures !ChainHere(tokens, start, c) {
      if ChainHere(tokens, start, c) {
        assert GoesOn(tokens, items, pos, c);
        var rest :| c == Prepend(items, rest) && ChainHere(tokens, pos, rest);
        FirstOperand(tokens, pos, rest);
      }
    }
  }

  // ----- An operand, suffix by suffix -----

  // q is x, or x without some of its suffixes.
  predicate Within(q: Operand, x: Operand)
    decreases x
  {
    q == x ||
    match x
    case MemberOf(b, _) => Within(q, b)
    case CallEmpty(f) => Within(q, f)
    case CallOf(f, _) => Within(q, f)
    case _ => false
  }

  // x is q with one suffix more.
  predicate OneSuffix(q: Operand, x: Operand) {
    match x
    case MemberOf(b, _) => b == q
    case CallEmpty(f) => f == q
    case CallOf(f, _) => f == q
    case _ => false
  }

  lemma {:induction false} NextSuffix(q: Operand, x: Operand) returns (y: Operand)
    requires Within(q, x) && q != x
    ensures OneSuffix(q, y) && Within(y, x)
    decreases x
  {
    match x
    case MemberOf(b, _) => if b == q { y := x; } else { y := NextSuffix(q, b); }
    case CallEmpty(f) => if f == q { y := x; } else { y := NextSuffix(q, f); }
    case CallOf(f, _) => if f == q { y := x; } else { y := NextSuffix(q, f); }
  }

  lemma {:induction false} WithinHere(tokens: seq<Tok>, pos: nat, q: Operand, x: Operand)
    requires Within(q, x) && WellFormedOperand(x) && Here(tokens, pos, YieldOperand(x))
    ensures WellFormedOperand(q) && Here(tokens, pos, YieldOperand(q))
    decreases x
  {
    hide Here;
    if q != x {
      match x
      case MemberOf(b, name) =>
        HereAppend(tokens, pos, YieldOperand(b), [Dot, name]);
        WithinHere(tokens, pos, q, b);
      case CallEmpty(f) =>
        HereAppend(tokens, pos, YieldOperand(f), [OpenPar, ClosePar]);
        WithinHere(tokens, pos, q, f);
      case CallOf(f, args) =>
        assert YieldOperand(x) == YieldOperand(f) + ([OpenPar] + YieldArgs(args) + [ClosePar]);
        HereAppend(tokens, pos, YieldOperand(f), [OpenPar] + YieldArgs(args) + [ClosePar]);
        WithinHere(tokens, pos, q, f);
    }
  }

  // Any operand at start begins with what was read up to pos.
  ghost predicate OnlyOperand(tokens: seq<Tok>, start: nat, q: Operand, pos: nat) {
    && WellFormedOperand(q) && Here(tokens, start, YieldOperand(q)) && pos == start + |YieldOperand(q)|
    && forall x :: OperandHere(tokens, start, x) ==> Within(q, x)
  }

  lemma {:induction false} FirstToken(tokens: seq<Tok>, pos: nat, x: Operand)
    requires WellFormedOperand(x) && Here(tokens, pos, YieldOperand(x))
    ensures TokAt(tokens, pos).Ident? || TokAt(tokens, pos).Literal? || TokAt(tokens, pos).OpenPar?
    ensures x.Atom? ==> TokAt(tokens, pos) == x.tok
    ensures x.Group? ==> TokAt(tokens, pos) == OpenPar
    decreases x
  {
    hide Here;
    match x
    case Atom(t) => HereOne(tokens, pos, t);
    case Group(c) =>
      assert YieldOperand(x) == [OpenPar] + (Yield(c) + [ClosePar]);
      HereAppend(tokens, pos, [OpenPar], Yield(c) + [ClosePar]);
      HereOne(tokens, pos, OpenPar);
    case MemberOf(b, name) =>
      WithinHere(tokens, pos, b, x);
      FirstToken(tokens, pos, b);
    case CallEmpty(f) =>
      WithinHere(tokens, pos, f, x);
      FirstToken(tokens, pos, f);
    case CallOf(f, args) =>
      WithinHere(tokens, pos, f, x);
      FirstToken(tokens, pos, f);
  }

  // A name or literal is all an operand can begin with there.
  lemma {:induction false} AtomWithin(tokens: seq<Tok>, pos: nat, t: Tok, x: Operand)
    requires (t.Ident? || t.Literal?) && TokAt(tokens, pos) == t
    requires WellFormedOperand(x) && Here(tokens, pos, YieldOperand(x))
    ensures Within(Atom(t), x)
    decreases x
  {
    hide Here;
    FirstToken(tokens, pos, x);
    match x
    case MemberOf(b, _) =>
      WithinHere(tokens, pos, b, x);
      AtomWithin(tokens, pos, t, b);
    case CallEmpty(f) =>
      WithinHere(tokens, pos, f, x);
      AtomWithin(tokens, pos, t, f);
    case CallOf(f, _) =>
      WithinHere(tokens, pos, f, x);
      AtomWithin(tokens, pos, t, f);
    case _ =>
  }

  // A group: what is inside is a chain that ends at the closing parenthesis.
  lemma {:induction false} GroupHere(tokens: seq<Tok>, pos: nat, c: Chain)
    ensures Here(tokens, pos, YieldOperand(Group(c))) <==>
      TokAt(tokens, pos) == OpenPar && Here(tokens, pos + 1, Yield(c)) && TokAt(tokens, pos + 1 + |Yield(c)|) == ClosePar
  {
    hide Here;
    assert YieldOperand(Group(c)) == [OpenPar] + (Yield(c) + [ClosePar]);
    HereAppend(tokens, pos, [OpenPar], Yield(c) + [ClosePar]);
    HereAppend(tokens, pos + 1, Yield(c), [ClosePar]);
    HereOne(tokens, pos, OpenPar);
    HereOne(tokens, pos + 1 + |Yield(c)|, ClosePar);
  }

  lemma {:induction false} GroupWithin(tokens: seq<Tok>, pos: nat, inside: nat, c: Chain, x: Operand)
    requires inside == pos + 1 && TokAt(tokens, pos) == OpenPar && forall d :: ChainHere(tokens, inside, d) ==> d == c
    requires WellFormedOperand(x) && Here(tokens, pos, YieldOperand(x))
    ensures Within(Group(c), x)
    decreases x
  {
    hide Here;
    match x
    case Atom(_) => FirstToken(tokens, pos, x);
    case Group(d) =>
      GroupHere(tokens, pos, d);
      assert ChainHere(tokens, inside, d);
    case MemberOf(b, _) =>
      WithinHere(tokens, pos, b, x);
      GroupWithin(tokens, pos, inside, c, b);
    case CallEmpty(f) =>
      WithinHere(tokens, pos, f, x);
      GroupWithin(tokens, pos, inside, c, f);
    case CallOf(f, _) =>
      WithinHere(tokens, pos, f, x);
      GroupWithin(tokens, pos, inside, c, f);
  }

  // Inside any operand that starts with a parenthesis there is a chain that ends with one.
  lemma {:induction false} GroupInside(tokens: seq<Tok>, pos: nat, x: Operand) returns (c: Chain)
    requires TokAt(tokens, pos) == OpenPar && WellFormedOperand(x) && Here(tokens, pos, YieldOperand(x))
    ensures ChainHere(tokens, pos + 1, c) && TokAt(tokens, pos + 1 + |Yield(c)|) == ClosePar
    decreases x
  {
    hide Here;
    match x
    case Atom(_) => FirstToken(tokens, pos, x);
    case Group(d) =>
      GroupHere(tokens, pos, d);
      c := d;
    case MemberOf(b, _) =>
      WithinHere(tokens, pos, b, x);
      c := GroupInside(tokens, pos, b);
    case CallEmpty(f) =>
      WithinHere(tokens, pos, f, x);
      c := GroupInside(tokens, pos, f);
    case CallOf(f, _) =>
      WithinHere(tokens, pos, f, x);
      c := GroupInside(tokens, pos, f);
  }

  // The suffix an operand has where it goes on.
  lemma SuffixHere(tokens: seq<Tok>, start: nat, q: Operand, pos: nat, x: Operand) returns (y: Operand)
    requires OnlyOperand(tokens, start, q, pos) && OperandHere(tokens, start, x) && !EndsOperand(TokAt(tokens, pos))
    ensures OneSuffix(q, y) && Within(y, x) && WellFormedOperand(y) && Here(tokens, start, YieldOperand(y))
    ensures y.MemberOf? ==> TokAt(tokens, pos) == Dot && TokAt(tokens, pos + 1) == y.name
    ensures y.CallEmpty? ==> TokAt(tokens, pos) == OpenPar && TokAt(tokens, pos + 1) == ClosePar
    ensures y.CallOf? ==> TokAt(tokens, pos) == OpenPar && ArgsHere(tokens, pos + 1, y.args)
  {
    assert q != x;
    y := NextSuffix(q, x);
    WithinHere(tokens, start, y, x);
    SuffixTokens(tokens, start, q, y);
  }

  lemma {:induction false} SuffixTokens(tokens: seq<Tok>, start: nat, q: Operand, y: Operand)
    requires OneSuffix(q, y) && WellFormedOperand(y)
    ensures Here(tokens, start, YieldOperand(y)) ==>
      Here(tokens, start, YieldOperand(q)) &&
      var pos := start + |YieldOperand(q)|;
      match y
      case MemberOf(_, name) => TokAt(tokens, pos) == Dot && TokAt(tokens, pos + 1) == name
      case CallEmpty(_) => TokAt(tokens, pos) == OpenPar && TokAt(tokens, pos + 1) == ClosePar
      case CallOf(_, args) => TokAt(tokens, pos) == OpenPar && ArgsHere(tokens, pos + 1, args)
      case _ => true
    ensures Here(tokens, start, YieldOperand(q)) ==>
      var pos := start + |YieldOperand(q)|;
      match y
      case MemberOf(_, name) => TokAt(tokens, pos) == Dot && TokAt(tokens, pos + 1) == name ==> Here(tokens, start, YieldOperand(y))
      case CallEmpty(_) => TokAt(tokens, pos) == OpenPar && TokAt(tokens, pos + 1) == ClosePar ==> Here(tokens, start, YieldOperand(y))
      case CallOf(_, args) => TokAt(tokens, pos) == OpenPar && ArgsHere(tokens, pos + 1, args) ==> Here(tokens, start, YieldOperand(y))
      case _ => true
  {
    hide Here, ArgsHere;
    match y
    case MemberOf(b, name) => TwoTokens(tokens, start, YieldOperand(q), Dot, name);
    case CallEmpty(f) => TwoTokens(tokens, start, YieldOperand(q), OpenPar, ClosePar);
    case CallOf(f, args) => CallTokens(tokens, start, q, args);
  }

  lemma {:induction false} CallTokens(tokens: seq<Tok>, start: nat, q: Operand, args: Args)
    requires WellFormedArgs(args)
    ensures Here(tokens, start, YieldOperand(CallOf(q, args))) <==>
      Here(tokens, start, YieldOperand(q)) && TokAt(tokens, start + |YieldOperand(q)|) == OpenPar
      && ArgsHere(tokens, start + |YieldOperand(q)| + 1, args)
  {
    hide Here;
    var pos := start + |YieldOperand(q)|;
    assert YieldOperand(CallOf(q, args)) == YieldOperand(q) + ([OpenPar] + (YieldArgs(args) + [ClosePar]));
    HereAppend(tokens, start, YieldOperand(q), [OpenPar] + (YieldArgs(args) + [ClosePar]));
    HereAppend(tokens, pos, [OpenPar], YieldArgs(args) + [ClosePar]);
    HereAppend(tokens, pos + 1, YieldArgs(args), [ClosePar]);
    HereOne(tokens, pos, OpenPar);
    HereOne(tokens, pos + 1 + |YieldArgs(args)|, ClosePar);
  }

  lemma TwoTokens(tokens: seq<Tok>, start: nat, ys: seq<Tok>, t: Tok, u: Tok)
    requires t != End && u != End
    ensures Here(tokens, start, ys + [t, u]) <==>
      Here(tokens, start, ys) && TokAt(tokens, start + |ys|) == t && TokAt(tokens, start + |ys| + 1) == u
  {
    hide Here;
    assert ys + [t, u] == ys + ([t] + [u]);
    HereAppend(tokens, start, ys, [t] + [u]);
    HereAppend(tokens, start + |ys|, [t], [u]);
    HereOne(tokens, start + |ys|, t);
    HereOne(tokens, start + |ys| + 1, u);
  }

  // ----- Arguments, one by one -----

  function PrependArgs(cs: seq<Chain>, rest: Args): Args {
    if cs == [] then rest else Several(cs[0], PrependArgs(cs[1..], rest))
  }

  lemma {:induction false} PrependArgsSnoc(cs: seq<Chain>, c: Chain, rest: Args)
    ensures PrependArgs(cs + [c], rest) == PrependArgs(cs, Several(c, rest))
    decreases cs
  {
    if cs == [] {
      assert (cs + [c])[1..] == [];
    } else {
      assert (cs + [c])[1..] == cs[1..] + [c];
      PrependArgsSnoc(cs[1..], c, rest);
    }
  }

  ghost predicate AllWellFormed(cs: seq<Chain>) {
    forall k :: 0 <= k < |cs| ==> WellFormed(cs[k])
  }

  function Meanings(cs: seq<Chain>): seq<Tree>
    requires AllWellFormed(cs)
  {
    seq(|cs|, k requires 0 <= k < |cs| => Meaning(cs[k]))
  }

  lemma {:induction false} PrependArgsMeans(cs: seq<Chain>, c: Chain)
    requires AllWellFormed(cs) && WellFormed(c)
    ensures var a := PrependArgs(cs, Single(c));
      WellFormedArgs(a) && MeaningArgs(a) == Meanings(cs) + [Meaning(c)]
    decreases cs
  {
    hide Meaning, WellFormed;
    if cs != [] {
      PrependArgsMeans(cs[1..], c);
      assert Meanings(cs) == [Meaning(cs[0])] + Meanings(cs[1..]);
    }
  }

  // The chains read so far, each with its comma.
  function YieldCommas(cs: seq<Chain>): seq<Tok> {
    if cs == [] then [] else YieldCommas(cs[..|cs| - 1]) + (Yield(cs[|cs| - 1]) + [Comma])
  }

  lemma {:induction false} PrependArgsYields(cs: seq<Chain>, rest: Args)
    ensures YieldArgs(PrependArgs(cs, rest)) == YieldCommas(cs) + YieldArgs(rest)
  {
    if cs != [] {
      var n := |cs| - 1;
      assert cs == cs[..n] + [cs[n]];
      PrependArgsSnoc(cs[..n], cs[n], rest);
      PrependArgsYields(cs[..n], Several(cs[n], rest));
    }
  }

  ghost predicate OnlyArgs(tokens: seq<Tok>, start: nat, cs: seq<Chain>, pos: nat) {
    forall a :: ArgsHere(tokens, start, a) ==> ArgsGoOn(tokens, cs, pos, a)
  }

  ghost predicate ArgsGoOn(tokens: seq<Tok>, cs: seq<Chain>, pos: nat, a: Args) {
    exists rest :: a == PrependArgs(cs, rest) && ArgsHere(tokens, pos, rest)
  }

  lemma FirstArg(tokens: seq<Tok>, pos: nat, a: Args)
    requires ArgsHere(tokens, pos, a)
    ensures ChainHere(tokens, pos, a.arg)
    ensures a.Single? ==> TokAt(tokens, pos + |Yield(a.arg)|) == ClosePar
    ensures a.Several? ==> TokAt(tokens, pos + |Yield(a.arg)|) == Comma && ArgsHere(tokens, pos + |Yield(a.arg)| + 1, a.others)
  {
    hide Here, Yield;
    match a
    case Single(c) =>
    case Several(c, r) =>
      assert YieldArgs(a) == Yield(c) + ([Comma] + YieldArgs(r));
      HereAppend(tokens, pos, Yield(c), [Comma] + YieldArgs(r));
      HereAppend(tokens, pos + |Yield(c)|, [Comma], YieldArgs(r));
      HereOne(tokens, pos + |Yield(c)|, Comma);
  }

  lemma {:induction false} OneMoreArg(tokens: seq<Tok>, start: nat, cs: seq<Chain>, pos: nat, c: Chain)
    requires OnlyArgs(tokens, start, cs, pos) && forall d :: ChainHere(tokens, pos, d) ==> d == c
    ensures TokAt(tokens, pos + |Yield(c)|) == Comma ==> OnlyArgs(tokens, start, cs + [c], pos + |Yield(c)| + 1)
    ensures TokAt(tokens, pos + |Yield(c)|) == ClosePar ==> forall a :: ArgsHere(tokens, start, a) ==> a == PrependArgs(cs, Single(c))
    ensures TokAt(tokens, pos + |Yield(c)|) != Comma && TokAt(tokens, pos + |Yield(c)|) != ClosePar ==> forall a :: !ArgsHere(tokens, start, a)
  {
    hide Yield, ArgsHere, ChainHere, PrependArgs;
    var t := TokAt(tokens, pos + |Yield(c)|);
    forall a | ArgsHere(tokens, start, a)
      ensures t == Comma || t == ClosePar
      ensures t == Comma ==> ArgsGoOn(tokens, cs + [c], pos + |Yield(c)| + 1, a)
      ensures t == ClosePar ==> a == PrependArgs(cs, Single(c))
    {
      assert ArgsGoOn(tokens, cs, pos, a);
      var rest :| a == PrependArgs(cs, rest) && ArgsHere(tokens, pos, rest);
      FirstArg(tokens, pos, rest);
      if rest.Several? { PrependArgsSnoc(cs, c, rest.others); }
      assert rest.Single? ==> rest == Single(c);
    }
  }

  lemma NoArg(tokens: seq<Tok>, start: nat, cs: seq<Chain>, pos: nat)
    requires OnlyArgs(tokens, start, cs, pos) && forall d :: !ChainHere(tokens, pos, d)
    ensures forall a :: !ArgsHere(tokens, start, a)
  {
    hide ArgsHere, ChainHere, PrependArgs;
    forall a ensures !ArgsHere(tokens, start, a) {
      if ArgsHere(tokens, start, a) {
        assert ArgsGoOn(tokens, cs, pos, a);
        var rest :| a == PrependArgs(cs, rest) && ArgsHere(tokens, pos, rest);
        FirstArg(tokens, pos, rest);
      }
    }
  }

  // No argument starts with a closing parenthesis.
  lemma ArgsNotEmpty(tokens: seq<Tok>, pos: nat, a: Args)
    requires ArgsHere(tokens, pos, a)
    ensures TokAt(tokens, pos) != ClosePar
  {
    FirstArg(tokens, pos, a);
    FirstOperand(tokens, pos, a.arg);
    FirstToken(tokens, pos, a.arg.operand);
  }

  // ----- The stacks -----

  // Operators waiting on the stack: each leaves its left operand's right neighbour to the next.
  ghost predicate Stacked(ops: seq<Tok>) {
    AllKnown(ops) && forall j, k :: 0 <= j < k < |ops| && k == j + 1 ==> Looser(ops[j], ops[k])
  }

  // However the expression goes on, its tree is that of what the stacks hold.
  ghost predicate Equivalent(operands: seq<Tree>, ops: seq<Tok>, trees: seq<Tree>, stack: seq<Tok>)
    requires |operands| == |ops| && |trees| == |stack|
  {
    AllKnown(ops) && AllKnown(stack) &&
    forall ms: seq<Tree>, mo: seq<Tok> :: |ms| == |mo| + 1 && AllKnown(mo) ==> SameWith(operands, ops, trees, stack, ms, mo)
  }

  ghost predicate SameWith(operands: seq<Tree>, ops: seq<Tok>, trees: seq<Tree>, stack: seq<Tok>, ms: seq<Tree>, mo: seq<Tok>)
    requires |operands| == |ops| && |trees| == |stack| && |ms| == |mo| + 1 && AllKnown(ops) && AllKnown(stack) && AllKnown(mo)
  {
    KnownAppend(ops, mo); KnownAppend(stack, mo);
    TreeOf(operands + ms, ops + mo) == TreeOf(trees + ms, stack + mo)
  }

  lemma KnownAppend(a: seq<Tok>, b: seq<Tok>)
    requires AllKnown(a) && AllKnown(b)
    ensures AllKnown(a + b)
  {
  }

  lemma NothingEquivalent()
    ensures Equivalent([], [], [], [])
  {
    forall ms: seq<Tree>, mo: seq<Tok> | |ms| == |mo| + 1 && AllKnown(mo) ensures SameWith([], [], [], [], ms, mo) {}
  }

  // An operand and the operator after it.
  lemma PushKeeps(operands: seq<Tree>, ops: seq<Tok>, trees: seq<Tree>, stack: seq<Tok>, x: Tree, op: Tok)
    requires |operands| == |ops| && |trees| == |stack| && Equivalent(operands, ops, trees, stack) && Known(op)
    ensures Equivalent(operands + [x], ops + [op], trees + [x], stack + [op])
  {
    hide TreeOf, SameWith, Known;
    KnownAppend(ops, [op]);
    KnownAppend(stack, [op]);
    forall ms: seq<Tree>, mo: seq<Tok> | |ms| == |mo| + 1 && AllKnown(mo)
      ensures SameWith(operands + [x], ops + [op], trees + [x], stack + [op], ms, mo)
    {
      KnownAppend([op], mo);
      assert SameWith(operands, ops, trees, stack, [x] + ms, [op] + mo);
      PushKeepsWith(operands, ops, trees, stack, x, op, ms, mo);
    }
  }

  lemma PushKeepsWith(operands: seq<Tree>, ops: seq<Tok>, trees: seq<Tree>, stack: seq<Tok>, x: Tree, op: Tok, ms: seq<Tree>, mo: seq<Tok>)
    requires |operands| == |ops| && |trees| == |stack| && |ms| == |mo| + 1 && AllKnown(ops) && AllKnown(stack) && AllKnown(mo)
    requires AllKnown([op] + mo) && AllKnown(ops + [op]) && AllKnown(stack + [op])
    requires SameWith(operands, ops, trees, stack, [x] + ms, [op] + mo)
    ensures SameWith(operands + [x], ops + [op], trees + [x], stack + [op], ms, mo)
  {
    hide TreeOf, Known;
    assert operands + [x] + ms == operands + ([x] + ms) && ops + [op] + mo == ops + ([op] + mo);
    assert trees + [x] + ms == trees + ([x] + ms) && stack + [op] + mo == stack + ([op] + mo);
  }

  // Folding the operator on top when the one that comes next does not bind tighter.
  lemma FoldUnder(operands: seq<Tree>, ops: seq<Tok>, trees: seq<Tree>, a: Tree, b: Tree, stack: seq<Tok>, top: Tok, op: Tok)
    requires |operands| == |ops| && |trees| == |stack| && Known(op) && Stacked(stack + [top])
    requires Equivalent(operands, ops, trees + [a, b], stack + [top, op]) && Known(top) && Beats(top, op)
    ensures Equivalent(operands, ops, trees + [Join(top, a, b)], stack + [op])
  {
    hide TreeOf, SameWith, Stacked, BindingPower;
    StackParts(stack, top);
    KnownAppend(stack, [op]);
    forall ms: seq<Tree>, mo: seq<Tok> | |ms| == |mo| + 1 && AllKnown(mo)
      ensures SameWith(operands, ops, trees + [Join(top, a, b)], stack + [op], ms, mo)
    {
      assert SameWith(operands, ops, trees + [a, b], stack + [top, op], ms, mo);
      FoldUnderWith(operands, ops, trees, a, b, stack, top, op, ms, mo);
    }
  }

  lemma StackParts(stack: seq<Tok>, top: Tok)
    requires Stacked(stack + [top])
    ensures AllKnown(stack) && Known(top) && Stacked(stack) && (stack != [] ==> Looser(stack[|stack| - 1], top))
  {
    var all := stack + [top];
    assert forall i :: 0 <= i < |stack| ==> all[i] == stack[i];
    assert all[|stack|] == top;
    if stack != [] { assert Looser(all[|stack| - 1], all[|stack|]); }
  }

  lemma FoldUnderWith(operands: seq<Tree>, ops: seq<Tok>, trees: seq<Tree>, a: Tree, b: Tree, stack: seq<Tok>, top: Tok, op: Tok,
                      ms: seq<Tree>, mo: seq<Tok>)
    requires |operands| == |ops| && |trees| == |stack| && |ms| == |mo| + 1
    requires AllKnown(ops) && AllKnown(stack) && Known(top) && Known(op) && AllKnown(mo) && AllKnown(stack + [top, op]) && AllKnown(stack + [op])
    requires (stack != [] ==> Looser(stack[|stack| - 1], top)) && Beats(top, op)
    requires SameWith(operands, ops, trees + [a, b], stack + [top, op], ms, mo)
    ensures SameWith(operands, ops, trees + [Join(top, a, b)], stack + [op], ms, mo)
  {
    hide TreeOf, BindingPower, Looser, Beats, Join;
    KnownAppend([op], mo);
    FoldKeepsTree(trees, a, b, ms, stack, top, [op] + mo);
    assert stack + [top, op] + mo == stack + [top] + ([op] + mo) && stack + [op] + mo == stack + ([op] + mo);
  }

  lemma {:induction false} FoldLast(trees: seq<Tree>, a: Tree, b: Tree, stack: seq<Tok>, top: Tok)
    requires |trees| == |stack| && Stacked(stack + [top])
    ensures AllKnown(stack) && Known(top) && Stacked(stack) && TreeOf(trees + [a, b], stack + [top]) == TreeOf(trees + [Join(top, a, b)], stack)
  {
    StackParts(stack, top);
    FoldKeepsTree(trees, a, b, [], stack, top, []);
    assert trees + [a, b] + [] == trees + [a, b] && stack + [top] + [] == stack + [top];
    assert trees + [Join(top, a, b)] + [] == trees + [Join(top, a, b)] && stack + [] == stack;
  }

  lemma StackMore(stack: seq<Tok>, op: Tok)
    requires Stacked(stack) && Known(op) && (stack != [] ==> Looser(stack[|stack| - 1], op))
    ensures Stacked(stack + [op])
  {
  }

  lemma {:induction false} SizeAllAppend(ts: seq<Tree>, t: Tree)
    ensures SizeAll(ts + [t]) == SizeAll(ts) + Size(t)
  {
    assert (ts + [t])[..|ts|] == ts;
  }

  lemma NoSize()
    ensures SizeAll([]) == 0
  {
  }

  lemma {:induction false} FoldSizes(trees: seq<Tree>, a: Tree, b: Tree, op: Tok)
    requires Known(op)
    ensures SizeAll(trees + [Join(op, a, b)]) == SizeAll(trees + [a, b]) + 1
  {
    SizeAllAppend(trees, Join(op, a, b));
    SizeAllAppend(trees, a);
    SizeAllAppend(trees + [a], b);
    assert trees + [a] + [b] == trees + [a, b];
  }

  lemma StackedKnown(stack: seq<Tok>)
    requires Stacked(stack)
    ensures AllKnown(stack) && (stack != [] ==> Known(stack[|stack| - 1]))
  {
  }

  lemma BeatsIs(top: Tok, op: Tok)
    requires Known(top) && Known(op)
    ensures Beats(top, op) <==>
      if op.AssignOp? then BindingPower(top) > BindingPower(op) else BindingPower(top) >= BindingPower(op)
  {
  }

  // ----- Links between what was read and what it stands for -----

  lemma StartOfChain(tokens: seq<Tok>, start: nat)
    requires start <= |tokens|
    ensures OnlyWay(tokens, start, [], start) && Here(tokens, start, YieldItems([])) && ItemsOk([]) && Stacked([])
    ensures ItemTrees([]) == [] && ItemOps([]) == [] && |YieldItems([])| == 0 && SizeAll([]) == 0
  {
    forall c | ChainHere(tokens, start, c) ensures GoesOn(tokens, [], start, c) {
      assert c == Prepend([], c);
    }
  }

  lemma {:induction false} OperandIsWellFormed(tokens: seq<Tok>, pos: nat, p: Operand)
    requires OperandHere(tokens, pos, p)
    ensures WellFormedOperand(p)
  {
  }

  // With no operator left the stack holds the tree.
  lemma {:induction false} AloneTree(trees: seq<Tree>, stack: seq<Tok>, t: Tree)
    requires stack == [] && |trees| == 1 && AllKnown(stack) && TreeOf(trees, stack) == t
    ensures trees == [t] && SizeAll(trees) == Size(t)
  {
    SizeAllAppend([], t);
    assert [] + [t] == [t];
  }

  // Items, then a last operand, are a chain there.
  lemma {:induction false} ChainIsRead(tokens: seq<Tok>, start: nat, items: seq<Item>, pos: nat, p: Operand)
    requires ItemsOk(items) && Here(tokens, start, YieldItems(items)) && pos == start + |YieldItems(items)| && OperandHere(tokens, pos, p)
    requires !IsOperator(TokAt(tokens, pos + |YieldOperand(p)|))
    ensures var c := Prepend(items, Last(p));
      ChainHere(tokens, start, c) && |Yield(c)| == |YieldItems(items)| + |YieldOperand(p)|
  {
    hide Here, YieldOperand;
    PrependMeans(items, p);
    PrependYields(items, Last(p));
    HereAppend(tokens, start, YieldItems(items), Yield(Last(p)));
  }

  // The stacks hold the tree of the whole chain.
  lemma {:induction false} FinalTree(items: seq<Item>, p: Operand, trees: seq<Tree>, stack: seq<Tok>, x: Tree)
    requires ItemsOk(items) && WellFormedOperand(p) && x == MeaningOperand(p) && |trees| == |stack|
    requires Equivalent(ItemTrees(items), ItemOps(items), trees, stack)
    ensures WellFormed(Prepend(items, Last(p))) && AllKnown(stack)
    ensures TreeOf(trees + [x], stack) == Meaning(Prepend(items, Last(p)))
  {
    hide TreeOf;
    PrependMeans(items, p);
    assert SameWith(ItemTrees(items), ItemOps(items), trees, stack, [x], []);
    assert stack + [] == stack && ItemOps(items) + [] == ItemOps(items);
  }

  lemma {:induction false} ItemsMore(items: seq<Item>, p: Operand, op: Tok)
    requires ItemsOk(items) && WellFormedOperand(p) && Known(op)
    ensures ItemsOk(items + [Item(p, op)])
    ensures ItemTrees(items + [Item(p, op)]) == ItemTrees(items) + [MeaningOperand(p)]
    ensures ItemOps(items + [Item(p, op)]) == ItemOps(items) + [op]
  {
  }

  lemma {:induction false} ItemHere(tokens: seq<Tok>, start: nat, items: seq<Item>, pos: nat, p: Operand, op: Tok)
    requires Here(tokens, start, YieldItems(items)) && pos == start + |YieldItems(items)| && OperandHere(tokens, pos, p)
    requires TokAt(tokens, pos + |YieldOperand(p)|) == op && IsOperator(op)
    ensures var next := items + [Item(p, op)];
      && Here(tokens, start, YieldItems(next)) && |YieldItems(next)| == |YieldItems(items)| + |YieldOperand(p)| + 1
      && pos + |YieldOperand(p)| < |tokens|
  {
    hide Here, YieldOperand;
    var next := items + [Item(p, op)];
    assert next[..|items|] == items;
    HereAppend(tokens, start, YieldItems(items), YieldOperand(p) + [op]);
    HereAppend(tokens, pos, YieldOperand(p), [op]);
    HereOne(tokens, pos + |YieldOperand(p)|, op);
  }

  // The items read from start up to pos, which every chain there begins with.
  ghost predicate ReadSoFar(tokens: seq<Tok>, start: nat, items: seq<Item>, pos: nat) {
    && ItemsOk(items) && Here(tokens, start, YieldItems(items)) && pos == start + |YieldItems(items)|
    && OnlyWay(tokens, start, items, pos)
  }

  // What the stacks hold above the floor stands for those items.
  ghost predicate Holds(items: seq<Item>, trees: seq<Tree>, stack: seq<Tok>) {
    && ItemsOk(items) && |trees| == |stack| && Stacked(stack)
    && Equivalent(ItemTrees(items), ItemOps(items), trees, stack)
  }

  // The same with the last operator still to be pushed.
  ghost predicate HoldsUnder(items: seq<Item>, trees: seq<Tree>, stack: seq<Tok>, op: Tok) {
    && ItemsOk(items) && |trees| == |stack| + 1 && Stacked(stack) && Known(op)
    && Equivalent(ItemTrees(items), ItemOps(items), trees, stack + [op])
  }

  lemma ReadNothing(tokens: seq<Tok>, start: nat)
    requires start <= |tokens|
    ensures ReadSoFar(tokens, start, [], start) && Holds([], [], []) && SizeAll([]) == 0
  {
    StartOfChain(tokens, start);
    NothingEquivalent();
  }

  lemma {:induction false} ReadMore(tokens: seq<Tok>, start: nat, items: seq<Item>, pos: nat, p: Operand, op: Tok)
    requires ReadSoFar(tokens, start, items, pos) && OperandHere(tokens, pos, p)
    requires forall x :: OperandHere(tokens, pos, x) ==> x == p
    requires TokAt(tokens, pos + |YieldOperand(p)|) == op && IsOperator(op)
    ensures Known(op) ==> ReadSoFar(tokens, start, items + [Item(p, op)], pos + |YieldOperand(p)| + 1)
    ensures pos + |YieldOperand(p)| < |tokens|
    ensures !Known(op) ==> forall c :: !ChainHere(tokens, start, c)
  {
    hide Here, YieldOperand, YieldItems, OnlyWay, ItemsOk, ChainHere;
    OneMoreItem(tokens, start, items, pos, p, op);
    ItemHere(tokens, start, items, pos, p, op);
    OperandIsWellFormed(tokens, pos, p);
    if Known(op) { ItemsMore(items, p, op); }
  }

  lemma ReadEnd(tokens: seq<Tok>, start: nat, items: seq<Item>, pos: nat, p: Operand) returns (c: Chain)
    requires ReadSoFar(tokens, start, items, pos) && OperandHere(tokens, pos, p)
    requires forall x :: OperandHere(tokens, pos, x) ==> x == p
    requires !IsOperator(TokAt(tokens, pos + |YieldOperand(p)|))
    ensures c == Prepend(items, Last(p)) && ChainHere(tokens, start, c)
    ensures start + |Yield(c)| == pos + |YieldOperand(p)| && |Yield(c)| > 0
    ensures forall d :: ChainHere(tokens, start, d) ==> d == c
  {
    hide Here, YieldOperand, YieldItems, OnlyWay, ItemsOk, ChainHere, Prepend;
    LastOperand(tokens, start, items, pos, p);
    ChainIsRead(tokens, start, items, pos, p);
    c := Prepend(items, Last(p));
    YieldNotEmpty(c);
  }

  lemma {:induction false} PushHolds(items: seq<Item>, trees: seq<Tree>, stack: seq<Tok>, p: Operand, op: Tok)
    requires Holds(items, trees, stack) && WellFormedOperand(p) && Known(op)
    ensures HoldsUnder(items + [Item(p, op)], trees + [MeaningOperand(p)], stack, op)
  {
    hide Equivalent, Stacked, ItemsOk, MeaningOperand, BindingPower;
    ItemsMore(items, p, op);
    PushKeeps(ItemTrees(items), ItemOps(items), trees, stack, MeaningOperand(p), op);
  }

  lemma {:induction false} EndHolds(items: seq<Item>, trees: seq<Tree>, stack: seq<Tok>, p: Operand)
    requires Holds(items, trees, stack) && WellFormedOperand(p)
    ensures AllKnown(stack) && Stacked(stack) && |trees| == |stack| && WellFormed(Prepend(items, Last(p)))
    ensures TreeOf(trees + [MeaningOperand(p)], stack) == Meaning(Prepend(items, Last(p)))
  {
    FinalTree(items, p, trees, stack, MeaningOperand(p));
  }

  lemma NoMoreChains(tokens: seq<Tok>, start: nat, items: seq<Item>, pos: nat)
    requires ReadSoFar(tokens, start, items, pos) && forall x :: !OperandHere(tokens, pos, x)
    ensures forall c :: !ChainHere(tokens, start, c)
  {
    NoOperand(tokens, start, items, pos);
  }

  lemma OnlyItself(tokens: seq<Tok>, start: nat, q: Operand, pos: nat, x: Operand)
    requires OnlyOperand(tokens, start, q, pos) && OperandHere(tokens, start, x) && EndsOperand(TokAt(tokens, pos))
    ensures x == q
  {
    hide Here, YieldOperand;
    if x != q {
      var y := NextSuffix(q, x);
      WithinHere(tokens, start, y, x);
      SuffixTokens(tokens, start, q, y);
    }
  }

  lemma NoGroup(tokens: seq<Tok>, start: nat, inside: nat)
    requires TokAt(tokens, start) == OpenPar && inside == start + 1 && forall c :: !ChainHere(tokens, inside, c)
    ensures forall x :: !OperandHere(tokens, start, x)
  {
    forall x ensures !OperandHere(tokens, start, x) {
      if OperandHere(tokens, start, x) { var c := GroupInside(tokens, start, x); }
    }
  }

  lemma {:induction false} NotClosed(tokens: seq<Tok>, start: nat, inside: nat, c: Chain)
    requires TokAt(tokens, start) == OpenPar && inside == start + 1 && forall d :: ChainHere(tokens, inside, d) ==> d == c
    requires TokAt(tokens, inside + |Yield(c)|) != ClosePar
    ensures forall x :: !OperandHere(tokens, start, x)
  {
    forall x ensures !OperandHere(tokens, start, x) {
      if OperandHere(tokens, start, x) { var d := GroupInside(tokens, start, x); }
    }
  }

  lemma MemberOnly(tokens: seq<Tok>, start: nat, q: Operand, pos: nat, member: Tok)
    requires OnlyOperand(tokens, start, q, pos) && TokAt(tokens, pos) == Dot && TokAt(tokens, pos + 1) == member
    ensures if member.Ident? || member.BinOp? then OnlyOperand(tokens, start, MemberOf(q, member), pos + 2) && pos + 2 <= |tokens|
      else forall x :: !OperandHere(tokens, start, x)
  {
    hide Here;
    if member.Ident? || member.BinOp? {
      SuffixTokens(tokens, start, q, MemberOf(q, member));
      HereInRange(tokens, start, YieldOperand(MemberOf(q, member)));
    }
    forall x | OperandHere(tokens, start, x) ensures Within(MemberOf(q, member), x) && (member.Ident? || member.BinOp?) {
      var y := SuffixHere(tokens, start, q, pos, x);
    }
  }

  lemma HereInRange(tokens: seq<Tok>, pos: nat, ys: seq<Tok>)
    requires Here(tokens, pos, ys)
    ensures pos + |ys| <= |tokens|
  {
  }

  lemma EmptyCallOnly(tokens: seq<Tok>, start: nat, q: Operand, pos: nat)
    requires OnlyOperand(tokens, start, q, pos) && TokAt(tokens, pos) == OpenPar && TokAt(tokens, pos + 1) == ClosePar
    ensures OnlyOperand(tokens, start, CallEmpty(q), pos + 2) && pos + 2 <= |tokens|
  {
    hide Here;
    SuffixTokens(tokens, start, q, CallEmpty(q));
    HereInRange(tokens, start, YieldOperand(CallEmpty(q)));
    forall x | OperandHere(tokens, start, x) ensures Within(CallEmpty(q), x) {
      var y := SuffixHere(tokens, start, q, pos, x);
      if y.CallOf? { ArgsNotEmpty(tokens, pos + 1, y.args); }
    }
  }

  lemma {:induction false} CallOnly(tokens: seq<Tok>, start: nat, q: Operand, pos: nat, first: nat, ok: bool, read: Args)
    requires OnlyOperand(tokens, start, q, pos) && TokAt(tokens, pos) == OpenPar && TokAt(tokens, pos + 1) != ClosePar && first == pos + 1
    requires forall a :: ArgsHere(tokens, first, a) ==> ok && a == read
    requires ok ==> ArgsHere(tokens, first, read)
    ensures ok ==> OnlyOperand(tokens, start, CallOf(q, read), pos + 2 + |YieldArgs(read)|) && pos + 2 + |YieldArgs(read)| <= |tokens|
    ensures !ok ==> forall x :: !OperandHere(tokens, start, x)
  {
    hide Here, TokAt;
    if ok {
      SuffixTokens(tokens, start, q, CallOf(q, read));
      HereInRange(tokens, start, YieldOperand(CallOf(q, read)));
    }
    forall x | OperandHere(tokens, start, x) ensures ok && Within(CallOf(q, read), x) {
      var y := SuffixHere(tokens, start, q, pos, x);
      assert y.CallOf? && ArgsHere(tokens, first, y.args);
    }
  }

  lemma StartOfArgs(tokens: seq<Tok>, start: nat)
    ensures OnlyArgs(tokens, start, [], start) && AllWellFormed([]) && Meanings([]) == [] && |YieldCommas([])| == 0
    ensures start <= |tokens| ==> Here(tokens, start, YieldCommas([]))
  {
    forall a | ArgsHere(tokens, start, a) ensures ArgsGoOn(tokens, [], start, a) { assert a == PrependArgs([], a); }
  }

  lemma {:induction false} ChainIsWellFormed(tokens: seq<Tok>, pos: nat, c: Chain)
    requires ChainHere(tokens, pos, c)
    ensures WellFormed(c)
  {
  }

  lemma {:induction false} CommaHere(tokens: seq<Tok>, start: nat, cs: seq<Chain>, pos: nat, c: Chain)
    requires Here(tokens, start, YieldCommas(cs)) && pos == start + |YieldCommas(cs)| && ChainHere(tokens, pos, c)
    requires TokAt(tokens, pos + |Yield(c)|) == Comma
    ensures Here(tokens, start, YieldCommas(cs + [c])) && |YieldCommas(cs + [c])| == |YieldCommas(cs)| + |Yield(c)| + 1
    ensures pos + |Yield(c)| < |tokens|
  {
    hide Here, Yield;
    assert (cs + [c])[..|cs|] == cs;
    HereAppend(tokens, start, YieldCommas(cs), Yield(c) + [Comma]);
    HereAppend(tokens, pos, Yield(c), [Comma]);
    HereOne(tokens, pos + |Yield(c)|, Comma);
  }

  lemma {:induction false} ArgsComplete(tokens: seq<Tok>, start: nat, cs: seq<Chain>, pos: nat, c: Chain)
    requires Here(tokens, start, YieldCommas(cs)) && pos == start + |YieldCommas(cs)| && ChainHere(tokens, pos, c)
    requires TokAt(tokens, pos + |Yield(c)|) == ClosePar && AllWellFormed(cs)
    ensures var a := PrependArgs(cs, Single(c));
      ArgsHere(tokens, start, a) && |YieldArgs(a)| == |YieldCommas(cs)| + |Yield(c)|
  {
    hide Here, Yield;
    PrependArgsMeans(cs, c);
    PrependArgsYields(cs, Single(c));
    HereAppend(tokens, start, YieldCommas(cs), YieldArgs(Single(c)));
  }

  // ----- Round trip -----

  // Printed with the parentheses it needs, a tree is the only expression there.
  lemma {:induction false} PrintedIsHere(t: Tree, rest: seq<Tok>)
    requires Printable(t) && (rest == [] || EndsChain(rest[0]))
    ensures ChainHere(Yield(Print(t)) + rest, 0, Print(t)) && Meaning(Print(t)) == t
  {
    PrintMeans(t);
    var tokens := Yield(Print(t)) + rest;
    assert tokens[0..|Yield(Print(t))|] == Yield(Print(t));
  }
}
