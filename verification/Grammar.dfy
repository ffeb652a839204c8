// Expressions: tokens, the reference grammar, and the tree it gives.
module Grammar {
  // End stands for what is read past the last token.
  datatype Tok =
    | Ident(name: string)
    | Literal(text: string)
    | BinOp(text: string)
    | AssignOp
    | OpenPar
    | ClosePar
    | Comma
    | Dot
    | Other(kind: nat)
    | End

  datatype Tree =
    | Leaf(tok: Tok)
    | Binary(op: string, lhs: Tree, rhs: Tree)
    | Assignment(lhs: Tree, rhs: Tree)
    | Member(base: Tree, name: string)
    | Call(callee: Tree, args: seq<Tree>)

  // ----- Binding power -----

  predicate IsOperator(t: Tok) { t.BinOp? || t.AssignOp? }

  predicate IsComparison(text: string) { text in {">", "<", "<=", ">=", "==", "!="} }

  predicate Known(t: Tok) {
    t.AssignOp? || (t.BinOp? && (t.text == "*" || t.text == "+" || IsComparison(t.text)))
  }

  function BindingPower(t: Tok): (bp: nat)
    requires Known(t)
    ensures bp == 1 <==> t.AssignOp?
    ensures bp >= 1
  {
    if t.AssignOp? then 1
    else if t.text == "*" then 20
    else if t.text == "+" then 10
    else 5
  }

  // Times binds tighter than plus, plus tighter than comparisons, which bind
  // alike, and those tighter than assignment.
  lemma PowersOrdered(c: Tok, d: Tok)
    requires c in {BinOp(">"), BinOp("<"), BinOp("<="), BinOp(">="), BinOp("=="), BinOp("!=")}
    requires d in {BinOp(">"), BinOp("<"), BinOp("<="), BinOp(">="), BinOp("=="), BinOp("!=")}
    ensures Known(c) && Known(d) && BindingPower(AssignOp) < BindingPower(c) == BindingPower(d) < BindingPower(BinOp("+")) < BindingPower(BinOp("*"))
  {
  }

  ghost predicate AllKnown(ops: seq<Tok>) {
    forall i :: 0 <= i < |ops| ==> Known(ops[i])
  }

  // An operand between l and t goes with t.
  predicate Looser(l: Tok, t: Tok)
    requires Known(l) && Known(t)
  {
    BindingPower(l) < BindingPower(t) || (BindingPower(l) == BindingPower(t) && t.AssignOp?)
  }

  // An operand between t and r goes with t: equal powers group from the left,
  // assignments from the right.
  predicate Beats(t: Tok, r: Tok)
    requires Known(t) && Known(r)
  {
    BindingPower(t) > BindingPower(r) || (BindingPower(t) == BindingPower(r) && !r.AssignOp?)
  }

  lemma LooserOrBeats(t: Tok, r: Tok)
    requires Known(t) && Known(r)
    ensures Beats(t, r) <==> !Looser(t, r)
  {
  }

  // ----- The reference tree of operands and the operators between them -----

  function Join(op: Tok, l: Tree, r: Tree): Tree
    requires Known(op)
  {
    if op.AssignOp? then Assignment(l, r) else Binary(op.text, l, r)
  }

  // The operator applied last: one of least power, the leftmost if it is an
  // assignment, else the rightmost.
  ghost predicate IsSplit(ops: seq<Tok>, k: nat)
    requires AllKnown(ops)
  {
    && k < |ops|
    && (forall j :: 0 <= j < k ==> Loosest(ops[k], ops[j], ops[k].AssignOp?))
    && (forall j :: k < j < |ops| ==> Loosest(ops[k], ops[j], !ops[k].AssignOp?))
  }

  ghost predicate Loosest(k: Tok, j: Tok, strictly: bool)
    requires Known(k) && Known(j)
  {
    BindingPower(k) < BindingPower(j) || (!strictly && BindingPower(k) == BindingPower(j))
  }

  function Split(ops: seq<Tok>): (k: nat)
    requires ops != [] && AllKnown(ops)
    ensures IsSplit(ops, k)
  {
    var n := |ops| - 1;
    if n == 0 then 0
    else
      var j := Split(ops[..n]);
      assert ops[..n][j] == ops[j];
      assert forall i :: 0 <= i < n ==> ops[..n][i] == ops[i];
      if BindingPower(ops[n]) < BindingPower(ops[j]) || (BindingPower(ops[n]) == BindingPower(ops[j]) && !ops[n].AssignOp?) then n else j
  }

  lemma SplitUnique(ops: seq<Tok>, j: nat, k: nat)
    requires AllKnown(ops) && IsSplit(ops, j) && IsSplit(ops, k)
    ensures j == k
  {
    if j < k { NotBoth(ops, j, k); } else if k < j { NotBoth(ops, k, j); }
  }

  lemma NotBoth(ops: seq<Tok>, j: nat, k: nat)
    requires AllKnown(ops) && j < k && IsSplit(ops, j)
    ensures !IsSplit(ops, k)
  {
    if k < |ops| {
      assert Loosest(ops[j], ops[k], !ops[j].AssignOp?);
      assert !Loosest(ops[k], ops[j], ops[k].AssignOp?);
    }
  }

  function TreeOf(operands: seq<Tree>, ops: seq<Tok>): Tree
    requires |operands| == |ops| + 1 && AllKnown(ops)
    decreases |ops|
  {
    if ops == [] then operands[0]
    else
      var k := Split(ops);
      Join(ops[k], TreeOf(operands[..k + 1], ops[..k]), TreeOf(operands[k + 1..], ops[k + 1..]))
  }

  lemma {:induction false} TreeSplit(operands: seq<Tree>, ops: seq<Tok>, k: nat)
    requires |operands| == |ops| + 1 && AllKnown(ops) && ops != [] && IsSplit(ops, k)
    ensures TreeOf(operands, ops) == Join(ops[k], TreeOf(operands[..k + 1], ops[..k]), TreeOf(operands[k + 1..], ops[k + 1..]))
  {
    SplitUnique(ops, Split(ops), k);
  }

  // ----- Folding one operator -----

  // Its neighbours leave the operands of op to op.
  ghost predicate Tightest(before: seq<Tok>, op: Tok, rest: seq<Tok>)
    requires AllKnown(before) && Known(op) && AllKnown(rest)
  {
    && (before != [] ==> Looser(before[|before| - 1], op))
    && (rest != [] ==> Beats(op, rest[0]))
  }

  // An operator that has a neighbour and is tightest is not the one applied last.
  lemma TightestIsNotLast(before: seq<Tok>, op: Tok, rest: seq<Tok>)
    requires AllKnown(before) && Known(op) && AllKnown(rest) && Tightest(before, op, rest) && (before != [] || rest != [])
    ensures AllKnown(before + [op] + rest) && !IsSplit(before + [op] + rest, |before|)
  {
    var ops := before + [op] + rest;
    if before != [] {
      assert ops[|before| - 1] == before[|before| - 1] && ops[|before|] == op;
    } else {
      assert ops[1] == rest[0] && ops[0] == op;
    }
  }

  // Taking out an operator that is not the one applied last leaves that one.
  lemma SplitWithout(before: seq<Tok>, op: Tok, rest: seq<Tok>, k: nat)
    requires AllKnown(before) && Known(op) && AllKnown(rest)
    requires AllKnown(before + [op] + rest) && AllKnown(before + rest)
    requires IsSplit(before + [op] + rest, k) && k != |before|
    ensures IsSplit(before + rest, if k < |before| then k else k - 1)
  {
    var ops, less := before + [op] + rest, before + rest;
    assert forall i :: 0 <= i < |before| ==> less[i] == ops[i];
    assert forall i :: |before| <= i < |less| ==> less[i] == ops[i + 1];
    var m := if k < |before| then k else k - 1;
    forall j | 0 <= j < m ensures Loosest(less[m], less[j], less[m].AssignOp?) {
      var i := if j < |before| then j else j + 1;
      assert less[j] == ops[i];
    }
    forall j | m < j < |less| ensures Loosest(less[m], less[j], !less[m].AssignOp?) {
      var i := if j < |before| then j else j + 1;
      assert less[j] == ops[i];
    }
  }

  lemma KnownParts(before: seq<Tok>, op: Tok, rest: seq<Tok>)
    requires AllKnown(before) && Known(op) && AllKnown(rest)
    ensures AllKnown(before + [op] + rest) && AllKnown(before + rest)
  {
  }

  // Folding an operator with its two operands changes nothing when it is the tightest.
  lemma {:induction false} FoldKeepsTree(left: seq<Tree>, a: Tree, b: Tree, right: seq<Tree>, before: seq<Tok>, op: Tok, rest: seq<Tok>)
    requires |left| == |before| && |right| == |rest|
    requires AllKnown(before) && Known(op) && AllKnown(rest) && Tightest(before, op, rest)
    ensures AllKnown(before + [op] + rest) && AllKnown(before + rest)
    ensures TreeOf(left + [a, b] + right, before + [op] + rest) == TreeOf(left + [Join(op, a, b)] + right, before + rest)
    decreases |before| + |rest|
  {
    hide TreeOf, Tightest, IsSplit;
    KnownParts(before, op, rest);
    if before == [] && rest == [] {
      FoldAlone(left, a, b, right, before, op, rest);
    } else {
      var k := Split(before + [op] + rest);
      TightestIsNotLast(before, op, rest);
      assert k < |before| + 1 + |rest| by { SplitInRange(before + [op] + rest, k); }
      if k < |before| {
        FoldRight(left, a, b, right, before, op, rest, k);
      } else {
        FoldLeft(left, a, b, right, before, op, rest, k);
      }
    }
  }

  lemma SplitInRange(ops: seq<Tok>, k: nat)
    requires AllKnown(ops) && IsSplit(ops, k)
    ensures k < |ops|
  {
  }

  lemma {:induction false} FoldAlone(left: seq<Tree>, a: Tree, b: Tree, right: seq<Tree>, before: seq<Tok>, op: Tok, rest: seq<Tok>)
    requires left == right == [] && before == rest == [] && Known(op)
    ensures AllKnown(before + [op] + rest) && AllKnown(before + rest)
    ensures TreeOf(left + [a, b] + right, before + [op] + rest) == TreeOf(left + [Join(op, a, b)] + right, before + rest)
  {
    var ops, operands := before + [op] + rest, left + [a, b] + right;
    assert ops == [op] && operands == [a, b];
    assert IsSplit(ops, 0);
    TreeSplit(operands, ops, 0);
    assert operands[..1] == [a] && operands[1..] == [b] && ops[..0] == [] && ops[1..] == [];
  }

  // The operator applied last is to the left: the fold is in its right part.
  lemma {:induction false} FoldRight(left: seq<Tree>, a: Tree, b: Tree, right: seq<Tree>, before: seq<Tok>, op: Tok, rest: seq<Tok>, k: nat)
    requires |left| == |before| && |right| == |rest| && k < |before|
    requires AllKnown(before) && Known(op) && AllKnown(rest) && Tightest(before, op, rest)
    requires AllKnown(before + [op] + rest) && AllKnown(before + rest) && IsSplit(before + [op] + rest, k)
    ensures TreeOf(left + [a, b] + right, before + [op] + rest) == TreeOf(left + [Join(op, a, b)] + right, before + rest)
    decreases |before| + |rest|, 0
  {
    hide TreeOf, IsSplit;
    var ops, less := before + [op] + rest, before + rest;
    var full, short := left + [a, b] + right, left + [Join(op, a, b)] + right;
    SplitWithout(before, op, rest, k);
    TreeSplit(full, ops, k);
    TreeSplit(short, less, k);
    assert full[..k + 1] == left[..k + 1] == short[..k + 1] && ops[..k] == before[..k] == less[..k];
    assert full[k + 1..] == left[k + 1..] + [a, b] + right && ops[k + 1..] == before[k + 1..] + [op] + rest;
    assert short[k + 1..] == left[k + 1..] + [Join(op, a, b)] + right && less[k + 1..] == before[k + 1..] + rest;
    assert ops[k] == less[k] == before[k];
    FoldKeepsTree(left[k + 1..], a, b, right, before[k + 1..], op, rest);
  }

  lemma {:induction false} FoldLeft(left: seq<Tree>, a: Tree, b: Tree, right: seq<Tree>, before: seq<Tok>, op: Tok, rest: seq<Tok>, k: nat)
    requires |left| == |before| && |right| == |rest| && |before| < k < |before| + 1 + |rest|
    requires AllKnown(before) && Known(op) && AllKnown(rest) && Tightest(before, op, rest)
    requires AllKnown(before + [op] + rest) && AllKnown(before + rest) && IsSplit(before + [op] + rest, k)
    ensures TreeOf(left + [a, b] + right, before + [op] + rest) == TreeOf(left + [Join(op, a, b)] + right, before + rest)
    decreases |before| + |rest|, 0
  {
    hide TreeOf, IsSplit;
    var ops, less := before + [op] + rest, before + rest;
    var full, short := left + [a, b] + right, left + [Join(op, a, b)] + right;
    var m := k - |before| - 1;
    SplitWithout(before, op, rest, k);
    TreeSplit(full, ops, k);
    TreeSplit(short, less, k - 1);
    assert full[..k + 1] == left + [a, b] + right[..m] && ops[..k] == before + [op] + rest[..m];
    assert short[..k] == left + [Join(op, a, b)] + right[..m] && less[..k - 1] == before + rest[..m];
    assert full[k + 1..] == right[m..] == short[k..] && ops[k + 1..] == rest[m + 1..] == less[k..];
    assert ops[k] == less[k - 1] == rest[m];
    assert rest[..m] != [] ==> rest[..m][0] == rest[0];
    FoldKeepsTree(left, a, b, right[..m], before, op, rest[..m]);
  }

  // ----- Concrete syntax -----

  // Operands with operators between them.
  datatype Chain = Last(operand: Operand) | More(operand: Operand, op: Tok, rest: Chain)

  datatype Operand =
    | Atom(tok: Tok)
    | Group(inner: Chain)
    | MemberOf(base: Operand, name: Tok)
    | CallEmpty(callee: Operand)
    | CallOf(callee: Operand, args: Args)

  datatype Args = Single(arg: Chain) | Several(arg: Chain, others: Args)

  predicate WellFormed(c: Chain) {
    match c
    case Last(p) => WellFormedOperand(p)
    case More(p, op, r) => WellFormedOperand(p) && Known(op) && WellFormed(r)
  }

  predicate WellFormedOperand(p: Operand) {
    match p
    case Atom(t) => t.Ident? || t.Literal?
    case Group(c) => WellFormed(c)
    case MemberOf(b, name) => WellFormedOperand(b) && (name.Ident? || name.BinOp?)
    case CallEmpty(f) => WellFormedOperand(f)
    case CallOf(f, args) => WellFormedOperand(f) && WellFormedArgs(args)
  }

  predicate WellFormedArgs(a: Args) {
    match a
    case Single(c) => WellFormed(c)
    case Several(c, r) => WellFormed(c) && WellFormedArgs(r)
  }

  function Yield(c: Chain): seq<Tok> {
    match c
    case Last(p) => YieldOperand(p)
    case More(p, op, r) => YieldOperand(p) + [op] + Yield(r)
  }

  function YieldOperand(p: Operand): seq<Tok> {
    match p
    case Atom(t) => [t]
    case Group(c) => [OpenPar] + Yield(c) + [ClosePar]
    case MemberOf(b, name) => YieldOperand(b) + [Dot, name]
    case CallEmpty(f) => YieldOperand(f) + [OpenPar, ClosePar]
    case CallOf(f, args) => YieldOperand(f) + [OpenPar] + YieldArgs(args) + [ClosePar]
  }

  function YieldArgs(a: Args): seq<Tok> {
    match a
    case Single(c) => Yield(c)
    case Several(c, r) => Yield(c) + [Comma] + YieldArgs(r)
  }

  function Operands(c: Chain): (operands: seq<Operand>)
    ensures |operands| == |Ops(c)| + 1
  {
    match c
    case Last(p) => [p]
    case More(p, _, r) => [p] + Operands(r)
  }

  function Ops(c: Chain): seq<Tok> {
    match c
    case Last(_) => []
    case More(_, op, r) => [op] + Ops(r)
  }

  lemma {:induction false} OpsKnown(c: Chain)
    requires WellFormed(c)
    ensures AllKnown(Ops(c))
  {
    match c
    case Last(_) =>
    case More(_, _, r) => OpsKnown(r);
  }

  // The tree a chain stands for: groups disappear, operators split by power.
  function Meaning(c: Chain): Tree
    requires WellFormed(c)
    decreases c, 1
  {
    OpsKnown(c);
    TreeOf(Trees(c), Ops(c))
  }

  // The trees of the operands.
  function Trees(c: Chain): (trees: seq<Tree>)
    requires WellFormed(c)
    ensures |trees| == |Ops(c)| + 1
    decreases c, 0
  {
    match c
    case Last(p) => [MeaningOperand(p)]
    case More(p, _, r) => [MeaningOperand(p)] + Trees(r)
  }

  function MeaningOperand(p: Operand): Tree
    requires WellFormedOperand(p)
    decreases p, 1
  {
    match p
    case Atom(t) => Leaf(t)
    case Group(c) => Meaning(c)
    case MemberOf(b, name) => Member(MeaningOperand(b), if name.Ident? then name.name else name.text)
    case CallEmpty(f) => Call(MeaningOperand(f), [])
    case CallOf(f, args) => Call(MeaningOperand(f), MeaningArgs(args))
  }

  function MeaningArgs(a: Args): seq<Tree>
    requires WellFormedArgs(a)
    decreases a, 1
  {
    match a
    case Single(c) => [Meaning(c)]
    case Several(c, r) => [Meaning(c)] + MeaningArgs(r)
  }

  // How many nodes a tree has.
  function Size(t: Tree): nat {
    match t
    case Leaf(_) => 1
    case Binary(_, l, r) => Size(l) + Size(r) + 1
    case Assignment(l, r) => Size(l) + Size(r) + 1
    case Member(b, _) => Size(b) + 1
    case Call(f, args) => Size(f) + SizeAll(args) + 1
  }

  function SizeAll(ts: seq<Tree>): nat {
    if ts == [] then 0 else SizeAll(ts[..|ts| - 1]) + Size(ts[|ts| - 1])
  }

  // ----- Reading a tree in order -----

  // The tokens of a chain without the parentheses that only group.
  function Ungrouped(c: Chain): seq<Tok> {
    match c
    case Last(p) => UngroupedOperand(p)
    case More(p, op, r) => UngroupedOperand(p) + [op] + Ungrouped(r)
  }

  function UngroupedOperand(p: Operand): seq<Tok> {
    match p
    case Atom(t) => [t]
    case Group(c) => Ungrouped(c)
    case MemberOf(b, name) => UngroupedOperand(b) + [Dot, Ident(if name.Ident? then name.name else if name.BinOp? then name.text else "")]
    case CallEmpty(f) => UngroupedOperand(f) + [OpenPar, ClosePar]
    case CallOf(f, args) => UngroupedOperand(f) + [OpenPar] + UngroupedArgs(args) + [ClosePar]
  }

  function UngroupedArgs(a: Args): seq<Tok> {
    match a
    case Single(c) => Ungrouped(c)
    case Several(c, r) => Ungrouped(c) + [Comma] + UngroupedArgs(r)
  }

  function InOrder(t: Tree): seq<Tok> {
    match t
    case Leaf(tok) => [tok]
    case Binary(op, l, r) => InOrder(l) + [BinOp(op)] + InOrder(r)
    case Assignment(l, r) => InOrder(l) + [AssignOp] + InOrder(r)
    case Member(b, name) => InOrder(b) + [Dot, Ident(name)]
    case Call(f, args) => InOrder(f) + [OpenPar] + InOrderAll(args) + [ClosePar]
  }

  function InOrderAll(ts: seq<Tree>): seq<Tok> {
    if ts == [] then []
    else if |ts| == 1 then InOrder(ts[0])
    else InOrder(ts[0]) + [Comma] + InOrderAll(ts[1..])
  }

  // Operands and operators in turn.
  function Interleaved(operands: seq<Tree>, ops: seq<Tok>): seq<Tok>
    requires |operands| == |ops| + 1
  {
    if ops == [] then InOrder(operands[0])
    else InOrder(operands[0]) + [ops[0]] + Interleaved(operands[1..], ops[1..])
  }

  lemma {:induction false} InterleavedSplit(operands: seq<Tree>, ops: seq<Tok>, k: nat)
    requires |operands| == |ops| + 1 && k < |ops|
    ensures Interleaved(operands, ops) == Interleaved(operands[..k + 1], ops[..k]) + [ops[k]] + Interleaved(operands[k + 1..], ops[k + 1..])
    decreases k
  {
    hide InOrder;
    if k > 0 {
      InterleavedSplit(operands[1..], ops[1..], k - 1);
      assert operands[1..][..k] == operands[..k + 1][1..] && ops[1..][..k - 1] == ops[..k][1..];
      assert operands[1..][k..] == operands[k + 1..] && ops[1..][k..] == ops[k + 1..];
    }
  }

  // Whatever the powers, the tree reads as the operands and operators in turn.
  lemma {:induction false} TreeReads(operands: seq<Tree>, ops: seq<Tok>)
    requires |operands| == |ops| + 1 && AllKnown(ops)
    ensures InOrder(TreeOf(operands, ops)) == Interleaved(operands, ops)
    decreases |ops|
  {
    if ops != [] {
      var k := Split(ops);
      TreeReads(operands[..k + 1], ops[..k]);
      TreeReads(operands[k + 1..], ops[k + 1..]);
      InterleavedSplit(operands, ops, k);
    }
  }

  lemma {:induction false} MeaningReads(c: Chain)
    requires WellFormed(c)
    ensures InOrder(Meaning(c)) == Ungrouped(c)
    decreases c, 2
  {
    hide InOrder;
    OpsKnown(c);
    TreeReads(Trees(c), Ops(c));
    TreesRead(c);
  }

  lemma {:induction false} TreesRead(c: Chain)
    requires WellFormed(c)
    ensures Interleaved(Trees(c), Ops(c)) == Ungrouped(c)
    decreases c, 1
  {
    hide InOrder;
    match c
    case Last(p) => OperandReads(p);
    case More(p, op, r) =>
      OperandReads(p);
      TreesRead(r);
      assert Trees(c)[1..] == Trees(r) && Ops(c)[1..] == Ops(r);
  }

  lemma {:induction false} OperandReads(p: Operand)
    requires WellFormedOperand(p)
    ensures InOrder(MeaningOperand(p)) == UngroupedOperand(p)
    decreases p, 3
  {
    match p
    case Atom(_) =>
    case Group(c) => MeaningReads(c);
    case MemberOf(b, _) => OperandReads(b);
    case CallEmpty(f) => OperandReads(f);
    case CallOf(f, args) =>
      OperandReads(f);
      ArgsRead(args);
  }

  lemma {:induction false} ArgsRead(a: Args)
    requires WellFormedArgs(a)
    ensures InOrderAll(MeaningArgs(a)) == UngroupedArgs(a)
    decreases a, 3
  {
    match a
    case Single(c) => MeaningReads(c);
    case Several(c, r) =>
      MeaningReads(c);
      ArgsRead(r);
      assert MeaningArgs(a)[1..] == MeaningArgs(r);
      assert |MeaningArgs(r)| > 0;
  }
}
