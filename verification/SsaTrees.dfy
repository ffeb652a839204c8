// Where the code of each expression and statement was emitted.
//
// A visitor returns, for the proofs only, a tree shaped like the syntax it
// visited whose nodes say at which point its code starts and ends. A point is a
// block, a position in its instructions and a number of writes already made.
module SsaTrees {
  import opened Ast
  import opened IR
  import opened SsaState

  datatype Point = Point(b: nat, pc: nat, k: nat)

  datatype ETree = ETree(start: Point, end: Point, out: Operand, kids: seq<ETree>)

  datatype STree = STree(start: Point, end: Point, exprs: seq<ETree>, kids: seq<STree>)

  ghost predicate InRange(st: St, p: Point)
    requires Sizes(st)
  {
    p.b < |st.blocks| && p.pc <= |st.blocks[p.b].instrs| && p.k <= |st.g.logs[p.b]|
  }

  ghost predicate InstrIs(st: St, p: Point, i: Instr) {
    p.b < |st.blocks| && p.pc < |st.blocks[p.b].instrs| && st.blocks[p.b].instrs[p.pc] == i
  }

  ghost predicate WriteIs(st: St, p: Point, s: Sym, o: Operand) {
    p.b < |st.g.logs| && p.k < |st.g.logs[p.b]| && st.g.logs[p.b][p.k] == (s, o)
  }

  // Control leaves p's block at p, after its last write, for block b.
  ghost predicate EdgeAt(st: St, p: Point, b: nat)
    requires Sizes(st)
  {
    && InRange(st, p) && p.b in st.g.closed && p.k == |st.g.logs[p.b]|
    && b < |st.blocks| && p.b in st.blocks[b].preds
  }

  function Entry(b: nat): Point { Point(b, 0, 0) }

  // The code of e runs from t.start to t.end and leaves its value in t.out.
  ghost predicate EmitE(st: St, e: Expr, t: ETree)
    requires Sizes(st)
    decreases e, 0
  {
    && InRange(st, t.start) && InRange(st, t.end) && t.start.b == t.end.b && t.start.pc <= t.end.pc
    && Settled(st.g.home, t.end.b, t.end.pc, t.out)
    && match e
       case IntLit(v) => t.end == t.start && t.out == Literal(v)
       case Ident(s) =>
         && t.end == t.start
         && KnownAt(st.g, s, t.start.b, t.start.k)
         && t.out == OperandAt(st.g, s, t.start.b, t.start.k)
       case Binary(op, l, r) =>
         && |t.kids| == 2 && EmitE(st, l, t.kids[0]) && EmitE(st, r, t.kids[1])
         && t.kids[0].start == t.start && t.kids[1].start == t.kids[0].end
         && t.end == t.kids[1].end.(pc := t.kids[1].end.pc + 1)
         && t.out.Register?
         && InstrIs(st, t.kids[1].end, Arith(t.out.id, op, t.kids[0].out, t.kids[1].out))
       case Assign(s, r) => EmitWrite(st, s, r, t)
       case VarDecl(s, None) =>
         && t.out == Literal(0) && WriteIs(st, t.start, s, t.out) && t.end == t.start.(k := t.start.k + 1)
       case VarDecl(s, Some(r)) => EmitWrite(st, s, r, t)
  }

  ghost predicate EmitWrite(st: St, s: Sym, r: Expr, t: ETree)
    requires Sizes(st)
    decreases r, 1
  {
    && |t.kids| == 1 && EmitE(st, r, t.kids[0]) && t.kids[0].start == t.start
    && t.out == t.kids[0].out
    && WriteIs(st, t.kids[0].end, s, t.out)
    && t.end == t.kids[0].end.(k := t.kids[0].end.k + 1)
  }

  // The code of s runs from t.start; if s completes, control gets to t.end.
  ghost predicate EmitS(st: St, s: Stmt, t: STree)
    requires Sizes(st)
    decreases s, 0
  {
    && InRange(st, t.start) && InRange(st, t.end)
    && match s
       case ExprStmt(e) =>
         |t.exprs| == 1 && EmitE(st, e, t.exprs[0]) && t.exprs[0].start == t.start && t.exprs[0].end == t.end
       case Return(None) =>
         InstrIs(st, t.start, Ret(Literal(0)))
       case Return(Some(e)) =>
         && |t.exprs| == 1 && EmitE(st, e, t.exprs[0]) && t.exprs[0].start == t.start
         && InstrIs(st, t.exprs[0].end, Ret(t.exprs[0].out))
       case If(c, thn, els) =>
         && |t.exprs| == 1 && EmitE(st, c, t.exprs[0]) && t.exprs[0].start == t.start
         && |t.kids| == (if els.Some? then 2 else 1)
         && EmitBranch(st, thn, t.kids[0], t.exprs[0].end, t.end.b)
         && (els.Some? ==> EmitBranch(st, els.value, t.kids[1], t.exprs[0].end, t.end.b))
         && (els.None? ==> EdgeAt(st, t.exprs[0].end, t.end.b))
         && InstrIs(st, t.exprs[0].end, Cbr(t.exprs[0].out, t.kids[0].start.b,
                                             if els.Some? then t.kids[1].start.b else t.end.b))
         && t.end == Entry(t.end.b)
       case While(c, body) =>
         && |t.exprs| == 1 && EmitE(st, c, t.exprs[0])
         && t.exprs[0].start == Entry(t.exprs[0].start.b)
         && InstrIs(st, t.start, Br(t.exprs[0].start.b)) && EdgeAt(st, t.start, t.exprs[0].start.b)
         && |t.kids| == 1
         && EmitBranch(st, body, t.kids[0], t.exprs[0].end, t.exprs[0].start.b)
         && InstrIs(st, t.exprs[0].end, Cbr(t.exprs[0].out, t.kids[0].start.b, t.end.b))
         && EdgeAt(st, t.exprs[0].end, t.end.b)
         && t.end == Entry(t.end.b)
       case Block(stmts) => EmitFrom(st, stmts, t.kids, 0, t.start, t.end)
  }

  // s is entered from p at the start of a block of its own and, if it
  // completes, goes on to block next.
  ghost predicate EmitBranch(st: St, s: Stmt, t: STree, p: Point, next: nat)
    requires Sizes(st)
    decreases s, 1
  {
    && EmitS(st, s, t) && t.start == Entry(t.start.b) && EdgeAt(st, p, t.start.b)
    && InstrIs(st, t.end, Br(next)) && EdgeAt(st, t.end, next)
  }

  ghost predicate EmitFrom(st: St, stmts: seq<Stmt>, kids: seq<STree>, i: nat, start: Point, end: Point)
    requires Sizes(st) && i <= |stmts|
    decreases stmts, |stmts| - i + 1
  {
    && |kids| == |stmts|
    && if i == |stmts| then start == end
       else EmitS(st, stmts[i], kids[i]) && kids[i].start == start
            && EmitFrom(st, stmts, kids, i + 1, kids[i].end, end)
  }

  // ----- What later building leaves alone -----

  ghost predicate Stable(st: St, st': St) {
    && Sizes(st) && Sizes(st')
    && |st.blocks| <= |st'.blocks|
    && st.g.closed <= st'.g.closed
    && Grows(st.g.home, st'.g.home) && Grows(st.g.entries, st'.g.entries)
    && forall b :: 0 <= b < |st.blocks| ==> StableAt(st, st', b)
  }

  ghost predicate StableAt(st: St, st': St, b: nat)
    requires Sizes(st) && Sizes(st')
    requires b < |st.blocks| <= |st'.blocks|
  {
    && st.blocks[b].instrs <= st'.blocks[b].instrs
    && st.g.logs[b] <= st'.g.logs[b]
    && (b in st.g.closed ==> st'.g.logs[b] == st.g.logs[b])
    && st.blocks[b].preds <= st'.blocks[b].preds
  }

  lemma StableTrans(a: St, b: St, c: St)
    requires Stable(a, b) && Stable(b, c)
    ensures Stable(a, c)
  {
    forall i | 0 <= i < |a.blocks| ensures StableAt(a, c, i) {
      assert StableAt(a, b, i) && StableAt(b, c, i);
    }
  }

  lemma PointStable(st: St, st': St, p: Point)
    requires Stable(st, st') && InRange(st, p)
    ensures InRange(st', p)
    ensures forall i :: InstrIs(st, p, i) ==> InstrIs(st', p, i)
    ensures forall s, o :: WriteIs(st, p, s, o) ==> WriteIs(st', p, s, o)
    ensures forall b :: EdgeAt(st, p, b) ==> EdgeAt(st', p, b)
    ensures forall s :: KnownAt(st.g, s, p.b, p.k) ==>
      KnownAt(st'.g, s, p.b, p.k) && OperandAt(st'.g, s, p.b, p.k) == OperandAt(st.g, s, p.b, p.k)
  {
    assert StableAt(st, st', p.b);
    assert st'.g.logs[p.b][..p.k] == st.g.logs[p.b][..p.k];
    forall b | EdgeAt(st, p, b) ensures EdgeAt(st', p, b) {
      assert StableAt(st, st', b);
    }
  }

  lemma {:induction false} EmitEStable(st: St, st': St, e: Expr, t: ETree)
    requires Stable(st, st') && EmitE(st, e, t)
    ensures EmitE(st', e, t)
    decreases e
  {
    PointStable(st, st', t.start);
    PointStable(st, st', t.end);
    match e
    case IntLit(_) =>
    case Ident(_) =>
    case Binary(_, l, r) =>
      EmitEStable(st, st', l, t.kids[0]);
      EmitEStable(st, st', r, t.kids[1]);
      EmittedEnd(st, r, t.kids[1]);
      PointStable(st, st', t.kids[1].end);
    case Assign(_, r) =>
      EmitEStable(st, st', r, t.kids[0]);
      EmittedEnd(st, r, t.kids[0]);
      PointStable(st, st', t.kids[0].end);
    case VarDecl(_, None) =>
    case VarDecl(_, Some(r)) =>
      EmitEStable(st, st', r, t.kids[0]);
      EmittedEnd(st, r, t.kids[0]);
      PointStable(st, st', t.kids[0].end);
  }

  lemma {:induction false} EmittedEnd(st: St, e: Expr, t: ETree)
    requires Sizes(st) && EmitE(st, e, t)
    ensures InRange(st, t.start) && InRange(st, t.end)
  {
  }

  lemma {:induction false} EmitSStable(st: St, st': St, s: Stmt, t: STree)
    requires Stable(st, st') && EmitS(st, s, t)
    ensures EmitS(st', s, t)
    decreases s, 0
  {
    PointStable(st, st', t.start);
    PointStable(st, st', t.end);
    match s
    case ExprStmt(e) => EmitEStable(st, st', e, t.exprs[0]);
    case Return(None) =>
    case Return(Some(e)) =>
      EmitEStable(st, st', e, t.exprs[0]);
      PointStable(st, st', t.exprs[0].end);
    case If(c, thn, els) =>
      EmitEStable(st, st', c, t.exprs[0]);
      PointStable(st, st', t.exprs[0].end);
      EmitBranchStable(st, st', thn, t.kids[0], t.exprs[0].end, t.end.b);
      if els.Some? {
        EmitBranchStable(st, st', els.value, t.kids[1], t.exprs[0].end, t.end.b);
      }
    case While(c, body) =>
      EmitEStable(st, st', c, t.exprs[0]);
      PointStable(st, st', t.exprs[0].end);
      EmitBranchStable(st, st', body, t.kids[0], t.exprs[0].end, t.exprs[0].start.b);
    case Block(stmts) => EmitFromStable(st, st', stmts, t.kids, 0, t.start, t.end);
  }

  lemma {:induction false} EmitBranchStable(st: St, st': St, s: Stmt, t: STree, p: Point, next: nat)
    requires Stable(st, st') && EmitBranch(st, s, t, p, next)
    ensures EmitBranch(st', s, t, p, next)
    decreases s, 1
  {
    EmitSStable(st, st', s, t);
    PointStable(st, st', p);
    PointStable(st, st', t.end);
  }

  lemma {:induction false} EmitFromStable(st: St, st': St, stmts: seq<Stmt>, kids: seq<STree>, i: nat, start: Point, end: Point)
    requires Stable(st, st') && i <= |stmts| && EmitFrom(st, stmts, kids, i, start, end)
    ensures EmitFrom(st', stmts, kids, i, start, end)
    decreases stmts, |stmts| - i + 1
  {
    if i < |stmts| {
      EmitSStable(st, st', stmts[i], kids[i]);
      EmitFromStable(st, st', stmts, kids, i + 1, kids[i].end, end);
    }
  }
}
