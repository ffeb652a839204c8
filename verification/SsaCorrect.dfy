// Running the finished control-flow graph does what executing the syntax tree does.
module SsaCorrect {
  import opened Ast
  import opened IR
  import opened SsaState
  import opened SsaTrees

  // Building is over: every predecessor list is complete and every phi filled.
  ghost predicate Finished(st: St) {
    Inv(st) && st.g.busy == {} && forall b :: 0 <= b < |st.blocks| ==> st.blocks[b].isSealed
  }

  function AtPoint(p: Point, regs: Regs): Config { At(p.b, p.pc, regs) }

  // At point p the operand known for a symbol holds the symbol's value.
  ghost predicate Rel(st: St, p: Point, regs: Regs, env: Env)
    requires Sizes(st) && InRange(st, p)
  {
    forall s: Sym :: KnownAt(st.g, s, p.b, p.k) ==> Holds(st, p, regs, env, s)
  }

  ghost predicate Holds(st: St, p: Point, regs: Regs, env: Env, s: Sym)
    requires Sizes(st) && InRange(st, p) && KnownAt(st.g, s, p.b, p.k)
  {
    && Settled(st.g.home, p.b, p.pc, OperandAt(st.g, s, p.b, p.k))
    && s in env && Value(OperandAt(st.g, s, p.b, p.k), regs) == Some(env[s])
  }

  // What is settled at p keeps its value from regs to regs'.
  ghost predicate Keeps(st: St, p: Point, regs: Regs, regs': Regs) {
    forall o :: Settled(st.g.home, p.b, p.pc, o) && Value(o, regs).Some? ==> Value(o, regs') == Value(o, regs)
  }

  lemma SettledLater(home: map<nat, Site>, b: nat, pc: nat, pc': nat, o: Operand)
    requires Settled(home, b, pc, o) && pc <= pc'
    ensures Settled(home, b, pc', o)
  {
  }

  // ----- Expressions -----

  // One write: the code does nothing, the environment changes.
  lemma SimWrite(st: St, p: Point, s: Sym, o: Operand, regs: Regs, env: Env, v: Word)
    requires Sizes(st) && InRange(st, p) && WriteIs(st, p, s, o) && Rel(st, p, regs, env)
    requires Settled(st.g.home, p.b, p.pc, o) && Value(o, regs) == Some(v)
    ensures InRange(st, p.(k := p.k + 1)) && Rel(st, p.(k := p.k + 1), regs, env[s := v])
  {
    var q := p.(k := p.k + 1);
    var log := st.g.logs[p.b];
    assert log[..q.k] == log[..p.k] + [(s, o)];
    forall t: Sym | KnownAt(st.g, t, q.b, q.k) ensures Holds(st, q, regs, env[s := v], t) {
      LoggedOneMore(log[..p.k], s, o, t);
      if t != s {
        assert KnownAt(st.g, t, p.b, p.k);
        assert Holds(st, p, regs, env, t);
      }
    }
  }

  lemma {:induction false} LoggedOneMore(log: seq<(Sym, Operand)>, s: Sym, o: Operand, t: Sym)
    ensures Logged(log + [(s, o)], t) <==> Logged(log, t) || t == s
    ensures LastWrite(log + [(s, o)], t) == if t == s then o else LastWrite(log, t)
  {
    var log' := log + [(s, o)];
    assert log'[..|log|] == log && log'[|log|] == (s, o);
    if Logged(log, t) {
      var i :| 0 <= i < |log| && log[i].0 == t;
      assert log'[i].0 == t;
    }
  }

  // One arithmetic instruction: the environment stays, one register changes
  // that no settled operand mentions.
  lemma SimArith(st: St, p: Point, r: nat, op: BinOp, x: Operand, y: Operand, a: Word, b: Word, regs: Regs, env: Env)
    requires Inv(st) && InRange(st, p) && InstrIs(st, p, Arith(r, op, x, y)) && Rel(st, p, regs, env)
    requires Value(x, regs) == Some(a) && Value(y, regs) == Some(b)
    ensures var q, regs' := p.(pc := p.pc + 1), regs[r := EvalOp(op, a, b)];
      && Run(st.blocks, AtPoint(p, regs), 1) == AtPoint(q, regs')
      && InRange(st, q) && Rel(st, q, regs', env) && Keeps(st, p, regs, regs')
  {
    var q, regs' := p.(pc := p.pc + 1), regs[r := EvalOp(op, a, b)];
    assert st.g.home[r] == InstrSite(p.b, p.pc);
    forall s: Sym | KnownAt(st.g, s, q.b, q.k) ensures Holds(st, q, regs', env, s) {
      assert Holds(st, p, regs, env, s);
    }
    assert Run(st.blocks, Step(st.blocks, AtPoint(p, regs)), 0) == AtPoint(q, regs');
  }

  // An expression's code computes its value and effects.
  lemma {:induction false} SimExpr(st: St, e: Expr, t: ETree, regs: Regs, env: Env) returns (n: nat, regs': Regs)
    requires Inv(st) && EmitE(st, e, t) && Rel(st, t.start, regs, env)
    ensures Run(st.blocks, AtPoint(t.start, regs), n) == AtPoint(t.end, regs')
    ensures Rel(st, t.end, regs', Eval(e, env).1) && Value(t.out, regs') == Some(Eval(e, env).0)
    ensures Keeps(st, t.start, regs, regs')
    decreases e, 0
  {
    hide LkoOk, EntriesOk, PhisOk, PredsOk, IncompleteOk, LogsOk, HomesOk, BusyOk, Rel;
    match e
    case IntLit(_) =>
      n, regs' := 0, regs;
    case Ident(s) =>
      n, regs' := 0, regs;
      RelGives(st, t.start, regs, env, s);
    case Binary(op, l, r) =>
      var tl, tr := t.kids[0], t.kids[1];
      var n1, regs1 := SimExpr(st, l, tl, regs, env);
      var (a, env1) := Eval(l, env);
      EmittedOut(st, l, tl);
      EmittedOut(st, r, tr);
      var n2, regs2 := SimExpr(st, r, tr, regs1, env1);
      var (b, env2) := Eval(r, env1);
      RunThen(st.blocks, AtPoint(tl.start, regs), n1, AtPoint(tl.end, regs1), n2);
      SimArith(st, tr.end, t.out.id, op, tl.out, tr.out, a, b, regs2, env2);
      n, regs' := n1 + n2 + 1, regs2[t.out.id := EvalOp(op, a, b)];
      RunThen(st.blocks, AtPoint(tl.start, regs), n1 + n2, AtPoint(tr.end, regs2), 1);
      KeepsTrans(st, tl.start, tl.end, regs, regs1, regs2);
      KeepsTrans(st, tl.start, tr.end, regs, regs2, regs');
    case Assign(s, r) =>
      n, regs' := SimAssign(st, s, r, t, regs, env);
    case VarDecl(s, None) =>
      n, regs' := 0, regs;
      SimWrite(st, t.start, s, t.out, regs, env, 0);
    case VarDecl(s, Some(r)) =>
      n, regs' := SimAssign(st, s, r, t, regs, env);
  }

  lemma SimAssign(st: St, s: Sym, r: Expr, t: ETree, regs: Regs, env: Env) returns (n: nat, regs': Regs)
    requires Inv(st) && EmitWrite(st, s, r, t) && InRange(st, t.start) && InRange(st, t.end) && Rel(st, t.start, regs, env)
    ensures Run(st.blocks, AtPoint(t.start, regs), n) == AtPoint(t.end, regs')
    ensures Rel(st, t.end, regs', Eval(r, env).1[s := Eval(r, env).0]) && Value(t.out, regs') == Some(Eval(r, env).0)
    ensures Keeps(st, t.start, regs, regs')
    decreases r, 1
  {
    hide LkoOk, EntriesOk, PhisOk, PredsOk, IncompleteOk, LogsOk, HomesOk, BusyOk, Rel;
    var tr := t.kids[0];
    EmittedOut(st, r, tr);
    n, regs' := SimExpr(st, r, tr, regs, env);
    SimWrite(st, tr.end, s, t.out, regs', Eval(r, env).1, Eval(r, env).0);
  }

  lemma RelGives(st: St, p: Point, regs: Regs, env: Env, s: Sym)
    requires Sizes(st) && InRange(st, p) && Rel(st, p, regs, env) && KnownAt(st.g, s, p.b, p.k)
    ensures Holds(st, p, regs, env, s)
  {
  }

  lemma {:induction false} EmittedOut(st: St, e: Expr, t: ETree)
    requires Sizes(st) && EmitE(st, e, t)
    ensures InRange(st, t.start) && InRange(st, t.end) && t.start.b == t.end.b && t.start.pc <= t.end.pc
    ensures Settled(st.g.home, t.end.b, t.end.pc, t.out)
  {
  }

  lemma KeepsTrans(st: St, p: Point, q: Point, regs: Regs, regs1: Regs, regs2: Regs)
    requires p.b == q.b && p.pc <= q.pc && Keeps(st, p, regs, regs1) && Keeps(st, q, regs1, regs2)
    ensures Keeps(st, p, regs, regs2)
  {
    forall o | Settled(st.g.home, p.b, p.pc, o) && Value(o, regs).Some? ensures Value(o, regs2) == Value(o, regs) {
      SettledLater(st.g.home, p.b, p.pc, q.pc, o);
    }
  }

  // ----- Jumps -----

  // The phis of a block read what its predecessor ends with.
  lemma FilledPhiValue(st: St, p: Point, b: nat, i: nat, regs: Regs, env: Env)
    requires Finished(st) && EdgeAt(st, p, b) && Rel(st, p, regs, env) && i < |st.blocks[b].phis|
    ensures var s := st.g.phiSyms[b][i];
      s in env && Value(IncomingFor(st.blocks[b].phis[i].incomings, p.b), regs) == Some(env[s])
  {
    var s := st.g.phiSyms[b][i];
    assert PhiOk(st, b, i) && PredsOkAt(st, b);
    var j :| 0 <= j < |st.blocks[b].preds| && st.blocks[b].preds[j] == p.b;
    assert Filled(st, b, i);
    var incomings := st.blocks[b].phis[i].incomings;
    forall k | 0 <= k < |incomings| ensures incomings[k].0 == st.blocks[b].preds[k] {}
    IncomingAt(incomings, j);
    assert st.g.logs[p.b][..p.k] == st.g.logs[p.b];
    assert KnownAt(st.g, s, p.b, p.k);
    assert Holds(st, p, regs, env, s);
  }

  lemma {:induction false} IncomingAt(incomings: seq<(nat, Operand)>, j: nat)
    requires j < |incomings|
    requires forall i, k :: 0 <= i < k < |incomings| ==> incomings[i].0 != incomings[k].0
    ensures IncomingFor(incomings, incomings[j].0) == incomings[j].1
  {
    if j > 0 {
      IncomingAt(incomings[1..], j - 1);
    }
  }

  // Entering b, the phis up to n assign the symbols they stand for.
  lemma {:induction false} SimPhis(st: St, p: Point, b: nat, n: nat, regs: Regs, env: Env)
    requires Finished(st) && EdgeAt(st, p, b) && Rel(st, p, regs, env) && n <= |st.blocks[b].phis|
    ensures var moves := PhiMoves(st.blocks[b].phis[..n], p.b, regs);
      && moves.Some?
      && (forall r :: r in moves.value ==> exists i :: 0 <= i < n && st.blocks[b].phis[i].result == r)
      && forall i :: 0 <= i < n ==>
           var s := st.g.phiSyms[b][i];
           var r := st.blocks[b].phis[i].result;
           s in env && r in moves.value && moves.value[r] == env[s]
  {
    if n > 0 {
      SimPhis(st, p, b, n - 1, regs, env);
      FilledPhiValue(st, p, b, n - 1, regs, env);
      var phis := st.blocks[b].phis;
      assert phis[..n][..n - 1] == phis[..n - 1] && phis[..n][n - 1] == phis[n - 1];
      forall i | 0 <= i < n - 1 ensures phis[i].result != phis[n - 1].result {
        assert PhiOk(st, b, i) && PhiOk(st, b, n - 1);
      }
    }
  }

  // Going from p's block to b keeps the relation, now at the start of b.
  lemma SimJump(st: St, p: Point, b: nat, regs: Regs, env: Env) returns (regs': Regs)
    requires Finished(st) && EdgeAt(st, p, b) && Rel(st, p, regs, env)
    ensures Enter(st.blocks, p.b, b, regs) == AtPoint(Entry(b), regs')
    ensures InRange(st, Entry(b)) && Rel(st, Entry(b), regs', env)
  {
    var phis := st.blocks[b].phis;
    SimPhis(st, p, b, |phis|, regs, env);
    assert phis[..|phis|] == phis;
    var moves := PhiMoves(phis, p.b, regs).value;
    regs' := regs + moves;
    forall s: Sym | KnownAt(st.g, s, b, 0) ensures Holds(st, Entry(b), regs', env, s) {
      assert st.g.logs[b][..0] == [];
      assert EntryOk(st, s, b);
      var o := st.g.entries[(s, b)];
      if i :| 0 <= i < |phis| && PhiIs(st, b, i, s, o) {
      } else {
        SimInherited(st, p, b, regs, env, s, moves);
      }
    }
  }

  lemma SimInherited(st: St, p: Point, b: nat, regs: Regs, env: Env, s: Sym, moves: Regs)
    requires Finished(st) && EdgeAt(st, p, b) && Rel(st, p, regs, env)
    requires (s, b) in st.g.entries && Settled(st.g.home, b, 0, st.g.entries[(s, b)])
    requires |st.blocks[b].preds| == 1 && (s, st.blocks[b].preds[0]) in st.lko
    requires st.g.entries[(s, b)] == st.lko[(s, st.blocks[b].preds[0])]
    requires forall r :: r in moves ==> exists i :: 0 <= i < |st.blocks[b].phis| && st.blocks[b].phis[i].result == r
    ensures s in env && Value(st.g.entries[(s, b)], regs + moves) == Some(env[s])
  {
    assert PredsOkAt(st, b);
    assert moves == map[];
    assert st.g.logs[p.b][..p.k] == st.g.logs[p.b];
    assert KnownAt(st.g, s, p.b, p.k);
    assert Holds(st, p, regs, env, s);
  }

  // A branch instruction at p, whichever way it goes, gets to the start of b.
  lemma SimBranch(st: St, p: Point, i: Instr, b: nat, regs: Regs, env: Env) returns (regs': Regs)
    requires Finished(st) && InstrIs(st, p, i) && EdgeAt(st, p, b) && Rel(st, p, regs, env)
    requires i == Br(b) ||
      (i.Cbr? && Value(i.cond, regs).Some? && b == if Value(i.cond, regs).value != 0 then i.ifTrue else i.ifFalse)
    ensures Run(st.blocks, AtPoint(p, regs), 1) == AtPoint(Entry(b), regs')
    ensures InRange(st, Entry(b)) && Rel(st, Entry(b), regs', env)
  {
    regs' := SimJump(st, p, b, regs, env);
    assert Run(st.blocks, Step(st.blocks, AtPoint(p, regs)), 0) == AtPoint(Entry(b), regs');
  }

  // ----- Statements -----

  // Where a run of n steps from config c stands once the outcome is known:
  // after the statement, over, or still going after as many steps as there was fuel.
  ghost predicate Reached(st: St, c: Config, n: nat, out: Outcome, end: Point, regs': Regs, fuel: nat)
    requires Sizes(st) && InRange(st, end)
  {
    match out
    case Normal(env') => Run(st.blocks, c, n) == AtPoint(end, regs') && Rel(st, end, regs', env')
    case Returned(v) => Run(st.blocks, c, n) == Done(v)
    case OutOfFuel => fuel <= n && Run(st.blocks, c, n).At?
  }

  // First m steps to d, then as d goes on.
  lemma {:induction false} ReachedLater(st: St, c: Config, m: nat, d: Config, n: nat, out: Outcome, end: Point, regs': Regs, fuel: nat)
    requires Sizes(st) && InRange(st, end) && Run(st.blocks, c, m) == d && Reached(st, d, n, out, end, regs', fuel)
    ensures Reached(st, c, m + n, out, end, regs', fuel)
  {
    RunThen(st.blocks, c, m, d, n);
  }

  lemma SimStmt(st: St, s: Stmt, t: STree, regs: Regs, env: Env, fuel: nat) returns (n: nat, regs': Regs)
    requires Finished(st) && EmitS(st, s, t) && Rel(st, t.start, regs, env)
    ensures Reached(st, AtPoint(t.start, regs), n, Exec(s, env, fuel), t.end, regs', fuel)
    decreases fuel, s, 1
  {
    hide LkoOk, EntriesOk, PhisOk, PredsOk, IncompleteOk, LogsOk, HomesOk, BusyOk, Rel, EmitE;
    match s
    case ExprStmt(e) =>
      n, regs' := SimExpr(st, e, t.exprs[0], regs, env);
    case Return(_) =>
      n, regs' := SimReturn(st, s, t, regs, env);
    case If(_, _, _) =>
      n, regs' := SimIf(st, s, t, regs, env, fuel);
    case While(c, _) =>
      var head := t.exprs[0].start;
      var regs1 := SimBranch(st, t.start, Br(head.b), head.b, regs, env);
      var n1, regs2 := SimLoop(st, s, t, regs1, env, fuel);
      ReachedLater(st, AtPoint(t.start, regs), 1, AtPoint(head, regs1), n1, Exec(s, env, fuel), t.end, regs2, fuel);
      n, regs' := 1 + n1, regs2;
    case Block(stmts) =>
      n, regs' := SimFrom(st, stmts, t.kids, 0, t.start, t.end, regs, env, fuel);
  }

  lemma SimReturn(st: St, s: Stmt, t: STree, regs: Regs, env: Env) returns (n: nat, regs': Regs)
    requires s.Return? && Finished(st) && EmitS(st, s, t) && Rel(st, t.start, regs, env)
    ensures Run(st.blocks, AtPoint(t.start, regs), n)
         == Done(if s.result.Some? then Eval(s.result.value, env).0 else 0)
  {
    hide LkoOk, EntriesOk, PhisOk, PredsOk, IncompleteOk, LogsOk, HomesOk, BusyOk, Rel, EmitE;
    match s.result
    case None =>
      n, regs' := 1, regs;
      assert Run(st.blocks, Step(st.blocks, AtPoint(t.start, regs)), 0) == Done(0);
    case Some(e) =>
      var te := t.exprs[0];
      var n1, regs1 := SimExpr(st, e, te, regs, env);
      n, regs' := n1 + 1, regs1;
      RunThen(st.blocks, AtPoint(t.start, regs), n1, AtPoint(te.end, regs1), 1);
      assert Run(st.blocks, Step(st.blocks, AtPoint(te.end, regs1)), 0) == Done(Eval(e, env).0);
  }

  // A branch in a block of its own, entered from p, and the jump that ends it.
  lemma SimArm(st: St, s: Stmt, t: STree, p: Point, i: Instr, next: nat, regs: Regs, env: Env, fuel: nat)
    returns (n: nat, regs': Regs)
    requires Finished(st) && EmitBranch(st, s, t, p, next) && InRange(st, p) && InRange(st, Entry(next))
    requires InstrIs(st, p, i) && Rel(st, p, regs, env)
    requires i.Cbr? && Value(i.cond, regs).Some?
    requires t.start.b == if Value(i.cond, regs).value != 0 then i.ifTrue else i.ifFalse
    ensures n > 0 && Reached(st, AtPoint(p, regs), n, Exec(s, env, fuel), Entry(next), regs', fuel + 1)
    decreases fuel, s, 2
  {
    hide LkoOk, EntriesOk, PhisOk, PredsOk, IncompleteOk, LogsOk, HomesOk, BusyOk, Rel, EmitE;
    var out := Exec(s, env, fuel);
    var regs1 := SimBranch(st, p, i, t.start.b, regs, env);
    var n1, regs2 := SimStmt(st, s, t, regs1, env, fuel);
    ReachedLater(st, AtPoint(p, regs), 1, AtPoint(t.start, regs1), n1, out, t.end, regs2, fuel);
    n, regs' := 1 + n1, regs2;
    if out.Normal? {
      var regs3 := SimBranch(st, t.end, Br(next), next, regs2, out.env);
      RunThen(st.blocks, AtPoint(p, regs), 1 + n1, AtPoint(t.end, regs2), 1);
      n, regs' := 1 + n1 + 1, regs3;
    }
  }

  lemma SimIf(st: St, s: Stmt, t: STree, regs: Regs, env: Env, fuel: nat) returns (n: nat, regs': Regs)
    requires s.If? && Finished(st) && EmitS(st, s, t) && Rel(st, t.start, regs, env)
    ensures Reached(st, AtPoint(t.start, regs), n, Exec(s, env, fuel), t.end, regs', fuel)
    decreases fuel, s, 0
  {
    hide LkoOk, EntriesOk, PhisOk, PredsOk, IncompleteOk, LogsOk, HomesOk, BusyOk, Rel, EmitE;
    var tc := t.exprs[0];
    EmittedOut(st, s.cond, tc);
    var n1, regs1 := SimExpr(st, s.cond, tc, regs, env);
    var (v, env1) := Eval(s.cond, env);
    var i := st.blocks[tc.end.b].instrs[tc.end.pc];
    var n2, regs2;
    if v != 0 {
      n2, regs2 := SimArm(st, s.thenBranch, t.kids[0], tc.end, i, t.end.b, regs1, env1, fuel);
    } else if s.elseBranch.Some? {
      n2, regs2 := SimArm(st, s.elseBranch.value, t.kids[1], tc.end, i, t.end.b, regs1, env1, fuel);
    } else {
      n2 := 1;
      regs2 := SimBranch(st, tc.end, i, t.end.b, regs1, env1);
    }
    ReachedLater(st, AtPoint(t.start, regs), n1, AtPoint(tc.end, regs1), n2, Exec(s, env, fuel), t.end, regs2, fuel);
    n, regs' := n1 + n2, regs2;
  }

  // A loop entered at its condition.
  lemma {:induction false} SimLoop(st: St, s: Stmt, t: STree, regs: Regs, env: Env, fuel: nat) returns (n: nat, regs': Regs)
    requires s.While? && Finished(st) && EmitS(st, s, t)
    requires InRange(st, t.exprs[0].start) && Rel(st, t.exprs[0].start, regs, env)
    ensures Reached(st, AtPoint(t.exprs[0].start, regs), n, Exec(s, env, fuel), t.end, regs', fuel)
    decreases fuel, s, 0
  {
    hide LkoOk, EntriesOk, PhisOk, PredsOk, IncompleteOk, LogsOk, HomesOk, BusyOk, Rel, EmitE;
    var tc := t.exprs[0];
    n, regs' := 0, regs;
    if fuel > 0 {
      EmittedOut(st, s.cond, tc);
      var n1, regs1 := SimExpr(st, s.cond, tc, regs, env);
      var (v, env1) := Eval(s.cond, env);
      var i := st.blocks[tc.end.b].instrs[tc.end.pc];
      if v == 0 {
        var regs2 := SimBranch(st, tc.end, i, t.end.b, regs1, env1);
        RunThen(st.blocks, AtPoint(tc.start, regs), n1, AtPoint(tc.end, regs1), 1);
        n, regs' := n1 + 1, regs2;
      } else {
        var n2, regs2 := SimArm(st, s.body, t.kids[0], tc.end, i, tc.start.b, regs1, env1, fuel - 1);
        var out := Exec(s.body, env1, fuel - 1);
        ReachedLater(st, AtPoint(tc.start, regs), n1, AtPoint(tc.end, regs1), n2, out, tc.start, regs2, fuel);
        n, regs' := n1 + n2, regs2;
        if out.Normal? {
          var n3, regs3 := SimLoop(st, s, t, regs2, out.env, fuel - 1);
          ReachedLater(st, AtPoint(tc.start, regs), n, AtPoint(tc.start, regs2), n3,
                       Exec(s, out.env, fuel - 1), t.end, regs3, fuel - 1);
          n, regs' := n + n3, regs3;
        }
      }
    }
  }

  lemma {:induction false} SimFrom(st: St, stmts: seq<Stmt>, kids: seq<STree>, i: nat, start: Point, end: Point,
                                   regs: Regs, env: Env, fuel: nat) returns (n: nat, regs': Regs)
    requires Finished(st) && i <= |stmts| && EmitFrom(st, stmts, kids, i, start, end)
    requires InRange(st, start) && InRange(st, end) && Rel(st, start, regs, env)
    ensures Reached(st, AtPoint(start, regs), n, ExecFrom(stmts, i, env, fuel), end, regs', fuel)
    decreases fuel, stmts, |stmts| - i + 1
  {
    hide LkoOk, EntriesOk, PhisOk, PredsOk, IncompleteOk, LogsOk, HomesOk, BusyOk, Rel, EmitE;
    if i == |stmts| {
      n, regs' := 0, regs;
    } else {
      var out := Exec(stmts[i], env, fuel);
      var n1, regs1 := SimStmt(st, stmts[i], kids[i], regs, env, fuel);
      n, regs' := n1, regs1;
      if out.Normal? {
        var n2, regs2 := SimFrom(st, stmts, kids, i + 1, kids[i].end, end, regs1, out.env, fuel);
        ReachedLater(st, AtPoint(start, regs), n1, AtPoint(kids[i].end, regs1), n2,
                     ExecFrom(stmts, i + 1, out.env, fuel), end, regs2, fuel);
        n, regs' := n1 + n2, regs2;
      }
    }
  }
}
