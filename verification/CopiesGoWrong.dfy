// Two functions whose copies change what they return.
module CopiesGoWrong {
  import opened Ast
  import opened Cfg
  import opened CriticalEdges
  import opened IR
  import opened PhiElimination

  // ----- Runs given step by step -----

  ghost predicate Trace(blocks: seq<BasicBlock>, cs: seq<Config>) {
    |cs| > 0 && forall i :: 0 <= i < |cs| - 1 ==> Step(blocks, cs[i]) == cs[i + 1]
  }

  lemma {:induction false} TraceRuns(blocks: seq<BasicBlock>, cs: seq<Config>)
    requires Trace(blocks, cs)
    ensures Run(blocks, cs[0], |cs| - 1) == cs[|cs| - 1]
    decreases |cs|
  {
    hide Step;
    if |cs| > 1 { TraceRuns(blocks, cs[1..]); }
  }

  ghost predicate LoweredTrace(prog: seq<seq<Lowered>>, cs: seq<Config>) {
    |cs| > 0 && forall i :: 0 <= i < |cs| - 1 ==> LoweredStep(prog, cs[i]) == cs[i + 1]
  }

  lemma {:induction false} LoweredTraceRuns(prog: seq<seq<Lowered>>, cs: seq<Config>)
    requires LoweredTrace(prog, cs)
    ensures LoweredRun(prog, cs[0], |cs| - 1) == cs[|cs| - 1]
    decreases |cs|
  {
    hide LoweredStep;
    if |cs| > 1 { LoweredTraceRuns(prog, cs[1..]); }
  }

  // ----- A loop that exchanges two variables -----

  // Symbols 0, 1, 2, 3 are a, b, i and t.
  // a = 1; b = 2; i = 0; while i < 1 { t = a; a = b; b = t; i = i + 1 } return b
  function SwapBody(): Stmt {
    Stmt.Block([
      ExprStmt(VarDecl(0, Some(IntLit(1)))), ExprStmt(VarDecl(1, Some(IntLit(2)))), ExprStmt(VarDecl(2, Some(IntLit(0)))),
      While(Binary(Less, Ident(2), IntLit(1)), Stmt.Block([
        ExprStmt(VarDecl(3, Some(Ident(0)))), ExprStmt(Assign(0, Ident(1))), ExprStmt(Assign(1, Ident(3))),
        ExprStmt(Assign(2, Binary(Plus, Ident(2), IntLit(1))))])),
      Return(Some(Ident(1)))])
  }

  // Its graph. The loop's condition is block 1, with phis for i, a and b.
  function SwapGraph(): seq<BasicBlock> {
    [BasicBlock([], [Br(1)], [], [1], true),
     BasicBlock([Phi(0, [(0, Literal(0)), (2, Register(4))]), Phi(2, [(0, Literal(1)), (2, Register(3))]), Phi(3, [(0, Literal(2)), (2, Register(2))])],
                [Instr.Arith(1, Less, Register(0), Literal(1)), Cbr(Register(1), 2, 3)], [0, 2], [2, 3], true),
     BasicBlock([], [Instr.Arith(4, Plus, Register(0), Literal(1)), Br(1)], [1], [1], true),
     BasicBlock([], [Ret(Register(3))], [1], [], true)]
  }

  // Symbols 0 and 1 are x and y, x the parameter.
  // while x < 10 { y = x; x = 5; return y }
  function ReturnBody(): Stmt {
    While(Binary(Less, Ident(0), IntLit(10)), Stmt.Block([
      ExprStmt(VarDecl(1, Some(Ident(0)))), ExprStmt(Assign(0, IntLit(5))), Return(Some(Ident(1)))]))
  }

  // Its graph: the jump back is appended behind the return.
  function ReturnGraph(): seq<BasicBlock> {
    [BasicBlock([], [Br(1)], [], [1], true),
     BasicBlock([Phi(1, [(0, Register(0)), (2, Literal(5))])],
                [Instr.Arith(2, Less, Register(1), Literal(10)), Cbr(Register(2), 2, 3)], [0, 2], [2, 3], true),
     BasicBlock([], [Ret(Register(1)), Br(1)], [1], [1], true),
     BasicBlock([], [Ret(Literal(0))], [1], [], true)]
  }

  // ----- Both graphs are what lowering and edge splitting leave -----

  // A loop: 0 enters the condition 1, which goes to the body 2 or on to 3.
  ghost predicate IsLoop(blocks: seq<BasicBlock>) {
    && |blocks| == 4
    && blocks[0].preds == [] && blocks[1].preds == [0, 2] && blocks[2].preds == [1] && blocks[3].preds == [1]
    && blocks[0].succs == [1] && blocks[1].succs == [2, 3] && blocks[2].succs == [1] && blocks[3].succs == []
    && Succ(blocks[0]) == {1} && Succ(blocks[1]) == {2, 3} && Succ(blocks[2]) == {1} && Succ(blocks[3]) == {}
    && blocks[0].phis == [] && blocks[2].phis == [] && blocks[3].phis == []
    && (forall b :: 0 <= b < 4 ==> CodeOk(blocks[b].instrs, 4))
    && (forall i :: 0 <= i < |blocks[1].phis| ==> Labelled(blocks[1].phis[i], {0, 2}))
  }

  lemma LoopPreds(blocks: seq<BasicBlock>)
    requires IsLoop(blocks)
    ensures PredSet(blocks[0]) == {} && PredSet(blocks[1]) == {0, 2} && PredSet(blocks[2]) == {1} && PredSet(blocks[3]) == {1}
  {
    hide CodeOk, Labelled;
    assert blocks[1].preds[0] == 0 && blocks[1].preds[1] == 2;
    assert blocks[2].preds[0] == 1 && blocks[3].preds[0] == 1;
  }

  lemma LoopIsWellFormed(blocks: seq<BasicBlock>)
    requires IsLoop(blocks)
    ensures WellFormed(blocks) && NoCriticalEdge(blocks) && ListsOk(blocks) && PhisAtJoins(blocks) && SuccsInRange(blocks)
  {
    hide CodeOk, Labelled, PredSet, Succ;
    LoopPreds(blocks);
    assert |{0, 2}| == 2;
    forall b | 0 <= b < 4 ensures BlockOk(blocks, b) {
      forall p: nat ensures p in PredSet(blocks[b]) <==> p < 4 && b in Succ(blocks[p]) {
        assert p < 4 ==> p == 0 || p == 1 || p == 2 || p == 3;
      }
    }
  }

  lemma SwapIsLoop()
    ensures IsLoop(SwapGraph())
  {
    hide Labelled;
    var blocks := SwapGraph();
    BothLabelled(blocks[1].phis[0]);
    BothLabelled(blocks[1].phis[1]);
    BothLabelled(blocks[1].phis[2]);
    forall i | 0 <= i < 3 ensures Labelled(blocks[1].phis[i], {0, 2}) { assert i == 0 || i == 1 || i == 2; }
  }

  lemma SwapIsSsa()
    ensures SingleAssignment(SwapGraph(), 0)
  {
  }

  lemma ReturnIsLoop()
    ensures IsLoop(ReturnGraph())
  {
    hide Labelled;
    BothLabelled(ReturnGraph()[1].phis[0]);
  }

  lemma ReturnIsSsa()
    ensures SingleAssignment(ReturnGraph(), 1)
  {
  }

  lemma BothLabelled(phi: Phi)
    requires |phi.incomings| == 2 && phi.incomings[0].0 == 0 && phi.incomings[1].0 == 2
    requires !phi.incomings[0].1.NoOperand? && !phi.incomings[1].1.NoOperand?
    ensures Labelled(phi, {0, 2})
  {
  }

  // ----- What the functions yield -----

  lemma BlockGoesOn(stmts: seq<Stmt>, i: nat, env: Env, after: Env, fuel: nat)
    requires i < |stmts| && Exec(stmts[i], env, fuel) == Normal(after)
    ensures ExecFrom(stmts, i, env, fuel) == ExecFrom(stmts, i + 1, after, fuel)
  {
  }

  lemma SwapYields()
    ensures Yields([], SwapBody(), [], 1)
  {
    hide Exec, ExecFrom;
    var env1, env2, env3 := map[0 := 1], map[0 := 1, 1 := 2], map[0 := 1, 1 := 2, 2 := 0];
    var env4 := map[0 := 2, 1 := 1, 2 := 1, 3 := 1];
    var stmts := SwapBody().stmts;
    SwapDecls();
    SwapLoop();
    BlockGoesOn(stmts, 0, map[], env1, 2);
    BlockGoesOn(stmts, 1, env1, env2, 2);
    BlockGoesOn(stmts, 2, env2, env3, 2);
    BlockGoesOn(stmts, 3, env3, env4, 2);
    SwapReturn(env4);
    assert Bind([], []) == map[];
    assert ExecBody(SwapBody(), Bind([], []), 2) == Some(1);
  }

  lemma SwapDecls()
    ensures Exec(SwapBody().stmts[0], map[], 2) == Normal(map[0 := 1])
    ensures Exec(SwapBody().stmts[1], map[0 := 1], 2) == Normal(map[0 := 1, 1 := 2])
    ensures Exec(SwapBody().stmts[2], map[0 := 1, 1 := 2], 2) == Normal(map[0 := 1, 1 := 2, 2 := 0])
    ensures Exec(SwapBody(), map[], 2) == ExecFrom(SwapBody().stmts, 0, map[], 2)
  {
    hide ExecFrom;
  }

  lemma {:induction false} SwapReturn(env: Env)
    requires 1 in env && env[1] == 1
    ensures ExecFrom(SwapBody().stmts, 4, env, 2) == Returned(1)
  {
  }

  // One round of the loop, then its condition fails.
  lemma SwapLoop()
    ensures Exec(SwapBody().stmts[3], map[0 := 1, 1 := 2, 2 := 0], 2) == Normal(map[0 := 2, 1 := 1, 2 := 1, 3 := 1])
  {
    hide ExecFrom;
    var loop := SwapBody().stmts[3];
    var body := loop.body.stmts;
    var env := map[0 := 1, 1 := 2, 2 := 0];
    SwapRound();
    assert Exec(loop.body, env, 1) == ExecFrom(body, 0, env, 1);
    assert Exec(loop, map[0 := 2, 1 := 1, 2 := 1, 3 := 1], 1) == Normal(map[0 := 2, 1 := 1, 2 := 1, 3 := 1]);
  }

  lemma SwapRound()
    ensures ExecFrom(SwapBody().stmts[3].body.stmts, 0, map[0 := 1, 1 := 2, 2 := 0], 1) == Normal(map[0 := 2, 1 := 1, 2 := 1, 3 := 1])
  {
    hide ExecFrom;
    var body := SwapBody().stmts[3].body.stmts;
    var env := map[0 := 1, 1 := 2, 2 := 0];
    var env1, env2, env3 := env[3 := 1], env[3 := 1][0 := 2], env[3 := 1][0 := 2][1 := 1];
    BlockGoesOn(body, 0, env, env1, 1);
    BlockGoesOn(body, 1, env1, env2, 1);
    BlockGoesOn(body, 2, env2, env3, 1);
    BlockGoesOn(body, 3, env3, env3[2 := 1], 1);
    BlockEnds(body, env3[2 := 1], 1);
  }

  lemma {:induction false} BlockEnds(stmts: seq<Stmt>, env: Env, fuel: nat)
    ensures ExecFrom(stmts, |stmts|, env, fuel) == Normal(env)
  {
  }

  lemma ReturnYields()
    ensures Yields([0], ReturnBody(), [3], 3)
  {
    assert ExecBody(ReturnBody(), Bind([0], [3]), 2) == Some(3);
  }

  // ----- What the graphs return -----

  function SwapRegs(i: Word, a: Word, b: Word): Regs { map[0 := i, 2 := a, 3 := b] }

  // What entering the condition assigns.
  lemma {:induction false} SwapMoves(regs: Regs)
    ensures PhiMoves(SwapGraph()[1].phis, 0, regs) == Some(SwapRegs(0, 1, 2))
    ensures 2 in regs && 3 in regs && 4 in regs ==> PhiMoves(SwapGraph()[1].phis, 2, regs) == Some(SwapRegs(regs[4], regs[3], regs[2]))
  {
    var phis := SwapGraph()[1].phis;
    ThreePhis(phis, 0, regs, Literal(0), Literal(1), Literal(2));
    ThreePhis(phis, 2, regs, Register(4), Register(3), Register(2));
  }

  lemma {:induction false} ThreePhis(phis: seq<Phi>, from: nat, regs: Regs, o: Operand, p: Operand, q: Operand)
    requires |phis| == 3 && phis[0].result == 0 && phis[1].result == 2 && phis[2].result == 3
    requires IncomingFor(phis[0].incomings, from) == o && IncomingFor(phis[1].incomings, from) == p && IncomingFor(phis[2].incomings, from) == q
    ensures var u, v, w := Value(o, regs), Value(p, regs), Value(q, regs);
      u.Some? && v.Some? && w.Some? ==> PhiMoves(phis, from, regs) == Some(SwapRegs(u.value, v.value, w.value))
  {
    assert phis[..2][..1] == phis[..1] && phis[..1][..0] == [];
    assert PhiMoves([], from, regs) == Some(map[]);
    assert Value(o, regs).Some? ==> PhiMoves(phis[..1], from, regs) == Some(map[0 := Value(o, regs).value]);
  }

  function SwapTrace(): seq<Config> {
    var r1 := SwapRegs(0, 1, 2)[1 := 1];
    var r2 := r1[4 := 1];
    var r3 := r2 + SwapRegs(1, 2, 1);
    [At(0, 0, map[]), At(1, 0, SwapRegs(0, 1, 2)), At(1, 1, r1), At(2, 0, r1), At(2, 1, r2), At(1, 0, r3),
     At(1, 1, r3[1 := 0]), At(3, 0, r3[1 := 0]), Done(1)]
  }

  lemma SwapSteps(i: nat)
    requires i < 8
    ensures Step(SwapGraph(), SwapTrace()[i]) == SwapTrace()[i + 1]
  {
    hide PhiMoves;
    SwapMoves(map[]);
    SwapMoves(SwapTrace()[4].regs);
    NoPhis(1, SwapTrace()[2].regs);
    NoPhis(1, SwapTrace()[6].regs);
    if i < 4 { assert i == 0 || i == 1 || i == 2 || i == 3; } else { assert i == 4 || i == 5 || i == 6 || i == 7; }
  }

  lemma {:induction false} NoPhis(from: nat, regs: Regs)
    ensures PhiMoves([], from, regs) == Some(map[]) && regs + map[] == regs
  {
  }

  lemma SwapGraphReturns()
    ensures EndsIn(SwapGraph(), [], Done(1))
  {
    hide Step, SwapGraph;
    forall i | 0 <= i < 8 ensures Step(SwapGraph(), SwapTrace()[i]) == SwapTrace()[i + 1] { SwapSteps(i); }
    TraceRuns(SwapGraph(), SwapTrace());
    assert ArgRegs([]) == map[];
    assert Run(SwapGraph(), Start([]), 8) == Done(1);
  }

  function ReturnTrace(): seq<Config> {
    var r := map[0 := 3, 1 := 3];
    [At(0, 0, map[0 := 3]), At(1, 0, r), At(1, 1, r[2 := 1]), At(2, 0, r[2 := 1]), Done(3)]
  }

  lemma ReturnSteps(i: nat)
    requires i < 4
    ensures Step(ReturnGraph(), ReturnTrace()[i]) == ReturnTrace()[i + 1]
  {
    hide PhiMoves;
    OnePhi(ReturnGraph()[1].phis, 0, map[0 := 3], Register(0));
    NoPhis(1, ReturnTrace()[2].regs);
    assert i == 0 || i == 1 || i == 2 || i == 3;
  }

  lemma {:induction false} OnePhi(phis: seq<Phi>, from: nat, regs: Regs, o: Operand)
    requires |phis| == 1 && IncomingFor(phis[0].incomings, from) == o && Value(o, regs).Some?
    ensures PhiMoves(phis, from, regs) == Some(map[phis[0].result := Value(o, regs).value])
  {
    assert phis[..0] == [];
    assert PhiMoves([], from, regs) == Some(map[]);
  }

  lemma ReturnGraphReturns()
    ensures EndsIn(ReturnGraph(), [3], Done(3))
  {
    hide Step, ReturnGraph;
    forall i | 0 <= i < 4 ensures Step(ReturnGraph(), ReturnTrace()[i]) == ReturnTrace()[i + 1] { ReturnSteps(i); }
    TraceRuns(ReturnGraph(), ReturnTrace());
    assert ArgRegs([3]) == map[0 := 3];
    assert Run(ReturnGraph(), Start([3]), 4) == Done(3);
  }

  // ----- What the lowered code returns -----

  function SwapCode(): seq<seq<Lowered>> {
    [[Move(Copy(0, Literal(0))), Move(Copy(2, Literal(1))), Move(Copy(3, Literal(2))), Plain(Br(1))],
     [Plain(Instr.Arith(1, Less, Register(0), Literal(1))), Plain(Cbr(Register(1), 2, 3))],
     [Plain(Instr.Arith(4, Plus, Register(0), Literal(1))),
      Move(Copy(0, Register(4))), Move(Copy(2, Register(3))), Move(Copy(3, Register(2))), Plain(Br(1))],
     [Plain(Ret(Register(3)))]]
  }

  function ReturnCode(): seq<seq<Lowered>> {
    [[Move(Copy(1, Register(0))), Plain(Br(1))],
     [Plain(Instr.Arith(2, Less, Register(1), Literal(10))), Plain(Cbr(Register(2), 2, 3))],
     [Move(Copy(1, Literal(5))), Plain(Ret(Register(1))), Move(Copy(1, Literal(5))), Plain(Br(1))],
     [Plain(Ret(Literal(0)))]]
  }

  lemma {:induction false} CopiesForTwo(phi: Phi, from: nat)
    requires |phi.incomings| == 2 && phi.incomings[0].0 == 0 && phi.incomings[1].0 == 2
    ensures CopiesFor(phi, phi.incomings, from) ==
      if from == 0 then [Copy(phi.result, phi.incomings[0].1)] else if from == 2 then [Copy(phi.result, phi.incomings[1].1)] else []
  {
    assert phi.incomings[..1][..0] == [];
    assert CopiesFor(phi, [], from) == [];
    assert CopiesFor(phi, phi.incomings[..1], from) == if from == 0 then [Copy(phi.result, phi.incomings[0].1)] else [];
  }

  lemma {:induction false} CopiesOfThree(phis: seq<Phi>, from: nat, a: seq<Copy>, b: seq<Copy>, c: seq<Copy>)
    requires |phis| == 3 && CopiesFor(phis[0], phis[0].incomings, from) == a
    requires CopiesFor(phis[1], phis[1].incomings, from) == b && CopiesFor(phis[2], phis[2].incomings, from) == c
    ensures CopiesOf(phis, from) == a + b + c
  {
    hide CopiesFor;
    assert phis[..2][..1] == phis[..1] && phis[..1][..0] == [];
    assert CopiesOf([], from) == [];
    assert CopiesOf(phis[..1], from) == a;
  }

  lemma {:induction false} CopiesOfOne(phis: seq<Phi>, from: nat)
    requires |phis| == 1
    ensures CopiesOf(phis, from) == CopiesFor(phis[0], phis[0].incomings, from)
  {
    hide CopiesFor;
    assert phis[..0] == [] && CopiesOf([], from) == [];
  }

  // The copies into the blocks of a loop: those for the condition's phis at the
  // end of the entry and of the body.
  lemma LoopCopies(blocks: seq<BasicBlock>)
    requires IsLoop(blocks) && SuccsInRange(blocks)
    ensures BlockCopies(blocks, 0) == CopiesOf(blocks[1].phis, 0) && BlockCopies(blocks, 1) == []
    ensures BlockCopies(blocks, 2) == CopiesOf(blocks[1].phis, 2) && BlockCopies(blocks, 3) == []
  {
    hide CopiesOf, CodeOk, Labelled;
    assert [1][..0] == [] && [2, 3][..1] == [2] && [2][..0] == [];
    assert CopiesTo(blocks, [], 0) == [] && CopiesTo(blocks, [], 1) == [] && CopiesTo(blocks, [], 2) == [];
    assert CopiesOf([], 1) == [] by { NoCopies(1); }
    assert CopiesTo(blocks, [2], 1) == [];
  }

  lemma {:induction false} NoCopies(from: nat)
    ensures CopiesOf([], from) == []
  {
  }

  lemma {:induction false} LowerTwo(a: Instr, b: Instr, copies: seq<Copy>)
    ensures LowerCode([a, b], copies) ==
      (if a.IsTerminator() then Moves(copies) else []) + [Plain(a)] + (if b.IsTerminator() then Moves(copies) else []) + [Plain(b)]
  {
    LowerOne(a, copies);
    assert [a, b][..1] == [a];
  }

  lemma {:induction false} LowerOne(a: Instr, copies: seq<Copy>)
    ensures LowerCode([a], copies) == (if a.IsTerminator() then Moves(copies) else []) + [Plain(a)]
  {
    assert [a][..0] == [] && LowerCode([], copies) == [];
  }

  lemma SwapCodeIs()
    ensures SuccsInRange(SwapGraph()) && LowerGraph(SwapGraph()) == SwapCode()
  {
    hide CopiesFor, CopiesOf, CopiesTo, LowerCode, IsLoop;
    var blocks := SwapGraph();
    SwapIsLoop();
    LoopIsWellFormed(blocks);
    LoopCopies(blocks);
    var phis := blocks[1].phis;
    CopiesForTwo(phis[0], 0);
    CopiesForTwo(phis[1], 0);
    CopiesForTwo(phis[2], 0);
    CopiesForTwo(phis[0], 2);
    CopiesForTwo(phis[1], 2);
    CopiesForTwo(phis[2], 2);
    CopiesOfThree(phis, 0, [Copy(0, Literal(0))], [Copy(2, Literal(1))], [Copy(3, Literal(2))]);
    CopiesOfThree(phis, 2, [Copy(0, Register(4))], [Copy(2, Register(3))], [Copy(3, Register(2))]);
    LowerOne(blocks[0].instrs[0], BlockCopies(blocks, 0));
    LowerTwo(blocks[1].instrs[0], blocks[1].instrs[1], []);
    LowerTwo(blocks[2].instrs[0], blocks[2].instrs[1], BlockCopies(blocks, 2));
    LowerOne(blocks[3].instrs[0], []);
    var out := LowerGraph(blocks);
    assert out[0] == SwapCode()[0];
    assert out[1] == SwapCode()[1];
    assert out[2] == SwapCode()[2];
    assert out[3] == SwapCode()[3];
  }

  lemma ReturnCodeIs()
    ensures SuccsInRange(ReturnGraph()) && LowerGraph(ReturnGraph()) == ReturnCode()
  {
    hide CopiesFor, CopiesOf, CopiesTo, LowerCode, IsLoop;
    var blocks := ReturnGraph();
    ReturnIsLoop();
    LoopIsWellFormed(blocks);
    LoopCopies(blocks);
    CopiesForTwo(blocks[1].phis[0], 0);
    CopiesForTwo(blocks[1].phis[0], 2);
    CopiesOfOne(blocks[1].phis, 0);
    CopiesOfOne(blocks[1].phis, 2);
    LowerOne(blocks[0].instrs[0], BlockCopies(blocks, 0));
    LowerTwo(blocks[1].instrs[0], blocks[1].instrs[1], []);
    LowerTwo(blocks[2].instrs[0], blocks[2].instrs[1], BlockCopies(blocks, 2));
    LowerOne(blocks[3].instrs[0], []);
    var out := LowerGraph(blocks);
    assert out[0] == ReturnCode()[0];
    assert out[1] == ReturnCode()[1];
    assert out[2] == ReturnCode()[2];
    assert out[3] == ReturnCode()[3];
  }

  function SwapLoweredTrace(): seq<Config> {
    var r := map[0 := 0];
    var s := r[2 := 1][3 := 2];
    var t := s[1 := 1][4 := 1];
    var u := t[0 := 1];
    var v := u[2 := 2];
    var x := v[3 := 2];
    [At(0, 0, map[]), At(0, 1, r), At(0, 2, r[2 := 1]), At(0, 3, s), At(1, 0, s), At(1, 1, s[1 := 1]), At(2, 0, s[1 := 1]),
     At(2, 1, t), At(2, 2, u), At(2, 3, v), At(2, 4, x), At(1, 0, x), At(1, 1, x[1 := 0]), At(3, 0, x[1 := 0]), Done(2)]
  }

  lemma SwapLoweredSteps(i: nat)
    requires i < 14
    ensures LoweredStep(SwapCode(), SwapLoweredTrace()[i]) == SwapLoweredTrace()[i + 1]
  {
    if i < 7 {
      assert i == 0 || i == 1 || i == 2 || i == 3 || i == 4 || i == 5 || i == 6;
    } else {
      assert i == 7 || i == 8 || i == 9 || i == 10 || i == 11 || i == 12 || i == 13;
    }
  }

  function ReturnLoweredTrace(): seq<Config> {
    var r := map[0 := 3, 1 := 3];
    [At(0, 0, map[0 := 3]), At(0, 1, r), At(1, 0, r), At(1, 1, r[2 := 1]), At(2, 0, r[2 := 1]), At(2, 1, r[2 := 1][1 := 5]), Done(5)]
  }

  lemma ReturnLoweredSteps(i: nat)
    requires i < 6
    ensures LoweredStep(ReturnCode(), ReturnLoweredTrace()[i]) == ReturnLoweredTrace()[i + 1]
  {
    assert i == 0 || i == 1 || i == 2 || i == 3 || i == 4 || i == 5;
  }

  // The graph is as lowering and edge splitting leave it and returns what the
  // function yields, 1; the code with copies returns 2.
  lemma SwapGoesWrong()
    ensures var g := SwapGraph();
      && WellFormed(g) && NoCriticalEdge(g) && ListsOk(g) && PhisAtJoins(g) && SingleAssignment(g, 0) && SuccsInRange(g)
      && Yields([], SwapBody(), [], 1) && EndsIn(g, [], Done(1)) && LoweredEnds(g, [], Done(2))
  {
    hide WellFormed, NoCriticalEdge, ListsOk, PhisAtJoins, SingleAssignment, SuccsInRange, Yields, EndsIn, LoweredStep, LowerGraph, SwapGraph, SwapCode, IsLoop;
    SwapIsLoop();
    LoopIsWellFormed(SwapGraph());
    SwapIsSsa();
    SwapYields();
    SwapGraphReturns();
    SwapCodeIs();
    forall i | 0 <= i < 14 ensures LoweredStep(SwapCode(), SwapLoweredTrace()[i]) == SwapLoweredTrace()[i + 1] { SwapLoweredSteps(i); }
    LoweredTraceRuns(SwapCode(), SwapLoweredTrace());
    assert ArgRegs([]) == map[];
    assert LoweredRun(LowerGraph(SwapGraph()), Start([]), 14) == Done(2);
  }

  // The same for a return inside a loop: called with 3 the function yields 3, the
  // code with copies returns 5.
  lemma EarlyReturnGoesWrong()
    ensures var g := ReturnGraph();
      && WellFormed(g) && NoCriticalEdge(g) && ListsOk(g) && PhisAtJoins(g) && SingleAssignment(g, 1) && SuccsInRange(g)
      && Yields([0], ReturnBody(), [3], 3) && EndsIn(g, [3], Done(3)) && LoweredEnds(g, [3], Done(5))
  {
    hide WellFormed, NoCriticalEdge, ListsOk, PhisAtJoins, SingleAssignment, SuccsInRange, Yields, EndsIn, LoweredStep, LowerGraph, ReturnGraph, ReturnCode, IsLoop;
    ReturnIsLoop();
    LoopIsWellFormed(ReturnGraph());
    ReturnIsSsa();
    ReturnYields();
    ReturnGraphReturns();
    ReturnCodeIs();
    forall i | 0 <= i < 6 ensures LoweredStep(ReturnCode(), ReturnLoweredTrace()[i]) == ReturnLoweredTrace()[i + 1] { ReturnLoweredSteps(i); }
    LoweredTraceRuns(ReturnCode(), ReturnLoweredTrace());
    assert ArgRegs([3]) == map[0 := 3];
    assert LoweredRun(LowerGraph(ReturnGraph()), Start([3]), 6) == Done(5);
  }
}
