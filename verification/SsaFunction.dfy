// A whole function: from its parameters to the graph that replaces its body.
module SsaFunction {
  import opened Ast
  import opened Cfg
  import opened CriticalEdges
  import opened IR
  import opened SsaCorrect
  import opened SsaForks
  import opened SsaState
  import opened SsaSteps
  import opened SsaTrees

  function ArgOf(v: nat): Site { ArgSite }

  ghost function InitialState(nargs: nat): St {
    St([EMPTY_BLOCK], map[], map[], nargs,
       Ghosts([[]], map[], map v: nat | v < nargs :: ArgOf(v), [{}], [[]], {}, {}))
  }

  function SymSet(params: seq<Sym>): set<Sym> {
    set i | 0 <= i < |params| :: params[i]
  }

  lemma InitialInv(nargs: nat)
    ensures Inv(InitialState(nargs)) && EdgesOk(InitialState(nargs)) && ReadyToSeal(InitialState(nargs), 0)
  {
    var st := InitialState(nargs);
    assert PredsOkAt(st, 0) && PendingOk(st, 0) && EdgesOkAt(st, 0);
    assert st.g.logs[0][..0] == [];
    forall s: Sym | KnownAt(st.g, s, 0, 0) ensures false {}
  }

  // The entry block is sealed and the first n parameters are bound.
  ghost predicate ParamsBound(st: St, params: seq<Sym>, n: nat) {
    && Inv(st) && EdgesOk(st) && st.g.busy == {} && st.g.closed == {} && n <= |params|
    && |st.blocks| == 1 && st.blocks[0].isSealed && st.blocks[0].instrs == [] && st.blocks[0].phis == []
    && st.blocks[0].preds == [] && st.g.entries == map[]
    && st.g.home == InitialState(|params|).g.home
    && st.g.logs == [ParamLog(params[..n])]
  }

  ghost function ParamLog(params: seq<Sym>): seq<(Sym, Operand)> {
    seq(|params|, i requires 0 <= i < |params| => (params[i], Register(i)))
  }

  lemma ParamsStart(nargs: nat, params: seq<Sym>)
    requires nargs == |params| && Inv(Sealed(InitialState(nargs), 0))
    ensures ParamsBound(Sealed(InitialState(nargs), 0), params, 0)
  {
    assert EdgesOkAt(Sealed(InitialState(nargs), 0), 0);
    assert ParamLog(params[..0]) == [];
  }

  lemma ParamStep(st: St, params: seq<Sym>, i: nat)
    requires ParamsBound(st, params, i) && i < |params|
    ensures ParamsBound(Written(st, 0, params[i], Register(i)), params, i + 1)
  {
    WrittenKeepsInv(st, 0, params[i], Register(i));
    WrittenIsExprStep(st, 0, params[i], Register(i));
    assert params[..i + 1] == params[..i] + [params[i]];
    assert ParamLog(params[..i + 1]) == ParamLog(params[..i]) + [(params[i], Register(i))];
  }

  lemma ParamsReady(st: St, params: seq<Sym>)
    requires ParamsBound(st, params, |params|)
    ensures Inv(st) && EdgesOk(st) && st.g.busy == {} && |st.blocks| == 1 && 0 !in st.g.closed
    ensures SymSet(params) <= BoundAtEnd(st.g, 0)
  {
    assert params[..|params|] == params;
    forall s | s in SymSet(params) ensures s in BoundAtEnd(st.g, 0) {
      var i :| 0 <= i < |params| && params[i] == s;
      assert st.g.logs[0][i].0 == s;
    }
  }

  // The environment the parameters set up.
  lemma {:induction false} ParamsRel(params: seq<Sym>, args: seq<Word>, s: Sym)
    requires |params| == |args|
    ensures Logged(ParamLog(params), s) ==>
      && s in Bind(params, args) && LastWrite(ParamLog(params), s).Register?
      && LastWrite(ParamLog(params), s).id < |args|
      && args[LastWrite(ParamLog(params), s).id] == Bind(params, args)[s]
  {
    if params != [] {
      var n := |params| - 1;
      assert ParamLog(params)[..n] == ParamLog(params[..n]);
      ParamsRel(params[..n], args[..n], s);
      if Logged(ParamLog(params), s) && params[n] != s {
        var i :| 0 <= i < |params| && ParamLog(params)[i].0 == s;
        assert ParamLog(params[..n])[i].0 == s;
      }
    }
  }

  lemma {:induction false} ArgsHold(st: St, params: seq<Sym>, args: seq<Word>)
    requires ParamsBound(st, params, |params|) && |args| == |params|
    ensures InRange(st, EndOf(st, 0))
    ensures Rel(st, EndOf(st, 0), ArgRegs(args), Bind(params, args))
  {
    assert params[..|params|] == params;
    var p := EndOf(st, 0);
    assert st.g.logs[0][..p.k] == ParamLog(params);
    forall s: Sym | KnownAt(st.g, s, p.b, p.k) ensures Holds(st, p, ArgRegs(args), Bind(params, args), s) {
      ParamsRel(params, args, s);
    }
  }

  // The relation survives what is built afterwards.
  lemma RelStable(st: St, st': St, p: Point, regs: Regs, env: Env)
    requires Stable(st, st') && InRange(st, p) && InRange(st', p) && Rel(st, p, regs, env)
    requires forall s :: KnownAt(st'.g, s, p.b, p.k) ==> KnownAt(st.g, s, p.b, p.k)
    ensures Rel(st', p, regs, env)
  {
    PointStable(st, st', p);
    forall s: Sym | KnownAt(st'.g, s, p.b, p.k) ensures Holds(st', p, regs, env, s) {
      assert Holds(st, p, regs, env, s);
    }
  }

  // ----- The finished function -----

  // The final return, when there is none yet.
  ghost predicate Ended(st2: St, st3: St, q: nat)
    requires Sizes(st2) && q < |st2.blocks|
  {
    var code := st2.blocks[q].instrs;
    if |code| == 0 || !code[|code| - 1].IsTerminator() then st3 == Appended(st2, q, Ret(Literal(0))) else st3 == st2
  }

  lemma {:induction false} BodyLowered(st1: St, st2: St, st3: St, params: seq<Sym>, body: Stmt, t: STree, q: nat)
    requires ParamsBound(st1, params, |params|)
    requires Inv(st2) && EdgesOk(st2) && st2.g.busy == {} && q < |st2.blocks| && q !in st2.g.closed
    requires StmtStep(st1, st2, 0, q) && EmitS(st2, body, t) && t.start == EndOf(st1, 0) && t.end == EndOf(st2, q)
    requires Ended(st2, st3, q)
    ensures WellFormed(st3.blocks) && SingleAssignment(st3.blocks, |params|) && PhisAtJoins(st3.blocks)
    ensures forall args | |args| == |params| ::
      && NeverStuck(st3.blocks, args)
      && forall v: Word :: Returns(st3.blocks, args, v) <==> Yields(params, body, args, v)
  {
    hide LkoOk, EntriesOk, PhisOk, PredsOk, IncompleteOk, LogsOk, HomesOk, BusyOk, EdgesOk, EmitS;
    EndedKeeps(st1, st2, st3, params, body, t, q);
    FinishedIsWellFormed(st3, q);
    FinishedIsSsa(st3, |params|);
    forall args | |args| == |params|
      ensures NeverStuck(st3.blocks, args)
      ensures forall v: Word :: Returns(st3.blocks, args, v) <==> Yields(params, body, args, v)
    {
      BodyMeaning(st1, st3, params, body, t, q, args);
    }
  }

  lemma {:induction false} EndedKeeps(st1: St, st2: St, st3: St, params: seq<Sym>, body: Stmt, t: STree, q: nat)
    requires ParamsBound(st1, params, |params|)
    requires Inv(st2) && EdgesOk(st2) && st2.g.busy == {} && q < |st2.blocks| && q !in st2.g.closed
    requires StmtStep(st1, st2, 0, q) && EmitS(st2, body, t) && t.end == EndOf(st2, q)
    requires Ended(st2, st3, q)
    ensures Finished(st3) && EdgesOk(st3) && Stable(st1, st3) && EmitS(st3, body, t)
    ensures q < |st3.blocks| && q !in st3.g.closed
    ensures forall b :: 0 <= b < |st3.blocks| ==> b == q || b in st3.g.closed
    ensures st3.blocks[0].preds == [] && st3.g.bound[0] == {}
    ensures forall v :: 0 <= v < |params| ==> v in st3.g.home && st3.g.home[v] == ArgSite
    ensures |st3.blocks[q].instrs| > 0 && st3.blocks[q].instrs[|st3.blocks[q].instrs| - 1].Ret?
    ensures EndsWithReturn(st3, t.end)
  {
    hide LkoOk, EntriesOk, PhisOk, PredsOk, IncompleteOk, LogsOk, HomesOk, BusyOk, EdgesOk, EmitS, StableAt, UntouchedAt, ParamsBound;
    AllSealed(st1, st2, params, q);
    LastIsReturn(st2, q);
    if st3 != st2 {
      ReturnAppended(st2, st3, body, t, q);
      StableTrans(st1, st2, st3);
    }
    ArgsStay(st1, st3, params);
  }

  lemma AllSealed(st1: St, st2: St, params: seq<Sym>, q: nat)
    requires ParamsBound(st1, params, |params|) && StmtStep(st1, st2, 0, q)
    ensures forall b :: 0 <= b < |st2.blocks| ==> st2.blocks[b].isSealed && (b == q || b in st2.g.closed)
    ensures st2.blocks[0].preds == [] && st2.g.bound[0] == {}
  {
    assert UntouchedAt(st1, st2, 0, 0);
    EntryBound(st1, params);
  }

  lemma ArgsStay(st1: St, st3: St, params: seq<Sym>)
    requires ParamsBound(st1, params, |params|) && Stable(st1, st3)
    ensures forall v :: 0 <= v < |params| ==> v in st3.g.home && st3.g.home[v] == ArgSite
  {
    forall v | 0 <= v < |params| ensures v in st3.g.home && st3.g.home[v] == ArgSite {
      assert st1.g.home[v] == ArgOf(v);
    }
  }

  lemma {:induction false} ReturnAppended(st2: St, st3: St, body: Stmt, t: STree, q: nat)
    requires Inv(st2) && EdgesOk(st2) && q < |st2.blocks| && q !in st2.g.closed
    requires EmitS(st2, body, t) && t.end == EndOf(st2, q) && st3 == Appended(st2, q, Ret(Literal(0)))
    ensures Inv(st3) && EdgesOk(st3) && Stable(st2, st3) && EmitS(st3, body, t)
    ensures InstrIs(st3, t.end, Ret(Literal(0)))
  {
    var i := Ret(Literal(0));
    AppendedKeepsInv(st2, q, i);
    AppendedIsExprStep(st2, q, i);
    EmitSStable(st2, st3, body, t);
  }

  // At p the function returns 0, or p comes right after a return.
  ghost predicate EndsWithReturn(st: St, p: Point) {
    || InstrIs(st, p, Ret(Literal(0)))
    || (p.pc > 0 && p.b < |st.blocks| && p.pc <= |st.blocks[p.b].instrs| && st.blocks[p.b].instrs[p.pc - 1].Ret?)
  }

  lemma EntryBound(st: St, params: seq<Sym>)
    requires ParamsBound(st, params, |params|)
    ensures st.g.bound[0] == {}
  {
    assert PredsOkAt(st, 0);
  }

  lemma LastIsReturn(st: St, q: nat)
    requires Sizes(st) && EdgesOk(st) && q < |st.blocks| && q !in st.g.closed
    ensures var code := st.blocks[q].instrs;
      |code| > 0 && code[|code| - 1].IsTerminator() ==> code[|code| - 1].Ret?
  {
    assert EdgesOkAt(st, q);
  }

  lemma FinishedIsWellFormed(st: St, q: nat)
    requires Finished(st) && EdgesOk(st) && q < |st.blocks| && q !in st.g.closed
    requires forall b :: 0 <= b < |st.blocks| ==> b == q || b in st.g.closed
    requires st.blocks[0].preds == [] && st.g.bound[0] == {}
    requires |st.blocks[q].instrs| > 0 && st.blocks[q].instrs[|st.blocks[q].instrs| - 1].Ret?
    ensures WellFormed(st.blocks) && PhisAtJoins(st.blocks)
  {
    assert st.blocks[0].phis == [] by { assert PredsOkAt(st, 0); }
    forall b | 0 <= b < |st.blocks| && st.blocks[b].phis != [] ensures |PredSet(st.blocks[b])| > 1 {
      assert PredsOkAt(st, b);
      var preds := st.blocks[b].preds;
      assert {preds[0], preds[1]} <= PredSet(st.blocks[b]) && preds[0] != preds[1];
      Cardinality({preds[0], preds[1]}, PredSet(st.blocks[b]));
    }
    forall b | 0 <= b < |st.blocks| ensures BlockOk(st.blocks, b) {
      assert EdgesOkAt(st, b);
      forall p: nat ensures p in PredSet(st.blocks[b]) <==> p < |st.blocks| && b in Succ(st.blocks[p]) {
        assert PredsOkAt(st, b);
        if p < |st.blocks| { assert EdgesOkAt(st, p); }
      }
      forall i | 0 <= i < |st.blocks[b].phis| ensures Labelled(st.blocks[b].phis[i], PredSet(st.blocks[b])) {
        PhiIsLabelled(st, b, i);
      }
    }
  }

  lemma PhiIsLabelled(st: St, b: nat, i: nat)
    requires Finished(st) && b < |st.blocks| && i < |st.blocks[b].phis|
    ensures Labelled(st.blocks[b].phis[i], PredSet(st.blocks[b]))
  {
    assert PhiOk(st, b, i) && PredsOkAt(st, b) && Filled(st, b, i);
    var blk := st.blocks[b];
    var incomings := blk.phis[i].incomings;
    forall j | 0 <= j < |incomings|
      ensures incomings[j].0 == blk.preds[j] && !incomings[j].1.NoOperand?
    {
      RecordedIsSettled(st, st.g.phiSyms[b][i], blk.preds[j]);
    }
    forall p | p in PredSet(blk) ensures exists j :: 0 <= j < |incomings| && incomings[j].0 == p {
      var j :| 0 <= j < |blk.preds| && blk.preds[j] == p;
      assert incomings[j].0 == p;
    }
  }

  lemma FinishedIsSsa(st: St, nargs: nat)
    requires Inv(st) && forall v :: 0 <= v < nargs ==> v in st.g.home && st.g.home[v] == ArgSite
    ensures SingleAssignment(st.blocks, nargs)
  {
    forall d, v: nat | IsDef(st.blocks, d, v)
      ensures v in st.g.home
      ensures st.g.home[v] == match d case PhiDef(b, i) => PhiSite(b, i) case InstrDef(b, pc) => InstrSite(b, pc)
    {
      if d.PhiDef? { assert PhiOk(st, d.block, d.idx); }
    }
  }

  // Control only gets past arithmetic within a block.
  lemma {:induction false} PassedArith(blocks: seq<BasicBlock>, args: seq<Word>, n: nat)
    ensures var c := Run(blocks, Start(args), n);
      c.At? && c.block < |blocks| && 0 < c.pc <= |blocks[c.block].instrs| ==> blocks[c.block].instrs[c.pc - 1].Arith?
  {
    if n > 0 {
      PassedArith(blocks, args, n - 1);
      RunPlus(blocks, Start(args), n - 1, 1);
      var c := Run(blocks, Start(args), n - 1);
      assert Run(blocks, c, 1) == Run(blocks, Step(blocks, c), 0);
    }
  }

  // One call, with some fuel: how the run and the execution correspond.
  lemma BodyRun(st1: St, st: St, params: seq<Sym>, body: Stmt, t: STree, q: nat, args: seq<Word>, fuel: nat)
    returns (n: nat)
    requires ParamsBound(st1, params, |params|) && Finished(st) && Stable(st1, st) && |args| == |params|
    requires EmitS(st, body, t) && t.start == EndOf(st1, 0) && EndsWithReturn(st, t.end)
    requires st.blocks[0].preds == [] && st.g.bound[0] == {}
    ensures match ExecBody(body, Bind(params, args), fuel)
      case Some(v) => Run(st.blocks, Start(args), n) == Done(v)
      case None => fuel <= n && Run(st.blocks, Start(args), n).At?
  {
    hide LkoOk, PhisOk, PredsOk, IncompleteOk, LogsOk, HomesOk, BusyOk, EmitS;
    ArgsHold(st1, params, args);
    NothingElseKnown(st1, st, params);
    RelStable(st1, st, t.start, ArgRegs(args), Bind(params, args));
    var regs';
    n, regs' := SimStmt(st, body, t, ArgRegs(args), Bind(params, args), fuel);
    if Exec(body, Bind(params, args), fuel).Normal? {
      PassedArith(st.blocks, args, n);
      RunPlus(st.blocks, Start(args), n, 1);
      var c := AtPoint(t.end, regs');
      assert Run(st.blocks, c, 1) == Run(st.blocks, Step(st.blocks, c), 0);
      n := n + 1;
    }
  }

  lemma NothingElseKnown(st1: St, st: St, params: seq<Sym>)
    requires ParamsBound(st1, params, |params|) && Inv(st) && Stable(st1, st)
    requires st.blocks[0].preds == [] && st.g.bound[0] == {}
    ensures var p := EndOf(st1, 0);
      InRange(st, p) && forall s :: KnownAt(st.g, s, p.b, p.k) ==> KnownAt(st1.g, s, p.b, p.k)
  {
    var p := EndOf(st1, 0);
    PointStable(st1, st, p);
    assert StableAt(st1, st, 0);
    assert st.g.logs[0][..p.k] == st1.g.logs[0][..p.k];
  }

  lemma {:induction false} BodyMeaning(st1: St, st: St, params: seq<Sym>, body: Stmt, t: STree, q: nat, args: seq<Word>)
    requires ParamsBound(st1, params, |params|) && Finished(st) && Stable(st1, st) && |args| == |params|
    requires EmitS(st, body, t) && t.start == EndOf(st1, 0) && EndsWithReturn(st, t.end)
    requires st.blocks[0].preds == [] && st.g.bound[0] == {}
    ensures NeverStuck(st.blocks, args)
    ensures forall v: Word :: Returns(st.blocks, args, v) <==> Yields(params, body, args, v)
  {
    hide Finished, EmitS, ParamsBound, Stable;
    forall n: nat ensures !Run(st.blocks, Start(args), n).Stuck? {
      var m := BodyRun(st1, st, params, body, t, q, args, n);
      if Run(st.blocks, Start(args), n).Stuck? {
        if m <= n {
          RunPlus(st.blocks, Start(args), m, n - m);
          if Run(st.blocks, Start(args), m).Done? { RunFinal(st.blocks, Run(st.blocks, Start(args), m), n - m); }
        } else {
          RunPlus(st.blocks, Start(args), n, m - n);
          RunFinal(st.blocks, Run(st.blocks, Start(args), n), m - n);
        }
      }
    }
    forall v: Word ensures Returns(st.blocks, args, v) <==> Yields(params, body, args, v) {
      if fuel: nat :| ExecBody(body, Bind(params, args), fuel) == Some(v) {
        var n := BodyRun(st1, st, params, body, t, q, args, fuel);
      }
      if n: nat :| Run(st.blocks, Start(args), n) == Done(v) {
        var m := BodyRun(st1, st, params, body, t, q, args, n + 1);
        var out := ExecBody(body, Bind(params, args), n + 1);
        if out.None? {
          RunPlus(st.blocks, Start(args), n, m - n);
          RunFinal(st.blocks, Done(v), m - n);
        } else {
          RunEndUnique(st.blocks, Start(args), m, n);
        }
      }
    }
  }
}
