// Lowering a syntax tree straight to SSA: the builder's tables and its methods.
module SsaBuilder {
  import opened Ast
  import opened Cfg
  import opened CriticalEdges
  import opened IR
  import opened SsaForks
  import opened SsaFunction
  import opened SsaState
  import opened SsaSteps
  import opened SsaTrees

  class SSAIR {
    // The blocks of the function being lowered and its next value id.
    var blocks: seq<BasicBlock>
    var nextValue: nat
    var currentBlock: nat
    // The last known operand of a symbol in a block.
    var lko: map<(Sym, nat), Operand>
    // Phis of unsealed blocks waiting for their operands.
    var incomplete: map<nat, seq<(Sym, nat)>>
    ghost var g: Ghosts

    ghost function Snap(): St
      reads this
    {
      St(blocks, lko, incomplete, nextValue, g)
    }

    // ----- Lookup -----

    method SetLKO(s: Sym, b: nat, o: Operand)
      modifies this`lko
      ensures lko == old(lko)[(s, b) := o]
    {
      lko := lko[(s, b) := o];
    }

    method AddPhi(b: nat) returns (v: Operand)
      requires b < |blocks|
      modifies this`blocks, this`nextValue
      ensures nextValue == old(nextValue) + 1 && v == Register(old(nextValue))
      ensures blocks == old(blocks[b := blocks[b].(phis := blocks[b].phis + [Phi(nextValue, [])])])
    {
      v := Register(nextValue);
      nextValue := nextValue + 1;
      blocks := blocks[b := blocks[b].(phis := blocks[b].phis + [Phi(v.id, [])])];
    }

    // The operand of s at the end of block b: the one on record, else what its
    // predecessors end with.
    method GetLKO(s: Sym, b: nat) returns (v: Operand)
      requires Inv(Snap()) && b < |blocks| && s in BoundAtEnd(g, b)
      modifies this`blocks, this`lko, this`incomplete, this`nextValue, this`g
      ensures Inv(Snap()) && LookedUp(old(Snap()), Snap(), s) && g.busy == old(g.busy)
      ensures (s, b) in lko && v == lko[(s, b)]
      decreases |Missing(Snap(), s)|, b, 1
    {
      if (s, b) in lko {
        v := lko[(s, b)];
        forall c | 0 <= c < |blocks| ensures BlockLookedUp(Snap(), Snap(), s, c) {}
      } else {
        v := GetLKORecursive(s, b);
      }
    }

    method GetLKORecursive(s: Sym, b: nat) returns (v: Operand)
      requires Inv(Snap()) && b < |blocks| && s in BoundAtEnd(g, b) && (s, b) !in lko
      modifies this`blocks, this`lko, this`incomplete, this`nextValue, this`g
      ensures Inv(Snap()) && LookedUp(old(Snap()), Snap(), s) && g.busy == old(g.busy)
      ensures (s, b) in lko && v == lko[(s, b)]
      decreases |Missing(Snap(), s)|, b, 0
    {
      hide Inv, LookedUp, WithPhi;
      ghost var st := Snap();
      BoundIsReachable(st, s, b);
      v := NoOperand;
      var preds := blocks[b].preds;
      if !blocks[b].isSealed {
        v := AddPhi(b);
        var pending := if b in incomplete then incomplete[b] else [];
        incomplete := incomplete[b := pending + [(s, |blocks[b].phis| - 1)]];
        SetLKO(s, b, v);
        g := WithPhi(st, s, b).g;
        IsWithPhi(st, s, b, Snap());
        NewPhiReady(st, s, b);
        WithPhiKeepsInv(st, s, b);
      } else if |preds| == 0 {
        assert false;
      } else if |preds| == 1 {
        v := GetLKO(s, preds[0]);
        ghost var st1 := Snap();
        StillSealed(st, st1, s, b);
        SetLKO(s, b, v);
        InheritOnce(st1, s, b);
        if (s, b) !in st1.lko {
          g := Inherited(st1, s, b, v).g;
          assert Snap() == Inherited(st1, s, b, v);
          LookedUpTrans(st, st1, Snap(), s);
        } else {
          assert lko == st1.lko;
          assert Snap() == st1;
        }
      } else {
        v := AddPhi(b);
        SetLKO(s, b, v);
        g := WithPhi(st, s, b).g;
        ghost var st1 := Snap();
        IsWithPhi(st, s, b, st1);
        WithPhiKeepsInv(st, s, b);
        MissingDrops(st, st1, s, b);
        NewPhiReady(st, s, b);
        FillPhi(s, b, |blocks[b].phis| - 1);
        ghost var st2 := Snap();
        PhiAddedAndFilled(st, st2, s, b);
        g := g.(busy := st.g.busy);
      }
    }

    // Gives phi idx of block b, which stands for s, one operand per predecessor.
    method FillPhi(s: Sym, b: nat, idx: nat)
      requires Inv(Snap()) && b < |blocks| && idx < |blocks[b].phis|
      requires g.phiSyms[b][idx] == s && (b, idx) in g.busy && blocks[b].phis[idx].incomings == []
      modifies this`blocks, this`lko, this`incomplete, this`nextValue, this`g
      ensures Inv(Snap()) && g.busy == old(g.busy)
      ensures |blocks| == old(|blocks|) && idx < |blocks[b].phis|
      ensures LookedUp(SetIncomings(old(Snap()), b, idx, blocks[b].phis[idx].incomings), Snap(), s)
      ensures Filled(Snap(), b, idx)
      decreases |Missing(Snap(), s)|, |blocks|, 2
    {
      hide PhisOk, EntriesOk, LkoOk, IncompleteOk, LogsOk, HomesOk, FilledUpTo, LookedUp;
      ghost var st := Snap();
      var preds := blocks[b].preds;
      NothingFilledYet(st, s, b, idx);
      var n := 0;
      while n < |preds|
        invariant n <= |preds| && |blocks| == |st.blocks| && idx < |blocks[b].phis|
        invariant Inv(Snap()) && g.busy == st.g.busy
        invariant LookedUp(SetIncomings(st, b, idx, blocks[b].phis[idx].incomings), Snap(), s)
        invariant blocks[b].preds == preds && g.phiSyms[b][idx] == s
        invariant n == |blocks[b].phis[idx].incomings|
        invariant FilledUpTo(Snap(), b, idx, n)
      {
        ghost var st1 := Snap();
        ghost var before := SetIncomings(st, b, idx, blocks[b].phis[idx].incomings);
        PhiSymReachable(st1, b, idx);
        LookedUpGrows(before, st1, s);
        MissingShrinks(before, st1, s);
        assert Missing(before, s) == Missing(st, s);
        var incoming := GetLKO(s, preds[n]);
        ghost var st2 := Snap();
        OneMoreIncoming(st, st1, st2, s, b, idx, preds[n], n);
        var phi := blocks[b].phis[idx];
        blocks := blocks[b := blocks[b].(phis := blocks[b].phis[idx :=
          phi.(incomings := phi.incomings + [(preds[n], incoming)])])];
        assert Snap() == WithIncoming(st2, b, idx, preds[n], incoming);
        n := n + 1;
      }
    }

    // Fills the phis of b now that its predecessors are all known.
    method SealBlock(b: nat)
      requires Inv(Snap()) && b < |blocks| && ReadyToSeal(Snap(), b) && g.busy == {}
      modifies this`blocks, this`lko, this`incomplete, this`nextValue, this`g
      ensures Inv(Snap()) && SealStep(old(Snap()), Snap(), b)
      ensures old(blocks[b].phis) == [] ==> Snap() == Sealed(old(Snap()), b)
    {
      hide LkoOk, EntriesOk, PhisOk, PredsOk, IncompleteOk, LogsOk, HomesOk, LookedUp, Passive;
      ghost var st := Snap();
      var pending := if b in incomplete then incomplete[b] else [];
      SealingStarts(st, b);
      g := AllBusy(st, b).g;
      var n := 0;
      while n < |pending|
        invariant n <= |pending|
        invariant Inv(Snap()) && Sealing(st, Snap(), b, n)
        invariant n == 0 ==> Snap() == AllBusy(st, b)
      {
        ghost var st1 := Snap();
        SealingSizes(st, st1, b, n);
        FillPhi(pending[n].0, b, pending[n].1);
        SealingGoesOn(st, st1, Snap(), b, n);
        n := n + 1;
      }
      SealingSizes(st, Snap(), b, n);
      SealingEnds(st, Snap(), b);
      incomplete := incomplete - {b};
      blocks := blocks[b := blocks[b].(isSealed := true)];
      g := g.(busy := {});
    }

    // ----- Expressions -----

    ghost predicate Ready()
      reads this
    {
      && Inv(Snap()) && EdgesOk(Snap()) && g.busy == {}
      && currentBlock < |blocks| && currentBlock !in g.closed
    }

    ghost function Here(): Point
      requires currentBlock < |blocks| && Sizes(Snap())
      reads this
    {
      EndOf(Snap(), currentBlock)
    }

    method AddInstruction(lhs: Operand, rhs: Operand, op: BinOp) returns (v: Operand)
      requires currentBlock < |blocks|
      modifies this`blocks, this`nextValue
      ensures nextValue == old(nextValue) + 1 && v == Register(old(nextValue))
      ensures blocks == old(blocks[currentBlock := blocks[currentBlock].(instrs :=
        blocks[currentBlock].instrs + [Arith(nextValue, op, lhs, rhs)])])
    {
      v := Register(nextValue);
      nextValue := nextValue + 1;
      AddTerminatorOrOp(currentBlock, Arith(v.id, op, lhs, rhs));
    }

    method AddTerminatorOrOp(b: nat, i: Instr)
      requires b < |blocks|
      modifies this`blocks
      ensures blocks == old(blocks[b := blocks[b].(instrs := blocks[b].instrs + [i])])
    {
      blocks := blocks[b := blocks[b].(instrs := blocks[b].instrs + [i])];
    }

    method VisitExpr(e: Expr, ghost bound: set<Sym>) returns (o: Operand, ghost t: ETree)
      requires Ready() && ScopedExpr(e, bound) && bound <= BoundAtEnd(g, currentBlock)
      modifies this`blocks, this`lko, this`incomplete, this`nextValue, this`g
      ensures Ready() && ExprStep(old(Snap()), Snap(), currentBlock)
      ensures EmitE(Snap(), e, t) && t.start == old(Here()) && t.end == Here() && t.out == o
      ensures BoundAfter(e, bound) <= BoundAtEnd(g, currentBlock)
      decreases e, 1
    {
      match e
      case IntLit(v) =>
        o := Literal(v);
        t := ETree(Here(), Here(), o, []);
        ExprStepRefl(Snap(), currentBlock);
      case Ident(s) => o, t := VisitIdentifier(s);
      case Binary(op, l, r) => o, t := VisitBinaryExpr(op, l, r, bound);
      case Assign(s, r) => o, t := VisitAssign(s, r, bound);
      case VarDecl(s, init) => o, t := VisitVarDecl(s, init, bound);
    }

    method VisitIdentifier(s: Sym) returns (o: Operand, ghost t: ETree)
      requires Ready() && s in BoundAtEnd(g, currentBlock)
      modifies this`blocks, this`lko, this`incomplete, this`nextValue, this`g
      ensures Ready() && ExprStep(old(Snap()), Snap(), currentBlock)
      ensures EmitE(Snap(), Ident(s), t) && t.start == old(Here()) && t.end == Here() && t.out == o
      ensures BoundAtEnd(g, currentBlock) == old(BoundAtEnd(g, currentBlock))
    {
      hide Inv, EdgesOk, ExprStep, EmitE;
      ghost var st := Snap();
      o := GetLKO(s, currentBlock);
      LookedUpIsExprStep(st, Snap(), s, currentBlock);
      LookedUpIsPassive(st, Snap(), s);
      t := ETree(Here(), Here(), o, []);
      ReadEmitted(Snap(), s, currentBlock);
    }

    method VisitBinaryExpr(op: BinOp, l: Expr, r: Expr, ghost bound: set<Sym>) returns (o: Operand, ghost t: ETree)
      requires Ready() && ScopedExpr(Binary(op, l, r), bound) && bound <= BoundAtEnd(g, currentBlock)
      modifies this`blocks, this`lko, this`incomplete, this`nextValue, this`g
      ensures Ready() && ExprStep(old(Snap()), Snap(), currentBlock)
      ensures EmitE(Snap(), Binary(op, l, r), t) && t.start == old(Here()) && t.end == Here() && t.out == o
      ensures BoundAfter(Binary(op, l, r), bound) <= BoundAtEnd(g, currentBlock)
      decreases Binary(op, l, r), 0
    {
      hide LkoOk, EntriesOk, PhisOk, PredsOk, IncompleteOk, LogsOk, HomesOk, EdgesOk, ExprStep, EmitE;
      ghost var st := Snap();
      ghost var tl, tr;
      var lhs, rhs;
      lhs, tl := VisitExpr(l, bound);
      ghost var st1 := Snap();
      rhs, tr := VisitExpr(r, BoundAfter(l, bound));
      ghost var st2 := Snap();
      o := AddInstruction(lhs, rhs, op);
      g := Appended(st2, currentBlock, Arith(st2.nextValue, op, lhs, rhs)).g;
      t := ETree(tl.start, Here(), o, [tl, tr]);
      BinaryLowered(st, st1, st2, op, l, r, tl, tr, currentBlock);
    }

    method VisitAssign(s: Sym, r: Expr, ghost bound: set<Sym>) returns (o: Operand, ghost t: ETree)
      requires Ready() && ScopedExpr(r, bound) && bound <= BoundAtEnd(g, currentBlock)
      modifies this`blocks, this`lko, this`incomplete, this`nextValue, this`g
      ensures Ready() && ExprStep(old(Snap()), Snap(), currentBlock)
      ensures EmitWrite(Snap(), s, r, t) && t.start == old(Here()) && t.end == Here() && t.out == o
      ensures EmitE(Snap(), Assign(s, r), t) && EmitE(Snap(), VarDecl(s, Some(r)), t)
      ensures BoundAfter(r, bound) + {s} <= BoundAtEnd(g, currentBlock)
      decreases r, 2
    {
      hide LkoOk, EntriesOk, PhisOk, PredsOk, IncompleteOk, LogsOk, HomesOk, EdgesOk, ExprStep, EmitE;
      ghost var st := Snap();
      ghost var tr;
      o, tr := VisitExpr(r, bound);
      ghost var st1 := Snap();
      SetLKO(s, currentBlock, o);
      g := Written(st1, currentBlock, s, o).g;
      t := ETree(tr.start, Here(), o, [tr]);
      WriteLowered(st, st1, s, r, tr, currentBlock);
    }

    method VisitVarDecl(s: Sym, init: Option<Expr>, ghost bound: set<Sym>) returns (o: Operand, ghost t: ETree)
      requires Ready() && ScopedExpr(VarDecl(s, init), bound) && bound <= BoundAtEnd(g, currentBlock)
      modifies this`blocks, this`lko, this`incomplete, this`nextValue, this`g
      ensures Ready() && ExprStep(old(Snap()), Snap(), currentBlock)
      ensures EmitE(Snap(), VarDecl(s, init), t) && t.start == old(Here()) && t.end == Here() && t.out == o
      ensures BoundAfter(VarDecl(s, init), bound) <= BoundAtEnd(g, currentBlock)
      decreases VarDecl(s, init), 0
    {
      hide LkoOk, EntriesOk, PhisOk, PredsOk, IncompleteOk, LogsOk, HomesOk, EdgesOk, ExprStep, EmitE;
      if init.Some? {
        o, t := VisitAssign(s, init.value, bound);
      } else {
        ghost var st := Snap();
        // The default of an integer is 0.
        o := Literal(0);
        SetLKO(s, currentBlock, o);
        g := Written(st, currentBlock, s, o).g;
        t := ETree(EndOf(st, currentBlock), Here(), o, []);
        DefaultLowered(st, s, currentBlock);
      }
    }

    // ----- Blocks and edges -----

    method AddBlock(ghost bound: set<Sym>) returns (id: nat)
      requires Inv(Snap())
      modifies this`blocks, this`g
      ensures id == old(|blocks|) && Snap() == WithBlock(old(Snap()), bound)
    {
      id := |blocks|;
      blocks := blocks + [BasicBlock([], [], [], [], false)];
      g := WithBlock(old(Snap()), bound).g;
    }

    method AddPred(b: nat, p: nat)
      requires b < |blocks|
      modifies this`blocks
      ensures Snap() == WithPred(old(Snap()), b, p)
    {
      blocks := blocks[b := blocks[b].(preds := blocks[b].preds + [p])];
    }

    // The current block branches on cond to two new blocks; the join block is
    // created between them, and is the second one when there is no else branch.
    method ForkIf(cond: Operand, hasElse: bool, ghost bound: set<Sym>) returns (thenId: nat, joinId: nat, elseId: nat)
      requires Ready() && bound <= BoundAtEnd(g, currentBlock)
      modifies this`blocks, this`lko, this`incomplete, this`nextValue, this`g
      ensures thenId == old(|blocks|) && joinId == thenId + 1 && elseId == (if hasElse then joinId + 1 else joinId)
      ensures |blocks| == elseId + 1
      ensures Forked(old(Snap()), Snap(), currentBlock, cond, thenId, elseId)
      ensures Fresh(Snap(), thenId, bound) && blocks[thenId].isSealed
      ensures Fresh(Snap(), joinId, bound) && !blocks[joinId].isSealed
      ensures hasElse ==> Fresh(Snap(), elseId, bound) && blocks[elseId].isSealed
      ensures blocks[joinId].preds == if hasElse then [] else [currentBlock]
    {
      hide LkoOk, EntriesOk, PhisOk, PredsOk, IncompleteOk, LogsOk, HomesOk, EdgesOk, Opening, OpeningNew, Forked;
      ghost var st0 := Snap();
      ghost var p := currentBlock;
      OpeningStarts(st0, p, bound);
      g := Closed(st0, p).g;
      thenId := AddWaiting(st0, bound, {}, {});
      joinId := AddWaiting(st0, bound, {}, {});
      OpeningLinks(st0, Snap(), p, bound, {}, {}, thenId);
      AddPred(thenId, currentBlock);
      SealNew(st0, thenId, bound, {} + {thenId}, {});
      if hasElse {
        elseId := AddWaiting(st0, bound, {} + {thenId}, {} + {thenId});
      } else {
        elseId := joinId;
      }
      OpeningLinks(st0, Snap(), p, bound, {} + {thenId}, {} + {thenId}, elseId);
      AddPred(elseId, currentBlock);
      ghost var done := {} + {thenId};
      if hasElse {
        SealNew(st0, elseId, bound, {} + {thenId} + {elseId}, {} + {thenId});
        done := done + {elseId};
      }
      assert {} + {thenId} + {elseId} == {thenId, elseId};
      OpeningEnds(st0, Snap(), p, bound, done, cond, thenId, elseId);
      OpeningInv(st0, Snap(), p, bound, {thenId, elseId}, done);
      AddTerminatorOrOp(currentBlock, Cbr(cond, thenId, elseId));
      OpeningGives(Snap(), p, thenId, bound, {thenId, elseId}, done);
      OpeningGives(Snap(), p, joinId, bound, {thenId, elseId}, done);
      OpeningGives(Snap(), p, elseId, bound, {thenId, elseId}, done);
    }

    // One more block that is not linked yet.
    method AddWaiting(ghost st0: St, ghost bound: set<Sym>, ghost linked: set<nat>, ghost done: set<nat>) returns (id: nat)
      requires Opening(st0, Snap(), currentBlock, bound, linked, done)
      requires |blocks| !in linked && |blocks| !in done
      modifies this`blocks, this`g
      ensures id == old(|blocks|) && |blocks| == id + 1
      ensures Opening(st0, Snap(), currentBlock, bound, linked, done)
      ensures forall b :: 0 <= b < id ==> blocks[b] == old(blocks[b])
    {
      hide Opening;
      OpeningInv(st0, Snap(), currentBlock, bound, linked, done);
      OpeningAdds(st0, Snap(), currentBlock, bound, linked, done);
      id := AddBlock(bound);
    }

    // A new block with its only predecessor is sealed at once.
    method SealNew(ghost st0: St, b: nat, ghost bound: set<Sym>, ghost linked: set<nat>, ghost done: set<nat>)
      requires Opening(st0, Snap(), currentBlock, bound, linked, done)
      requires |st0.blocks| <= b < |blocks| && b in linked && b !in done
      modifies this`blocks, this`lko, this`incomplete, this`nextValue, this`g
      ensures |blocks| == old(|blocks|)
      ensures Opening(st0, Snap(), currentBlock, bound, linked, done + {b})
    {
      OpeningReady(st0, Snap(), currentBlock, bound, linked, done, b);
      ghost var st := Snap();
      SealBlock(b);
      OpeningSeals(st0, st, currentBlock, bound, linked, done, b);
    }

    // The current block branches on cond to a loop's body and to what follows it.
    method ForkWhile(cond: Operand, ghost bound: set<Sym>) returns (bodyId: nat, joinId: nat)
      requires Ready() && bound <= BoundAtEnd(g, currentBlock)
      modifies this`blocks, this`lko, this`incomplete, this`nextValue, this`g
      ensures bodyId == old(|blocks|) && joinId == bodyId + 1 && |blocks| == joinId + 1
      ensures Forked(old(Snap()), Snap(), currentBlock, cond, bodyId, joinId)
      ensures Fresh(Snap(), bodyId, bound) && blocks[bodyId].isSealed
      ensures Fresh(Snap(), joinId, bound) && blocks[joinId].isSealed
    {
      hide LkoOk, EntriesOk, PhisOk, PredsOk, IncompleteOk, LogsOk, HomesOk, EdgesOk, Opening, OpeningNew, Forked;
      ghost var st0 := Snap();
      ghost var p := currentBlock;
      OpeningStarts(st0, p, bound);
      g := Closed(st0, p).g;
      bodyId := AddWaiting(st0, bound, {}, {});
      OpeningLinks(st0, Snap(), p, bound, {}, {}, bodyId);
      AddPred(bodyId, currentBlock);
      SealNew(st0, bodyId, bound, {} + {bodyId}, {});
      joinId := AddWaiting(st0, bound, {} + {bodyId}, {} + {bodyId});
      OpeningLinks(st0, Snap(), p, bound, {} + {bodyId}, {} + {bodyId}, joinId);
      AddPred(joinId, currentBlock);
      SealNew(st0, joinId, bound, {} + {bodyId} + {joinId}, {} + {bodyId});
      assert {} + {bodyId} + {joinId} == {bodyId, joinId};
      OpeningEnds(st0, Snap(), p, bound, {bodyId, joinId}, cond, bodyId, joinId);
      OpeningInv(st0, Snap(), p, bound, {bodyId, joinId}, {bodyId, joinId});
      AddTerminatorOrOp(currentBlock, Cbr(cond, bodyId, joinId));
      OpeningGives(Snap(), p, bodyId, bound, {bodyId, joinId}, {bodyId, joinId});
      OpeningGives(Snap(), p, joinId, bound, {bodyId, joinId}, {bodyId, joinId});
    }

    // The current block jumps to block b, which is waiting for its predecessors.
    method JumpTo(b: nat)
      requires Ready() && b < |blocks| && !blocks[b].isSealed
      requires g.bound[b] <= BoundAtEnd(g, currentBlock)
      modifies this`blocks, this`g
      ensures JumpStep(old(Snap()), Snap(), currentBlock, b)
    {
      JumpedIsJumpStep(Snap(), currentBlock, b);
      g := Closed(Snap(), currentBlock).g;
      AddPred(b, currentBlock);
      AddTerminatorOrOp(currentBlock, Br(b));
    }

    // ----- Statements -----

    method VisitStmt(s: Stmt, ghost bound: set<Sym>) returns (ghost t: STree)
      requires Ready() && ScopedStmt(s, bound) && bound <= BoundAtEnd(g, currentBlock)
      modifies this
      ensures Ready() && StmtStep(old(Snap()), Snap(), old(currentBlock), currentBlock)
      ensures EmitS(Snap(), s, t) && t.start == old(Here()) && t.end == Here()
      ensures BoundAfterStmt(s, bound) <= BoundAtEnd(g, currentBlock)
      decreases s, 2
    {
      match s
      case ExprStmt(e) =>
        ghost var te;
        var _, te' := VisitExpr(e, bound);
        te := te';
        t := STree(te.start, te.end, [te], []);
      case Return(r) => t := VisitReturnStmt(r, bound);
      case If(c, thn, els) => t := VisitIfStmt(c, thn, els, bound);
      case While(c, body) => t := VisitWhileStmt(c, body, bound);
      case Block(stmts) => t := VisitBlock(stmts, bound);
    }

    method VisitReturnStmt(r: Option<Expr>, ghost bound: set<Sym>) returns (ghost t: STree)
      requires Ready() && ScopedStmt(Return(r), bound) && bound <= BoundAtEnd(g, currentBlock)
      modifies this
      ensures Ready() && StmtStep(old(Snap()), Snap(), old(currentBlock), currentBlock)
      ensures EmitS(Snap(), Return(r), t) && t.start == old(Here()) && t.end == Here()
      ensures bound <= BoundAtEnd(g, currentBlock)
    {
      hide LkoOk, EntriesOk, PhisOk, PredsOk, IncompleteOk, LogsOk, HomesOk, EdgesOk, ExprStep, EmitE, EmitS;
      ghost var st0 := Snap();
      // A bare return yields 0.
      var value := Literal(0);
      ghost var tr := ETree(Here(), Here(), Literal(0), []);
      if r.Some? {
        value, tr := VisitExpr(r.value, bound);
      } else {
        ExprStepRefl(st0, currentBlock);
      }
      ghost var st1 := Snap();
      AddTerminatorOrOp(currentBlock, Ret(value));
      t := STree(tr.start, Here(), [tr], []);
      ReturnLowered(st0, st1, Snap(), Return(r), tr, t, currentBlock);
    }

    method VisitBranch(s: Stmt, b: nat, next: nat, ghost bound: set<Sym>) returns (ghost t: STree)
      requires Inv(Snap()) && EdgesOk(Snap()) && g.busy == {} && ScopedStmt(s, bound)
      requires Fresh(Snap(), b, bound) && next < |blocks| && next != b && !blocks[next].isSealed
      requires g.bound[next] <= bound
      modifies this
      ensures BranchStep(old(Snap()), Snap(), b, next) && BranchEmitted(Snap(), s, t, b, next)
      decreases s, 3
    {
      hide LkoOk, EntriesOk, PhisOk, PredsOk, IncompleteOk, LogsOk, HomesOk, EdgesOk, ExprStep, EmitE, EmitS;
      ghost var st := Snap();
      currentBlock := b;
      FreshBound(st, b, bound);
      t := VisitStmt(s, bound);
      ghost var st1 := Snap();
      StepKeepsWaiting(st, st1, b, currentBlock, next);
      ghost var q := currentBlock;
      JumpTo(next);
      BranchLowered(st, st1, Snap(), s, t, b, q, next);
    }

    method VisitIfStmt(c: Expr, thn: Stmt, els: Option<Stmt>, ghost bound: set<Sym>) returns (ghost t: STree)
      requires Ready() && ScopedStmt(If(c, thn, els), bound) && bound <= BoundAtEnd(g, currentBlock)
      modifies this
      ensures Ready() && StmtStep(old(Snap()), Snap(), old(currentBlock), currentBlock)
      ensures EmitS(Snap(), If(c, thn, els), t) && t.start == old(Here()) && t.end == Here()
      ensures bound <= BoundAtEnd(g, currentBlock)
      decreases If(c, thn, els), 1
    {
      hide LkoOk, EntriesOk, PhisOk, PredsOk, IncompleteOk, LogsOk, HomesOk, BusyOk;
      hide EdgesOk, ExprStep, EmitE, EmitS, Forked, BranchStep, BranchEmitted, StmtStep, SealStep, JumpStep, Fresh;
      ghost var st0 := Snap();
      ghost var p := currentBlock;
      var cond;
      ghost var tc, tt, te;
      cond, tc := VisitExpr(c, bound);
      ghost var st1 := Snap();
      ghost var after := BoundAfter(c, bound);
      var thenId, joinId, elseId := ForkIf(cond, els.Some?, after);
      ghost var st2 := Snap();
      ForkedGives(st1, st2, p, cond, thenId, elseId);
      FreshGives(st2, joinId, after);
      tt := VisitBranch(thn, thenId, joinId, after);
      ghost var st3 := Snap();
      if els.Some? {
        BranchPasses(st2, st3, thenId, joinId, elseId, after);
        BranchGives(st2, st3, thenId, joinId);
        te := VisitBranch(els.value, elseId, joinId, after);
        ghost var st4 := Snap();
        BranchGives(st3, st4, elseId, joinId);
        JoinReady(st3, st4, elseId, joinId, after);
        SealBlock(joinId);
        SealGives(st4, Snap(), joinId);
        IfElseLowered(st0, st1, st2, st3, st4, Snap(), p, c, thn, els.value, tc, tt, te, thenId, elseId, joinId, after);
        t := STree(tc.start, Entry(joinId), [tc], [tt, te]);
      } else {
        BranchGives(st2, st3, thenId, joinId);
        JoinReady(st2, st3, thenId, joinId, after);
        SealBlock(joinId);
        SealGives(st3, Snap(), joinId);
        IfLowered(st0, st1, st2, st3, Snap(), p, c, thn, tc, tt, thenId, joinId, after);
        t := STree(tc.start, Entry(joinId), [tc], [tt]);
      }
      currentBlock := joinId;
      FreshGives(Snap(), joinId, after);
      FreshBound(Snap(), joinId, after);
    }

    method VisitWhileStmt(c: Expr, body: Stmt, ghost bound: set<Sym>) returns (ghost t: STree)
      requires Ready() && ScopedStmt(While(c, body), bound) && bound <= BoundAtEnd(g, currentBlock)
      modifies this
      ensures Ready() && StmtStep(old(Snap()), Snap(), old(currentBlock), currentBlock)
      ensures EmitS(Snap(), While(c, body), t) && t.start == old(Here()) && t.end == Here()
      ensures bound <= BoundAtEnd(g, currentBlock)
      decreases While(c, body), 1
    {
      hide LkoOk, EntriesOk, PhisOk, PredsOk, IncompleteOk, LogsOk, HomesOk, BusyOk;
      hide EdgesOk, ExprStep, EmitE, EmitS, Forked, BranchStep, BranchEmitted, StmtStep, SealStep, JumpStep, Fresh;
      ghost var st0 := Snap();
      ghost var p := currentBlock;
      ghost var tc, tb;
      var cond;
      WithBlockReady(st0, p, bound);
      var condId := AddBlock(bound);
      ghost var st1 := Snap();
      JumpTo(condId);
      ghost var st2 := Snap();
      LoopEntered(st0, st1, st2, p, bound);
      JumpGives(st1, st2, p, condId);
      FreshGives(st2, condId, bound);
      currentBlock := condId;
      FreshBound(st2, condId, bound);
      cond, tc := VisitExpr(c, bound);
      ghost var st3 := Snap();
      ghost var after := BoundAfter(c, bound);
      var bodyId, joinId := ForkWhile(cond, after);
      ghost var st4 := Snap();
      FreshGives(st4, bodyId, after);
      FreshGives(st4, joinId, after);
      ExprGives(st2, st3, condId);
      HeadStillWaits(st2, st3, st4, condId, p, cond, bodyId, joinId);
      tb := VisitBranch(body, bodyId, condId, after);
      ghost var st5 := Snap();
      BranchGives(st4, st5, bodyId, condId);
      LoopReady(st2, st3, st4, st5, condId, p, cond, bodyId, joinId);
      SealBlock(condId);
      SealGives(st5, Snap(), condId);
      BranchPasses(st4, st5, bodyId, condId, joinId, after);
      SealPasses(st5, Snap(), condId, joinId, after);
      WhileLowered(st0, st2, st3, st4, st5, Snap(), p, c, body, tc, tb, condId, bodyId, joinId);
      t := STree(EndOf(st0, p), Entry(joinId), [tc], [tb]);
      currentBlock := joinId;
      FreshGives(Snap(), joinId, after);
      FreshBound(Snap(), joinId, after);
    }

    method VisitBlock(stmts: seq<Stmt>, ghost bound: set<Sym>) returns (ghost t: STree)
      requires Ready() && ScopedStmt(Block(stmts), bound) && bound <= BoundAtEnd(g, currentBlock)
      modifies this
      ensures Ready() && StmtStep(old(Snap()), Snap(), old(currentBlock), currentBlock)
      ensures EmitS(Snap(), Block(stmts), t) && t.start == old(Here()) && t.end == Here()
      ensures bound <= BoundAtEnd(g, currentBlock)
      decreases Block(stmts), 1
    {
      hide LkoOk, EntriesOk, PhisOk, PredsOk, IncompleteOk, LogsOk, HomesOk, EdgesOk, ExprStep, EmitE, EmitS;
      ghost var st0 := Snap();
      ghost var kids: seq<STree> := [];
      ghost var inner := bound;
      ghost var here := Here();
      ExprStepRefl(st0, currentBlock);
      var i := 0;
      while i < |stmts|
        invariant i <= |stmts| == |stmts| && |kids| == i
        invariant Ready() && StmtStep(st0, Snap(), old(currentBlock), currentBlock)
        invariant bound <= inner <= BoundAtEnd(g, currentBlock) && ScopedFrom(stmts, i, inner)
        invariant Emitted(Snap(), stmts, kids, i, here, Here())
      {
        ghost var st1 := Snap();
        ghost var q := currentBlock;
        ghost var k := VisitStmt(stmts[i], inner);
        StmtStepTrans(st0, st1, Snap(), old(currentBlock), q, currentBlock);
        EmittedMore(st1, Snap(), stmts, kids, i, here, k);
        kids := kids + [k];
        inner := BoundAfterStmt(stmts[i], inner);
        i := i + 1;
      }
      EmittedAll(Snap(), stmts, kids, here, Here());
      t := STree(here, Here(), [], kids);
    }

    // ----- Functions -----

    // A function's entry block exists from the start; its arguments are its first values.
    constructor (nargs: nat)
      ensures Snap() == InitialState(nargs) && currentBlock == 0
    {
      blocks := [BasicBlock([], [], [], [], false)];
      nextValue := nargs;
      currentBlock := 0;
      lko := map[];
      incomplete := map[];
      g := InitialState(nargs).g;
    }

    method VisitFctDecl(params: seq<Sym>, body: Stmt)
      requires Snap() == InitialState(|params|) && currentBlock == 0
      requires ScopedStmt(body, SymSet(params))
      modifies this
      ensures WellFormed(blocks) && SingleAssignment(blocks, |params|) && PhisAtJoins(blocks)
      ensures forall args | |args| == |params| ::
        && NeverStuck(blocks, args)
        && forall v: Word :: Returns(blocks, args, v) <==> Yields(params, body, args, v)
    {
      hide LkoOk, EntriesOk, PhisOk, PredsOk, IncompleteOk, LogsOk, HomesOk, BusyOk;
      hide EdgesOk, EmitS, StmtStep, WellFormed, SingleAssignment, PhisAtJoins, Stable;
      InitialInv(|params|);
      ghost var st0 := Snap();
      currentBlock := 0;
      SealBlock(currentBlock);
      ParamsStart(|params|, params);
      var i := 0;
      while i < |params|
        invariant i <= |params| && currentBlock == 0
        invariant ParamsBound(Snap(), params, i)
      {
        ParamStep(Snap(), params, i);
        SetLKO(params[i], currentBlock, Register(i));
        g := Written(Snap(), currentBlock, params[i], Register(i)).g;
        i := i + 1;
      }
      ghost var st1 := Snap();
      ParamsReady(st1, params);
      ghost var t := VisitStmt(body, SymSet(params));
      ghost var st2 := Snap();
      // A body that does not end with a return returns 0.
      var code := blocks[currentBlock].instrs;
      if |code| == 0 || !code[|code| - 1].IsTerminator() {
        AddTerminatorOrOp(currentBlock, Ret(Literal(0)));
      }
      BodyLowered(st1, st2, Snap(), params, body, t, currentBlock);
    }
  }

  // Lowering one function and preparing its graph for code generation.
  method LowerFunction(params: seq<Sym>, body: Stmt) returns (f: Function)
    requires ScopedStmt(body, SymSet(params))
    ensures fresh(f)
    ensures WellFormed(f.blocks) && NoCriticalEdge(f.blocks) && ListsOk(f.blocks)
    ensures SingleAssignment(f.blocks, |params|) && PhisAtJoins(f.blocks)
    ensures forall args | |args| == |params| ::
      && NeverStuck(f.blocks, args)
      && forall v: Word :: Returns(f.blocks, args, v) <==> Yields(params, body, args, v)
  {
    hide WellFormed, SingleAssignment, PhisAtJoins, NoCriticalEdge, ListsOk, SameEnds, SameDefs, Inv;
    var builder := new SSAIR(|params|);
    builder.VisitFctDecl(params, body);
    f := new Function(builder.blocks);
    NothingLacks(f.blocks);
    var ok := ResolveCriticalEdges(f);
    PipelineKeeps(builder.blocks, f.blocks, params, body);
  }

  lemma NothingLacks(blocks: seq<BasicBlock>)
    requires WellFormed(blocks)
    ensures !(exists b :: 0 <= b < |blocks| && LacksTerminator(blocks[b]))
  {
    forall b | 0 <= b < |blocks| ensures !LacksTerminator(blocks[b]) { assert BlockOk(blocks, b); }
  }

  lemma PipelineKeeps(blocks: seq<BasicBlock>, blocks': seq<BasicBlock>, params: seq<Sym>, body: Stmt)
    requires SameEnds(blocks, blocks') && SameDefs(blocks, blocks') && SingleAssignment(blocks, |params|)
    requires forall args | |args| == |params| ::
      && NeverStuck(blocks, args)
      && forall v: Word :: Returns(blocks, args, v) <==> Yields(params, body, args, v)
    ensures SingleAssignment(blocks', |params|)
    ensures forall args | |args| == |params| ::
      && NeverStuck(blocks', args)
      && forall v: Word :: Returns(blocks', args, v) <==> Yields(params, body, args, v)
  {
    forall args | |args| == |params|
      ensures NeverStuck(blocks', args)
      ensures forall v: Word :: Returns(blocks', args, v) <==> Yields(params, body, args, v)
    {
      assert EndsIn(blocks, args, Stuck) <==> EndsIn(blocks', args, Stuck);
      forall v: Word ensures Returns(blocks', args, v) <==> Yields(params, body, args, v) {
        assert EndsIn(blocks, args, Done(v)) <==> EndsIn(blocks', args, Done(v));
      }
    }
  }

  // The state reached by adding a phi, once the tables have been updated.
  lemma IsWithPhi(st: St, s: Sym, b: nat, st': St)
    requires Inv(st) && b < |st.blocks|
    requires st'.nextValue == st.nextValue + 1 && st'.g == WithPhi(st, s, b).g
    requires st'.blocks == st.blocks[b := st.blocks[b].(phis := st.blocks[b].phis + [Phi(st.nextValue, [])])]
    requires st'.lko == st.lko[(s, b) := Register(st.nextValue)]
    requires st'.incomplete == if st.blocks[b].isSealed then st.incomplete
      else st.incomplete[b := Pending(st, b) + [(s, |st'.blocks[b].phis| - 1)]]
    ensures st' == WithPhi(st, s, b)
  {
  }

  lemma NewPhiReady(st: St, s: Sym, b: nat)
    requires Sizes(st) && b < |st.blocks|
    ensures var st' := WithPhi(st, s, b);
      var i := |st.blocks[b].phis|;
      && |st'.blocks| == |st.blocks| && |st'.blocks[b].phis| == |st'.g.phiSyms[b]| == i + 1
      && st'.g.phiSyms[b][i] == s && st'.blocks[b].phis[i].incomings == []
      && st'.g.busy == if st.blocks[b].isSealed then st.g.busy + {(b, i)} else st.g.busy
  {
  }

  lemma StillSealed(st: St, st': St, s: Sym, b: nat)
    requires LookedUp(st, st', s) && b < |st.blocks|
    ensures |st'.blocks| == |st.blocks| && st'.g.bound == st.g.bound && st'.g.logs == st.g.logs
    ensures st'.blocks[b].preds == st.blocks[b].preds && st'.blocks[b].isSealed == st.blocks[b].isSealed
  {
    assert BlockLookedUp(st, st', s, b);
  }

  lemma LookedUpGrows(st: St, st': St, s: Sym)
    requires LookedUp(st, st', s)
    ensures |st.blocks| == |st'.blocks| && Grows(st.lko, st'.lko)
  {
  }

  // The operand just looked up goes to the phi.
  lemma OneMoreIncoming(st: St, st1: St, st2: St, s: Sym, b: nat, idx: nat, pred: nat, n: nat)
    requires Sizes(st) && b < |st.blocks| && idx < |st.blocks[b].phis|
    requires Inv(st1) && |st1.blocks| == |st.blocks| && idx < |st1.blocks[b].phis|
    requires LookedUp(SetIncomings(st, b, idx, st1.blocks[b].phis[idx].incomings), st1, s)
    requires n == |st1.blocks[b].phis[idx].incomings| < |st1.blocks[b].preds| && pred == st1.blocks[b].preds[n]
    requires st1.g.phiSyms[b][idx] == s && FilledUpTo(st1, b, idx, n)
    requires Inv(st2) && LookedUp(st1, st2, s) && (b, idx) in st2.g.busy && (s, pred) in st2.lko
    ensures idx < |st2.blocks[b].phis| && st2.blocks[b].phis[idx] == st1.blocks[b].phis[idx] && st2.blocks[b].preds == st1.blocks[b].preds
    ensures var st3 := WithIncoming(st2, b, idx, pred, st2.lko[(s, pred)]);
      && Inv(st3) && st3.g.phiSyms[b][idx] == s
      && LookedUp(SetIncomings(st, b, idx, st3.blocks[b].phis[idx].incomings), st3, s)
      && FilledUpTo(st3, b, idx, n + 1)
  {
    hide PhisOk, EntriesOk, LkoOk, IncompleteOk, LogsOk, HomesOk, PredsOk, BusyOk;
    var before := SetIncomings(st, b, idx, st1.blocks[b].phis[idx].incomings);
    assert BlockLookedUp(st1, st2, s, b);
    assert Sizes(st2);
    var st3 := WithIncoming(st2, b, idx, pred, st2.lko[(s, pred)]);
    var incomings := st3.blocks[b].phis[idx].incomings;
    WithIncomingKeepsInv(st2, b, idx, pred, st2.lko[(s, pred)]);
    IncomingLookedUp(st, before, st1, st2, st3, s, b, idx, incomings);
  }

  lemma IncomingLookedUp(st: St, before: St, st1: St, st2: St, st3: St, s: Sym, b: nat, idx: nat, incomings: seq<(nat, Operand)>)
    requires Sizes(st) && b < |st.blocks| && idx < |st.blocks[b].phis|
    requires Sizes(st1) && |st1.blocks| == |st.blocks| && idx < |st1.blocks[b].phis|
    requires before == SetIncomings(st, b, idx, st1.blocks[b].phis[idx].incomings)
    requires LookedUp(before, st1, s) && LookedUp(st1, st2, s)
    requires Sizes(st2) && b < |st2.blocks| && idx < |st2.blocks[b].phis| && st3 == SetIncomings(st2, b, idx, incomings)
    ensures LookedUp(SetIncomings(st, b, idx, incomings), st3, s)
  {
    hide LookedUp;
    LookedUpTrans(before, st1, st2, s);
    LookedUpBeside(before, st2, s, b, idx, incomings);
    SetIncomingsTwice(st, b, idx, before.blocks[b].phis[idx].incomings, incomings);
  }

  lemma SetIncomingsTwice(st: St, b: nat, i: nat, x: seq<(nat, Operand)>, y: seq<(nat, Operand)>)
    requires Sizes(st) && b < |st.blocks| && i < |st.blocks[b].phis|
    ensures SetIncomings(SetIncomings(st, b, i, x), b, i, y) == SetIncomings(st, b, i, y)
  {
    var phis := st.blocks[b].phis;
    assert phis[i := phis[i].(incomings := x)][i := phis[i].(incomings := y)] == phis[i := phis[i].(incomings := y)];
    assert SetIncomings(SetIncomings(st, b, i, x), b, i, y).blocks == SetIncomings(st, b, i, y).blocks;
  }

  // A phi's symbol can be looked up at the end of every predecessor.
  lemma PhiSymReachable(st: St, b: nat, i: nat)
    requires Inv(st) && b < |st.blocks| && i < |st.blocks[b].phis|
    ensures forall j :: 0 <= j < |st.blocks[b].preds| ==>
      st.blocks[b].preds[j] < |st.blocks| && st.g.phiSyms[b][i] in BoundAtEnd(st.g, st.blocks[b].preds[j])
  {
    assert PhiOk(st, b, i);
    assert PredsOkAt(st, b);
    assert EntryOk(st, st.g.phiSyms[b][i], b);
  }

  lemma InheritOnce(st: St, s: Sym, b: nat)
    requires Inv(st) && b < |st.blocks| && s in st.g.bound[b] && !Logged(st.g.logs[b], s)
    requires st.blocks[b].isSealed && |st.blocks[b].preds| == 1
    requires st.blocks[b].preds[0] < |st.blocks| && (s, st.blocks[b].preds[0]) in st.lko
    ensures var o := st.lko[(s, st.blocks[b].preds[0])];
      if (s, b) in st.lko then st.lko[(s, b)] == o
      else Inv(Inherited(st, s, b, o)) && LookedUp(st, Inherited(st, s, b, o), s)
  {
    if (s, b) !in st.lko {
      InheritedKeepsInv(st, s, b);
    } else {
      assert st.g.logs[b][..|st.g.logs[b]|] == st.g.logs[b];
      assert KnownAt(st.g, s, b, |st.g.logs[b]|);
      assert PredsOkAt(st, b);
      assert EntryOk(st, s, b);
    }
  }

  lemma NothingFilledYet(st: St, s: Sym, b: nat, i: nat)
    requires Inv(st) && b < |st.blocks| && i < |st.blocks[b].phis| && st.blocks[b].phis[i].incomings == []
    ensures SetIncomings(st, b, i, []) == st && LookedUp(st, st, s) && FilledUpTo(st, b, i, 0)
  {
    assert st.blocks[b].phis[i := st.blocks[b].phis[i].(incomings := [])] == st.blocks[b].phis;
    assert SetIncomings(st, b, i, []).blocks == st.blocks;
    forall c | 0 <= c < |st.blocks| ensures BlockLookedUp(st, st, s, c) {}
  }

  // Adding a phi to a sealed block and filling it, seen as one lookup.
  lemma PhiAddedAndFilled(st: St, st2: St, s: Sym, b: nat)
    requires Inv(st) && Inv(st2) && b < |st.blocks| == |st2.blocks|
    requires st.blocks[b].isSealed && (s, b) !in st.lko
    requires |st.blocks[b].phis| < |st2.blocks[b].phis| && Filled(st2, b, |st.blocks[b].phis|)
    requires LookedUp(st, WithPhi(st, s, b), s)
    requires LookedUp(SetIncomings(WithPhi(st, s, b), b, |st.blocks[b].phis|,
                                   st2.blocks[b].phis[|st.blocks[b].phis|].incomings), st2, s)
    requires st2.g.busy == WithPhi(st, s, b).g.busy
    ensures var st3 := st2.(g := st2.g.(busy := st.g.busy));
      Inv(st3) && LookedUp(st, st3, s) && (s, b) in st3.lko && st3.lko[(s, b)] == Register(st.nextValue)
  {
    hide LkoOk, EntriesOk, PhisOk, PredsOk, IncompleteOk, LogsOk, HomesOk, Filled;
    var i := |st.blocks[b].phis|;
    var st1 := WithPhi(st, s, b);
    var mid := SetIncomings(st1, b, i, st2.blocks[b].phis[i].incomings);
    var st3 := st2.(g := st2.g.(busy := st.g.busy));
    assert BlockLookedUp(mid, st2, s, b);
    assert st2.g.busy - {(b, i)} == st.g.busy;
    UnbusyKeepsInv(st2, b, i);
    forall c | 0 <= c < |st.blocks| ensures BlockLookedUp(st, st3, s, c) {
      assert BlockLookedUp(st, st1, s, c);
      assert BlockLookedUp(mid, st2, s, c);
    }
  }
}
