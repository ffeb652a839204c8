// Control flow: a block ends by branching to blocks just created, or by
// jumping to a block that waits for it.
module SsaForks {
  import opened Ast
  import opened IR
  import opened SsaState
  import opened SsaTrees
  import opened SsaSteps

  // A block that has received no code yet.
  ghost predicate Fresh(st: St, b: nat, bound: set<Sym>) {
    && Sizes(st) && b < |st.blocks|
    && st.blocks[b].instrs == [] && st.g.logs[b] == [] && st.g.bound[b] == bound
    && b !in st.g.closed
  }

  // Since st0, block p has been closed and blocks created after it; those in
  // linked have p as their only predecessor, the others none.
  ghost predicate Opening(st0: St, st: St, p: nat, bound: set<Sym>, linked: set<nat>, done: set<nat>) {
    && Inv(st) && Sizes(st0)
    && p < |st0.blocks| <= |st.blocks|
    && bound <= BoundAtEnd(st0.g, p) && BoundAtEnd(st.g, p) == BoundAtEnd(st0.g, p)
    && st.g.closed == st0.g.closed + {p} && p !in st0.g.closed && st.g.busy == {}
    && Grows(st0.g.home, st.g.home) && Grows(st0.g.entries, st.g.entries)
    && (forall b :: 0 <= b < |st0.blocks| ==> OpeningOld(st0, st, b))
    && (forall b :: |st0.blocks| <= b < |st.blocks| ==> OpeningNew(st, p, b, bound, linked, done))
  }

  ghost predicate OpeningOld(st0: St, st: St, b: nat)
    requires Sizes(st0) && Sizes(st) && b < |st0.blocks| <= |st.blocks|
  {
    && st.blocks[b].preds == st0.blocks[b].preds && st.blocks[b].isSealed == st0.blocks[b].isSealed
    && st.blocks[b].instrs == st0.blocks[b].instrs && st.g.logs[b] == st0.g.logs[b]
    && st.g.bound[b] == st0.g.bound[b]
  }

  ghost predicate OpeningNew(st: St, p: nat, b: nat, bound: set<Sym>, linked: set<nat>, done: set<nat>)
    requires Sizes(st) && b < |st.blocks|
  {
    && Fresh(st, b, bound) && st.blocks[b].phis == []
    && st.blocks[b].preds == (if b in linked then [p] else [])
    && st.blocks[b].isSealed == (b in done)
  }

  lemma OpeningStarts(st0: St, p: nat, bound: set<Sym>)
    requires Inv(st0) && p < |st0.blocks| && p !in st0.g.closed && st0.g.busy == {}
    requires bound <= BoundAtEnd(st0.g, p)
    ensures Opening(st0, Closed(st0, p), p, bound, {}, {})
  {
    ClosedKeepsInv(st0, p);
    forall b | 0 <= b < |st0.blocks| ensures OpeningOld(st0, Closed(st0, p), b) {}
  }

  lemma OpeningAdds(st0: St, st: St, p: nat, bound: set<Sym>, linked: set<nat>, done: set<nat>)
    requires Opening(st0, st, p, bound, linked, done)
    requires |st.blocks| !in linked && |st.blocks| !in done
    ensures Opening(st0, WithBlock(st, bound), p, bound, linked, done)
  {
    var st' := WithBlock(st, bound);
    WithBlockKeepsInv(st, bound);
    hide Inv;
    forall b | 0 <= b < |st0.blocks| ensures OpeningOld(st0, st', b) { assert OpeningOld(st0, st, b); }
    forall b | |st0.blocks| <= b < |st'.blocks| ensures OpeningNew(st', p, b, bound, linked, done) {
      if b < |st.blocks| { assert OpeningNew(st, p, b, bound, linked, done); }
    }
  }

  lemma OpeningLinks(st0: St, st: St, p: nat, bound: set<Sym>, linked: set<nat>, done: set<nat>, b: nat)
    requires Opening(st0, st, p, bound, linked, done)
    requires |st0.blocks| <= b < |st.blocks| && b !in linked && b !in done
    ensures Opening(st0, WithPred(st, b, p), p, bound, linked + {b}, done)
  {
    var st' := WithPred(st, b, p);
    assert OpeningNew(st, p, b, bound, linked, done);
    WithPredKeepsInv(st, b, p);
    hide Inv;
    forall c | 0 <= c < |st0.blocks| ensures OpeningOld(st0, st', c) { assert OpeningOld(st0, st, c); }
    forall c | |st0.blocks| <= c < |st'.blocks| ensures OpeningNew(st', p, c, bound, linked + {b}, done) {
      assert OpeningNew(st, p, c, bound, linked, done);
    }
  }

  lemma OpeningReady(st0: St, st: St, p: nat, bound: set<Sym>, linked: set<nat>, done: set<nat>, b: nat)
    requires Opening(st0, st, p, bound, linked, done)
    requires |st0.blocks| <= b < |st.blocks| && b in linked && b !in done
    ensures ReadyToSeal(st, b) && st.blocks[b].phis == []
  {
    assert OpeningNew(st, p, b, bound, linked, done);
  }

  lemma OpeningSeals(st0: St, st: St, p: nat, bound: set<Sym>, linked: set<nat>, done: set<nat>, b: nat)
    requires Opening(st0, st, p, bound, linked, done)
    requires |st0.blocks| <= b < |st.blocks| && Inv(Sealed(st, b))
    ensures Opening(st0, Sealed(st, b), p, bound, linked, done + {b})
  {
    var st' := Sealed(st, b);
    hide Inv;
    forall c | 0 <= c < |st0.blocks| ensures OpeningOld(st0, st', c) { assert OpeningOld(st0, st, c); }
    forall c | |st0.blocks| <= c < |st'.blocks| ensures OpeningNew(st', p, c, bound, linked, done + {b}) {
      assert OpeningNew(st, p, c, bound, linked, done);
    }
  }

  // Block p now branches on cond to blocks t and f.
  ghost predicate Forked(st0: St, st: St, p: nat, cond: Operand, t: nat, f: nat) {
    && Inv(st) && EdgesOk(st) && st.g.busy == {}
    && Stable(st0, st) && Untouched(st0, st, |st0.blocks|, p)
    && p < |st0.blocks| && st.g.closed == st0.g.closed + {p}
    && t < |st.blocks| && f < |st.blocks|
    && InstrIs(st, EndOf(st0, p), Cbr(cond, t, f))
    && EdgeAt(st, EndOf(st0, p), t) && EdgeAt(st, EndOf(st0, p), f)
  }

  lemma OpeningEnds(st0: St, st: St, p: nat, bound: set<Sym>, done: set<nat>, cond: Operand, t: nat, f: nat)
    requires Opening(st0, st, p, bound, {t, f}, done) && t != f
    requires |st0.blocks| <= t < |st.blocks| && |st0.blocks| <= f < |st.blocks|
    requires Inv(st0) && EdgesOk(st0)
    ensures var st' := Appended(st, p, Cbr(cond, t, f));
      && Forked(st0, st', p, cond, t, f)
      && forall b :: |st0.blocks| <= b < |st.blocks| ==> OpeningNew(st', p, b, bound, {t, f}, done)
  {
    var i := Cbr(cond, t, f);
    var st' := Appended(st, p, i);
    AppendedKeepsInv(st, p, i);
    OpeningEndsEdges(st0, st, p, bound, done, cond, t, f);
    hide Inv;
    forall b | 0 <= b < |st0.blocks| ensures StableAt(st0, st', b) && UntouchedAt(st0, st', b, p) {
      assert OpeningOld(st0, st, b);
    }
    forall b | |st0.blocks| <= b < |st.blocks| ensures OpeningNew(st', p, b, bound, {t, f}, done) {
      assert OpeningNew(st, p, b, bound, {t, f}, done);
    }
    assert OpeningOld(st0, st, p);
    assert OpeningNew(st', p, t, bound, {t, f}, done) && OpeningNew(st', p, f, bound, {t, f}, done);
    assert Stable(st0, st');
    assert Untouched(st0, st', |st0.blocks|, p);
    assert InstrIs(st', EndOf(st0, p), i);
    assert EdgeAt(st', EndOf(st0, p), t);
  }

  lemma OpeningEndsEdges(st0: St, st: St, p: nat, bound: set<Sym>, done: set<nat>, cond: Operand, t: nat, f: nat)
    requires Opening(st0, st, p, bound, {t, f}, done) && t != f
    requires |st0.blocks| <= t < |st.blocks| && |st0.blocks| <= f < |st.blocks|
    requires Inv(st0) && EdgesOk(st0)
    ensures EdgesOk(Appended(st, p, Cbr(cond, t, f)))
  {
    var i := Cbr(cond, t, f);
    var st' := Appended(st, p, i);
    forall b | 0 <= b < |st'.blocks|
      ensures forall q :: q in st'.blocks[b].preds <==>
        (if q == p then b in i.Targets() else b < |st0.blocks| && q in st0.blocks[b].preds)
    {
      if b < |st0.blocks| {
        assert OpeningOld(st0, st, b);
        assert PredsOkAt(st0, b);
      } else {
        assert OpeningNew(st, p, b, bound, {t, f}, done);
      }
    }
    forall b | 0 <= b < |st0.blocks| && b != p ensures st'.blocks[b].instrs == st0.blocks[b].instrs {
      assert OpeningOld(st0, st, b);
    }
    forall b | |st0.blocks| <= b < |st'.blocks| ensures st'.blocks[b].instrs == [] {
      assert OpeningNew(st, p, b, bound, {t, f}, done);
    }
    assert OpeningOld(st0, st, p);
    EdgesAfterBranch(st0, st', p, i);
  }

  // ----- Jumping to a waiting block -----

  ghost function Jumped(st: St, p: nat, b: nat): St
    requires Sizes(st) && p < |st.blocks| && b < |st.blocks|
  {
    Appended(WithPred(Closed(st, p), b, p), p, Br(b))
  }

  ghost predicate JumpStep(st: St, st': St, p: nat, b: nat)
    requires Sizes(st) && p < |st.blocks| && b < |st.blocks|
  {
    && Inv(st') && EdgesOk(st') && st'.g.busy == {}
    && Stable(st, st')
    && st'.g.closed == st.g.closed + {p} && |st'.blocks| == |st.blocks|
    && (forall c :: 0 <= c < |st.blocks| && c != b ==> UntouchedAt(st, st', c, p))
    && InstrIs(st', EndOf(st, p), Br(b)) && EdgeAt(st', EndOf(st, p), b)
    && st'.blocks[b].preds == st.blocks[b].preds + [p]
    && st'.blocks[b].isSealed == st.blocks[b].isSealed
    && st'.g.logs == st.g.logs && st'.g.bound == st.g.bound
    && (p != b ==> st'.blocks[b].instrs == st.blocks[b].instrs)
  }

  lemma JumpedIsJumpStep(st: St, p: nat, b: nat)
    requires Inv(st) && EdgesOk(st) && st.g.busy == {}
    requires p < |st.blocks| && p !in st.g.closed && b < |st.blocks| && !st.blocks[b].isSealed
    requires st.g.bound[b] <= BoundAtEnd(st.g, p)
    ensures JumpStep(st, Jumped(st, p, b), p, b)
  {
    var st1 := Closed(st, p);
    ClosedKeepsInv(st, p);
    assert p !in st.blocks[b].preds by { assert PredsOkAt(st, b); }
    WithPredKeepsInv(st1, b, p);
    AppendedKeepsInv(WithPred(st1, b, p), p, Br(b));
    JumpedEdges(st, p, b);
    JumpedStable(st, p, b);
  }

  lemma JumpedStable(st: St, p: nat, b: nat)
    requires Sizes(st) && p < |st.blocks| && b < |st.blocks| && Sizes(Jumped(st, p, b))
    ensures |Jumped(st, p, b).blocks| == |st.blocks|
    ensures forall c :: 0 <= c < |st.blocks| ==> StableAt(st, Jumped(st, p, b), c)
    ensures forall c :: 0 <= c < |st.blocks| && c != b ==> UntouchedAt(st, Jumped(st, p, b), c, p)
  {
    var st' := Jumped(st, p, b);
    forall c | 0 <= c < |st.blocks| ensures StableAt(st, st', c) {}
    forall c | 0 <= c < |st.blocks| && c != b ensures UntouchedAt(st, st', c, p) {}
  }

  lemma JumpedEdges(st: St, p: nat, b: nat)
    requires Inv(st) && EdgesOk(st)
    requires p < |st.blocks| && p !in st.g.closed && b < |st.blocks|
    ensures EdgesOk(Jumped(st, p, b))
  {
    var st' := Jumped(st, p, b);
    forall c | 0 <= c < |st'.blocks|
      ensures forall q :: q in st'.blocks[c].preds <==>
        (if q == p then c in Br(b).Targets() else c < |st.blocks| && q in st.blocks[c].preds)
    {
      assert PredsOkAt(st, c);
    }
    EdgesAfterBranch(st, st', p, Br(b));
  }

  // ----- Statements -----

  // What lowering a statement from block cur to block cur' does.
  ghost predicate StmtStep(st: St, st': St, cur: nat, cur': nat) {
    && Stable(st, st') && Untouched(st, st', |st.blocks|, cur)
    && (cur' == cur || (|st.blocks| <= cur' && cur in st'.g.closed))
    && forall b :: |st.blocks| <= b < |st'.blocks| ==> st'.blocks[b].isSealed && (b == cur' || b in st'.g.closed)
  }

  lemma StmtStepTrans(a: St, b: St, c: St, p: nat, q: nat, r: nat)
    requires StmtStep(a, b, p, q) && StmtStep(b, c, q, r)
    requires p < |a.blocks| && q < |b.blocks|
    ensures StmtStep(a, c, p, r)
  {
    StableTrans(a, b, c);
    UntouchedBelow(b, c, |b.blocks|, |a.blocks|, q);
    UntouchedTrans(a, b, c, |a.blocks|, p, q);
    forall i | |a.blocks| <= i < |c.blocks| ensures c.blocks[i].isSealed && (i == r || i in c.g.closed) {
      if i < |b.blocks| {
        assert UntouchedAt(b, c, i, q);
      }
    }
  }

  // Block b has been lowered as a branch that goes on to block next.
  ghost predicate BranchStep(st: St, st': St, b: nat, next: nat) {
    && Inv(st') && EdgesOk(st') && st'.g.busy == {}
    && Stable(st, st') && b < |st.blocks| && next < |st.blocks|
    && (forall c :: 0 <= c < |st.blocks| && c != next ==> UntouchedAt(st, st', c, b))
    && (exists q :: st'.blocks[next].preds == st.blocks[next].preds + [q] && (q == b || |st.blocks| <= q))
    && st'.blocks[next].isSealed == st.blocks[next].isSealed
    && st'.blocks[next].instrs == st.blocks[next].instrs
    && st'.g.logs[next] == st.g.logs[next] && st'.g.bound[next] == st.g.bound[next]
    && (next in st'.g.closed ==> next in st.g.closed)
    && b in st'.g.closed
    && forall c :: |st.blocks| <= c < |st'.blocks| ==> st'.blocks[c].isSealed && c in st'.g.closed
  }

  ghost predicate BranchEmitted(st: St, s: Stmt, t: STree, b: nat, next: nat)
    requires Sizes(st)
  {
    EmitS(st, s, t) && t.start == Entry(b) && InstrIs(st, t.end, Br(next)) && EdgeAt(st, t.end, next)
  }

  lemma {:induction false} BranchLowered(st: St, st1: St, st2: St, s: Stmt, t: STree, b: nat, q: nat, next: nat)
    requires Sizes(st) && b < |st.blocks| && next < |st.blocks| && next != b
    requires StmtStep(st, st1, b, q) && Sizes(st1) && q < |st1.blocks|
    requires EmitS(st1, s, t) && t.start == Entry(b) && t.end == EndOf(st1, q)
    requires JumpStep(st1, st2, q, next)
    ensures BranchStep(st, st2, b, next) && BranchEmitted(st2, s, t, b, next)
  {
    hide Inv, EdgesOk, EmitS;
    StableTrans(st, st1, st2);
    EmitSStable(st1, st2, s, t);
    assert UntouchedAt(st, st1, next, b);
    forall c | 0 <= c < |st.blocks| && c != next ensures UntouchedAt(st, st2, c, b) {
      assert UntouchedAt(st, st1, c, b);
      assert UntouchedAt(st1, st2, c, q);
    }
    assert st2.blocks[next].preds == st.blocks[next].preds + [q];
    forall c | |st.blocks| <= c < |st2.blocks| ensures st2.blocks[c].isSealed && c in st2.g.closed {
      assert UntouchedAt(st1, st2, c, q);
    }
  }

  lemma {:induction false} EmitBranchFrom(st: St, st': St, s: Stmt, t: STree, b: nat, next: nat, p: Point)
    requires Stable(st, st') && BranchEmitted(st, s, t, b, next) && EdgeAt(st', p, b)
    ensures EmitBranch(st', s, t, p, next)
  {
    EmitSStable(st, st', s, t);
    EmittedStmtEnd(st, s, t);
    PointStable(st, st', t.end);
  }

  lemma {:induction false} EmittedStmtEnd(st: St, s: Stmt, t: STree)
    requires Sizes(st) && EmitS(st, s, t)
    ensures InRange(st, t.start) && InRange(st, t.end)
  {
  }

  // ----- If -----

  lemma JoinReady(st: St, st': St, b: nat, next: nat, bound: set<Sym>)
    requires BranchStep(st, st', b, next) && Sizes(st) && Fresh(st, next, bound)
    requires !st.blocks[next].isSealed && |st.blocks[next].preds| > 0
    ensures Fresh(st', next, bound) && ReadyToSeal(st', next)
  {
  }

  lemma {:induction false} IfLowered(st0: St, st1: St, st2: St, st3: St, st4: St, p: nat, c: Expr, thn: Stmt, tc: ETree, tt: STree,
                  b: nat, join: nat, bound: set<Sym>)
    requires Sizes(st0) && p < |st0.blocks| && ExprStep(st0, st1, p)
    requires EmitE(st1, c, tc) && tc.start == EndOf(st0, p) && tc.end == EndOf(st1, p)
    requires Forked(st1, st2, p, tc.out, b, join)
    requires |st2.blocks| == |st1.blocks| + 2 && |st1.blocks| <= b < |st2.blocks| && |st1.blocks| <= join < |st2.blocks| && b != join
    requires st2.blocks[b].isSealed && Fresh(st2, join, bound)
    requires BranchStep(st2, st3, b, join) && BranchEmitted(st3, thn, tt, b, join)
    requires SealStep(st3, st4, join)
    ensures StmtStep(st0, st4, p, join)
    ensures Sizes(st4) && EmitS(st4, If(c, thn, None), STree(tc.start, Entry(join), [tc], [tt]))
    ensures Fresh(st4, join, bound)
  {
    hide Inv, EdgesOk, EmitE;
    PassiveIsStable(st3, st4);
    StableTrans(st0, st1, st2);
    StableTrans(st0, st2, st3);
    StableTrans(st0, st3, st4);
    StableTrans(st2, st3, st4);
    forall i | 0 <= i < |st0.blocks| ensures UntouchedAt(st0, st4, i, p) {
      assert UntouchedAt(st0, st1, i, p) && UntouchedAt(st1, st2, i, p);
      assert UntouchedAt(st2, st3, i, b);
    }
    forall i | |st0.blocks| <= i < |st4.blocks| ensures st4.blocks[i].isSealed && (i == join || i in st4.g.closed) {
      if i < |st2.blocks| && i != join { assert UntouchedAt(st2, st3, i, b); }
    }
    EmitEStable(st1, st2, c, tc);
    EmitEStable(st2, st4, c, tc);
    PointStable(st2, st4, tc.end);
    EmitBranchFrom(st3, st4, thn, tt, b, join, tc.end);
    assert EmitS(st4, If(c, thn, None), STree(tc.start, Entry(join), [tc], [tt]));
  }

  // A block other than the two ends of a branch is not affected by it.
  lemma BranchPasses(st: St, st': St, b: nat, next: nat, c: nat, bound: set<Sym>)
    requires BranchStep(st, st', b, next) && Fresh(st, c, bound) && c != b && c != next
    ensures Fresh(st', c, bound) && st'.blocks[c].isSealed == st.blocks[c].isSealed
    ensures st'.blocks[c].preds == st.blocks[c].preds
  {
    assert UntouchedAt(st, st', c, b);
  }

  lemma SealPasses(st: St, st': St, b: nat, c: nat, bound: set<Sym>)
    requires SealStep(st, st', b) && Fresh(st, c, bound)
    ensures Fresh(st', c, bound)
  {
  }

  lemma {:induction false} IfElseLowered(st0: St, st1: St, st2: St, st3: St, st4: St, st5: St, p: nat, c: Expr, thn: Stmt, els: Stmt,
                      tc: ETree, tt: STree, te: STree, b: nat, e: nat, join: nat, bound: set<Sym>)
    requires Sizes(st0) && p < |st0.blocks| && ExprStep(st0, st1, p)
    requires EmitE(st1, c, tc) && tc.start == EndOf(st0, p) && tc.end == EndOf(st1, p)
    requires Forked(st1, st2, p, tc.out, b, e)
    requires |st1.blocks| <= b < |st2.blocks| && |st1.blocks| <= join < |st2.blocks| && |st1.blocks| <= e < |st2.blocks|
    requires |st2.blocks| == |st1.blocks| + 3 && b != join && e != join && b != e
    requires st2.blocks[b].isSealed && st2.blocks[e].isSealed && Fresh(st2, join, bound)
    requires BranchStep(st2, st3, b, join) && BranchEmitted(st3, thn, tt, b, join)
    requires BranchStep(st3, st4, e, join) && BranchEmitted(st4, els, te, e, join)
    requires SealStep(st4, st5, join)
    ensures StmtStep(st0, st5, p, join)
    ensures Sizes(st5) && EmitS(st5, If(c, thn, Some(els)), STree(tc.start, Entry(join), [tc], [tt, te]))
    ensures Fresh(st5, join, bound)
  {
    hide Inv, EdgesOk, EmitE, EmitS, BranchEmitted;
    PassiveIsStable(st4, st5);
    StableTrans(st3, st4, st5);
    StableTrans(st2, st3, st5);
    IfElseStep(st0, st1, st2, st3, st4, st5, p, tc.out, b, e, join);
    IfElseEmitted(st1, st2, st3, st4, st5, p, c, thn, els, tc, tt, te, b, e, join);
  }

  lemma {:induction false} IfElseEmitted(st1: St, st2: St, st3: St, st4: St, st5: St, p: nat, c: Expr, thn: Stmt, els: Stmt,
                      tc: ETree, tt: STree, te: STree, b: nat, e: nat, join: nat)
    requires Sizes(st1) && EmitE(st1, c, tc) && p < |st1.blocks| && tc.end == EndOf(st1, p)
    requires Forked(st1, st2, p, tc.out, b, e)
    requires b < |st2.blocks| && e < |st2.blocks| && join < |st2.blocks|
    requires Sizes(st3) && Sizes(st4) && Stable(st2, st5) && Stable(st3, st5) && Stable(st4, st5)
    requires BranchEmitted(st3, thn, tt, b, join) && BranchEmitted(st4, els, te, e, join)
    ensures Sizes(st5) && EmitS(st5, If(c, thn, Some(els)), STree(tc.start, Entry(join), [tc], [tt, te]))
  {
    hide Inv, EdgesOk, EmitE;
    EmitEStable(st1, st2, c, tc);
    EmitEStable(st2, st5, c, tc);
    PointStable(st2, st5, tc.end);
    EmitBranchFrom(st3, st5, thn, tt, b, join, tc.end);
    EmitBranchFrom(st4, st5, els, te, e, join, tc.end);
  }

  lemma IfElseStep(st0: St, st1: St, st2: St, st3: St, st4: St, st5: St, p: nat, cond: Operand, b: nat, e: nat, join: nat)
    requires Sizes(st0) && p < |st0.blocks| && ExprStep(st0, st1, p)
    requires Forked(st1, st2, p, cond, b, e) && Sizes(st2) && Sizes(st3) && Sizes(st4)
    requires |st2.blocks| == |st1.blocks| + 3 && {b, e, join} == {|st1.blocks|, |st1.blocks| + 1, |st1.blocks| + 2}
    requires b != join && e != join && b != e
    requires st2.blocks[b].isSealed && st2.blocks[e].isSealed
    requires BranchStep(st2, st3, b, join) && BranchStep(st3, st4, e, join) && SealStep(st4, st5, join)
    ensures StmtStep(st0, st5, p, join)
  {
    hide Inv, EdgesOk;
    PassiveIsStable(st4, st5);
    StableTrans(st3, st4, st5);
    StableTrans(st2, st3, st5);
    StableTrans(st0, st1, st2);
    StableTrans(st0, st2, st5);
    forall i | 0 <= i < |st0.blocks| ensures UntouchedAt(st0, st5, i, p) {
      assert UntouchedAt(st0, st1, i, p) && UntouchedAt(st1, st2, i, p);
      assert UntouchedAt(st2, st3, i, b) && UntouchedAt(st3, st4, i, e);
    }
    IfElseSealed(st1, st2, st3, st4, st5, b, e, join);
  }

  lemma IfElseSealed(st1: St, st2: St, st3: St, st4: St, st5: St, b: nat, e: nat, join: nat)
    requires Sizes(st1) && Sizes(st2) && Sizes(st3) && Sizes(st4)
    requires |st2.blocks| == |st1.blocks| + 3 && {b, e, join} == {|st1.blocks|, |st1.blocks| + 1, |st1.blocks| + 2}
    requires b != join && e != join && b != e && st2.blocks[b].isSealed && st2.blocks[e].isSealed
    requires BranchStep(st2, st3, b, join) && BranchStep(st3, st4, e, join) && SealStep(st4, st5, join)
    ensures |st5.blocks| >= |st1.blocks|
    ensures forall i :: |st1.blocks| <= i < |st5.blocks| ==> st5.blocks[i].isSealed && (i == join || i in st5.g.closed)
  {
    hide Inv, EdgesOk;
    PassiveIsStable(st4, st5);
    forall i | |st1.blocks| <= i < |st5.blocks| ensures st5.blocks[i].isSealed && (i == join || i in st5.g.closed) {
      if i < |st2.blocks| && i != join { assert UntouchedAt(st2, st3, i, b); assert i in {b, e, join}; }
      if i < |st3.blocks| && i != join { assert UntouchedAt(st3, st4, i, e); }
    }
  }

  // ----- While -----

  lemma LoopEntered(st0: St, st1: St, st2: St, p: nat, bound: set<Sym>)
    requires Sizes(st0) && p < |st0.blocks| && st1 == WithBlock(st0, bound) && JumpStep(st1, st2, p, |st0.blocks|)
    ensures var head := |st0.blocks|;
      && |st2.blocks| == head + 1
      && Fresh(st2, head, bound) == (head !in st0.g.closed)
      && st2.blocks[head].preds == [p] && !st2.blocks[head].isSealed
      && Stable(st0, st2) && Untouched(st0, st2, head, p)
      && InstrIs(st2, EndOf(st0, p), Br(head)) && EdgeAt(st2, EndOf(st0, p), head)
      && p in st2.g.closed
  {
    forall i | 0 <= i < |st0.blocks| ensures StableAt(st0, st2, i) && UntouchedAt(st0, st2, i, p) {
      assert StableAt(st1, st2, i) && UntouchedAt(st1, st2, i, p);
    }
  }

  lemma LoopReady(st2: St, st3: St, st4: St, st5: St, head: nat, p: nat, cond: Operand, b: nat, join: nat)
    requires Sizes(st2) && head < |st2.blocks| && st2.blocks[head].preds == [p] && !st2.blocks[head].isSealed
    requires ExprStep(st2, st3, head) && Forked(st3, st4, head, cond, b, join)
    requires BranchStep(st4, st5, b, head)
    ensures ReadyToSeal(st5, head)
  {
    assert UntouchedAt(st2, st3, head, head) && UntouchedAt(st3, st4, head, head);
  }

  lemma {:induction false} WhileLowered(st0: St, st2: St, st3: St, st4: St, st5: St, st6: St, p: nat, c: Expr, body: Stmt,
                     tc: ETree, tb: STree, head: nat, b: nat, join: nat)
    requires Sizes(st0) && p < |st0.blocks| && head == |st0.blocks|
    requires Stable(st0, st2) && Untouched(st0, st2, head, p) && |st2.blocks| == head + 1
    requires InstrIs(st2, EndOf(st0, p), Br(head)) && EdgeAt(st2, EndOf(st0, p), head) && p in st2.g.closed
    requires ExprStep(st2, st3, head) && EmitE(st3, c, tc) && tc.start == Entry(head) && tc.end == EndOf(st3, head)
    requires Forked(st3, st4, head, tc.out, b, join)
    requires |st4.blocks| == |st3.blocks| + 2 && |st3.blocks| <= b < |st4.blocks|
    requires |st3.blocks| <= join < |st4.blocks| && b != join
    requires st4.blocks[b].isSealed && st4.blocks[join].isSealed && Fresh(st4, join, st4.g.bound[join])
    requires BranchStep(st4, st5, b, head) && BranchEmitted(st5, body, tb, b, head)
    requires SealStep(st5, st6, head)
    ensures StmtStep(st0, st6, p, join)
    ensures Sizes(st6) && EmitS(st6, While(c, body), STree(EndOf(st0, p), Entry(join), [tc], [tb]))
  {
    hide Inv, EdgesOk, EmitE, EmitS, BranchEmitted;
    PassiveIsStable(st5, st6);
    StableTrans(st4, st5, st6);
    StableTrans(st2, st3, st4);
    StableTrans(st2, st4, st6);
    StableTrans(st0, st2, st6);
    StableTrans(st3, st4, st6);
    forall i | 0 <= i < |st0.blocks| ensures UntouchedAt(st0, st6, i, p) {
      assert UntouchedAt(st0, st2, i, p) && UntouchedAt(st2, st3, i, head) && UntouchedAt(st3, st4, i, head);
      assert UntouchedAt(st4, st5, i, b);
    }
    forall i | |st0.blocks| <= i < |st6.blocks| ensures st6.blocks[i].isSealed && (i == join || i in st6.g.closed) {
      if i < |st4.blocks| && i != head { assert UntouchedAt(st4, st5, i, b); }
    }
    WhileEmitted(st2, st3, st4, st5, st6, c, body, EndOf(st0, p), tc, tb, head, b, join);
  }

  lemma {:induction false} WhileEmitted(st2: St, st3: St, st4: St, st5: St, st6: St, c: Expr, body: Stmt, start: Point,
                     tc: ETree, tb: STree, head: nat, b: nat, join: nat)
    requires Stable(st2, st6) && Stable(st3, st6) && Stable(st4, st6) && Stable(st5, st6)
    requires InstrIs(st2, start, Br(head)) && EdgeAt(st2, start, head)
    requires head < |st3.blocks| && EmitE(st3, c, tc) && tc.start == Entry(head) && tc.end == EndOf(st3, head)
    requires Forked(st3, st4, head, tc.out, b, join) && BranchEmitted(st5, body, tb, b, head)
    ensures EmitS(st6, While(c, body), STree(start, Entry(join), [tc], [tb]))
  {
    hide Inv, EdgesOk, EmitE;
    EmitEStable(st3, st6, c, tc);
    PointStable(st2, st6, start);
    PointStable(st4, st6, tc.end);
    EmitBranchFrom(st5, st6, body, tb, b, head, tc.end);
  }

  // ----- Small facts the visitors use -----

  lemma OpeningInv(st0: St, st: St, p: nat, bound: set<Sym>, linked: set<nat>, done: set<nat>)
    requires Opening(st0, st, p, bound, linked, done)
    ensures Inv(st) && p < |st0.blocks| <= |st.blocks|
  {
  }

  lemma OpeningGives(st: St, p: nat, b: nat, bound: set<Sym>, linked: set<nat>, done: set<nat>)
    requires Sizes(st) && b < |st.blocks| && OpeningNew(st, p, b, bound, linked, done)
    ensures Fresh(st, b, bound) && st.blocks[b].isSealed == (b in done)
    ensures st.blocks[b].preds == if b in linked then [p] else []
  {
  }

  lemma FreshBound(st: St, b: nat, bound: set<Sym>)
    requires Fresh(st, b, bound)
    ensures BoundAtEnd(st.g, b) == bound && EndOf(st, b) == Entry(b)
  {
  }

  lemma StepKeepsWaiting(st: St, st': St, b: nat, q: nat, next: nat)
    requires StmtStep(st, st', b, q) && Sizes(st) && next < |st.blocks| && next != b
    ensures |st.blocks| <= |st'.blocks| && !st'.blocks[next].isSealed == !st.blocks[next].isSealed
    ensures st'.g.bound[next] == st.g.bound[next]
  {
    assert UntouchedAt(st, st', next, b);
  }

  lemma BranchGives(st: St, st': St, b: nat, next: nat)
    requires BranchStep(st, st', b, next)
    ensures Inv(st') && EdgesOk(st') && st'.g.busy == {} && next < |st.blocks| <= |st'.blocks|
    ensures st'.blocks[next].isSealed == st.blocks[next].isSealed && st'.g.bound[next] == st.g.bound[next]
    ensures |st'.blocks[next].preds| > 0 && (forall bound :: Fresh(st, next, bound) ==> Fresh(st', next, bound))
  {
  }

  lemma ForkedGives(st: St, st': St, p: nat, cond: Operand, t: nat, f: nat)
    requires Forked(st, st', p, cond, t, f)
    ensures Inv(st') && EdgesOk(st') && st'.g.busy == {} && t < |st'.blocks| && f < |st'.blocks|
  {
  }

  lemma FreshGives(st: St, b: nat, bound: set<Sym>)
    requires Fresh(st, b, bound)
    ensures Sizes(st) && b < |st.blocks| && st.g.bound[b] == bound && b !in st.g.closed
  {
  }

  lemma SealGives(st: St, st': St, b: nat)
    requires SealStep(st, st', b)
    ensures |st'.blocks| == |st.blocks| && st'.g.busy == {}
    ensures EdgesOk(st) ==> EdgesOk(st')
  {
    if EdgesOk(st) { EdgesStay(st, st'); }
  }

  lemma JumpGives(st: St, st': St, p: nat, b: nat)
    requires Sizes(st) && p < |st.blocks| && b < |st.blocks| && JumpStep(st, st', p, b)
    ensures Inv(st') && EdgesOk(st') && st'.g.busy == {} && |st'.blocks| == |st.blocks|
  {
  }

  lemma ExprGives(st: St, st': St, cur: nat)
    requires ExprStep(st, st', cur)
    ensures Sizes(st) && Sizes(st') && |st'.blocks| == |st.blocks| && st'.g.closed == st.g.closed
  {
  }

  lemma WithBlockReady(st: St, p: nat, bound: set<Sym>)
    requires Inv(st) && EdgesOk(st) && p < |st.blocks| && p !in st.g.closed
    ensures var st' := WithBlock(st, bound);
      Inv(st') && EdgesOk(st') && BoundAtEnd(st'.g, p) == BoundAtEnd(st.g, p)
  {
    var st' := WithBlock(st, bound);
    WithBlockKeepsInv(st, bound);
    forall q | 0 <= q < |st'.blocks| ensures EdgesOkAt(st', q) {
      if q < |st.blocks| { assert EdgesOkAt(st, q); }
    }
  }

  lemma HeadStillWaits(st2: St, st3: St, st4: St, head: nat, p: nat, cond: Operand, b: nat, join: nat)
    requires Sizes(st2) && head < |st2.blocks| && ExprStep(st2, st3, head) && Forked(st3, st4, head, cond, b, join)
    ensures Inv(st4) && EdgesOk(st4) && st4.g.busy == {} && head < |st4.blocks|
    ensures st4.blocks[head].isSealed == st2.blocks[head].isSealed && st4.g.bound[head] == st2.g.bound[head]
  {
    assert UntouchedAt(st2, st3, head, head) && UntouchedAt(st3, st4, head, head);
  }

  lemma {:induction false} ReturnLowered(st0: St, st1: St, st2: St, s: Stmt, tr: ETree, t: STree, b: nat)
    requires s.Return? && ExprStep(st0, st1, b) && Inv(st1) && EdgesOk(st1) && b < |st1.blocks| && b !in st1.g.closed
    requires tr.end == EndOf(st1, b) && st2 == Appended(st1, b, Ret(tr.out))
    requires s.result.Some? ==> EmitE(st1, s.result.value, tr)
    requires s.result.None? ==> tr.start == tr.end && tr.out == Literal(0)
    requires t == STree(tr.start, EndOf(st2, b), [tr], [])
    ensures Inv(st2) && EdgesOk(st2) && StmtStep(st0, st2, b, b) && BoundAtEnd(st2.g, b) == BoundAtEnd(st1.g, b)
    ensures EmitS(st2, s, t)
  {
    hide EmitE, EmitS;
    AppendedKeepsInv(st1, b, Ret(tr.out));
    AppendedIsExprStep(st1, b, Ret(tr.out));
    ExprStepTrans(st0, st1, st2, b);
    ReturnEmitted(st1, st2, s, tr, t, b);
  }

  lemma {:induction false} ReturnEmitted(st1: St, st2: St, s: Stmt, tr: ETree, t: STree, b: nat)
    requires s.Return? && Sizes(st1) && HomesOk(st1) && b < |st1.blocks| && b !in st1.g.closed
    requires tr.end == EndOf(st1, b) && st2 == Appended(st1, b, Ret(tr.out))
    requires s.result.Some? ==> EmitE(st1, s.result.value, tr)
    requires s.result.None? ==> tr.start == tr.end && tr.out == Literal(0)
    requires t == STree(tr.start, EndOf(st2, b), [tr], [])
    ensures EmitS(st2, s, t)
  {
    AppendedIsExprStep(st1, b, Ret(tr.out));
    PointStable(st1, st2, tr.end);
    if s.result.Some? {
      EmitEStable(st1, st2, s.result.value, tr);
      EmittedEnd(st2, s.result.value, tr);
    }
  }

  // ----- Lists of statements -----

  // The first i statements have been lowered one after the other.
  ghost predicate Emitted(st: St, stmts: seq<Stmt>, kids: seq<STree>, i: nat, start: Point, end: Point)
    requires Sizes(st)
  {
    && |kids| == i <= |stmts|
    && InRange(st, start)
    && (forall j :: 0 <= j < i ==> EmitS(st, stmts[j], kids[j]))
    && (i > 0 ==> kids[0].start == start)
    && (forall j, k :: 0 <= j < k < i && k == j + 1 ==> kids[k].start == kids[j].end)
    && end == if i == 0 then start else kids[i - 1].end
  }

  lemma {:induction false} EmittedMore(st: St, st': St, stmts: seq<Stmt>, kids: seq<STree>, i: nat, start: Point, k: STree)
    requires Sizes(st) && i < |stmts| && Emitted(st, stmts, kids, i, start, k.start)
    requires Stable(st, st') && EmitS(st', stmts[i], k)
    ensures Emitted(st', stmts, kids + [k], i + 1, start, k.end)
  {
    PointStable(st, st', start);
    forall j | 0 <= j < i ensures EmitS(st', stmts[j], kids[j]) {
      EmitSStable(st, st', stmts[j], kids[j]);
    }
  }

  lemma {:induction false} EmittedAll(st: St, stmts: seq<Stmt>, kids: seq<STree>, start: Point, end: Point)
    requires Sizes(st) && Emitted(st, stmts, kids, |stmts|, start, end) && InRange(st, end)
    ensures EmitS(st, Block(stmts), STree(start, end, [], kids))
  {
    EmittedSuffix(st, stmts, kids, 0, start, start, end);
  }

  lemma {:induction false} EmittedSuffix(st: St, stmts: seq<Stmt>, kids: seq<STree>, i: nat, start: Point, from: Point, end: Point)
    requires Sizes(st) && i <= |stmts| && Emitted(st, stmts, kids, |stmts|, start, end)
    requires from == if i == 0 then start else kids[i - 1].end
    ensures EmitFrom(st, stmts, kids, i, from, end)
    decreases |stmts| - i
  {
    if i < |stmts| {
      EmittedSuffix(st, stmts, kids, i + 1, start, kids[i].end, end);
    }
  }
}
