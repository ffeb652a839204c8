// Replacing phis by copies at the end of the predecessors.
//
// The copies are placed before every terminator of a block, one after the
// other, while phis assign in parallel. When the two agree is settled here.
module PhiElimination {
  import opened Ast
  import opened Cfg
  import opened CriticalEdges
  import opened IR
  import opened Ordered

  datatype Copy = Copy(dst: nat, src: Operand)

  // An instruction of the lowered code: a copy or an instruction of the block.
  datatype Lowered = Move(copy: Copy) | Plain(instr: Instr)

  // ----- The lowering -----

  // The copies phis of one successor ask for, in order.
  function CopiesOf(phis: seq<Phi>, from: nat): seq<Copy> {
    if phis == [] then []
    else CopiesOf(phis[..|phis| - 1], from) + CopiesFor(phis[|phis| - 1], phis[|phis| - 1].incomings, from)
  }

  function CopiesFor(phi: Phi, incomings: seq<(nat, Operand)>, from: nat): seq<Copy> {
    if incomings == [] then []
    else
      var n := |incomings| - 1;
      CopiesFor(phi, incomings[..n], from) + if incomings[n].0 == from then [Copy(phi.result, incomings[n].1)] else []
  }

  function CopiesTo(blocks: seq<BasicBlock>, succs: seq<nat>, from: nat): seq<Copy>
    requires forall i :: 0 <= i < |succs| ==> succs[i] < |blocks|
  {
    if succs == [] then []
    else
      var n := |succs| - 1;
      CopiesTo(blocks, succs[..n], from) + CopiesOf(blocks[succs[n]].phis, from)
  }

  function Moves(copies: seq<Copy>): seq<Lowered> {
    seq(|copies|, i requires 0 <= i < |copies| => Move(copies[i]))
  }

  function LowerCode(code: seq<Instr>, copies: seq<Copy>): seq<Lowered> {
    if code == [] then []
    else
      var n := |code| - 1;
      LowerCode(code[..n], copies) + (if code[n].IsTerminator() then Moves(copies) else []) + [Plain(code[n])]
  }

  // Lowers the instructions of block b. (Source: a block's successors are its
  // successor list, and copies go before every terminator.)
  method LowerBlock(blocks: seq<BasicBlock>, b: nat) returns (out: seq<Lowered>)
    requires b < |blocks| && forall i :: 0 <= i < |blocks[b].succs| ==> blocks[b].succs[i] < |blocks|
    ensures out == LowerCode(blocks[b].instrs, CopiesTo(blocks, blocks[b].succs, b))
  {
    out := [];
    var code, succs := blocks[b].instrs, blocks[b].succs;
    ghost var copies := CopiesTo(blocks, succs, b);
    var i := 0;
    while i < |code|
      invariant i <= |code|
      invariant out == LowerCode(code[..i], copies)
    {
      ghost var before := out;
      if code[i].IsTerminator() {
        var s := 0;
        while s < |succs|
          invariant s <= |succs|
          invariant out == before + Moves(CopiesTo(blocks, succs[..s], b))
        {
          out := AddCopies(blocks[succs[s]].phis, b, out);
          assert succs[..s + 1][..s] == succs[..s];
          s := s + 1;
        }
        assert succs[..s] == succs;
      }
      out := out + [Plain(code[i])];
      assert code[..i + 1][..i] == code[..i];
      i := i + 1;
    }
    assert code[..i] == code;
  }

  method AddCopies(phis: seq<Phi>, from: nat, start: seq<Lowered>) returns (out: seq<Lowered>)
    ensures out == start + Moves(CopiesOf(phis, from))
  {
    out := start;
    var i := 0;
    while i < |phis|
      invariant i <= |phis|
      invariant out == start + Moves(CopiesOf(phis[..i], from))
    {
      ghost var before := out;
      var incomings := phis[i].incomings;
      var k := 0;
      while k < |incomings|
        invariant k <= |incomings|
        invariant out == before + Moves(CopiesFor(phis[i], incomings[..k], from))
      {
        var (id, operand) := incomings[k];
        if id == from {
          out := out + [Move(Copy(phis[i].result, operand))];
        }
        assert incomings[..k + 1][..k] == incomings[..k];
        k := k + 1;
      }
      assert incomings[..k] == incomings;
      assert phis[..i + 1][..i] == phis[..i];
      i := i + 1;
    }
    assert phis[..i] == phis;
  }

  // ----- Sequential and parallel assignment -----

  // Copying an operand that has no value leaves none behind.
  function Assign(regs: Regs, dst: nat, v: Option<Word>): Regs {
    if v.Some? then regs[dst := v.value] else regs - {dst}
  }

  // The copies one after the other.
  function RunCopies(copies: seq<Copy>, regs: Regs): Regs {
    if copies == [] then regs
    else RunCopies(copies[1..], Assign(regs, copies[0].dst, Value(copies[0].src, regs)))
  }

  // All the sources first, then all the destinations.
  function AllAtOnce(copies: seq<Copy>, regs: Regs): Regs {
    if copies == [] then regs
    else
      var n := |copies| - 1;
      Assign(AllAtOnce(copies[..n], regs), copies[n].dst, Value(copies[n].src, regs))
  }

  ghost predicate Distinct(copies: seq<Copy>) {
    forall i, j :: 0 <= i < j < |copies| ==> copies[i].dst != copies[j].dst
  }

  // No copy reads a register an earlier copy has changed.
  ghost predicate NoClobber(copies: seq<Copy>) {
    forall i, j :: 0 <= i < j < |copies| && copies[j].src == Register(copies[i].dst) ==> copies[i].src == copies[j].src
  }

  ghost predicate Agree(copies: seq<Copy>, regs: Regs) { RunCopies(copies, regs) == AllAtOnce(copies, regs) }

  lemma {:induction false} RunCopiesSnoc(copies: seq<Copy>, c: Copy, regs: Regs)
    ensures var mid := RunCopies(copies, regs); RunCopies(copies + [c], regs) == Assign(mid, c.dst, Value(c.src, mid))
    decreases copies
  {
    if copies == [] {
      assert (copies + [c])[1..] == [];
    } else {
      assert (copies + [c])[1..] == copies[1..] + [c];
      RunCopiesSnoc(copies[1..], c, Assign(regs, copies[0].dst, Value(copies[0].src, regs)));
    }
  }

  // Which operand of the state before the copies o stands for after them.
  function Origin(copies: seq<Copy>, o: Operand): Operand {
    if copies == [] then o
    else
      var n := |copies| - 1;
      Origin(copies[..n], if o == Register(copies[n].dst) then copies[n].src else o)
  }

  lemma {:induction false} OriginHasValue(copies: seq<Copy>, o: Operand, regs: Regs)
    ensures Value(o, RunCopies(copies, regs)) == Value(Origin(copies, o), regs)
  {
    if copies != [] {
      var n := |copies| - 1;
      assert copies == copies[..n] + [copies[n]];
      RunCopiesSnoc(copies[..n], copies[n], regs);
      OriginHasValue(copies[..n], if o == Register(copies[n].dst) then copies[n].src else o, regs);
    }
  }

  // Different operands have different values in some state.
  lemma OperandsDiffer(o: Operand, p: Operand) returns (regs: Regs)
    ensures o != p ==> Value(o, regs) != Value(p, regs)
  {
    var a := if o == Literal(0) || p == Literal(0) then 1 else 0;
    regs := if o.Register? then map[o.id := a] else if p.Register? then map[p.id := a] else map[];
    assert p.Register? && o.Register? && o != p ==> p.id !in regs;
  }

  // After the parallel assignment a register has the value of its copy's source.
  lemma {:induction false} AllAtOnceValue(copies: seq<Copy>, regs: Regs, k: nat)
    requires Distinct(copies) && k < |copies|
    ensures Value(Register(copies[k].dst), AllAtOnce(copies, regs)) == Value(copies[k].src, regs)
  {
    var n := |copies| - 1;
    if k < n {
      assert forall i :: 0 <= i < n ==> copies[..n][i] == copies[i];
      AllAtOnceValue(copies[..n], regs, k);
    }
  }

  lemma {:induction false} AllAtOnceOthers(copies: seq<Copy>, regs: Regs, r: nat)
    requires forall i :: 0 <= i < |copies| ==> copies[i].dst != r
    ensures Value(Register(r), AllAtOnce(copies, regs)) == Value(Register(r), regs)
  {
    if copies != [] { AllAtOnceOthers(copies[..|copies| - 1], regs, r); }
  }

  // Safe copies agree with the parallel assignment from every state.
  lemma {:induction false} SafeCopiesAgree(copies: seq<Copy>, regs: Regs)
    requires Distinct(copies) && NoClobber(copies)
    ensures Agree(copies, regs)
  {
    if copies != [] {
      var n := |copies| - 1;
      var init, last := copies[..n], copies[n];
      assert copies == init + [last];
      assert forall i :: 0 <= i < n ==> init[i] == copies[i];
      SafeCopiesAgree(init, regs);
      RunCopiesSnoc(init, last, regs);
      SourceUnchanged(copies, regs);
    }
  }

  lemma SourceUnchanged(copies: seq<Copy>, regs: Regs)
    requires |copies| > 0 && Distinct(copies) && NoClobber(copies)
    ensures Value(copies[|copies| - 1].src, AllAtOnce(copies[..|copies| - 1], regs)) == Value(copies[|copies| - 1].src, regs)
  {
    var n := |copies| - 1;
    var init, last := copies[..n], copies[n];
    assert forall i :: 0 <= i < n ==> init[i] == copies[i];
    if last.src.Register? {
      if i :| 0 <= i < n && init[i].dst == last.src.id {
        AllAtOnceValue(init, regs, i);
      } else {
        AllAtOnceOthers(init, regs, last.src.id);
      }
    }
  }

  // The first copy that reads a register changed before it.
  lemma {:induction false} FirstClobber(copies: seq<Copy>) returns (i: nat, j: nat)
    requires !NoClobber(copies)
    ensures i < j < |copies| && copies[j].src == Register(copies[i].dst) && copies[i].src != copies[j].src
    ensures NoClobber(copies[..j])
  {
    var n := |copies| - 1;
    if NoClobber(copies[..n]) {
      i, j :| 0 <= i < j < |copies| && copies[j].src == Register(copies[i].dst) && copies[i].src != copies[j].src;
      assert forall k :: 0 <= k < n ==> copies[..n][k] == copies[k];
    } else {
      i, j := FirstClobber(copies[..n]);
      assert copies[..n][..j] == copies[..j];
    }
  }

  // What copy j assigns stands for the source of copy i.
  lemma {:induction false} OriginOfClobbered(copies: seq<Copy>, i: nat, j: nat)
    requires Distinct(copies) && i < j < |copies| && copies[j].src == Register(copies[i].dst) && NoClobber(copies[..j])
    ensures Origin(copies, Register(copies[j].dst)) == copies[i].src
  {
    var n := |copies| - 1;
    if j < n {
      assert copies[..n][..j] == copies[..j];
      OriginOfClobbered(copies[..n], i, j);
    } else {
      OriginOfDst(copies[..n], i);
    }
  }

  lemma {:induction false} OriginOfDst(copies: seq<Copy>, i: nat)
    requires Distinct(copies) && i < |copies| && NoClobber(copies)
    ensures Origin(copies, Register(copies[i].dst)) == copies[i].src
  {
    var n := |copies| - 1;
    assert forall m :: 0 <= m < n ==> copies[..n][m] == copies[m];
    if i < n {
      OriginOfDst(copies[..n], i);
    } else {
      OriginOfSrc(copies[..n], copies[n].src);
    }
  }

  // An operand that no copy changes stands for itself.
  lemma {:induction false} OriginOfSrc(copies: seq<Copy>, o: Operand)
    requires forall k :: 0 <= k < |copies| && o == Register(copies[k].dst) ==> copies[k].src == o
    ensures Origin(copies, o) == o
  {
    if copies != [] {
      var n := |copies| - 1;
      assert forall m :: 0 <= m < n ==> copies[..n][m] == copies[m];
      OriginOfSrc(copies[..n], o);
    }
  }

  // The sequence of copies is exact if and only if no copy clobbers a later source.
  lemma CopiesExactIffNoClobber(copies: seq<Copy>)
    requires Distinct(copies)
    ensures (forall regs: Regs :: Agree(copies, regs)) <==> NoClobber(copies)
  {
    if NoClobber(copies) {
      forall regs: Regs ensures Agree(copies, regs) { SafeCopiesAgree(copies, regs); }
    } else {
      var i, j := FirstClobber(copies);
      OriginOfClobbered(copies, i, j);
      var regs := OperandsDiffer(copies[i].src, copies[j].src);
      OriginHasValue(copies, Register(copies[j].dst), regs);
      AllAtOnceValue(copies, regs, j);
      assert !Agree(copies, regs);
    }
  }

  // ----- Copies placed before a return that is not the block's last instruction -----

  // Whatever the registers hold, the copies leave o its value.
  ghost predicate KeptByCopies(copies: seq<Copy>, o: Operand) {
    forall regs: Regs :: Value(o, RunCopies(copies, regs)) == Value(o, regs)
  }

  // A return behind the copies gives the value it would give without them, from
  // every state, if and only if its operand stands for itself; for copies that do
  // not clobber, if and only if none changes the register it returns.
  lemma {:induction false} EarlyReturnExact(copies: seq<Copy>, o: Operand)
    ensures KeptByCopies(copies, o) <==> Origin(copies, o) == o
    ensures Distinct(copies) && NoClobber(copies) ==>
      (Origin(copies, o) == o <==> forall k :: 0 <= k < |copies| && o == Register(copies[k].dst) ==> copies[k].src == o)
  {
    var regs := OperandsDiffer(Origin(copies, o), o);
    OriginHasValue(copies, o, regs);
    forall regs: Regs | Origin(copies, o) == o ensures Value(o, RunCopies(copies, regs)) == Value(o, regs) {
      OriginHasValue(copies, o, regs);
    }
    if Distinct(copies) && NoClobber(copies) {
      if k :| 0 <= k < |copies| && o == Register(copies[k].dst) {
        OriginOfDst(copies, k);
      } else {
        OriginOfSrc(copies, o);
      }
    }
  }

  // ----- Whole graphs -----

  function LowerGraph(blocks: seq<BasicBlock>): seq<seq<Lowered>>
    requires SuccsInRange(blocks)
  {
    seq(|blocks|, b requires 0 <= b < |blocks| => LowerCode(blocks[b].instrs, CopiesTo(blocks, blocks[b].succs, b)))
  }

  function LoweredStep(prog: seq<seq<Lowered>>, c: Config): Config {
    if !c.At? then c
    else if c.block >= |prog| || c.pc >= |prog[c.block]| then Stuck
    else
      match prog[c.block][c.pc]
      case Move(Copy(dst, src)) => At(c.block, c.pc + 1, Assign(c.regs, dst, Value(src, c.regs)))
      case Plain(Arith(r, op, lhs, rhs)) =>
        var x, y := Value(lhs, c.regs), Value(rhs, c.regs);
        if x.Some? && y.Some? then At(c.block, c.pc + 1, c.regs[r := EvalOp(op, x.value, y.value)]) else Stuck
      case Plain(Br(t)) => if t < |prog| then At(t, 0, c.regs) else Stuck
      case Plain(Cbr(cond, t, e)) =>
        var v := Value(cond, c.regs);
        var to := if v.Some? && v.value != 0 then t else e;
        if v.Some? && to < |prog| then At(to, 0, c.regs) else Stuck
      case Plain(Ret(o)) =>
        var v := Value(o, c.regs);
        if v.Some? then Done(v.value) else Stuck
  }

  function LoweredRun(prog: seq<seq<Lowered>>, c: Config, n: nat): Config
    decreases n
  {
    if n == 0 then c else LoweredRun(prog, LoweredStep(prog, c), n - 1)
  }

  lemma {:induction false} LoweredRunPlus(prog: seq<seq<Lowered>>, c: Config, m: nat, n: nat)
    ensures LoweredRun(prog, c, m + n) == LoweredRun(prog, LoweredRun(prog, c, m), n)
    decreases m
  {
    if m > 0 { LoweredRunPlus(prog, LoweredStep(prog, c), m - 1, n); }
  }

  // The graphs the theorem is about: what edge splitting leaves, with safe copies.
  ghost predicate Lowerable(blocks: seq<BasicBlock>, nargs: nat) {
    && WellFormed(blocks) && NoCriticalEdge(blocks) && ListsOk(blocks) && PhisAtJoins(blocks)
    && SingleAssignment(blocks, nargs)
    && SuccsInRange(blocks)
    && forall b :: 0 <= b < |blocks| ==> CopiesSafe(blocks[b].instrs, BlockCopies(blocks, b))
  }

  // A block runs up to its first terminator. If that is its last instruction, no
  // copy reads a changed register; if it is a return in front of the jump that
  // the copies are for, they leave what it returns.
  ghost predicate CopiesSafe(code: seq<Instr>, copies: seq<Copy>) {
    && (Straight(code, |code| - 1) ==> NoClobber(copies))
    && forall pc :: 0 <= pc < |code| - 1 && Straight(code, pc) && code[pc].Ret? ==> Origin(copies, code[pc].value) == code[pc].value
  }

  // Nothing before pc ends the block.
  ghost predicate Straight(code: seq<Instr>, pc: int) {
    forall q :: 0 <= q < pc <= |code| ==> code[q].Arith?
  }

  // Copies are safe exactly if they do the right thing from every state: those
  // that run before a jump assign what they would assign at once, and those that
  // run before a return leave it what it returns.
  lemma SafeExactly(code: seq<Instr>, copies: seq<Copy>)
    requires Distinct(copies) && code != []
    ensures CopiesSafe(code, copies) <==>
      && ((forall q :: 0 <= q < |code| - 1 ==> code[q].Arith?) ==> forall regs: Regs :: Agree(copies, regs))
      && forall pc :: 0 <= pc < |code| - 1 && code[pc].Ret? && (forall q :: 0 <= q < pc ==> code[q].Arith?) ==> KeptByCopies(copies, code[pc].value)
  {
    hide NoClobber, Agree, Origin, RunCopies, KeptByCopies;
    CopiesExactIffNoClobber(copies);
    forall pc | 0 <= pc < |code| && code[pc].Ret? ensures KeptByCopies(copies, code[pc].value) <==> Origin(copies, code[pc].value) == code[pc].value {
      EarlyReturnExact(copies, code[pc].value);
    }
    assert forall pc :: 0 <= pc < |code| ==> (Straight(code, pc) <==> forall q :: 0 <= q < pc ==> code[q].Arith?);
  }

  ghost predicate SuccsInRange(blocks: seq<BasicBlock>) {
    forall b, i :: 0 <= b < |blocks| && 0 <= i < |blocks[b].succs| ==> blocks[b].succs[i] < |blocks|
  }

  // The copies lowered into block b.
  ghost function BlockCopies(blocks: seq<BasicBlock>, b: nat): seq<Copy>
    requires SuccsInRange(blocks) && b < |blocks|
  {
    CopiesTo(blocks, blocks[b].succs, b)
  }

  // A labelled phi gives one copy.
  lemma {:induction false} OneCopyPerPhi(phi: Phi, incomings: seq<(nat, Operand)>, from: nat)
    requires forall i, j :: 0 <= i < j < |incomings| ==> incomings[i].0 != incomings[j].0
    ensures CopiesFor(phi, incomings, from) ==
      if exists i :: 0 <= i < |incomings| && incomings[i].0 == from then [Copy(phi.result, IncomingFor(incomings, from))] else []
  {
    if incomings != [] {
      var n := |incomings| - 1;
      OneCopyPerPhi(phi, incomings[..n], from);
      assert incomings == incomings[..n] + [incomings[n]];
      IncomingSnoc(incomings[..n], incomings[n], from);
      if i :| 0 <= i < |incomings| && incomings[i].0 == from {
        if i < n { assert incomings[..n][i].0 == from; }
      }
    }
  }

  lemma {:induction false} IncomingSnoc(incomings: seq<(nat, Operand)>, x: (nat, Operand), from: nat)
    ensures IncomingFor(incomings + [x], from) ==
      if exists i :: 0 <= i < |incomings| && incomings[i].0 == from then IncomingFor(incomings, from)
      else if x.0 == from then x.1 else NoOperand
  {
    if incomings != [] {
      assert (incomings + [x])[1..] == incomings[1..] + [x];
      IncomingSnoc(incomings[1..], x, from);
      if i :| 0 <= i < |incomings| && incomings[i].0 == from {
        if i > 0 { assert incomings[1..][i - 1].0 == from; }
      }
      if i :| 0 <= i < |incomings| - 1 && incomings[1..][i].0 == from { assert incomings[i + 1].0 == from; }
    }
  }

  lemma {:induction false} LabelledCopy(phi: Phi, preds: set<nat>, from: nat)
    requires from in preds && Labelled(phi, preds)
    ensures CopiesFor(phi, phi.incomings, from) == [Copy(phi.result, IncomingFor(phi.incomings, from))]
    ensures !IncomingFor(phi.incomings, from).NoOperand?
  {
    OneCopyPerPhi(phi, phi.incomings, from);
    IncomingIsLabelled(phi.incomings, from);
  }

  // One copy for each phi, in order.
  lemma {:induction false} CopiesAreThePhis(phis: seq<Phi>, preds: set<nat>, from: nat)
    requires from in preds && forall i :: 0 <= i < |phis| ==> Labelled(phis[i], preds)
    ensures |CopiesOf(phis, from)| == |phis|
    ensures forall i :: 0 <= i < |phis| ==>
      CopiesOf(phis, from)[i] == Copy(phis[i].result, IncomingFor(phis[i].incomings, from))
      && !IncomingFor(phis[i].incomings, from).NoOperand?
  {
    hide Labelled, CopiesFor, IncomingFor;
    if phis != [] {
      var n := |phis| - 1;
      CopiesAreThePhis(phis[..n], preds, from);
      LabelledCopy(phis[n], preds, from);
    }
  }

  // The copies for a block's phis assign in parallel what the phis assign.
  lemma {:induction false} CopiesMeanMoves(phis: seq<Phi>, copies: seq<Copy>, from: nat, regs: Regs)
    requires |copies| == |phis| && PhiMoves(phis, from, regs).Some?
    requires forall i :: 0 <= i < |phis| ==> copies[i] == Copy(phis[i].result, IncomingFor(phis[i].incomings, from))
    ensures AllAtOnce(copies, regs) == regs + PhiMoves(phis, from, regs).value
  {
    if phis != [] {
      var n := |phis| - 1;
      CopiesMeanMoves(phis[..n], copies[..n], from, regs);
    }
  }

  lemma {:induction false} IncomingIsLabelled(incomings: seq<(nat, Operand)>, from: nat)
    requires exists i :: 0 <= i < |incomings| && incomings[i].0 == from
    requires forall i :: 0 <= i < |incomings| ==> !incomings[i].1.NoOperand?
    ensures !IncomingFor(incomings, from).NoOperand?
  {
    if incomings[0].0 != from {
      var i :| 0 <= i < |incomings| && incomings[i].0 == from;
      assert incomings[1..][i - 1].0 == from;
      IncomingIsLabelled(incomings[1..], from);
    }
  }

  lemma {:induction false} IncreasingSize(xs: seq<nat>, s: set<nat>)
    requires Increasing(xs) && forall x :: x in xs <==> x in s
    ensures |xs| == |s|
  {
    if xs == [] {
      assert s == {};
    } else {
      var n := |xs| - 1;
      assert xs == xs[..n] + [xs[n]];
      IncreasingSize(xs[..n], s - {xs[n]});
    }
  }

  // A block that ends with a jump gets the copies of its target's phis.
  lemma {:induction false} CopiesOfJump(blocks: seq<BasicBlock>, nargs: nat, b: nat, t: nat)
    requires Lowerable(blocks, nargs) && b < |blocks| && |blocks[b].instrs| > 0
    requires blocks[b].instrs[|blocks[b].instrs| - 1] == Br(t)
    ensures t < |blocks| && b in PredSet(blocks[t])
    ensures forall i :: 0 <= i < |blocks[t].phis| ==> Labelled(blocks[t].phis[i], PredSet(blocks[t]))
    ensures BlockCopies(blocks, b) == CopiesOf(blocks[t].phis, b)
  {
    hide CopiesSafe, SingleAssignment, PhisAtJoins, NoCriticalEdge, CopiesOf;
    assert BlockOk(blocks, b) && BlockOk(blocks, t);
    var succs := blocks[b].succs;
    IncreasingSize(succs, Succ(blocks[b]));
    assert succs[0] in succs;
    assert succs == [t] && succs[..0] == [];
    assert CopiesTo(blocks, succs, b) == CopiesTo(blocks, succs[..0], b) + CopiesOf(blocks[t].phis, b);
  }

  // A block that ends otherwise gets none: neither target of a branch has phis.
  lemma CopiesOfBranch(blocks: seq<BasicBlock>, nargs: nat, b: nat)
    requires Lowerable(blocks, nargs) && b < |blocks| && |blocks[b].instrs| > 0
    requires !blocks[b].instrs[|blocks[b].instrs| - 1].Br?
    ensures forall t :: t in Succ(blocks[b]) ==> t < |blocks| && blocks[t].phis == []
    ensures BlockCopies(blocks, b) == []
  {
    hide CopiesSafe, SingleAssignment;
    assert BlockOk(blocks, b);
    var last := blocks[b].instrs[|blocks[b].instrs| - 1];
    forall t | t in Succ(blocks[b]) ensures t < |blocks| && blocks[t].phis == [] {
      assert last.Cbr? && |{last.ifTrue, last.ifFalse}| == 2;
      assert BlockOk(blocks, t) && b in PredSet(blocks[t]);
    }
    NoPhisNoCopies(blocks, blocks[b].succs, b);
  }

  lemma {:induction false} NoPhisNoCopies(blocks: seq<BasicBlock>, succs: seq<nat>, from: nat)
    requires forall i :: 0 <= i < |succs| ==> succs[i] < |blocks| && blocks[succs[i]].phis == []
    ensures CopiesTo(blocks, succs, from) == []
  {
    if succs != [] { NoPhisNoCopies(blocks, succs[..|succs| - 1], from); }
  }

  // ----- Positions -----

  // Where the code for instruction pc of block b starts.
  ghost function PosOf(blocks: seq<BasicBlock>, b: nat, pc: nat): nat
    requires SuccsInRange(blocks) && b < |blocks| && pc <= |blocks[b].instrs|
  {
    |LowerCode(blocks[b].instrs[..pc], BlockCopies(blocks, b))|
  }

  lemma LowerCodeAt(code: seq<Instr>, copies: seq<Copy>, pc: nat)
    requires pc < |code|
    ensures var p := |LowerCode(code[..pc], copies)|;
      var out := LowerCode(code, copies);
      var k := if code[pc].IsTerminator() then |copies| else 0;
      && p + k + 1 <= |out| && out[p + k] == Plain(code[pc])
      && |LowerCode(code[..pc + 1], copies)| == p + k + 1
      && forall i :: 0 <= i < k ==> out[p + i] == Move(copies[i])
  {
    LowerCodePrefix(code, copies, pc + 1);
    assert code[..pc + 1][..pc] == code[..pc];
    var p := LowerCode(code[..pc], copies);
    var k := if code[pc].IsTerminator() then Moves(copies) else [];
    assert LowerCode(code[..pc + 1], copies) == p + k + [Plain(code[pc])];
  }

  lemma {:induction false} LowerCodePrefix(code: seq<Instr>, copies: seq<Copy>, n: nat)
    requires n <= |code|
    ensures LowerCode(code[..n], copies) <= LowerCode(code, copies)
  {
    if n == |code| {
      assert code[..n] == code;
    } else {
      LowerCodePrefix(code[..|code| - 1], copies, n);
      assert code[..|code| - 1][..n] == code[..n];
    }
  }

  // The same place in the lowered code.
  ghost function Image(blocks: seq<BasicBlock>, c: Config): Config
    requires SuccsInRange(blocks) && (c.At? ==> c.block < |blocks| && c.pc <= |blocks[c.block].instrs|)
  {
    if c.At? then At(c.block, PosOf(blocks, c.block, c.pc), c.regs) else c
  }

  ghost predicate InCode(blocks: seq<BasicBlock>, c: Config) {
    c.At? ==> c.block < |blocks| && c.pc <= |blocks[c.block].instrs| && Straight(blocks[c.block].instrs, c.pc)
  }

  // Copies laid out in a row run one after the other.
  lemma {:induction false} MovesRun(prog: seq<seq<Lowered>>, b: nat, p: nat, copies: seq<Copy>, regs: Regs)
    requires b < |prog| && p + |copies| <= |prog[b]|
    requires forall i :: 0 <= i < |copies| ==> prog[b][p + i] == Move(copies[i])
    ensures LoweredRun(prog, At(b, p, regs), |copies|) == At(b, p + |copies|, RunCopies(copies, regs))
    decreases copies
  {
    if copies != [] {
      assert prog[b][p + 0] == Move(copies[0]);
      forall i | 0 <= i < |copies| - 1 ensures prog[b][p + 1 + i] == Move(copies[1..][i]) {
        assert prog[b][p + (i + 1)] == Move(copies[i + 1]);
      }
      MovesRun(prog, b, p + 1, copies[1..], Assign(regs, copies[0].dst, Value(copies[0].src, regs)));
    }
  }

  lemma {:induction false} EndStays(prog: seq<seq<Lowered>>, d: Config, n: nat)
    requires !d.At?
    ensures LoweredRun(prog, d, n) == d
  {
    if n > 0 { EndStays(prog, d, n - 1); }
  }

  // One step of the graph is a positive number of steps of the lowered code.
  lemma LowerStep(blocks: seq<BasicBlock>, nargs: nat, c: Config) returns (n: nat)
    requires Lowerable(blocks, nargs) && c.At? && InCode(blocks, c) && !Step(blocks, c).Stuck?
    ensures InCode(blocks, Step(blocks, c))
    ensures n > 0 && LoweredRun(LowerGraph(blocks), Image(blocks, c), n) == Image(blocks, Step(blocks, c))
  {
    hide WellFormed, NoCriticalEdge, ListsOk, PhisAtJoins, SingleAssignment, CopiesSafe, CopiesTo;
    var prog := LowerGraph(blocks);
    var b, code := c.block, blocks[c.block].instrs;
    if code[c.pc].Arith? {
      LowerCodeAt(code, BlockCopies(blocks, b), c.pc);
      n := 1;
      assert LoweredRun(prog, LoweredStep(prog, Image(blocks, c)), 0) == Image(blocks, Step(blocks, c));
    } else {
      n := LowerTerminator(blocks, nargs, c);
    }
  }

  lemma LowerTerminator(blocks: seq<BasicBlock>, nargs: nat, c: Config) returns (n: nat)
    requires Lowerable(blocks, nargs) && c.At? && InCode(blocks, c) && c.pc < |blocks[c.block].instrs|
    requires blocks[c.block].instrs[c.pc].IsTerminator() && !Step(blocks, c).Stuck?
    ensures InCode(blocks, Step(blocks, c))
    ensures n > 0 && LoweredRun(LowerGraph(blocks), Image(blocks, c), n) == Image(blocks, Step(blocks, c))
  {
    hide WellFormed, NoCriticalEdge, ListsOk, PhisAtJoins, SingleAssignment, CopiesSafe, CopiesTo, Step, LoweredStep, LowerGraph, SuccsInRange;
    var prog := LowerGraph(blocks);
    var k := |BlockCopies(blocks, c.block)|;
    n := k + 1;
    CopiesReached(blocks, c);
    LoweredRunPlus(prog, Image(blocks, c), k, 1);
    TerminatorStep(blocks, nargs, c);
    assert LoweredRun(prog, AfterCopies(blocks, c), 1) == LoweredRun(prog, LoweredStep(prog, AfterCopies(blocks, c)), 0);
  }

  lemma CopiesReached(blocks: seq<BasicBlock>, c: Config)
    requires SuccsInRange(blocks) && c.At? && InCode(blocks, c) && c.pc < |blocks[c.block].instrs|
    requires blocks[c.block].instrs[c.pc].IsTerminator()
    ensures LoweredRun(LowerGraph(blocks), Image(blocks, c), |BlockCopies(blocks, c.block)|) == AfterCopies(blocks, c)
  {
    hide LoweredStep, RunCopies, LowerCode;
    var copies := BlockCopies(blocks, c.block);
    LowerCodeAt(blocks[c.block].instrs, copies, c.pc);
    MovesRun(LowerGraph(blocks), c.block, PosOf(blocks, c.block, c.pc), copies, c.regs);
  }

  // Where the lowered code is once the copies before instruction pc have run.
  ghost function AfterCopies(blocks: seq<BasicBlock>, c: Config): Config
    requires SuccsInRange(blocks) && c.At? && InCode(blocks, c)
  {
    var copies := BlockCopies(blocks, c.block);
    At(c.block, PosOf(blocks, c.block, c.pc) + |copies|, RunCopies(copies, c.regs))
  }

  lemma TerminatorStep(blocks: seq<BasicBlock>, nargs: nat, c: Config)
    requires Lowerable(blocks, nargs) && c.At? && InCode(blocks, c) && c.pc < |blocks[c.block].instrs|
    requires blocks[c.block].instrs[c.pc].IsTerminator() && !Step(blocks, c).Stuck?
    ensures InCode(blocks, Step(blocks, c))
    ensures LoweredStep(LowerGraph(blocks), AfterCopies(blocks, c)) == Image(blocks, Step(blocks, c))
  {
    hide WellFormed, NoCriticalEdge, ListsOk, PhisAtJoins, SingleAssignment, CopiesSafe, CopiesTo, LowerCode, PhiMoves, RunCopies, Origin;
    var b, code := c.block, blocks[c.block].instrs;
    LowerCodeAt(code, BlockCopies(blocks, b), c.pc);
    forall t | 0 <= t < |blocks| ensures PosOf(blocks, t, 0) == 0 {
      StartsAtZero(blocks, t);
    }
    if code[c.pc].Ret? {
      ReturnKept(blocks, nargs, c);
    } else {
      BranchIsLast(blocks, b, c.pc);
      if code[c.pc].Br? {
        JumpCopies(blocks, nargs, b, code[c.pc].target, c.regs);
      } else {
        CopiesOfBranch(blocks, nargs, b);
        assert RunCopies([], c.regs) == c.regs && PhiMoves([], b, c.regs) == Some(map[]) by { NothingToMove(b, c.regs); }
        assert c.regs + map[] == c.regs;
      }
    }
  }

  lemma BranchIsLast(blocks: seq<BasicBlock>, b: nat, pc: nat)
    requires WellFormed(blocks) && b < |blocks| && pc < |blocks[b].instrs| && MayBranch(blocks[b].instrs[pc])
    ensures pc == |blocks[b].instrs| - 1
  {
    assert BlockOk(blocks, b);
  }

  // What is returned is what it was before the copies.
  lemma ReturnKept(blocks: seq<BasicBlock>, nargs: nat, c: Config)
    requires Lowerable(blocks, nargs) && c.At? && InCode(blocks, c) && c.pc < |blocks[c.block].instrs|
    requires blocks[c.block].instrs[c.pc].Ret?
    ensures var o := blocks[c.block].instrs[c.pc].value;
      Value(o, RunCopies(BlockCopies(blocks, c.block), c.regs)) == Value(o, c.regs)
  {
    hide WellFormed, NoCriticalEdge, ListsOk, PhisAtJoins, SingleAssignment, CopiesTo, RunCopies, Origin, Value;
    var b, code := c.block, blocks[c.block].instrs;
    assert CopiesSafe(code, BlockCopies(blocks, b));
    if c.pc < |code| - 1 {
      OriginHasValue(BlockCopies(blocks, b), code[c.pc].value, c.regs);
    } else {
      CopiesOfBranch(blocks, nargs, b);
      NothingToMove(b, c.regs);
    }
  }

  lemma StartsAtZero(blocks: seq<BasicBlock>, b: nat)
    requires SuccsInRange(blocks) && b < |blocks|
    ensures PosOf(blocks, b, 0) == 0
  {
    assert blocks[b].instrs[..0] == [];
  }

  lemma {:induction false} NothingToMove(from: nat, regs: Regs)
    ensures RunCopies([], regs) == regs && PhiMoves([], from, regs) == Some(map[])
  {
  }

  // On a jump the copies do what the target's phis do.
  lemma {:induction false} JumpCopies(blocks: seq<BasicBlock>, nargs: nat, b: nat, t: nat, regs: Regs)
    requires Lowerable(blocks, nargs) && b < |blocks| && |blocks[b].instrs| > 0 && Straight(blocks[b].instrs, |blocks[b].instrs| - 1)
    requires blocks[b].instrs[|blocks[b].instrs| - 1] == Br(t)
    ensures t < |blocks|
    ensures var moves := PhiMoves(blocks[t].phis, b, regs);
      moves.Some? ==> RunCopies(BlockCopies(blocks, b), regs) == regs + moves.value
  {
    hide WellFormed, NoCriticalEdge, ListsOk, PhisAtJoins, NoClobber, CopiesTo, CopiesOf, Labelled;
    CopiesOfJump(blocks, nargs, b, t);
    var copies := BlockCopies(blocks, b);
    CopiesAreThePhis(blocks[t].phis, PredSet(blocks[t]), b);
    if PhiMoves(blocks[t].phis, b, regs).Some? { CopiesMeanMoves(blocks[t].phis, copies, b, regs); }
    forall i, j | 0 <= i < j < |copies| ensures copies[i].dst != copies[j].dst {
      assert IsDef(blocks, PhiDef(t, i), copies[i].dst) && IsDef(blocks, PhiDef(t, j), copies[j].dst);
    }
    assert CopiesSafe(blocks[b].instrs, copies);
    SafeCopiesAgree(copies, regs);
  }

  // ----- The theorem -----

  ghost predicate NeverStuckFrom(blocks: seq<BasicBlock>, c: Config) {
    forall n: nat :: !Run(blocks, c, n).Stuck?
  }

  lemma NeverStuckBelow(blocks: seq<BasicBlock>, c: Config)
    requires NeverStuckFrom(blocks, c)
    ensures !Step(blocks, c).Stuck? && NeverStuckFrom(blocks, Step(blocks, c))
  {
    hide Step;
    forall n: nat ensures !Run(blocks, Step(blocks, c), n).Stuck? { assert Run(blocks, c, n + 1) == Run(blocks, Step(blocks, c), n); }
    assert Run(blocks, Step(blocks, c), 0) == Step(blocks, c);
  }

  lemma {:induction false} LowerForward(blocks: seq<BasicBlock>, nargs: nat, c: Config, n: nat) returns (m: nat)
    requires Lowerable(blocks, nargs) && InCode(blocks, c) && NeverStuckFrom(blocks, c)
    ensures InCode(blocks, Run(blocks, c, n))
    ensures LoweredRun(LowerGraph(blocks), Image(blocks, c), m) == Image(blocks, Run(blocks, c, n))
    decreases n
  {
    hide WellFormed, NoCriticalEdge, ListsOk, PhisAtJoins, SingleAssignment, CopiesSafe, Image, LowerGraph, SuccsInRange, NeverStuckFrom;
    m := 0;
    if n > 0 {
      if c.At? {
        NeverStuckBelow(blocks, c);
        var m1 := LowerStep(blocks, nargs, c);
        var m2 := LowerForward(blocks, nargs, Step(blocks, c), n - 1);
        LoweredRunPlus(LowerGraph(blocks), Image(blocks, c), m1, m2);
        m := m1 + m2;
      } else {
        RunFinal(blocks, c, n);
      }
    }
  }

  lemma {:induction false} LowerBackward(blocks: seq<BasicBlock>, nargs: nat, c: Config, m: nat) returns (n: nat)
    requires Lowerable(blocks, nargs) && InCode(blocks, c) && NeverStuckFrom(blocks, c)
    requires !LoweredRun(LowerGraph(blocks), Image(blocks, c), m).At?
    ensures Run(blocks, c, n) == LoweredRun(LowerGraph(blocks), Image(blocks, c), m)
    decreases m
  {
    hide WellFormed, NoCriticalEdge, ListsOk, PhisAtJoins, SingleAssignment, CopiesSafe, LowerGraph, SuccsInRange, NeverStuckFrom, PosOf, LoweredStep;
    var prog := LowerGraph(blocks);
    n := 0;
    if c.At? {
      NeverStuckBelow(blocks, c);
      var k := LowerStep(blocks, nargs, c);
      var c1 := Step(blocks, c);
      if k <= m {
        LoweredRunPlus(prog, Image(blocks, c), k, m - k);
        var n1 := LowerBackward(blocks, nargs, c1, m - k);
        n := n1 + 1;
      } else {
        LoweredRunPlus(prog, Image(blocks, c), m, k - m);
        EndStays(prog, LoweredRun(prog, Image(blocks, c), m), k - m);
        n := 1;
        assert Run(blocks, c1, 0) == c1;
      }
    } else {
      EndStays(prog, c, m);
    }
  }

  // Code with copies and the graph have the same results, wherever the graph does
  // not get stuck, as no graph of a function does: they return the same values,
  // and the code gets stuck no more than the graph.
  lemma LoweringExact(blocks: seq<BasicBlock>, nargs: nat, args: seq<Word>, d: Config)
    requires Lowerable(blocks, nargs) && NeverStuck(blocks, args) && !d.At?
    ensures EndsIn(blocks, args, d) <==> LoweredEnds(blocks, args, d)
  {
    assert blocks[0].instrs[..0] == [];
    assert Image(blocks, Start(args)) == Start(args);
    assert NeverStuckFrom(blocks, Start(args));
    if n: nat :| Run(blocks, Start(args), n) == d {
      var m := LowerForward(blocks, nargs, Start(args), n);
    }
    if m: nat :| LoweredRun(LowerGraph(blocks), Start(args), m) == d {
      var n := LowerBackward(blocks, nargs, Start(args), m);
    }
  }

  ghost predicate LoweredEnds(blocks: seq<BasicBlock>, args: seq<Word>, d: Config)
    requires SuccsInRange(blocks)
  {
    exists m: nat :: LoweredRun(LowerGraph(blocks), Start(args), m) == d
  }
}
