// Replacing virtual by physical registers keeps what the code does.
module Allocation {
  import opened Ast
  import opened Coloring
  import opened Liveness
  import opened Machine
  import opened MachineRun

  // Code with what was found out about it.
  datatype Setting = Setting(
    registers: seq<Register>,
    blocks: seq<Block>,
    fixedVregs: set<nat>,
    colors: map<nat, nat>,
    ins: Sets,
    outs: Sets)

  // Where vregs are before allocation: the fixed ones are their registers.
  ghost function Homes(k: Setting): map<nat, nat> {
    map v | v in k.colors && v in k.fixedVregs :: k.colors[v]
  }

  function RecolorOperand(o: Operand, colors: map<nat, nat>): Operand {
    if o.Vreg? && o.v in colors then Preg(colors[o.v]) else o
  }

  function RecolorInstr(i: Instr, colors: map<nat, nat>): Instr {
    Instr(i.op, RecolorOperand(i.dst, colors), RecolorOperand(i.src, colors))
  }

  function RecolorBlock(b: Block, colors: map<nat, nat>): Block {
    b.(instrs := seq(|b.instrs|, i requires 0 <= i < |b.instrs| => RecolorInstr(b.instrs[i], colors)))
  }

  function Recolor(blocks: seq<Block>, colors: map<nat, nat>): seq<Block> {
    seq(|blocks|, b requires 0 <= b < |blocks| => RecolorBlock(blocks[b], colors))
  }

  // ----- What colouring guarantees -----

  ghost predicate SafeColors(k: Setting) {
    && Solves(k.blocks, k.ins, k.outs)
    && (forall p, x :: IsPoint(k.blocks, p) && Mentions(InstrAt(k.blocks, p), x) ==> x in k.colors)
    && (forall x :: x in k.colors ==> k.colors[x] < |k.registers|)
    && (forall x :: x in k.colors && x !in k.fixedVregs ==> !k.registers[k.colors[x]].reserved)
    && (forall p, x, y :: Clash(k.blocks, k.outs, p, x, y) ==> ClashOk(k, x, y))
    && (forall p, y :: LiveOverCall(k, p, y) && y !in k.fixedVregs ==> Survives(k, y))
  }

  ghost predicate ClashOk(k: Setting, x: nat, y: nat) {
    (x in k.fixedVregs && y in k.fixedVregs) || (x in k.colors && y in k.colors && k.colors[x] != k.colors[y])
  }

  ghost predicate LiveOverCall(k: Setting, p: Point, y: nat) {
    IsPoint(k.blocks, p) && InstrAt(k.blocks, p).op.CALL? && p in k.outs && y in k.outs[p]
  }

  // A call leaves the vreg's register as it is.
  ghost predicate Survives(k: Setting, y: nat) {
    y in k.colors && k.colors[y] < |k.registers| && !k.registers[k.colors[y]].callerSaved
  }

  // ----- What lowering guarantees -----

  ghost predicate WritesFixed(k: Setting, i: Instr, r: nat) {
    exists f :: f in Wrt(i) && f in k.fixedVregs && f in k.colors && k.colors[f] == r
  }

  // A free vreg is written that sits in register r, or may: it has no colour yet.
  ghost predicate WritesOver(k: Setting, i: Instr, r: nat) {
    exists x :: x in Wrt(i) && x !in k.fixedVregs && (x in k.colors ==> k.colors[x] == r)
  }

  // Register r was given its value above in the block, with no free vreg of
  // that colour written and no call made in between.
  ghost predicate Held(k: Setting, b: nat, idx: nat, r: nat)
    requires b < |k.blocks| && idx <= |k.blocks[b].instrs|
    decreases idx
  {
    idx > 0 &&
    var i := k.blocks[b].instrs[idx - 1];
    WritesFixed(k, i, r) || (Held(k, b, idx - 1, r) && !WritesOver(k, i, r) && !i.op.CALL?)
  }

  // So an argument moved to its register stays held up to the call, over the
  // other argument moves and the stores of stack arguments.
  lemma {:induction false} HeldSince(k: Setting, b: nat, from: nat, idx: nat, r: nat)
    requires b < |k.blocks| && from < idx <= |k.blocks[b].instrs|
    requires WritesFixed(k, k.blocks[b].instrs[from], r)
    requires forall m :: from < m < idx ==> !WritesOver(k, k.blocks[b].instrs[m], r) && !k.blocks[b].instrs[m].op.CALL?
    ensures Held(k, b, idx, r)
    decreases idx
  {
    if from + 1 < idx { HeldSince(k, b, from, idx - 1, r); }
  }

  ghost predicate Prepared(k: Setting, w: World) {
    Lowered(k, w) && forall p :: IsPoint(k.blocks, p) ==> CallsKeep(k, w, p)
  }

  // What holds of lowered code and of what spilling makes of it.
  ghost predicate Lowered(k: Setting, w: World) {
    && |k.blocks| > 0
    && IsReserved(k, w.rsp) && IsReserved(k, w.rbp)
    && w.rax < |k.registers| && k.registers[w.rax].callerSaved
    && (forall r :: 0 <= r < |k.registers| && k.registers[r].reserved ==> !k.registers[r].callerSaved)
    && (forall y :: Point(0, 0) in k.ins && y in k.ins[Point(0, 0)] ==> y in k.fixedVregs)
    && forall p :: IsPoint(k.blocks, p) ==> LoweredAt(k, w, p)
  }

  ghost predicate IsReserved(k: Setting, r: nat) { r < |k.registers| && k.registers[r].reserved }

  // Physical registers are named only if reserved; a fixed vreg live over a call
  // is the result or survives; jumps end blocks.
  ghost predicate LoweredAt(k: Setting, w: World, p: Point)
    requires IsPoint(k.blocks, p)
  {
    var i := InstrAt(k.blocks, p);
    && OperandOk(k, i.dst) && OperandOk(k, i.src) && (i.op.CALL? ==> i.dst.Sym?)
    && (forall f :: LiveOverCall(k, p, f) && f in k.fixedVregs && f in k.colors ==> (k.colors[f] == w.rax || Survives(k, f)))
    && (i.op.IsJump() ==> JumpOk(k.blocks, p, i))
  }

  // Arguments and results sit in their registers when a call or a return reads them.
  ghost predicate CallsKeep(k: Setting, w: World, p: Point)
    requires IsPoint(k.blocks, p)
  {
    var i := InstrAt(k.blocks, p);
    && (i.op.CALL? && i.dst.Sym? ==> forall r :: r in w.params(i.dst.id) ==> Held(k, p.block, p.idx, r))
    && (i.op.RET? ==> Held(k, p.block, p.idx, w.rax))
  }

  ghost predicate OperandOk(k: Setting, o: Operand) {
    match o
    case Preg(r) => IsReserved(k, r)
    case Mem(base, _) => IsReserved(k, base)
    case _ => true
  }

  // ----- The simulation -----

  // Registers that hold the same value in both runs.
  ghost predicate Shared(k: Setting, b: nat, idx: nat, r: nat)
    requires b < |k.blocks| && idx <= |k.blocks[b].instrs|
  {
    IsReserved(k, r) || Held(k, b, idx, r) || FixedLive(k, LiveAt(k.ins, b, idx), r)
  }

  ghost predicate FixedLive(k: Setting, live: set<nat>, r: nat) {
    exists f :: f in live && f in k.fixedVregs && f in k.colors && k.colors[f] == r
  }

  // The two runs agree on memory and flags, each live free vreg is in its
  // register, and shared registers agree.
  ghost predicate Sim(k: Setting, b: nat, idx: nat, s: State, s': State)
    requires b < |k.blocks| && idx <= |k.blocks[b].instrs|
  {
    && s.mem == s'.mem && s.frame == s'.frame && s.flags == s'.flags
    && (forall y :: y in LiveAt(k.ins, b, idx) && y !in k.fixedVregs ==> InItsRegister(k, s, s', y))
    && (forall r :: Shared(k, b, idx, r) ==> Get(s.regs, r) == Get(s'.regs, r))
  }

  ghost predicate InItsRegister(k: Setting, s: State, s': State, y: nat) {
    y in k.colors && Get(s.vregs, y) == Get(s'.regs, k.colors[y])
  }

  // ----- From one instruction to the one below -----

  lemma SharedBelow(k: Setting, b: nat, idx: nat, r: nat)
    requires SafeColors(k) && IsPoint(k.blocks, Point(b, idx)) && Shared(k, b, idx + 1, r)
    requires !k.blocks[b].instrs[idx].op.CALL? && !WritesFixed(k, k.blocks[b].instrs[idx], r)
    ensures Shared(k, b, idx, r)
  {
    hide Solves, LiveAt;
    if FixedLive(k, LiveAt(k.ins, b, idx + 1), r) {
      var f :| f in LiveAt(k.ins, b, idx + 1) && f in k.fixedVregs && f in k.colors && k.colors[f] == r;
      LiveBelow(k.blocks, k.ins, k.outs, b, idx, f);
    }
  }

  // An operand has the same value in both runs.
  lemma SameVal(k: Setting, w: World, b: nat, idx: nat, s: State, s': State, o: Operand)
    requires b < |k.blocks| && idx <= |k.blocks[b].instrs| && Sim(k, b, idx, s, s') && OperandOk(k, o)
    requires o.Vreg? ==> o.v in LiveAt(k.ins, b, idx) && o.v in k.colors
    ensures Val(w, Homes(k), s, o) == Val(w, map[], s', RecolorOperand(o, k.colors))
    ensures AddressOf(w, Homes(k), s, o) == AddressOf(w, map[], s', RecolorOperand(o, k.colors))
  {
    match o
    case Vreg(v) =>
      if v in k.fixedVregs {
        assert FixedLive(k, LiveAt(k.ins, b, idx), k.colors[v]);
        assert Shared(k, b, idx, k.colors[v]);
      } else {
        assert InItsRegister(k, s, s', v);
      }
    case Preg(r) => assert Shared(k, b, idx, r);
    case Mem(base, _) => assert Shared(k, b, idx, base);
    case _ =>
  }

  // An instruction that writes no register.
  lemma NothingWritten(k: Setting, b: nat, idx: nat, s: State, s': State)
    requires SafeColors(k) && IsPoint(k.blocks, Point(b, idx)) && Sim(k, b, idx, s, s')
    requires Wrt(k.blocks[b].instrs[idx]) == {} && !k.blocks[b].instrs[idx].op.CALL?
    ensures Sim(k, b, idx + 1, s, s')
  {
    hide Solves, LiveAt, Shared, Wrt, InItsRegister;
    forall y | y in LiveAt(k.ins, b, idx + 1) && y !in k.fixedVregs ensures InItsRegister(k, s, s', y) {
      LiveBelow(k.blocks, k.ins, k.outs, b, idx, y);
    }
    forall r | Shared(k, b, idx + 1, r) ensures Get(s.regs, r) == Get(s'.regs, r) {
      SharedBelow(k, b, idx, r);
    }
  }

  // The same value goes to a vreg that is live for the instruction's writes.
  lemma FreeWritten(k: Setting, b: nat, idx: nat, s: State, s': State, x: nat, v: Word)
    requires SafeColors(k) && IsPoint(k.blocks, Point(b, idx)) && Sim(k, b, idx, s, s')
    requires Wrt(k.blocks[b].instrs[idx]) == {x} && !k.blocks[b].instrs[idx].op.CALL? && x !in k.fixedVregs && x in k.colors
    ensures Sim(k, b, idx + 1, s.(vregs := s.vregs[x := v]), s'.(regs := s'.regs[k.colors[x] := v]))
  {
    hide LiveAt, Wrt, Solves;
    var t, t' := s.(vregs := s.vregs[x := v]), s'.(regs := s'.regs[k.colors[x] := v]);
    forall y | y in LiveAt(k.ins, b, idx + 1) && y !in k.fixedVregs ensures InItsRegister(k, t, t', y) {
      LiveBelow(k.blocks, k.ins, k.outs, b, idx, y);
      if y != x {
        assert InItsRegister(k, s, s', y);
        assert Clash(k.blocks, k.outs, Point(b, idx), x, y) && ClashOk(k, x, y);
      }
    }
    forall r | Shared(k, b, idx + 1, r) ensures Get(t.regs, r) == Get(t'.regs, r) {
      SharedBelow(k, b, idx, r);
      NotFreed(k, b, idx, x, r);
    }
  }

  lemma NotFreed(k: Setting, b: nat, idx: nat, x: nat, r: nat)
    requires SafeColors(k) && IsPoint(k.blocks, Point(b, idx)) && Shared(k, b, idx + 1, r)
    requires Wrt(k.blocks[b].instrs[idx]) == {x} && x !in k.fixedVregs && x in k.colors
    ensures r != k.colors[x]
  {
    hide LiveAt, Wrt, Solves;
    if FixedLive(k, LiveAt(k.ins, b, idx + 1), r) {
      var f :| f in LiveAt(k.ins, b, idx + 1) && f in k.fixedVregs && f in k.colors && k.colors[f] == r;
      LiveBelow(k.blocks, k.ins, k.outs, b, idx, f);
      assert Clash(k.blocks, k.outs, Point(b, idx), x, f) && ClashOk(k, x, f);
    }
    NotHeldIfWritten(k, b, idx, x);
  }

  lemma NotHeldIfWritten(k: Setting, b: nat, idx: nat, x: nat)
    requires IsPoint(k.blocks, Point(b, idx)) && Wrt(k.blocks[b].instrs[idx]) == {x} && x !in k.fixedVregs && x in k.colors
    ensures !Held(k, b, idx + 1, k.colors[x])
  {
    hide Wrt;
    assert x in Wrt(k.blocks[b].instrs[idx]);
    assert WritesOver(k, k.blocks[b].instrs[idx], k.colors[x]);
  }

  lemma FixedWritten(k: Setting, b: nat, idx: nat, s: State, s': State, f: nat, v: Word)
    requires SafeColors(k) && IsPoint(k.blocks, Point(b, idx)) && Sim(k, b, idx, s, s')
    requires Wrt(k.blocks[b].instrs[idx]) == {f} && !k.blocks[b].instrs[idx].op.CALL? && f in k.fixedVregs && f in k.colors
    ensures Sim(k, b, idx + 1, s.(regs := s.regs[k.colors[f] := v]), s'.(regs := s'.regs[k.colors[f] := v]))
  {
    hide LiveAt, Wrt, Solves, Shared;
    var t, t' := s.(regs := s.regs[k.colors[f] := v]), s'.(regs := s'.regs[k.colors[f] := v]);
    forall y | y in LiveAt(k.ins, b, idx + 1) && y !in k.fixedVregs ensures InItsRegister(k, t, t', y) {
      LiveBelow(k.blocks, k.ins, k.outs, b, idx, y);
      assert InItsRegister(k, s, s', y);
      assert Clash(k.blocks, k.outs, Point(b, idx), f, y) && ClashOk(k, f, y);
    }
    forall r | Shared(k, b, idx + 1, r) ensures Get(t.regs, r) == Get(t'.regs, r) {
      if r != k.colors[f] { SharedBelow(k, b, idx, r); }
    }
  }

  // A reserved register changes the same way in both runs.
  lemma ReservedWritten(k: Setting, b: nat, idx: nat, s: State, s': State, r: nat, v: Word)
    requires SafeColors(k) && b < |k.blocks| && idx <= |k.blocks[b].instrs| && Sim(k, b, idx, s, s') && IsReserved(k, r)
    ensures Sim(k, b, idx, s.(regs := s.regs[r := v]), s'.(regs := s'.regs[r := v]))
  {
    hide LiveAt, Solves, Shared;
    var t, t' := s.(regs := s.regs[r := v]), s'.(regs := s'.regs[r := v]);
    forall y | y in LiveAt(k.ins, b, idx) && y !in k.fixedVregs ensures InItsRegister(k, t, t', y) {
      assert InItsRegister(k, s, s', y);
    }
  }

  // The same value goes to the destination of an instruction.
  lemma Written(k: Setting, w: World, b: nat, idx: nat, s: State, s': State, v: Word)
    requires SafeColors(k) && IsPoint(k.blocks, Point(b, idx)) && Sim(k, b, idx, s, s')
    requires var i := k.blocks[b].instrs[idx]; OperandOk(k, i.dst) && Wrt(i) == VregOf(i.dst) && !i.op.CALL?
    ensures var o := k.blocks[b].instrs[idx].dst;
      Sim(k, b, idx + 1, Write(w, Homes(k), s, o, v), Write(w, map[], s', RecolorOperand(o, k.colors), v))
  {
    hide LiveAt, Wrt, Solves, Shared;
    var i := k.blocks[b].instrs[idx];
    match i.dst
    case Vreg(x) =>
      assert Mentions(InstrAt(k.blocks, Point(b, idx)), x);
      if x in k.fixedVregs {
        FixedWritten(k, b, idx, s, s', x, v);
      } else {
        FreeWritten(k, b, idx, s, s', x, v);
      }
    case Preg(r) =>
      ReservedWritten(k, b, idx, s, s', r, v);
      NothingWritten(k, b, idx, s.(regs := s.regs[r := v]), s'.(regs := s'.regs[r := v]));
    case Mem(base, _) =>
      NothingWritten(k, b, idx, s, s');
      assert Shared(k, b, idx, base) by { SharedIfReserved(k, b, idx, base); }
    case _ => NothingWritten(k, b, idx, s, s');
  }

  lemma SharedIfReserved(k: Setting, b: nat, idx: nat, r: nat)
    requires b < |k.blocks| && idx <= |k.blocks[b].instrs| && IsReserved(k, r)
    ensures Shared(k, b, idx, r)
  {
  }

  // ----- Calls -----

  lemma {:induction false} SameArguments(k: Setting, w: World, b: nat, idx: nat, s: State, s': State, params: seq<nat>)
    requires b < |k.blocks| && idx <= |k.blocks[b].instrs| && Sim(k, b, idx, s, s')
    requires forall r :: r in params ==> Held(k, b, idx, r)
    ensures seq(|params|, i requires 0 <= i < |params| => Get(s.regs, params[i]))
         == seq(|params|, i requires 0 <= i < |params| => Get(s'.regs, params[i]))
  {
    forall i | 0 <= i < |params| ensures Get(s.regs, params[i]) == Get(s'.regs, params[i]) {
      assert params[i] in params;
      assert Shared(k, b, idx, params[i]);
    }
  }

  // After a call: registers the callee may have destroyed are not looked at again.
  lemma CallKeepsSim(k: Setting, w: World, junk: Junk, junk': Junk, b: nat, idx: nat, s: State, s': State)
    requires SafeColors(k) && Prepared(k, w) && IsPoint(k.blocks, Point(b, idx)) && Sim(k, b, idx, s, s')
    requires k.blocks[b].instrs[idx].op.CALL? && k.blocks[b].instrs[idx].dst.Sym?
    ensures var f := k.blocks[b].instrs[idx].dst.id;
      Sim(k, b, idx + 1, AfterCall(k.registers, w, junk, s, f), AfterCall(k.registers, w, junk', s', f))
  {
    hide LiveAt, Solves, Shared;
    var p := Point(b, idx);
    var f := k.blocks[b].instrs[idx].dst.id;
    assert LoweredAt(k, w, p) && CallsKeep(k, w, p);
    SameArguments(k, w, b, idx, s, s', w.params(f));
    assert Shared(k, b, idx, w.rsp) by { SharedIfReserved(k, b, idx, w.rsp); }
    var t, t' := AfterCall(k.registers, w, junk, s, f), AfterCall(k.registers, w, junk', s', f);
    forall y | y in LiveAt(k.ins, b, idx + 1) && y !in k.fixedVregs ensures InItsRegister(k, t, t', y) {
      LiveBelow(k.blocks, k.ins, k.outs, b, idx, y);
      assert LiveOverCall(k, p, y) && Survives(k, y);
      assert InItsRegister(k, s, s', y);
    }
    forall r | Shared(k, b, idx + 1, r) ensures Get(t.regs, r) == Get(t'.regs, r) {
      SharedOverCall(k, w, b, idx, r);
    }
  }

  lemma SharedOverCall(k: Setting, w: World, b: nat, idx: nat, r: nat)
    requires SafeColors(k) && Prepared(k, w) && IsPoint(k.blocks, Point(b, idx)) && Shared(k, b, idx + 1, r)
    requires k.blocks[b].instrs[idx].op.CALL?
    ensures r == w.rax || (Shared(k, b, idx, r) && r < |k.registers| && !k.registers[r].callerSaved)
  {
    hide LiveAt, Solves;
    var p := Point(b, idx);
    assert !Held(k, b, idx + 1, r);
    assert LoweredAt(k, w, p) && CallsKeep(k, w, p);
    if FixedLive(k, LiveAt(k.ins, b, idx + 1), r) {
      var f :| f in LiveAt(k.ins, b, idx + 1) && f in k.fixedVregs && f in k.colors && k.colors[f] == r;
      LiveBelow(k.blocks, k.ins, k.outs, b, idx, f);
      assert LiveOverCall(k, p, f);
    }
  }

  // ----- One step -----

  lemma EffectKeepsSim(k: Setting, w: World, junk: Junk, junk': Junk, b: nat, idx: nat, s: State, s': State)
    requires SafeColors(k) && Prepared(k, w) && IsPoint(k.blocks, Point(b, idx)) && Sim(k, b, idx, s, s')
    ensures var i := k.blocks[b].instrs[idx];
      Sim(k, b, idx + 1, Effect(k.registers, w, Homes(k), junk, s, i), Effect(k.registers, w, map[], junk', s', RecolorInstr(i, k.colors)))
  {
    hide SafeColors, LiveAt, Solves, Shared, Prepared, Sim, Val, Write, AddressOf, AfterCall, InItsRegister;
    var i := k.blocks[b].instrs[idx];
    PreparedThere(k, w, b, idx);
    OperandsColored(k, b, idx);
    UseIsLive(k.blocks, k.ins, k.outs, b, idx);
    if i.op.CALL? {
      CallKeepsSim(k, w, junk, junk', b, idx, s, s');
    } else if i.op.PUSH? {
      SameVal(k, w, b, idx, s, s', i.src);
      PushKeepsSim(k, w, b, idx, s, s', Val(w, Homes(k), s, i.src));
    } else if i.op.POP? {
      PopKeepsSim(k, w, b, idx, s, s');
    } else if i.op.MOV? || i.op.LEA? {
      SameVal(k, w, b, idx, s, s', i.src);
      Written(k, w, b, idx, s, s', if i.op.MOV? then Val(w, Homes(k), s, i.src) else AddressOf(w, Homes(k), s, i.src));
    } else if i.op.CMP? || i.op.IsArith() {
      SameVal(k, w, b, idx, s, s', i.dst);
      SameVal(k, w, b, idx, s, s', i.src);
      ArithKeepsSim(k, w, b, idx, s, s', Val(w, Homes(k), s, i.dst), Val(w, Homes(k), s, i.src));
    } else {
      NothingWritten(k, b, idx, s, s');
    }
  }

  lemma OperandsColored(k: Setting, b: nat, idx: nat)
    requires SafeColors(k) && IsPoint(k.blocks, Point(b, idx))
    ensures Solves(k.blocks, k.ins, k.outs) && forall x :: Mentions(k.blocks[b].instrs[idx], x) ==> x in k.colors
  {
    hide Solves, Mentions;
    assert InstrAt(k.blocks, Point(b, idx)) == k.blocks[b].instrs[idx];
  }

  lemma PreparedThere(k: Setting, w: World, b: nat, idx: nat)
    requires Prepared(k, w) && IsPoint(k.blocks, Point(b, idx))
    ensures LoweredAt(k, w, Point(b, idx)) && CallsKeep(k, w, Point(b, idx)) && IsReserved(k, w.rsp)
  {
  }

  lemma ArithKeepsSim(k: Setting, w: World, b: nat, idx: nat, s: State, s': State, x: Word, y: Word)
    requires SafeColors(k) && IsPoint(k.blocks, Point(b, idx)) && Sim(k, b, idx, s, s')
    requires var i := k.blocks[b].instrs[idx]; OperandOk(k, i.dst) && (i.op.CMP? || i.op.IsArith())
    ensures var i := k.blocks[b].instrs[idx];
      var flags := Flags(i.op, x, y);
      && (i.op.CMP? ==> Sim(k, b, idx + 1, s.(flags := flags), s'.(flags := flags)))
      && (i.op.IsArith() ==> var v := w.arith(i.op, x, y);
            Sim(k, b, idx + 1, Write(w, Homes(k), s, i.dst, v).(flags := flags),
              Write(w, map[], s', RecolorOperand(i.dst, k.colors), v).(flags := flags)))
  {
    hide LiveAt, Solves, Shared, SafeColors, Write;
    var i := k.blocks[b].instrs[idx];
    if i.op.CMP? {
      NothingWritten(k, b, idx, s, s');
    } else {
      Written(k, w, b, idx, s, s', w.arith(i.op, x, y));
    }
  }

  lemma PushKeepsSim(k: Setting, w: World, b: nat, idx: nat, s: State, s': State, v: Word)
    requires SafeColors(k) && IsPoint(k.blocks, Point(b, idx)) && Sim(k, b, idx, s, s') && IsReserved(k, w.rsp)
    requires k.blocks[b].instrs[idx].op.PUSH?
    ensures var top := Wrap(Get(s.regs, w.rsp) - 8);
      && Get(s'.regs, w.rsp) == Get(s.regs, w.rsp)
      && Sim(k, b, idx + 1, s.(regs := s.regs[w.rsp := top], mem := s.mem[top := v]), s'.(regs := s'.regs[w.rsp := top], mem := s'.mem[top := v]))
  {
    hide LiveAt, Solves, Shared, SafeColors;
    assert Shared(k, b, idx, w.rsp) by { SharedIfReserved(k, b, idx, w.rsp); }
    var top := Wrap(Get(s.regs, w.rsp) - 8);
    NothingWritten(k, b, idx, s, s');
    ReservedWritten(k, b, idx + 1, s, s', w.rsp, top);
  }

  lemma PopKeepsSim(k: Setting, w: World, b: nat, idx: nat, s: State, s': State)
    requires SafeColors(k) && IsPoint(k.blocks, Point(b, idx)) && Sim(k, b, idx, s, s') && IsReserved(k, w.rsp)
    requires k.blocks[b].instrs[idx].op.POP? && OperandOk(k, k.blocks[b].instrs[idx].dst)
    ensures var v, top := Get(s.mem, Get(s.regs, w.rsp)), Wrap(Get(s.regs, w.rsp) + 8);
      var o := k.blocks[b].instrs[idx].dst;
      && Get(s'.regs, w.rsp) == Get(s.regs, w.rsp) && s.mem == s'.mem
      && Sim(k, b, idx + 1, Write(w, Homes(k), s.(regs := s.regs[w.rsp := top]), o, v),
           Write(w, map[], s'.(regs := s'.regs[w.rsp := top]), RecolorOperand(o, k.colors), v))
  {
    hide LiveAt, Solves, Shared, SafeColors, Write;
    assert Shared(k, b, idx, w.rsp) by { SharedIfReserved(k, b, idx, w.rsp); }
    var v, top := Get(s.mem, Get(s.regs, w.rsp)), Wrap(Get(s.regs, w.rsp) + 8);
    ReservedWritten(k, b, idx, s, s', w.rsp, top);
    Written(k, w, b, idx, s.(regs := s.regs[w.rsp := top]), s'.(regs := s'.regs[w.rsp := top]), v);
  }

  lemma JumpKeepsSim(k: Setting, b: nat, idx: nat, t: nat, s: State, s': State)
    requires SafeColors(k) && IsPoint(k.blocks, Point(b, idx)) && Sim(k, b, idx, s, s')
    requires t < |k.blocks| && b in k.blocks[t].preds && k.blocks[t].instrs != []
    requires forall m :: idx <= m < |k.blocks[b].instrs| ==> k.blocks[b].instrs[m].op.IsJump()
    ensures Sim(k, t, 0, s, s')
  {
    hide Solves, LiveAt;
    forall y | y in LiveAt(k.ins, t, 0) && y !in k.fixedVregs ensures InItsRegister(k, s, s', y) {
      LiveOverJump(k.blocks, k.ins, k.outs, b, idx, t, y);
    }
    forall r | Shared(k, t, 0, r) ensures Get(s.regs, r) == Get(s'.regs, r) {
      if FixedLive(k, LiveAt(k.ins, t, 0), r) {
        var f :| f in LiveAt(k.ins, t, 0) && f in k.fixedVregs && f in k.colors && k.colors[f] == r;
        LiveOverJump(k.blocks, k.ins, k.outs, b, idx, t, f);
        assert FixedLive(k, LiveAt(k.ins, b, idx), r);
      }
      assert Shared(k, b, idx, r);
    }
  }

  // Both runs are at the same instruction, or have ended with the same result and memory.
  ghost predicate SimConfig(k: Setting, c: Config, c': Config) {
    match c
    case At(b, idx, s) => c'.At? && c'.block == b && c'.idx == idx
      && b < |k.blocks| && idx <= |k.blocks[b].instrs| && Sim(k, b, idx, s, c'.state)
    case _ => c' == c
  }

  lemma StepKeepsSim(k: Setting, w: World, junk: Junk, junk': Junk, c: Config, c': Config)
    requires SafeColors(k) && Prepared(k, w) && SimConfig(k, c, c')
    ensures SimConfig(k, Step(k.registers, k.blocks, w, Homes(k), junk, c), Step(k.registers, Recolor(k.blocks, k.colors), w, map[], junk', c'))
  {
    hide SafeColors, Prepared, LiveAt, Effect, Shared;
    if c.At? && IsPoint(k.blocks, Point(c.block, c.idx)) {
      var b, idx := c.block, c.idx;
      var i := k.blocks[b].instrs[idx];
      PreparedThere(k, w, b, idx);
      if i.op.RET? {
        assert Shared(k, b, idx, w.rax) by { SharedIfHeld(k, b, idx, w.rax); }
      } else if i.op.IsJump() {
        JumpKeepsSim(k, b, idx, i.dst.id, c.state, c'.state);
        EffectKeepsSim(k, w, junk, junk', b, idx, c.state, c'.state);
      } else {
        EffectKeepsSim(k, w, junk, junk', b, idx, c.state, c'.state);
      }
    }
  }

  lemma {:induction false} SharedIfHeld(k: Setting, b: nat, idx: nat, r: nat)
    requires b < |k.blocks| && idx <= |k.blocks[b].instrs| && Held(k, b, idx, r)
    ensures Shared(k, b, idx, r)
  {
  }

  // After any number of steps, whatever calls leave in the registers they may
  // destroy, the two runs still correspond.
  lemma {:induction false} RunKeepsSim(k: Setting, w: World, junk: Junk, junk': Junk, c: Config, c': Config, n: nat)
    requires SafeColors(k) && Prepared(k, w) && SimConfig(k, c, c')
    ensures SimConfig(k, Run(k.registers, k.blocks, w, Homes(k), junk, c, n), Run(k.registers, Recolor(k.blocks, k.colors), w, map[], junk', c', n))
    decreases n
  {
    hide SafeColors, Prepared, Step, SimConfig;
    if n > 0 {
      StepKeepsSim(k, w, junk, junk', c, c');
      RunKeepsSim(k, w, junk, junk', Step(k.registers, k.blocks, w, Homes(k), junk, c),
        Step(k.registers, Recolor(k.blocks, k.colors), w, map[], junk', c'), n - 1);
    }
  }

  lemma StartsSim(k: Setting, w: World, s: State)
    requires SafeColors(k) && Prepared(k, w)
    ensures SimConfig(k, At(0, 0, s), At(0, 0, s))
  {
  }
}
