// Inserted loads and stores keep what the code does.
module SpillingCorrect {
  import opened Ast
  import opened Liveness
  import opened Machine
  import opened MachineRun
  import opened Ordered
  import opened Spilling

  // ----- What the code must be like -----

  // No block's last instruction reads or writes a spilled vreg, none is read
  // before it is written, the code does not use the new slots, and jumps end blocks.
  ghost predicate Spillable(k: Spills, w: World) {
    && |k.blocks| > 0 && w.rbp == k.rbp
    && Solves(k.blocks, k.ins, k.outs)
    && SpilledOk(k)
    && (forall x :: x in k.spilled ==> x !in LiveAt(k.ins, 0, 0))
    && (forall p :: IsPoint(k.blocks, p) ==> SpillableAt(k, p))
  }

  ghost predicate SpilledOk(k: Spills) {
    && Increasing(k.spilled)
    && (forall x :: x in k.spilled ==> x !in k.homes && x in k.slot && k.slot[x] < 0)
    && (forall x, y :: x in k.spilled && y in k.spilled && x != y && x in k.slot && y in k.slot ==> k.slot[x] != k.slot[y])
  }

  ghost predicate SpillableAt(k: Spills, p: Point)
    requires IsPoint(k.blocks, p)
  {
    var i := InstrAt(k.blocks, p);
    && (p.idx == |k.blocks[p.block].instrs| - 1 ==> forall x :: x in k.spilled ==> !Touches(i, x))
    && OffSlots(k, i.dst) && OffSlots(k, i.src)
    && (i.op.IsJump() ==> JumpOk(k.blocks, p, i))
  }

  ghost predicate OffSlots(k: Spills, o: Operand) {
    o.Mem? && o.base == k.rbp ==> !IsSlot(k, o.offset)
  }

  ghost predicate IsSlot(k: Spills, offset: int) {
    exists x :: x in k.spilled && x in k.slot && k.slot[x] == offset
  }

  // ----- The relation -----

  // All but spilled vregs and their slots is the same.
  ghost predicate Core(k: Spills, s: State, s': State) {
    && s'.regs == s.regs && s'.mem == s.mem && s'.flags == s.flags && s'.calls == s.calls
    && (forall offset :: !IsSlot(k, offset) ==> Get(s.frame, offset) == Get(s'.frame, offset))
    && (forall y :: y !in k.spilled ==> Get(s.vregs, y) == Get(s'.vregs, y))
  }

  ghost predicate InReg(s: State, s': State, x: nat) { Get(s'.vregs, x) == Get(s.vregs, x) }

  ghost predicate InSlot(k: Spills, s: State, s': State, x: nat) {
    x in k.slot && Get(s'.frame, k.slot[x]) == Get(s.vregs, x)
  }

  // The instruction above touched x.
  ghost predicate TouchedAbove(k: Spills, b: nat, idx: nat, x: nat)
    requires b < |k.blocks| && idx <= |k.blocks[b].instrs|
  {
    idx > 0 && Touches(k.blocks[b].instrs[idx - 1], x)
  }

  // The instruction above wrote x and this one overwrites it.
  ghost predicate Overwritten(k: Spills, b: nat, idx: nat, x: nat)
    requires b < |k.blocks| && idx <= |k.blocks[b].instrs|
  {
    0 < idx < |k.blocks[b].instrs| && x in Wrt(k.blocks[b].instrs[idx - 1]) && x in Wrt(k.blocks[b].instrs[idx])
  }

  // A spilled vreg that is live is in its slot, unless it is about to be
  // overwritten, and still in the vreg if the instruction above touched it.
  ghost predicate Backed(k: Spills, b: nat, idx: nat, s: State, s': State, x: nat)
    requires b < |k.blocks| && idx <= |k.blocks[b].instrs|
  {
    && (InSlot(k, s, s', x) || Overwritten(k, b, idx, x))
    && (TouchedAbove(k, b, idx, x) ==> InReg(s, s', x))
  }

  ghost predicate SpillSim(k: Spills, b: nat, idx: nat, s: State, s': State)
    requires b < |k.blocks| && idx <= |k.blocks[b].instrs|
  {
    Core(k, s, s') && forall x :: x in k.spilled && x in LiveAt(k.ins, b, idx) ==> Backed(k, b, idx, s, s', x)
  }

  // ----- Loads -----

  // Where a load is needed the slot is up to date, and where none is the vreg is.
  lemma LoadsEnough(k: Spills, w: World, b: nat, idx: nat, s: State, s': State, x: nat)
    requires Spillable(k, w) && IsPoint(k.blocks, Point(b, idx)) && SpillSim(k, b, idx, s, s')
    requires x in k.spilled && x in Use(k.blocks[b].instrs[idx])
    ensures if NeedsLoad(k.blocks, Point(b, idx), x) then InSlot(k, s, s', x) else InReg(s, s', x)
  {
    hide Use, Wrt, SpilledOk, Core, Solves, InSlot, InReg;
    UseIsLive(k.blocks, k.ins, k.outs, b, idx);
    assert Backed(k, b, idx, s, s', x);
    var p := Point(b, idx);
    if idx > 0 {
      OneWayIn(k.blocks, p);
      assert Reaches(k.blocks, Point(b, idx - 1), p);
    } else {
      forall q | Reaches(k.blocks, q, p) ensures !Touches(InstrAt(k.blocks, q), x) {
        LastReaches(k.blocks, q, p);
        assert SpillableAt(k, q);
      }
    }
  }

  // Inside a block only the instruction above comes before.
  lemma OneWayIn(blocks: seq<Block>, p: Point)
    requires IsPoint(blocks, p) && p.idx > 0
    ensures forall q :: Reaches(blocks, q, p) <==> q == Point(p.block, p.idx - 1)
  {
  }

  // The first of a block is reached only from last instructions.
  lemma LastReaches(blocks: seq<Block>, q: Point, p: Point)
    requires Reaches(blocks, q, p) && p.idx == 0
    ensures q.idx == |blocks[q.block].instrs| - 1
  {
  }

  // The loads of vregs xs have run.
  ghost function Loaded(k: Spills, p: Point, xs: seq<nat>, s': State): State {
    if xs == [] then s'
    else
      var n := |xs| - 1;
      var t := Loaded(k, p, xs[..n], s');
      if NeedsLoad(k.blocks, p, xs[n]) && xs[n] in k.slot then t.(vregs := t.vregs[xs[n] := Get(t.frame, k.slot[xs[n]])]) else t
  }

  lemma {:induction false} LoadedVregs(k: Spills, p: Point, xs: seq<nat>, s': State)
    requires forall x :: x in xs ==> x in k.slot
    ensures Loaded(k, p, xs, s') == s'.(vregs := Loaded(k, p, xs, s').vregs)
    ensures forall y :: Get(Loaded(k, p, xs, s').vregs, y) ==
                        if y in xs && NeedsLoad(k.blocks, p, y) && y in k.slot then Get(s'.frame, k.slot[y]) else Get(s'.vregs, y)
  {
    hide NeedsLoad;
    if xs != [] {
      var n := |xs| - 1;
      LoadedVregs(k, p, xs[..n], s');
      assert xs == xs[..n] + [xs[n]];
    }
  }

  lemma {:induction false} LoadsRun(k: Spills, w: World, junk: Junk, prog: seq<Block>, b: nat, pos: nat, p: Point, xs: seq<nat>, s': State)
    requires w.rbp == k.rbp && forall x :: x in xs ==> x !in k.homes && x in k.slot && k.slot[x] < 0
    requires b < |prog| && pos + |Loads(k, p, xs)| <= |prog[b].instrs|
    requires prog[b].instrs[pos..pos + |Loads(k, p, xs)|] == Loads(k, p, xs)
    ensures Run(k.registers, prog, w, k.homes, junk, At(b, pos, s'), |Loads(k, p, xs)|) == At(b, pos + |Loads(k, p, xs)|, Loaded(k, p, xs, s'))
  {
    hide NeedsLoad, Step;
    if xs != [] {
      var n := |xs| - 1;
      var init, all := Loads(k, p, xs[..n]), Loads(k, p, xs);
      assert init <= all;
      assert prog[b].instrs[pos..pos + |init|] == prog[b].instrs[pos..pos + |all|][..|init|];
      LoadsRun(k, w, junk, prog, b, pos, p, xs[..n], s');
      if NeedsLoad(k.blocks, p, xs[n]) {
        assert prog[b].instrs[pos + |init|] == prog[b].instrs[pos..pos + |all|][|init|] == LoadOf(k, xs[n]);
        LoadStep(k, w, junk, prog, b, pos + |init|, xs[n], Loaded(k, p, xs[..n], s'));
        RunPlus(k.registers, prog, w, k.homes, junk, At(b, pos, s'), |init|, 1);
      }
    }
  }

  lemma {:induction false} LoadStep(k: Spills, w: World, junk: Junk, prog: seq<Block>, b: nat, pos: nat, x: nat, s': State)
    requires w.rbp == k.rbp && x !in k.homes && x in k.slot && k.slot[x] < 0
    requires b < |prog| && pos < |prog[b].instrs| && prog[b].instrs[pos] == LoadOf(k, x)
    ensures Run(k.registers, prog, w, k.homes, junk, At(b, pos, s'), 1)
      == At(b, pos + 1, s'.(vregs := s'.vregs[x := Get(s'.frame, k.slot[x])]))
  {
    OneStep(k.registers, prog, w, k.homes, junk, At(b, pos, s'));
  }

  lemma {:induction false} OneStep(registers: seq<Register>, prog: seq<Block>, w: World, homes: map<nat, nat>, junk: Junk, c: Config)
    ensures Run(registers, prog, w, homes, junk, c, 1) == Step(registers, prog, w, homes, junk, c)
  {
    assert Run(registers, prog, w, homes, junk, c, 1) == Run(registers, prog, w, homes, junk, Step(registers, prog, w, homes, junk, c), 0);
  }

  // After the loads the instruction finds in the vregs all it reads.
  lemma {:induction false} LoadsReady(k: Spills, w: World, b: nat, idx: nat, s: State, s': State)
    requires Spillable(k, w) && IsPoint(k.blocks, Point(b, idx)) && SpillSim(k, b, idx, s, s')
    ensures var t' := Loaded(k, Point(b, idx), k.spilled, s');
      && Core(k, s, t')
      && (forall x :: x in k.spilled && x in Use(k.blocks[b].instrs[idx]) ==> InReg(s, t', x))
      && (forall x :: x in k.spilled && InSlot(k, s, s', x) ==> InSlot(k, s, t', x))
  {
    hide Use, Wrt, Solves, NeedsLoad, LiveAt, Backed;
    LoadedVregs(k, Point(b, idx), k.spilled, s');
    forall x | x in k.spilled && x in Use(k.blocks[b].instrs[idx])
      ensures InReg(s, Loaded(k, Point(b, idx), k.spilled, s'), x)
    {
      LoadsEnough(k, w, b, idx, s, s', x);
    }
  }

  // ----- The instruction -----

  lemma SameVal(k: Spills, w: World, s: State, s': State, o: Operand)
    requires w.rbp == k.rbp && Core(k, s, s') && OffSlots(k, o)
    requires o.Vreg? && o.v in k.spilled ==> InReg(s, s', o.v)
    ensures Val(w, k.homes, s, o) == Val(w, k.homes, s', o)
    ensures AddressOf(w, k.homes, s, o) == AddressOf(w, k.homes, s', o)
  {
  }

  // What the effect of an instruction keeps: the vreg it writes has its value,
  // and the others are as they were.
  ghost predicate Follows(k: Spills, i: Instr, s: State, s': State, t: State, t': State) {
    && Core(k, t, t')
    && forall x :: x in k.spilled ==>
        && (x in Wrt(i) ==> InReg(t, t', x))
        && (x !in Wrt(i) && InSlot(k, s, s', x) ==> InSlot(k, t, t', x))
        && (x !in Wrt(i) && InReg(s, s', x) ==> InReg(t, t', x))
  }

  lemma WriteFollows(k: Spills, w: World, i: Instr, s: State, s': State, v: Word)
    requires w.rbp == k.rbp && SpilledOk(k) && Core(k, s, s') && OffSlots(k, i.dst) && Wrt(i) == VregOf(i.dst)
    ensures Follows(k, i, s, s', Write(w, k.homes, s, i.dst, v), Write(w, k.homes, s', i.dst, v))
  {
    hide Wrt, Core, InReg, InSlot, Follows, Write, SpilledOk;
    if i.dst.Vreg? {
      VregFollows(k, w, i, s, s', v);
    } else if i.dst.Mem? && InFrame(w, i.dst.base, i.dst.offset) {
      FrameFollows(k, w, i, s, s', v);
    } else {
      OtherFollows(k, w, i, s, s', v);
    }
  }

  lemma VregFollows(k: Spills, w: World, i: Instr, s: State, s': State, v: Word)
    requires SpilledOk(k) && Core(k, s, s') && Wrt(i) == VregOf(i.dst) && i.dst.Vreg?
    ensures Follows(k, i, s, s', Write(w, k.homes, s, i.dst, v), Write(w, k.homes, s', i.dst, v))
  {
    hide Wrt, IsSlot;
  }

  lemma FrameFollows(k: Spills, w: World, i: Instr, s: State, s': State, v: Word)
    requires w.rbp == k.rbp && SpilledOk(k) && Core(k, s, s') && OffSlots(k, i.dst) && Wrt(i) == VregOf(i.dst)
    requires i.dst.Mem? && InFrame(w, i.dst.base, i.dst.offset)
    ensures Follows(k, i, s, s', Write(w, k.homes, s, i.dst, v), Write(w, k.homes, s', i.dst, v))
  {
    hide Wrt, IsSlot, Increasing;
    forall x | x in k.spilled && x in k.slot ensures k.slot[x] != i.dst.offset { SlotIsSlot(k, x); }
  }

  lemma SlotIsSlot(k: Spills, x: nat)
    requires x in k.spilled && x in k.slot
    ensures IsSlot(k, k.slot[x])
  {
  }

  lemma OtherFollows(k: Spills, w: World, i: Instr, s: State, s': State, v: Word)
    requires Core(k, s, s') && Wrt(i) == VregOf(i.dst) && !i.dst.Vreg? && !(i.dst.Mem? && InFrame(w, i.dst.base, i.dst.offset))
    ensures Follows(k, i, s, s', Write(w, k.homes, s, i.dst, v), Write(w, k.homes, s', i.dst, v))
  {
    hide Wrt, IsSlot;
  }

  lemma EffectFollows(k: Spills, w: World, junk: Junk, i: Instr, s: State, s': State)
    requires w.rbp == k.rbp && SpilledOk(k) && Core(k, s, s') && OffSlots(k, i.dst) && OffSlots(k, i.src)
    requires forall x :: x in k.spilled && x in Use(i) ==> InReg(s, s', x)
    ensures Follows(k, i, s, s', Effect(k.registers, w, k.homes, junk, s, i), Effect(k.registers, w, k.homes, junk, s', i))
  {
    hide Write, Val, AddressOf, SpilledOk, OffSlots, InReg, InSlot, IsSlot;
    if i.op.MOV? || i.op.LEA? {
      SameVal(k, w, s, s', i.src);
      WriteFollows(k, w, i, s, s', if i.op.MOV? then Val(w, k.homes, s, i.src) else AddressOf(w, k.homes, s, i.src));
    } else if i.op.IsArith() || i.op.CMP? {
      SameVal(k, w, s, s', i.src);
      SameVal(k, w, s, s', i.dst);
      ArithFollows(k, w, i, s, s', Val(w, k.homes, s, i.dst), Val(w, k.homes, s, i.src));
    } else if i.op.PUSH? {
      SameVal(k, w, s, s', i.src);
      StackFollows(k, w, i, s, s', Val(w, k.homes, s, i.src));
    } else if i.op.POP? {
      StackFollows(k, w, i, s, s', 0);
    } else {
      NothingFollows(k, w, junk, i, s, s');
    }
  }

  lemma NothingFollows(k: Spills, w: World, junk: Junk, i: Instr, s: State, s': State)
    requires Core(k, s, s') && !i.op.MOV? && !i.op.LEA? && !i.op.CMP? && !i.op.PUSH? && !i.op.POP? && !i.op.IsArith()
    ensures Follows(k, i, s, s', Effect(k.registers, w, k.homes, junk, s, i), Effect(k.registers, w, k.homes, junk, s', i))
  {
  }

  lemma ArithFollows(k: Spills, w: World, i: Instr, s: State, s': State, x: Word, y: Word)
    requires w.rbp == k.rbp && SpilledOk(k) && Core(k, s, s') && OffSlots(k, i.dst) && (i.op.CMP? || i.op.IsArith())
    ensures var flags := Flags(i.op, x, y);
      && (i.op.CMP? ==> Follows(k, i, s, s', s.(flags := flags), s'.(flags := flags)))
      && (i.op.IsArith() ==> Follows(k, i, s, s', Write(w, k.homes, s, i.dst, w.arith(i.op, x, y)).(flags := flags),
                               Write(w, k.homes, s', i.dst, w.arith(i.op, x, y)).(flags := flags)))
  {
    hide Write, SpilledOk, OffSlots, IsSlot;
    if i.op.IsArith() { WriteFollows(k, w, i, s, s', w.arith(i.op, x, y)); }
  }

  lemma StackFollows(k: Spills, w: World, i: Instr, s: State, s': State, v: Word)
    requires w.rbp == k.rbp && SpilledOk(k) && Core(k, s, s') && OffSlots(k, i.dst)
    ensures var top := Wrap(Get(s.regs, w.rsp) - 8);
      i.op.PUSH? ==> Follows(k, i, s, s', s.(regs := s.regs[w.rsp := top], mem := s.mem[top := v]),
                       s'.(regs := s'.regs[w.rsp := top], mem := s'.mem[top := v]))
    ensures var u, top := Get(s.mem, Get(s.regs, w.rsp)), Wrap(Get(s.regs, w.rsp) + 8);
      i.op.POP? ==> Follows(k, i, s, s', Write(w, k.homes, s.(regs := s.regs[w.rsp := top]), i.dst, u),
                      Write(w, k.homes, s'.(regs := s'.regs[w.rsp := top]), i.dst, u))
  {
    hide Write, SpilledOk, OffSlots, IsSlot;
    if i.op.POP? {
      var u, top := Get(s.mem, Get(s.regs, w.rsp)), Wrap(Get(s.regs, w.rsp) + 8);
      WriteFollows(k, w, i, s.(regs := s.regs[w.rsp := top]), s'.(regs := s'.regs[w.rsp := top]), u);
    }
  }

  // ----- Stores -----

  // The stores of vregs xs have run.
  ghost function Stored(k: Spills, p: Point, xs: seq<nat>, t': State): State {
    if xs == [] then t'
    else
      var n := |xs| - 1;
      var u := Stored(k, p, xs[..n], t');
      if NeedsStore(k.blocks, p, xs[n]) && xs[n] in k.slot then u.(frame := u.frame[k.slot[xs[n]] := Get(u.vregs, xs[n])]) else u
  }

  lemma {:induction false} StoredFrame(k: Spills, p: Point, xs: seq<nat>, t': State)
    requires SpilledOk(k) && xs <= k.spilled
    ensures var u' := Stored(k, p, xs, t');
      && u' == t'.(frame := u'.frame)
      && (forall offset :: !IsSlot(k, offset) ==> Get(u'.frame, offset) == Get(t'.frame, offset))
      && (forall x :: x in k.spilled && x in k.slot ==>
            Get(u'.frame, k.slot[x]) == if x in xs && NeedsStore(k.blocks, p, x) then Get(t'.vregs, x) else Get(t'.frame, k.slot[x]))
  {
    hide NeedsStore, IsSlot, Increasing;
    if xs != [] {
      var n := |xs| - 1;
      assert xs[..n] <= k.spilled && xs[n] == k.spilled[n];
      StoredFrame(k, p, xs[..n], t');
      assert xs == xs[..n] + [xs[n]];
      SlotIsSlot(k, xs[n]);
    }
  }

  lemma {:induction false} StoresRun(k: Spills, w: World, junk: Junk, prog: seq<Block>, b: nat, pos: nat, p: Point, xs: seq<nat>, t': State)
    requires w.rbp == k.rbp && forall x :: x in xs ==> x !in k.homes && x in k.slot && k.slot[x] < 0
    requires b < |prog| && pos + |Stores(k, p, xs)| <= |prog[b].instrs|
    requires prog[b].instrs[pos..pos + |Stores(k, p, xs)|] == Stores(k, p, xs)
    ensures Run(k.registers, prog, w, k.homes, junk, At(b, pos, t'), |Stores(k, p, xs)|) == At(b, pos + |Stores(k, p, xs)|, Stored(k, p, xs, t'))
  {
    hide NeedsStore, Step;
    if xs != [] {
      var n := |xs| - 1;
      var init, all := Stores(k, p, xs[..n]), Stores(k, p, xs);
      assert init <= all;
      assert prog[b].instrs[pos..pos + |init|] == prog[b].instrs[pos..pos + |all|][..|init|];
      StoresRun(k, w, junk, prog, b, pos, p, xs[..n], t');
      if NeedsStore(k.blocks, p, xs[n]) {
        assert prog[b].instrs[pos + |init|] == prog[b].instrs[pos..pos + |all|][|init|] == StoreOf(k, xs[n]);
        StoreStep(k, w, junk, prog, b, pos + |init|, xs[n], Stored(k, p, xs[..n], t'));
        RunPlus(k.registers, prog, w, k.homes, junk, At(b, pos, t'), |init|, 1);
      }
    }
  }

  lemma {:induction false} StoreStep(k: Spills, w: World, junk: Junk, prog: seq<Block>, b: nat, pos: nat, x: nat, t': State)
    requires w.rbp == k.rbp && x !in k.homes && x in k.slot && k.slot[x] < 0
    requires b < |prog| && pos < |prog[b].instrs| && prog[b].instrs[pos] == StoreOf(k, x)
    ensures Run(k.registers, prog, w, k.homes, junk, At(b, pos, t'), 1)
      == At(b, pos + 1, t'.(frame := t'.frame[k.slot[x] := Get(t'.vregs, x)]))
  {
    OneStep(k.registers, prog, w, k.homes, junk, At(b, pos, t'));
  }

  // A store is left out only if the instruction below overwrites the vreg.
  lemma StoresEnough(k: Spills, w: World, b: nat, idx: nat, x: nat)
    requires Spillable(k, w) && IsPoint(k.blocks, Point(b, idx)) && x in k.spilled
    requires x in Wrt(k.blocks[b].instrs[idx]) && !NeedsStore(k.blocks, Point(b, idx), x)
    ensures Overwritten(k, b, idx + 1, x)
  {
    hide Use, Wrt, Solves, SpilledOk;
    var p := Point(b, idx);
    assert SpillableAt(k, p) && Touches(InstrAt(k.blocks, p), x);
    assert Point(b, idx + 1) in Next(k.blocks, p);
    assert Reaches(k.blocks, p, Point(b, idx + 1));
  }

  // With its loads and stores an instruction keeps the relation.
  lemma {:induction false} EffectKeepsSim(k: Spills, w: World, junk: Junk, b: nat, idx: nat, s: State, s': State)
    requires Spillable(k, w) && IsPoint(k.blocks, Point(b, idx)) && SpillSim(k, b, idx, s, s')
    ensures var i, p := k.blocks[b].instrs[idx], Point(b, idx);
      var t' := Effect(k.registers, w, k.homes, junk, Loaded(k, p, k.spilled, s'), i);
      SpillSim(k, b, idx + 1, Effect(k.registers, w, k.homes, junk, s, i), Stored(k, p, k.spilled, t'))
  {
    hide Use, Wrt, Solves, LiveAt, Effect, NeedsStore, NeedsLoad, Core, Overwritten, SpillableAt, SpilledOk;
    var i, p := k.blocks[b].instrs[idx], Point(b, idx);
    var l' := Loaded(k, p, k.spilled, s');
    var t, t' := Effect(k.registers, w, k.homes, junk, s, i), Effect(k.registers, w, k.homes, junk, l', i);
    var u' := Stored(k, p, k.spilled, t');
    LoadsReady(k, w, b, idx, s, s');
    assert OffSlots(k, i.dst) && OffSlots(k, i.src) by { assert SpillableAt(k, p); OperandsOffSlots(k, p); }
    EffectFollows(k, w, junk, i, s, l');
    StoredFrame(k, p, k.spilled, t');
    assert Core(k, t, u') by { StoredCore(k, t, t', u'); }
    forall x | x in k.spilled && x in LiveAt(k.ins, b, idx + 1) ensures Backed(k, b, idx + 1, t, u', x) {
      if x in Wrt(i) {
        if !NeedsStore(k.blocks, p, x) { StoresEnough(k, w, b, idx, x); }
        SlotThere(k, x);
      } else {
        LiveBelow(k.blocks, k.ins, k.outs, b, idx, x);
        assert Backed(k, b, idx, s, s', x);
        NotOverwritten(k, b, idx, x);
        NoStoreUnlessWritten(k, p, x);
        SlotThere(k, x);
      }
    }
  }

  lemma OperandsOffSlots(k: Spills, p: Point)
    requires IsPoint(k.blocks, p) && SpillableAt(k, p)
    ensures OffSlots(k, InstrAt(k.blocks, p).dst) && OffSlots(k, InstrAt(k.blocks, p).src)
  {
  }

  lemma StoredCore(k: Spills, t: State, t': State, u': State)
    requires Core(k, t, t') && u' == t'.(frame := u'.frame)
    requires forall offset :: !IsSlot(k, offset) ==> Get(u'.frame, offset) == Get(t'.frame, offset)
    ensures Core(k, t, u')
  {
  }

  lemma SlotThere(k: Spills, x: nat)
    requires SpilledOk(k) && x in k.spilled
    ensures x in k.slot
  {
  }

  lemma NotOverwritten(k: Spills, b: nat, idx: nat, x: nat)
    requires IsPoint(k.blocks, Point(b, idx)) && x !in Wrt(k.blocks[b].instrs[idx])
    ensures !Overwritten(k, b, idx, x)
  {
  }

  lemma NoStoreUnlessWritten(k: Spills, p: Point, x: nat)
    requires IsPoint(k.blocks, p) && x !in Wrt(InstrAt(k.blocks, p))
    ensures !NeedsStore(k.blocks, p, x)
  {
  }

  // ----- Positions -----

  lemma ExpandAt(k: Spills, b: nat, idx: nat)
    requires IsPoint(k.blocks, Point(b, idx))
    ensures var p := Point(b, idx);
      var code := Expand(k, b, |k.blocks[b].instrs|);
      var pos, l, st := |Expand(k, b, idx)|, Loads(k, p, k.spilled), Stores(k, p, k.spilled);
      && |Expand(k, b, idx + 1)| == pos + |l| + 1 + |st| <= |code|
      && code[pos..pos + |l|] == l && code[pos + |l|] == k.blocks[b].instrs[idx]
      && code[pos + |l| + 1..pos + |l| + 1 + |st|] == st
  {
    hide Loads, Stores;
    var p := Point(b, idx);
    var pos, l, st := |Expand(k, b, idx)|, Loads(k, p, k.spilled), Stores(k, p, k.spilled);
    ExpandPrefix(k, b, idx + 1, |k.blocks[b].instrs|);
    var head := Expand(k, b, idx + 1);
    assert head == Expand(k, b, idx) + l + [k.blocks[b].instrs[idx]] + st;
    assert head[pos..pos + |l|] == l && head[pos + |l|] == k.blocks[b].instrs[idx];
    assert head[pos + |l| + 1..] == st;
  }

  // ----- One step -----

  ghost predicate SpillConfig(k: Spills, c: Config, c': Config) {
    match c
    case At(b, idx, s) => b < |k.blocks| && idx <= |k.blocks[b].instrs|
      && c'.At? && c'.block == b && c'.idx == |Expand(k, b, idx)| && SpillSim(k, b, idx, s, c'.state)
    case _ => c' == c
  }

  // An instruction that neither jumps nor returns just takes effect.
  lemma {:induction false} OneEffect(registers: seq<Register>, prog: seq<Block>, w: World, homes: map<nat, nat>, junk: Junk, b: nat, pc: nat, s: State)
    requires b < |prog| && pc < |prog[b].instrs|
    requires var i := prog[b].instrs[pc]; !i.op.RET? && !i.op.JMP? && !(i.op.IsCondJump() && w.taken(i.op, s.flags))
    ensures Run(registers, prog, w, homes, junk, At(b, pc, s), 1) == At(b, pc + 1, Effect(registers, w, homes, junk, s, prog[b].instrs[pc]))
  {
    hide Effect;
    OneStep(registers, prog, w, homes, junk, At(b, pc, s));
  }

  // An instruction that does not branch is matched by its loads, itself and its stores.
  lemma PlainStep(k: Spills, w: World, junk: Junk, b: nat, idx: nat, s': State)
    requires Spillable(k, w) && IsPoint(k.blocks, Point(b, idx))
    requires var i := k.blocks[b].instrs[idx]; !i.op.RET? && !i.op.JMP? && !(i.op.IsCondJump() && w.taken(i.op, s'.flags))
    ensures var p := Point(b, idx);
      var n := |Loads(k, p, k.spilled)| + 1 + |Stores(k, p, k.spilled)|;
      var t' := Effect(k.registers, w, k.homes, junk, Loaded(k, p, k.spilled, s'), k.blocks[b].instrs[idx]);
      Run(k.registers, Inserted(k), w, k.homes, junk, At(b, |Expand(k, b, idx)|, s'), n)
        == At(b, |Expand(k, b, idx + 1)|, Stored(k, p, k.spilled, t'))
  {
    hide Solves, SpillableAt, Effect, Loads, Stores, Expand, LiveAt, Increasing, Run;
    var p, i := Point(b, idx), k.blocks[b].instrs[idx];
    var prog := Inserted(k);
    var pos, l, st := |Expand(k, b, idx)|, |Loads(k, p, k.spilled)|, |Stores(k, p, k.spilled)|;
    ExpandAt(k, b, idx);
    LoadsRun(k, w, junk, prog, b, pos, p, k.spilled, s');
    var l' := Loaded(k, p, k.spilled, s');
    LoadedVregs(k, p, k.spilled, s');
    var t' := Effect(k.registers, w, k.homes, junk, l', i);
    OneEffect(k.registers, prog, w, k.homes, junk, b, pos + l, l');
    StoresRun(k, w, junk, prog, b, pos + l + 1, p, k.spilled, t');
    RunPlus(k.registers, prog, w, k.homes, junk, At(b, pos, s'), l, 1 + st);
    RunPlus(k.registers, prog, w, k.homes, junk, At(b, pos + l, l'), 1, st);
  }

  lemma JumpKeepsSim(k: Spills, w: World, b: nat, idx: nat, s: State, s': State)
    requires Spillable(k, w) && IsPoint(k.blocks, Point(b, idx)) && SpillSim(k, b, idx, s, s') && k.blocks[b].instrs[idx].op.IsJump()
    ensures var t := k.blocks[b].instrs[idx].dst;
      t.Sym? && t.id < |k.blocks| && SpillSim(k, t.id, 0, s, s')
  {
    hide Solves, LiveAt, Core, InSlot, InReg;
    assert SpillableAt(k, Point(b, idx));
    var t := k.blocks[b].instrs[idx].dst.id;
    forall x | x in k.spilled && x in LiveAt(k.ins, t, 0) ensures Backed(k, t, 0, s, s', x) {
      LiveOverJump(k.blocks, k.ins, k.outs, b, idx, t, x);
      assert Backed(k, b, idx, s, s', x);
    }
  }

  lemma {:induction false} NothingToLoad(k: Spills, p: Point, xs: seq<nat>)
    requires IsPoint(k.blocks, p) && Use(InstrAt(k.blocks, p)) == {} && Wrt(InstrAt(k.blocks, p)) == {}
    ensures Loads(k, p, xs) == [] && Stores(k, p, xs) == []
  {
    hide Use, Wrt;
    if xs != [] { NothingToLoad(k, p, xs[..|xs| - 1]); }
  }

  // One step is matched by one or more steps of the code with loads and stores.
  lemma SpillStep(k: Spills, w: World, junk: Junk, c: Config, c': Config) returns (n: nat)
    requires Spillable(k, w) && SpillConfig(k, c, c') && c.At?
    ensures n > 0
    ensures SpillConfig(k, Step(k.registers, k.blocks, w, k.homes, junk, c), Run(k.registers, Inserted(k), w, k.homes, junk, c', n))
  {
    hide Solves, Effect, LiveAt, Spillable, Loads, Stores, SpillSim, Loaded, Stored, Run;
    var b, idx := c.block, c.idx;
    if idx < |k.blocks[b].instrs| {
      var i, p := k.blocks[b].instrs[idx], Point(b, idx);
      assert Core(k, c.state, c'.state) by { CoreThere(k, b, idx, c.state, c'.state); }
      if i.op.RET? || i.op.JMP? || (i.op.IsCondJump() && w.taken(i.op, c.state.flags)) {
        n := 1;
        ExpandAt(k, b, idx);
        NothingToLoad(k, p, k.spilled);
        OneStep(k.registers, Inserted(k), w, k.homes, junk, c');
        if !i.op.RET? { JumpKeepsSim(k, w, b, idx, c.state, c'.state); }
      } else {
        n := |Loads(k, p, k.spilled)| + 1 + |Stores(k, p, k.spilled)|;
        PlainStep(k, w, junk, b, idx, c'.state);
        EffectKeepsSim(k, w, junk, b, idx, c.state, c'.state);
      }
    } else {
      n := 1;
      OneStep(k.registers, Inserted(k), w, k.homes, junk, c');
    }
  }

  lemma CoreThere(k: Spills, b: nat, idx: nat, s: State, s': State)
    requires b < |k.blocks| && idx <= |k.blocks[b].instrs| && SpillSim(k, b, idx, s, s')
    ensures Core(k, s, s')
  {
  }

  // ----- The theorem -----

  lemma {:induction false} SpillForward(k: Spills, w: World, junk: Junk, c: Config, c': Config, n: nat) returns (m: nat)
    requires Spillable(k, w) && SpillConfig(k, c, c')
    ensures SpillConfig(k, Run(k.registers, k.blocks, w, k.homes, junk, c, n), Run(k.registers, Inserted(k), w, k.homes, junk, c', m))
    decreases n
  {
    hide Spillable, Step, Inserted, SpillSim, Expand;
    m := 0;
    if n > 0 {
      if c.At? {
        var m1 := SpillStep(k, w, junk, c, c');
        var d' := Run(k.registers, Inserted(k), w, k.homes, junk, c', m1);
        var m2 := SpillForward(k, w, junk, Step(k.registers, k.blocks, w, k.homes, junk, c), d', n - 1);
        RunPlus(k.registers, Inserted(k), w, k.homes, junk, c', m1, m2);
        m := m1 + m2;
      } else {
        RunOver(k.registers, k.blocks, w, k.homes, junk, c, n);
      }
    }
  }

  lemma {:induction false} SpillBackward(k: Spills, w: World, junk: Junk, c: Config, c': Config, m: nat) returns (n: nat)
    requires Spillable(k, w) && SpillConfig(k, c, c')
    requires !Run(k.registers, Inserted(k), w, k.homes, junk, c', m).At?
    ensures Run(k.registers, k.blocks, w, k.homes, junk, c, n) == Run(k.registers, Inserted(k), w, k.homes, junk, c', m)
    decreases m
  {
    hide Spillable, Step, Inserted, SpillSim, Expand;
    var prog := Inserted(k);
    n := 0;
    if c.At? {
      var m1 := SpillStep(k, w, junk, c, c');
      var d := Step(k.registers, k.blocks, w, k.homes, junk, c);
      var d' := Run(k.registers, prog, w, k.homes, junk, c', m1);
      if m1 <= m {
        RunPlus(k.registers, prog, w, k.homes, junk, c', m1, m - m1);
        var n1 := SpillBackward(k, w, junk, d, d', m - m1);
        n := n1 + 1;
      } else {
        RunPlus(k.registers, prog, w, k.homes, junk, c', m, m1 - m);
        RunOver(k.registers, prog, w, k.homes, junk, Run(k.registers, prog, w, k.homes, junk, c', m), m1 - m);
        n := 1;
        OneStep(k.registers, k.blocks, w, k.homes, junk, c);
      }
    } else {
      RunOver(k.registers, prog, w, k.homes, junk, c', m);
    }
  }

  // Both codes have the same runs that end, with the same result and memory.
  lemma SpillingExact(k: Spills, w: World, junk: Junk, s: State, v: Word, mem: map<int, Word>)
    requires Spillable(k, w)
    ensures Ends(k.registers, k.blocks, w, k.homes, junk, s, v, mem) <==> Ends(k.registers, Inserted(k), w, k.homes, junk, s, v, mem)
  {
    hide Run, Solves, SpillableAt, SpilledOk;
    var c := At(0, 0, s);
    assert SpillConfig(k, c, c);
    if n: nat :| Run(k.registers, k.blocks, w, k.homes, junk, c, n) == Done(v, mem) {
      var m := SpillForward(k, w, junk, c, c, n);
    }
    if m: nat :| Run(k.registers, Inserted(k), w, k.homes, junk, c, m) == Done(v, mem) {
      var n := SpillBackward(k, w, junk, c, c, m);
    }
  }

  // ----- Rounds -----

  // The code addresses the frame no further down than offset bytes.
  ghost predicate FrameAbove(blocks: seq<Block>, rbp: nat, offset: int) {
    forall b, n :: 0 <= b < |blocks| && 0 <= n < |blocks[b].instrs| ==> InstrAbove(blocks[b].instrs[n], rbp, offset)
  }

  ghost predicate InstrAbove(i: Instr, rbp: nat, offset: int) { Above(i.dst, rbp, offset) && Above(i.src, rbp, offset) }

  ghost predicate Above(o: Operand, rbp: nat, offset: int) { o.Mem? && o.base == rbp ==> o.offset >= -offset }

  // Slots handed out below what the code uses are its own.
  lemma NewSlotsAreFree(k: Spills, widths: map<nat, nat>, start: nat, end: int, p: Point)
    requires SlotsOk(k.spilled, widths, k.slot, start, end) && FrameAbove(k.blocks, k.rbp, start) && IsPoint(k.blocks, p)
    requires forall x :: x in k.spilled ==> x in widths && widths[x] > 0
    ensures OffSlots(k, InstrAt(k.blocks, p).dst) && OffSlots(k, InstrAt(k.blocks, p).src)
  {
    assert InstrAbove(k.blocks[p.block].instrs[p.idx], k.rbp, start);
  }

  lemma NewSlotsAreOk(k: Spills, widths: map<nat, nat>, start: nat, end: int)
    requires SlotsOk(k.spilled, widths, k.slot, start, end) && Increasing(k.spilled)
    requires forall x :: x in k.spilled ==> x !in k.homes && x in widths && widths[x] > 0
    ensures SpilledOk(k)
  {
  }

  // After the round the code addresses the frame down to the new offset only, so
  // the next round's slots are apart from this one's.
  lemma RoundFrame(k: Spills, widths: map<nat, nat>, start: nat, end: int)
    requires SlotsOk(k.spilled, widths, k.slot, start, end) && FrameAbove(k.blocks, k.rbp, start)
    ensures FrameAbove(Inserted(k), k.rbp, end)
  {
    forall b, n | 0 <= b < |k.blocks| && 0 <= n < |Inserted(k)[b].instrs| ensures InstrAbove(Inserted(k)[b].instrs[n], k.rbp, end) {
      ExpandFrame(k, widths, start, end, b, |k.blocks[b].instrs|);
      assert Expand(k, b, |k.blocks[b].instrs|)[n] in Expand(k, b, |k.blocks[b].instrs|);
    }
  }

  lemma {:induction false} ExpandFrame(k: Spills, widths: map<nat, nat>, start: nat, end: int, b: nat, n: nat)
    requires SlotsOk(k.spilled, widths, k.slot, start, end) && FrameAbove(k.blocks, k.rbp, start)
    requires b < |k.blocks| && n <= |k.blocks[b].instrs|
    ensures forall i :: i in Expand(k, b, n) ==> InstrAbove(i, k.rbp, end)
  {
    if n > 0 {
      ExpandFrame(k, widths, start, end, b, n - 1);
      assert InstrAbove(k.blocks[b].instrs[n - 1], k.rbp, start);
      SpillCodeFrame(k, widths, start, end, Point(b, n - 1), k.spilled);
    }
  }

  lemma {:induction false} SpillCodeFrame(k: Spills, widths: map<nat, nat>, start: nat, end: int, p: Point, xs: seq<nat>)
    requires SlotsOk(k.spilled, widths, k.slot, start, end) && forall x :: x in xs ==> x in k.spilled
    ensures forall i :: i in Loads(k, p, xs) || i in Stores(k, p, xs) ==> InstrAbove(i, k.rbp, end)
  {
    hide NeedsLoad, NeedsStore;
    if xs != [] {
      SpillCodeFrame(k, widths, start, end, p, xs[..|xs| - 1]);
      assert xs[|xs| - 1] in k.spilled;
    }
  }
}
