// The stack pointer over a run: how far below its start it is at each instruction.
module StackDepth {
  import opened Ast
  import opened Allocation
  import opened Frame
  import opened Machine
  import opened MachineRun
  import opened SelfMoves
  import opened Spilling

  // How many bytes an instruction takes from the stack.
  function Takes(w: World, i: Instr): int {
    if i.dst == Preg(w.rsp) && i.src.Lit? then
      if i.op.SUB? then i.src.value else if i.op.ADD? then 0 - (i.src.value as int) else 0
    else 0
  }

  function Depth(w: World, code: seq<Instr>): int {
    if code == [] then 0 else Depth(w, code[..|code| - 1]) + Takes(w, code[|code| - 1])
  }

  // RSP is changed by adding and subtracting constants only.
  ghost predicate Tame(w: World, i: Instr) {
    && !i.op.PUSH? && !i.op.POP?
    && (i.dst == Preg(w.rsp) ==> (i.op.SUB? || i.op.ADD?) && i.src.Lit?)
  }

  // At depth d a call finds the stack aligned, and what leaves the block finds
  // all of it given back.
  ghost predicate Fits(i: Instr, d: int) {
    (i.op.CALL? ==> d % 16 == 0) && (i.op.RET? || i.op.IsJump() ==> d == 0)
  }

  // Code that takes at most room bytes.
  ghost predicate Shape(w: World, code: seq<Instr>, room: nat) {
    code != [] ==>
      var n := |code| - 1;
      Shape(w, code[..n], room) && Tame(w, code[n]) && Fits(code[n], Depth(w, code[..n])) && 0 <= Depth(w, code) <= room
  }

  ghost predicate AllShaped(w: World, blocks: seq<Block>, room: nat) {
    forall b :: 0 <= b < |blocks| ==> Shape(w, blocks[b].instrs, room)
  }

  lemma {:induction false} ShapeAt(w: World, code: seq<Instr>, room: nat, n: nat)
    requires Shape(w, code, room) && n <= |code|
    ensures 0 <= Depth(w, code[..n]) <= room
    ensures n < |code| ==> Tame(w, code[n]) && Fits(code[n], Depth(w, code[..n]))
    ensures n < |code| ==> Depth(w, code[..n + 1]) == Depth(w, code[..n]) + Takes(w, code[n])
    decreases |code|
  {
    hide Tame, Fits, Takes;
    if n < |code| {
      assert code[..n + 1][..n] == code[..n];
      if n < |code| - 1 {
        ShapeAt(w, code[..|code| - 1], room, n);
        assert code[..|code| - 1][..n] == code[..n] && code[..|code| - 1][..n + 1] == code[..n + 1];
      } else {
        ShapeBelow(w, code, room, n);
      }
    } else {
      assert code[..n] == code;
    }
  }

  lemma ShapeBelow(w: World, code: seq<Instr>, room: nat, n: nat)
    requires Shape(w, code, room) && n == |code| - 1
    ensures 0 <= Depth(w, code[..n]) <= room
  {
  }

  // ----- Runs -----

  // RSP is as far below rsp as the code up to here takes.
  ghost predicate AtDepth(w: World, blocks: seq<Block>, c: Config, rsp: Word) {
    c.At? && c.block < |blocks| && c.idx <= |blocks[c.block].instrs| ==>
      Get(c.state.regs, w.rsp) == rsp - Depth(w, blocks[c.block].instrs[..c.idx])
  }

  lemma EffectTakes(registers: seq<Register>, w: World, junk: Junk, s: State, i: Instr)
    requires StackArithmetic(w) && Tame(w, i) && KeepsRsp(registers, w)
    requires -0x8000_0000_0000_0000 <= Get(s.regs, w.rsp) - Takes(w, i) < 0x8000_0000_0000_0000
    ensures Get(Effect(registers, w, map[], junk, s, i).regs, w.rsp) == Get(s.regs, w.rsp) - Takes(w, i)
  {
    hide AddressOf, AfterCall, Val, Write;
    if i.op.CALL? && i.dst.Sym? {
      CallKeepsRsp(registers, w, junk, s, i.dst.id);
    } else if i.dst == Preg(w.rsp) {
      AddedToRsp(registers, w, junk, s, i);
    } else {
      forall v: Word, t: State { ElsewhereWritten(w, t, i.dst, v); }
    }
  }

  lemma ElsewhereWritten(w: World, s: State, o: Operand, v: Word)
    requires o != Preg(w.rsp)
    ensures Get(Write(w, map[], s, o, v).regs, w.rsp) == Get(s.regs, w.rsp)
  {
  }

  lemma AddedToRsp(registers: seq<Register>, w: World, junk: Junk, s: State, i: Instr)
    requires StackArithmetic(w) && i.dst == Preg(w.rsp) && (i.op.SUB? || i.op.ADD?) && i.src.Lit?
    requires -0x8000_0000_0000_0000 <= Get(s.regs, w.rsp) - Takes(w, i) < 0x8000_0000_0000_0000
    ensures Get(Effect(registers, w, map[], junk, s, i).regs, w.rsp) == Get(s.regs, w.rsp) - Takes(w, i)
  {
    WrapFits(Get(s.regs, w.rsp) - Takes(w, i));
    ArithEffect(registers, w, map[], junk, s, i.op, i.src.value);
  }

  // A callee gives RSP back.
  ghost predicate KeepsRsp(registers: seq<Register>, w: World) {
    w.rax != w.rsp && w.rsp < |registers| && !registers[w.rsp].callerSaved
  }

  lemma CallKeepsRsp(registers: seq<Register>, w: World, junk: Junk, s: State, f: nat)
    requires KeepsRsp(registers, w)
    ensures Get(AfterCall(registers, w, junk, s, f).regs, w.rsp) == Get(s.regs, w.rsp)
  {
  }

  lemma StepAtDepth(registers: seq<Register>, blocks: seq<Block>, w: World, junk: Junk, c: Config, room: nat, rsp: Word)
    requires StackArithmetic(w) && KeepsRsp(registers, w) && AllShaped(w, blocks, room)
    requires -0x8000_0000_0000_0000 <= rsp - room && AtDepth(w, blocks, c, rsp)
    ensures AtDepth(w, blocks, Step(registers, blocks, w, map[], junk, c), rsp)
  {
    hide Effect, Depth, Shape;
    if c.At? && IsPoint(blocks, Point(c.block, c.idx)) {
      var code := blocks[c.block].instrs;
      var i := code[c.idx];
      assert Shape(w, code, room);
      ShapeAt(w, code, room, c.idx);
      if !i.op.RET? {
        NothingTaken(w);
        if i.op.IsJump() { JumpTakesNothing(w, i); }
        ShapeNext(w, code, room, c.idx);
        if !i.op.IsJump() || !(i.op.JMP? || w.taken(i.op, c.state.flags)) { EffectTakes(registers, w, junk, c.state, i); }
        assert forall t :: 0 <= t < |blocks| ==> blocks[t].instrs[..0] == [];
      }
    }
  }

  lemma ShapeNext(w: World, code: seq<Instr>, room: nat, n: nat)
    requires Shape(w, code, room) && n < |code|
    ensures 0 <= Depth(w, code[..n + 1]) <= room
  {
    hide Depth, Shape;
    ShapeAt(w, code, room, n + 1);
  }

  lemma NothingTaken(w: World)
    ensures Depth(w, []) == 0
  {
  }

  lemma JumpTakesNothing(w: World, i: Instr)
    requires i.op.IsJump()
    ensures Takes(w, i) == 0
  {
  }

  // Wherever the code has come to, RSP is as far down as it took; so it is
  // aligned at every call if it was at the start, and back at every return.
  lemma {:induction false} RspEverywhere(registers: seq<Register>, blocks: seq<Block>, w: World, junk: Junk, c: Config, n: nat, room: nat, rsp: Word)
    requires StackArithmetic(w) && KeepsRsp(registers, w) && AllShaped(w, blocks, room)
    requires -0x8000_0000_0000_0000 <= rsp - room && AtDepth(w, blocks, c, rsp)
    ensures AtDepth(w, blocks, Run(registers, blocks, w, map[], junk, c, n), rsp)
    decreases n
  {
    hide Step, AtDepth, AllShaped;
    if n > 0 {
      StepAtDepth(registers, blocks, w, junk, c, room, rsp);
      RspEverywhere(registers, blocks, w, junk, Step(registers, blocks, w, map[], junk, c), n - 1, room, rsp);
    }
  }

  // Called from the start of the code with RSP a multiple of 16.
  lemma AlignedAtCalls(registers: seq<Register>, blocks: seq<Block>, w: World, junk: Junk, t: State, n: nat, room: nat)
    requires StackArithmetic(w) && KeepsRsp(registers, w) && AllShaped(w, blocks, room) && |blocks| > 0
    requires -0x8000_0000_0000_0000 <= Get(t.regs, w.rsp) - room
    ensures var c := Run(registers, blocks, w, map[], junk, At(0, 0, t), n);
      c.At? && IsPoint(blocks, Point(c.block, c.idx)) ==>
        var i := InstrAt(blocks, Point(c.block, c.idx));
        && (i.op.CALL? && Get(t.regs, w.rsp) % 16 == 0 ==> Get(c.state.regs, w.rsp) % 16 == 0)
        && (i.op.RET? ==> Get(c.state.regs, w.rsp) == Get(t.regs, w.rsp))
  {
    hide Depth, Shape, Run, StackArithmetic;
    var rsp := Get(t.regs, w.rsp);
    assert blocks[0].instrs[..0] == [];
    NothingTaken(w);
    RspEverywhere(registers, blocks, w, junk, At(0, 0, t), n, room, rsp);
    var c := Run(registers, blocks, w, map[], junk, At(0, 0, t), n);
    if c.At? && IsPoint(blocks, Point(c.block, c.idx)) {
      assert Shape(w, blocks[c.block].instrs, room);
      ShapeAt(w, blocks[c.block].instrs, room, c.idx);
      if Fits(blocks[c.block].instrs[c.idx], Depth(w, blocks[c.block].instrs[..c.idx])) && rsp % 16 == 0 {
        Multiples(rsp, Depth(w, blocks[c.block].instrs[..c.idx]));
      }
    }
  }

  lemma Multiples(a: int, b: int)
    ensures a % 16 == 0 && b % 16 == 0 ==> (a - b) % 16 == 0
  {
  }

  // ----- Code that lowering makes -----

  // Shaped code is shaped after more shaped code that gives all back.
  lemma {:induction false} ShapeJoin(w: World, a: seq<Instr>, b: seq<Instr>, room: nat)
    requires Shape(w, a, room) && Shape(w, b, room) && Depth(w, a) == 0
    ensures Shape(w, a + b, room) && Depth(w, a + b) == Depth(w, b)
    decreases |b|
  {
    hide Tame, Fits, Takes;
    if b == [] {
      assert a + b == a;
    } else {
      ShapeJoin(w, a, b[..|b| - 1], room);
      assert (a + b)[..|a + b| - 1] == a + b[..|b| - 1];
    }
  }

  // Instructions that leave RSP alone, calls without stack arguments and what
  // leaves a block included.
  lemma ShapeOne(w: World, i: Instr, room: nat)
    requires i.dst != Preg(w.rsp) && !i.op.PUSH? && !i.op.POP?
    ensures Shape(w, [i], room) && Depth(w, [i]) == 0
  {
    assert [i][..0] == [] && Depth(w, []) == 0;
  }

  // A call with stack arguments: space is reserved, filled, and given back after
  // the call and the move of its result.
  function CallCode(w: World, args: seq<Operand>, f: nat, after: seq<Instr>): seq<Instr>
    requires |args| < 0x1000_0000
  {
    BeforeCall(w, args) + [Instr(CALL, Sym(f), Nothing)] + after + AfterwardsCode(w, |args|)
  }

  // Code at a depth that stays there.
  ghost predicate Level(w: World, code: seq<Instr>) {
    forall n :: 0 <= n < |code| ==> LevelInstr(w, code[n])
  }

  ghost predicate LevelInstr(w: World, i: Instr) {
    i.dst != Preg(w.rsp) && !i.op.PUSH? && !i.op.POP? && !i.op.RET? && !i.op.IsJump()
  }

  lemma {:induction false} LevelShape(w: World, a: seq<Instr>, b: seq<Instr>, room: nat)
    requires Shape(w, a, room) && Level(w, b) && Depth(w, a) % 16 == 0 && 0 <= Depth(w, a) <= room
    ensures Shape(w, a + b, room) && Depth(w, a + b) == Depth(w, a)
    decreases |b|
  {
    hide Depth, Shape;
    if b == [] {
      assert a + b == a;
    } else {
      var n := |b| - 1;
      LevelShape(w, a, b[..n], room);
      assert LevelInstr(w, b[n]);
      ShapeSnoc(w, a + b[..n], b[n], room);
      assert a + b == (a + b[..n]) + [b[n]];
    }
  }

  lemma ShapeSnoc(w: World, a: seq<Instr>, i: Instr, room: nat)
    requires Shape(w, a, room) && Tame(w, i) && Fits(i, Depth(w, a)) && 0 <= Depth(w, a) + Takes(w, i) <= room
    ensures Shape(w, a + [i], room) && Depth(w, a + [i]) == Depth(w, a) + Takes(w, i)
  {
    assert (a + [i])[..|a|] == a;
  }

  lemma CallShape(w: World, args: seq<Operand>, f: nat, after: seq<Instr>, room: nat)
    requires |args| < 0x1000_0000 && ArgumentArea(|args|) <= room && Level(w, after)
    ensures Shape(w, CallCode(w, args, f, after), room) && Depth(w, CallCode(w, args, f, after)) == 0
  {
    hide Depth, Shape, Tame, Fits;
    var call := [Instr(CALL, Sym(f), Nothing)];
    assert Level(w, call) && Level(w, call + after);
    NothingShaped(w, room);
    AreaAligned(|args|);
    if args == [] {
      LevelShape(w, [], call + after, room);
      assert CallCode(w, args, f, after) == [] + (call + after);
    } else {
      var size := ArgumentArea(|args|);
      var sub, add := Instr(SUB, Preg(w.rsp), Lit(size)), Instr(ADD, Preg(w.rsp), Lit(size));
      RspTame(w, sub);
      RspTame(w, add);
      ShapeSnoc(w, [], sub, room);
      var rest := Arguments(w, args) + call + after;
      assert Level(w, rest) by { ArgumentsLevel(w, args); }
      LevelShape(w, [] + [sub], rest, room);
      ShapeSnoc(w, [] + [sub] + rest, add, room);
      assert CallCode(w, args, f, after) == [] + [sub] + rest + [add];
    }
  }

  lemma NothingShaped(w: World, room: nat)
    ensures Shape(w, [], room) && Depth(w, []) == 0
  {
  }

  lemma RspTame(w: World, i: Instr)
    requires (i.op.SUB? || i.op.ADD?) && i.src.Lit?
    ensures Tame(w, i) && forall d :: Fits(i, d)
  {
  }

  lemma ArgumentsLevel(w: World, args: seq<Operand>)
    ensures Level(w, Arguments(w, args))
  {
  }

  // ----- What the allocator makes of it -----

  // A colour is never RSP.
  ghost predicate NoneOnRsp(w: World, colors: map<nat, nat>) {
    forall x :: x in colors ==> colors[x] != w.rsp
  }

  lemma {:induction false} RecoloredShape(w: World, code: seq<Instr>, colors: map<nat, nat>, room: nat, out: seq<Instr>)
    requires Shape(w, code, room) && NoneOnRsp(w, colors) && |out| == |code|
    requires forall n :: 0 <= n < |code| ==> out[n] == RecolorInstr(code[n], colors)
    ensures Shape(w, out, room) && Depth(w, out) == Depth(w, code)
    decreases |code|
  {
    hide Tame, Fits, Takes;
    if code != [] {
      var n := |code| - 1;
      RecoloredShape(w, code[..n], colors, room, out[..n]);
      RecoloredInstr(w, code[n], colors, Depth(w, code[..n]));
    }
  }

  lemma RecoloredInstr(w: World, i: Instr, colors: map<nat, nat>, d: int)
    requires NoneOnRsp(w, colors) && Tame(w, i) && Fits(i, d)
    ensures var j := RecolorInstr(i, colors); Tame(w, j) && Fits(j, d) && Takes(w, j) == Takes(w, i)
  {
  }

  lemma {:induction false} DroppedShape(w: World, code: seq<Instr>, room: nat)
    requires Shape(w, code, room)
    ensures Shape(w, DropSelfMoves(code), room) && Depth(w, DropSelfMoves(code)) == Depth(w, code)
  {
    hide Tame, Fits;
    if code != [] {
      var n := |code| - 1;
      DroppedShape(w, code[..n], room);
      if !IsSelfMove(code[n]) {
        ShapeSnoc(w, DropSelfMoves(code[..n]), code[n], room);
        assert DropSelfMoves(code) == DropSelfMoves(code[..n]) + [code[n]];
      } else {
        assert DropSelfMoves(code) == DropSelfMoves(code[..n]) && Takes(w, code[n]) == 0;
      }
    }
  }

  lemma {:induction false} ExpandedShape(w: World, s: Spills, b: nat, n: nat, room: nat)
    requires b < |s.blocks| && n <= |s.blocks[b].instrs| && Shape(w, s.blocks[b].instrs, room)
    ensures Shape(w, Expand(s, b, n), room) && Depth(w, Expand(s, b, n)) == Depth(w, s.blocks[b].instrs[..n])
  {
    hide Tame, Fits, Takes, Shape, Depth, Loads, Stores;
    var code := s.blocks[b].instrs;
    if n == 0 {
      NothingShaped(w, room);
      assert code[..0] == [];
    } else {
      ExpandedShape(w, s, b, n - 1, room);
      ShapeAt(w, code, room, n - 1);
      ShapeAt(w, code, room, n);
      var p := Point(b, n - 1);
      SpillCodeShape(w, Expand(s, b, n - 1), s, p, s.spilled, room);
      var loaded := Expand(s, b, n - 1) + Loads(s, p, s.spilled);
      ShapeSnoc(w, loaded, code[n - 1], room);
      SpillCodeShape(w, loaded + [code[n - 1]], s, p, s.spilled, room);
    }
  }

  // Loads and stores leave RSP where it is.
  lemma {:induction false} SpillCodeShape(w: World, a: seq<Instr>, s: Spills, p: Point, xs: seq<nat>, room: nat)
    requires Shape(w, a, room) && 0 <= Depth(w, a) <= room
    ensures Shape(w, a + Loads(s, p, xs), room) && Depth(w, a + Loads(s, p, xs)) == Depth(w, a)
    ensures Shape(w, a + Stores(s, p, xs), room) && Depth(w, a + Stores(s, p, xs)) == Depth(w, a)
  {
    hide Shape, Depth, NeedsLoad, NeedsStore;
    if xs == [] {
      assert a + Loads(s, p, xs) == a && a + Stores(s, p, xs) == a;
    } else {
      var n := |xs| - 1;
      SpillCodeShape(w, a, s, p, xs[..n], room);
      MoveLevel(w, LoadOf(s, xs[n]));
      MoveLevel(w, StoreOf(s, xs[n]));
      assert !NeedsLoad(s.blocks, p, xs[n]) ==> Loads(s, p, xs) == Loads(s, p, xs[..n]);
      assert !NeedsStore(s.blocks, p, xs[n]) ==> Stores(s, p, xs) == Stores(s, p, xs[..n]);
      if NeedsLoad(s.blocks, p, xs[n]) {
        ShapeSnoc(w, a + Loads(s, p, xs[..n]), LoadOf(s, xs[n]), room);
        assert a + Loads(s, p, xs) == (a + Loads(s, p, xs[..n])) + [LoadOf(s, xs[n])];
      }
      if NeedsStore(s.blocks, p, xs[n]) {
        ShapeSnoc(w, a + Stores(s, p, xs[..n]), StoreOf(s, xs[n]), room);
        assert a + Stores(s, p, xs) == (a + Stores(s, p, xs[..n])) + [StoreOf(s, xs[n])];
      }
    }
  }

  lemma MoveLevel(w: World, i: Instr)
    requires i.op.MOV? && i.dst != Preg(w.rsp)
    ensures Tame(w, i) && Takes(w, i) == 0 && forall d :: Fits(i, d)
  {
  }

  lemma RoundShaped(w: World, s: Spills, room: nat)
    requires AllShaped(w, s.blocks, room)
    ensures AllShaped(w, Inserted(s), room)
  {
    hide Shape, Expand;
    forall b | 0 <= b < |s.blocks| ensures Shape(w, Inserted(s)[b].instrs, room) { ExpandedShape(w, s, b, |s.blocks[b].instrs|, room); }
  }

  lemma BodyShaped(w: World, blocks: seq<Block>, colors: map<nat, nat>, room: nat)
    requires AllShaped(w, blocks, room) && NoneOnRsp(w, colors)
    ensures AllShaped(w, DropAll(Recolor(blocks, colors)), room)
  {
    hide Shape, DropSelfMoves;
    var out := Recolor(blocks, colors);
    forall b | 0 <= b < |blocks| ensures Shape(w, DropAll(out)[b].instrs, room) {
      RecoloredShape(w, blocks[b].instrs, colors, room, out[b].instrs);
      DroppedShape(w, out[b].instrs, room);
    }
  }
}
