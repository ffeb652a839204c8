// A function with its frame leaves callee-saved registers as it found them:
// those its body changes are the ones the frame preserves.
module CalleeSaved {
  import opened Allocate
  import opened Allocation
  import Ast
  import opened Coloring
  import opened Frame
  import opened Machine
  import opened MachineRun
  import opened Rounds
  import opened SelfMoves
  import opened Spilling
  import opened SpillingCorrect
  import opened StackDepth

  // ----- Registers the code does not write -----

  // Calls, pushes and pops leave r alone.
  ghost predicate Steady(registers: seq<Register>, w: World, r: nat) {
    r != w.rsp && r != w.rax && (r < |registers| ==> !registers[r].callerSaved)
  }

  ghost predicate Spares(blocks: seq<Block>, r: nat) {
    forall p :: IsPoint(blocks, p) ==> InstrAt(blocks, p).dst != Preg(r)
  }

  lemma WriteSpares(w: World, s: State, o: Operand, v: Ast.Word, r: nat)
    requires o != Preg(r)
    ensures Get(Write(w, map[], s, o, v).regs, r) == Get(s.regs, r)
  {
  }

  lemma CallSpares(registers: seq<Register>, w: World, junk: Junk, s: State, f: nat, r: nat)
    requires Steady(registers, w, r)
    ensures Get(AfterCall(registers, w, junk, s, f).regs, r) == Get(s.regs, r)
  {
  }

  lemma EffectSpares(registers: seq<Register>, w: World, junk: Junk, s: State, i: Instr, r: nat)
    requires Steady(registers, w, r) && i.dst != Preg(r)
    ensures Get(Effect(registers, w, map[], junk, s, i).regs, r) == Get(s.regs, r)
  {
    hide Write, Val, AddressOf, AfterCall;
    forall t: State, v: Ast.Word { WriteSpares(w, t, i.dst, v, r); }
    forall f: nat { CallSpares(registers, w, junk, s, f, r); }
  }

  lemma {:induction false} RunSpares(registers: seq<Register>, blocks: seq<Block>, w: World, junk: Junk, c: Config, n: nat)
    requires c.At? && Run(registers, blocks, w, map[], junk, c, n).At?
    ensures forall r :: Steady(registers, w, r) && Spares(blocks, r) ==>
      Get(Run(registers, blocks, w, map[], junk, c, n).state.regs, r) == Get(c.state.regs, r)
    decreases n
  {
    hide Steady, Effect;
    if n > 0 {
      var d := Step(registers, blocks, w, map[], junk, c);
      if !d.At? { RunOver(registers, blocks, w, map[], junk, d, n - 1); }
      RunSpares(registers, blocks, w, junk, d, n - 1);
      forall r | Steady(registers, w, r) && Spares(blocks, r) ensures Get(d.state.regs, r) == Get(c.state.regs, r) {
        assert IsPoint(blocks, Point(c.block, c.idx));
        EffectSpares(registers, w, junk, c.state, InstrAt(blocks, Point(c.block, c.idx)), r);
      }
    }
  }

  // ----- The body -----

  // Vregs are fixed to registers that calls use for arguments and results.
  ghost predicate FixedVolatile(k: Setting) {
    forall f :: f in k.fixedVregs && f in k.colors && k.colors[f] < |k.registers| ==> k.registers[k.colors[f]].callerSaved
  }

  ghost function Body(k: Setting): seq<Block> { DropAll(Recolor(k.blocks, k.colors)) }

  // Every instruction of the body comes from one of the code.
  lemma BodyFrom(k: Setting, p: Point) returns (q: Point)
    requires IsPoint(Body(k), p)
    ensures IsPoint(k.blocks, q) && InstrAt(Body(k), p) == RecolorInstr(InstrAt(k.blocks, q), k.colors)
  {
    var code := Recolor(k.blocks, k.colors)[p.block].instrs;
    assert InstrAt(Body(k), p) in DropSelfMoves(code);
    DroppedFrom(code, InstrAt(Body(k), p));
    var n :| 0 <= n < |code| && code[n] == InstrAt(Body(k), p);
    q := Point(p.block, n);
  }

  lemma {:induction false} DroppedFrom(code: seq<Instr>, i: Instr)
    requires i in DropSelfMoves(code)
    ensures i in code
  {
    if code != [] && i in DropSelfMoves(code[..|code| - 1]) { DroppedFrom(code[..|code| - 1], i); }
  }

  // The body writes a callee-saved register only if the frame preserves it.
  lemma BodySpares(k: Setting, w: World, saved: set<nat>, r: nat)
    requires SafeColors(k) && Lowered(k, w) && FixedVolatile(k) && SavesExactly(k, saved)
    requires r < |k.registers| && k.registers[r].parent == 0 && !k.registers[r].reserved && !k.registers[r].callerSaved && r !in saved
    ensures Spares(Body(k), r)
  {
    hide Body, TableOk;
    forall p | IsPoint(Body(k), p) ensures InstrAt(Body(k), p).dst != Preg(r) {
      var q := BodyFrom(k, p);
      assert LoweredAt(k, w, q);
      var o := InstrAt(k.blocks, q).dst;
      forall x | PreservedColor(k, x) ensures k.colors[x] != r { SavedColor(k, saved, x); }
    }
  }

  lemma SavedColor(k: Setting, saved: set<nat>, x: nat)
    requires SavesExactly(k, saved) && PreservedColor(k, x)
    ensures k.registers[k.colors[x]].parent == 0 ==> k.colors[x] in saved
  {
    hide TableOk;
    assert SavedFor(k, x, Root(k.registers, k.colors[x]));
  }

  // Nor does it write RBP, if the code does not.
  lemma BodySparesRbp(k: Setting, w: World)
    requires SafeColors(k) && Lowered(k, w) && FixedVolatile(k) && Spares(k.blocks, w.rbp)
    ensures Spares(Body(k), w.rbp)
  {
    hide Body;
    forall p | IsPoint(Body(k), p) ensures InstrAt(Body(k), p).dst != Preg(w.rbp) {
      var q := BodyFrom(k, p);
      assert InstrAt(k.blocks, q).dst != Preg(w.rbp);
    }
  }

  lemma FramePointerSteady(k: Setting, w: World)
    requires Lowered(k, w) && w.rsp != w.rbp
    ensures Steady(k.registers, w, w.rbp)
  {
  }

  // The frame preserves neither RSP nor RBP nor the result.
  lemma FrameRegisters(k: Setting, w: World, saved: seq<nat>)
    requires Lowered(k, w) && SavesExactly(k, Members(saved))
    ensures w.rsp !in saved && w.rbp !in saved && w.rax !in saved && w.rax != w.rsp && w.rax != w.rbp
  {
    hide SavesExactly;
    forall r | r in saved ensures r != w.rsp && r != w.rbp && r != w.rax {
      assert r in Members(saved);
      SavedAreFree(k, Members(saved), r);
    }
  }

  // ----- The function -----

  // The body leaves the saved registers' cells and what is above the frame alone.
  ghost predicate CellsKept(w: World, t: State, u: State, saved: nat) {
    && (forall i :: 0 <= i < saved ==> Get(u.mem, Get(t.regs, w.rsp) + 8 * i) == Get(t.mem, Get(t.regs, w.rsp) + 8 * i))
    && (forall a :: a >= Get(t.regs, w.rbp) ==> Get(u.mem, a) == Get(t.mem, a))
  }

  // The body, entered in state t, comes to state u.
  ghost predicate Comes(k: Setting, w: World, junk: Junk, t: State, u: State, b: nat, idx: nat) {
    exists n: nat :: Run(k.registers, Body(k), w, map[], junk, At(0, 0, t), n) == At(b, idx, u)
  }

  // What the frame relies on: lowered code that does not write RBP and uses at
  // most room bytes of stack for arguments.
  ghost predicate Framable(k: Setting, w: World, room: nat) {
    Lowered(k, w) && FixedVolatile(k) && Spares(k.blocks, w.rbp) && AllShaped(w, k.blocks, room)
  }

  // The stack has room for the frame and the arguments.
  ghost predicate RoomFor(s: State, w: World, offset: nat, saved: nat, room: nat) {
    StackArithmetic(w) && Room(s, w, FrameSize(offset, saved) + room, saved)
  }

  lemma NoColorOnRsp(k: Setting, w: World)
    requires SafeColors(k) && Lowered(k, w) && FixedVolatile(k)
    ensures NoneOnRsp(w, k.colors) && KeepsRsp(k.registers, w)
  {
    hide LoweredAt;
  }

  // In the body RSP is aligned at every call, if the function was called as the
  // ABI asks, and back at every return.
  lemma BodyAligned(k: Setting, w: World, junk: Junk, s: State, u: State, b: nat, idx: nat, offset: nat, saved: seq<nat>,
                    prologue: seq<Instr>, epilogue: seq<Instr>, room: nat)
    requires SafeColors(k) && Framable(k, w, room) && FrameFor(k, w, offset, saved, prologue, epilogue) && RoomFor(s, w, offset, |saved|, room)
    requires Comes(k, w, junk, Exec(k.registers, w, map[], junk, s, prologue), u, b, idx) && IsPoint(Body(k), Point(b, idx))
    ensures var t, i := Exec(k.registers, w, map[], junk, s, prologue), InstrAt(Body(k), Point(b, idx));
      && (i.op.CALL? && Get(s.regs, w.rsp) % 16 == 8 ==> Get(u.regs, w.rsp) % 16 == 0)
      && (i.op.RET? ==> Get(u.regs, w.rsp) == Get(t.regs, w.rsp))
  {
    hide SafeColors, Lowered, FixedVolatile, Exec, Effect, Run, Opening, Closing, Pushes, Pops, Backwards, FrameSize, Spares, SavesExactly, AllShaped, StackArithmetic;
    var t := Exec(k.registers, w, map[], junk, s, prologue);
    FrameRegisters(k, w, saved);
    assert Room(s, w, FrameSize(offset, |saved|), |saved|);
    PrologueAligns(k.registers, w, map[], junk, s, offset, saved);
    NoColorOnRsp(k, w);
    BodyShaped(w, k.blocks, k.colors, room);
    var n: nat :| Run(k.registers, Body(k), w, map[], junk, At(0, 0, t), n) == At(b, idx, u);
    AlignedAtCalls(k.registers, Body(k), w, junk, t, n, room);
  }

  // Whoever calls the function finds RSP, RBP, every callee-saved register and
  // the stack above as they were, and the result where the body left it.
  lemma CalleeSavedKept(k: Setting, w: World, junk: Junk, s: State, u: State, b: nat, idx: nat, offset: nat, saved: seq<nat>,
                        prologue: seq<Instr>, epilogue: seq<Instr>, room: nat)
    requires SafeColors(k) && Framable(k, w, room) && FrameFor(k, w, offset, saved, prologue, epilogue) && RoomFor(s, w, offset, |saved|, room)
    requires Comes(k, w, junk, Exec(k.registers, w, map[], junk, s, prologue), u, b, idx)
    requires IsPoint(Body(k), Point(b, idx)) && InstrAt(Body(k), Point(b, idx)).op.RET?
    requires CellsKept(w, Exec(k.registers, w, map[], junk, s, prologue), u, |saved|)
    ensures var v := Exec(k.registers, w, map[], junk, u, epilogue);
      && Get(v.regs, w.rsp) == Get(s.regs, w.rsp) && Get(v.regs, w.rbp) == Get(s.regs, w.rbp)
      && (forall r :: 0 <= r < |k.registers| && IsSavedByCallee(k.registers[r]) ==> Get(v.regs, r) == Get(s.regs, r))
      && Get(v.regs, w.rax) == Get(u.regs, w.rax)
      && (forall a :: a >= Get(s.regs, w.rsp) ==> Get(v.mem, a) == Get(s.mem, a))
  {
    hide SafeColors, Lowered, Exec, Effect, Run, Opening, Closing, Pushes, Pops, Backwards, FrameSize, Body, Spares, Steady, SavesExactly, AllShaped;
    var t := Exec(k.registers, w, map[], junk, s, prologue);
    FrameRegisters(k, w, saved);
    assert Room(s, w, FrameSize(offset, |saved|), |saved|);
    PrologueAligns(k.registers, w, map[], junk, s, offset, saved);
    BodyAligned(k, w, junk, s, u, b, idx, offset, saved, prologue, epilogue, room);
    FramePointerSteady(k, w);
    BodySparesRbp(k, w);
    var n: nat :| Run(k.registers, Body(k), w, map[], junk, At(0, 0, t), n) == At(b, idx, u);
    RunSpares(k.registers, Body(k), w, junk, At(0, 0, t), n);
    EpilogueRestores(k.registers, w, map[], junk, s, u, offset, saved);
    var v := Exec(k.registers, w, map[], junk, u, epilogue);
    forall r | 0 <= r < |k.registers| && IsSavedByCallee(k.registers[r]) ensures Get(v.regs, r) == Get(s.regs, r) {
      if r !in saved {
        BodySpares(k, w, Members(saved), r);
        NotFramePointer(k, w, r);
        PrologueKeeps(k.registers, w, junk, s, offset, saved, r);
      }
    }
  }

  lemma NotFramePointer(k: Setting, w: World, r: nat)
    requires Lowered(k, w) && r < |k.registers| && IsSavedByCallee(k.registers[r])
    ensures r != w.rsp && r != w.rbp && Steady(k.registers, w, r)
  {
  }

  lemma PrologueKeeps(registers: seq<Register>, w: World, junk: Junk, s: State, offset: nat, saved: seq<nat>, r: nat)
    requires StackArithmetic(w) && offset < 0x4000_0000 && Room(s, w, FrameSize(offset, |saved|), |saved|)
    requires w.rsp !in saved && r != w.rsp && r != w.rbp
    ensures Get(Entered(registers, w, map[], junk, s, offset, saved).regs, r) == Get(s.regs, r)
  {
    hide Exec, Opening, Pushes, FrameSize, Effect;
    var size := FrameSize(offset, |saved|);
    OpeningRuns(registers, w, map[], junk, s, size);
    PushesRun(registers, w, map[], junk, Exec(registers, w, map[], junk, s, Opening(w, size)), saved);
    ExecAppend(registers, w, map[], junk, s, Opening(w, size), Pushes(saved));
  }

  // A whole register the callee has to preserve, RSP and RBP apart.
  ghost predicate IsSavedByCallee(r: Register) { r.parent == 0 && !r.reserved && !r.callerSaved }

  // ----- After any number of rounds -----

  // What the frame relies on is still so in the code that is coloured in the end.
  lemma RoundKeepsFramable(k: Setting, s: Spills, k': Setting, w: World, room: nat)
    requires Framable(k, w, room) && NextRound(k, s, k') && Spillable(s, w)
    ensures Framable(k', w, room)
  {
    hide Lowered, Spillable, FixedVolatile, Spares, NextRound, AllShaped;
    LoweredRound(k, s, k', w);
    HomesStayVolatile(k, s, k');
    assert s.rbp == w.rbp by { FramePointerThere(s, w); }
    SameCode(k, s, k');
    SpillCodeSpares(s, w.rbp);
    RoundShaped(w, s, room);
  }

  lemma FramePointerThere(s: Spills, w: World)
    requires Spillable(s, w)
    ensures s.rbp == w.rbp
  {
  }

  lemma SameCode(k: Setting, s: Spills, k': Setting)
    requires NextRound(k, s, k')
    ensures k'.blocks == Inserted(s) && s.blocks == k.blocks
  {
  }

  lemma HomesStayVolatile(k: Setting, s: Spills, k': Setting)
    requires FixedVolatile(k) && NextRound(k, s, k')
    ensures FixedVolatile(k')
  {
    hide Inserted;
    forall f | f in k'.fixedVregs && f in k'.colors && k'.colors[f] < |k'.registers| ensures k'.registers[k'.colors[f]].callerSaved {
      assert f in Homes(k') && f in Homes(k) && Homes(k)[f] == Homes(k')[f];
    }
  }

  lemma SpillCodeSpares(s: Spills, r: nat)
    requires Spares(s.blocks, r)
    ensures Spares(Inserted(s), r)
  {
    hide Expand, Loads, Stores, Shifted, Wrt;
    forall p | IsPoint(Inserted(s), p) ensures InstrAt(Inserted(s), p).dst != Preg(r) {
      var idx := Locate(s, p.block, p.idx, |s.blocks[p.block].instrs|);
      CodeAt(s, p.block, idx, p.idx);
      assert InstrAt(s.blocks, Point(p.block, idx)).dst != Preg(r);
    }
  }

  lemma {:induction false} RoundsKeepFramable(settings: seq<Setting>, rounds: seq<Spills>, w: World, room: nat)
    requires RoundsOk(settings, rounds, w) && Framable(settings[0], w, room)
    ensures Framable(settings[|rounds|], w, room) && settings[|rounds|].registers == settings[0].registers
    decreases |rounds|
  {
    hide Framable, NextRound, Spillable;
    if rounds != [] {
      LaterRounds(settings, rounds, w);
      RoundKeepsFramable(settings[0], rounds[0], settings[1], w, room);
      SameRegisters(settings[0], rounds[0], settings[1]);
      RoundsKeepFramable(settings[1..], rounds[1..], w, room);
    }
  }

  lemma SameRegisters(k: Setting, s: Spills, k': Setting)
    requires NextRound(k, s, k')
    ensures k'.registers == k.registers
  {
  }

  // So it holds of what the allocator makes of code that is framable, in any
  // number of rounds: aligned calls, and registers as they were.
  lemma FunctionKeepsRegisters(settings: seq<Setting>, rounds: seq<Spills>, w: World, junk: Junk, s: State, u: State, b: nat, idx: nat,
                               offset: nat, saved: seq<nat>, prologue: seq<Instr>, epilogue: seq<Instr>, room: nat)
    requires RoundsOk(settings, rounds, w) && Framable(settings[0], w, room)
    requires SafeColors(settings[|rounds|]) && FrameFor(settings[|rounds|], w, offset, saved, prologue, epilogue)
    requires RoomFor(s, w, offset, |saved|, room) && IsPoint(Body(settings[|rounds|]), Point(b, idx))
    requires Comes(settings[|rounds|], w, junk, Exec(settings[|rounds|].registers, w, map[], junk, s, prologue), u, b, idx)
    ensures var i := InstrAt(Body(settings[|rounds|]), Point(b, idx));
      i.op.CALL? && Get(s.regs, w.rsp) % 16 == 8 ==> Get(u.regs, w.rsp) % 16 == 0
    ensures var i, t := InstrAt(Body(settings[|rounds|]), Point(b, idx)), Exec(settings[0].registers, w, map[], junk, s, prologue);
      i.op.RET? && CellsKept(w, t, u, |saved|) ==>
        var v := Exec(settings[0].registers, w, map[], junk, u, epilogue);
        && Get(v.regs, w.rsp) == Get(s.regs, w.rsp) && Get(v.regs, w.rbp) == Get(s.regs, w.rbp)
        && (forall r :: 0 <= r < |settings[0].registers| && IsSavedByCallee(settings[0].registers[r]) ==> Get(v.regs, r) == Get(s.regs, r))
        && Get(v.regs, w.rax) == Get(u.regs, w.rax)
        && (forall a :: a >= Get(s.regs, w.rsp) ==> Get(v.mem, a) == Get(s.mem, a))
  {
    hide RoundAt, SafeColors, FrameFor, Exec, Comes, CellsKept, RoomFor, Framable, Body;
    RoundsKeepFramable(settings, rounds, w, room);
    var k := settings[|rounds|];
    BodyAligned(k, w, junk, s, u, b, idx, offset, saved, prologue, epilogue, room);
    if InstrAt(Body(k), Point(b, idx)).op.RET? && CellsKept(w, Exec(k.registers, w, map[], junk, s, prologue), u, |saved|) {
      CalleeSavedKept(k, w, junk, s, u, b, idx, offset, saved, prologue, epilogue, room);
    }
  }
}
