// What a call finds in a register that was given its value above.
module CallArguments {
  import Ast
  import opened Allocation
  import opened Frame
  import opened Machine
  import opened MachineRun

  // Between instruction from, which gives register r its value, and idx there
  // are only such instructions as lowering and spilling put between an argument's
  // move and its call: moves of other arguments, stores to the stack, changes of
  // RSP, and loads of free vregs from the frame.
  ghost predicate Between(k: Setting, w: World, b: nat, from: nat, idx: nat, r: nat) {
    && b < |k.blocks| && from < idx <= |k.blocks[b].instrs|
    && !IsReserved(k, r) && IsReserved(k, w.rsp) && IsReserved(k, w.rbp)
    && WritesFixed(k, k.blocks[b].instrs[from], r)
    && forall m :: from < m < idx ==> ArgumentCode(k, w, k.blocks[b].instrs[m], r)
  }

  ghost predicate ArgumentCode(k: Setting, w: World, i: Instr, r: nat) {
    && !i.op.CALL? && !i.op.RET? && !i.op.IsJump() && !i.op.POP? && !WritesFixed(k, i, r)
    && OperandOk(k, i.dst) && !(i.dst.Mem? && InFrame(w, i.dst.base, i.dst.offset))
    && (forall x :: x in Wrt(i) ==> x in k.colors)
    && ((exists x :: x in Wrt(i) && x !in k.fixedVregs) ==> IsLoad(w, i))
  }

  ghost predicate IsLoad(w: World, i: Instr) {
    i.op.MOV? && i.dst.Vreg? && i.src.Mem? && InFrame(w, i.src.base, i.src.offset)
  }

  // The instructions between, before and after registers are assigned.
  function Part(code: seq<Instr>, from: nat, idx: nat): seq<Instr>
    requires from < idx <= |code|
  {
    code[from + 1..idx]
  }

  function Colored(code: seq<Instr>, colors: map<nat, nat>): seq<Instr> {
    seq(|code|, n requires 0 <= n < |code| => RecolorInstr(code[n], colors))
  }

  // ----- One instruction -----

  lemma WriteLeaves(w: World, homes: map<nat, nat>, s: State, o: Operand, v: Ast.Word, r: nat)
    ensures o != Preg(r) && (o.Vreg? && o.v in homes ==> homes[o.v] != r) ==> Get(Write(w, homes, s, o, v).regs, r) == Get(s.regs, r)
    ensures !(o.Mem? && InFrame(w, o.base, o.offset)) ==> Write(w, homes, s, o, v).frame == s.frame
  {
  }

  // Before registers are assigned nothing between changes r.
  lemma BeforeLeaves(k: Setting, w: World, junk: Junk, s: State, i: Instr, r: nat)
    requires ArgumentCode(k, w, i, r) && !IsReserved(k, r) && IsReserved(k, w.rsp)
    ensures Get(Effect(k.registers, w, Homes(k), junk, s, i).regs, r) == Get(s.regs, r)
  {
    hide Write, Val, AddressOf;
    forall v: Ast.Word, t: State { WriteLeaves(w, Homes(k), t, i.dst, v, r); }
  }

  // After it only a load into a vreg coloured r does; the frame stays as it is.
  lemma AfterLeaves(k: Setting, w: World, junk: Junk, s: State, i: Instr, r: nat)
    requires ArgumentCode(k, w, i, r) && !IsReserved(k, r) && IsReserved(k, w.rsp)
    ensures var t := Effect(k.registers, w, map[], junk, s, RecolorInstr(i, k.colors));
      && t.frame == s.frame
      && (!WritesOver(k, i, r) ==> Get(t.regs, r) == Get(s.regs, r))
      && (WritesOver(k, i, r) ==> IsLoad(w, i) && Get(t.regs, r) == Get(s.frame, i.src.offset))
  {
    if WritesOver(k, i, r) {
      LoadedInto(k, w, junk, s, i, r);
    } else {
      NotWrittenOver(k, w, i, r);
      RegisterLeft(k.registers, w, junk, s, RecolorInstr(i, k.colors), r);
    }
  }

  lemma LoadedInto(k: Setting, w: World, junk: Junk, s: State, i: Instr, r: nat)
    requires ArgumentCode(k, w, i, r) && WritesOver(k, i, r)
    ensures var t := Effect(k.registers, w, map[], junk, s, RecolorInstr(i, k.colors));
      IsLoad(w, i) && t.frame == s.frame && Get(t.regs, r) == Get(s.frame, i.src.offset)
  {
    var x :| x in Wrt(i) && x !in k.fixedVregs && (x in k.colors ==> k.colors[x] == r);
    assert IsLoad(w, i) && i.dst == Vreg(x);
  }

  // Nothing written by the instruction with registers is r or in the frame.
  lemma NotWrittenOver(k: Setting, w: World, i: Instr, r: nat)
    requires ArgumentCode(k, w, i, r) && !WritesOver(k, i, r) && !IsReserved(k, r)
    ensures Leaves(w, RecolorInstr(i, k.colors), r)
  {
    var o := RecolorOperand(i.dst, k.colors);
    if i.dst.Vreg? && i.dst.v in Wrt(i) {
      assert i.dst.v in k.fixedVregs ==> k.colors[i.dst.v] != r;
    }
  }

  ghost predicate Leaves(w: World, i: Instr, r: nat) {
    && !i.op.CALL? && !i.op.POP? && (i.op.MOV? || i.op.LEA? || i.op.IsArith() ==> i.dst != Preg(r))
    && !(i.dst.Mem? && InFrame(w, i.dst.base, i.dst.offset))
  }

  lemma RegisterLeft(registers: seq<Register>, w: World, junk: Junk, s: State, i: Instr, r: nat)
    requires Leaves(w, i, r) && r != w.rsp
    ensures var t := Effect(registers, w, map[], junk, s, i); t.frame == s.frame && Get(t.regs, r) == Get(s.regs, r)
  {
    hide Write, Val, AddressOf;
    forall v: Ast.Word, t: State { WriteLeaves(w, map[], t, i.dst, v, r); }
  }

  // ----- All that comes between -----

  lemma {:induction false} PartBefore(k: Setting, w: World, junk: Junk, s: State, code: seq<Instr>, r: nat)
    requires !IsReserved(k, r) && IsReserved(k, w.rsp) && forall n :: 0 <= n < |code| ==> ArgumentCode(k, w, code[n], r)
    ensures Get(Exec(k.registers, w, Homes(k), junk, s, code).regs, r) == Get(s.regs, r)
  {
    hide Effect, ArgumentCode;
    if code != [] {
      var n := |code| - 1;
      PartBefore(k, w, junk, s, code[..n], r);
      BeforeLeaves(k, w, junk, Exec(k.registers, w, Homes(k), junk, s, code[..n]), code[n], r);
    }
  }

  // Which instruction loads into a vreg coloured r last.
  ghost predicate LastOver(k: Setting, code: seq<Instr>, r: nat, n: nat) {
    n < |code| && WritesOver(k, code[n], r) && forall m :: n < m < |code| ==> !WritesOver(k, code[m], r)
  }

  lemma {:induction false} PartAfter(k: Setting, w: World, junk: Junk, s: State, code: seq<Instr>, r: nat)
    requires !IsReserved(k, r) && IsReserved(k, w.rsp) && forall n :: 0 <= n < |code| ==> ArgumentCode(k, w, code[n], r)
    ensures var t := Exec(k.registers, w, map[], junk, s, Colored(code, k.colors));
      && t.frame == s.frame
      && ((forall n :: 0 <= n < |code| ==> !WritesOver(k, code[n], r)) ==> Get(t.regs, r) == Get(s.regs, r))
      && forall n: nat :: LastOver(k, code, r, n) ==> IsLoad(w, code[n]) && Get(t.regs, r) == Get(s.frame, code[n].src.offset)
  {
    hide Effect, ArgumentCode, WritesOver, IsLoad, RecolorInstr, IsReserved;
    if code != [] {
      var n := |code| - 1;
      PartAfter(k, w, junk, s, code[..n], r);
      var t := Exec(k.registers, w, map[], junk, s, Colored(code[..n], k.colors));
      assert Colored(code, k.colors)[..n] == Colored(code[..n], k.colors);
      AfterLeaves(k, w, junk, t, code[n], r);
      forall m: nat | LastOver(k, code, r, m) && m < n ensures LastOver(k, code[..n], r, m) && code[..n][m] == code[m] {}
    }
  }

  lemma {:induction false} SomeLast(k: Setting, code: seq<Instr>, r: nat, n: nat) returns (m: nat)
    requires n < |code| && WritesOver(k, code[n], r)
    ensures LastOver(k, code, r, m)
    decreases |code| - n
  {
    hide WritesOver;
    if j :| n < j < |code| && WritesOver(k, code[j], r) {
      m := SomeLast(k, code, r, j);
    } else {
      m := n;
    }
  }

  // ----- The call -----

  // From every state behind the move that gives register r its value, the code
  // with registers has at the call the value it had.
  ghost predicate ValueKept(k: Setting, w: World, junk: Junk, b: nat, from: nat, idx: nat, r: nat)
    requires b < |k.blocks| && from < idx <= |k.blocks[b].instrs|
  {
    forall s: State :: Get(Exec(k.registers, w, map[], junk, s, Colored(Part(k.blocks[b].instrs, from, idx), k.colors)).regs, r) == Get(s.regs, r)
  }

  // Before registers are assigned an argument is at the call what its move made
  // it; afterwards it is, from every state, if and only if the register is held:
  // no load in between is into a vreg of that colour.
  lemma ArgumentExact(k: Setting, w: World, junk: Junk, b: nat, from: nat, idx: nat, r: nat)
    requires Between(k, w, b, from, idx, r)
    ensures forall s: State :: Get(Exec(k.registers, w, Homes(k), junk, s, Part(k.blocks[b].instrs, from, idx)).regs, r) == Get(s.regs, r)
    ensures ValueKept(k, w, junk, b, from, idx, r) <==> Held(k, b, idx, r)
    ensures Held(k, b, idx, r) <==> forall m :: from < m < idx ==> !WritesOver(k, k.blocks[b].instrs[m], r)
  {
    hide ArgumentCode, Exec, WritesOver, WritesFixed;
    var all := k.blocks[b].instrs;
    var code := Part(all, from, idx);
    forall n | 0 <= n < |code| ensures ArgumentCode(k, w, code[n], r) { assert code[n] == all[from + 1 + n]; }
    forall s: State ensures Get(Exec(k.registers, w, Homes(k), junk, s, code).regs, r) == Get(s.regs, r) {
      PartBefore(k, w, junk, s, code, r);
    }
    HeldBetween(k, w, b, from, idx, r);
    if m :| from < m < idx && WritesOver(k, all[m], r) {
      assert code[m - from - 1] == all[m];
      var n := SomeLast(k, code, r, m - from - 1);
      var s := Differing(if code[n].src.Mem? then code[n].src.offset else 0, r);
      PartAfter(k, w, junk, s, code, r);
    } else {
      forall n | 0 <= n < |code| ensures !WritesOver(k, code[n], r) { assert code[n] == all[from + 1 + n]; }
      forall s: State ensures Get(Exec(k.registers, w, map[], junk, s, Colored(code, k.colors)).regs, r) == Get(s.regs, r) {
        PartAfter(k, w, junk, s, code, r);
      }
    }
  }

  // A state in which the frame's cell and the register have different values.
  function Differing(offset: int, r: nat): State {
    State(map[], map[r := 1], map[], map[offset := 0], Flags(CMP, 0, 0), 0)
  }

  lemma {:induction false} HeldBetween(k: Setting, w: World, b: nat, from: nat, idx: nat, r: nat)
    requires Between(k, w, b, from, idx, r)
    ensures Held(k, b, idx, r) <==> forall m :: from < m < idx ==> !WritesOver(k, k.blocks[b].instrs[m], r)
    decreases idx
  {
    hide WritesOver, WritesFixed;
    if from + 1 < idx {
      HeldBetween(k, w, b, from, idx - 1, r);
      assert ArgumentCode(k, w, k.blocks[b].instrs[idx - 1], r);
    }
  }

  // Elsewhere a vreg coloured r may be written and r keep its value: by a copy
  // of what is in r.
  lemma CopyKeeps(k: Setting, w: World, junk: Junk, s: State, x: nat, y: nat, r: nat)
    requires x in k.colors && y in k.colors && k.colors[x] == k.colors[y] == r && x !in k.fixedVregs
    ensures var i := Instr(MOV, Vreg(x), Vreg(y));
      WritesOver(k, i, r) && Get(Effect(k.registers, w, map[], junk, s, RecolorInstr(i, k.colors)).regs, r) == Get(s.regs, r)
  {
    assert x in Wrt(Instr(MOV, Vreg(x), Vreg(y)));
  }
}
