// What instructions read and write, told by what running them does.
module ReadsAndWrites {
  import opened Ast
  import opened Machine
  import opened MachineRun

  // The vregs are cells of their own.
  function After(registers: seq<Register>, w: World, junk: Junk, s: State, i: Instr): State {
    Effect(registers, w, map[], junk, s, i)
  }

  function With(s: State, x: nat, v: Word): State { s.(vregs := s.vregs[x := v]) }

  // Nothing but x tells the states apart.
  ghost predicate SameBut(s: State, t: State, x: nat) {
    && s.regs == t.regs && s.mem == t.mem && s.frame == t.frame && s.flags == t.flags && s.calls == t.calls
    && forall y: nat :: y != x ==> Get(s.vregs, y) == Get(t.vregs, y)
  }

  // What x holds makes a difference to what is there afterwards, x itself aside.
  ghost predicate Matters(registers: seq<Register>, i: Instr, x: nat) {
    exists w, junk: Junk, s, u: Word, v: Word :: MattersHere(registers, w, junk, s, i, x, u, v)
  }

  ghost predicate MattersHere(registers: seq<Register>, w: World, junk: Junk, s: State, i: Instr, x: nat, u: Word, v: Word) {
    !SameBut(After(registers, w, junk, With(s, x, u), i), After(registers, w, junk, With(s, x, v), i), x)
  }

  ghost predicate Changes(registers: seq<Register>, i: Instr, x: nat) {
    exists w, junk: Junk, s :: ChangesHere(registers, w, junk, s, i, x)
  }

  ghost predicate ChangesHere(registers: seq<Register>, w: World, junk: Junk, s: State, i: Instr, x: nat) {
    Get(After(registers, w, junk, s, i).vregs, x) != Get(s.vregs, x)
  }

  // A copy or a load of an address goes somewhere else than it comes from.
  predicate Sensible(i: Instr) {
    i.op.MOV? || i.op.LEA? ==> i.dst != i.src && (i.dst.Vreg? || i.dst.Preg? || i.dst.Mem?)
  }

  // A world in which nothing happens of itself, and an empty state.
  function Still(): World {
    World(0, 1, 2, f => [], (f, args, top, mem) => (0, mem), (op, a, b) => 0, (op, flags) => false, id => 0)
  }

  function Empty(): State { State(map[], map[], map[], map[], Flags(MOV, 0, 0), 0) }

  function NoJunk(): Junk { (n, r) => 0 }

  lemma UsedMatters(registers: seq<Register>, i: Instr, x: nat)
    requires Sensible(i) && x in Use(i)
    ensures Matters(registers, i, x)
  {
    var s, t := With(Empty(), x, 0), With(Empty(), x, 1);
    var w := Still();
    var s', t' := After(registers, w, NoJunk(), s, i), After(registers, w, NoJunk(), t, i);
    assert Val(w, map[], s, Vreg(x)) == 0 && Val(w, map[], t, Vreg(x)) == 1;
    if i.op.MOV? || i.op.LEA? {
      assert i.src == Vreg(x);
      WriteDiffers(w, s, t, i.dst, 0, 1, x);
    } else if i.op.PUSH? {
      assert Get(s'.mem, -8) == 0 && Get(t'.mem, -8) == 1;
    } else {
      assert s'.flags != t'.flags;
    }
    assert MattersHere(registers, w, NoJunk(), Empty(), i, x, 0, 1);
  }

  lemma WriteDiffers(w: World, s: State, t: State, o: Operand, u: Word, v: Word, x: nat)
    requires u != v && o != Vreg(x) && (o.Vreg? || o.Preg? || o.Mem?) && s.regs == t.regs
    ensures !SameBut(Write(w, map[], s, o, u), Write(w, map[], t, o, v), x)
  {
    hide Write, SameBut;
    if o.Vreg? { VregDiffers(w, s, t, o.v, u, v, x); }
    else if o.Preg? { PregDiffers(w, s, t, o.r, u, v, x); }
    else { MemDiffers(w, s, t, o.base, o.offset, u, v, x); }
  }

  lemma VregDiffers(w: World, s: State, t: State, y: nat, u: Word, v: Word, x: nat)
    requires u != v && y != x
    ensures !SameBut(Write(w, map[], s, Vreg(y), u), Write(w, map[], t, Vreg(y), v), x)
  {
    assert Get(s.vregs[y := u], y) != Get(t.vregs[y := v], y);
  }

  lemma PregDiffers(w: World, s: State, t: State, r: nat, u: Word, v: Word, x: nat)
    requires u != v
    ensures !SameBut(Write(w, map[], s, Preg(r), u), Write(w, map[], t, Preg(r), v), x)
  {
    assert s.regs[r := u][r] != t.regs[r := v][r];
  }

  lemma MemDiffers(w: World, s: State, t: State, base: nat, offset: int, u: Word, v: Word, x: nat)
    requires u != v && s.regs == t.regs
    ensures !SameBut(Write(w, map[], s, Mem(base, offset), u), Write(w, map[], t, Mem(base, offset), v), x)
  {
    var a := Get(s.regs, base) + offset;
    assert s.frame[offset := u][offset] != t.frame[offset := v][offset];
    assert s.mem[a := u][a] != t.mem[a := v][a];
  }

  lemma ValueWithout(w: World, s: State, t: State, o: Operand, x: nat)
    requires SameBut(s, t, x) && o != Vreg(x)
    ensures Val(w, map[], s, o) == Val(w, map[], t, o) && AddressOf(w, map[], s, o) == AddressOf(w, map[], t, o)
  {
  }

  lemma SameWrite(w: World, s: State, t: State, o: Operand, v: Word, x: nat)
    requires SameBut(s, t, x)
    ensures SameBut(Write(w, map[], s, o, v), Write(w, map[], t, o, v), x)
  {
    if o.Vreg? {
      var s', t' := Write(w, map[], s, o, v), Write(w, map[], t, o, v);
      forall y: nat | y != x ensures Get(s'.vregs, y) == Get(t'.vregs, y) { assert Get(s.vregs, y) == Get(t.vregs, y); }
    }
  }

  lemma UnusedDoesNot(registers: seq<Register>, w: World, junk: Junk, s: State, t: State, i: Instr, x: nat)
    requires SameBut(s, t, x) && x !in Use(i)
    ensures SameBut(After(registers, w, junk, s, i), After(registers, w, junk, t, i), x)
  {
    hide Val, AddressOf, Write, SameBut, AfterCall;
    if i.op.MOV? {
      ValueWithout(w, s, t, i.src, x);
      SameWrite(w, s, t, i.dst, Val(w, map[], s, i.src), x);
    } else if i.op.LEA? {
      ValueWithout(w, s, t, i.src, x);
      SameWrite(w, s, t, i.dst, AddressOf(w, map[], s, i.src), x);
    } else if i.op.IsArith() {
      ArithWithout(registers, w, junk, s, t, i, x);
    } else {
      RestWithout(registers, w, junk, s, t, i, x);
    }
  }

  lemma ArithWithout(registers: seq<Register>, w: World, junk: Junk, s: State, t: State, i: Instr, x: nat)
    requires i.op.IsArith() && SameBut(s, t, x) && i.src != Vreg(x) && i.dst != Vreg(x)
    ensures SameBut(After(registers, w, junk, s, i), After(registers, w, junk, t, i), x)
  {
    hide Val, AddressOf, Write;
    ValueWithout(w, s, t, i.src, x);
    ValueWithout(w, s, t, i.dst, x);
    SameWrite(w, s, t, i.dst, w.arith(i.op, Val(w, map[], s, i.dst), Val(w, map[], s, i.src)), x);
  }

  lemma RestWithout(registers: seq<Register>, w: World, junk: Junk, s: State, t: State, i: Instr, x: nat)
    requires SameBut(s, t, x) && x !in Use(i) && !i.op.MOV? && !i.op.LEA? && !i.op.IsArith()
    ensures SameBut(After(registers, w, junk, s, i), After(registers, w, junk, t, i), x)
  {
    hide Val, AddressOf, Write;
    if i.op.CMP? {
      ValueWithout(w, s, t, i.src, x);
      ValueWithout(w, s, t, i.dst, x);
    } else if i.op.PUSH? {
      ValueWithout(w, s, t, i.src, x);
    } else if i.op.POP? {
      var top := Wrap(Get(s.regs, w.rsp) + 8);
      SameWrite(w, s.(regs := s.regs[w.rsp := top]), t.(regs := t.regs[w.rsp := top]), i.dst, Get(s.mem, Get(s.regs, w.rsp)), x);
    }
  }

  // An instruction uses a vreg exactly when what the vreg holds matters.
  lemma UseIsExact(registers: seq<Register>, i: Instr, x: nat)
    requires Sensible(i)
    ensures x in Use(i) <==> Matters(registers, i, x)
  {
    hide Use, MattersHere, After, SameBut;
    if x in Use(i) {
      UsedMatters(registers, i, x);
    } else {
      forall w, junk: Junk, s, u: Word, v: Word ensures !MattersHere(registers, w, junk, s, i, x, u, v) {
        DoesNotMatter(registers, w, junk, s, i, x, u, v);
      }
    }
  }

  lemma DoesNotMatter(registers: seq<Register>, w: World, junk: Junk, s: State, i: Instr, x: nat, u: Word, v: Word)
    requires x !in Use(i)
    ensures !MattersHere(registers, w, junk, s, i, x, u, v)
  {
    hide After, Use;
    assert SameBut(With(s, x, u), With(s, x, v), x);
    UnusedDoesNot(registers, w, junk, With(s, x, u), With(s, x, v), i, x);
  }

  lemma WrittenChanges(registers: seq<Register>, i: Instr, x: nat)
    requires Sensible(i) && x in Wrt(i)
    ensures Changes(registers, i, x)
  {
    var v: Word := if i.op.MOV? then Val(Still(), map[], Empty(), i.src) else if i.op.LEA? then AddressOf(Still(), map[], Empty(), i.src) else 0;
    assert ChangesHere(registers, Still(), NoJunk(), With(Empty(), x, if v == 0 then 1 else 0), i, x);
  }

  lemma UnwrittenStays(registers: seq<Register>, w: World, junk: Junk, s: State, i: Instr, x: nat)
    requires x !in Wrt(i)
    ensures !ChangesHere(registers, w, junk, s, i, x)
  {
    hide Val, AddressOf, Write;
    if i.op.MOV? || i.op.LEA? || i.op.IsArith() || i.op.POP? {
      forall t: State, v: Word ensures Get(Write(w, map[], t, i.dst, v).vregs, x) == Get(t.vregs, x) { WriteElsewhere(w, t, i.dst, v, x); }
    }
  }

  lemma WriteElsewhere(w: World, s: State, o: Operand, v: Word, x: nat)
    requires o != Vreg(x)
    ensures Get(Write(w, map[], s, o, v).vregs, x) == Get(s.vregs, x)
  {
  }

  // And writes it exactly when it can change what the vreg holds.
  lemma WrtIsExact(registers: seq<Register>, i: Instr, x: nat)
    requires Sensible(i)
    ensures x in Wrt(i) <==> Changes(registers, i, x)
  {
    hide Wrt, ChangesHere, After;
    if x in Wrt(i) {
      WrittenChanges(registers, i, x);
    } else {
      forall w, junk: Junk, s ensures !ChangesHere(registers, w, junk, s, i, x) { UnwrittenStays(registers, w, junk, s, i, x); }
    }
  }

  // ----- Addresses and jumps -----

  // LEA gives the address of its operand, modulo 2^64.
  lemma AddressLoaded(registers: seq<Register>, w: World, junk: Junk, s: State, x: nat, base: nat, offset: int)
    ensures var v := Get(After(registers, w, junk, s, Instr(LEA, Vreg(x), Mem(base, offset))).vregs, x);
      (v - (Get(s.regs, base) + offset)) % WORD_MODULUS == 0
  {
  }

  // A comparison and a conditional jump: the jump goes to its target exactly if
  // taken says so of the operands compared, and otherwise to the instruction below.
  lemma ComparedThenJumps(registers: seq<Register>, blocks: seq<Block>, w: World, junk: Junk, b: nat, idx: nat, s: State)
    requires IsPoint(blocks, Point(b, idx)) && IsPoint(blocks, Point(b, idx + 1))
    requires blocks[b].instrs[idx].op == CMP && blocks[b].instrs[idx + 1].op in {JG, JGE, JL, JLE, JE, JNE}
    requires blocks[b].instrs[idx + 1].dst.Sym?
    ensures var compare, jump := blocks[b].instrs[idx], blocks[b].instrs[idx + 1];
      var flags := Flags(CMP, Val(w, map[], s, compare.dst), Val(w, map[], s, compare.src));
      Run(registers, blocks, w, map[], junk, At(b, idx, s), 2) ==
        if w.taken(jump.op, flags) then At(jump.dst.id, 0, s.(flags := flags)) else At(b, idx + 2, s.(flags := flags))
  {
    var c := Step(registers, blocks, w, map[], junk, At(b, idx, s));
    assert Run(registers, blocks, w, map[], junk, At(b, idx, s), 2) == Run(registers, blocks, w, map[], junk, c, 1);
    assert Run(registers, blocks, w, map[], junk, c, 1) == Run(registers, blocks, w, map[], junk, Step(registers, blocks, w, map[], junk, c), 0);
  }
}
