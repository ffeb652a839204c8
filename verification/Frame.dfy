// The stack frame: sections 3.2.1 and 3.2.2 of the System V AMD64 ABI.
module Frame {
  import opened Ast
  import opened Machine
  import opened MachineRun
  import opened Ordered

  // The effects of instructions that do not branch, one after the other.
  function Exec(registers: seq<Register>, w: World, homes: map<nat, nat>, junk: Junk, s: State, code: seq<Instr>): State {
    if code == [] then s
    else Effect(registers, w, homes, junk, Exec(registers, w, homes, junk, s, code[..|code| - 1]), code[|code| - 1])
  }

  lemma {:induction false} ExecAppend(registers: seq<Register>, w: World, homes: map<nat, nat>, junk: Junk, s: State, a: seq<Instr>, b: seq<Instr>)
    ensures Exec(registers, w, homes, junk, s, a + b) == Exec(registers, w, homes, junk, Exec(registers, w, homes, junk, s, a), b)
  {
    hide Effect;
    if b == [] {
      assert a + b == a;
    } else {
      assert (a + b)[..|a + b| - 1] == a + b[..|b| - 1];
      ExecAppend(registers, w, homes, junk, s, a, b[..|b| - 1]);
    }
  }

  lemma {:induction false} ExecSnoc(registers: seq<Register>, w: World, homes: map<nat, nat>, junk: Junk, s: State, code: seq<Instr>, i: Instr)
    ensures Exec(registers, w, homes, junk, s, code + [i]) == Effect(registers, w, homes, junk, Exec(registers, w, homes, junk, s, code), i)
  {
    hide Effect;
    assert (code + [i])[..|code + [i]| - 1] == code;
  }

  lemma {:induction false} ExecOne(registers: seq<Register>, w: World, homes: map<nat, nat>, junk: Junk, s: State, i: Instr)
    ensures Exec(registers, w, homes, junk, s, [i]) == Effect(registers, w, homes, junk, s, i)
  {
    hide Effect;
    ExecSnoc(registers, w, homes, junk, s, [], i);
    assert [] + [i] == [i];
  }

  ghost predicate StackArithmetic(w: World) {
    && w.rsp != w.rbp
    && (forall a: Word, b: Word :: w.arith(SUB, a, b) == Wrap(a - b))
    && (forall a: Word, b: Word :: w.arith(ADD, a, b) == Wrap(a + b))
  }

  // ----- Prologue and epilogue -----

  // Bytes reserved for slots: a multiple of 16, and 8 more when the number of
  // saved registers is odd.
  function FrameSize(offset: nat, saved: nat): (size: nat)
    ensures offset <= size < offset + 24
  {
    (offset + 15) / 16 * 16 + if saved % 2 == 1 then 8 else 0
  }

  function Opening(w: World, size: nat): seq<Instr>
    requires size < 0x8000_0000
  {
    [Instr(PUSH, Nothing, Preg(w.rbp)), Instr(MOV, Preg(w.rbp), Preg(w.rsp))]
    + if size > 0 then [Instr(SUB, Preg(w.rsp), Lit(size))] else []
  }

  function Closing(w: World): seq<Instr> {
    [Instr(MOV, Preg(w.rsp), Preg(w.rbp)), Instr(POP, Preg(w.rbp), Nothing)]
  }

  function Pushes(saved: seq<nat>): seq<Instr> {
    seq(|saved|, i requires 0 <= i < |saved| => Instr(PUSH, Nothing, Preg(saved[i])))
  }

  function Pops(order: seq<nat>): seq<Instr> {
    seq(|order|, i requires 0 <= i < |order| => Instr(POP, Preg(order[i]), Nothing))
  }

  function Backwards(xs: seq<nat>): (ys: seq<nat>)
    ensures |ys| == |xs| && forall i :: 0 <= i < |xs| ==> ys[i] == xs[|xs| - 1 - i]
  {
    if xs == [] then [] else [xs[|xs| - 1]] + Backwards(xs[..|xs| - 1])
  }

  method BuildFrame(w: World, offset: nat, calleeSaved: set<nat>) returns (prologue: seq<Instr>, epilogue: seq<Instr>, ghost saved: seq<nat>)
    requires offset < 0x4000_0000
    ensures Increasing(saved) && forall r :: r in saved <==> r in calleeSaved
    ensures |saved| == |calleeSaved|
    ensures prologue == Opening(w, FrameSize(offset, |saved|)) + Pushes(saved)
    ensures epilogue == Pops(Backwards(saved)) + Closing(w)
  {
    hide Pushes, Pops, Backwards, FrameSize, Increasing;
    prologue := [Instr(PUSH, Nothing, Preg(w.rbp)), Instr(MOV, Preg(w.rbp), Preg(w.rsp))];
    var size := (offset + 15) / 16 * 16;
    if |calleeSaved| % 2 == 1 {
      size := size + 8;
    }
    if size > 0 {
      prologue := prologue + [Instr(SUB, Preg(w.rsp), Lit(size))];
    }
    epilogue := [Instr(MOV, Preg(w.rsp), Preg(w.rbp)), Instr(POP, Preg(w.rbp), Nothing)];
    var registers := Sorted(calleeSaved);
    saved := registers;
    SortedSize(registers, calleeSaved);
    assert size == FrameSize(offset, |calleeSaved|) by { SizeIs(offset, |calleeSaved|); }
    NoneSaved();
    var i := 0;
    while i < |registers|
      invariant i <= |registers|
      invariant prologue == Opening(w, FrameSize(offset, |calleeSaved|)) + Pushes(registers[..i])
      invariant epilogue == Pops(Backwards(registers[..i])) + Closing(w)
    {
      prologue := prologue + [Instr(PUSH, Nothing, Preg(registers[i]))];
      epilogue := [Instr(POP, Preg(registers[i]), Nothing)] + epilogue;
      OneMoreSaved(registers, i);
      i := i + 1;
    }
    assert registers[..i] == registers;
  }

  lemma SizeIs(offset: nat, n: nat)
    ensures FrameSize(offset, n) == (offset + 15) / 16 * 16 + if n % 2 == 1 then 8 else 0
  {
  }

  lemma NoneSaved()
    ensures Pushes([]) == [] && Pops(Backwards([])) == []
  {
  }

  lemma OneMoreSaved(saved: seq<nat>, i: nat)
    requires i < |saved|
    ensures Pushes(saved[..i + 1]) == Pushes(saved[..i]) + [Instr(PUSH, Nothing, Preg(saved[i]))]
    ensures Pops(Backwards(saved[..i + 1])) == [Instr(POP, Preg(saved[i]), Nothing)] + Pops(Backwards(saved[..i]))
  {
    assert saved[..i + 1][..i] == saved[..i];
    assert Backwards(saved[..i + 1]) == [saved[i]] + Backwards(saved[..i]);
  }

  lemma {:induction false} SortedSize(xs: seq<nat>, s: set<nat>)
    requires Increasing(xs) && forall x :: x in xs <==> x in s
    ensures |xs| == |s|
  {
    if xs == [] {
      assert s == {};
    } else {
      var n := |xs| - 1;
      assert xs == xs[..n] + [xs[n]];
      SortedSize(xs[..n], s - {xs[n]});
    }
  }

  // ----- What they do -----

  // The stack has room for the frame: no address wraps.
  ghost predicate Room(s: State, w: World, size: nat, saved: nat) {
    -0x8000_0000_0000_0000 <= Get(s.regs, w.rsp) - 8 - size - 8 * saved
  }

  lemma {:induction false} OpeningRuns(registers: seq<Register>, w: World, homes: map<nat, nat>, junk: Junk, s: State, size: nat)
    requires StackArithmetic(w) && size < 0x8000_0000 && Room(s, w, size, 0)
    ensures var t := Exec(registers, w, homes, junk, s, Opening(w, size));
      var top := Get(s.regs, w.rsp) - 8;
      && Get(t.regs, w.rbp) == top && Get(t.regs, w.rsp) == top - size
      && t.mem == s.mem[top := Get(s.regs, w.rbp)] && t.vregs == s.vregs
      && forall r :: r != w.rbp && r != w.rsp ==> Get(t.regs, r) == Get(s.regs, r)
  {
    hide Effect;
    var top := Get(s.regs, w.rsp) - 8;
    WrapFits(top);
    WrapFits(top - size);
    var push, mov := Instr(PUSH, Nothing, Preg(w.rbp)), Instr(MOV, Preg(w.rbp), Preg(w.rsp));
    ExecOne(registers, w, homes, junk, s, push);
    ExecSnoc(registers, w, homes, junk, s, [push], mov);
    var s1 := Effect(registers, w, homes, junk, s, push);
    var s2 := Effect(registers, w, homes, junk, s1, mov);
    PushEffect(registers, w, homes, junk, s, w.rbp);
    MoveEffect(registers, w, homes, junk, s1, w.rbp, w.rsp);
    assert [push, mov] == [push] + [mov];
    if size > 0 {
      assert Opening(w, size) == [push, mov] + [Instr(SUB, Preg(w.rsp), Lit(size))];
      ExecSnoc(registers, w, homes, junk, s, [push, mov], Instr(SUB, Preg(w.rsp), Lit(size)));
      ArithEffect(registers, w, homes, junk, s2, SUB, size);
    } else {
      assert Opening(w, size) == [push, mov];
    }
  }

  lemma PushEffect(registers: seq<Register>, w: World, homes: map<nat, nat>, junk: Junk, s: State, r: nat)
    ensures var top := Wrap(Get(s.regs, w.rsp) - 8);
      Effect(registers, w, homes, junk, s, Instr(PUSH, Nothing, Preg(r)))
        == s.(regs := s.regs[w.rsp := top], mem := s.mem[top := Get(s.regs, r)])
  {
  }

  lemma PopEffect(registers: seq<Register>, w: World, homes: map<nat, nat>, junk: Junk, s: State, r: nat)
    ensures Effect(registers, w, homes, junk, s, Instr(POP, Preg(r), Nothing))
         == s.(regs := s.regs[w.rsp := Wrap(Get(s.regs, w.rsp) + 8)][r := Get(s.mem, Get(s.regs, w.rsp))])
  {
  }

  lemma MoveEffect(registers: seq<Register>, w: World, homes: map<nat, nat>, junk: Junk, s: State, r: nat, q: nat)
    ensures Effect(registers, w, homes, junk, s, Instr(MOV, Preg(r), Preg(q))) == s.(regs := s.regs[r := Get(s.regs, q)])
  {
  }

  lemma ArithEffect(registers: seq<Register>, w: World, homes: map<nat, nat>, junk: Junk, s: State, op: Opcode, n: Word)
    requires op.IsArith()
    ensures var t := Effect(registers, w, homes, junk, s, Instr(op, Preg(w.rsp), Lit(n)));
      t == s.(regs := s.regs[w.rsp := w.arith(op, Get(s.regs, w.rsp), n)], flags := t.flags)
  {
  }

  lemma WrapFits(x: int)
    requires -0x8000_0000_0000_0000 <= x < 0x8000_0000_0000_0000
    ensures Wrap(x) == x
  {
  }

  // Pushes put the registers below the stack pointer, the first highest.
  lemma {:induction false} PushesRun(registers: seq<Register>, w: World, homes: map<nat, nat>, junk: Junk, s: State, saved: seq<nat>)
    requires w.rsp !in saved && -0x8000_0000_0000_0000 <= Get(s.regs, w.rsp) - 8 * |saved|
    ensures var t := Exec(registers, w, homes, junk, s, Pushes(saved));
      var top := Get(s.regs, w.rsp);
      && Get(t.regs, w.rsp) == top - 8 * |saved|
      && (forall r :: r != w.rsp ==> Get(t.regs, r) == Get(s.regs, r))
      && (forall i :: 0 <= i < |saved| ==> Get(t.mem, top - 8 * (i + 1)) == Get(s.regs, saved[i]))
      && (forall a :: a >= top ==> Get(t.mem, a) == Get(s.mem, a))
  {
    hide Effect;
    if saved != [] {
      var n := |saved| - 1;
      PushesRun(registers, w, homes, junk, s, saved[..n]);
      var i := Instr(PUSH, Nothing, Preg(saved[n]));
      assert Pushes(saved) == Pushes(saved[..n]) + [i];
      WrapFits(Get(s.regs, w.rsp) - 8 * (n + 1));
      ExecSnoc(registers, w, homes, junk, s, Pushes(saved[..n]), i);
      PushEffect(registers, w, homes, junk, Exec(registers, w, homes, junk, s, Pushes(saved[..n])), saved[n]);
    }
  }

  // Pops take registers from the stack pointer upwards.
  lemma {:induction false} PopsRun(registers: seq<Register>, w: World, homes: map<nat, nat>, junk: Junk, s: State, order: seq<nat>)
    requires w.rsp !in order && Get(s.regs, w.rsp) + 8 * |order| < 0x8000_0000_0000_0000
    requires forall i, j :: 0 <= i < j < |order| ==> order[i] != order[j]
    ensures var t := Exec(registers, w, homes, junk, s, Pops(order));
      var bottom := Get(s.regs, w.rsp);
      && Get(t.regs, w.rsp) == bottom + 8 * |order| && t.mem == s.mem
      && (forall i :: 0 <= i < |order| ==> Get(t.regs, order[i]) == Get(s.mem, bottom + 8 * i))
      && (forall r :: r != w.rsp && r !in order ==> Get(t.regs, r) == Get(s.regs, r))
  {
    hide Effect, Exec, Pops;
    PopsParts(registers, w, homes, junk, s, order);
    if order != [] {
      var n := |order| - 1;
      PopsRun(registers, w, homes, junk, s, order[..n]);
      WrapFits(Get(s.regs, w.rsp) + 8 * |order|);
      PopEffect(registers, w, homes, junk, Exec(registers, w, homes, junk, s, Pops(order[..n])), order[n]);
      assert order == order[..n] + [order[n]];
    }
  }

  // Popping a list is popping all but the last, then the last.
  lemma {:induction false} PopsParts(registers: seq<Register>, w: World, homes: map<nat, nat>, junk: Junk, s: State, order: seq<nat>)
    ensures Exec(registers, w, homes, junk, s, Pops(order)) ==
      if order == [] then s
      else Effect(registers, w, homes, junk, Exec(registers, w, homes, junk, s, Pops(order[..|order| - 1])),
        Instr(POP, Preg(order[|order| - 1]), Nothing))
  {
    hide Effect;
    if order != [] {
      var n := |order| - 1;
      var i := Instr(POP, Preg(order[n]), Nothing);
      assert Pops(order) == Pops(order[..n]) + [i];
      ExecSnoc(registers, w, homes, junk, s, Pops(order[..n]), i);
    }
  }

  // The state the body starts in.
  ghost function Entered(registers: seq<Register>, w: World, homes: map<nat, nat>, junk: Junk, s: State, offset: nat, saved: seq<nat>): State
    requires offset < 0x4000_0000
  {
    Exec(registers, w, homes, junk, s, Opening(w, FrameSize(offset, |saved|)) + Pushes(saved))
  }

  // On entry the stack pointer is 8 off a multiple of 16, the return address
  // having been pushed. The body starts with it aligned, the registers to save
  // below the slots, and the old RBP at [RBP].
  lemma {:induction false} PrologueAligns(registers: seq<Register>, w: World, homes: map<nat, nat>, junk: Junk, s: State, offset: nat, saved: seq<nat>)
    requires StackArithmetic(w) && offset < 0x4000_0000 && Room(s, w, FrameSize(offset, |saved|), |saved|)
    requires w.rsp !in saved && w.rbp !in saved
    ensures var t := Entered(registers, w, homes, junk, s, offset, saved);
      var top := Get(s.regs, w.rsp) - 8;
      && Get(t.regs, w.rbp) == top
      && Get(t.regs, w.rsp) == top - FrameSize(offset, |saved|) - 8 * |saved|
      && (Get(s.regs, w.rsp) % 16 == 8 ==> Get(t.regs, w.rsp) % 16 == 0)
      && Get(t.mem, top) == Get(s.regs, w.rbp)
      && (forall i :: 0 <= i < |saved| ==> Get(t.mem, Get(t.regs, w.rsp) + 8 * i) == Get(s.regs, Backwards(saved)[i]))
      && (forall a :: a > top ==> Get(t.mem, a) == Get(s.mem, a))
  {
    hide Effect, Exec, Opening, Pushes, Backwards, FrameSize;
    var size := FrameSize(offset, |saved|);
    var u := Exec(registers, w, homes, junk, s, Opening(w, size));
    OpeningRuns(registers, w, homes, junk, s, size);
    PushesRun(registers, w, homes, junk, u, saved);
    ExecAppend(registers, w, homes, junk, s, Opening(w, size), Pushes(saved));
    var t := Entered(registers, w, homes, junk, s, offset, saved);
    forall i | 0 <= i < |saved| ensures Get(t.mem, Get(t.regs, w.rsp) + 8 * i) == Get(s.regs, Backwards(saved)[i]) {
      var j := |saved| - 1 - i;
      assert Get(t.mem, Get(u.regs, w.rsp) - 8 * (j + 1)) == Get(u.regs, saved[j]);
    }
    if Get(s.regs, w.rsp) % 16 == 8 { FrameAligned(Get(s.regs, w.rsp), offset, |saved|); }
  }

  lemma FrameAligned(rsp: int, offset: nat, saved: nat)
    requires rsp % 16 == 8
    ensures (rsp - 8 - FrameSize(offset, saved) - 8 * saved) % 16 == 0
  {
    var q, h := (offset + 15) / 16, saved / 2;
    assert FrameSize(offset, saved) + 8 * saved == 16 * (q + h + saved % 2);
    var m := rsp / 16;
    assert rsp - 8 - 16 * (q + h + saved % 2) == 16 * (m - q - h - saved % 2);
  }

  // A body that leaves RSP and RBP, the saved registers and what is above the
  // frame as it found them.
  ghost predicate Balanced(w: World, t: State, u: State, saved: nat) {
    && Get(u.regs, w.rsp) == Get(t.regs, w.rsp) && Get(u.regs, w.rbp) == Get(t.regs, w.rbp)
    && (forall i :: 0 <= i < saved ==> Get(u.mem, Get(t.regs, w.rsp) + 8 * i) == Get(t.mem, Get(t.regs, w.rsp) + 8 * i))
    && (forall a :: a >= Get(t.regs, w.rbp) ==> Get(u.mem, a) == Get(t.mem, a))
  }

  // After the epilogue RSP, RBP and every saved register are what they were on
  // entry, and so is the stack above.
  lemma {:induction false} EpilogueRestores(registers: seq<Register>, w: World, homes: map<nat, nat>, junk: Junk, s: State, u: State, offset: nat, saved: seq<nat>)
    requires StackArithmetic(w) && offset < 0x4000_0000 && Room(s, w, FrameSize(offset, |saved|), |saved|)
    requires Increasing(saved) && w.rsp !in saved && w.rbp !in saved
    requires Balanced(w, Entered(registers, w, homes, junk, s, offset, saved), u, |saved|)
    ensures var v := Exec(registers, w, homes, junk, u, Pops(Backwards(saved)) + Closing(w));
      && Get(v.regs, w.rsp) == Get(s.regs, w.rsp) && Get(v.regs, w.rbp) == Get(s.regs, w.rbp)
      && (forall r :: r in saved ==> Get(v.regs, r) == Get(s.regs, r))
      && (forall r :: r !in saved && r != w.rsp && r != w.rbp ==> Get(v.regs, r) == Get(u.regs, r))
      && (forall a :: a >= Get(s.regs, w.rsp) ==> Get(v.mem, a) == Get(s.mem, a))
  {
    hide Effect, Entered, Exec, Pops, Closing, Backwards;
    PrologueAligns(registers, w, homes, junk, s, offset, saved);
    var order := Backwards(saved);
    BackwardsOnce(saved);
    PopsRun(registers, w, homes, junk, u, order);
    ExecAppend(registers, w, homes, junk, u, Pops(order), Closing(w));
    ClosingRuns(registers, w, homes, junk, Exec(registers, w, homes, junk, u, Pops(order)));
    var v := Exec(registers, w, homes, junk, u, Pops(order) + Closing(w));
    forall r | r in saved ensures Get(v.regs, r) == Get(s.regs, r) {
      var i :| 0 <= i < |order| && order[i] == r;
    }
  }

  lemma {:induction false} BackwardsOnce(saved: seq<nat>)
    requires Increasing(saved)
    ensures forall r :: r in Backwards(saved) <==> r in saved
    ensures forall i, j :: 0 <= i < j < |saved| ==> Backwards(saved)[i] != Backwards(saved)[j]
  {
    forall r | r in saved ensures r in Backwards(saved) {
      var j :| 0 <= j < |saved| && saved[j] == r;
      assert Backwards(saved)[|saved| - 1 - j] == r;
    }
  }

  lemma {:induction false} ClosingRuns(registers: seq<Register>, w: World, homes: map<nat, nat>, junk: Junk, s: State)
    requires w.rsp != w.rbp && Get(s.regs, w.rbp) + 8 < 0x8000_0000_0000_0000
    ensures var t := Exec(registers, w, homes, junk, s, Closing(w));
      && Get(t.regs, w.rsp) == Get(s.regs, w.rbp) + 8 && Get(t.regs, w.rbp) == Get(s.mem, Get(s.regs, w.rbp)) && t.mem == s.mem
      && forall r :: r != w.rbp && r != w.rsp ==> Get(t.regs, r) == Get(s.regs, r)
  {
    hide Effect;
    WrapFits(Get(s.regs, w.rbp) + 8);
    var mov, pop := Instr(MOV, Preg(w.rsp), Preg(w.rbp)), Instr(POP, Preg(w.rbp), Nothing);
    assert Closing(w) == [mov] + [pop];
    ExecOne(registers, w, homes, junk, s, mov);
    ExecSnoc(registers, w, homes, junk, s, [mov], pop);
    MoveEffect(registers, w, homes, junk, s, w.rsp, w.rbp);
    PopEffect(registers, w, homes, junk, s.(regs := s.regs[w.rsp := Get(s.regs, w.rbp)]), w.rbp);
  }

  // Slots, saved registers and outgoing arguments are apart: slots end at
  // RBP - offset, saved registers are below the frame, arguments below RSP.
  lemma AreasApart(rbp: int, offset: nat, saved: nat, slot: int, i: nat, k: nat)
    requires slot < 0 <= offset + slot && i < saved
    ensures var rsp := rbp - FrameSize(offset, saved) - 8 * saved;
      rsp - 8 * (k + 1) < rsp <= rsp + 8 * i && rsp + 8 * i + 8 <= rbp + slot < rbp
  {
    assert offset <= (offset + 15) / 16 * 16;
  }

  // ----- Calls -----

  // Bytes for the arguments that go on the stack, rounded up to a multiple of 16.
  function ArgumentArea(n: nat): (size: nat)
    ensures size % 16 == 0 && 8 * n <= size < 8 * n + 16
  {
    8 * n + if n % 2 == 1 then 8 else 0
  }

  function Arguments(w: World, args: seq<Operand>): seq<Instr> {
    seq(|args|, i requires 0 <= i < |args| => Instr(MOV, Mem(w.rsp, 8 * i), args[i]))
  }

  function BeforeCall(w: World, args: seq<Operand>): seq<Instr>
    requires |args| < 0x1000_0000
  {
    if args == [] then [] else [Instr(SUB, Preg(w.rsp), Lit(ArgumentArea(|args|)))] + Arguments(w, args)
  }

  function AfterwardsCode(w: World, n: nat): seq<Instr>
    requires n < 0x1000_0000
  {
    if n == 0 then [] else [Instr(ADD, Preg(w.rsp), Lit(ArgumentArea(n)))]
  }

  method StackArguments(w: World, args: seq<Operand>) returns (before: seq<Instr>, afterwards: seq<Instr>)
    requires |args| < 0x1000_0000
    ensures before == BeforeCall(w, args) && afterwards == AfterwardsCode(w, |args|)
  {
    before, afterwards := [], [];
    var padding := if |args| % 2 == 1 then 8 else 0;
    var size := 8 * |args| + padding;
    if size > 0 {
      before := [Instr(SUB, Preg(w.rsp), Lit(size))];
      var i := 0;
      while i < |args|
        invariant i <= |args|
        invariant before == [Instr(SUB, Preg(w.rsp), Lit(size))] + Arguments(w, args)[..i]
      {
        before := before + [Instr(MOV, Mem(w.rsp, 8 * i), args[i])];
        i := i + 1;
      }
      assert Arguments(w, args)[..i] == Arguments(w, args);
      afterwards := [Instr(ADD, Preg(w.rsp), Lit(size))];
    }
  }

  // An argument whose value is in a register that is not RSP, or is a constant.
  ghost predicate PlainArgument(w: World, homes: map<nat, nat>, o: Operand) {
    o.Lit? || (o.Vreg? && (o.v in homes ==> homes[o.v] != w.rsp))
  }

  lemma {:induction false} ArgumentsRun(registers: seq<Register>, w: World, homes: map<nat, nat>, junk: Junk, s: State, args: seq<Operand>, n: nat)
    requires w.rsp != w.rbp && n <= |args| && forall i :: 0 <= i < |args| ==> PlainArgument(w, homes, args[i])
    ensures var t := Exec(registers, w, homes, junk, s, Arguments(w, args)[..n]);
      var bottom := Get(s.regs, w.rsp);
      && t == s.(mem := t.mem)
      && (forall i :: 0 <= i < n ==> Get(t.mem, bottom + 8 * i) == Val(w, homes, s, args[i]))
      && (forall a :: a < bottom || a >= bottom + 8 * n ==> Get(t.mem, a) == Get(s.mem, a))
  {
    hide Effect;
    if n > 0 {
      ArgumentsRun(registers, w, homes, junk, s, args, n - 1);
      var i := Instr(MOV, Mem(w.rsp, 8 * (n - 1)), args[n - 1]);
      assert Arguments(w, args)[..n] == Arguments(w, args)[..n - 1] + [i];
      ExecSnoc(registers, w, homes, junk, s, Arguments(w, args)[..n - 1], i);
      StoreEffect(registers, w, homes, junk, Exec(registers, w, homes, junk, s, Arguments(w, args)[..n - 1]), 8 * (n - 1), args[n - 1]);
      assert PlainArgument(w, homes, args[n - 1]);
    }
  }

  lemma StoreEffect(registers: seq<Register>, w: World, homes: map<nat, nat>, junk: Junk, s: State, offset: nat, o: Operand)
    requires w.rsp != w.rbp
    ensures Effect(registers, w, homes, junk, s, Instr(MOV, Mem(w.rsp, offset), o))
         == s.(mem := s.mem[Get(s.regs, w.rsp) + offset := Val(w, homes, s, o)])
  {
  }

  // At the call the stack pointer is aligned, argument i is at [RSP + 8 i], and
  // nothing at or above the old stack pointer has changed.
  lemma {:induction false} CallAligned(registers: seq<Register>, w: World, homes: map<nat, nat>, junk: Junk, s: State, args: seq<Operand>)
    requires StackArithmetic(w) && |args| < 0x1000_0000 && Get(s.regs, w.rsp) % 16 == 0
    requires -0x8000_0000_0000_0000 <= Get(s.regs, w.rsp) - ArgumentArea(|args|)
    requires forall i :: 0 <= i < |args| ==> PlainArgument(w, homes, args[i])
    ensures var t := Exec(registers, w, homes, junk, s, BeforeCall(w, args));
      && Get(t.regs, w.rsp) == Get(s.regs, w.rsp) - ArgumentArea(|args|) && Get(t.regs, w.rsp) % 16 == 0
      && (forall i :: 0 <= i < |args| ==> Get(t.mem, Get(t.regs, w.rsp) + 8 * i) == Val(w, homes, s, args[i]))
      && (forall a :: a >= Get(s.regs, w.rsp) ==> Get(t.mem, a) == Get(s.mem, a))
  {
    hide Effect, Exec, BeforeCall, Arguments, Val;
    if args != [] {
      AreaReserved(registers, w, homes, junk, s, args);
      var u := Effect(registers, w, homes, junk, s, Instr(SUB, Preg(w.rsp), Lit(ArgumentArea(|args|))));
      ArgumentsRun(registers, w, homes, junk, u, args, |args|);
      AreaAligned(|args|);
      forall i | 0 <= i < |args| ensures Val(w, homes, u, args[i]) == Val(w, homes, s, args[i]) {
        PlainArgumentSame(w, homes, s, u, args[i]);
      }
    } else {
      NoArguments(registers, w, homes, junk, s);
    }
  }

  lemma {:induction false} AreaReserved(registers: seq<Register>, w: World, homes: map<nat, nat>, junk: Junk, s: State, args: seq<Operand>)
    requires StackArithmetic(w) && 0 < |args| < 0x1000_0000
    requires -0x8000_0000_0000_0000 <= Get(s.regs, w.rsp) - ArgumentArea(|args|)
    ensures var u := Effect(registers, w, homes, junk, s, Instr(SUB, Preg(w.rsp), Lit(ArgumentArea(|args|))));
      && u == s.(regs := s.regs[w.rsp := Get(s.regs, w.rsp) - ArgumentArea(|args|)], flags := u.flags)
      && Exec(registers, w, homes, junk, s, BeforeCall(w, args)) == Exec(registers, w, homes, junk, u, Arguments(w, args)[..|args|])
  {
    hide Effect;
    var size := ArgumentArea(|args|);
    WrapFits(Get(s.regs, w.rsp) - size);
    var sub := Instr(SUB, Preg(w.rsp), Lit(size));
    ExecOne(registers, w, homes, junk, s, sub);
    ArithEffect(registers, w, homes, junk, s, SUB, size);
    ExecAppend(registers, w, homes, junk, s, [sub], Arguments(w, args));
    assert Arguments(w, args)[..|args|] == Arguments(w, args);
  }

  lemma PlainArgumentSame(w: World, homes: map<nat, nat>, s: State, u: State, o: Operand)
    requires PlainArgument(w, homes, o) && u.vregs == s.vregs && forall r :: r != w.rsp ==> Get(u.regs, r) == Get(s.regs, r)
    ensures Val(w, homes, u, o) == Val(w, homes, s, o)
  {
  }

  lemma {:induction false} NoArguments(registers: seq<Register>, w: World, homes: map<nat, nat>, junk: Junk, s: State)
    ensures ArgumentArea(0) == 0 && Exec(registers, w, homes, junk, s, BeforeCall(w, [])) == s
  {
  }

  lemma AreaAligned(n: nat)
    ensures ArgumentArea(n) == 16 * (n / 2 + n % 2)
  {
  }

  // Afterwards the stack pointer is back.
  lemma {:induction false} CallRestores(registers: seq<Register>, w: World, homes: map<nat, nat>, junk: Junk, s: State, n: nat)
    requires StackArithmetic(w) && n < 0x1000_0000 && Get(s.regs, w.rsp) + ArgumentArea(n) < 0x8000_0000_0000_0000
    ensures Get(Exec(registers, w, homes, junk, s, AfterwardsCode(w, n)).regs, w.rsp) == Get(s.regs, w.rsp) + ArgumentArea(n)
  {
    WrapFits(Get(s.regs, w.rsp) + ArgumentArea(n));
    hide Effect;
    if n > 0 {
      ExecOne(registers, w, homes, junk, s, Instr(ADD, Preg(w.rsp), Lit(ArgumentArea(n))));
      ArithEffect(registers, w, homes, junk, s, ADD, ArgumentArea(n));
    } else {
      assert Exec(registers, w, homes, junk, s, []) == s;
    }
  }
}
