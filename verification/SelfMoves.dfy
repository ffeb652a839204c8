// A MOV from a register to itself does nothing, and goes.
module SelfMoves {
  import Ast
  import opened Machine
  import opened MachineRun
  import opened Ordered

  predicate IsSelfMove(i: Instr) {
    i.op.MOV? && i.dst.Preg? && i.src.Preg? && i.dst.r == i.src.r
  }

  function DropSelfMoves(code: seq<Instr>): seq<Instr> {
    if code == [] then []
    else DropSelfMoves(code[..|code| - 1]) + if IsSelfMove(code[|code| - 1]) then [] else [code[|code| - 1]]
  }

  function DropAll(blocks: seq<Block>): seq<Block> {
    seq(|blocks|, b requires 0 <= b < |blocks| => blocks[b].(instrs := DropSelfMoves(blocks[b].instrs)))
  }

  // What is left of the code, in order, when exactly the copies of a register
  // to itself go.
  ghost predicate IsLeft(code: seq<Instr>, out: seq<Instr>) {
    exists kept: seq<nat> :: StaysAt(code, kept, out)
  }

  ghost predicate Stays(code: seq<Instr>, n: nat) {
    n < |code| && !(code[n].op == MOV && code[n].dst.Preg? && code[n].src == code[n].dst)
  }

  ghost predicate StaysAt(code: seq<Instr>, kept: seq<nat>, out: seq<Instr>) {
    && Increasing(kept) && |out| == |kept|
    && (forall n: nat :: n in kept <==> Stays(code, n))
    && forall m :: 0 <= m < |kept| && kept[m] < |code| ==> out[m] == code[kept[m]]
  }

  lemma {:induction false} DroppedIsLeft(code: seq<Instr>) returns (kept: seq<nat>)
    ensures StaysAt(code, kept, DropSelfMoves(code))
  {
    hide StaysAt, IsSelfMove;
    kept := [];
    if code == [] {
      NothingStays();
    } else {
      var n := |code| - 1;
      var before := DroppedIsLeft(code[..n]);
      kept := before + if IsSelfMove(code[n]) then [] else [n];
      OneMoreStays(code, before, DropSelfMoves(code[..n]));
    }
  }

  lemma NothingStays()
    ensures StaysAt([], [], DropSelfMoves([]))
  {
  }

  lemma StaysInside(code: seq<Instr>, m: nat)
    requires Stays(code, m)
    ensures m < |code|
  {
  }

  lemma StaysBelow(code: seq<Instr>, m: nat)
    requires code != []
    ensures Stays(code, m) <==> if m == |code| - 1 then !IsSelfMove(code[m]) else Stays(code[..|code| - 1], m)
  {
  }

  lemma OneMoreStays(code: seq<Instr>, before: seq<nat>, out: seq<Instr>)
    requires code != [] && StaysAt(code[..|code| - 1], before, out)
    ensures var i := code[|code| - 1];
      StaysAt(code, before + if IsSelfMove(i) then [] else [|code| - 1], out + if IsSelfMove(i) then [] else [i])
  {
    hide Stays, IsSelfMove;
    var n := |code| - 1;
    var some, kept := code[..n], before + if IsSelfMove(code[n]) then [] else [n];
    assert forall m :: 0 <= m < n ==> some[m] == code[m];
    forall m | 0 <= m < |before| ensures before[m] < n && kept[m] == before[m] {
      assert before[m] in before && Stays(some, before[m]);
      StaysInside(some, before[m]);
    }
    forall m: nat ensures m in kept <==> Stays(code, m) {
      assert m in kept <==> m in before || (!IsSelfMove(code[n]) && m == n);
      assert m in before <==> Stays(some, m);
      StaysBelow(code, m);
    }
  }

  lemma SelfMovesGone(code: seq<Instr>)
    ensures IsLeft(code, DropSelfMoves(code))
  {
    var kept := DroppedIsLeft(code);
  }

  method RemoveSelfMoves(blocks: seq<Block>) returns (out: seq<Block>)
    ensures out == DropAll(blocks)
    ensures |out| == |blocks|
    ensures forall b: nat :: b < |blocks| ==> out[b].preds == blocks[b].preds && IsLeft(blocks[b].instrs, out[b].instrs)
  {
    hide IsLeft;
    out := [];
    var b := 0;
    while b < |blocks|
      invariant b <= |blocks| == |DropAll(blocks)|
      invariant out == DropAll(blocks)[..b]
    {
      var code, kept, n := blocks[b].instrs, [], 0;
      while n < |code|
        invariant n <= |code|
        invariant kept == DropSelfMoves(code[..n])
      {
        assert code[..n + 1][..n] == code[..n];
        if !IsSelfMove(code[n]) {
          kept := kept + [code[n]];
        }
        n := n + 1;
      }
      assert code[..n] == code;
      out := out + [blocks[b].(instrs := kept)];
      b := b + 1;
    }
    forall b: nat | b < |blocks| ensures IsLeft(blocks[b].instrs, out[b].instrs) { SelfMovesGone(blocks[b].instrs); }
  }

  // Every register has a value.
  ghost predicate Full(registers: seq<Register>, s: State) {
    forall r :: 0 <= r < |registers| ==> r in s.regs
  }

  // Code that names only registers of the table.
  ghost predicate Physical(registers: seq<Register>, blocks: seq<Block>) {
    forall b, n :: 0 <= b < |blocks| && 0 <= n < |blocks[b].instrs| ==> KnownRegister(registers, blocks[b].instrs[n].dst)
  }

  ghost predicate KnownRegister(registers: seq<Register>, o: Operand) {
    o.Preg? ==> o.r < |registers|
  }

  lemma StaysFull(registers: seq<Register>, w: World, junk: Junk, s: State, i: Instr)
    requires Full(registers, s)
    ensures Full(registers, Effect(registers, w, map[], junk, s, i))
  {
    hide Val, Write, AddressOf, AfterCall;
    forall t: State, v: Ast.Word | Full(registers, t) ensures Full(registers, Write(w, map[], t, i.dst, v)) {
      WriteStaysFull(registers, w, t, i.dst, v);
    }
    if i.op.CALL? && i.dst.Sym? {
      CallStaysFull(registers, w, junk, s, i.dst.id);
    } else if i.op.POP? {
      var top := s.(regs := s.regs[w.rsp := Ast.Wrap(Get(s.regs, w.rsp) + 8)]);
      assert Full(registers, top);
    }
  }

  lemma WriteStaysFull(registers: seq<Register>, w: World, s: State, o: Operand, v: Ast.Word)
    requires Full(registers, s)
    ensures Full(registers, Write(w, map[], s, o, v))
  {
  }

  lemma CallStaysFull(registers: seq<Register>, w: World, junk: Junk, s: State, f: nat)
    requires Full(registers, s)
    ensures Full(registers, AfterCall(registers, w, junk, s, f))
  {
  }

  // Where dropping leaves an instruction.
  lemma DroppedAt(code: seq<Instr>, n: nat)
    requires n < |code|
    ensures var p := |DropSelfMoves(code[..n])|;
      if IsSelfMove(code[n]) then |DropSelfMoves(code[..n + 1])| == p
      else p < |DropSelfMoves(code)| && DropSelfMoves(code)[p] == code[n] && |DropSelfMoves(code[..n + 1])| == p + 1
  {
    assert code[..n + 1][..n] == code[..n];
    DroppedPrefix(code, n + 1);
  }

  lemma {:induction false} DroppedPrefix(code: seq<Instr>, n: nat)
    requires n <= |code|
    ensures DropSelfMoves(code[..n]) <= DropSelfMoves(code)
  {
    if n == |code| {
      assert code[..n] == code;
    } else {
      DroppedPrefix(code[..|code| - 1], n);
      assert code[..|code| - 1][..n] == code[..n];
    }
  }

  ghost predicate InCode(blocks: seq<Block>, c: Config) {
    c.At? && c.block < |blocks| && c.idx <= |blocks[c.block].instrs|
  }

  // The same place in the code without self-moves.
  ghost function Image(blocks: seq<Block>, c: Config): Config {
    if InCode(blocks, c) then At(c.block, |DropSelfMoves(blocks[c.block].instrs[..c.idx])|, c.state) else c
  }

  ghost predicate Sane(registers: seq<Register>, blocks: seq<Block>, c: Config) {
    c.At? ==> (InCode(blocks, c) || c.block >= |blocks|) && Full(registers, c.state)
  }

  // A step on a self-move stays at the same place; any other is the same step there.
  lemma StepOnImage(registers: seq<Register>, blocks: seq<Block>, w: World, junk: Junk, c: Config)
    requires Physical(registers, blocks) && Sane(registers, blocks, c) && c.At?
    ensures var d := Step(registers, blocks, w, map[], junk, c);
      && Sane(registers, blocks, d)
      && if OnSelfMove(blocks, c) then d == At(c.block, c.idx + 1, c.state) && Image(blocks, d) == Image(blocks, c)
         else Step(registers, DropAll(blocks), w, map[], junk, Image(blocks, c)) == Image(blocks, d)
  {
    hide Effect, DropSelfMoves;
    if c.block < |blocks| {
      var code := blocks[c.block].instrs;
      if c.idx < |code| {
        DroppedAt(code, c.idx);
        StaysFull(registers, w, junk, c.state, code[c.idx]);
        if OnSelfMove(blocks, c) { SelfMoveDoesNothing(registers, blocks, w, junk, c); }
        StartOfBlock(blocks);
      } else {
        assert code[..c.idx] == code;
      }
    }
  }

  lemma StartOfBlock(blocks: seq<Block>)
    ensures forall t :: 0 <= t < |blocks| ==> |DropSelfMoves(blocks[t].instrs[..0])| == 0
  {
    forall t | 0 <= t < |blocks| ensures |DropSelfMoves(blocks[t].instrs[..0])| == 0 {
      assert blocks[t].instrs[..0] == [];
    }
  }

  ghost predicate OnSelfMove(blocks: seq<Block>, c: Config) {
    InCode(blocks, c) && c.idx < |blocks[c.block].instrs| && IsSelfMove(blocks[c.block].instrs[c.idx])
  }

  lemma SelfMoveDoesNothing(registers: seq<Register>, blocks: seq<Block>, w: World, junk: Junk, c: Config)
    requires Physical(registers, blocks) && Sane(registers, blocks, c) && OnSelfMove(blocks, c)
    ensures Step(registers, blocks, w, map[], junk, c) == At(c.block, c.idx + 1, c.state)
  {
    var r := blocks[c.block].instrs[c.idx].dst.r;
    assert KnownRegister(registers, blocks[c.block].instrs[c.idx].dst);
    assert c.state.regs[r := c.state.regs[r]] == c.state.regs;
  }

  lemma {:induction false} DropForward(registers: seq<Register>, blocks: seq<Block>, w: World, junk: Junk, c: Config, n: nat) returns (m: nat)
    requires Physical(registers, blocks) && Sane(registers, blocks, c)
    ensures m <= n
    ensures Run(registers, DropAll(blocks), w, map[], junk, Image(blocks, c), m) == Image(blocks, Run(registers, blocks, w, map[], junk, c, n))
    decreases n
  {
    hide Step, Physical, DropAll, Image;
    if n == 0 {
      m := 0;
    } else if !c.At? {
      RunOver(registers, blocks, w, map[], junk, c, n);
      m := 0;
    } else {
      StepOnImage(registers, blocks, w, junk, c);
      m := DropForward(registers, blocks, w, junk, Step(registers, blocks, w, map[], junk, c), n - 1);
      if !OnSelfMove(blocks, c) {
        ImageIsAt(blocks, c);
        m := m + 1;
      }
    }
  }

  lemma ImageIsAt(blocks: seq<Block>, c: Config)
    ensures Image(blocks, c).At? == c.At?
    ensures !c.At? ==> Image(blocks, c) == c
  {
  }

  lemma {:induction false} DropBackward(registers: seq<Register>, blocks: seq<Block>, w: World, junk: Junk, c: Config, m: nat) returns (n: nat)
    requires Physical(registers, blocks) && Sane(registers, blocks, c)
    requires !Run(registers, DropAll(blocks), w, map[], junk, Image(blocks, c), m).At?
    ensures Run(registers, blocks, w, map[], junk, c, n) == Run(registers, DropAll(blocks), w, map[], junk, Image(blocks, c), m)
    decreases m, if InCode(blocks, c) then |blocks[c.block].instrs| - c.idx else 0
  {
    hide Step, Physical, DropAll, Image;
    ImageIsAt(blocks, c);
    if !c.At? {
      RunOver(registers, DropAll(blocks), w, map[], junk, c, m);
      n := 0;
    } else {
      StepOnImage(registers, blocks, w, junk, c);
      n := DropBackward(registers, blocks, w, junk, Step(registers, blocks, w, map[], junk, c), if OnSelfMove(blocks, c) then m else m - 1);
      n := n + 1;
    }
  }

  // Both codes have the same runs that end, and end them the same way.
  lemma SelfMovesDoNothing(registers: seq<Register>, blocks: seq<Block>, w: World, junk: Junk, s: State, v: Ast.Word, mem: map<int, Ast.Word>)
    requires Physical(registers, blocks) && Full(registers, s) && |blocks| > 0
    ensures Ends(registers, blocks, w, map[], junk, s, v, mem) <==> Ends(registers, DropAll(blocks), w, map[], junk, s, v, mem)
  {
    var c := At(0, 0, s);
    StartOfBlock(blocks);
    assert Image(blocks, c) == c;
    if n: nat :| Run(registers, blocks, w, map[], junk, c, n) == Done(v, mem) {
      var m := DropForward(registers, blocks, w, junk, c, n);
    }
    if m: nat :| Run(registers, DropAll(blocks), w, map[], junk, c, m) == Done(v, mem) {
      var n := DropBackward(registers, blocks, w, junk, c, m);
    }
  }
}
