// What machine code does, before and after registers are assigned.
module MachineRun {
  import opened Ast
  import opened Machine

  // The operation that set the flags last, with its operands: all that a
  // conditional jump can depend on.
  datatype Flags = Flags(op: Opcode, a: Word, b: Word)

  // frame: the function's own cells below RBP; mem: all other memory. A callee
  // does not touch the frame. calls: how many calls were made.
  datatype State = State(
    vregs: map<nat, Word>,
    regs: map<nat, Word>,
    mem: map<int, Word>,
    frame: map<int, Word>,
    flags: Flags,
    calls: nat)

  // What the allocator does not look into: arithmetic, flags, addresses of
  // symbols, and the functions called. A call depends on its argument registers,
  // the stack pointer and memory.
  datatype World = World(
    rbp: nat,
    rsp: nat,
    rax: nat,
    params: nat -> seq<nat>,
    call: (nat, seq<Word>, Word, map<int, Word>) -> (Word, map<int, Word>),
    arith: (Opcode, Word, Word) -> Word,
    taken: (Opcode, Flags) -> bool,
    address: nat -> Word)

  // What the n-th call leaves in a register it may destroy.
  type Junk = (nat, nat) -> Word

  datatype Config = At(block: nat, idx: nat, state: State) | Done(value: Word, mem: map<int, Word>) | Stuck

  function Get<K>(m: map<K, Word>, k: K): Word { if k in m then m[k] else 0 }

  // A vreg in homes is the physical register homes gives; another is a cell of its own.
  function Val(w: World, homes: map<nat, nat>, s: State, o: Operand): Word {
    match o
    case Nothing => 0
    case Vreg(v) => if v in homes then Get(s.regs, homes[v]) else Get(s.vregs, v)
    case Preg(r) => Get(s.regs, r)
    case Lit(v) => v
    case Sym(id) => w.address(id)
    case Rip(id) => w.address(id)
    case Mem(base, offset) =>
      if InFrame(w, base, offset) then Get(s.frame, offset) else Get(s.mem, Get(s.regs, base) + offset)
  }

  predicate InFrame(w: World, base: nat, offset: int) { base == w.rbp && offset < 0 }

  function Write(w: World, homes: map<nat, nat>, s: State, o: Operand, v: Word): State {
    match o
    case Vreg(x) => if x in homes then s.(regs := s.regs[homes[x] := v]) else s.(vregs := s.vregs[x := v])
    case Preg(r) => s.(regs := s.regs[r := v])
    case Mem(base, offset) =>
      if InFrame(w, base, offset) then s.(frame := s.frame[offset := v])
      else s.(mem := s.mem[Get(s.regs, base) + offset := v])
    case _ => s
  }

  function AddressOf(w: World, homes: map<nat, nat>, s: State, o: Operand): Word {
    if o.Mem? then Wrap(Get(s.regs, o.base) + o.offset) else Val(w, homes, s, o)
  }

  // After a call: the result register has the result, the registers the callee
  // may destroy have anything, the others keep their values.
  function AfterCall(registers: seq<Register>, w: World, junk: Junk, s: State, f: nat): State {
    var params := w.params(f);
    var args := seq(|params|, i requires 0 <= i < |params| => Get(s.regs, params[i]));
    var (result, mem) := w.call(f, args, Get(s.regs, w.rsp), s.mem);
    var destroyed := map r | 0 <= r < |registers| && registers[r].callerSaved :: junk(s.calls, r);
    s.(regs := (s.regs + destroyed)[w.rax := result], mem := mem, calls := s.calls + 1)
  }

  // The effect of an instruction that goes on to the one below.
  function Effect(registers: seq<Register>, w: World, homes: map<nat, nat>, junk: Junk, s: State, i: Instr): State {
    match i.op
    case MOV => Write(w, homes, s, i.dst, Val(w, homes, s, i.src))
    case LEA => Write(w, homes, s, i.dst, AddressOf(w, homes, s, i.src))
    case CMP => s.(flags := Flags(CMP, Val(w, homes, s, i.dst), Val(w, homes, s, i.src)))
    case PUSH =>
      var top := Wrap(Get(s.regs, w.rsp) - 8);
      s.(regs := s.regs[w.rsp := top], mem := s.mem[top := Val(w, homes, s, i.src)])
    case POP =>
      var v, top := Get(s.mem, Get(s.regs, w.rsp)), Wrap(Get(s.regs, w.rsp) + 8);
      Write(w, homes, s.(regs := s.regs[w.rsp := top]), i.dst, v)
    case CALL => if i.dst.Sym? then AfterCall(registers, w, junk, s, i.dst.id) else s
    case _ =>
      if i.op.IsArith() then
        var a, b := Val(w, homes, s, i.dst), Val(w, homes, s, i.src);
        Write(w, homes, s, i.dst, w.arith(i.op, a, b)).(flags := Flags(i.op, a, b))
      else s
  }

  function Step(registers: seq<Register>, blocks: seq<Block>, w: World, homes: map<nat, nat>, junk: Junk, c: Config): Config {
    if !c.At? then c
    else if !IsPoint(blocks, Point(c.block, c.idx)) then Stuck
    else
      var i := blocks[c.block].instrs[c.idx];
      if i.op.RET? then Done(Get(c.state.regs, w.rax), c.state.mem)
      else if i.op.JMP? || (i.op.IsCondJump() && w.taken(i.op, c.state.flags)) then
        if i.dst.Sym? then At(i.dst.id, 0, c.state) else Stuck
      else At(c.block, c.idx + 1, Effect(registers, w, homes, junk, c.state, i))
  }

  function Run(registers: seq<Register>, blocks: seq<Block>, w: World, homes: map<nat, nat>, junk: Junk, c: Config, n: nat): Config
    decreases n
  {
    if n == 0 then c else Run(registers, blocks, w, homes, junk, Step(registers, blocks, w, homes, junk, c), n - 1)
  }

  lemma {:induction false} RunPlus(registers: seq<Register>, blocks: seq<Block>, w: World, homes: map<nat, nat>, junk: Junk, c: Config, m: nat, n: nat)
    ensures Run(registers, blocks, w, homes, junk, c, m + n)
         == Run(registers, blocks, w, homes, junk, Run(registers, blocks, w, homes, junk, c, m), n)
    decreases m
  {
    if m > 0 { RunPlus(registers, blocks, w, homes, junk, Step(registers, blocks, w, homes, junk, c), m - 1, n); }
  }

  lemma {:induction false} RunOver(registers: seq<Register>, blocks: seq<Block>, w: World, homes: map<nat, nat>, junk: Junk, c: Config, n: nat)
    requires !c.At?
    ensures Run(registers, blocks, w, homes, junk, c, n) == c
  {
    if n > 0 { RunOver(registers, blocks, w, homes, junk, c, n - 1); }
  }

  // A run from the first instruction that ends with result v and memory mem.
  ghost predicate Ends(registers: seq<Register>, blocks: seq<Block>, w: World, homes: map<nat, nat>, junk: Junk, s: State, v: Word, mem: map<int, Word>) {
    exists n: nat :: Run(registers, blocks, w, homes, junk, At(0, 0, s), n) == Done(v, mem)
  }

  // From one start code ends in one way only.
  lemma EndsOnce(registers: seq<Register>, blocks: seq<Block>, w: World, homes: map<nat, nat>, junk: Junk, s: State,
                 v: Word, mem: map<int, Word>, v': Word, mem': map<int, Word>)
    requires Ends(registers, blocks, w, homes, junk, s, v, mem) && Ends(registers, blocks, w, homes, junk, s, v', mem')
    ensures v == v' && mem == mem'
  {
    hide Step, Run;
    var c := At(0, 0, s);
    var m: nat :| Run(registers, blocks, w, homes, junk, c, m) == Done(v, mem);
    var n: nat :| Run(registers, blocks, w, homes, junk, c, n) == Done(v', mem');
    if m <= n {
      RunPlus(registers, blocks, w, homes, junk, c, m, n - m);
      RunOver(registers, blocks, w, homes, junk, Done(v, mem), n - m);
    } else {
      RunPlus(registers, blocks, w, homes, junk, c, n, m - n);
      RunOver(registers, blocks, w, homes, junk, Done(v', mem'), m - n);
    }
  }
}
