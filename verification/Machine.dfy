// The machine code the register allocator works on: two-address x86
// instructions over virtual and physical registers.
module Machine {
  import opened Ast

  // Register 0 stands for none; a register's id is its index in the table.
  datatype Register = Register(parent: nat, subregs: set<nat>, reserved: bool, callerSaved: bool)

  datatype Opcode =
    | MOV | ADD | SUB | IMUL | XOR | CMP
    | JMP | JG | JGE | JL | JLE | JE | JNE
    | CALL | PUSH | POP | RET | LEA
  {
    predicate IsCondJump() { JG? || JGE? || JL? || JLE? || JE? || JNE? }
    predicate IsJump() { JMP? || IsCondJump() }
    predicate IsArith() { ADD? || SUB? || IMUL? || XOR? }
  }

  // Sym names a block in a jump and a function in a call.
  datatype Operand =
    | Nothing
    | Vreg(v: nat)
    | Preg(r: nat)
    | Lit(value: Word)
    | Sym(id: nat)
    | Rip(id: nat)
    | Mem(base: nat, offset: int)

  datatype Instr = Instr(op: Opcode, dst: Operand, src: Operand)

  // A block's id is its index.
  datatype Block = Block(instrs: seq<Instr>, preds: seq<nat>)

  // What the vreg table says: the colours each vreg can take. A fixed vreg
  // has one colour and is that physical register.
  datatype VregTable = VregTable(domains: map<nat, set<nat>>, fixedVregs: set<nat>)

  // ----- What instructions read, write and destroy -----

  function VregOf(o: Operand): set<nat> {
    if o.Vreg? then {o.v} else {}
  }

  function Use(i: Instr): set<nat> {
    match i.op
    case MOV => VregOf(i.src)
    case LEA => VregOf(i.src)
    case PUSH => VregOf(i.src)
    case ADD => VregOf(i.src) + VregOf(i.dst)
    case SUB => VregOf(i.src) + VregOf(i.dst)
    case IMUL => VregOf(i.src) + VregOf(i.dst)
    case XOR => VregOf(i.src) + VregOf(i.dst)
    case CMP => VregOf(i.src) + VregOf(i.dst)
    case _ => {}
  }

  function Wrt(i: Instr): set<nat> {
    match i.op
    case MOV => VregOf(i.dst)
    case LEA => VregOf(i.dst)
    case POP => VregOf(i.dst)
    case ADD => VregOf(i.dst)
    case SUB => VregOf(i.dst)
    case IMUL => VregOf(i.dst)
    case XOR => VregOf(i.dst)
    case _ => {}
  }

  function Clobber(registers: seq<Register>, i: Instr): set<nat> {
    if i.op.CALL? then set r | 0 <= r < |registers| && registers[r].callerSaved else {}
  }

  // Registers a write of r may change or that share a part of it.
  function Family(registers: seq<Register>, r: nat): set<nat>
    requires r < |registers|
  {
    {r, registers[r].parent} + registers[r].subregs
  }

  // ----- Positions -----

  // The instruction at index idx of a block.
  datatype Point = Point(block: nat, idx: nat)

  predicate IsPoint(blocks: seq<Block>, p: Point) {
    p.block < |blocks| && p.idx < |blocks[p.block].instrs|
  }

  function InstrAt(blocks: seq<Block>, p: Point): Instr
    requires IsPoint(blocks, p)
  {
    blocks[p.block].instrs[p.idx]
  }

  // The instructions that may run next: the one below, or past the last one
  // the first of every block that names this one as a predecessor.
  function Next(blocks: seq<Block>, p: Point): set<Point>
    requires IsPoint(blocks, p)
  {
    if p.idx + 1 < |blocks[p.block].instrs| then {Point(p.block, p.idx + 1)}
    else set s | 0 <= s < |blocks| && p.block in blocks[s].preds && blocks[s].instrs != [] :: Point(s, 0)
  }

  // Every instruction once, in layout order.
  function Layout(blocks: seq<Block>): seq<Point> {
    if blocks == [] then [] else Layout(blocks[..|blocks| - 1]) + Row(|blocks| - 1, |blocks[|blocks| - 1].instrs|)
  }

  function Row(b: nat, n: nat): seq<Point> {
    seq(n, k requires 0 <= k < n => Point(b, k))
  }

  lemma {:induction false} LayoutIsAllPoints(blocks: seq<Block>)
    ensures forall p :: p in Layout(blocks) <==> IsPoint(blocks, p)
  {
    if blocks != [] {
      var n := |blocks| - 1;
      LayoutIsAllPoints(blocks[..n]);
      forall p ensures p in Layout(blocks) <==> IsPoint(blocks, p) {
        assert p in Row(n, |blocks[n].instrs|) <==> p.block == n && p.idx < |blocks[n].instrs| by {
          if p.block == n && p.idx < |blocks[n].instrs| { assert Row(n, |blocks[n].instrs|)[p.idx] == p; }
        }
        assert IsPoint(blocks[..n], p) <==> p.block < n && IsPoint(blocks, p);
      }
    }
  }

  // In an earlier block, or earlier in the same.
  predicate Precedes(p: Point, q: Point) {
    p.block < q.block || (p.block == q.block && p.idx < q.idx)
  }

  lemma {:induction false} LayoutInOrder(blocks: seq<Block>)
    ensures forall i, j :: 0 <= i < j < |Layout(blocks)| ==> Precedes(Layout(blocks)[i], Layout(blocks)[j])
  {
    if blocks != [] {
      var n := |blocks| - 1;
      LayoutInOrder(blocks[..n]);
      LayoutIsAllPoints(blocks[..n]);
      var before, row := Layout(blocks[..n]), Row(n, |blocks[n].instrs|);
      forall i | 0 <= i < |before| ensures before[i].block < n { assert before[i] in before; }
    }
  }
}
