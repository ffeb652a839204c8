// The three-address SSA form: a control-flow graph whose blocks start with phis.
module IR {
  import opened Ast

  datatype Operand = NoOperand | Literal(value: Word) | Register(id: nat)

  // A conditional branch carries the operand it tests; in the source that
  // operand rides in the result slot of the instruction.
  datatype Instr =
    | Arith(result: nat, op: BinOp, lhs: Operand, rhs: Operand)
    | Br(target: nat)
    | Cbr(cond: Operand, ifTrue: nat, ifFalse: nat)
    | Ret(value: Operand)
  {
    predicate IsTerminator() { !Arith? }

    // The blocks control may go to.
    function Targets(): set<nat> {
      match this
      case Br(t) => {t}
      case Cbr(_, t, e) => {t, e}
      case _ => {}
    }
  }

  // One incoming operand per predecessor, labelled with it.
  datatype Phi = Phi(result: nat, incomings: seq<(nat, Operand)>)

  datatype BasicBlock = BasicBlock(
    phis: seq<Phi>,
    instrs: seq<Instr>,
    preds: seq<nat>,
    succs: seq<nat>,
    isSealed: bool)

  // ----- Meaning -----

  type Regs = map<nat, Word>

  function Value(o: Operand, regs: Regs): Option<Word> {
    match o
    case NoOperand => None
    case Literal(v) => Some(v)
    case Register(r) => if r in regs then Some(regs[r]) else None
  }

  // The operand labelled with block from; the first one, should there be several.
  function IncomingFor(incomings: seq<(nat, Operand)>, from: nat): Operand {
    if incomings == [] then NoOperand
    else if incomings[0].0 == from then incomings[0].1
    else IncomingFor(incomings[1..], from)
  }

  // What the phis of a block assign when it is entered from block from. All
  // the operands are read before any result is written.
  function PhiMoves(phis: seq<Phi>, from: nat, regs: Regs): Option<Regs> {
    if phis == [] then Some(map[])
    else
      var n := |phis| - 1;
      var rest := PhiMoves(phis[..n], from, regs);
      var v := Value(IncomingFor(phis[n].incomings, from), regs);
      if rest.Some? && v.Some? then Some(rest.value[phis[n].result := v.value]) else None
  }

  // Stuck: an operand without a value, or no instruction to run.
  datatype Config = At(block: nat, pc: nat, regs: Regs) | Done(value: Word) | Stuck

  function Enter(blocks: seq<BasicBlock>, from: nat, to: nat, regs: Regs): Config {
    if to >= |blocks| then Stuck
    else
      match PhiMoves(blocks[to].phis, from, regs)
      case None => Stuck
      case Some(moves) => At(to, 0, regs + moves)
  }

  function Step(blocks: seq<BasicBlock>, c: Config): Config {
    if !c.At? then c
    else if c.block >= |blocks| || c.pc >= |blocks[c.block].instrs| then Stuck
    else
      match blocks[c.block].instrs[c.pc]
      case Arith(r, op, lhs, rhs) =>
        var a, b := Value(lhs, c.regs), Value(rhs, c.regs);
        if a.Some? && b.Some? then At(c.block, c.pc + 1, c.regs[r := EvalOp(op, a.value, b.value)]) else Stuck
      case Br(t) => Enter(blocks, c.block, t, c.regs)
      case Cbr(cond, t, e) =>
        var v := Value(cond, c.regs);
        if v.None? then Stuck else Enter(blocks, c.block, if v.value != 0 then t else e, c.regs)
      case Ret(o) =>
        var v := Value(o, c.regs);
        if v.Some? then Done(v.value) else Stuck
  }

  function Run(blocks: seq<BasicBlock>, c: Config, n: nat): Config
    decreases n
  {
    if n == 0 then c else Run(blocks, Step(blocks, c), n - 1)
  }

  function ArgRegs(args: seq<Word>): Regs {
    map i: nat | i < |args| :: args[i]
  }

  // Registers 0, 1, ... hold the arguments on entry.
  function Start(args: seq<Word>): Config { At(0, 0, ArgRegs(args)) }

  ghost predicate Returns(blocks: seq<BasicBlock>, args: seq<Word>, v: Word) {
    exists n: nat :: Run(blocks, Start(args), n) == Done(v)
  }

  ghost predicate NeverStuck(blocks: seq<BasicBlock>, args: seq<Word>) {
    forall n: nat :: !Run(blocks, Start(args), n).Stuck?
  }

  // ----- Facts about runs -----

  lemma {:induction false} RunPlus(blocks: seq<BasicBlock>, c: Config, m: nat, n: nat)
    ensures Run(blocks, c, m + n) == Run(blocks, Run(blocks, c, m), n)
    decreases m
  {
    if m > 0 {
      RunPlus(blocks, Step(blocks, c), m - 1, n);
    }
  }

  lemma {:induction false} RunFinal(blocks: seq<BasicBlock>, c: Config, n: nat)
    requires !c.At?
    ensures Run(blocks, c, n) == c
  {
    if n > 0 {
      RunFinal(blocks, c, n - 1);
    }
  }

  // A run that is over stays over, so what it ends in does not depend on when one looks.
  lemma {:induction false} RunEndUnique(blocks: seq<BasicBlock>, c: Config, m: nat, n: nat)
    requires !Run(blocks, c, m).At? && !Run(blocks, c, n).At?
    ensures Run(blocks, c, m) == Run(blocks, c, n)
  {
    if m <= n {
      RunPlus(blocks, c, m, n - m);
      RunFinal(blocks, Run(blocks, c, m), n - m);
    } else {
      RunPlus(blocks, c, n, m - n);
      RunFinal(blocks, Run(blocks, c, n), m - n);
    }
  }

  // Going on from a configuration reached after m steps.
  lemma RunThen(blocks: seq<BasicBlock>, c: Config, m: nat, d: Config, n: nat)
    requires Run(blocks, c, m) == d
    ensures Run(blocks, c, m + n) == Run(blocks, d, n)
  {
    RunPlus(blocks, c, m, n);
  }
}
