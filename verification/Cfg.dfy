// Well-formed control-flow graphs in SSA form.
module Cfg {
  import opened IR

  predicate MayBranch(i: Instr) { i.Br? || i.Cbr? }

  // Blocks end with a terminator; before it there is nothing that branches.
  // (A return may come earlier: what follows it is dead.)
  ghost predicate CodeOk(code: seq<Instr>, nblocks: nat) {
    && |code| > 0 && code[|code| - 1].IsTerminator()
    && (forall pc :: 0 <= pc < |code| - 1 ==> !MayBranch(code[pc]))
    && TargetsOk(code[|code| - 1], nblocks)
  }

  ghost predicate TargetsOk(i: Instr, nblocks: nat) {
    && (forall t :: t in i.Targets() ==> t < nblocks)
    && (i.Cbr? ==> i.ifTrue != i.ifFalse)
  }

  // The blocks control may go to from b.
  function Succ(b: BasicBlock): set<nat> {
    if b.instrs == [] then {} else b.instrs[|b.instrs| - 1].Targets()
  }

  ghost predicate Labelled(phi: Phi, preds: set<nat>) {
    && (forall i :: 0 <= i < |phi.incomings| ==> phi.incomings[i].0 in preds && !phi.incomings[i].1.NoOperand?)
    && (forall p :: p in preds ==> exists i :: 0 <= i < |phi.incomings| && phi.incomings[i].0 == p)
    && (forall i, j :: 0 <= i < j < |phi.incomings| ==> phi.incomings[i].0 != phi.incomings[j].0)
  }

  function PredSet(b: BasicBlock): set<nat> {
    set i | 0 <= i < |b.preds| :: b.preds[i]
  }

  // Edges recorded on both sides agree, and each phi has exactly one operand
  // per predecessor.
  ghost predicate BlockOk(blocks: seq<BasicBlock>, b: nat)
    requires b < |blocks|
  {
    && CodeOk(blocks[b].instrs, |blocks|)
    && (forall p: nat :: p in PredSet(blocks[b]) <==> p < |blocks| && b in Succ(blocks[p]))
    && (forall i :: 0 <= i < |blocks[b].phis| ==> Labelled(blocks[b].phis[i], PredSet(blocks[b])))
  }

  ghost predicate WellFormed(blocks: seq<BasicBlock>) {
    && |blocks| > 0
    && blocks[0].phis == [] && PredSet(blocks[0]) == {}
    && forall b :: 0 <= b < |blocks| ==> BlockOk(blocks, b)
  }

  // ----- Single assignment -----

  datatype Def = PhiDef(block: nat, idx: nat) | InstrDef(block: nat, pc: nat)

  ghost predicate IsDef(blocks: seq<BasicBlock>, d: Def, v: nat) {
    d.block < |blocks| &&
    match d
    case PhiDef(b, i) => i < |blocks[b].phis| && blocks[b].phis[i].result == v
    case InstrDef(b, pc) => pc < |blocks[b].instrs| && blocks[b].instrs[pc].Arith? && blocks[b].instrs[pc].result == v
  }

  // Arguments are values 0 .. nargs - 1; no other value is defined twice, and none is redefined.
  ghost predicate SingleAssignment(blocks: seq<BasicBlock>, nargs: nat) {
    forall d, e, v :: IsDef(blocks, d, v) && IsDef(blocks, e, v) ==> d == e && nargs <= v
  }
}
