// Splitting critical edges: an edge from a block with several successors to a
// block with several predecessors gets an empty block of its own.
module CriticalEdges {
  import opened Ast
  import opened Cfg
  import opened IR
  import opened Ordered

  // ----- One edge -----

  function Redirect(t: Instr, from: nat, to: nat): Instr {
    match t
    case Br(a) => Br(if a == from then to else a)
    case Cbr(c, a, b) => Cbr(c, if a == from then to else a, if b == from then to else b)
    case _ => t
  }

  function RelabelOne(x: (nat, Operand), from: nat, to: nat): (nat, Operand) {
    if x.0 == from then (to, x.1) else x
  }

  function RelabelAll(incomings: seq<(nat, Operand)>, from: nat, to: nat): seq<(nat, Operand)> {
    seq(|incomings|, i requires 0 <= i < |incomings| => RelabelOne(incomings[i], from, to))
  }

  function RelabelPhi(phi: Phi, from: nat, to: nat): Phi {
    phi.(incomings := RelabelAll(phi.incomings, from, to))
  }

  function RelabelPhis(phis: seq<Phi>, from: nat, to: nat): seq<Phi> {
    seq(|phis|, i requires 0 <= i < |phis| => RelabelPhi(phis[i], from, to))
  }

  function RedirectLast(code: seq<Instr>, from: nat, to: nat): seq<Instr>
    requires |code| > 0
  {
    code[|code| - 1 := Redirect(code[|code| - 1], from, to)]
  }

  // Edge i -> j now goes through a new block.
  function Split(blocks: seq<BasicBlock>, i: nat, j: nat): seq<BasicBlock>
    requires i < |blocks| && j < |blocks| && |blocks[i].instrs| > 0
  {
    var n := |blocks|;
    var with := blocks + [BasicBlock([], [Br(j)], [], [], false)];
    var out := with[i := with[i].(instrs := RedirectLast(with[i].instrs, j, n))];
    out[j := out[j].(phis := RelabelPhis(out[j].phis, i, n))]
  }

  // The predecessor and successor sets the pass maintains beside the blocks.
  ghost predicate GraphOk(blocks: seq<BasicBlock>, preds: map<nat, set<nat>>, succs: map<nat, set<nat>>) {
    && |blocks| > 0 && blocks[0].phis == []
    && (forall b: nat :: b in preds <==> b < |blocks|)
    && (forall b: nat :: b in succs <==> b < |blocks|)
    && preds[0] == {}
    && forall b :: 0 <= b < |blocks| ==> NodeOk(blocks, preds, succs, b)
  }

  ghost predicate NodeOk(blocks: seq<BasicBlock>, preds: map<nat, set<nat>>, succs: map<nat, set<nat>>, b: nat)
    requires b < |blocks| && b in preds && b in succs
    requires forall p: nat :: p in succs <==> p < |blocks|
  {
    && CodeOk(blocks[b].instrs, |blocks|)
    && succs[b] == Succ(blocks[b])
    && (forall p: nat :: p in preds[b] <==> p < |blocks| && b in succs[p])
    && (forall k :: 0 <= k < |blocks[b].phis| ==> Labelled(blocks[b].phis[k], preds[b]))
  }

  ghost predicate IsCritical(preds: map<nat, set<nat>>, succs: map<nat, set<nat>>, e: (nat, nat)) {
    e.1 in preds && e.0 in preds[e.1] && e.0 in succs && |preds[e.1]| > 1 && |succs[e.0]| > 1
  }

  // What the pass does to its sets for edge i -> j and new block n.
  function SplitPreds(preds: map<nat, set<nat>>, i: nat, j: nat, n: nat): map<nat, set<nat>>
    requires j in preds
  {
    preds[j := preds[j] - {i} + {n}][n := {i}]
  }

  function SplitSuccs(succs: map<nat, set<nat>>, i: nat, j: nat, n: nat): map<nat, set<nat>>
    requires i in succs
  {
    succs[i := succs[i] - {j} + {n}][n := {j}]
  }

  lemma CriticalIsCbr(blocks: seq<BasicBlock>, preds: map<nat, set<nat>>, succs: map<nat, set<nat>>, i: nat, j: nat)
    requires GraphOk(blocks, preds, succs) && IsCritical(preds, succs, (i, j))
    ensures i < |blocks| && j < |blocks| && j != 0 && |blocks[i].instrs| > 0
    ensures var t := blocks[i].instrs[|blocks[i].instrs| - 1];
      t.Cbr? && t.ifTrue != t.ifFalse && (t.ifTrue == j || t.ifFalse == j)
  {
    assert NodeOk(blocks, preds, succs, i) && NodeOk(blocks, preds, succs, j);
    var t := blocks[i].instrs[|blocks[i].instrs| - 1];
    TargetCount(t);
  }

  lemma TargetCount(t: Instr)
    ensures !t.Cbr? ==> |t.Targets()| <= 1
    ensures t.Cbr? && t.ifTrue == t.ifFalse ==> |t.Targets()| <= 1
  {
    if t.Cbr? && t.ifTrue == t.ifFalse { assert t.Targets() == {t.ifTrue}; }
  }

  lemma SplitKeepsGraph(blocks: seq<BasicBlock>, preds: map<nat, set<nat>>, succs: map<nat, set<nat>>, i: nat, j: nat)
    requires GraphOk(blocks, preds, succs) && IsCritical(preds, succs, (i, j))
    requires i < |blocks| && j < |blocks| && |blocks[i].instrs| > 0
    ensures GraphOk(Split(blocks, i, j), SplitPreds(preds, i, j, |blocks|), SplitSuccs(succs, i, j, |blocks|))
  {
    CriticalIsCbr(blocks, preds, succs, i, j);
    var n := |blocks|;
    var blocks', preds', succs' := Split(blocks, i, j), SplitPreds(preds, i, j, n), SplitSuccs(succs, i, j, n);
    forall b | 0 <= b < |blocks'| ensures NodeOk(blocks', preds', succs', b) {
      if b < n {
        assert NodeOk(blocks, preds, succs, b);
        SplitNodeCode(blocks, preds, succs, i, j, b);
        SplitNodePreds(blocks, preds, succs, i, j, b);
        SplitNodePhis(blocks, preds, succs, i, j, b);
      } else {
        assert succs'[n] == Succ(blocks'[n]);
        SplitNodePreds(blocks, preds, succs, i, j, b);
      }
    }
  }

  lemma SplitNodeCode(blocks: seq<BasicBlock>, preds: map<nat, set<nat>>, succs: map<nat, set<nat>>, i: nat, j: nat, b: nat)
    requires GraphOk(blocks, preds, succs) && IsCritical(preds, succs, (i, j)) && b < |blocks|
    requires i < |blocks| && j < |blocks| && |blocks[i].instrs| > 0
    ensures var blocks' := Split(blocks, i, j);
      && CodeOk(blocks'[b].instrs, |blocks'|)
      && SplitSuccs(succs, i, j, |blocks|)[b] == Succ(blocks'[b])
  {
    CriticalIsCbr(blocks, preds, succs, i, j);
    assert NodeOk(blocks, preds, succs, b) && NodeOk(blocks, preds, succs, i);
  }

  lemma SplitNodePreds(blocks: seq<BasicBlock>, preds: map<nat, set<nat>>, succs: map<nat, set<nat>>, i: nat, j: nat, b: nat)
    requires GraphOk(blocks, preds, succs) && IsCritical(preds, succs, (i, j)) && b <= |blocks|
    ensures var preds', succs' := SplitPreds(preds, i, j, |blocks|), SplitSuccs(succs, i, j, |blocks|);
      forall p: nat :: p in preds'[b] <==> p <= |blocks| && b in succs'[p]
  {
    CriticalIsCbr(blocks, preds, succs, i, j);
    assert NodeOk(blocks, preds, succs, i);
    if b < |blocks| { assert NodeOk(blocks, preds, succs, b); }
    forall p | 0 <= p < |blocks| ensures |blocks| !in succs[p] { assert NodeOk(blocks, preds, succs, p); }
    forall c | 0 <= c < |blocks| ensures |blocks| !in preds[c] { assert NodeOk(blocks, preds, succs, c); }
  }

  lemma SplitNodePhis(blocks: seq<BasicBlock>, preds: map<nat, set<nat>>, succs: map<nat, set<nat>>, i: nat, j: nat, b: nat)
    requires GraphOk(blocks, preds, succs) && IsCritical(preds, succs, (i, j)) && b < |blocks|
    requires i < |blocks| && j < |blocks| && |blocks[i].instrs| > 0
    ensures var blocks' := Split(blocks, i, j);
      forall k :: 0 <= k < |blocks'[b].phis| ==> Labelled(blocks'[b].phis[k], SplitPreds(preds, i, j, |blocks|)[b])
  {
    assert NodeOk(blocks, preds, succs, b);
    if b == j {
      var blocks' := Split(blocks, i, j);
      forall k | 0 <= k < |blocks'[j].phis|
        ensures Labelled(blocks'[j].phis[k], SplitPreds(preds, i, j, |blocks|)[j])
      {
        RelabelledOk(blocks[j].phis[k], preds[j], i, |blocks|);
      }
    }
  }

  lemma RelabelledOk(phi: Phi, preds: set<nat>, from: nat, to: nat)
    requires Labelled(phi, preds) && from in preds && to !in preds
    ensures Labelled(RelabelPhi(phi, from, to), preds - {from} + {to})
  {
    var phi' := RelabelPhi(phi, from, to);
    forall p | p in preds - {from} + {to} ensures exists i :: 0 <= i < |phi'.incomings| && phi'.incomings[i].0 == p {
      var q := if p == to then from else p;
      var i :| 0 <= i < |phi.incomings| && phi.incomings[i].0 == q;
      assert phi'.incomings[i].0 == p;
    }
  }

  // Splitting one edge leaves the other critical edges critical and adds none.
  lemma SplitCritical(blocks: seq<BasicBlock>, preds: map<nat, set<nat>>, succs: map<nat, set<nat>>, i: nat, j: nat, e: (nat, nat))
    requires GraphOk(blocks, preds, succs) && IsCritical(preds, succs, (i, j))
    ensures var n := |blocks|;
      IsCritical(SplitPreds(preds, i, j, n), SplitSuccs(succs, i, j, n), e) <==> IsCritical(preds, succs, e) && e != (i, j)
  {
    CriticalIsCbr(blocks, preds, succs, i, j);
    var n := |blocks|;
    assert NodeOk(blocks, preds, succs, i) && NodeOk(blocks, preds, succs, j);
    assert n !in preds[j] && n !in succs[i];
    assert |preds[j] - {i} + {n}| == |preds[j]| && |succs[i] - {j} + {n}| == |succs[i]|;
    if e.1 < n { assert NodeOk(blocks, preds, succs, e.1); }
  }

  // ----- Runs -----

  lemma {:induction false} IncomingRelabelled(incomings: seq<(nat, Operand)>, from: nat, to: nat, p: nat)
    requires forall k :: 0 <= k < |incomings| ==> incomings[k].0 != to
    requires p != from
    ensures IncomingFor(RelabelAll(incomings, from, to), p) == IncomingFor(incomings, if p == to then from else p)
  {
    if incomings != [] {
      IncomingRelabelled(incomings[1..], from, to, p);
      assert RelabelAll(incomings, from, to)[1..] == RelabelAll(incomings[1..], from, to);
    }
  }

  // Entering through the new block reads the operands of the old edge.
  lemma {:induction false} MovesRelabelled(phis: seq<Phi>, from: nat, to: nat, p: nat, regs: Regs)
    requires forall k, m :: 0 <= k < |phis| && 0 <= m < |phis[k].incomings| ==> phis[k].incomings[m].0 != to
    requires p != from
    ensures PhiMoves(RelabelPhis(phis, from, to), p, regs) == PhiMoves(phis, if p == to then from else p, regs)
  {
    if phis != [] {
      var n := |phis| - 1;
      MovesRelabelled(phis[..n], from, to, p, regs);
      assert RelabelPhis(phis, from, to)[..n] == RelabelPhis(phis[..n], from, to);
      IncomingRelabelled(phis[n].incomings, from, to, p);
    }
  }

  lemma LabelsBelow(blocks: seq<BasicBlock>, preds: map<nat, set<nat>>, succs: map<nat, set<nat>>, b: nat)
    requires GraphOk(blocks, preds, succs) && b < |blocks|
    ensures forall k, m :: 0 <= k < |blocks[b].phis| && 0 <= m < |blocks[b].phis[k].incomings| ==>
      blocks[b].phis[k].incomings[m].0 < |blocks|
  {
    assert NodeOk(blocks, preds, succs, b);
    forall k, m | 0 <= k < |blocks[b].phis| && 0 <= m < |blocks[b].phis[k].incomings|
      ensures blocks[b].phis[k].incomings[m].0 < |blocks|
    {
      assert Labelled(blocks[b].phis[k], preds[b]);
    }
  }

  // Configurations inside the original blocks.
  ghost predicate Inside(c: Config, n: nat) {
    c.At? ==> c.block < n
  }

  lemma StaysInside(blocks: seq<BasicBlock>, preds: map<nat, set<nat>>, succs: map<nat, set<nat>>, c: Config)
    requires GraphOk(blocks, preds, succs) && Inside(c, |blocks|)
    ensures Inside(Step(blocks, c), |blocks|)
  {
  }

  lemma EnterSplit(blocks: seq<BasicBlock>, preds: map<nat, set<nat>>, succs: map<nat, set<nat>>, i: nat, j: nat,
                   from: nat, to: nat, regs: Regs)
    requires GraphOk(blocks, preds, succs) && i < |blocks| && j < |blocks| && |blocks[i].instrs| > 0
    requires from <= |blocks| && to < |blocks| && (from == i ==> to != j) && (from == |blocks| ==> to == j)
    ensures Enter(Split(blocks, i, j), from, to, regs) == Enter(blocks, if from == |blocks| then i else from, to, regs)
  {
    if to == j {
      LabelsBelow(blocks, preds, succs, j);
      MovesRelabelled(blocks[j].phis, i, |blocks|, from, regs);
    }
  }

  // One step of the old graph is one step of the new one, or two when it takes the split edge.
  lemma SplitStep(blocks: seq<BasicBlock>, preds: map<nat, set<nat>>, succs: map<nat, set<nat>>, i: nat, j: nat, c: Config)
    requires GraphOk(blocks, preds, succs) && IsCritical(preds, succs, (i, j)) && Inside(c, |blocks|)
    requires i < |blocks| && j < |blocks| && |blocks[i].instrs| > 0
    ensures var blocks' := Split(blocks, i, j);
      || Step(blocks', c) == Step(blocks, c)
      || (Step(blocks', c).At? && Step(blocks', Step(blocks', c)) == Step(blocks, c))
  {
    var blocks' := Split(blocks, i, j);
    var n := |blocks|;
    CriticalIsCbr(blocks, preds, succs, i, j);
    if c.At? && c.pc < |blocks[c.block].instrs| {
      assert NodeOk(blocks, preds, succs, c.block);
      var k := blocks[c.block].instrs[c.pc];
      var k' := blocks'[c.block].instrs[c.pc];
      if c.block != i || c.pc != |blocks[i].instrs| - 1 {
        assert k' == k;
        if c.block == i { assert !MayBranch(k); }
        match k
        case Br(t) => EnterSplit(blocks, preds, succs, i, j, c.block, t, c.regs);
        case Cbr(cond, a, b) =>
          EnterSplit(blocks, preds, succs, i, j, c.block, a, c.regs);
          EnterSplit(blocks, preds, succs, i, j, c.block, b, c.regs);
        case _ =>
      } else {
        SplitBranch(blocks, preds, succs, i, j, c);
      }
    }
  }

  lemma SplitBranch(blocks: seq<BasicBlock>, preds: map<nat, set<nat>>, succs: map<nat, set<nat>>, i: nat, j: nat, c: Config)
    requires GraphOk(blocks, preds, succs) && IsCritical(preds, succs, (i, j))
    requires i < |blocks| && j < |blocks| && |blocks[i].instrs| > 0
    requires c.At? && c.block == i && c.pc == |blocks[i].instrs| - 1
    ensures var blocks' := Split(blocks, i, j);
      || Step(blocks', c) == Step(blocks, c)
      || (Step(blocks', c).At? && Step(blocks', Step(blocks', c)) == Step(blocks, c))
  {
    var blocks' := Split(blocks, i, j);
    var n := |blocks|;
    CriticalIsCbr(blocks, preds, succs, i, j);
    assert NodeOk(blocks, preds, succs, i);
    var k := blocks[i].instrs[c.pc];
    assert blocks'[i].instrs[c.pc] == Redirect(k, j, n);
    var v := Value(k.cond, c.regs);
    if v.Some? {
      var to := if v.value != 0 then k.ifTrue else k.ifFalse;
      if to == j {
        assert blocks'[n].phis == [] && blocks'[n].instrs == [Br(j)];
        assert c.regs + map[] == c.regs;
        assert Step(blocks', c) == At(n, 0, c.regs);
        EnterSplit(blocks, preds, succs, i, j, n, j, c.regs);
      } else {
        EnterSplit(blocks, preds, succs, i, j, i, to, c.regs);
      }
    }
  }

  // A run of the old graph has a run of the new one that gets to the same configuration.
  lemma {:induction false} SplitForward(blocks: seq<BasicBlock>, preds: map<nat, set<nat>>, succs: map<nat, set<nat>>, i: nat, j: nat, c: Config, n: nat)
    returns (m: nat)
    requires GraphOk(blocks, preds, succs) && IsCritical(preds, succs, (i, j)) && Inside(c, |blocks|)
    requires i < |blocks| && j < |blocks| && |blocks[i].instrs| > 0
    ensures Run(Split(blocks, i, j), c, m) == Run(blocks, c, n)
    decreases n
  {
    var blocks' := Split(blocks, i, j);
    m := 0;
    if n > 0 {
      SplitStep(blocks, preds, succs, i, j, c);
      StaysInside(blocks, preds, succs, c);
      var m1 := SplitForward(blocks, preds, succs, i, j, Step(blocks, c), n - 1);
      if Step(blocks', c) == Step(blocks, c) {
        m := m1 + 1;
      } else {
        m := m1 + 2;
        assert Run(blocks', c, m) == Run(blocks', Step(blocks', c), m1 + 1);
      }
    }
  }

  // A run of the new graph that is over is matched by one of the old graph.
  lemma {:induction false} SplitBackward(blocks: seq<BasicBlock>, preds: map<nat, set<nat>>, succs: map<nat, set<nat>>, i: nat, j: nat, c: Config, m: nat)
    returns (n: nat)
    requires GraphOk(blocks, preds, succs) && IsCritical(preds, succs, (i, j)) && Inside(c, |blocks|)
    requires i < |blocks| && j < |blocks| && |blocks[i].instrs| > 0
    requires !Run(Split(blocks, i, j), c, m).At?
    ensures Run(blocks, c, n) == Run(Split(blocks, i, j), c, m)
    decreases m
  {
    var blocks' := Split(blocks, i, j);
    n := 0;
    if c.At? {
      SplitStep(blocks, preds, succs, i, j, c);
      StaysInside(blocks, preds, succs, c);
      var n1;
      if Step(blocks', c) == Step(blocks, c) {
        n1 := SplitBackward(blocks, preds, succs, i, j, Step(blocks, c), m - 1);
      } else {
        assert Run(blocks', c, m) == Run(blocks', Step(blocks', c), m - 1);
        n1 := SplitBackward(blocks, preds, succs, i, j, Step(blocks, c), m - 2);
      }
      n := n1 + 1;
    } else {
      RunFinal(blocks', c, m);
    }
  }

  // Both graphs have the same runs that end, and end them the same way.
  ghost predicate SameEnds(blocks: seq<BasicBlock>, blocks': seq<BasicBlock>) {
    forall args: seq<Word>, d: Config :: !d.At? ==> (EndsIn(blocks, args, d) <==> EndsIn(blocks', args, d))
  }

  ghost predicate EndsIn(blocks: seq<BasicBlock>, args: seq<Word>, d: Config) {
    exists n: nat :: Run(blocks, Start(args), n) == d
  }

  lemma SplitSameEnds(blocks: seq<BasicBlock>, preds: map<nat, set<nat>>, succs: map<nat, set<nat>>, i: nat, j: nat)
    requires GraphOk(blocks, preds, succs) && IsCritical(preds, succs, (i, j))
    requires i < |blocks| && j < |blocks| && |blocks[i].instrs| > 0
    ensures SameEnds(blocks, Split(blocks, i, j))
  {
    forall args: seq<Word>, d: Config | !d.At? ensures EndsIn(blocks, args, d) <==> EndsIn(Split(blocks, i, j), args, d) {
      if EndsIn(blocks, args, d) {
        var n: nat :| Run(blocks, Start(args), n) == d;
        var m := SplitForward(blocks, preds, succs, i, j, Start(args), n);
      }
      if EndsIn(Split(blocks, i, j), args, d) {
        var m: nat :| Run(Split(blocks, i, j), Start(args), m) == d;
        var n := SplitBackward(blocks, preds, succs, i, j, Start(args), m);
      }
    }
  }

  // ----- The pass -----

  class Function {
    // Block 0 is the entry.
    var blocks: seq<BasicBlock>

    constructor (blocks: seq<BasicBlock>)
      ensures this.blocks == blocks
    {
      this.blocks := blocks;
    }
  }

  // A block whose last instruction does not say where to go next.
  ghost predicate LacksTerminator(b: BasicBlock) {
    b.instrs != [] && !b.instrs[|b.instrs| - 1].IsTerminator()
  }

  ghost predicate NoCriticalEdge(blocks: seq<BasicBlock>) {
    forall p, b :: 0 <= p < |blocks| && 0 <= b < |blocks| && p in PredSet(blocks[b]) ==>
      |PredSet(blocks[b])| <= 1 || |Succ(blocks[p])| <= 1
  }

  // Successor lists name, in increasing order, the targets of the last instruction,
  // and predecessor lists are their inverse.
  ghost predicate ListsOk(blocks: seq<BasicBlock>) {
    forall b :: 0 <= b < |blocks| ==>
      && Increasing(blocks[b].succs) && Increasing(blocks[b].preds)
      && (forall s :: s in blocks[b].succs <==> s in Succ(blocks[b]))
  }

  // Every operand that phis of a block read on the edge from block from is now labelled to.
  method RelabelInPlace(f: Function, b: nat, from: nat, to: nat)
    requires b < |f.blocks|
    modifies f
    ensures f.blocks == old(f.blocks)[b := old(f.blocks)[b].(phis := RelabelPhis(old(f.blocks)[b].phis, from, to))]
  {
    var phis := f.blocks[b].phis;
    ghost var before := phis;
    var i := 0;
    while i < |phis|
      invariant i <= |phis| == |before|
      invariant forall k :: 0 <= k < i ==> phis[k] == RelabelPhi(before[k], from, to)
      invariant forall k :: i <= k < |phis| ==> phis[k] == before[k]
    {
      var incomings := phis[i].incomings;
      var k := 0;
      while k < |incomings|
        invariant k <= |incomings| == |before[i].incomings|
        invariant forall m :: 0 <= m < k ==> incomings[m] == RelabelOne(before[i].incomings[m], from, to)
        invariant forall m :: k <= m < |incomings| ==> incomings[m] == before[i].incomings[m]
      {
        if incomings[k].0 == from {
          incomings := incomings[k := (to, incomings[k].1)];
        }
        k := k + 1;
      }
      assert incomings == RelabelAll(before[i].incomings, from, to);
      phis := phis[i := phis[i].(incomings := incomings)];
      i := i + 1;
    }
    assert phis == RelabelPhis(before, from, to);
    f.blocks := f.blocks[b := f.blocks[b].(phis := phis)];
  }

  // Splits every critical edge and fills in the predecessor and successor lists.
  // Fails, before changing anything, on a block without a terminator.
  method ResolveCriticalEdges(f: Function) returns (ok: bool)
    requires WellFormed(f.blocks) || exists b :: 0 <= b < |f.blocks| && LacksTerminator(f.blocks[b])
    modifies f
    ensures ok == !(exists b :: 0 <= b < |old(f.blocks)| && LacksTerminator(old(f.blocks)[b]))
    ensures !ok ==> f.blocks == old(f.blocks)
    ensures ok ==> WellFormed(f.blocks) && NoCriticalEdge(f.blocks) && ListsOk(f.blocks)
    ensures ok ==> SameEnds(old(f.blocks), f.blocks)
    ensures ok ==> OnlyJumpsAdded(old(f.blocks), f.blocks) && SameDefs(old(f.blocks), f.blocks)
    ensures ok && PhisAtJoins(old(f.blocks)) ==> PhisAtJoins(f.blocks)
    ensures ok ==> OnlyCriticalSplit(old(f.blocks), f.blocks)
  {
    hide Progress, OnlyCriticalSplit, SameEnds, SameDefs, OnlyJumpsAdded, WellFormed, NoCriticalEdge, ListsOk, PhisAtJoins, IsCritical, GraphOk, JoinsKept;
    var predecessors, successors;
    ok, predecessors, successors := ComputeEdges(f.blocks);
    if !ok {
      return;
    }
    StartGraph(f.blocks, predecessors, successors);
    var critical := FindCritical(f.blocks, predecessors, successors);
    StartProgress(f.blocks, predecessors, successors, critical);
    while critical != {}
      invariant Progress(old(f.blocks), f.blocks, predecessors, successors, critical)
      decreases critical
    {
      var e :| e in critical;
      MoreProgress(old(f.blocks), f.blocks, predecessors, successors, critical, e);
      predecessors, successors := SplitInPlace(f, e.0, e.1, predecessors, successors);
      critical := critical - {e};
    }
    ghost var split := f.blocks;
    NothingCritical(old(f.blocks), split, predecessors, successors);
    FillLists(f, predecessors, successors);
    EndProgress(old(f.blocks), split, f.blocks, predecessors, successors);
  }

  // What the loop keeps.
  ghost predicate Progress(start: seq<BasicBlock>, blocks: seq<BasicBlock>, preds: map<nat, set<nat>>, succs: map<nat, set<nat>>, critical: set<(nat, nat)>) {
    && GraphOk(blocks, preds, succs)
    && (forall e: (nat, nat) :: e in critical <==> IsCritical(preds, succs, e))
    && SameEnds(start, blocks) && OnlyJumpsAdded(start, blocks) && SameDefs(start, blocks)
    && (PhisAtJoins(start) ==> JoinsKept(blocks, preds))
    && SplitSoFar(start, |blocks|, succs, critical)
  }

  lemma StartProgress(blocks: seq<BasicBlock>, preds: map<nat, set<nat>>, succs: map<nat, set<nat>>, critical: set<(nat, nat)>)
    requires forall b: nat :: b in preds <==> b < |blocks|
    requires forall b: nat :: b in succs <==> b < |blocks|
    requires forall b :: 0 <= b < |blocks| ==> preds[b] == PredSet(blocks[b]) && succs[b] == Succ(blocks[b])
    requires GraphOk(blocks, preds, succs)
    requires forall e: (nat, nat) :: e in critical <==> IsCritical(preds, succs, e)
    ensures Progress(blocks, blocks, preds, succs, critical)
  {
    hide SplitSoFar, IsCritical, GraphOk, SameEnds;
    SameEndsRefl(blocks);
    NothingSplit(blocks, preds, succs, critical);
    if PhisAtJoins(blocks) { assert JoinsKept(blocks, preds); }
  }

  lemma MoreProgress(start: seq<BasicBlock>, blocks: seq<BasicBlock>, preds: map<nat, set<nat>>, succs: map<nat, set<nat>>, critical: set<(nat, nat)>, e: (nat, nat))
    requires Progress(start, blocks, preds, succs, critical) && e in critical
    ensures e.0 < |blocks| && e.1 < |blocks| && |blocks[e.0].instrs| > 0 && e.1 in preds && e.0 in succs
    ensures Progress(start, Split(blocks, e.0, e.1), SplitPreds(preds, e.0, e.1, |blocks|), SplitSuccs(succs, e.0, e.1, |blocks|), critical - {e})
  {
    hide SplitSoFar, IsCritical, GraphOk, SameEnds, SameDefs, OnlyJumpsAdded, PhisAtJoins, JoinsKept, SplitPreds, SplitSuccs;
    SplitOne(start, blocks, preds, succs, critical, e);
    OneMoreSplit(start, |blocks|, succs, critical, e);
    assert |Split(blocks, e.0, e.1)| == |blocks| + 1;
  }

  lemma NothingCritical(start: seq<BasicBlock>, blocks: seq<BasicBlock>, preds: map<nat, set<nat>>, succs: map<nat, set<nat>>)
    requires Progress(start, blocks, preds, succs, {})
    ensures GraphOk(blocks, preds, succs) && forall e: (nat, nat) :: !IsCritical(preds, succs, e)
  {
    hide SplitSoFar, IsCritical, GraphOk, SameEnds, SameDefs, OnlyJumpsAdded, PhisAtJoins, JoinsKept;
    forall e: (nat, nat) ensures !IsCritical(preds, succs, e) { assert e !in {}; }
  }

  lemma EndProgress(start: seq<BasicBlock>, blocks: seq<BasicBlock>, blocks': seq<BasicBlock>, preds: map<nat, set<nat>>, succs: map<nat, set<nat>>)
    requires Progress(start, blocks, preds, succs, {}) && |blocks'| == |blocks|
    requires forall b :: 0 <= b < |blocks| ==> blocks'[b].phis == blocks[b].phis && blocks'[b].instrs == blocks[b].instrs
    requires forall bs :: SameEnds(bs, blocks) ==> SameEnds(bs, blocks')
    requires JoinsKept(blocks, preds) ==> PhisAtJoins(blocks')
    ensures SameEnds(start, blocks') && OnlyJumpsAdded(start, blocks') && SameDefs(start, blocks') && OnlyCriticalSplit(start, blocks')
    ensures PhisAtJoins(start) ==> PhisAtJoins(blocks')
  {
    hide SplitSoFar, IsCritical, GraphOk, SameEnds, SameDefs, PhisAtJoins, JoinsKept, OnlyCriticalSplit;
    AllSplit(start, blocks, blocks', preds, succs);
    FilledDefs(start, blocks, blocks');
  }

  // The edges of a graph that are critical.
  ghost function CriticalIn(blocks: seq<BasicBlock>): set<(nat, nat)> {
    set p: nat, b: nat | p < |blocks| && b < |blocks| && p in PredSet(blocks[b]) && |PredSet(blocks[b])| > 1 && |Succ(blocks[p])| > 1 :: (p, b)
  }

  // There is one block more for each critical edge, and between the old blocks
  // exactly those edges are gone.
  ghost predicate OnlyCriticalSplit(start: seq<BasicBlock>, blocks: seq<BasicBlock>) {
    && |blocks| == |start| + |CriticalIn(start)|
    && forall p: nat, b: nat :: p < |start| && b < |start| ==>
        (b in Succ(blocks[p]) <==> b in Succ(start[p]) && (p, b) !in CriticalIn(start))
  }

  // The same when those of critical are still to be split.
  ghost predicate SplitSoFar(start: seq<BasicBlock>, size: nat, succs: map<nat, set<nat>>, critical: set<(nat, nat)>) {
    && size + |critical| == |start| + |CriticalIn(start)| && |start| <= size && critical <= CriticalIn(start)
    && forall p: nat, b: nat :: p < |start| && b < |start| && p in succs ==> EdgeSoFar(start, succs, critical, p, b)
  }

  ghost predicate EdgeSoFar(start: seq<BasicBlock>, succs: map<nat, set<nat>>, critical: set<(nat, nat)>, p: nat, b: nat)
    requires p < |start| && p in succs
  {
    b in succs[p] <==> b in Succ(start[p]) && ((p, b) in CriticalIn(start) ==> (p, b) in critical)
  }

  lemma NothingSplit(blocks: seq<BasicBlock>, preds: map<nat, set<nat>>, succs: map<nat, set<nat>>, critical: set<(nat, nat)>)
    requires forall b: nat :: b in preds <==> b < |blocks|
    requires forall b: nat :: b in succs <==> b < |blocks|
    requires forall b :: 0 <= b < |blocks| ==> preds[b] == PredSet(blocks[b]) && succs[b] == Succ(blocks[b])
    requires GraphOk(blocks, preds, succs)
    requires forall e: (nat, nat) :: e in critical <==> IsCritical(preds, succs, e)
    ensures SplitSoFar(blocks, |blocks|, succs, critical)
  {
    hide NodeOk, Succ, PredSet;
    forall e: (nat, nat) ensures e in critical <==> e in CriticalIn(blocks) { assert e in critical <==> IsCritical(preds, succs, e); }
    assert critical == CriticalIn(blocks);
  }

  lemma OneMoreSplit(start: seq<BasicBlock>, size: nat, succs: map<nat, set<nat>>, critical: set<(nat, nat)>, e: (nat, nat))
    requires SplitSoFar(start, size, succs, critical) && e in critical && e.0 in succs
    ensures SplitSoFar(start, size + 1, SplitSuccs(succs, e.0, e.1, size), critical - {e})
  {
    hide CriticalIn, Succ;
    var succs' := SplitSuccs(succs, e.0, e.1, size);
    forall p: nat, b: nat | p < |start| && b < |start| && p in succs' ensures EdgeSoFar(start, succs', critical - {e}, p, b) {
      assert EdgeSoFar(start, succs, critical, p, b);
      if p == e.0 {
        assert succs'[p] == succs[p] - {e.1} + {size};
        assert b == e.1 ==> (p, b) == e;
      } else {
        assert succs'[p] == succs[p];
      }
    }
  }

  lemma AllSplit(start: seq<BasicBlock>, blocks: seq<BasicBlock>, blocks': seq<BasicBlock>, preds: map<nat, set<nat>>, succs: map<nat, set<nat>>)
    requires GraphOk(blocks, preds, succs) && SplitSoFar(start, |blocks|, succs, {}) && |blocks'| == |blocks|
    requires forall b :: 0 <= b < |blocks| ==> blocks'[b].instrs == blocks[b].instrs
    ensures OnlyCriticalSplit(start, blocks')
  {
    hide CriticalIn;
    forall p: nat, b: nat | p < |start| && b < |start|
      ensures b in Succ(blocks'[p]) <==> b in Succ(start[p]) && (p, b) !in CriticalIn(start)
    {
      assert NodeOk(blocks, preds, succs, p);
      assert EdgeSoFar(start, succs, {}, p, b);
    }
  }

  lemma FilledDefs(start: seq<BasicBlock>, blocks: seq<BasicBlock>, blocks': seq<BasicBlock>)
    requires SameDefs(start, blocks) && |blocks'| == |blocks|
    requires forall b :: 0 <= b < |blocks| ==> blocks'[b].phis == blocks[b].phis && blocks'[b].instrs == blocks[b].instrs
    ensures SameDefs(start, blocks')
  {
  }

  method ComputeEdges(blocks: seq<BasicBlock>) returns (ok: bool, predecessors: map<nat, set<nat>>, successors: map<nat, set<nat>>)
    ensures ok == !(exists b :: 0 <= b < |blocks| && LacksTerminator(blocks[b]))
    ensures ok ==>
      && (forall b: nat :: b in predecessors <==> b < |blocks|)
      && (forall b: nat :: b in successors <==> b < |blocks|)
      && forall b :: 0 <= b < |blocks| ==>
        !LacksTerminator(blocks[b]) && predecessors[b] == PredSet(blocks[b]) && successors[b] == Succ(blocks[b])
  {
    ok, predecessors, successors := true, map[], map[];
    var n := 0;
    while n < |blocks|
      invariant n <= |blocks|
      invariant forall b: nat :: b in predecessors <==> b < n
      invariant forall b: nat :: b in successors <==> b < n
      invariant forall b :: 0 <= b < n ==>
        !LacksTerminator(blocks[b]) && predecessors[b] == PredSet(blocks[b]) && successors[b] == Succ(blocks[b])
    {
      var block := blocks[n];
      if |block.instrs| > 0 && !block.instrs[|block.instrs| - 1].IsTerminator() {
        assert LacksTerminator(blocks[n]);
        ok := false;
        return;
      }
      predecessors := predecessors[n := PredSet(block)];
      successors := successors[n := Succ(block)];
      n := n + 1;
    }
  }

  // Blocks added by the pass hold nothing but a jump.
  ghost predicate OnlyJumpsAdded(start: seq<BasicBlock>, blocks: seq<BasicBlock>) {
    && |start| <= |blocks|
    && forall b :: |start| <= b < |blocks| ==> blocks[b].phis == [] && |blocks[b].instrs| == 1
  }

  method SplitInPlace(f: Function, i: nat, j: nat, predecessors0: map<nat, set<nat>>, successors0: map<nat, set<nat>>)
    returns (predecessors: map<nat, set<nat>>, successors: map<nat, set<nat>>)
    requires i < |f.blocks| && j < |f.blocks| && |f.blocks[i].instrs| > 0
    requires j in predecessors0 && i in successors0
    modifies f
    ensures f.blocks == Split(old(f.blocks), i, j)
    ensures predecessors == SplitPreds(predecessors0, i, j, old(|f.blocks|))
    ensures successors == SplitSuccs(successors0, i, j, old(|f.blocks|))
  {
    successors := successors0[i := successors0[i] - {j}];
    predecessors := predecessors0[j := predecessors0[j] - {i}];
    var newblock := |f.blocks|;
    f.blocks := f.blocks + [BasicBlock([], [], [], [], false)];
    successors := successors[i := successors[i] + {newblock}];
    predecessors := predecessors[j := predecessors[j] + {newblock}];
    successors := successors[newblock := {j}];
    predecessors := predecessors[newblock := {i}];
    var code := f.blocks[i].instrs;
    f.blocks := f.blocks[i := f.blocks[i].(instrs := code[|code| - 1 := Redirect(code[|code| - 1], j, newblock)])];
    f.blocks := f.blocks[newblock := f.blocks[newblock].(instrs := f.blocks[newblock].instrs + [Br(j)])];
    assert [] + [Br(j)] == [Br(j)];
    RelabelInPlace(f, j, i, newblock);
  }

  lemma SplitOne(start: seq<BasicBlock>, blocks: seq<BasicBlock>, preds: map<nat, set<nat>>, succs: map<nat, set<nat>>,
                 critical: set<(nat, nat)>, e: (nat, nat))
    requires GraphOk(blocks, preds, succs) && e in critical
    requires forall x: (nat, nat) :: x in critical <==> IsCritical(preds, succs, x)
    requires SameEnds(start, blocks) && OnlyJumpsAdded(start, blocks) && SameDefs(start, blocks)
    ensures e.0 < |blocks| && e.1 < |blocks| && |blocks[e.0].instrs| > 0 && e.1 in preds && e.0 in succs
    ensures var blocks', preds', succs' := Split(blocks, e.0, e.1), SplitPreds(preds, e.0, e.1, |blocks|), SplitSuccs(succs, e.0, e.1, |blocks|);
      && GraphOk(blocks', preds', succs')
      && (forall x: (nat, nat) :: x in critical - {e} <==> IsCritical(preds', succs', x))
      && SameEnds(start, blocks') && OnlyJumpsAdded(start, blocks') && SameDefs(start, blocks')
      && (JoinsKept(blocks, preds) ==> JoinsKept(blocks', preds'))
  {
    hide SameEnds, SameDefs, NodeOk, OnlyJumpsAdded, JoinsKept, Split, SplitPreds, SplitSuccs;
    var (i, j) := e;
    CriticalIsCbr(blocks, preds, succs, i, j);
    SplitKeepsGraph(blocks, preds, succs, i, j);
    SplitSameEnds(blocks, preds, succs, i, j);
    SameEndsTrans(start, blocks, Split(blocks, i, j));
    forall x: (nat, nat) ensures x in critical - {e} <==> IsCritical(SplitPreds(preds, i, j, |blocks|), SplitSuccs(succs, i, j, |blocks|), x) {
      SplitCritical(blocks, preds, succs, i, j, x);
    }
    SplitDefs(blocks, preds, succs, i, j);
    SameDefsTrans(start, blocks, Split(blocks, i, j));
    SplitJumps(start, blocks, i, j);
    SplitJoins(blocks, preds, succs, i, j);
  }

  lemma SameDefsTrans(a: seq<BasicBlock>, b: seq<BasicBlock>, c: seq<BasicBlock>)
    requires SameDefs(a, b) && SameDefs(b, c)
    ensures SameDefs(a, c)
  {
    hide IsDef;
  }

  lemma SplitJumps(start: seq<BasicBlock>, blocks: seq<BasicBlock>, i: nat, j: nat)
    requires OnlyJumpsAdded(start, blocks) && i < |blocks| && j < |blocks| && |blocks[i].instrs| > 0
    ensures OnlyJumpsAdded(start, Split(blocks, i, j))
  {
  }

  lemma SplitJoins(blocks: seq<BasicBlock>, preds: map<nat, set<nat>>, succs: map<nat, set<nat>>, i: nat, j: nat)
    requires GraphOk(blocks, preds, succs) && IsCritical(preds, succs, (i, j))
    requires i < |blocks| && j < |blocks| && |blocks[i].instrs| > 0 && j in preds
    ensures JoinsKept(blocks, preds) ==> JoinsKept(Split(blocks, i, j), SplitPreds(preds, i, j, |blocks|))
  {
    assert NodeOk(blocks, preds, succs, j);
    assert |blocks| !in preds[j];
    assert |preds[j] - {i} + {|blocks|}| == |preds[j]|;
  }

  // Values are defined where they were.
  ghost predicate SameDefs(blocks: seq<BasicBlock>, blocks': seq<BasicBlock>) {
    forall d, v :: IsDef(blocks, d, v) <==> IsDef(blocks', d, v)
  }

  lemma SplitDefs(blocks: seq<BasicBlock>, preds: map<nat, set<nat>>, succs: map<nat, set<nat>>, i: nat, j: nat)
    requires GraphOk(blocks, preds, succs) && IsCritical(preds, succs, (i, j))
    requires i < |blocks| && j < |blocks| && |blocks[i].instrs| > 0
    ensures SameDefs(blocks, Split(blocks, i, j))
  {
    CriticalIsCbr(blocks, preds, succs, i, j);
  }

  // Only blocks with several predecessors have phis.
  ghost predicate PhisAtJoins(blocks: seq<BasicBlock>) {
    forall b :: 0 <= b < |blocks| && blocks[b].phis != [] ==> |PredSet(blocks[b])| > 1
  }

  ghost predicate JoinsKept(blocks: seq<BasicBlock>, preds: map<nat, set<nat>>) {
    forall b: nat :: b < |blocks| && b in preds && blocks[b].phis != [] ==> |preds[b]| > 1
  }

  method FindCritical(blocks: seq<BasicBlock>, predecessors: map<nat, set<nat>>, successors: map<nat, set<nat>>)
    returns (critical: set<(nat, nat)>)
    requires GraphOk(blocks, predecessors, successors)
    ensures forall e: (nat, nat) :: e in critical <==> IsCritical(predecessors, successors, e)
  {
    critical := {};
    var b: nat := 0;
    while b < |blocks|
      invariant b <= |blocks|
      invariant forall e: (nat, nat) :: e in critical <==> IsCritical(predecessors, successors, e) && e.1 < b
    {
      if |predecessors[b]| > 1 {
        assert NodeOk(blocks, predecessors, successors, b);
        var rest := predecessors[b];
        while rest != {}
          invariant rest <= predecessors[b]
          invariant forall e: (nat, nat) :: e in critical <==>
            IsCritical(predecessors, successors, e) && (e.1 < b || (e.1 == b && e.0 !in rest))
          decreases rest
        {
          var p :| p in rest;
          if |successors[p]| > 1 {
            critical := critical + {(p, b)};
          }
          rest := rest - {p};
        }
      }
      b := b + 1;
    }
  }

  method FillLists(f: Function, predecessors: map<nat, set<nat>>, successors: map<nat, set<nat>>)
    requires GraphOk(f.blocks, predecessors, successors)
    requires forall e: (nat, nat) :: !IsCritical(predecessors, successors, e)
    modifies f
    ensures |f.blocks| == old(|f.blocks|)
    ensures forall b :: 0 <= b < |f.blocks| ==>
      f.blocks[b].phis == old(f.blocks)[b].phis && f.blocks[b].instrs == old(f.blocks)[b].instrs
    ensures WellFormed(f.blocks) && NoCriticalEdge(f.blocks) && ListsOk(f.blocks)
    ensures forall blocks :: SameEnds(blocks, old(f.blocks)) ==> SameEnds(blocks, f.blocks)
    ensures JoinsKept(old(f.blocks), predecessors) ==> PhisAtJoins(f.blocks)
  {
    ghost var start := f.blocks;
    var b := 0;
    while b < |f.blocks|
      invariant b <= |f.blocks| == |start|
      invariant forall c :: 0 <= c < |start| ==>
        f.blocks[c].phis == start[c].phis && f.blocks[c].instrs == start[c].instrs
      invariant forall c :: 0 <= c < b ==> ListedAs(f.blocks[c], predecessors[c], successors[c])
    {
      var preds := Sorted(predecessors[b]);
      var succs := Sorted(successors[b]);
      f.blocks := f.blocks[b := f.blocks[b].(preds := preds, succs := succs)];
      b := b + 1;
    }
    ListsFilled(start, f.blocks, predecessors, successors);
    forall blocks | SameEnds(blocks, start) ensures SameEnds(blocks, f.blocks) {
      SameCodeSameEnds(start, f.blocks);
      SameEndsTrans(blocks, start, f.blocks);
    }
  }

  ghost predicate ListedAs(b: BasicBlock, preds: set<nat>, succs: set<nat>) {
    && Increasing(b.preds) && Increasing(b.succs)
    && (forall x :: x in b.preds <==> x in preds)
    && (forall x :: x in b.succs <==> x in succs)
  }

  lemma StartGraph(blocks: seq<BasicBlock>, preds: map<nat, set<nat>>, succs: map<nat, set<nat>>)
    requires WellFormed(blocks) || exists b :: 0 <= b < |blocks| && LacksTerminator(blocks[b])
    requires forall b: nat :: b in preds <==> b < |blocks|
    requires forall b: nat :: b in succs <==> b < |blocks|
    requires forall b :: 0 <= b < |blocks| ==>
      !LacksTerminator(blocks[b]) && preds[b] == PredSet(blocks[b]) && succs[b] == Succ(blocks[b])
    ensures GraphOk(blocks, preds, succs)
  {
    forall b | 0 <= b < |blocks| ensures NodeOk(blocks, preds, succs, b) {
      assert BlockOk(blocks, b);
    }
  }

  lemma SameEndsRefl(blocks: seq<BasicBlock>)
    ensures SameEnds(blocks, blocks)
  {
  }

  lemma SameEndsTrans(a: seq<BasicBlock>, b: seq<BasicBlock>, c: seq<BasicBlock>)
    requires SameEnds(a, b) && SameEnds(b, c)
    ensures SameEnds(a, c)
  {
    forall args: seq<Word>, d: Config | !d.At? ensures EndsIn(a, args, d) <==> EndsIn(c, args, d) {
      assert EndsIn(a, args, d) <==> EndsIn(b, args, d);
    }
  }

  // Runs do not look at the predecessor and successor lists.
  lemma {:induction false} SameCodeSameRun(a: seq<BasicBlock>, b: seq<BasicBlock>, c: Config, n: nat)
    requires |a| == |b|
    requires forall i :: 0 <= i < |a| ==> a[i].phis == b[i].phis && a[i].instrs == b[i].instrs
    ensures Run(a, c, n) == Run(b, c, n)
    decreases n
  {
    if n > 0 {
      assert Step(a, c) == Step(b, c);
      SameCodeSameRun(a, b, Step(a, c), n - 1);
    }
  }

  lemma SameCodeSameEnds(a: seq<BasicBlock>, b: seq<BasicBlock>)
    requires |a| == |b|
    requires forall i :: 0 <= i < |a| ==> a[i].phis == b[i].phis && a[i].instrs == b[i].instrs
    ensures SameEnds(a, b)
  {
    forall args: seq<Word>, n: nat ensures Run(a, Start(args), n) == Run(b, Start(args), n) {
      SameCodeSameRun(a, b, Start(args), n);
    }
    forall args: seq<Word>, d: Config | !d.At? ensures EndsIn(a, args, d) <==> EndsIn(b, args, d) {
      if n: nat :| Run(a, Start(args), n) == d { assert Run(b, Start(args), n) == d; }
      if n: nat :| Run(b, Start(args), n) == d { assert Run(a, Start(args), n) == d; }
    }
  }

  lemma ListsFilled(start: seq<BasicBlock>, blocks: seq<BasicBlock>, preds: map<nat, set<nat>>, succs: map<nat, set<nat>>)
    requires GraphOk(start, preds, succs) && |blocks| == |start|
    requires forall e: (nat, nat) :: !IsCritical(preds, succs, e)
    requires forall c :: 0 <= c < |start| ==> blocks[c].phis == start[c].phis && blocks[c].instrs == start[c].instrs
    requires forall c :: 0 <= c < |start| ==> ListedAs(blocks[c], preds[c], succs[c])
    ensures WellFormed(blocks) && NoCriticalEdge(blocks) && ListsOk(blocks)
    ensures forall b :: 0 <= b < |blocks| ==> PredSet(blocks[b]) == preds[b]
  {
    forall b | 0 <= b < |blocks| ensures PredSet(blocks[b]) == preds[b] && Succ(blocks[b]) == succs[b] {
      assert NodeOk(start, preds, succs, b) && ListedAs(blocks[b], preds[b], succs[b]);
      assert forall x :: x in PredSet(blocks[b]) <==> x in blocks[b].preds;
    }
    forall b | 0 <= b < |blocks| ensures BlockOk(blocks, b) {
      assert NodeOk(start, preds, succs, b);
    }
    forall p, b | 0 <= p < |blocks| && 0 <= b < |blocks| && p in PredSet(blocks[b])
      ensures |PredSet(blocks[b])| <= 1 || |Succ(blocks[p])| <= 1
    {
      assert !IsCritical(preds, succs, (p, b));
    }
    assert ListsOk(blocks) by {
      forall b | 0 <= b < |blocks| ensures ListedAs(blocks[b], preds[b], succs[b]) {}
    }
  }
}
