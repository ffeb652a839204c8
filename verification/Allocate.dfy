// One round of register allocation on a function.
module Allocate {
  import opened Ast
  import opened Allocation
  import opened Coloring
  import opened Frame
  import opened GreedyColoring
  import opened Liveness
  import opened Machine
  import opened MachineRun
  import opened Ordered
  import opened SelfMoves
  import opened Spilling
  import opened SpillingCorrect

  // ----- Colouring is what the simulation needs -----

  // The vreg table: colours are registers, a free vreg takes no reserved one,
  // a fixed vreg has one colour.
  ghost predicate TableFits(registers: seq<Register>, table: VregTable) {
    && TableOk(registers)
    && (forall x, c :: x in table.domains && c in table.domains[x] ==> IsColor(registers, c))
    && (forall x, c :: x in table.domains && x !in table.fixedVregs && c in table.domains[x] && c < |registers| ==> !registers[c].reserved)
    && (forall x :: x in table.domains && x in table.fixedVregs ==> exists c :: table.domains[x] == {c})
  }

  ghost predicate OperandsAre(blocks: seq<Block>, operands: set<nat>) {
    forall x :: x in operands <==> exists p :: IsPoint(blocks, p) && Mentions(InstrAt(blocks, p), x)
  }

  lemma {:induction false} LiveIsMentioned(blocks: seq<Block>, path: seq<Point>, y: nat)
    requires LivePath(blocks, path, y)
    ensures exists p :: IsPoint(blocks, p) && Mentions(InstrAt(blocks, p), y)
    decreases path
  {
    hide Next;
    if |path| > 1 {
      LiveIsMentioned(blocks, path[1..], y);
    } else {
      assert Mentions(InstrAt(blocks, path[0]), y);
    }
  }

  lemma OutsAreOperands(blocks: seq<Block>, ins: Sets, outs: Sets, operands: set<nat>)
    requires Solves(blocks, ins, outs) && OperandsAre(blocks, operands)
    requires forall p, y :: IsPoint(blocks, p) ==> (y in ins[p] <==> Live(blocks, p, y))
    ensures forall p :: p in outs ==> outs[p] <= operands
  {
    hide Next, Use, Wrt;
    forall p, y | p in outs && y in outs[p] ensures y in operands {
      assert SolvesAt(blocks, ins, outs, p);
      var q :| q in Next(blocks, p) && q in ins && y in ins[q];
      assert Live(blocks, q, y);
      var path :| LivePath(blocks, path, y) && path[0] == q;
      LiveIsMentioned(blocks, path, y);
    }
  }

  lemma WrittenIsMentioned(i: Instr, x: nat)
    requires x in Wrt(i)
    ensures Mentions(i, x)
  {
  }

  lemma GraphIsProper(registers: seq<Register>, blocks: seq<Block>, table: VregTable, outs: Sets, operands: set<nat>, graph: Graph, domains: Domains)
    requires TableFits(registers, table) && GraphIs(blocks, outs, operands, graph) && Narrowed(registers, blocks, outs, table, operands, domains)
    ensures Proper(Problem(registers, graph, domains, table.fixedVregs))
  {
    hide Interfere, Destroyed, TableOk;
    var p := Problem(registers, graph, domains, table.fixedVregs);
    assert TableOk(registers);
    forall x, y | Adjacent(p, x, y) ensures Adjacent(p, y, x) && x != y {
      InterfereSymmetric(blocks, outs, x, y);
    }
    forall x | x in graph && x in table.fixedVregs ensures domains[x] != {} {
      var c :| table.domains[x] == {c};
      assert c in domains[x];
    }
  }

  lemma InterfereSymmetric(blocks: seq<Block>, outs: Sets, x: nat, y: nat)
    ensures Interfere(blocks, outs, x, y) ==> Interfere(blocks, outs, y, x) && x != y
  {
  }

  // A colouring that spilled nothing has what the simulation asks for.
  lemma ColoringIsSafe(registers: seq<Register>, blocks: seq<Block>, table: VregTable, ins: Sets, outs: Sets,
                       operands: set<nat>, graph: Graph, domains: Domains, work: Work)
    requires Solves(blocks, ins, outs) && OperandsAre(blocks, operands) && TableFits(registers, table)
    requires forall p :: p in outs ==> outs[p] <= operands
    requires GraphIs(blocks, outs, operands, graph) && Narrowed(registers, blocks, outs, table, operands, domains)
    requires Finished(Problem(registers, graph, domains, table.fixedVregs), work) && work.spilled == {}
    ensures SafeColors(Setting(registers, blocks, table.fixedVregs, work.colors, ins, outs))
  {
    hide Solves, OperandsAre, GraphOk, DomainsOk, SavedOk, GraphIs, TableOk;
    var k := Setting(registers, blocks, table.fixedVregs, work.colors, ins, outs);
    var p := Problem(registers, graph, domains, table.fixedVregs);
    assert work.colors.Keys == operands by { GraphNodes(blocks, outs, operands, graph); }
    forall x | x in k.colors ensures k.colors[x] < |registers| && (x !in k.fixedVregs ==> !registers[k.colors[x]].reserved) {
      var c := work.colors[x];
      assert x in domains && c in domains[x] && x in table.domains && c in table.domains[x] && IsColor(registers, c);
    }
    forall q, x | IsPoint(blocks, q) && Mentions(InstrAt(blocks, q), x) ensures x in k.colors {
      MentionedIsOperand(blocks, operands, q, x);
    }
    forall q, x, y | Clash(blocks, outs, q, x, y) ensures ClashOk(k, x, y) {
      WrittenIsMentioned(InstrAt(blocks, q), x);
      MentionedIsOperand(blocks, operands, q, x);
      ClashIsEdge(blocks, outs, operands, graph, q, x, y);
      assert Adjacent(p, x, y);
      if !(x in table.fixedVregs && y in table.fixedVregs) {
        assert AreApart(registers, work.colors[x], work.colors[y]);
      }
    }
    forall q, y | LiveOverCall(k, q, y) && y !in k.fixedVregs ensures Survives(k, y) {
      assert y in operands;
      var c := k.colors[y];
      assert c in domains[y] && c in table.domains[y] && c < |registers|;
      assert registers[c].callerSaved ==> DestroyedAt(registers, blocks, outs, q, y, c);
    }
  }

  lemma GraphNodes(blocks: seq<Block>, outs: Sets, operands: set<nat>, graph: Graph)
    requires GraphIs(blocks, outs, operands, graph)
    ensures graph.Keys == operands
  {
  }

  lemma MentionedIsOperand(blocks: seq<Block>, operands: set<nat>, q: Point, x: nat)
    requires OperandsAre(blocks, operands) && IsPoint(blocks, q) && Mentions(InstrAt(blocks, q), x)
    ensures x in operands
  {
  }

  lemma ClashIsEdge(blocks: seq<Block>, outs: Sets, operands: set<nat>, graph: Graph, q: Point, x: nat, y: nat)
    requires GraphIs(blocks, outs, operands, graph) && Clash(blocks, outs, q, x, y) && x in operands && y in operands
    ensures x in graph && y in graph[x]
  {
    assert Interfere(blocks, outs, x, y);
  }

  // ----- The theorem -----

  lemma RecoloredIsPhysical(k: Setting, w: World)
    requires SafeColors(k) && Prepared(k, w)
    ensures Physical(k.registers, Recolor(k.blocks, k.colors))
  {
    hide Solves;
    var out := Recolor(k.blocks, k.colors);
    forall b, n | 0 <= b < |out| && 0 <= n < |out[b].instrs| ensures KnownRegister(k.registers, out[b].instrs[n].dst) {
      assert LoweredAt(k, w, Point(b, n));
    }
  }

  // Allocation keeps meaning: whatever calls leave in the registers they may
  // destroy, before and after, the code ends with the same result and memory.
  lemma AllocationExact(k: Setting, w: World, junk: Junk, junk': Junk, s: State, v: Word, mem: map<int, Word>)
    requires SafeColors(k) && Prepared(k, w) && Full(k.registers, s)
    ensures Ends(k.registers, k.blocks, w, Homes(k), junk, s, v, mem)
       <==> Ends(k.registers, DropAll(Recolor(k.blocks, k.colors)), w, map[], junk', s, v, mem)
  {
    hide SafeColors, Run, Physical, Full;
    var out := Recolor(k.blocks, k.colors);
    RecoloredIsPhysical(k, w);
    SelfMovesDoNothing(k.registers, out, w, junk', s, v, mem);
    StartsSim(k, w, s);
    if n: nat :| Run(k.registers, k.blocks, w, Homes(k), junk, At(0, 0, s), n) == Done(v, mem) {
      RunKeepsSim(k, w, junk, junk', At(0, 0, s), At(0, 0, s), n);
      assert Run(k.registers, out, w, map[], junk', At(0, 0, s), n) == Done(v, mem);
    }
    if n: nat :| Run(k.registers, out, w, map[], junk', At(0, 0, s), n) == Done(v, mem) {
      RunKeepsSim(k, w, junk, junk', At(0, 0, s), At(0, 0, s), n);
      assert Run(k.registers, k.blocks, w, Homes(k), junk, At(0, 0, s), n) == Done(v, mem);
    }
  }

  // ----- The round -----

  class MachineFunction {
    var blocks: seq<Block>
    var prologue: seq<Instr>
    var epilogue: seq<Instr>
    const table: VregTable

    constructor (blocks: seq<Block>, table: VregTable)
      ensures this.blocks == blocks && this.table == table
    {
      this.blocks, this.table, this.prologue, this.epilogue := blocks, table, [], [];
    }
  }

  method RecolorInPlace(blocks: seq<Block>, colors: map<nat, nat>) returns (out: seq<Block>)
    ensures out == Recolor(blocks, colors)
  {
    out := blocks;
    var b := 0;
    while b < |blocks|
      invariant b <= |blocks| == |out|
      invariant forall c :: 0 <= c < b ==> out[c] == RecolorBlock(blocks[c], colors)
      invariant forall c :: b <= c < |blocks| ==> out[c] == blocks[c]
    {
      var code, n := blocks[b].instrs, 0;
      while n < |code|
        invariant n <= |code| == |blocks[b].instrs|
        invariant forall m :: 0 <= m < n ==> code[m] == RecolorInstr(blocks[b].instrs[m], colors)
        invariant forall m :: n <= m < |code| ==> code[m] == blocks[b].instrs[m]
      {
        var i := code[n];
        if i.src.Vreg? && i.src.v in colors {
          i := i.(src := Preg(colors[i.src.v]));
        }
        if i.dst.Vreg? && i.dst.v in colors {
          i := i.(dst := Preg(colors[i.dst.v]));
        }
        code := code[n := i];
        n := n + 1;
      }
      out := out[b := blocks[b].(instrs := code)];
      assert code == RecolorBlock(blocks[b], colors).instrs;
      b := b + 1;
    }
  }

  ghost predicate PreservedColor(k: Setting, x: nat) {
    && x in k.colors && x !in k.fixedVregs && k.colors[x] < |k.registers|
    && !k.registers[k.colors[x]].callerSaved && !k.registers[k.colors[x]].reserved
  }

  // The registers the frame preserves: exactly the whole registers behind the
  // callee-saved colours of free vregs.
  ghost predicate SavesExactly(k: Setting, saved: set<nat>) {
    TableOk(k.registers) && forall r :: r in saved <==> exists x :: SavedFor(k, x, r)
  }

  ghost predicate SavedFor(k: Setting, x: nat, r: nat)
    requires TableOk(k.registers)
  {
    PreservedColor(k, x) && r == Root(k.registers, k.colors[x])
  }

  // None of them is reserved, a part of another or left to the caller to save.
  lemma SavedAreFree(k: Setting, saved: set<nat>, r: nat)
    requires SavesExactly(k, saved) && r in saved
    ensures r < |k.registers| && !k.registers[r].reserved && !k.registers[r].callerSaved && k.registers[r].parent == 0
  {
    hide TableOk;
    var x :| SavedFor(k, x, r);
    WholeColor(k.registers, k.colors[x]);
  }

  lemma {:induction false} WholeColor(registers: seq<Register>, c: nat)
    requires TableOk(registers) && c < |registers| && !registers[c].reserved && !registers[c].callerSaved
    ensures var r := Root(registers, c);
      r < |registers| && !registers[r].reserved && !registers[r].callerSaved && registers[r].parent == 0
  {
    hide PartIn;
    if c > 0 { RootIsWhole(registers, c); }
  }

  ghost function Members(xs: seq<nat>): set<nat> { set x | x in xs }

  // The frame around the body: aligned, with the callee-saved registers in use pushed and popped.
  ghost predicate FrameFor(k: Setting, w: World, offset: nat, saved: seq<nat>, prologue: seq<Instr>, epilogue: seq<Instr>) {
    && offset < 0x4000_0000 && Increasing(saved) && SavesExactly(k, Members(saved))
    && prologue == Opening(w, FrameSize(offset, |saved|)) + Pushes(saved)
    && epilogue == Pops(Backwards(saved)) + Closing(w)
  }

  // What every round finds out, spilling or not: what is live where, exactly,
  // and that the fixed vregs the code mentions have their one colour.
  ghost predicate RoundOf(k: Setting, table: VregTable) {
    && k.fixedVregs == table.fixedVregs && Solves(k.blocks, k.ins, k.outs)
    && (forall p, y :: IsPoint(k.blocks, p) ==> (y in k.ins[p] <==> Live(k.blocks, p, y)))
    && (forall x :: x in k.fixedVregs ==> (x in k.colors <==> IsMentioned(k.blocks, x)))
    && forall x :: x in k.fixedVregs && x in k.colors ==> x in table.domains && table.domains[x] == {k.colors[x]}
  }

  ghost predicate IsMentioned(blocks: seq<Block>, x: nat) {
    exists p :: IsPoint(blocks, p) && Mentions(InstrAt(blocks, p), x)
  }

  // What the colouring loop starts from, and what it may come to.
  ghost predicate AsFound(k: Setting, table: VregTable, operands: set<nat>, graph: Graph, domains: Domains, moves: Partners) {
    && OperandsAre(k.blocks, operands) && GraphIs(k.blocks, k.outs, operands, graph)
    && Narrowed(k.registers, k.blocks, k.outs, table, operands, domains)
    && (forall p :: p in Layout(k.blocks) ==> IsPoint(k.blocks, p)) && MovesAre(k.blocks, Layout(k.blocks), moves)
  }

  ghost predicate ColoredAs(k: Setting, table: VregTable, spilled: set<nat>) {
    exists operands, graph, domains, moves, work ::
      && AsFound(k, table, operands, graph, domains, moves)
      && IsResult(Problem(k.registers, graph, domains, table.fixedVregs), moves, work)
      && k.colors == work.colors && spilled == work.spilled
  }

  // Liveness, interference, colouring; then either all vregs become registers
  // and the frame is built, or loads and stores go in and the caller goes on
  // with another round.
  method AllocateRound(f: MachineFunction, registers: seq<Register>, w: World, widths: map<nat, nat>, offset0: nat)
    returns (finished: bool, offset: int, ghost k: Setting, ghost spills: Spills)
    requires TableFits(registers, f.table) && offset0 < 0x4000_0000
    requires forall p, x :: IsPoint(f.blocks, p) && Mentions(InstrAt(f.blocks, p), x) ==> x in f.table.domains && x in widths && widths[x] > 0
    modifies f`blocks, f`prologue, f`epilogue
    ensures k == Setting(registers, old(f.blocks), f.table.fixedVregs, k.colors, k.ins, k.outs) && RoundOf(k, f.table)
    ensures ColoredAs(k, f.table, if finished then {} else Members(spills.spilled)) && (!finished ==> spills.spilled != [])
    ensures finished ==>
      && SafeColors(k) && f.blocks == DropAll(Recolor(old(f.blocks), k.colors)) && offset == offset0
      && exists saved :: FrameFor(k, w, offset0, saved, f.prologue, f.epilogue)
    ensures !finished ==>
      && spills == Spills(registers, old(f.blocks), Homes(k), spills.spilled, spills.slot, w.rbp, k.ins, k.outs)
      && f.blocks == Inserted(spills) && Increasing(spills.spilled)
      && SlotsOk(spills.spilled, widths, spills.slot, offset0, offset) && offset == offset0 + TotalWidth(spills.spilled, widths) && SpilledOk(spills)
      && forall x :: x in spills.spilled ==> x !in k.fixedVregs && IsMentioned(k.blocks, x)
  {
    hide Layout, Next, Solves, SafeColors, SavesExactly, SlotsOk, RoundOf, ColoredAs, SpilledOk, Inserted, Recolor, DropAll, TableFits, Increasing, Opening, Pushes, Pops, Closing, Backwards;
    var blocks := f.blocks;
    var order := LayoutOrder(blocks);
    var next := Successors(blocks);
    var colors, saved, toSpill, ins, outs := ColorRound(registers, blocks, f.table, order, next);
    k := Setting(registers, blocks, f.table.fixedVregs, colors, ins, outs);
    if toSpill == {} {
      finished, offset := true, offset0;
      var colored := RecolorInPlace(blocks, colors);
      var cleaned := RemoveSelfMoves(colored);
      f.blocks := cleaned;
      ghost var pushed;
      f.prologue, f.epilogue, pushed := BuildFrame(w, offset0, saved);
      assert Members(pushed) == saved;
      assert FrameFor(k, w, offset0, pushed, f.prologue, f.epilogue);
      spills := Spills(registers, blocks, map[], [], map[], w.rbp, ins, outs);
    } else {
      finished := false;
      var spilled := Sorted(toSpill);
      assert exists x :: x in toSpill && x in spilled;
      assert Members(spilled) == toSpill;
      var slot;
      slot, offset := AssignSlots(spilled, widths, offset0);
      var homes := map v | v in colors && v in f.table.fixedVregs :: colors[v];
      var s := Spills(registers, blocks, homes, spilled, slot, w.rbp, ins, outs);
      spills := s;
      NewSlotsAreOk(spills, widths, offset0, offset);
      var out := InsertSpills(s, order, next);
      f.blocks := out;
    }
  }

  // Colours for the vregs, the registers to save, and the vregs to spill.
  method ColorRound(registers: seq<Register>, blocks: seq<Block>, table: VregTable, order: seq<Point>, next: map<Point, set<Point>>)
    returns (colors: map<nat, nat>, saved: set<nat>, spilled: set<nat>, ins: Sets, outs: Sets)
    requires TableFits(registers, table) && order == Layout(blocks)
    requires forall p :: p in next <==> IsPoint(blocks, p)
    requires forall p :: p in next ==> next[p] == Next(blocks, p)
    requires forall p, x :: IsPoint(blocks, p) && Mentions(InstrAt(blocks, p), x) ==> x in table.domains
    ensures RoundOf(Setting(registers, blocks, table.fixedVregs, colors, ins, outs), table)
    ensures forall x :: x in spilled ==> x !in table.fixedVregs && IsMentioned(blocks, x)
    ensures var k := Setting(registers, blocks, table.fixedVregs, colors, ins, outs);
      (spilled == {} ==> SafeColors(k)) && SavesExactly(k, saved) && ColoredAs(k, table, spilled)
  {
    hide Layout, Next, Solves, SafeColors, SavesExactly, TableFits, GraphIs, Narrowed, Proper, Mentions, Finished, RoundOf, MovesAre, IsResult;
    ins, outs := Analyze(blocks, order, next);
    var operands := Operands(blocks, order);
    OutsAreOperands(blocks, ins, outs, operands);
    assert Covers(blocks, outs) by { SolutionCovers(blocks, ins, outs); }
    var graph := BuildGraph(blocks, order, outs, operands);
    var domains := NarrowDomains(registers, blocks, order, outs, table, operands);
    GraphIsProper(registers, blocks, table, outs, operands, graph, domains);
    var moves := MovePartners(blocks, order);
    var p := Problem(registers, graph, domains, table.fixedVregs);
    var work := Color(p, moves);
    colors, saved, spilled := work.colors, work.saved, work.spilled;
    SpilledAreOperands(blocks, outs, operands, graph, domains, registers, table, work);
    SavedExactly(Setting(registers, blocks, table.fixedVregs, colors, ins, outs), p, work);
    FixedColored(Setting(registers, blocks, table.fixedVregs, colors, ins, outs), table, operands, graph, domains, work);
    assert AsFound(Setting(registers, blocks, table.fixedVregs, colors, ins, outs), table, operands, graph, domains, moves);
    if spilled == {} {
      ColoringIsSafe(registers, blocks, table, ins, outs, operands, graph, domains, work);
    }
  }

  lemma SolutionCovers(blocks: seq<Block>, ins: Sets, outs: Sets)
    requires Solves(blocks, ins, outs)
    ensures Covers(blocks, ins) && Covers(blocks, outs)
  {
  }

  lemma SavedExactly(k: Setting, p: Problem, work: Work)
    requires Finished(p, work) && p.registers == k.registers && p.fixedVregs == k.fixedVregs && k.colors == work.colors
    ensures SavesExactly(k, work.saved)
  {
    hide GraphOk, Accounted, DomainsOk, ColorsOk;
    forall r ensures r in work.saved <==> exists x :: SavedFor(k, x, r) {
      if x :| NeedsSaving(p, work, x, r) { assert SavedFor(k, x, r); }
      if x :| SavedFor(k, x, r) { assert NeedsSaving(p, work, x, r); }
    }
  }

  lemma SpilledAreOperands(blocks: seq<Block>, outs: Sets, operands: set<nat>, graph: Graph, domains: Domains,
                           registers: seq<Register>, table: VregTable, work: Work)
    requires GraphIs(blocks, outs, operands, graph) && Finished(Problem(registers, graph, domains, table.fixedVregs), work)
    ensures work.spilled <= operands && work.spilled !! table.fixedVregs
  {
    hide GraphOk, DomainsOk, ColorsOk, SavedOk;
  }

  lemma FixedColored(k: Setting, table: VregTable, operands: set<nat>, graph: Graph, domains: Domains, work: Work)
    requires k.fixedVregs == table.fixedVregs && k.colors == work.colors && TableFits(k.registers, table)
    requires Solves(k.blocks, k.ins, k.outs) && forall p, y :: IsPoint(k.blocks, p) ==> (y in k.ins[p] <==> Live(k.blocks, p, y))
    requires OperandsAre(k.blocks, operands) && GraphIs(k.blocks, k.outs, operands, graph)
    requires Narrowed(k.registers, k.blocks, k.outs, table, operands, domains)
    requires Finished(Problem(k.registers, graph, domains, table.fixedVregs), work)
    ensures RoundOf(k, table)
  {
    hide Solves, Live, Mentions, GraphOk, DomainsOk, SavedOk, Destroyed, TableOk, Interfere;
    forall x | x in k.fixedVregs && x in k.colors ensures x in table.domains && table.domains[x] == {k.colors[x]} {
      assert x in table.domains;
      var c :| table.domains[x] == {c};
      assert k.colors[x] in domains[x];
    }
  }
}
