// A function the allocator changes: a vreg that has to be spilled is reloaded
// between two argument moves, into the register of an argument already in place.
module Reload {
  import opened Allocate
  import opened Allocation
  import opened Ast
  import opened Coloring
  import opened Frame
  import opened GreedyColoring
  import opened Liveness
  import opened Machine
  import opened MachineRun
  import opened OneBlock
  import opened Ordered
  import opened Rounds
  import opened SelfMoves
  import opened Spilling
  import opened SpillingCorrect

  const RAX: nat := 1
  const RSP: nat := 2
  const RBP: nat := 3
  const RDI: nat := 4
  const RSI: nat := 5

  function Table(): seq<Register> {
    [Register(0, {}, true, false), Register(0, {}, false, true), Register(0, {}, true, false),
     Register(0, {}, true, false), Register(0, {}, false, true), Register(0, {}, false, true)]
  }

  // A callee that returns its first argument.
  function Callee(): World {
    World(RBP, RSP, RAX, f => [RDI, RSI],
          (f: nat, args: seq<Word>, sp: Word, mem: map<int, Word>) => (if |args| > 0 then args[0] else 0, mem),
          (op: Opcode, a: Word, b: Word) => if op.ADD? then Wrap(a + b) else 0, (op, flags) => false, id => 0)
  }

  // Vregs 0 and 5 are fixed to RDI, 1 to RSI, 4 and 6 to RAX; 2 and 3 may take
  // any register that is not reserved.
  function Fixed(): set<nat> { {0, 1, 4, 5, 6} }

  function Free(): set<nat> { {RAX, RDI, RSI} }

  function Vregs(): VregTable {
    VregTable(map[0 := {RDI}, 1 := {RSI}, 2 := Free(), 3 := Free(), 4 := {RAX}, 5 := {RDI}, 6 := {RAX}], Fixed())
  }

  // The function f(x) = g(7, x) + x as it is lowered.
  function Code(): seq<Instr> {
    [Instr(MOV, Vreg(2), Vreg(5)), Instr(MOV, Vreg(0), Lit(7)), Instr(MOV, Vreg(1), Vreg(2)), Instr(CALL, Sym(0), Nothing),
     Instr(MOV, Vreg(3), Vreg(4)), Instr(ADD, Vreg(3), Vreg(2)), Instr(MOV, Vreg(6), Vreg(3)), Instr(RET, Nothing, Nothing)]
  }

  function Before(): seq<set<nat>> { [{4, 5}, {2, 4}, {2, 4}, {2, 4}, {2, 4}, {2, 3}, {3}, {}] }

  // With vreg 2 spilled to the slot at offset o.
  function Spilled(o: int): seq<Instr> {
    [Instr(MOV, Vreg(2), Vreg(5)), Instr(MOV, Mem(RBP, o), Vreg(2)), Instr(MOV, Vreg(0), Lit(7)), Instr(MOV, Vreg(2), Mem(RBP, o)),
     Instr(MOV, Vreg(1), Vreg(2)), Instr(CALL, Sym(0), Nothing), Instr(MOV, Vreg(3), Vreg(4)), Instr(MOV, Vreg(2), Mem(RBP, o)),
     Instr(ADD, Vreg(3), Vreg(2)), Instr(MOV, Vreg(6), Vreg(3)), Instr(RET, Nothing, Nothing)]
  }

  function After(): seq<set<nat>> { [{4, 5}, {2, 4}, {4}, {4}, {2, 4}, {4}, {4}, {3}, {2, 3}, {3}, {}] }

  function FixedColors(): map<nat, nat> { map[0 := RDI, 1 := RSI, 4 := RAX, 5 := RDI, 6 := RAX] }

  function FirstColors(): map<nat, nat> { FixedColors()[3 := RAX] }

  function SecondColors(): map<nat, nat> { FixedColors()[2 := RDI][3 := RAX] }

  function First(colors: map<nat, nat>): Setting {
    Setting(Table(), One(Code()), Fixed(), colors, Ins(Before()), Outs(Before()))
  }

  function Second(o: int, colors: map<nat, nat>): Setting {
    Setting(Table(), One(Spilled(o)), Fixed(), colors, Ins(After()), Outs(After()))
  }

  ghost function Round(slot: map<nat, int>): Spills {
    Spills(Table(), One(Code()), Homes(First(FirstColors())), [2], slot, RBP, Ins(Before()), Outs(Before()))
  }

  // ----- Liveness -----

  lemma BeforeChained()
    ensures Chained(Code(), Before())
  {
    forall n: nat | n < 8 ensures LinkOk(Code(), Before(), n) {
      if n < 4 { assert n == 0 || n == 1 || n == 2 || n == 3; } else { assert n == 4 || n == 5 || n == 6 || n == 7; }
    }
  }

  lemma AfterChained(o: int)
    ensures Chained(Spilled(o), After())
  {
    forall n: nat | n < 11 ensures LinkOk(Spilled(o), After(), n) {
      if n < 6 { assert n == 0 || n == 1 || n == 2 || n == 3 || n == 4 || n == 5; } else { assert n == 6 || n == 7 || n == 8 || n == 9 || n == 10; }
    }
  }

  // ----- The spill is forced -----

  // Vreg 2 is live over the call, and the call destroys every register it may take.
  lemma NoSafeColors(colors: map<nat, nat>, ins: Sets, outs: Sets)
    ensures !SafeColors(Setting(Table(), One(Code()), Fixed(), colors, ins, outs))
  {
    hide SafeColors, LiveOverCall, Survives, Table, Code, Solves, Before;
    var k := Setting(Table(), One(Code()), Fixed(), colors, ins, outs);
    if SafeColors(k) {
      SolvedIfSafe(k);
      LiveOverTheCall(ins, outs);
      CallIsThird(k);
      SurvivesIfSafe(k, Point(0, 3), 2);
      NoneSurvives(k);
    }
  }

  lemma SolvedIfSafe(k: Setting)
    requires SafeColors(k)
    ensures Solves(k.blocks, k.ins, k.outs)
  {
  }

  lemma SurvivesIfSafe(k: Setting, p: Point, y: nat)
    requires SafeColors(k) && LiveOverCall(k, p, y) && y !in k.fixedVregs
    ensures Survives(k, y) && !k.registers[k.colors[y]].reserved
  {
  }

  lemma NoneSurvives(k: Setting)
    requires k.registers == Table()
    ensures forall y :: !(Survives(k, y) && !k.registers[k.colors[y]].reserved)
  {
  }

  lemma CallIsThird(k: Setting)
    requires k.blocks == One(Code()) && Point(0, 3) in k.outs && 2 in k.outs[Point(0, 3)]
    ensures LiveOverCall(k, Point(0, 3), 2)
  {
    NextInOne(Code(), 3);
  }

  lemma LiveOverTheCall(ins: Sets, outs: Sets)
    requires Solves(One(Code()), ins, outs)
    ensures Point(0, 3) in outs && 2 in outs[Point(0, 3)]
  {
    hide Use, Wrt, Next, Code, Before;
    BeforeChained();
    TwoIsLive();
    ChainedLive(Code(), Before(), 4, 2);
    var path :| LivePath(One(Code()), path, 2) && path[0] == Point(0, 4);
    SolutionHasLive(One(Code()), ins, outs, path, 2);
    CodeHasEight();
    NextInOne(Code(), 3);
    assert SolvesAt(One(Code()), ins, outs, Point(0, 3));
    assert InSome(ins, Next(One(Code()), Point(0, 3)), 2);
  }

  lemma TwoIsLive()
    ensures |Before()| == 8 && 2 in Before()[4]
  {
  }

  lemma CodeHasEight()
    ensures |Code()| == |Before()| == 8
  {
  }

  // ----- What the two rounds start from -----

  lemma RegisterIs(r: nat)
    requires r < 6
    ensures |Table()| == 6 && Table()[r].parent == 0 && Table()[r].subregs == {}
    ensures r in Free() ==> !Table()[r].reserved && Table()[r].callerSaved
  {
    assert r == 0 || r == 1 || r == 2 || r == 3 || r == 4 || r == 5;
  }

  lemma TableIsOk()
    ensures TableOk(Table()) && |Table()| == 6
    ensures forall r :: 0 <= r < 6 ==> Table()[r].parent == 0 && Table()[r].subregs == {} && (r in Free() ==> !Table()[r].reserved && Table()[r].callerSaved)
  {
    hide Table;
    RegisterIs(0);
    forall r | 0 <= r < 6 ensures Table()[r].parent == 0 && Table()[r].subregs == {} && (r in Free() ==> !Table()[r].reserved && Table()[r].callerSaved) {
      RegisterIs(r);
    }
  }

  lemma VregsFit()
    ensures TableFits(Table(), Vregs())
  {
    hide TableOk, Table;
    TableIsOk();
    forall x, c | x in Vregs().domains && c in Vregs().domains[x] ensures c in Free() { FreeRegisters(x, c); }
    forall x | x in Vregs().domains && x in Fixed() ensures exists c :: Vregs().domains[x] == {c} { OneRegister(x); }
  }

  lemma FreeRegisters(x: nat, c: nat)
    requires x in Vregs().domains && c in Vregs().domains[x]
    ensures c in Free()
  {
  }

  lemma OneRegister(x: nat)
    requires x in Fixed()
    ensures x in Vregs().domains && Vregs().domains[x] == {if x == 1 then RSI else if x == 4 || x == 6 then RAX else RDI}
  {
  }

  // What is written while what is live.
  function FirstPairs(): set<(nat, nat)> { {(2, 4), (0, 2), (0, 4), (1, 2), (1, 4), (3, 2)} }

  function SecondPairs(): set<(nat, nat)> { {(2, 4), (0, 4), (1, 4), (2, 3)} }

  // What instruction n writes while what is live after it.
  lemma FirstWrites(n: nat, x: nat, y: nat)
    requires n < 8
    ensures x != y && x in Wrt(Code()[n]) && y in Tail(Before(), n) ==> (x, y) in FirstPairs()
    ensures 2 in Wrt(Code()[0]) && 0 in Wrt(Code()[1]) && 1 in Wrt(Code()[2]) && 3 in Wrt(Code()[4])
    ensures Tail(Before(), 0) == Tail(Before(), 1) == Tail(Before(), 2) == {2, 4} && Tail(Before(), 4) == {2, 3}
  {
    if n < 4 { assert n == 0 || n == 1 || n == 2 || n == 3; } else { assert n == 4 || n == 5 || n == 6 || n == 7; }
  }

  lemma SecondWrites(o: int, n: nat, x: nat, y: nat)
    requires n < 11
    ensures x != y && x in Wrt(Spilled(o)[n]) && y in Tail(After(), n) ==> (x, y) in SecondPairs()
    ensures 2 in Wrt(Spilled(o)[0]) && 0 in Wrt(Spilled(o)[2]) && 1 in Wrt(Spilled(o)[4]) && 2 in Wrt(Spilled(o)[7])
    ensures Tail(After(), 0) == {2, 4} && Tail(After(), 2) == Tail(After(), 4) == {4} && Tail(After(), 7) == {2, 3}
  {
    if n < 6 { assert n == 0 || n == 1 || n == 2 || n == 3 || n == 4 || n == 5; } else { assert n == 6 || n == 7 || n == 8 || n == 9 || n == 10; }
  }

  lemma FirstInterfere(x: nat, y: nat)
    ensures Interfere(One(Code()), Outs(Before()), x, y) <==> (x, y) in FirstPairs() || (y, x) in FirstPairs()
  {
    hide Clash, Wrt, Outs, FirstPairs, Code, Before, Tail;
    CodeHasEight();
    forall p: Point, u: nat, v: nat ensures Clash(One(Code()), Outs(Before()), p, u, v) ==> (u, v) in FirstPairs() {
      ClashIn(Code(), Before(), p, u, v);
      if p.block == 0 && p.idx < 8 { FirstWrites(p.idx, u, v); }
    }
    forall u: nat, v: nat | (u, v) in FirstPairs() ensures exists p :: Clash(One(Code()), Outs(Before()), p, u, v) { FirstWitness(u, v); }
  }

  lemma FirstWitness(u: nat, v: nat)
    requires (u, v) in FirstPairs()
    ensures exists p :: Clash(One(Code()), Outs(Before()), p, u, v)
  {
    hide Clash, Wrt, Outs, Tail;
    var n := if u == 2 then 0 else if u == 0 then 1 else if u == 1 then 2 else 4;
    FirstWrites(n, u, v);
    ClashIn(Code(), Before(), Point(0, n), u, v);
  }

  lemma SecondInterfere(o: int, x: nat, y: nat)
    ensures Interfere(One(Spilled(o)), Outs(After()), x, y) <==> (x, y) in SecondPairs() || (y, x) in SecondPairs()
  {
    hide Clash, Wrt, Outs, SecondPairs, Spilled, After, Tail;
    SpilledHasEleven(o);
    forall p: Point, u: nat, v: nat ensures Clash(One(Spilled(o)), Outs(After()), p, u, v) ==> (u, v) in SecondPairs() {
      ClashIn(Spilled(o), After(), p, u, v);
      if p.block == 0 && p.idx < 11 { SecondWrites(o, p.idx, u, v); }
    }
    forall u: nat, v: nat | (u, v) in SecondPairs() ensures exists p :: Clash(One(Spilled(o)), Outs(After()), p, u, v) { SecondWitness(o, u, v); }
  }

  lemma SecondWitness(o: int, u: nat, v: nat)
    requires (u, v) in SecondPairs()
    ensures exists p :: Clash(One(Spilled(o)), Outs(After()), p, u, v)
  {
    hide Clash, Wrt, Outs, Tail;
    var n := if u == 2 && v == 4 then 0 else if u == 0 then 2 else if u == 1 then 4 else 7;
    SecondWrites(o, n, u, v);
    ClashIn(Spilled(o), After(), Point(0, n), u, v);
  }

  lemma SpilledHasEleven(o: int)
    ensures |Spilled(o)| == |After()| == 11 && |Code()| == |Before()| == 8
  {
  }

  // ----- Partners -----

  lemma LayoutOfOne(code: seq<Instr>)
    ensures Layout(One(code)) == Row(0, |code|)
    ensures forall p :: p in Layout(One(code)) <==> IsPoint(One(code), p)
  {
    LayoutIsAllPoints(One(code));
    assert One(code)[..0] == [] && Layout([]) == [];
  }

  // The first instruction that copies x gives its first partner.
  lemma {:induction false} FirstPartner(code: seq<Instr>, points: seq<Point>, m: nat, x: nat, y: nat)
    requires m < |points| <= |code| && forall n :: 0 <= n < |points| ==> points[n] == Point(0, n)
    requires forall n :: 0 <= n < m ==> PartnersIn(code[n], x) == []
    requires PartnersIn(code[m], x) != [] && PartnersIn(code[m], x)[0] == y
    ensures forall p :: p in points ==> IsPoint(One(code), p)
    ensures PartnersOf(One(code), points, x) != [] && PartnersOf(One(code), points, x)[0] == y
  {
    hide PartnersIn;
    forall p | p in points ensures IsPoint(One(code), p) {
      var n :| 0 <= n < |points| && points[n] == p;
      NextInOne(code, n);
    }
    var n := |points| - 1;
    NextInOne(code, n);
    if m < n {
      FirstPartner(code, points[..n], m, x, y);
    } else {
      NoPartner(code, points[..n], x);
    }
  }

  lemma {:induction false} NoPartner(code: seq<Instr>, points: seq<Point>, x: nat)
    requires |points| <= |code| && forall n :: 0 <= n < |points| ==> points[n] == Point(0, n)
    requires forall n :: 0 <= n < |points| ==> PartnersIn(code[n], x) == []
    requires forall p :: p in points ==> IsPoint(One(code), p)
    ensures PartnersOf(One(code), points, x) == []
  {
    hide PartnersIn;
    if points != [] {
      var n := |points| - 1;
      NextInOne(code, n);
      NoPartner(code, points[..n], x);
    }
  }

  // A vreg whose first partner has a colour it may take gets that colour.
  lemma PickFirst(code: seq<Instr>, moves: Partners, m: nat, x: nat, y: nat, domain: set<nat>, colors: map<nat, nat>, c: nat)
    requires (forall p :: p in Layout(One(code)) ==> IsPoint(One(code), p)) && MovesAre(One(code), Layout(One(code)), moves)
    requires m < |code| && forall n :: 0 <= n < m ==> PartnersIn(code[n], x) == []
    requires PartnersIn(code[m], x) != [] && PartnersIn(code[m], x)[0] == y
    requires y in colors && colors[y] in domain && IsPick(domain, ListOf(moves, x), colors, c)
    ensures c == colors[y]
  {
    hide PartnersIn, Layout;
    LayoutOfOne(code);
    FirstPartner(code, Layout(One(code)), m, x, y);
    assert ListOf(moves, x) == PartnersOf(One(code), Layout(One(code)), x);
    assert Suits(domain, ListOf(moves, x)[0], colors);
  }

  // ----- Counts -----

  // No register of the table is part of another.
  lemma BothFree(c: nat, d: nat)
    requires c in Free() && d in Free() && c != d
    ensures AreApart(Table(), c, d)
  {
    hide Table;
    TableIsOk();
  }

  lemma {:induction false} AllTaken(order: seq<nat>)
    requires Increasing(order) && forall c :: c in order ==> c in Free()
    ensures Taken(Table(), order) == order
  {
    hide Table, AreApart;
    if order != [] {
      var n := |order| - 1;
      AllTaken(order[..n]);
      forall i | 0 <= i < n ensures AreApart(Table(), order[..n][i], order[n]) {
        assert order[i] in order && order[n] in order;
        BothFree(order[i], order[n]);
      }
    }
  }

  lemma CountIs(domain: set<nat>, count: nat)
    requires domain <= Free() && IsCount(Table(), domain, count)
    ensures count == |domain|
  {
    hide Table;
    var order :| Increasing(order) && (forall c :: c in order <==> c in domain) && count == |Taken(Table(), order)|;
    AllTaken(order);
    SortedSize(order, domain);
  }

  // ----- The loop with two free vregs -----

  // Two free vregs are left when the fixed ones are coloured; the loop makes two passes.
  lemma TwoPasses(p: Problem, counts: map<nat, nat>, moves: Partners, trace: seq<Work>)
    requires IsRun(p, counts, moves, trace) && trace[|trace| - 1].graph == map[] && trace[0].graph.Keys == {2, 3}
    ensures |trace| == 3
    ensures exists x :: IsPass(p, trace[0], counts, moves, x, trace[1])
    ensures exists x :: IsPass(p, trace[1], counts, moves, x, trace[2])
  {
    hide FixedDone, IsCount, IsPass;
    assert PassAt(p, counts, moves, trace, 0);
    var x :| IsPass(p, trace[0], counts, moves, x, trace[1]);
    PassShrinks(p, trace[0], counts, moves, x, trace[1]);
    var other: nat := if x == 2 then 3 else 2;
    assert other in trace[1].graph;
    assert |trace| > 2;
    assert PassAt(p, counts, moves, trace, 1);
    var y :| IsPass(p, trace[1], counts, moves, y, trace[2]);
    PassShrinks(p, trace[1], counts, moves, y, trace[2]);
    assert trace[2].graph.Keys == {};
    RunStops(p, counts, moves, trace, 2);
  }

  lemma RunStops(p: Problem, counts: map<nat, nat>, moves: Partners, trace: seq<Work>, i: nat)
    requires IsRun(p, counts, moves, trace) && i < |trace| && trace[i].graph == map[]
    ensures i == |trace| - 1
  {
    if i < |trace| - 1 {
      NotOver(p, counts, moves, trace, i);
    }
  }

  lemma NotOver(p: Problem, counts: map<nat, nat>, moves: Partners, trace: seq<Work>, i: nat)
    requires IsRun(p, counts, moves, trace) && i < |trace| - 1
    ensures trace[i].graph != map[]
  {
    assert PassAt(p, counts, moves, trace, i);
  }

  lemma PassShrinks(p: Problem, w: Work, counts: map<nat, nat>, moves: Partners, x: nat, w': Work)
    requires IsPass(p, w, counts, moves, x, w')
    ensures x in w.graph && w'.graph.Keys == w.graph.Keys - {x}
  {
  }

  // ----- The first round -----

  lemma FirstOperands(x: nat)
    ensures x < 7 <==> IsMentioned(One(Code()), x)
  {
    if x < 7 {
      var n := if x == 0 then 1 else if x == 1 then 2 else if x == 2 || x == 5 then 0 else if x == 6 then 6 else 4;
      NextInOne(Code(), n);
      assert Mentions(InstrAt(One(Code()), Point(0, n)), x);
    }
    forall p | IsPoint(One(Code()), p) && Mentions(InstrAt(One(Code()), p), x) ensures x < 7 {
      var n := p.idx;
      assert n == 0 || n == 1 || n == 2 || n == 3 || n == 4 || n == 5 || n == 6 || n == 7;
    }
  }

  lemma SecondOperands(o: int, x: nat)
    ensures x < 7 <==> IsMentioned(One(Spilled(o)), x)
  {
    if x < 7 {
      var n := if x == 0 then 2 else if x == 1 then 4 else if x == 2 || x == 5 then 0 else if x == 6 then 9 else 6;
      NextInOne(Spilled(o), n);
      assert Mentions(InstrAt(One(Spilled(o)), Point(0, n)), x);
    }
    forall p | IsPoint(One(Spilled(o)), p) && Mentions(InstrAt(One(Spilled(o)), p), x) ensures x < 7 {
      var n := p.idx;
      if n < 6 { assert n == 0 || n == 1 || n == 2 || n == 3 || n == 4 || n == 5; } else { assert n == 6 || n == 7 || n == 8 || n == 9 || n == 10; }
    }
  }

  // What the loop starts with: vregs 2 and 3 interfere and only 2 has fixed
  // neighbours, 0, 1 and 4 at most.
  ghost predicate Starts(p: Problem, w: Work) {
    && p.registers == Table() && p.fixedVregs == Fixed()
    && w.graph == map[2 := {3}, 3 := {2}] && w.colors == FixedColors() && w.spilled == {}
    && 2 in w.domains && 3 in w.domains && w.domains[3] == Free()
  }

  // A problem in which vregs interfere as pairs say and fixed ones have their register.
  ghost predicate Looks(p: Problem, pairs: set<(nat, nat)>) {
    && p.registers == Table() && p.fixedVregs == Fixed()
    && p.graph.Keys == {0, 1, 2, 3, 4, 5, 6} && p.domains.Keys == p.graph.Keys
    && (forall x, y :: x in p.graph ==> (y in p.graph[x] <==> (x, y) in pairs || (y, x) in pairs))
    && (forall x :: x in Fixed() && x in p.domains ==> p.domains[x] == Vregs().domains[x])
    && 3 in p.domains && p.domains[3] == Free() && (forall x :: (x, x) !in pairs)
    && ((2, 3) in pairs || (3, 2) in pairs) && (forall y: nat :: (3, y) in pairs || (y, 3) in pairs ==> y == 2)
  }

  lemma StartsLikeThis(p: Problem, pairs: set<(nat, nat)>, w: Work)
    requires Looks(p, pairs) && FixedDone(p, w)
    ensures Starts(p, w)
  {
    hide LosesTo, Table, IsLeast;
    assert w.graph.Keys == {2, 3};
    GraphsAre(p, pairs, w);
    ColorsAre(p, pairs, w);
    forall c: nat ensures c in w.domains[3] <==> c in p.domains[3] { NothingLost(p, pairs, w, c); }
    assert w.domains[3] == p.domains[3];
  }

  lemma GraphsAre(p: Problem, pairs: set<(nat, nat)>, w: Work)
    requires Looks(p, pairs) && FixedDone(p, w) && w.graph.Keys == {2, 3}
    ensures w.graph == map[2 := {3}, 3 := {2}]
  {
    hide LosesTo, Table;
    assert w.graph[2] == {3} && w.graph[3] == {2};
  }

  lemma ColorsAre(p: Problem, pairs: set<(nat, nat)>, w: Work)
    requires Looks(p, pairs) && FixedDone(p, w)
    ensures w.colors == FixedColors()
  {
    hide LosesTo, Table;
    assert w.colors.Keys == Fixed();
    forall y | y in Fixed() ensures w.colors[y] == FixedColors()[y] {
      OneRegister(y);
      assert IsLeast(p.domains[y], w.colors[y]);
    }
  }

  lemma NothingLost(p: Problem, pairs: set<(nat, nat)>, w: Work, c: nat)
    requires Looks(p, pairs) && FixedDone(p, w) && 3 in w.graph && 3 in w.domains
    ensures c in w.domains[3] <==> c in p.domains[3]
  {
    hide Table;
    forall y | y in w.colors ensures !Adjacent(p, y, 3) {}
  }

  lemma ColoredNode(p: Problem, w: Work, x: nat, c: nat, w': Work, other: nat)
    requires Starts(p, w) && Colored(p, w, x, c, w') && ((x == 2 && other == 3) || (x == 3 && other == 2))
    ensures w'.graph == map[other := {}] && w'.colors == FixedColors()[x := c] && w'.spilled == {}
    ensures other in w.domains && other in w'.domains && w'.domains.Keys == w.domains.Keys
    ensures forall d: nat :: d in w'.domains[other] <==> d in w.domains[other] && AreApart(Table(), d, c)
  {
    hide Table, AreApart, Taking;
    forall d: nat ensures d in w'.domains[other] <==> d in w.domains[other] && AreApart(Table(), d, c) {
      TakingAt(p, w.domains, w.graph[x] - p.fixedVregs, c, w'.domains, other, d);
    }
    assert w.graph[x] == {other} && w.graph[other] == {x} && w.graph[x] - p.fixedVregs == {other};
    assert w'.graph.Keys == {other} && w'.graph[other] == {};
  }

  lemma SpilledNode(p: Problem, w: Work, x: nat, w': Work)
    requires w.graph == map[x := {}] && IsSpilled(p, w, x, w')
    ensures w'.spilled == w.spilled + {x} && w'.colors == w.colors
  {
  }

  // Vreg 3 takes RAX, the colour of the vreg it is copied from, and vreg 2 is spilled.
  lemma FirstLoop(p: Problem, counts: map<nat, nat>, moves: Partners, w0: Work, w1: Work, w2: Work)
    requires Starts(p, w0) && w0.domains[2] == {} && MovesHere(Code(), moves)
    requires counts.Keys == w0.domains.Keys && forall x :: x in counts && x in w0.domains ==> IsCount(p.registers, w0.domains[x], counts[x])
    requires exists x :: IsPass(p, w0, counts, moves, x, w1)
    requires exists x :: IsPass(p, w1, counts, moves, x, w2)
    ensures w2.spilled == {2} && w2.colors == FirstColors()
  {
    hide Table, IsCount, IsPick, PartnersIn, MovesHere, Colored, IsSpilled, ListOf;
    CountIs({}, counts[2]);
    CountIs(Free(), counts[3]);
    FreeHasThree();
    var x :| IsPass(p, w0, counts, moves, x, w1);
    assert Easy(w0.graph, counts, 3) && !Easy(w0.graph, counts, 2);
    assert x == 3;
    var c :| IsPick(w0.domains[3], ListOf(moves, 3), w0.colors, c) && Colored(p, w0, 3, c, w1);
    FirstPartners(moves, w0.colors, c);
    ColoredNode(p, w0, 3, c, w1, 2);
    var y :| IsPass(p, w1, counts, moves, y, w2);
    assert !Easy(w1.graph, counts, 2);
    assert y == 2;
    SpilledNode(p, w1, 2, w2);
  }

  lemma FreeHasThree()
    ensures |Free()| == 3 && Free() - {RDI, 0} == {RAX, RSI} && {RDI, RSI} <= Free()
  {
  }

  // The partners of each vreg, in the order of the instructions.
  ghost predicate MovesHere(code: seq<Instr>, moves: Partners) {
    (forall p :: p in Layout(One(code)) ==> IsPoint(One(code), p)) && MovesAre(One(code), Layout(One(code)), moves)
  }

  lemma FirstPartners(moves: Partners, colors: map<nat, nat>, c: nat)
    requires MovesHere(Code(), moves) && colors == FixedColors() && IsPick(Free(), ListOf(moves, 3), colors, c)
    ensures c == RAX
  {
    hide IsPick, MovesAre;
    forall n | 0 <= n < 4 ensures PartnersIn(Code()[n], 3) == [] { assert n == 0 || n == 1 || n == 2 || n == 3; }
    PickFirst(Code(), moves, 4, 3, 4, Free(), colors, c);
  }

  // Vreg 2 takes RDI, the colour of the argument it is copied from.
  lemma SecondLoop(o: int, p: Problem, counts: map<nat, nat>, moves: Partners, w0: Work, w1: Work, w2: Work)
    requires Starts(p, w0) && w0.domains[2] == {RDI, RSI} && MovesHere(Spilled(o), moves)
    requires counts.Keys == w0.domains.Keys && forall x :: x in counts && x in w0.domains ==> IsCount(p.registers, w0.domains[x], counts[x])
    requires exists x :: IsPass(p, w0, counts, moves, x, w1)
    requires exists x :: IsPass(p, w1, counts, moves, x, w2)
    ensures w2.spilled == {} && w2.colors == SecondColors()
  {
    hide Table, IsCount, IsPick, PartnersIn, MovesHere, Colored, ListOf, IsSpilled, AreApart, Free;
    FreeHasThree();
    CountIs({RDI, RSI}, counts[2]);
    CountIs(Free(), counts[3]);
    var x :| IsPass(p, w0, counts, moves, x, w1);
    assert Easy(w0.graph, counts, 2) && |w0.domains[2]| == 2;
    assert x == 2;
    var c :| IsPick(w0.domains[2], ListOf(moves, 2), w0.colors, c) && Colored(p, w0, 2, c, w1);
    SecondPartners(o, moves, w0.colors, c);
    ColoredNode(p, w0, 2, c, w1, 3);
    assert w1.domains[3] == {RAX, RSI} by {
      FreeApart();
      FreeIs();
      assert c == RDI;
      forall d: nat ensures d in w1.domains[3] <==> d in {RAX, RSI} { assert d in w1.domains[3] <==> d in w0.domains[3] && AreApart(Table(), d, RDI); }
    }
    ThirdLoop(o, p, counts, moves, w1, w2);
  }

  lemma ThirdLoop(o: int, p: Problem, counts: map<nat, nat>, moves: Partners, w1: Work, w2: Work)
    requires w1.graph == map[3 := {}] && 3 in w1.domains && w1.domains[3] == {RAX, RSI} && w1.colors == FixedColors()[2 := RDI]
    requires w1.spilled == {} && 3 in counts && counts[3] > 0 && MovesHere(Spilled(o), moves)
    requires exists x :: IsPass(p, w1, counts, moves, x, w2)
    ensures w2.spilled == {} && w2.colors == SecondColors()
  {
    hide Table, IsPick, PartnersIn, MovesHere, ListOf, Left;
    var y :| IsPass(p, w1, counts, moves, y, w2);
    assert Easy(w1.graph, counts, 3);
    assert y == 3;
    var d :| IsPick(w1.domains[3], ListOf(moves, 3), w1.colors, d) && Colored(p, w1, 3, d, w2);
    ThirdPartners(o, moves, w1.colors, d);
  }

  lemma FreeIs()
    ensures forall d: nat :: d in Free() <==> d == RAX || d == RDI || d == RSI
  {
  }

  lemma FreeApart()
    ensures forall c, d :: c in Free() && d in Free() ==> (AreApart(Table(), c, d) <==> c != d)
  {
    hide Table;
    forall c, d | c in Free() && d in Free() && c != d ensures AreApart(Table(), c, d) { BothFree(c, d); }
  }

  lemma SecondPartners(o: int, moves: Partners, colors: map<nat, nat>, c: nat)
    requires MovesHere(Spilled(o), moves) && colors == FixedColors() && IsPick({RDI, RSI}, ListOf(moves, 2), colors, c)
    ensures c == RDI
  {
    hide IsPick, MovesAre;
    PickFirst(Spilled(o), moves, 0, 2, 5, {RDI, RSI}, colors, c);
  }

  lemma ThirdPartners(o: int, moves: Partners, colors: map<nat, nat>, c: nat)
    requires MovesHere(Spilled(o), moves) && colors == FixedColors()[2 := RDI] && IsPick({RAX, RSI}, ListOf(moves, 3), colors, c)
    ensures c == RAX
  {
    hide IsPick, MovesAre;
    forall n | 0 <= n < 6 ensures PartnersIn(Spilled(o)[n], 3) == [] { assert n == 0 || n == 1 || n == 2 || n == 3 || n == 4 || n == 5; }
    PickFirst(Spilled(o), moves, 6, 3, 4, {RAX, RSI}, colors, c);
  }

  // ----- Both rounds have one outcome -----

  lemma CallerSavedAre(c: nat)
    ensures c in Free() <==> c < |Table()| && Table()[c].callerSaved
  {
    assert c < 6 ==> c == 0 || c == 1 || c == 2 || c == 3 || c == 4 || c == 5;
  }

  // What is live over the only call, instruction m.
  lemma DestroyedHere(code: seq<Instr>, live: seq<set<nat>>, m: nat, y: nat, c: nat)
    requires |code| == |live| && m < |code| && code[m].op.CALL? && forall n :: 0 <= n < |code| && n != m ==> !code[n].op.CALL?
    ensures Destroyed(Table(), One(code), Outs(live), y, c) <==> y in Tail(live, m) && c in Free()
  {
    hide Table, Outs, Tail;
    NextInOne(code, m);
    SetsAt(live, m);
    CallerSavedAre(c);
    if y in Tail(live, m) && c in Free() { assert DestroyedAt(Table(), One(code), Outs(live), Point(0, m), y, c); }
    forall p | DestroyedAt(Table(), One(code), Outs(live), p, y, c) ensures y in Tail(live, m) && c in Free() {
      NextInOne(code, p.idx);
    }
  }

  lemma FirstDestroyed(y: nat, c: nat)
    ensures Destroyed(Table(), One(Code()), Outs(Before()), y, c) <==> y in {2, 4} && c in Free()
  {
    hide Table, Outs, Destroyed;
    DestroyedHere(Code(), Before(), 3, y, c);
  }

  lemma SecondDestroyed(o: int, y: nat, c: nat)
    ensures Destroyed(Table(), One(Spilled(o)), Outs(After()), y, c) <==> y == 4 && c in Free()
  {
    hide Table, Outs, Destroyed;
    DestroyedHere(Spilled(o), After(), 5, y, c);
  }

  lemma OperandsAreSeven(blocks: seq<Machine.Block>, operands: set<nat>)
    requires OperandsAre(blocks, operands) && forall x: nat :: x < 7 <==> IsMentioned(blocks, x)
    ensures operands == {0, 1, 2, 3, 4, 5, 6}
  {
    hide Mentions;
    forall x: nat ensures x in operands <==> x in {0, 1, 2, 3, 4, 5, 6} { assert x in operands <==> IsMentioned(blocks, x); }
  }

  // The problem that is found, given who interferes and what calls destroy.
  lemma FoundLooks(k: Setting, code: seq<Instr>, operands: set<nat>, graph: Graph, domains: Domains, moves: Partners,
                   pairs: set<(nat, nat)>, over: set<nat>)
    requires k.registers == Table() && k.blocks == One(code) && AsFound(k, Vregs(), operands, graph, domains, moves)
    requires operands == {0, 1, 2, 3, 4, 5, 6}
    requires forall x: nat, y: nat :: Interfere(k.blocks, k.outs, x, y) <==> (x, y) in pairs || (y, x) in pairs
    requires forall x: nat, c: nat :: Destroyed(k.registers, k.blocks, k.outs, x, c) <==> x in over && c in Free()
    requires (forall x: nat :: (x, x) !in pairs) && 3 !in over && forall e :: e in pairs ==> e.0 in operands && e.1 in operands
    requires ((2, 3) in pairs || (3, 2) in pairs) && forall y: nat :: (3, y) in pairs || (y, 3) in pairs ==> y == 2
    ensures Looks(Problem(Table(), graph, domains, Fixed()), pairs) && MovesHere(code, moves)
    ensures domains[2] == if 2 in over then {} else Free()
  {
    hide Table, Interfere, Destroyed, Mentions, MovesAre, Layout, OperandsAre;
    forall x: nat, c: nat ensures DomainHas(domains, over, x, c) {
      assert Destroyed(k.registers, k.blocks, k.outs, x, c) <==> x in over && c in Free();
    }
    DomainsLook(domains, over);
  }

  lemma FirstLooks(colors: map<nat, nat>, operands: set<nat>, graph: Graph, domains: Domains, moves: Partners)
    requires AsFound(First(colors), Vregs(), operands, graph, domains, moves)
    ensures Looks(Problem(Table(), graph, domains, Fixed()), FirstPairs()) && domains[2] == {} && MovesHere(Code(), moves)
  {
    hide Table, Code, Outs, Interfere, Destroyed, IsMentioned, GraphIs, Narrowed, MovesAre, Layout, OperandsAre, Looks, MovesHere;
    forall x: nat ensures x < 7 <==> IsMentioned(One(Code()), x) { FirstOperands(x); }
    OperandsAreSeven(One(Code()), operands);
    forall x: nat, y: nat ensures Interfere(One(Code()), Outs(Before()), x, y) <==> (x, y) in FirstPairs() || (y, x) in FirstPairs() { FirstInterfere(x, y); }
    forall x: nat, c: nat ensures Destroyed(Table(), One(Code()), Outs(Before()), x, c) <==> x in {2, 4} && c in Free() { FirstDestroyed(x, c); }
    FoundLooks(First(colors), Code(), operands, graph, domains, moves, FirstPairs(), {2, 4});
  }

  ghost predicate DomainHas(domains: Domains, over: set<nat>, x: nat, c: nat) {
    x in domains && x in Vregs().domains ==>
      (c in domains[x] <==> c in Vregs().domains[x] && (x in Fixed() || !(x in over && c in Free())))
  }

  // Fixed vregs have their register, vreg 3 all that are free.
  lemma DomainsLook(domains: Domains, over: set<nat>)
    requires domains.Keys == {0, 1, 2, 3, 4, 5, 6} && 3 !in over
    requires forall x: nat, c: nat :: DomainHas(domains, over, x, c)
    ensures domains[3] == Free() && forall x :: x in Fixed() ==> domains[x] == Vregs().domains[x]
    ensures domains[2] == if 2 in over then {} else Free()
  {
    assert Vregs().domains[2] == Vregs().domains[3] == Free();
    forall x: nat | x in Fixed() ensures domains[x] == Vregs().domains[x] {
      forall c: nat ensures c in domains[x] <==> c in Vregs().domains[x] { assert DomainHas(domains, over, x, c); }
    }
    forall c: nat ensures c in domains[3] <==> c in Free() { assert DomainHas(domains, over, 3, c); }
    forall c: nat ensures c in domains[2] <==> c in Free() && 2 !in over { assert DomainHas(domains, over, 2, c); }
  }

  lemma SecondLooks(o: int, colors: map<nat, nat>, operands: set<nat>, graph: Graph, domains: Domains, moves: Partners)
    requires AsFound(Second(o, colors), Vregs(), operands, graph, domains, moves)
    ensures Looks(Problem(Table(), graph, domains, Fixed()), SecondPairs()) && domains[2] == Free() && MovesHere(Spilled(o), moves)
  {
    hide Table, Spilled, Outs, Interfere, Destroyed, IsMentioned, GraphIs, Narrowed, MovesAre, Layout, OperandsAre, Looks, MovesHere;
    forall x: nat ensures x < 7 <==> IsMentioned(One(Spilled(o)), x) { SecondOperands(o, x); }
    OperandsAreSeven(One(Spilled(o)), operands);
    forall x: nat, y: nat ensures Interfere(One(Spilled(o)), Outs(After()), x, y) <==> (x, y) in SecondPairs() || (y, x) in SecondPairs() { SecondInterfere(o, x, y); }
    forall x: nat, c: nat ensures Destroyed(Table(), One(Spilled(o)), Outs(After()), x, c) <==> x in {4} && c in Free() { SecondDestroyed(o, x, c); }
    FoundLooks(Second(o, colors), Spilled(o), operands, graph, domains, moves, SecondPairs(), {4});
  }

  // Vreg 2 has lost RAX to vreg 4.
  lemma SecondStart(p: Problem, w: Work)
    requires Looks(p, SecondPairs()) && p.domains[2] == Free() && FixedDone(p, w) && w.colors == FixedColors() && 2 in w.graph
    ensures w.domains[2] == {RDI, RSI}
  {
    hide Table, LosesTo;
    forall c | c in Free() ensures LosesTo(p, w.colors, 2, c) <==> c == RAX { LostToFour(p, w.colors, c); }
    assert forall c :: c in w.domains[2] <==> c in p.domains[2] && !LosesTo(p, w.colors, 2, c);
  }

  lemma LostToFour(p: Problem, colors: map<nat, nat>, c: nat)
    requires Looks(p, SecondPairs()) && colors == FixedColors() && c in Free()
    ensures LosesTo(p, colors, 2, c) <==> c == RAX
  {
    hide Table, AreApart, Adjacent;
    FreeApart();
    forall y | y in colors ensures Adjacent(p, y, 2) <==> y == 4 { NextToTwo(p, y); }
    assert 4 in colors && colors[4] == RAX;
  }

  lemma NextToTwo(p: Problem, y: nat)
    requires Looks(p, SecondPairs()) && y in Fixed()
    ensures Adjacent(p, y, 2) <==> y == 4
  {
    hide Table;
    assert y in p.graph;
  }

  lemma FirstResult(p: Problem, moves: Partners, w: Work)
    requires Looks(p, FirstPairs()) && p.domains[2] == {} && MovesHere(Code(), moves) && IsResult(p, moves, w)
    ensures w.spilled == {2} && w.colors == FirstColors()
  {
    hide Table, Looks, IsPass, IsCount, MovesHere;
    var counts, trace: seq<Work> :| IsRun(p, counts, moves, trace) && trace[|trace| - 1] == w && w.graph == map[];
    StartsLikeThis(p, FirstPairs(), trace[0]);
    TwoPasses(p, counts, moves, trace);
    assert trace[0].domains[2] == {} by { EmptyStays(p, trace[0]); }
    RegistersThere(p, FirstPairs());
    FirstLoop(p, counts, moves, trace[0], trace[1], trace[2]);
  }

  lemma EmptyStays(p: Problem, w: Work)
    requires FixedDone(p, w) && 2 in p.domains && p.domains[2] == {}
    ensures 2 in w.domains && w.domains[2] == {}
  {
  }

  lemma RegistersThere(p: Problem, pairs: set<(nat, nat)>)
    requires Looks(p, pairs)
    ensures p.registers == Table()
  {
  }

  lemma SecondResult(o: int, p: Problem, moves: Partners, w: Work)
    requires Looks(p, SecondPairs()) && p.domains[2] == Free() && MovesHere(Spilled(o), moves) && IsResult(p, moves, w)
    ensures w.spilled == {} && w.colors == SecondColors()
  {
    hide Table, Looks, IsPass, IsCount, MovesHere;
    var counts, trace: seq<Work> :| IsRun(p, counts, moves, trace) && trace[|trace| - 1] == w && w.graph == map[];
    StartsLikeThis(p, SecondPairs(), trace[0]);
    TwoPasses(p, counts, moves, trace);
    SecondStart(p, trace[0]);
    RegistersThere(p, SecondPairs());
    SecondLoop(o, p, counts, moves, trace[0], trace[1], trace[2]);
  }

  // Whatever is picked where the allocator has a choice, the first round spills vreg 2.
  lemma FirstForced(k: Setting, spilled: set<nat>)
    requires k.registers == Table() && k.blocks == One(Code()) && RoundOf(k, Vregs()) && ColoredAs(k, Vregs(), spilled)
    ensures spilled == {2} && k == First(FirstColors())
  {
    hide Table, Code, Before, Chained, Ins, Outs, AsFound, IsResult, Live, Solves, IsMentioned;
    BeforeChained();
    SetsAre(Code(), Before(), k.ins, k.outs);
    assert k == First(k.colors);
    var operands, graph, domains, moves, work :|
      && AsFound(k, Vregs(), operands, graph, domains, moves)
      && IsResult(Problem(k.registers, graph, domains, Vregs().fixedVregs), moves, work)
      && k.colors == work.colors && spilled == work.spilled;
    FirstLooks(k.colors, operands, graph, domains, moves);
    FirstResult(Problem(Table(), graph, domains, Fixed()), moves, work);
  }

  // The second colours everything, vreg 2 with RDI.
  lemma SecondForced(o: int, k: Setting, spilled: set<nat>)
    requires k.registers == Table() && k.blocks == One(Spilled(o)) && RoundOf(k, Vregs()) && ColoredAs(k, Vregs(), spilled)
    ensures spilled == {} && k == Second(o, SecondColors())
  {
    hide Table, Spilled, After, Chained, Ins, Outs, AsFound, IsResult, Live, Solves, IsMentioned;
    AfterChained(o);
    SetsAre(Spilled(o), After(), k.ins, k.outs);
    assert k == Second(o, k.colors);
    var operands, graph, domains, moves, work :|
      && AsFound(k, Vregs(), operands, graph, domains, moves)
      && IsResult(Problem(k.registers, graph, domains, Vregs().fixedVregs), moves, work)
      && k.colors == work.colors && spilled == work.spilled;
    SecondLooks(o, k.colors, operands, graph, domains, moves);
    SecondResult(o, Problem(Table(), graph, domains, Fixed()), moves, work);
  }

  // ----- The loads and stores -----

  lemma OneSpilled(s: Spills, p: Point, x: nat)
    ensures Loads(s, p, [x]) == if NeedsLoad(s.blocks, p, x) then [LoadOf(s, x)] else []
    ensures Stores(s, p, [x]) == if NeedsStore(s.blocks, p, x) then [StoreOf(s, x)] else []
  {
    hide NeedsLoad, NeedsStore;
    assert [x][..0] == [];
    assert Loads(s, p, []) == [] && Stores(s, p, []) == [];
  }

  lemma Needed(n: nat)
    requires n < 8
    ensures NeedsLoad(One(Code()), Point(0, n), 2) <==> n == 2 || n == 5
    ensures NeedsStore(One(Code()), Point(0, n), 2) <==> n == 0
  {
    var blocks, p := One(Code()), Point(0, n);
    NextInOne(Code(), n);
    if n < 4 { assert n == 0 || n == 1 || n == 2 || n == 3; } else { assert n == 4 || n == 5 || n == 6 || n == 7; }
    if n == 2 || n == 5 {
      NextInOne(Code(), n - 1);
      assert Reaches(blocks, Point(0, n - 1), p) && !Touches(InstrAt(blocks, Point(0, n - 1)), 2);
    } else if n == 0 {
      assert Reaches(blocks, p, Point(0, 1)) && IsPoint(blocks, Point(0, 1));
    }
  }

  lemma ExpandOne(slot: map<nat, int>, n: nat)
    requires n < 8 && 2 in slot
    ensures Expand(Round(slot), 0, n + 1) == Expand(Round(slot), 0, n) + (if n == 2 || n == 5 then [Instr(MOV, Vreg(2), Mem(RBP, slot[2]))] else [])
      + [Code()[n]] + (if n == 0 then [Instr(MOV, Mem(RBP, slot[2]), Vreg(2))] else [])
  {
    hide Loads, Stores, Code, NeedsLoad, NeedsStore;
    Needed(n);
    OneSpilled(Round(slot), Point(0, n), 2);
  }

  lemma FirstHalf(slot: map<nat, int>)
    requires 2 in slot
    ensures Expand(Round(slot), 0, 4) == Spilled(slot[2])[..6]
  {
    hide Loads, Stores, Expand;
    assert Expand(Round(slot), 0, 0) == [] by { ExpandNone(slot); }
    ExpandOne(slot, 0);
    ExpandOne(slot, 1);
    ExpandOne(slot, 2);
    ExpandOne(slot, 3);
  }

  lemma InsertedIs(slot: map<nat, int>)
    requires 2 in slot
    ensures Inserted(Round(slot)) == One(Spilled(slot[2]))
  {
    hide Loads, Stores, Expand;
    FirstHalf(slot);
    ExpandOne(slot, 4);
    ExpandOne(slot, 5);
    ExpandOne(slot, 6);
    ExpandOne(slot, 7);
    assert Expand(Round(slot), 0, 8) == Spilled(slot[2]);
    assert Inserted(Round(slot))[0] == One(Spilled(slot[2]))[0];
  }

  lemma ExpandNone(slot: map<nat, int>)
    ensures Expand(Round(slot), 0, 0) == []
  {
  }

  // ----- The runs -----

  lemma AfterCallee(junk: Junk, s: State)
    ensures var t := AfterCall(Table(), Callee(), junk, s, 0);
      t.mem == s.mem && t.vregs == s.vregs && t.frame == s.frame && Get(t.regs, RAX) == Get(s.regs, RDI)
  {
  }

  function Sum(a: Word, b: Word): Word { Wrap(a + b) }

  lemma CalleeIs()
    ensures Callee().rbp == RBP && Callee().rax == RAX
  {
  }

  lemma CalleeAdds(s: State, homes: map<nat, nat>, junk: Junk, i: Instr)
    requires i.op.ADD?
    ensures var a, b := Val(Callee(), homes, s, i.dst), Val(Callee(), homes, s, i.src);
      Effect(Table(), Callee(), homes, junk, s, i) == Write(Callee(), homes, s, i.dst, Sum(a, b)).(flags := Flags(ADD, a, b))
  {
  }

  lemma MoveIs(s: State, homes: map<nat, nat>, junk: Junk, i: Instr)
    ensures i.op.MOV? ==> Effect(Table(), Callee(), homes, junk, s, i) == Write(Callee(), homes, s, i.dst, Val(Callee(), homes, s, i.src))
    ensures i.op.CALL? && i.dst.Sym? ==> Effect(Table(), Callee(), homes, junk, s, i) == AfterCall(Table(), Callee(), junk, s, i.dst.id)
  {
  }

  function FirstStates(junk: Junk, s: State): seq<State> {
    var s1 := s.(vregs := s.vregs[2 := Get(s.regs, RDI)]);
    var s2 := s1.(regs := s1.regs[RDI := 7]);
    var s3 := s2.(regs := s2.regs[RSI := Get(s2.vregs, 2)]);
    var s4 := AfterCall(Table(), Callee(), junk, s3, 0);
    var s5 := s4.(vregs := s4.vregs[3 := Get(s4.regs, RAX)]);
    var a, b := Get(s5.vregs, 3), Get(s5.vregs, 2);
    var s6 := s5.(vregs := s5.vregs[3 := Sum(a, b)], flags := Flags(ADD, a, b));
    [s, s1, s2, s3, s4, s5, s6, s6.(regs := s6.regs[RAX := Get(s6.vregs, 3)])]
  }

  lemma FirstAdds(junk: Junk, s: State)
    ensures GoesOn(Table(), Callee(), Code(), FixedColors(), junk, FirstStates(junk, s), 5)
  {
    hide AfterCall, Table, Callee, Sum, Effect;
    CalleeAdds(FirstStates(junk, s)[5], FixedColors(), junk, Code()[5]);
  }

  lemma FirstGoes(junk: Junk, s: State, n: nat)
    requires n < 7
    ensures GoesOn(Table(), Callee(), Code(), FixedColors(), junk, FirstStates(junk, s), n)
  {
    hide AfterCall, Table, Callee, Sum, Effect;
    if n == 5 {
      FirstAdds(junk, s);
    } else if n < 3 {
      MoveIs(FirstStates(junk, s)[n], FixedColors(), junk, Code()[n]);
      assert n == 0 || n == 1 || n == 2;
    } else {
      FirstGoesLater(junk, s, n);
    }
  }

  lemma FirstGoesLater(junk: Junk, s: State, n: nat)
    requires n == 3 || n == 4 || n == 6
    ensures GoesOn(Table(), Callee(), Code(), FixedColors(), junk, FirstStates(junk, s), n)
  {
    hide AfterCall, Table, Callee, Sum, Effect;
    MoveIs(FirstStates(junk, s)[n], FixedColors(), junk, Code()[n]);
  }

  // Before it is allocated the call receives 7.
  lemma FirstReturns(junk: Junk, s: State)
    ensures Ends(Table(), One(Code()), Callee(), FixedColors(), junk, s, Sum(7, Get(s.regs, RDI)), s.mem)
  {
    hide AfterCall, Table, Callee, GoesOn, Ends, Sum;
    var states := FirstStates(junk, s);
    CalleeIs();
    AfterCallee(junk, states[3]);
    forall n | 0 <= n < 7 ensures GoesOn(Table(), Callee(), Code(), FixedColors(), junk, states, n) { FirstGoes(junk, s, n); }
    RunReturns(Table(), Callee(), Code(), FixedColors(), junk, states);
  }

  function Allocated(o: int): seq<Instr> {
    [Instr(MOV, Preg(RDI), Preg(RDI)), Instr(MOV, Mem(RBP, o), Preg(RDI)), Instr(MOV, Preg(RDI), Lit(7)), Instr(MOV, Preg(RDI), Mem(RBP, o)),
     Instr(MOV, Preg(RSI), Preg(RDI)), Instr(CALL, Sym(0), Nothing), Instr(MOV, Preg(RAX), Preg(RAX)), Instr(MOV, Preg(RDI), Mem(RBP, o)),
     Instr(ADD, Preg(RAX), Preg(RDI)), Instr(MOV, Preg(RAX), Preg(RAX)), Instr(RET, Nothing, Nothing)]
  }

  lemma AllocatedIs(o: int)
    ensures Recolor(One(Spilled(o)), SecondColors()) == One(Allocated(o))
  {
    var out := Recolor(One(Spilled(o)), SecondColors());
    assert out[0].instrs == Allocated(o);
  }

  function SecondStates(o: int, junk: Junk, s: State): seq<State> {
    var s1 := s.(regs := s.regs[RDI := Get(s.regs, RDI)]);
    var s2 := s1.(frame := s1.frame[o := Get(s1.regs, RDI)]);
    var s3 := s2.(regs := s2.regs[RDI := 7]);
    var s4 := s3.(regs := s3.regs[RDI := Get(s3.frame, o)]);
    var s5 := s4.(regs := s4.regs[RSI := Get(s4.regs, RDI)]);
    var s6 := AfterCall(Table(), Callee(), junk, s5, 0);
    var s7 := s6.(regs := s6.regs[RAX := Get(s6.regs, RAX)]);
    var s8 := s7.(regs := s7.regs[RDI := Get(s7.frame, o)]);
    var a, b := Get(s8.regs, RAX), Get(s8.regs, RDI);
    var s9 := s8.(regs := s8.regs[RAX := Sum(a, b)], flags := Flags(ADD, a, b));
    [s, s1, s2, s3, s4, s5, s6, s7, s8, s9, s9.(regs := s9.regs[RAX := Get(s9.regs, RAX)])]
  }

  lemma SecondAdds(o: int, junk: Junk, s: State)
    ensures GoesOn(Table(), Callee(), Allocated(o), map[], junk, SecondStates(o, junk, s), 8)
  {
    hide AfterCall, Table, Callee, Sum, Effect;
    CalleeAdds(SecondStates(o, junk, s)[8], map[], junk, Allocated(o)[8]);
  }

  lemma SecondGoes(o: int, junk: Junk, s: State, n: nat)
    requires n < 10 && o < 0
    ensures GoesOn(Table(), Callee(), Allocated(o), map[], junk, SecondStates(o, junk, s), n)
  {
    hide AfterCall, Table, Callee, Sum, Effect;
    if n == 8 {
      SecondAdds(o, junk, s);
    } else if n < 4 {
      CalleeIs();
      MoveIs(SecondStates(o, junk, s)[n], map[], junk, Allocated(o)[n]);
      assert n == 0 || n == 1 || n == 2 || n == 3;
    } else {
      SecondGoesLater(o, junk, s, n);
    }
  }

  lemma SecondGoesLater(o: int, junk: Junk, s: State, n: nat)
    requires (n == 4 || n == 5 || n == 6 || n == 7 || n == 9) && o < 0
    ensures GoesOn(Table(), Callee(), Allocated(o), map[], junk, SecondStates(o, junk, s), n)
  {
    hide AfterCall, Table, Callee, Sum, Effect;
    CalleeIs();
    MoveIs(SecondStates(o, junk, s)[n], map[], junk, Allocated(o)[n]);
  }

  // After it the call receives what the load put in RDI.
  lemma SecondReturns(o: int, junk: Junk, s: State)
    requires o < 0
    ensures Ends(Table(), One(Allocated(o)), Callee(), map[], junk, s, Sum(Get(s.regs, RDI), Get(s.regs, RDI)), s.mem)
  {
    hide AfterCall, Table, Callee, GoesOn, Ends, Sum;
    var states := SecondStates(o, junk, s);
    CalleeIs();
    AfterCallee(junk, states[5]);
    forall n | 0 <= n < 10 ensures GoesOn(Table(), Callee(), Allocated(o), map[], junk, states, n) { SecondGoes(o, junk, s, n); }
    RunReturns(Table(), Callee(), Allocated(o), map[], junk, states);
  }

  lemma AllocatedPhysical(o: int)
    ensures Physical(Table(), One(Allocated(o))) && |One(Allocated(o))| > 0
  {
  }

  // ----- The function -----

  // Called with d, the code returns 7 + d before it is allocated, and d + d after.
  ghost predicate GoesWrong(blocks: seq<Machine.Block>) {
    forall junk: Junk, junk': Junk, s: State :: Full(Table(), s) ==> GoesWrongAt(blocks, junk, junk', s)
  }

  ghost predicate GoesWrongAt(blocks: seq<Machine.Block>, junk: Junk, junk': Junk, s: State) {
    var d := Get(s.regs, RDI);
    && Ends(Table(), One(Code()), Callee(), FixedColors(), junk, s, Sum(7, d), s.mem)
    && Ends(Table(), blocks, Callee(), map[], junk', s, Sum(d, d), s.mem)
  }

  lemma AllocatedGoesWrong(o: int)
    requires o < 0
    ensures GoesWrong(DropAll(Recolor(One(Spilled(o)), SecondColors())))
  {
    hide Ends, Full, Callee, Table, Allocated, One, DropAll, Physical, Sum, Recolor;
    AllocatedIs(o);
    AllocatedPhysical(o);
    forall junk: Junk, junk': Junk, s: State | Full(Table(), s)
      ensures GoesWrongAt(DropAll(One(Allocated(o))), junk, junk', s)
    {
      FirstReturns(junk, s);
      SecondReturns(o, junk', s);
      SelfMovesDoNothing(Table(), One(Allocated(o)), Callee(), junk', s, Sum(Get(s.regs, RDI), Get(s.regs, RDI)), s.mem);
    }
  }

  // So it does not mean what it meant.
  lemma NotSame(blocks: seq<Machine.Block>)
    requires GoesWrong(blocks)
    ensures !SameMeaning(First(FirstColors()), Callee(), blocks)
  {
    hide Ends, Callee, Code, Table, GoesWrong;
    var s := State(map[], map[0 := 42, 1 := 42, 2 := 42, 3 := 42, 4 := 42, 5 := 42], map[], map[], Flags(CMP, 0, 0), 0);
    var junk: Junk := (n, r) => 0;
    StartIsFull(s);
    assert GoesWrongAt(blocks, junk, junk, s) by { WrongHere(blocks, junk, s); }
    assert Homes(First(FirstColors())) == FixedColors();
    assert Sum(7, 42) == 49 && Sum(42, 42) == 84;
    if SameMeaning(First(FirstColors()), Callee(), blocks) {
      EndsOnce(Table(), blocks, Callee(), map[], junk, s, 49, s.mem, 84, s.mem);
    }
  }

  lemma StartIsFull(s: State)
    requires s.regs == map[0 := 42, 1 := 42, 2 := 42, 3 := 42, 4 := 42, 5 := 42]
    ensures Full(Table(), s)
  {
  }

  lemma WrongHere(blocks: seq<Machine.Block>, junk: Junk, s: State)
    requires GoesWrong(blocks) && Full(Table(), s)
    ensures GoesWrongAt(blocks, junk, junk, s)
  {
  }

  lemma OnlyTwo(spilled: seq<nat>)
    requires Increasing(spilled) && Members(spilled) == {2}
    ensures spilled == [2]
  {
    hide Increasing;
    forall x ensures x in spilled <==> x in {2} { assert x in spilled <==> x in Members(spilled); }
    SortedSize(spilled, {2});
    assert spilled[0] in spilled;
  }

  lemma NoMembers(xs: seq<nat>)
    ensures Members(xs) == {} <==> xs == []
  {
    if xs != [] { assert xs[0] in Members(xs); }
  }

  lemma FirstMentions()
    ensures forall p, x :: IsPoint(One(Code()), p) && Mentions(InstrAt(One(Code()), p), x) ==> x in Vregs().domains && x in Widths() && Widths()[x] > 0
  {
    hide Mentions, Code;
    forall p, x | IsPoint(One(Code()), p) && Mentions(InstrAt(One(Code()), p), x) ensures x < 7 {
      FirstOperands(x);
      assert IsMentioned(One(Code()), x);
    }
  }

  lemma SecondMentions(o: int)
    ensures forall p, x :: IsPoint(One(Spilled(o)), p) && Mentions(InstrAt(One(Spilled(o)), p), x) ==> x in Vregs().domains && x in Widths() && Widths()[x] > 0
  {
    hide Mentions, Spilled;
    forall p, x | IsPoint(One(Spilled(o)), p) && Mentions(InstrAt(One(Spilled(o)), p), x) ensures x < 7 {
      SecondOperands(o, x);
      assert IsMentioned(One(Spilled(o)), x);
    }
  }

  lemma RoundIs(k: Setting, s: Spills, offset: int)
    requires k == First(FirstColors()) && s.spilled == [2] && SlotsOk(s.spilled, Widths(), s.slot, 0, offset)
    requires s == Spills(Table(), One(Code()), Homes(k), s.spilled, s.slot, RBP, k.ins, k.outs)
    ensures s == Round(s.slot) && 2 in s.slot && s.slot[2] < 0
  {
    hide Table, Code, Ins, Outs;
    assert 2 in s.spilled;
  }

  lemma WidthOfTwo()
    ensures TotalWidth([2], Widths()) == 8
  {
    assert [2][..0] == [] && TotalWidth([], Widths()) == 0;
  }

  function Widths(): map<nat, nat> { map[0 := 8, 1 := 8, 2 := 8, 3 := 8, 4 := 8, 5 := 8, 6 := 8] }

  // ----- The function is as lowering leaves it -----

  lemma FirstOperandsOk(n: nat)
    requires n < 8
    ensures var i := Code()[n];
      !i.dst.Preg? && !i.src.Preg? && !i.dst.Mem? && !i.src.Mem? && !i.op.IsJump() && (i.op.CALL? <==> n == 3) && (i.op.RET? <==> n == 7)
      && (i.op.CALL? ==> i.dst == Sym(0))
  {
    if n < 4 { assert n == 0 || n == 1 || n == 2 || n == 3; } else { assert n == 4 || n == 5 || n == 6 || n == 7; }
  }

  lemma TableKinds(r: nat)
    requires r < |Table()|
    ensures Table()[r].reserved ==> !Table()[r].callerSaved
  {
    assert r == 0 || r == 1 || r == 2 || r == 3 || r == 4 || r == 5;
  }

  lemma StartHasFixed()
    ensures forall y :: Point(0, 0) in Ins(Before()) && y in Ins(Before())[Point(0, 0)] ==> y in Fixed()
  {
    hide Ins;
    SetsAt(Before(), 0);
  }

  lemma FirstIsLowered()
    ensures Lowered(First(FirstColors()), Callee())
  {
    hide LoweredAt, Table, Ins, Outs, Code, Fixed, FirstColors;
    var k := First(FirstColors());
    TableIs();
    StartHasFixed();
    forall r | 0 <= r < |k.registers| && k.registers[r].reserved ensures !k.registers[r].callerSaved { TableKinds(r); }
    forall p | IsPoint(k.blocks, p) ensures LoweredAt(k, Callee(), p) { FirstLoweredAt(p); }
  }

  lemma TableIs()
    ensures |Table()| == 6 && Table()[RSP].reserved && Table()[RBP].reserved && Table()[RAX].callerSaved
  {
  }

  lemma FirstLoweredAt(p: Point)
    requires IsPoint(One(Code()), p)
    ensures LoweredAt(First(FirstColors()), Callee(), p)
  {
    hide Table, Ins, Outs, Code, Tail;
    CodeHasEight();
    FirstOperandsOk(p.idx);
    SetsAt(Before(), p.idx);
    if p.idx == 3 { assert Tail(Before(), 3) == {2, 4} by { BeforeAt(); } }
  }

  lemma BeforeAt()
    ensures Tail(Before(), 3) == {2, 4}
  {
  }

  // All that the allocation theorem asks of lowered code holds before the first
  // round: the call and the return find their registers held.
  lemma FirstIsPrepared()
    ensures Prepared(First(FirstColors()), Callee())
  {
    hide Held, Table, Ins, Outs, Code, Lowered;
    var k := First(FirstColors());
    FirstIsLowered();
    CodeHasEight();
    forall p | IsPoint(k.blocks, p) ensures CallsKeep(k, Callee(), p) {
      FirstOperandsOk(p.idx);
      FirstHeld();
    }
  }

  lemma FirstHeld()
    ensures var k := First(FirstColors()); Held(k, 0, 3, RDI) && Held(k, 0, 3, RSI) && Held(k, 0, 7, RAX)
  {
    var k := First(FirstColors());
    assert WritesFixed(k, Code()[1], RDI) by { assert 0 in Wrt(Code()[1]); }
    assert WritesFixed(k, Code()[2], RSI) by { assert 1 in Wrt(Code()[2]); }
    assert WritesFixed(k, Code()[6], RAX) by { assert 6 in Wrt(Code()[6]); }
    assert !WritesOver(k, Code()[2], RDI);
    HeldSince(k, 0, 1, 3, RDI);
  }

  // The allocator on this function, whatever it picks where it has a choice:
  // two rounds, and code that is wrong.
  method ReloadGoesWrong() returns (f: MachineFunction)
    ensures fresh(f) && GoesWrong(f.blocks) && !SameMeaning(First(FirstColors()), Callee(), f.blocks)
  {
    hide TableFits, RoundOf, ColoredAs, SafeColors, FrameFor, Inserted, Recolor, DropAll, GoesWrong, SlotsOk, SpilledOk, Table, Code, Spilled, Callee, One, Increasing, SameMeaning, Mentions, TotalWidth, Vregs, Homes, Ins, Outs, Before, After, Round;
    f := new MachineFunction(One(Code()), Vregs());
    VregsFit();
    FirstMentions();
    var finished, offset, k, spills := AllocateRound(f, Table(), Callee(), Widths(), 0);
    FirstForced(k, if finished then {} else Members(spills.spilled));
    OnlyTwo(spills.spilled);
    CalleeIs();
    RoundIs(k, spills, offset);
    InsertedIs(spills.slot);
    var o := spills.slot[2];
    SecondMentions(o);
    WidthOfTwo();
    var finished', offset', k', spills' := AllocateRound(f, Table(), Callee(), Widths(), offset);
    SecondForced(o, k', if finished' then {} else Members(spills'.spilled));
    NoMembers(spills'.spilled);
    AllocatedGoesWrong(o);
    NotSame(f.blocks);
  }
}
