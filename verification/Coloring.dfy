// Interference and greedy colouring.
module Coloring {
  import opened Liveness
  import opened Machine

  // ----- Registers -----

  // The table is a forest: register 0 is none, a parent comes before its
  // sub-registers, each side of the relation lists the other, and parts are
  // reserved or caller-saved as the whole is.
  ghost predicate TableOk(registers: seq<Register>) {
    && |registers| > 0 && registers[0].parent == 0
    && (forall r :: 0 < r < |registers| ==> registers[r].parent < r)
    && (forall r, s :: 0 <= r < |registers| ==>
          (s in registers[r].subregs <==> 0 < r && 0 < s < |registers| && registers[s].parent == r))
    && (forall r :: 0 <= r < |registers| && registers[r].parent != 0 ==> SameKind(registers[r], registers[registers[r].parent]))
  }

  predicate SameKind(r: Register, s: Register) { r.reserved == s.reserved && r.callerSaved == s.callerSaved }

  ghost predicate IsColor(registers: seq<Register>, c: nat) { 0 < c < |registers| }

  // Neither is the other or a part of the other.
  ghost predicate AreApart(registers: seq<Register>, c: nat, d: nat) {
    c < |registers| && d < |registers| && c != d && registers[c].parent != d && registers[d].parent != c
  }

  // The families of two registers keep them apart.
  lemma FamilyIsNotApart(registers: seq<Register>, c: nat, d: nat)
    requires TableOk(registers) && IsColor(registers, c) && IsColor(registers, d)
    ensures c in Family(registers, d) <==> !AreApart(registers, c, d)
  {
  }

  // Each element of the path is a part of the next.
  ghost predicate Upward(registers: seq<Register>, path: seq<nat>) {
    |path| > 0 && forall n :: 0 <= n < |path| - 1 ==> IsPartOf(registers, path[n], path[n + 1])
  }

  predicate IsPartOf(registers: seq<Register>, c: nat, d: nat) {
    c < |registers| && d != 0 && registers[c].parent == d
  }

  ghost predicate PartIn(registers: seq<Register>, c: nat, r: nat) {
    exists path :: Upward(registers, path) && path[0] == c && path[|path| - 1] == r
  }

  // The whole register a part belongs to.
  function Root(registers: seq<Register>, c: nat): nat
    requires TableOk(registers) && c < |registers|
    decreases c
  {
    if c == 0 || registers[c].parent == 0 then c else Root(registers, registers[c].parent)
  }

  // It is a part of no other, c is in it, and it is of the same kind.
  lemma {:induction false} RootIsWhole(registers: seq<Register>, c: nat)
    requires TableOk(registers) && IsColor(registers, c)
    ensures var r := Root(registers, c);
      IsColor(registers, r) && registers[r].parent == 0 && PartIn(registers, c, r) && SameKind(registers[c], registers[r])
    decreases c
  {
    hide TableOk;
    ParentOf(registers, c);
    var p := registers[c].parent;
    if p == 0 {
      assert Upward(registers, [c]) && [c][0] == c;
    } else {
      RootIsWhole(registers, p);
      var path :| Upward(registers, path) && path[0] == p && path[|path| - 1] == Root(registers, p);
      var longer := [c] + path;
      assert Upward(registers, longer) by {
        forall n | 0 <= n < |longer| - 1 ensures IsPartOf(registers, longer[n], longer[n + 1]) {
          if n > 0 { assert IsPartOf(registers, path[n - 1], path[n]); }
        }
      }
      assert longer[0] == c && longer[|longer| - 1] == Root(registers, c);
    }
  }

  lemma ParentOf(registers: seq<Register>, c: nat)
    requires TableOk(registers) && IsColor(registers, c)
    ensures var p := registers[c].parent; p < c && (p != 0 ==> SameKind(registers[c], registers[p]))
  {
  }

  // No other whole register has c in it.
  lemma {:induction false} WholeIsRoot(registers: seq<Register>, c: nat, path: seq<nat>)
    requires TableOk(registers) && IsColor(registers, c) && Upward(registers, path) && path[0] == c
    requires path[|path| - 1] < |registers| && registers[path[|path| - 1]].parent == 0
    ensures path[|path| - 1] == Root(registers, c)
    decreases |path|
  {
    hide TableOk;
    ParentOf(registers, c);
    if |path| > 1 {
      assert IsPartOf(registers, path[0], path[1]);
      assert Upward(registers, path[1..]) by {
        forall n | 0 <= n < |path| - 2 ensures IsPartOf(registers, path[1..][n], path[1..][n + 1]) { assert IsPartOf(registers, path[n + 1], path[n + 2]); }
      }
      WholeIsRoot(registers, path[1], path[1..]);
    }
  }

  method RootOf(registers: seq<Register>, c: nat) returns (root: nat)
    requires TableOk(registers) && IsColor(registers, c)
    ensures root == Root(registers, c)
    ensures IsColor(registers, root) && registers[root].parent == 0 && PartIn(registers, c, root) && SameKind(registers[c], registers[root])
  {
    root := c;
    while registers[root].parent != 0
      invariant 0 < root < |registers| && Root(registers, root) == Root(registers, c)
      decreases root
    {
      root := registers[root].parent;
    }
    RootIsWhole(registers, c);
  }

  // ----- Interference -----

  ghost predicate Mentions(i: Instr, x: nat) {
    x in VregOf(i.src) || x in VregOf(i.dst)
  }

  method Operands(blocks: seq<Block>, order: seq<Point>) returns (operands: set<nat>)
    requires order == Layout(blocks)
    ensures forall x :: x in operands <==> exists p :: IsPoint(blocks, p) && Mentions(InstrAt(blocks, p), x)
  {
    LayoutIsAllPoints(blocks);
    operands := {};
    var k := 0;
    while k < |order|
      invariant k <= |order|
      invariant forall x :: x in operands <==> exists m :: 0 <= m < k && Mentions(InstrAt(blocks, order[m]), x)
    {
      var i := InstrAt(blocks, order[k]);
      operands := operands + VregOf(i.src) + VregOf(i.dst);
      k := k + 1;
    }
    forall x ensures x in operands <==> exists p :: IsPoint(blocks, p) && Mentions(InstrAt(blocks, p), x) {
      if p :| IsPoint(blocks, p) && Mentions(InstrAt(blocks, p), x) {
        assert p in order;
        var m :| 0 <= m < |order| && order[m] == p;
      }
    }
  }

  // At instruction p one of the two is written while the other is live after it.
  ghost predicate Clash(blocks: seq<Block>, outs: Sets, p: Point, x: nat, y: nat) {
    && x != y && IsPoint(blocks, p) && p in outs
    && x in Wrt(InstrAt(blocks, p)) && y in outs[p]
  }

  ghost predicate Interfere(blocks: seq<Block>, outs: Sets, x: nat, y: nat) {
    exists p :: Clash(blocks, outs, p, x, y) || Clash(blocks, outs, p, y, x)
  }

  type Graph = map<nat, set<nat>>

  ghost predicate GraphIs(blocks: seq<Block>, outs: Sets, operands: set<nat>, graph: Graph) {
    && graph.Keys == operands
    && (forall x :: x in graph ==> graph[x] <= operands)
    && forall x, y :: x in operands && y in operands ==> (y in graph[x] <==> Interfere(blocks, outs, x, y))
  }

  // The edges the first k instructions ask for.
  ghost predicate GraphUpTo(blocks: seq<Block>, outs: Sets, order: seq<Point>, k: nat, operands: set<nat>, graph: Graph)
    requires k <= |order|
  {
    && graph.Keys == operands && (forall x :: x in graph ==> graph[x] <= operands)
    && forall x, y :: x in operands && y in operands ==> (y in graph[x] <==> ClashBefore(blocks, outs, order, k, x, y))
  }

  method BuildGraph(blocks: seq<Block>, order: seq<Point>, outs: Sets, operands: set<nat>) returns (graph: Graph)
    requires order == Layout(blocks) && Covers(blocks, outs)
    ensures GraphIs(blocks, outs, operands, graph)
  {
    hide Wrt, Layout, GraphIs, ClashBefore, Pair;
    LayoutIsAllPoints(blocks);
    graph := map x | x in operands :: {};
    var k := 0;
    NoClashYet(blocks, outs, order);
    while k < |order|
      invariant k <= |order| && GraphUpTo(blocks, outs, order, k, operands, graph)
    {
      ghost var before := graph;
      graph := AddEdges(graph, operands, Wrt(InstrAt(blocks, order[k])), outs[order[k]]);
      EdgesAdded(blocks, outs, order, k, operands, before, graph);
      k := k + 1;
    }
    AllClashes(blocks, outs, order, operands, graph);
  }

  lemma NoClashYet(blocks: seq<Block>, outs: Sets, order: seq<Point>)
    ensures forall x, y :: !ClashBefore(blocks, outs, order, 0, x, y)
  {
  }

  lemma EdgesAdded(blocks: seq<Block>, outs: Sets, order: seq<Point>, k: nat, operands: set<nat>, before: Graph, graph: Graph)
    requires k < |order| && IsPoint(blocks, order[k]) && order[k] in outs && GraphUpTo(blocks, outs, order, k, operands, before)
    requires graph.Keys == operands && forall x :: x in graph ==> graph[x] <= operands
    requires var written, liveOut := Wrt(InstrAt(blocks, order[k])), outs[order[k]];
      forall x, y :: x in operands && y in operands ==>
        (y in graph[x] <==> (y in before[x] || Pair(written, liveOut, x, y) || Pair(written, liveOut, y, x)))
    ensures GraphUpTo(blocks, outs, order, k + 1, operands, graph)
  {
    hide Wrt, ClashBefore, Pair;
    forall x, y
      ensures ClashBefore(blocks, outs, order, k + 1, x, y) <==>
        (ClashBefore(blocks, outs, order, k, x, y) || Pair(Wrt(InstrAt(blocks, order[k])), outs[order[k]], x, y)
         || Pair(Wrt(InstrAt(blocks, order[k])), outs[order[k]], y, x))
    {
      OneMoreClash(blocks, outs, order, k, x, y);
    }
  }

  lemma OneMoreClash(blocks: seq<Block>, outs: Sets, order: seq<Point>, k: nat, x: nat, y: nat)
    requires k < |order| && IsPoint(blocks, order[k]) && order[k] in outs
    ensures ClashBefore(blocks, outs, order, k + 1, x, y) <==>
      (ClashBefore(blocks, outs, order, k, x, y) || Pair(Wrt(InstrAt(blocks, order[k])), outs[order[k]], x, y)
       || Pair(Wrt(InstrAt(blocks, order[k])), outs[order[k]], y, x))
  {
    hide Wrt;
  }

  lemma AllClashes(blocks: seq<Block>, outs: Sets, order: seq<Point>, operands: set<nat>, graph: Graph)
    requires GraphUpTo(blocks, outs, order, |order|, operands, graph) && forall p :: p in order <==> IsPoint(blocks, p)
    ensures GraphIs(blocks, outs, operands, graph)
  {
    hide Wrt;
    forall x, y ensures Interfere(blocks, outs, x, y) <==> ClashBefore(blocks, outs, order, |order|, x, y) {
      if p :| Clash(blocks, outs, p, x, y) || Clash(blocks, outs, p, y, x) {
        assert p in order;
        var m :| 0 <= m < |order| && order[m] == p;
      }
    }
  }

  ghost predicate ClashBefore(blocks: seq<Block>, outs: Sets, order: seq<Point>, k: nat, x: nat, y: nat)
    requires k <= |order|
  {
    exists m :: 0 <= m < k && (Clash(blocks, outs, order[m], x, y) || Clash(blocks, outs, order[m], y, x))
  }

  // An instruction writes one of the two while the other is live after it.
  ghost predicate Pair(written: set<nat>, liveOut: set<nat>, x: nat, y: nat) {
    x != y && x in written && y in liveOut
  }

  method AddEdges(graph0: Graph, operands: set<nat>, written: set<nat>, liveOut: set<nat>) returns (graph: Graph)
    requires graph0.Keys == operands && forall x :: x in graph0 ==> graph0[x] <= operands
    ensures graph.Keys == operands && forall x :: x in graph ==> graph[x] <= operands
    ensures forall x, y :: x in operands && y in operands ==>
      (y in graph[x] <==> (y in graph0[x] || Pair(written, liveOut, x, y) || Pair(written, liveOut, y, x)))
  {
    graph := graph0;
    var rest := operands;
    while rest != {}
      invariant rest <= operands
      invariant graph.Keys == operands && forall x :: x in graph ==> graph[x] <= operands
      invariant forall x, y :: x in operands && y in operands ==>
        (y in graph[x] <==> (y in graph0[x] || Pair(written - rest, liveOut, x, y) || Pair(written - rest, liveOut, y, x)))
      decreases rest
    {
      var x :| x in rest;
      ghost var before := graph;
      if x in written {
        graph := AddNeighbours(graph, operands, x, liveOut);
      }
      forall u, v ensures Pair(written - (rest - {x}), liveOut, u, v) <==>
        (Pair(written - rest, liveOut, u, v) || Pair(written * {x}, liveOut, u, v)) {}
      rest := rest - {x};
    }
    assert written - rest == written;
  }

  method AddNeighbours(graph0: Graph, operands: set<nat>, x: nat, liveOut: set<nat>) returns (graph: Graph)
    requires graph0.Keys == operands && x in operands && forall u :: u in graph0 ==> graph0[u] <= operands
    ensures graph.Keys == operands && forall u :: u in graph ==> graph[u] <= operands
    ensures forall u, v :: u in operands && v in operands ==>
      (v in graph[u] <==> (v in graph0[u] || Pair({x}, liveOut, u, v) || Pair({x}, liveOut, v, u)))
  {
    graph := graph0;
    var rest := operands;
    while rest != {}
      invariant rest <= operands
      invariant graph.Keys == operands && forall u :: u in graph ==> graph[u] <= operands
      invariant forall u, v :: u in operands && v in operands ==>
        (v in graph[u] <==> (v in graph0[u] || Pair({x}, liveOut - rest, u, v) || Pair({x}, liveOut - rest, v, u)))
      decreases rest
    {
      var y :| y in rest;
      if x != y && y in liveOut {
        graph := graph[x := graph[x] + {y}];
        graph := graph[y := graph[y] + {x}];
      }
      rest := rest - {y};
    }
    assert liveOut - rest == liveOut;
  }

  // ----- Domains -----

  type Domains = map<nat, set<nat>>

  // Some call destroys c while y is live across it.
  ghost predicate Destroyed(registers: seq<Register>, blocks: seq<Block>, outs: Sets, y: nat, c: nat) {
    exists p :: DestroyedAt(registers, blocks, outs, p, y, c)
  }

  ghost predicate DestroyedAt(registers: seq<Register>, blocks: seq<Block>, outs: Sets, p: Point, y: nat, c: nat) {
    && IsPoint(blocks, p) && InstrAt(blocks, p).op.CALL? && p in outs && y in outs[p]
    && c < |registers| && registers[c].callerSaved
  }

  ghost predicate Narrowed(registers: seq<Register>, blocks: seq<Block>, outs: Sets, table: VregTable, operands: set<nat>, domains: Domains) {
    && domains.Keys == operands && operands <= table.domains.Keys
    && forall x, c :: x in operands ==>
        (c in domains[x] <==> c in table.domains[x] && (x in table.fixedVregs || !Destroyed(registers, blocks, outs, x, c)))
  }

  // A value live across a call cannot sit in a register the call destroys.
  method NarrowDomains(registers: seq<Register>, blocks: seq<Block>, order: seq<Point>, outs: Sets, table: VregTable, operands: set<nat>)
    returns (domains: Domains)
    requires order == Layout(blocks) && Covers(blocks, outs) && operands <= table.domains.Keys
    requires forall p :: p in outs ==> outs[p] <= operands
    ensures Narrowed(registers, blocks, outs, table, operands, domains)
    ensures forall x, c :: x in operands ==> (c in domains[x] <==>
      && c in table.domains[x]
      && (x !in table.fixedVregs && c < |registers| && registers[c].callerSaved ==>
            forall p :: IsPoint(blocks, p) && InstrAt(blocks, p).op.CALL? ==> x !in outs[p]))
  {
    hide Layout, Clobber;
    LayoutIsAllPoints(blocks);
    domains := map x | x in operands :: table.domains[x];
    var k := 0;
    while k < |order|
      invariant k <= |order|
      invariant domains.Keys == operands
      invariant forall x, c :: x in operands ==>
        (c in domains[x] <==> c in table.domains[x] && (x in table.fixedVregs || !DestroyedBefore(registers, blocks, outs, order, k, x, c)))
    {
      var p := order[k];
      var gone := Clobber(registers, InstrAt(blocks, p));
      ghost var before := domains;
      domains := EraseColors(domains, outs[p] - table.fixedVregs, gone);
      forall x, c ensures DestroyedBefore(registers, blocks, outs, order, k + 1, x, c) <==>
        DestroyedBefore(registers, blocks, outs, order, k, x, c) || (x in outs[p] && c in gone)
      {
        DestroysIfClobbers(registers, blocks, outs, p, x, c);
      }
      k := k + 1;
    }
    forall x, c ensures Destroyed(registers, blocks, outs, x, c) <==> DestroyedBefore(registers, blocks, outs, order, |order|, x, c) {
      if p :| DestroyedAt(registers, blocks, outs, p, x, c) {
        assert p in order;
        var m :| 0 <= m < |order| && order[m] == p;
      }
    }
  }

  lemma DestroysIfClobbers(registers: seq<Register>, blocks: seq<Block>, outs: Sets, p: Point, x: nat, c: nat)
    requires IsPoint(blocks, p) && p in outs
    ensures DestroyedAt(registers, blocks, outs, p, x, c) <==> x in outs[p] && c in Clobber(registers, InstrAt(blocks, p))
  {
  }

  ghost predicate DestroyedBefore(registers: seq<Register>, blocks: seq<Block>, outs: Sets, order: seq<Point>, k: nat, y: nat, c: nat)
    requires k <= |order|
  {
    exists m :: 0 <= m < k && DestroyedAt(registers, blocks, outs, order[m], y, c)
  }

  // Takes colours out of the domains of some vregs.
  method EraseColors(domains0: Domains, vregs: set<nat>, colors: set<nat>) returns (domains: Domains)
    requires vregs <= domains0.Keys
    ensures domains.Keys == domains0.Keys
    ensures forall x :: x in domains ==> domains[x] == if x in vregs then domains0[x] - colors else domains0[x]
  {
    domains := domains0;
    var rest := vregs;
    while rest != {}
      invariant rest <= vregs && domains.Keys == domains0.Keys
      invariant forall x :: x in domains ==> domains[x] == if x in vregs - rest then domains0[x] - colors else domains0[x]
      decreases rest
    {
      var x :| x in rest;
      domains := domains[x := domains[x] - colors];
      rest := rest - {x};
    }
  }

  // Takes a node out of the graph and out of the neighbourhoods of some nodes.
  method Detach(graph0: Graph, x: nat, neighbours: set<nat>) returns (graph: Graph)
    requires neighbours <= graph0.Keys
    ensures graph.Keys == graph0.Keys - {x}
    ensures forall n :: n in graph ==> graph[n] == if n in neighbours then graph0[n] - {x} else graph0[n]
  {
    graph := graph0;
    var rest := neighbours;
    while rest != {}
      invariant rest <= neighbours && graph.Keys == graph0.Keys
      invariant forall n :: n in graph ==> graph[n] == if n in neighbours - rest then graph0[n] - {x} else graph0[n]
      decreases rest
    {
      var n :| n in rest;
      graph := graph[n := graph[n] - {x}];
      rest := rest - {n};
    }
    graph := graph - {x};
  }

  ghost predicate MovesBetween(i: Instr, x: nat, y: nat) {
    i.op.MOV? && ((i.dst == Vreg(x) && i.src == Vreg(y)) || (i.src == Vreg(x) && i.dst == Vreg(y)))
  }

  // Some MOV copies one of the two to the other.
  ghost predicate Moved(blocks: seq<Block>, x: nat, y: nat) {
    exists p :: IsPoint(blocks, p) && MovesBetween(InstrAt(blocks, p), x, y)
  }

  type Partners = map<nat, seq<nat>>

  ghost predicate Partner(moves: Partners, x: nat, y: nat) {
    x in moves && y in moves[x]
  }

  // The partners of x that one instruction gives, and those of a list of
  // instructions, in order.
  function PartnersIn(i: Instr, x: nat): seq<nat> {
    if i.op.MOV? && i.dst.Vreg? && i.src.Vreg? then
      (if i.dst.v == x then [i.src.v] else []) + (if i.src.v == x then [i.dst.v] else [])
    else []
  }

  function PartnersOf(blocks: seq<Block>, points: seq<Point>, x: nat): seq<nat>
    requires forall p :: p in points ==> IsPoint(blocks, p)
  {
    if points == [] then []
    else
      var n := |points| - 1;
      PartnersOf(blocks, points[..n], x) + PartnersIn(InstrAt(blocks, points[n]), x)
  }

  function ListOf(moves: Partners, x: nat): seq<nat> { if x in moves then moves[x] else [] }

  // Each vreg has its partners listed in the order of the instructions.
  ghost predicate MovesAre(blocks: seq<Block>, points: seq<Point>, moves: Partners)
    requires forall p :: p in points ==> IsPoint(blocks, p)
  {
    forall x :: ListOf(moves, x) == PartnersOf(blocks, points, x)
  }

  function Append(moves: Partners, x: nat, y: nat): Partners {
    moves[x := ListOf(moves, x) + [y]]
  }

  // The vregs each vreg is copied to or from.
  method MovePartners(blocks: seq<Block>, order: seq<Point>) returns (moves: Partners)
    requires order == Layout(blocks)
    ensures forall p :: p in order ==> IsPoint(blocks, p)
    ensures MovesAre(blocks, order, moves)
    ensures forall x: nat, y: nat :: Partner(moves, x, y) <==> Moved(blocks, x, y)
  {
    hide Layout;
    LayoutIsAllPoints(blocks);
    moves := map[];
    var k := 0;
    while k < |order|
      invariant k <= |order|
      invariant MovesAre(blocks, order[..k], moves)
    {
      var i := InstrAt(blocks, order[k]);
      ghost var before := moves;
      if i.op.MOV? && i.dst.Vreg? && i.src.Vreg? {
        moves := Append(Append(moves, i.dst.v, i.src.v), i.src.v, i.dst.v);
      }
      PartnersAdded(blocks, order, k, before, moves);
      k := k + 1;
    }
    assert order[..k] == order;
    forall x: nat, y: nat ensures Partner(moves, x, y) <==> Moved(blocks, x, y) {
      assert ListOf(moves, x) == PartnersOf(blocks, order, x);
      PartnersMoved(blocks, order, x, y);
      if p :| IsPoint(blocks, p) && MovesBetween(InstrAt(blocks, p), x, y) { assert p in order; }
    }
  }

  lemma PartnersAdded(blocks: seq<Block>, order: seq<Point>, k: nat, before: Partners, after: Partners)
    requires k < |order| && forall p :: p in order ==> IsPoint(blocks, p)
    requires MovesAre(blocks, order[..k], before)
    requires var i := InstrAt(blocks, order[k]);
      after == if i.op.MOV? && i.dst.Vreg? && i.src.Vreg? then Append(Append(before, i.dst.v, i.src.v), i.src.v, i.dst.v) else before
    ensures MovesAre(blocks, order[..k + 1], after)
  {
    hide ListOf, PartnersIn, Append;
    var some := order[..k + 1];
    assert some[..k] == order[..k] && some[k] == order[k];
    forall x ensures ListOf(after, x) == PartnersOf(blocks, some, x) {
      assert ListOf(before, x) == PartnersOf(blocks, order[..k], x);
      OneMorePartner(before, InstrAt(blocks, order[k]), x);
    }
  }

  lemma OneMorePartner(before: Partners, i: Instr, x: nat)
    ensures var after := if i.op.MOV? && i.dst.Vreg? && i.src.Vreg? then Append(Append(before, i.dst.v, i.src.v), i.src.v, i.dst.v) else before;
      ListOf(after, x) == ListOf(before, x) + PartnersIn(i, x)
  {
  }

  lemma {:induction false} PartnersMoved(blocks: seq<Block>, points: seq<Point>, x: nat, y: nat)
    requires forall p :: p in points ==> IsPoint(blocks, p)
    ensures y in PartnersOf(blocks, points, x) <==> exists p :: p in points && MovesBetween(InstrAt(blocks, p), x, y)
  {
    hide PartnersIn, MovesBetween;
    if points != [] {
      var n := |points| - 1;
      PartnersMoved(blocks, points[..n], x, y);
      assert points == points[..n] + [points[n]];
      PartnerMoves(InstrAt(blocks, points[n]), x, y);
    }
  }

  lemma PartnerMoves(i: Instr, x: nat, y: nat)
    ensures y in PartnersIn(i, x) <==> MovesBetween(i, x, y)
  {
  }
}
