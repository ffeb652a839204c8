// Which vregs are live where: the least solution of the backward equations.
module Liveness {
  import opened Machine

  type Sets = map<Point, set<nat>>

  // ----- Meaning -----

  // A path that starts at path[0], reads y at its end and does not write y before.
  ghost predicate LivePath(blocks: seq<Block>, path: seq<Point>, y: nat)
    decreases path
  {
    |path| > 0 && IsPoint(blocks, path[0]) &&
    if |path| == 1 then y in Use(InstrAt(blocks, path[0]))
    else y !in Wrt(InstrAt(blocks, path[0])) && path[1] in Next(blocks, path[0]) && LivePath(blocks, path[1..], y)
  }

  ghost predicate Live(blocks: seq<Block>, p: Point, y: nat) {
    exists path :: LivePath(blocks, path, y) && path[0] == p
  }

  // in = use + (out - wrt) and out = the union of in over the next instructions.
  ghost predicate Solves(blocks: seq<Block>, ins: Sets, outs: Sets) {
    && Covers(blocks, ins) && Covers(blocks, outs)
    && forall p :: IsPoint(blocks, p) ==> SolvesAt(blocks, ins, outs, p)
  }

  ghost predicate Covers(blocks: seq<Block>, sets: Sets) {
    forall p :: p in sets <==> IsPoint(blocks, p)
  }

  ghost predicate SolvesAt(blocks: seq<Block>, ins: Sets, outs: Sets, p: Point)
    requires Covers(blocks, ins) && Covers(blocks, outs) && IsPoint(blocks, p)
  {
    && ins[p] == Use(InstrAt(blocks, p)) + (outs[p] - Wrt(InstrAt(blocks, p)))
    && forall y :: y in outs[p] <==> InSome(ins, Next(blocks, p), y)
  }

  ghost predicate InSome(ins: Sets, points: set<Point>, y: nat) {
    exists q :: q in points && q in ins && y in ins[q]
  }

  lemma NextArePoints(blocks: seq<Block>, p: Point)
    requires IsPoint(blocks, p)
    ensures forall q :: q in Next(blocks, p) ==> IsPoint(blocks, q)
  {
  }

  lemma LiveHere(blocks: seq<Block>, p: Point, y: nat)
    requires IsPoint(blocks, p) && y in Use(InstrAt(blocks, p))
    ensures Live(blocks, p, y)
  {
    assert LivePath(blocks, [p], y) && [p][0] == p;
  }

  lemma LiveBefore(blocks: seq<Block>, p: Point, q: Point, y: nat)
    requires IsPoint(blocks, p) && q in Next(blocks, p) && Live(blocks, q, y) && y !in Wrt(InstrAt(blocks, p))
    ensures Live(blocks, p, y)
  {
    var path :| LivePath(blocks, path, y) && path[0] == q;
    assert ([p] + path)[1..] == path;
    assert LivePath(blocks, [p] + path, y) && ([p] + path)[0] == p;
  }

  // Every solution contains what is live.
  lemma {:induction false} SolutionHasLive(blocks: seq<Block>, ins: Sets, outs: Sets, path: seq<Point>, y: nat)
    requires Solves(blocks, ins, outs) && LivePath(blocks, path, y)
    ensures y in ins[path[0]]
    decreases path
  {
    assert SolvesAt(blocks, ins, outs, path[0]);
    if |path| > 1 {
      SolutionHasLive(blocks, ins, outs, path[1..], y);
      assert InSome(ins, Next(blocks, path[0]), y);
    }
  }

  ghost function LiveAt(ins: Sets, b: nat, idx: nat): set<nat> {
    if Point(b, idx) in ins then ins[Point(b, idx)] else {}
  }

  lemma UseIsLive(blocks: seq<Block>, ins: Sets, outs: Sets, b: nat, idx: nat)
    requires Solves(blocks, ins, outs) && IsPoint(blocks, Point(b, idx))
    ensures Use(blocks[b].instrs[idx]) <= LiveAt(ins, b, idx)
  {
    hide Use, Wrt, Next;
    assert SolvesAt(blocks, ins, outs, Point(b, idx));
  }

  // What is live below is live out of the instruction, and live at it unless written.
  lemma LiveBelow(blocks: seq<Block>, ins: Sets, outs: Sets, b: nat, idx: nat, y: nat)
    requires Solves(blocks, ins, outs) && IsPoint(blocks, Point(b, idx)) && y in LiveAt(ins, b, idx + 1)
    ensures Point(b, idx) in outs && y in outs[Point(b, idx)]
    ensures y in Wrt(blocks[b].instrs[idx]) || y in LiveAt(ins, b, idx)
  {
    hide Use, Wrt, Next;
    var p := Point(b, idx);
    assert SolvesAt(blocks, ins, outs, p);
    assert Point(b, idx + 1) in Next(blocks, p) by { NextHas(blocks, p, Point(b, idx + 1)); }
    assert InSome(ins, Next(blocks, p), y);
  }

  // A jump names a block that knows where it comes from; only jumps follow a jump.
  ghost predicate JumpOk(blocks: seq<Block>, p: Point, i: Instr)
    requires IsPoint(blocks, p)
  {
    && i.dst.Sym? && i.dst.id < |blocks| && p.block in blocks[i.dst.id].preds && blocks[i.dst.id].instrs != []
    && forall m :: p.idx <= m < |blocks[p.block].instrs| ==> blocks[p.block].instrs[m].op.IsJump()
  }

  // What is live at a jump's target is live at the jump.
  lemma {:induction false} LiveOverJump(blocks: seq<Block>, ins: Sets, outs: Sets, b: nat, idx: nat, t: nat, y: nat)
    requires Solves(blocks, ins, outs) && IsPoint(blocks, Point(b, idx)) && t < |blocks| && b in blocks[t].preds && blocks[t].instrs != []
    requires forall m :: idx <= m < |blocks[b].instrs| ==> blocks[b].instrs[m].op.IsJump()
    requires y in LiveAt(ins, t, 0)
    ensures y in LiveAt(ins, b, idx)
    decreases |blocks[b].instrs| - idx
  {
    hide Use, Wrt, Next, Solves;
    var p := Point(b, idx);
    assert Wrt(blocks[b].instrs[idx]) == {} by { JumpWritesNothing(blocks[b].instrs[idx]); }
    if idx + 1 < |blocks[b].instrs| {
      LiveOverJump(blocks, ins, outs, b, idx + 1, t, y);
      LiveUnlessWritten(blocks, ins, outs, p, Point(b, idx + 1), y);
    } else {
      LiveUnlessWritten(blocks, ins, outs, p, Point(t, 0), y);
    }
  }

  lemma JumpWritesNothing(i: Instr)
    requires i.op.IsJump()
    ensures Wrt(i) == {}
  {
  }

  lemma LiveUnlessWritten(blocks: seq<Block>, ins: Sets, outs: Sets, p: Point, q: Point, y: nat)
    requires Solves(blocks, ins, outs) && IsPoint(blocks, p) && q in ins && y in ins[q] && y !in Wrt(InstrAt(blocks, p))
    requires if p.idx + 1 < |blocks[p.block].instrs| then q == Point(p.block, p.idx + 1)
      else q.block < |blocks| && p.block in blocks[q.block].preds && blocks[q.block].instrs != [] && q.idx == 0
    ensures y in LiveAt(ins, p.block, p.idx)
  {
    hide Use, Wrt, Next;
    assert SolvesAt(blocks, ins, outs, p);
    assert q in Next(blocks, p) by { NextHas(blocks, p, q); }
    assert InSome(ins, Next(blocks, p), y);
  }

  lemma NextHas(blocks: seq<Block>, p: Point, q: Point)
    requires IsPoint(blocks, p)
    requires if p.idx + 1 < |blocks[p.block].instrs| then q == Point(p.block, p.idx + 1)
      else q.block < |blocks| && p.block in blocks[q.block].preds && blocks[q.block].instrs != [] && q.idx == 0
    ensures q in Next(blocks, p)
  {
  }

  // ----- Successors and layout order -----

  // The edge from block b to block s, as block s records it.
  ghost predicate Edge(blocks: seq<Block>, b: nat, s: nat) {
    s < |blocks| && b in blocks[s].preds
  }

  ghost predicate Listed(succs: map<nat, set<nat>>, b: nat, s: nat) {
    b in succs && s in succs[b]
  }

  method BlockSuccessors(blocks: seq<Block>) returns (succs: map<nat, set<nat>>)
    ensures forall b: nat, s: nat :: Listed(succs, b, s) <==> Edge(blocks, b, s)
  {
    succs := map[];
    var s: nat := 0;
    while s < |blocks|
      invariant s <= |blocks|
      invariant forall b: nat, t: nat :: Listed(succs, b, t) <==> Edge(blocks, b, t) && t < s
    {
      ghost var start := succs;
      var k := 0;
      while k < |blocks[s].preds|
        invariant k <= |blocks[s].preds|
        invariant forall b: nat, t: nat :: Listed(succs, b, t) <==> Listed(start, b, t) || (t == s && b in blocks[s].preds[..k])
      {
        var pred := blocks[s].preds[k];
        ghost var before := succs;
        succs := succs[pred := (if pred in succs then succs[pred] else {}) + {s}];
        assert blocks[s].preds[..k + 1] == blocks[s].preds[..k] + [pred];
        forall b: nat, t: nat ensures Listed(succs, b, t) <==> Listed(before, b, t) || (b == pred && t == s) {}
        k := k + 1;
      }
      assert blocks[s].preds[..k] == blocks[s].preds;
      s := s + 1;
    }
  }

  // The successors of the first k instructions of block b and of the blocks before.
  ghost predicate NextUpTo(blocks: seq<Block>, next: map<Point, set<Point>>, b: nat, k: nat) {
    && (forall p :: p in next <==> IsPoint(blocks, p) && (p.block < b || (p.block == b && p.idx < k)))
    && (forall p :: p in next ==> next[p] == Next(blocks, p))
  }

  // q is below p, or p is the last of its block and q the first of one that
  // names that block as a predecessor.
  ghost predicate Follows(blocks: seq<Block>, p: Point, q: Point) {
    && IsPoint(blocks, p) && IsPoint(blocks, q)
    && if p.idx + 1 < |blocks[p.block].instrs| then q.block == p.block && q.idx == p.idx + 1
       else p.block in blocks[q.block].preds && q.idx == 0
  }

  method Successors(blocks: seq<Block>) returns (next: map<Point, set<Point>>)
    ensures forall p :: p in next <==> IsPoint(blocks, p)
    ensures forall p :: p in next ==> next[p] == Next(blocks, p)
    ensures forall p, q :: p in next ==> (q in next[p] <==> Follows(blocks, p, q))
  {
    hide Next;
    var succs := BlockSuccessors(blocks);
    next := map[];
    var b: nat := 0;
    while b < |blocks|
      invariant b <= |blocks|
      invariant NextUpTo(blocks, next, b, 0)
    {
      var n := |blocks[b].instrs|;
      if n > 0 {
        var k: nat := 0;
        while k < n - 1
          invariant k <= n - 1
          invariant NextUpTo(blocks, next, b, k)
        {
          NextInside(blocks, b, k);
          next := next[Point(b, k) := {Point(b, k + 1)}];
          k := k + 1;
        }
        var above := if b in succs then succs[b] else {};
        assert forall s: nat :: s in above <==> Listed(succs, b, s);
        var targets := Firsts(blocks, above);
        NextLast(blocks, b, targets);
        next := next[Point(b, k) := targets];
      }
      b := b + 1;
    }
    forall p, q | p in next ensures q in next[p] <==> Follows(blocks, p, q) { NextIs(blocks, p, q); }
  }

  lemma NextIs(blocks: seq<Block>, p: Point, q: Point)
    requires IsPoint(blocks, p)
    ensures q in Next(blocks, p) <==> Follows(blocks, p, q)
  {
  }

  lemma NextInside(blocks: seq<Block>, b: nat, k: nat)
    requires b < |blocks| && k + 1 < |blocks[b].instrs|
    ensures Next(blocks, Point(b, k)) == {Point(b, k + 1)}
  {
  }

  lemma NextLast(blocks: seq<Block>, b: nat, targets: set<Point>)
    requires b < |blocks| && blocks[b].instrs != []
    requires forall p :: p in targets <==> p.idx == 0 && Edge(blocks, b, p.block) && IsPoint(blocks, p)
    ensures Next(blocks, Point(b, |blocks[b].instrs| - 1)) == targets
  {
  }

  method Firsts(blocks: seq<Block>, succs: set<nat>) returns (targets: set<Point>)
    requires forall s :: s in succs ==> s < |blocks|
    ensures forall p :: p in targets <==> p.idx == 0 && p.block in succs && IsPoint(blocks, p)
  {
    targets := {};
    var rest := succs;
    while rest != {}
      invariant rest <= succs
      invariant forall p :: p in targets <==> p.idx == 0 && p.block in succs - rest && IsPoint(blocks, p)
      decreases rest
    {
      var s :| s in rest;
      if blocks[s].instrs != [] {
        targets := targets + {Point(s, 0)};
      }
      rest := rest - {s};
    }
  }

  method LayoutOrder(blocks: seq<Block>) returns (order: seq<Point>)
    ensures order == Layout(blocks)
    ensures forall p :: p in order <==> IsPoint(blocks, p)
    ensures forall i, j :: 0 <= i < j < |order| ==> Precedes(order[i], order[j])
  {
    order := [];
    var b := 0;
    while b < |blocks|
      invariant b <= |blocks|
      invariant order == Layout(blocks[..b])
    {
      ghost var before := order;
      var k := 0;
      while k < |blocks[b].instrs|
        invariant k <= |blocks[b].instrs|
        invariant order == before + Row(b, k)
      {
        order := order + [Point(b, k)];
        k := k + 1;
      }
      assert blocks[..b + 1][..b] == blocks[..b];
      b := b + 1;
    }
    assert blocks[..b] == blocks;
    LayoutIsAllPoints(blocks);
    LayoutInOrder(blocks);
  }

  // ----- The iteration -----

  // What the sweeps keep: every member is justified by what is there already, and is live.
  ghost predicate Justified(blocks: seq<Block>, ins: Sets, outs: Sets) {
    && Covers(blocks, ins) && Covers(blocks, outs)
    && forall p :: IsPoint(blocks, p) ==> JustifiedAt(blocks, ins, outs, p)
  }

  ghost predicate JustifiedAt(blocks: seq<Block>, ins: Sets, outs: Sets, p: Point)
    requires Covers(blocks, ins) && Covers(blocks, outs) && IsPoint(blocks, p)
  {
    && ins[p] <= Use(InstrAt(blocks, p)) + (outs[p] - Wrt(InstrAt(blocks, p)))
    && (forall y :: y in outs[p] ==> InSome(ins, Next(blocks, p), y))
    && (forall y :: y in ins[p] ==> Live(blocks, p, y))
  }

  ghost predicate Below(ins: Sets, ins': Sets) {
    forall p :: p in ins ==> p in ins' && ins[p] <= ins'[p]
  }

  // All that may ever be recorded, and what is.
  ghost function Facts(ins: Sets, outs: Sets): set<(Point, nat, bool)> {
    (set p, y | p in ins && y in ins[p] :: (p, y, true)) + (set p, y | p in outs && y in outs[p] :: (p, y, false))
  }

  ghost function AllFacts(points: set<Point>, vregs: set<nat>): set<(Point, nat, bool)> {
    (set p, y | p in points && y in vregs :: (p, y, true)) + (set p, y | p in points && y in vregs :: (p, y, false))
  }

  ghost predicate Within(sets: Sets, vregs: set<nat>) {
    forall p :: p in sets ==> sets[p] <= vregs
  }

  lemma FactsGrow(ins: Sets, outs: Sets, ins': Sets, outs': Sets)
    requires Below(ins, ins') && Below(outs, outs') && ins.Keys == ins'.Keys && outs.Keys == outs'.Keys
    ensures Facts(ins, outs) <= Facts(ins', outs')
    ensures ins != ins' || outs != outs' ==> Facts(ins, outs) != Facts(ins', outs')
  {
    if ins != ins' {
      var p :| p in ins && ins[p] != ins'[p];
      var y :| y in ins'[p] && y !in ins[p];
      assert (p, y, true) in Facts(ins', outs') && (p, y, true) !in Facts(ins, outs);
    } else if outs != outs' {
      var p :| p in outs && outs[p] != outs'[p];
      var y :| y in outs'[p] && y !in outs[p];
      assert (p, y, false) in Facts(ins', outs') && (p, y, false) !in Facts(ins, outs);
    }
  }

  lemma FactsWithin(ins: Sets, outs: Sets, points: set<Point>, vregs: set<nat>)
    requires ins.Keys <= points && outs.Keys <= points && Within(ins, vregs) && Within(outs, vregs)
    ensures Facts(ins, outs) <= AllFacts(points, vregs)
  {
  }

  // Vregs instructions read.
  ghost function UsedIn(blocks: seq<Block>, points: seq<Point>): set<nat>
    requires forall p :: p in points ==> IsPoint(blocks, p)
  {
    set p, y | p in points && y in Use(InstrAt(blocks, p)) :: y
  }

  method UnionOf(ins: Sets, points: set<Point>) returns (union: set<nat>)
    requires forall q :: q in points ==> q in ins
    ensures forall y :: y in union <==> InSome(ins, points, y)
  {
    union := {};
    var rest := points;
    while rest != {}
      invariant rest <= points
      invariant forall y :: y in union <==> InSome(ins, points - rest, y)
      decreases rest
    {
      var q :| q in rest;
      union := union + ins[q];
      rest := rest - {q};
      forall y ensures y in union <==> InSome(ins, points - rest, y) {
        if InSome(ins, points - rest - {q}, y) {}
        assert points - rest == (points - rest - {q}) + {q};
      }
    }
    assert points - rest == points;
  }

  // The new sets of one point are justified, and no smaller than the old ones.
  lemma UpdateJustified(blocks: seq<Block>, ins: Sets, outs: Sets, p: Point, nextIn: set<nat>, nextOut: set<nat>)
    requires Justified(blocks, ins, outs) && IsPoint(blocks, p)
    requires forall y :: y in nextOut <==> InSome(ins, Next(blocks, p), y)
    requires nextIn == Use(InstrAt(blocks, p)) + (nextOut - Wrt(InstrAt(blocks, p)))
    ensures outs[p] <= nextOut && ins[p] <= nextIn
    ensures Justified(blocks, ins[p := nextIn], outs[p := nextOut])
  {
    hide Use, Wrt, Next, Live, InSome;
    assert JustifiedAt(blocks, ins, outs, p);
    var ins', outs' := ins[p := nextIn], outs[p := nextOut];
    forall y | y in nextIn ensures Live(blocks, p, y) {
      NewInIsLive(blocks, ins, outs, p, nextIn, nextOut, y);
    }
    forall q | IsPoint(blocks, q) ensures JustifiedAt(blocks, ins', outs', q) {
      assert JustifiedAt(blocks, ins, outs, q);
      forall y | InSome(ins, Next(blocks, q), y) ensures InSome(ins', Next(blocks, q), y) {
        InSomeMore(ins, ins', Next(blocks, q), y);
      }
    }
  }

  lemma NewInIsLive(blocks: seq<Block>, ins: Sets, outs: Sets, p: Point, nextIn: set<nat>, nextOut: set<nat>, y: nat)
    requires Justified(blocks, ins, outs) && IsPoint(blocks, p) && y in nextIn
    requires y in nextOut ==> InSome(ins, Next(blocks, p), y)
    requires nextIn == Use(InstrAt(blocks, p)) + (nextOut - Wrt(InstrAt(blocks, p)))
    ensures Live(blocks, p, y)
  {
    hide Use, Wrt, Next, Live;
    if y in Use(InstrAt(blocks, p)) {
      LiveHere(blocks, p, y);
    } else {
      var q :| q in Next(blocks, p) && q in ins && y in ins[q];
      assert JustifiedAt(blocks, ins, outs, q);
      LiveBefore(blocks, p, q, y);
    }
  }

  lemma InSomeMore(ins: Sets, ins': Sets, points: set<Point>, y: nat)
    requires InSome(ins, points, y) && Below(ins, ins')
    ensures InSome(ins', points, y)
  {
  }

  lemma NothingJustified(blocks: seq<Block>, none: Sets, vregs: set<nat>)
    requires Covers(blocks, none) && forall p :: p in none ==> none[p] == {}
    ensures Justified(blocks, none, none) && Within(none, vregs)
  {
  }

  // Backward sweeps over the instructions until one changes nothing.
  method Analyze(blocks: seq<Block>, order: seq<Point>, next: map<Point, set<Point>>) returns (ins: Sets, outs: Sets)
    requires order == Layout(blocks)
    requires forall p :: p in next <==> IsPoint(blocks, p)
    requires forall p :: p in next ==> next[p] == Next(blocks, p)
    ensures Solves(blocks, ins, outs)
    ensures forall p, y :: IsPoint(blocks, p) ==> (y in ins[p] <==> Live(blocks, p, y))
  {
    hide Use, Wrt, Next, Live, Facts, AllFacts, UsedIn, Layout, JustifiedAt, SolvesAt, Within, Below;
    LayoutIsAllPoints(blocks);
    ins := map p | p in next :: {};
    outs := ins;
    ghost var points, vregs := next.Keys, UsedIn(blocks, order);
    NothingJustified(blocks, ins, vregs);
    FactsWithin(ins, outs, points, vregs);
    var changed := true;
    while changed
      invariant Justified(blocks, ins, outs) && Within(ins, vregs) && Within(outs, vregs)
      invariant Facts(ins, outs) <= AllFacts(points, vregs)
      invariant !changed ==> Solves(blocks, ins, outs)
      decreases AllFacts(points, vregs) - Facts(ins, outs), changed
    {
      ghost var ins0, outs0 := ins, outs;
      ins, outs, changed := Sweep(blocks, order, next, ins, outs, vregs);
      FactsGrow(ins0, outs0, ins, outs);
      FactsWithin(ins, outs, points, vregs);
    }
    forall p, y | IsPoint(blocks, p) ensures y in ins[p] <==> Live(blocks, p, y) {
      ExactlyLive(blocks, ins, outs, p, y);
    }
  }

  lemma ExactlyLive(blocks: seq<Block>, ins: Sets, outs: Sets, p: Point, y: nat)
    requires Justified(blocks, ins, outs) && Solves(blocks, ins, outs) && IsPoint(blocks, p)
    ensures y in ins[p] <==> Live(blocks, p, y)
  {
    hide Next, Use, Wrt;
    assert JustifiedAt(blocks, ins, outs, p);
    if Live(blocks, p, y) {
      var path :| LivePath(blocks, path, y) && path[0] == p;
      SolutionHasLive(blocks, ins, outs, path, y);
    }
  }

  method Sweep(blocks: seq<Block>, order: seq<Point>, next: map<Point, set<Point>>, ins0: Sets, outs0: Sets, ghost vregs: set<nat>)
    returns (ins: Sets, outs: Sets, changed: bool)
    requires order == Layout(blocks) && forall p :: p in order <==> IsPoint(blocks, p)
    requires forall p :: p in next <==> IsPoint(blocks, p)
    requires forall p :: p in next ==> next[p] == Next(blocks, p)
    requires Justified(blocks, ins0, outs0) && vregs == UsedIn(blocks, order)
    requires Within(ins0, vregs) && Within(outs0, vregs)
    ensures Justified(blocks, ins, outs) && Within(ins, vregs) && Within(outs, vregs)
    ensures Below(ins0, ins) && Below(outs0, outs) && ins.Keys == ins0.Keys && outs.Keys == outs0.Keys
    ensures changed == (ins != ins0 || outs != outs0)
    ensures !changed ==> Solves(blocks, ins, outs)
  {
    hide Use, Wrt, Next, Live, Layout, JustifiedAt, UsedIn, Within, Below, InSome;
    ins, outs, changed := ins0, outs0, false;
    BelowItself(ins);
    BelowItself(outs);
    var k := |order|;
    while k > 0
      invariant 0 <= k <= |order|
      invariant Justified(blocks, ins, outs) && Within(ins, vregs) && Within(outs, vregs)
      invariant Below(ins0, ins) && Below(outs0, outs) && ins.Keys == ins0.Keys && outs.Keys == outs0.Keys
      invariant changed == (ins != ins0 || outs != outs0)
      invariant !changed ==> forall m :: k <= m < |order| ==> SolvesAt(blocks, ins, outs, order[m])
    {
      k := k - 1;
      var p := order[k];
      NextArePoints(blocks, p);
      var nextOut := UnionOf(ins, next[p]);
      var nextIn := Use(InstrAt(blocks, p)) + (nextOut - Wrt(InstrAt(blocks, p)));
      UpdateJustified(blocks, ins, outs, p, nextIn, nextOut);
      if nextIn != ins[p] || nextOut != outs[p] {
        UpdateWithin(blocks, order, ins, outs, vregs, p, nextIn, nextOut);
        StrictlyMore(ins0, outs0, ins, outs, p, nextIn, nextOut);
        ins, outs, changed := ins[p := nextIn], outs[p := nextOut], true;
      }
    }
  }

  lemma BelowItself(sets: Sets)
    ensures Below(sets, sets)
  {
  }

  lemma UpdateWithin(blocks: seq<Block>, order: seq<Point>, ins: Sets, outs: Sets, vregs: set<nat>, p: Point,
                     nextIn: set<nat>, nextOut: set<nat>)
    requires forall p :: p in order <==> IsPoint(blocks, p)
    requires Covers(blocks, ins) && Within(ins, vregs) && Within(outs, vregs) && vregs == UsedIn(blocks, order) && IsPoint(blocks, p)
    requires forall y :: y in nextOut <==> InSome(ins, Next(blocks, p), y)
    requires nextIn == Use(InstrAt(blocks, p)) + (nextOut - Wrt(InstrAt(blocks, p)))
    ensures Within(ins[p := nextIn], vregs) && Within(outs[p := nextOut], vregs)
  {
    hide Use, Wrt, Next;
  }

  lemma StrictlyMore(ins0: Sets, outs0: Sets, ins: Sets, outs: Sets, p: Point, nextIn: set<nat>, nextOut: set<nat>)
    requires Below(ins0, ins) && Below(outs0, outs) && p in ins0 && p in outs0
    requires ins[p] <= nextIn && outs[p] <= nextOut && (nextIn != ins[p] || nextOut != outs[p])
    ensures ins[p := nextIn] != ins0 || outs[p := nextOut] != outs0
    ensures Below(ins0, ins[p := nextIn]) && Below(outs0, outs[p := nextOut])
  {
    if nextIn != ins[p] {
      assert ins[p := nextIn][p] != ins0[p];
    } else {
      assert outs[p := nextOut][p] != outs0[p];
    }
  }
}
