// Spilling rounds followed by one that colours everything.
module Rounds {
  import Ast
  import opened Allocate
  import opened Allocation
  import opened Coloring
  import opened Liveness
  import opened Machine
  import opened MachineRun
  import opened SelfMoves
  import opened Spilling
  import opened SpillingCorrect

  // Setting k' is the code of k with the loads and stores of s, liveness found anew.
  ghost predicate NextRound(k: Setting, s: Spills, k': Setting) {
    && s.registers == k.registers && s.blocks == k.blocks && s.homes == Homes(k) && s.ins == k.ins && s.outs == k.outs
    && (forall x :: x in s.spilled ==> x !in k.fixedVregs)
    && k'.registers == k.registers && k'.blocks == Inserted(s)
    && k'.fixedVregs == k.fixedVregs && Homes(k') == Homes(k)
    && Solves(k'.blocks, k'.ins, k'.outs)
    && forall p, y :: IsPoint(k'.blocks, p) ==> (y in k'.ins[p] <==> Live(k'.blocks, p, y))
  }

  // Where instruction idx of block b is after the insertion.
  ghost function Shifted(s: Spills, b: nat, idx: nat): nat
    requires b < |s.blocks| && idx <= |s.blocks[b].instrs|
  {
    |Expand(s, b, idx)| + |Loads(s, Point(b, idx), s.spilled)|
  }

  // ----- What is live -----

  // A path that does not read y up to an instruction further down goes on there.
  lemma {:induction false} PathOver(blocks: seq<Block>, path: seq<Point>, y: nat, stop: nat)
    requires LivePath(blocks, path, y) && path[0].idx <= stop < |blocks[path[0].block].instrs|
    requires forall m :: path[0].idx <= m < stop ==> y !in Use(blocks[path[0].block].instrs[m])
    ensures stop - path[0].idx < |path| && path[stop - path[0].idx] == Point(path[0].block, stop)
    ensures LivePath(blocks, path[stop - path[0].idx..], y)
    ensures forall m :: path[0].idx <= m < stop ==> y !in Wrt(blocks[path[0].block].instrs[m])
    decreases stop - path[0].idx
  {
    hide Use, Wrt;
    if path[0].idx < stop {
      var p := path[0];
      assert InstrAt(blocks, p) == blocks[p.block].instrs[p.idx];
      assert path[1] == Point(p.block, p.idx + 1);
      PathOver(blocks, path[1..], y, stop);
      assert path[1..][stop - p.idx - 1..] == path[stop - p.idx..];
    } else {
      assert path[0..] == path;
    }
  }

  lemma {:induction false} LoadsRead(s: Spills, p: Point, xs: seq<nat>)
    ensures forall j :: 0 <= j < |Loads(s, p, xs)| ==> Use(Loads(s, p, xs)[j]) == {}
    ensures forall x :: x in xs && NeedsLoad(s.blocks, p, x) ==> exists j :: 0 <= j < |Loads(s, p, xs)| && x in Wrt(Loads(s, p, xs)[j])
    ensures forall j :: 0 <= j < |Loads(s, p, xs)| ==> Loads(s, p, xs)[j].op.MOV? && exists x :: x in xs && Loads(s, p, xs)[j] == LoadOf(s, x)
  {
    hide NeedsLoad;
    if xs != [] {
      var n := |xs| - 1;
      LoadsRead(s, p, xs[..n]);
      var init, all := Loads(s, p, xs[..n]), Loads(s, p, xs);
      assert init <= all;
      forall x | x in xs && NeedsLoad(s.blocks, p, x) ensures exists j :: 0 <= j < |all| && x in Wrt(all[j]) {
        if x in xs[..n] {
          var j :| 0 <= j < |init| && x in Wrt(init[j]);
          assert all[j] == init[j];
        } else {
          assert x == xs[n] && all[|init|] == LoadOf(s, x);
        }
      }
      forall j | 0 <= j < |all| ensures all[j].op.MOV? && exists x :: x in xs && all[j] == LoadOf(s, x) {
        if j < |init| { assert all[j] == init[j]; } else { assert all[j] == LoadOf(s, xs[n]); }
      }
    }
  }

  ghost predicate StoresOne(s: Spills, p: Point, xs: seq<nat>, i: Instr) {
    exists x :: x in xs && NeedsStore(s.blocks, p, x) && i == StoreOf(s, x)
  }

  lemma {:induction false} StoresRead(s: Spills, p: Point, xs: seq<nat>)
    ensures forall i :: i in Stores(s, p, xs) ==> StoresOne(s, p, xs, i)
  {
    hide NeedsStore;
    if xs != [] {
      var n := |xs| - 1;
      StoresRead(s, p, xs[..n]);
      forall i | i in Stores(s, p, xs) ensures StoresOne(s, p, xs, i) {
        if i in Stores(s, p, xs[..n]) {
          assert StoresOne(s, p, xs[..n], i);
          var x :| x in xs[..n] && NeedsStore(s.blocks, p, x) && i == StoreOf(s, x);
          assert x in xs;
        } else {
          assert i == StoreOf(s, xs[n]);
        }
      }
    }
  }

  // A path through the loads of an instruction comes to the instruction; what it
  // is for is not loaded.
  lemma {:induction false} PathOverLoads(s: Spills, path: seq<Point>, y: nat, b: nat, idx: nat)
    requires IsPoint(s.blocks, Point(b, idx)) && LivePath(Inserted(s), path, y) && path[0] == Point(b, |Expand(s, b, idx)|)
    ensures y in s.spilled ==> !NeedsLoad(s.blocks, Point(b, idx), y)
    ensures var n := |Loads(s, Point(b, idx), s.spilled)|;
      n < |path| && path[n] == Point(b, Shifted(s, b, idx)) && LivePath(Inserted(s), path[n..], y)
  {
    hide NeedsLoad, Loads, Stores, Expand, Use, Wrt, Next;
    var p := Point(b, idx);
    var loads, start := Loads(s, p, s.spilled), |Expand(s, b, idx)|;
    var code := Inserted(s)[b].instrs;
    ExpandAt(s, b, idx);
    LoadsRead(s, p, s.spilled);
    forall m | start <= m < start + |loads| ensures code[m] == loads[m - start] && y !in Use(code[m]) {
      assert code[m] == code[start..start + |loads|][m - start];
    }
    PathOver(Inserted(s), path, y, start + |loads|);
    assert forall j :: 0 <= j < |loads| ==> y !in Wrt(loads[j]) by {
      forall j | 0 <= j < |loads| ensures y !in Wrt(loads[j]) { assert code[start + j] == loads[start + j - start]; }
    }
  }

  // A path from an instruction that does not read y goes on through its stores
  // to the code of a next instruction.
  lemma PathBelow(s: Spills, w: World, path: seq<Point>, y: nat, b: nat, idx: nat) returns (m: nat, q: Point)
    requires Spillable(s, w) && IsPoint(s.blocks, Point(b, idx)) && LivePath(Inserted(s), path, y) && path[0] == Point(b, Shifted(s, b, idx))
    requires y !in Use(s.blocks[b].instrs[idx])
    ensures y !in Wrt(s.blocks[b].instrs[idx])
    ensures 0 < m < |path| && LivePath(Inserted(s), path[m..], y)
    ensures IsPoint(s.blocks, q) && q in Next(s.blocks, Point(b, idx)) && path[m] == Point(q.block, |Expand(s, q.block, q.idx)|)
  {
    hide NeedsLoad, NeedsStore, Loads, Stores, Expand, Use, Wrt, Spillable;
    var p := Point(b, idx);
    var at, end := Shifted(s, b, idx), |Expand(s, b, idx + 1)|;
    var prog, code := Inserted(s), Inserted(s)[b].instrs;
    ExpandAt(s, b, idx);
    assert InstrAt(prog, path[0]) == s.blocks[b].instrs[idx];
    var rest := path[1..];
    if idx + 1 < |s.blocks[b].instrs| {
      ExpandAt(s, b, idx + 1);
      forall m | at + 1 <= m < end ensures y !in Use(code[m]) { StoresUse(s, p, y, code, at + 1, m); }
      PathOver(prog, rest, y, end);
      m, q := end - at, Point(b, idx + 1);
      assert rest[end - (at + 1)..] == path[m..];
    } else {
      NoStoresAtEnd(s, w, p);
      assert |code| == end;
      m, q := 1, Point(path[1].block, 0);
      SameBlocks(s, q.block);
    }
  }

  lemma {:induction false} StoresUse(s: Spills, p: Point, y: nat, code: seq<Instr>, start: nat, m: nat)
    requires IsPoint(s.blocks, p) && start <= m < start + |Stores(s, p, s.spilled)| <= |code|
    requires code[start..start + |Stores(s, p, s.spilled)|] == Stores(s, p, s.spilled)
    requires y in s.spilled ==> y !in Wrt(InstrAt(s.blocks, p))
    ensures y !in Use(code[m])
  {
    hide Wrt, Stores;
    StoresRead(s, p, s.spilled);
    assert code[m] == code[start..start + |Stores(s, p, s.spilled)|][m - start];
    assert code[m] in Stores(s, p, s.spilled);
  }

  lemma {:induction false} NoStoresAtEnd(s: Spills, w: World, p: Point)
    requires Spillable(s, w) && IsPoint(s.blocks, p) && p.idx == |s.blocks[p.block].instrs| - 1
    ensures Stores(s, p, s.spilled) == []
  {
    hide Wrt, Use, Solves, SpilledOk;
    assert SpillableAt(s, p);
    assert forall x :: x in s.spilled ==> !Touches(InstrAt(s.blocks, p), x);
    NoStores(s, p, s.spilled);
  }

  lemma {:induction false} NoStores(s: Spills, p: Point, xs: seq<nat>)
    requires forall x :: x in xs ==> !NeedsStore(s.blocks, p, x)
    ensures Stores(s, p, xs) == []
  {
    hide NeedsStore;
    if xs != [] { NoStores(s, p, xs[..|xs| - 1]); }
  }

  // Blocks stay where they are, keep their predecessors and are not emptied.
  lemma {:induction false} SameBlocks(s: Spills, b: nat)
    requires b < |s.blocks|
    ensures |Inserted(s)| == |s.blocks| && Inserted(s)[b].preds == s.blocks[b].preds
    ensures Inserted(s)[b].instrs == [] <==> s.blocks[b].instrs == []
    ensures |Expand(s, b, 0)| == 0
  {
    hide Loads, Stores;
  }

  // What is live in front of the code of an instruction was live at it.
  lemma {:induction false} LiveBeforeSpill(s: Spills, w: World, path: seq<Point>, y: nat, b: nat, idx: nat)
    requires Spillable(s, w) && IsPoint(s.blocks, Point(b, idx)) && y !in s.spilled
    requires LivePath(Inserted(s), path, y) && path[0] == Point(b, |Expand(s, b, idx)|)
    ensures Point(b, idx) in s.ins && y in s.ins[Point(b, idx)]
    decreases |path|
  {
    hide Spillable, Loads, Stores, Expand, Use, Wrt, Next, Solves;
    assert Solves(s.blocks, s.ins, s.outs) by { SolvesThere(s, w); }
    PathOverLoads(s, path, y, b, idx);
    UseIsLive(s.blocks, s.ins, s.outs, b, idx);
    if y !in Use(s.blocks[b].instrs[idx]) {
      var n := |Loads(s, Point(b, idx), s.spilled)|;
      var m, q := PathBelow(s, w, path[n..], y, b, idx);
      assert path[n..][m..] == path[n + m..];
      LiveBeforeSpill(s, w, path[n + m..], y, q.block, q.idx);
      LiveOver(s, Point(b, idx), q, y);
    }
  }

  lemma LiveOver(s: Spills, p: Point, q: Point, y: nat)
    requires Solves(s.blocks, s.ins, s.outs) && IsPoint(s.blocks, p) && q in Next(s.blocks, p) && q in s.ins && y in s.ins[q]
    ensures p in s.outs && y in s.outs[p]
    ensures y !in Wrt(InstrAt(s.blocks, p)) ==> p in s.ins && y in s.ins[p]
  {
    hide Use, Wrt, Next;
    assert SolvesAt(s.blocks, s.ins, s.outs, p);
    assert InSome(s.ins, Next(s.blocks, p), y);
  }

  lemma SolvesThere(s: Spills, w: World)
    requires Spillable(s, w)
    ensures Solves(s.blocks, s.ins, s.outs)
  {
    hide Solves;
  }

  // A spilled vreg is not live in front of the code of an instruction that
  // follows no instruction touching it: where it is read it is loaded first.
  lemma {:induction false} SpilledNotLive(s: Spills, w: World, path: seq<Point>, y: nat, b: nat, idx: nat)
    requires Spillable(s, w) && IsPoint(s.blocks, Point(b, idx)) && y in s.spilled && !TouchedAbove(s, b, idx, y)
    ensures !(LivePath(Inserted(s), path, y) && path[0] == Point(b, |Expand(s, b, idx)|))
    decreases |path|
  {
    hide Spillable, Loads, Stores, Expand, Use, Wrt, NeedsLoad, Next;
    if LivePath(Inserted(s), path, y) && path[0] == Point(b, |Expand(s, b, idx)|) {
      PathOverLoads(s, path, y, b, idx);
      if y in Use(s.blocks[b].instrs[idx]) {
        LoadedUnlessTouched(s, w, b, idx, y);
      } else {
        var n := |Loads(s, Point(b, idx), s.spilled)|;
        var m, q := PathBelow(s, w, path[n..], y, b, idx);
        assert path[n..][m..] == path[n + m..];
        NotTouchedBelow(s, b, idx, q, y);
        SpilledNotLive(s, w, path[n + m..], y, q.block, q.idx);
      }
    }
  }

  lemma LoadedUnlessTouched(s: Spills, w: World, b: nat, idx: nat, y: nat)
    requires Spillable(s, w) && IsPoint(s.blocks, Point(b, idx)) && y in s.spilled && !TouchedAbove(s, b, idx, y)
    requires y in Use(s.blocks[b].instrs[idx])
    ensures NeedsLoad(s.blocks, Point(b, idx), y)
  {
    hide Use, Wrt, SpilledOk, Solves, Next;
    var p := Point(b, idx);
    if idx > 0 {
      OneWayIn(s.blocks, p);
      assert Reaches(s.blocks, Point(b, idx - 1), p);
    } else {
      forall q | Reaches(s.blocks, q, p) ensures !Touches(InstrAt(s.blocks, q), y) {
        LastReaches(s.blocks, q, p);
        assert SpillableAt(s, q);
      }
    }
  }

  lemma NotTouchedBelow(s: Spills, b: nat, idx: nat, q: Point, y: nat)
    requires IsPoint(s.blocks, Point(b, idx)) && q in Next(s.blocks, Point(b, idx)) && IsPoint(s.blocks, q)
    requires !Touches(s.blocks[b].instrs[idx], y)
    ensures !TouchedAbove(s, q.block, q.idx, y)
  {
    hide Use, Wrt;
  }

  // Which instruction the code at a position is for.
  lemma {:induction false} Locate(s: Spills, b: nat, pos: nat, n: nat) returns (idx: nat)
    requires b < |s.blocks| && n <= |s.blocks[b].instrs| && pos < |Expand(s, b, n)|
    ensures idx < n && |Expand(s, b, idx)| <= pos < |Expand(s, b, idx + 1)|
    decreases n
  {
    hide Loads, Stores;
    if pos < |Expand(s, b, n - 1)| {
      idx := Locate(s, b, pos, n - 1);
    } else {
      idx := n - 1;
    }
  }

  // It is the instruction itself, a load or a store.
  lemma CodeAt(s: Spills, b: nat, idx: nat, pos: nat)
    requires IsPoint(s.blocks, Point(b, idx)) && |Expand(s, b, idx)| <= pos < |Expand(s, b, idx + 1)|
    ensures pos < |Inserted(s)[b].instrs|
    ensures var i := Inserted(s)[b].instrs[pos];
      if pos == Shifted(s, b, idx) then i == s.blocks[b].instrs[idx]
      else exists x :: x in s.spilled && (i == LoadOf(s, x) || (i == StoreOf(s, x) && x in Wrt(s.blocks[b].instrs[idx])))
  {
    hide Loads, Stores, Expand, NeedsLoad, Wrt;
    var p := Point(b, idx);
    var code, start, at := Inserted(s)[b].instrs, |Expand(s, b, idx)|, Shifted(s, b, idx);
    var loads, stores := Loads(s, p, s.spilled), Stores(s, p, s.spilled);
    ExpandAt(s, b, idx);
    if pos < at {
      LoadsRead(s, p, s.spilled);
      assert code[pos] == code[start..start + |loads|][pos - start] == loads[pos - start];
    } else if pos > at {
      StoresRead(s, p, s.spilled);
      assert code[pos] == code[at + 1..at + 1 + |stores|][pos - at - 1] == stores[pos - at - 1];
      assert StoresOne(s, p, s.spilled, code[pos]);
    }
  }

  // A jump has no loads and stores, and all that follows it are jumps again.
  lemma JumpsShifted(s: Spills, b: nat, idx: nat)
    requires IsPoint(s.blocks, Point(b, idx)) && JumpOk(s.blocks, Point(b, idx), s.blocks[b].instrs[idx])
    ensures Shifted(s, b, idx) < |Inserted(s)[b].instrs|
    ensures JumpOk(Inserted(s), Point(b, Shifted(s, b, idx)), s.blocks[b].instrs[idx])
  {
    hide Loads, Stores, Expand, Wrt;
    var prog, at := Inserted(s), Shifted(s, b, idx);
    ExpandAt(s, b, idx);
    var t := s.blocks[b].instrs[idx].dst.id;
    SameBlocks(s, b);
    SameBlocks(s, t);
    forall m | at <= m < |prog[b].instrs| ensures prog[b].instrs[m].op.IsJump() {
      var n := Locate(s, b, m, |s.blocks[b].instrs|);
      if n < idx {
        ExpandPrefix(s, b, n + 1, idx);
        assert false;
      }
      JumpTouches(s.blocks[b].instrs[n]);
      NothingToLoad(s, Point(b, n), s.spilled);
      ExpandAt(s, b, n);
    }
  }

  lemma JumpTouches(i: Instr)
    requires i.op.IsJump()
    ensures Use(i) == {} && Wrt(i) == {}
  {
  }

  // A vreg that is not spilled and live after a call in the new code was live after it.
  lemma LiveAfterCall(k: Setting, s: Spills, k': Setting, w: World, b: nat, idx: nat, y: nat)
    requires NextRound(k, s, k') && Spillable(s, w) && IsPoint(k.blocks, Point(b, idx)) && k.blocks[b].instrs[idx].op.CALL?
    requires y !in s.spilled && LiveOverCall(k', Point(b, Shifted(s, b, idx)), y)
    ensures LiveOverCall(k, Point(b, idx), y)
  {
    hide Loads, Stores, Expand, Use, Wrt, Next, Solves, Spillable;
    var p, p' := Point(b, idx), Point(b, Shifted(s, b, idx));
    var q := LiveOutPath(k', p', y);
    assert Live(k'.blocks, q, y);
    var path :| LivePath(k'.blocks, path, y) && path[0] == q;
    var n := CallGoesOn(s, w, b, idx, q);
    LiveBeforeSpill(s, w, path, y, n.block, n.idx);
    SolvesThere(s, w);
    LiveOver(s, p, n, y);
  }

  lemma LiveOutPath(k: Setting, p: Point, y: nat) returns (q: Point)
    requires Solves(k.blocks, k.ins, k.outs) && IsPoint(k.blocks, p) && p in k.outs && y in k.outs[p]
    requires forall p, y :: IsPoint(k.blocks, p) ==> (y in k.ins[p] <==> Live(k.blocks, p, y))
    ensures q in Next(k.blocks, p) && IsPoint(k.blocks, q) && Live(k.blocks, q, y)
  {
    hide Next, Live;
    assert SolvesAt(k.blocks, k.ins, k.outs, p);
    assert InSome(k.ins, Next(k.blocks, p), y);
    q :| q in Next(k.blocks, p) && q in k.ins && y in k.ins[q];
  }

  // A call has no stores: the code of a next instruction follows.
  lemma CallGoesOn(s: Spills, w: World, b: nat, idx: nat, q: Point) returns (n: Point)
    requires Spillable(s, w) && IsPoint(s.blocks, Point(b, idx)) && s.blocks[b].instrs[idx].op.CALL?
    requires IsPoint(Inserted(s), Point(b, Shifted(s, b, idx))) && q in Next(Inserted(s), Point(b, Shifted(s, b, idx)))
    ensures IsPoint(s.blocks, n) && n in Next(s.blocks, Point(b, idx)) && q == Point(n.block, |Expand(s, n.block, n.idx)|)
  {
    hide Loads, Stores, Expand, Solves, Spillable;
    NothingToLoad(s, Point(b, idx), s.spilled);
    ExpandAt(s, b, idx);
    if idx + 1 < |s.blocks[b].instrs| {
      ExpandAt(s, b, idx + 1);
      n := Point(b, idx + 1);
    } else {
      n := Point(q.block, 0);
      SameBlocks(s, q.block);
    }
  }

  lemma EntryStaysFixed(k: Setting, s: Spills, k': Setting, w: World, y: nat)
    requires Lowered(k, w) && NextRound(k, s, k') && Spillable(s, w)
    requires Point(0, 0) in k'.ins && y in k'.ins[Point(0, 0)]
    ensures y in k.fixedVregs
  {
    hide Loads, Stores, Expand, Use, Wrt, Next, Solves, Spillable, LoweredAt;
    assert IsPoint(k'.blocks, Point(0, 0)) by { CoversThere(k'); }
    assert Live(k'.blocks, Point(0, 0), y);
    var path :| LivePath(k'.blocks, path, y) && path[0] == Point(0, 0);
    SameBlocks(s, 0);
    if y in s.spilled {
      SpilledNotLive(s, w, path, y, 0, 0);
    } else {
      LiveBeforeSpill(s, w, path, y, 0, 0);
    }
  }

  lemma CoversThere(k: Setting)
    requires Solves(k.blocks, k.ins, k.outs)
    ensures Covers(k.blocks, k.ins) && Covers(k.blocks, k.outs)
  {
  }

  lemma SpillCodeLowered(k': Setting, s: Spills, w: World, p: Point, x: nat)
    requires IsPoint(k'.blocks, p) && IsReserved(k', s.rbp)
    requires InstrAt(k'.blocks, p) == LoadOf(s, x) || InstrAt(k'.blocks, p) == StoreOf(s, x)
    ensures LoweredAt(k', w, p)
  {
  }

  lemma InstrLowered(k: Setting, s: Spills, k': Setting, w: World, b: nat, idx: nat)
    requires Lowered(k, w) && NextRound(k, s, k') && Spillable(s, w) && IsPoint(k.blocks, Point(b, idx))
    requires IsPoint(k'.blocks, Point(b, Shifted(s, b, idx))) && InstrAt(k'.blocks, Point(b, Shifted(s, b, idx))) == k.blocks[b].instrs[idx]
    ensures LoweredAt(k', w, Point(b, Shifted(s, b, idx)))
  {
    hide Loads, Stores, Expand, Use, Wrt, Next, Solves, Spillable, Shifted, Inserted;
    var p, p' := Point(b, idx), Point(b, Shifted(s, b, idx));
    var i := k.blocks[b].instrs[idx];
    assert LoweredAt(k, w, p);
    if i.op.CALL? {
      forall f | LiveOverCall(k', p', f) && f in k'.fixedVregs && f in k'.colors
        ensures k'.colors[f] == w.rax || Survives(k', f)
      {
        assert f in Homes(k') && Homes(k')[f] == k'.colors[f] && f in Homes(k);
        LiveAfterCall(k, s, k', w, b, idx, f);
      }
    }
    if i.op.IsJump() { JumpsShifted(s, b, idx); }
  }

  // A round leaves lowered code as lowering does.
  lemma LoweredRound(k: Setting, s: Spills, k': Setting, w: World)
    requires Lowered(k, w) && NextRound(k, s, k') && Spillable(s, w)
    ensures Lowered(k', w)
  {
    hide Loads, Stores, Expand, Solves, LoweredAt, Shifted;
    forall p | IsPoint(k'.blocks, p) ensures LoweredAt(k', w, p) {
      var idx := Locate(s, p.block, p.idx, |s.blocks[p.block].instrs|);
      CodeAt(s, p.block, idx, p.idx);
      if p.idx == Shifted(s, p.block, idx) {
        InstrLowered(k, s, k', w, p.block, idx);
      } else {
        var x :| InstrAt(k'.blocks, p) == LoadOf(s, x) || InstrAt(k'.blocks, p) == StoreOf(s, x);
        SpillCodeLowered(k', s, w, p, x);
      }
    }
    forall y | Point(0, 0) in k'.ins && y in k'.ins[Point(0, 0)] ensures y in k'.fixedVregs {
      EntryStaysFixed(k, s, k', w, y);
    }
  }

  lemma ShiftedPoint(s: Spills, p: Point) returns (p': Point)
    requires IsPoint(s.blocks, p)
    ensures p' == Point(p.block, Shifted(s, p.block, p.idx))
    ensures IsPoint(Inserted(s), p') && InstrAt(Inserted(s), p') == InstrAt(s.blocks, p)
  {
    hide Loads, Stores, Expand;
    ExpandAt(s, p.block, p.idx);
    p' := Point(p.block, Shifted(s, p.block, p.idx));
  }

  // ----- Any number of rounds -----

  // Round j spills what rounds[j] says; the last setting is what is coloured in full.
  ghost predicate RoundsOk(settings: seq<Setting>, rounds: seq<Spills>, w: World) {
    && |settings| == |rounds| + 1
    && forall j :: 0 <= j < |rounds| ==> RoundAt(settings, rounds, w, j)
  }

  ghost predicate RoundAt(settings: seq<Setting>, rounds: seq<Spills>, w: World, j: nat)
    requires j < |rounds| < |settings|
  {
    NextRound(settings[j], rounds[j], settings[j + 1]) && Spillable(rounds[j], w)
  }

  lemma LaterRounds(settings: seq<Setting>, rounds: seq<Spills>, w: World)
    requires RoundsOk(settings, rounds, w) && rounds != []
    ensures RoundAt(settings, rounds, w, 0) && RoundsOk(settings[1..], rounds[1..], w)
  {
    hide NextRound, Spillable;
    forall j | 0 <= j < |rounds| - 1 ensures RoundAt(settings[1..], rounds[1..], w, j) {
      assert RoundAt(settings, rounds, w, j + 1);
    }
  }

  // Allocation keeps meaning over all its rounds: the code with registers, loads
  // and stores ends exactly as the code it was made from, if in what is coloured
  // in the end calls and returns find their registers held.
  lemma {:induction false} RoundsExact(settings: seq<Setting>, rounds: seq<Spills>, w: World, junk: Junk, junk': Junk, s: State, v: Ast.Word, mem: map<int, Ast.Word>)
    requires RoundsOk(settings, rounds, w) && Full(settings[0].registers, s)
    requires SafeColors(settings[|rounds|]) && Prepared(settings[|rounds|], w)
    ensures var first, last := settings[0], settings[|rounds|];
      Ends(first.registers, first.blocks, w, Homes(first), junk, s, v, mem)
      <==> Ends(first.registers, DropAll(Recolor(last.blocks, last.colors)), w, map[], junk', s, v, mem)
    decreases |rounds|
  {
    hide SafeColors, Prepared, NextRound, Spillable, Full, Ends, Recolor, DropAll;
    if rounds == [] {
      AllocationExact(settings[0], w, junk, junk', s, v, mem);
    } else {
      LaterRounds(settings, rounds, w);
      SpillRound(settings[0], rounds[0], settings[1], w, junk, s, v, mem);
      RoundsExact(settings[1..], rounds[1..], w, junk, junk', s, v, mem);
    }
  }

  lemma SpillRound(k: Setting, s: Spills, k': Setting, w: World, junk: Junk, st: State, v: Ast.Word, mem: map<int, Ast.Word>)
    requires NextRound(k, s, k') && Spillable(s, w)
    ensures k'.registers == k.registers
    ensures Ends(k.registers, k.blocks, w, Homes(k), junk, st, v, mem) <==> Ends(k'.registers, k'.blocks, w, Homes(k'), junk, st, v, mem)
  {
    hide Solves, Spillable, Ends, Inserted;
    SpillingExact(s, w, junk, st, v, mem);
  }

  // ----- What may be spilled -----

  // Every block that has instructions ends with a jump or a return.
  ghost predicate BlocksEnd(blocks: seq<Block>) {
    forall b :: 0 <= b < |blocks| && blocks[b].instrs != [] ==> EndsWithJump(blocks[b].instrs)
  }

  ghost predicate EndsWithJump(code: seq<Instr>) {
    |code| > 0 && (code[|code| - 1].op.IsJump() || code[|code| - 1].op.RET?)
  }

  // What a round of the allocator spills: free vregs, to slots below those in use.
  ghost predicate SpillsOf(k: Setting, s: Spills, w: World, widths: map<nat, nat>, start: nat, end: int) {
    && s.registers == k.registers && s.blocks == k.blocks && s.homes == Homes(k) && s.ins == k.ins && s.outs == k.outs && s.rbp == w.rbp
    && (forall x :: x in s.spilled ==> x !in k.fixedVregs && x in widths && widths[x] > 0)
    && SlotsOk(s.spilled, widths, s.slot, start, end) && SpilledOk(s)
    && FrameAbove(k.blocks, w.rbp, start) && BlocksEnd(k.blocks)
  }

  // All that spilling asks for follows.
  lemma SpillsAreSpillable(k: Setting, s: Spills, w: World, widths: map<nat, nat>, start: nat, end: int)
    requires SpillsOf(k, s, w, widths, start, end) && Lowered(k, w) && Solves(k.blocks, k.ins, k.outs)
    ensures Spillable(s, w)
  {
    hide SlotsOk, SpilledOk, FrameAbove, Solves, OffSlots, EndsWithJump;
    forall p | IsPoint(s.blocks, p) ensures SpillableAt(s, p) {
      assert LoweredAt(k, w, p);
      NewSlotsAreFree(s, widths, start, end, p);
      if p.idx == |s.blocks[p.block].instrs| - 1 { JumpsTouchNothing(s.blocks[p.block].instrs); }
    }
  }

  lemma JumpsTouchNothing(code: seq<Instr>)
    requires EndsWithJump(code)
    ensures Use(code[|code| - 1]) == {} && Wrt(code[|code| - 1]) == {}
  {
  }

  lemma RoundEnds(s: Spills)
    requires BlocksEnd(s.blocks)
    ensures BlocksEnd(Inserted(s))
  {
    hide Loads, Stores, Expand;
    forall b | 0 <= b < |s.blocks| && Inserted(s)[b].instrs != [] ensures EndsWithJump(Inserted(s)[b].instrs) {
      SameBlocks(s, b);
      var n := |s.blocks[b].instrs| - 1;
      assert EndsWithJump(s.blocks[b].instrs);
      JumpsTouchNothing(s.blocks[b].instrs);
      NothingToLoad(s, Point(b, n), s.spilled);
      ExpandAt(s, b, n);
    }
  }

  // ----- The allocator -----

  // Loads and stores mention no vreg that was not mentioned before.
  lemma InsertedMentions(s: Spills, x: nat)
    requires forall y :: y in s.spilled ==> IsMentioned(s.blocks, y)
    ensures IsMentioned(Inserted(s), x) <==> IsMentioned(s.blocks, x)
  {
    hide Expand, Loads, Stores, Shifted;
    if p :| IsPoint(s.blocks, p) && Mentions(InstrAt(s.blocks, p), x) {
      var p' := ShiftedPoint(s, p);
      assert Mentions(InstrAt(Inserted(s), p'), x);
    }
    if p :| IsPoint(Inserted(s), p) && Mentions(InstrAt(Inserted(s), p), x) {
      var idx := Locate(s, p.block, p.idx, |s.blocks[p.block].instrs|);
      CodeAt(s, p.block, idx, p.idx);
      if p.idx == Shifted(s, p.block, idx) {
        assert IsPoint(s.blocks, Point(p.block, idx)) && Mentions(InstrAt(s.blocks, Point(p.block, idx)), x);
      } else {
        assert x in s.spilled;
      }
    }
  }

  // Two rounds of the allocator, the second on what the first left, follow each other.
  lemma RoundFollows(k: Setting, s: Spills, k': Setting, table: VregTable)
    requires RoundOf(k, table) && RoundOf(k', table) && k'.registers == k.registers && k'.blocks == Inserted(s)
    requires s.registers == k.registers && s.blocks == k.blocks && s.homes == Homes(k) && s.ins == k.ins && s.outs == k.outs
    requires forall x :: x in s.spilled ==> x !in k.fixedVregs && IsMentioned(k.blocks, x)
    ensures NextRound(k, s, k')
  {
    hide Inserted, Solves, Live, IsMentioned;
    forall x ensures x in Homes(k) <==> x in Homes(k') { InsertedMentions(s, x); }
    forall x | x in Homes(k) ensures Homes(k)[x] == Homes(k')[x] {
      assert x in Homes(k');
      assert {k.colors[x]} == table.domains[x] == {k'.colors[x]};
      assert k.colors[x] in {k'.colors[x]};
    }
  }

  ghost predicate Chain(settings: seq<Setting>, rounds: seq<Spills>) {
    && |settings| == |rounds| + 1
    && forall j :: 0 <= j < |rounds| ==> NextRound(settings[j], rounds[j], settings[j + 1])
  }

  // In the code that is coloured calls and returns find their registers held.
  ghost predicate CallsAllKeep(k: Setting, w: World) {
    forall p :: IsPoint(k.blocks, p) ==> CallsKeep(k, w, p)
  }

  // The code in blocks ends exactly as the code of k did, for every start,
  // result and memory, whatever calls leave in the registers they may destroy.
  ghost predicate SameMeaning(k: Setting, w: World, blocks: seq<Block>) {
    forall junk: Junk, junk': Junk, s: State, v: Ast.Word, mem: map<int, Ast.Word> :: Full(k.registers, s) ==>
      (Ends(k.registers, k.blocks, w, Homes(k), junk, s, v, mem) <==> Ends(k.registers, blocks, w, map[], junk', s, v, mem))
  }

  // Rounds until nothing is spilled, limit rounds at most after the first. If it
  // finishes, the frame is built for the code, and the code has the meaning it
  // had if it was lowered code and calls and returns find their registers held.
  method AllocateRounds(f: MachineFunction, registers: seq<Register>, w: World, widths: map<nat, nat>, offset0: nat, limit: nat)
    returns (finished: bool, offset: int, ghost settings: seq<Setting>, ghost rounds: seq<Spills>)
    requires TableFits(registers, f.table) && offset0 < 0x4000_0000
    requires forall x :: IsMentioned(f.blocks, x) ==> x in f.table.domains && x in widths && widths[x] > 0
    requires FrameAbove(f.blocks, w.rbp, offset0) && BlocksEnd(f.blocks)
    modifies f`blocks, f`prologue, f`epilogue
    ensures Chain(settings, rounds) && settings[0].blocks == old(f.blocks) && settings[0].registers == registers
    ensures RoundOf(settings[0], f.table)
    ensures Lowered(settings[0], w) ==> RoundsOk(settings, rounds, w) && Lowered(settings[|rounds|], w)
    ensures finished ==>
      && SafeColors(settings[|rounds|]) && f.blocks == DropAll(Recolor(settings[|rounds|].blocks, settings[|rounds|].colors))
      && offset0 <= offset && exists saved :: FrameFor(settings[|rounds|], w, offset, saved, f.prologue, f.epilogue)
    ensures finished && Lowered(settings[0], w) && CallsAllKeep(settings[|rounds|], w) ==> SameMeaning(settings[0], w, f.blocks)
    decreases limit
  {
    hide TableFits, SafeColors, FrameFor, RoundOf, NextRound, IsMentioned, SlotsOk, SpilledOk, Inserted, Recolor, DropAll, Lowered, Spillable, CallsAllKeep,
      SameMeaning, FrameAbove, BlocksEnd;
    ghost var k, spills;
    Mentioning(f.blocks);
    finished, offset, k, spills := AllocateRound(f, registers, w, widths, offset0);
    settings, rounds := [k], [];
    if !finished && limit > 0 && offset < 0x4000_0000 {
      ghost var more, others;
      ghost var end := offset;
      Offsets(spills, widths, offset0, offset);
      RoundFrame(spills, widths, offset0, offset);
      RoundEnds(spills);
      forall x | IsMentioned(f.blocks, x) ensures x in f.table.domains && x in widths && widths[x] > 0 { InsertedMentions(spills, x); }
      finished, offset, more, others := AllocateRounds(f, registers, w, widths, offset, limit - 1);
      RoundFollows(k, spills, more[0], f.table);
      settings, rounds := [k] + more, [spills] + others;
      if Lowered(k, w) {
        RoundSolved(k, f.table);
        SpillsAreSpillable(k, spills, w, widths, offset0, end);
        LoweredRound(k, spills, more[0], w);
        EarlierRound(k, spills, more, others, w);
      }
    }
    if finished && Lowered(settings[0], w) && CallsAllKeep(settings[|rounds|], w) {
      RoundsMean(settings, rounds, w);
    }
  }

  lemma RoundSolved(k: Setting, table: VregTable)
    requires RoundOf(k, table)
    ensures Solves(k.blocks, k.ins, k.outs)
  {
  }

  lemma EarlierRound(k: Setting, s: Spills, settings: seq<Setting>, rounds: seq<Spills>, w: World)
    requires RoundsOk(settings, rounds, w) && NextRound(k, s, settings[0]) && Spillable(s, w)
    ensures RoundsOk([k] + settings, [s] + rounds, w)
  {
    hide NextRound, Spillable;
    var all, spills := [k] + settings, [s] + rounds;
    forall j | 0 <= j < |spills| ensures RoundAt(all, spills, w, j) {
      if j > 0 { assert RoundAt(settings, rounds, w, j - 1); }
    }
  }

  lemma Mentioning(blocks: seq<Block>)
    ensures forall p, x :: IsPoint(blocks, p) && Mentions(InstrAt(blocks, p), x) ==> IsMentioned(blocks, x)
  {
  }

  lemma Offsets(s: Spills, widths: map<nat, nat>, start: int, end: int)
    requires SlotsOk(s.spilled, widths, s.slot, start, end)
    ensures start <= end
  {
  }

  lemma RoundsMean(settings: seq<Setting>, rounds: seq<Spills>, w: World)
    requires RoundsOk(settings, rounds, w) && SafeColors(settings[|rounds|])
    requires Lowered(settings[|rounds|], w) && CallsAllKeep(settings[|rounds|], w)
    ensures SameMeaning(settings[0], w, DropAll(Recolor(settings[|rounds|].blocks, settings[|rounds|].colors)))
  {
    hide SafeColors, RoundAt, Recolor, DropAll, Lowered, Full, Ends, CallsKeep;
    forall junk: Junk, junk': Junk, s: State, v: Ast.Word, mem: map<int, Ast.Word> | Full(settings[0].registers, s)
      ensures Ends(settings[0].registers, settings[0].blocks, w, Homes(settings[0]), junk, s, v, mem)
         <==> Ends(settings[0].registers, DropAll(Recolor(settings[|rounds|].blocks, settings[|rounds|].colors)), w, map[], junk', s, v, mem)
    {
      RoundsExact(settings, rounds, w, junk, junk', s, v, mem);
    }
  }
}
