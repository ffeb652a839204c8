// Spilled vregs live in the frame: stores after writes and loads before reads,
// left out where the value is still in the vreg or about to be overwritten.
module Spilling {
  import opened Liveness
  import opened Machine
  import opened Ordered

  // spilled: the spilled vregs in increasing order; slot: where each lives, relative to RBP.
  datatype Spills = Spills(
    registers: seq<Register>,
    blocks: seq<Block>,
    homes: map<nat, nat>,
    spilled: seq<nat>,
    slot: map<nat, int>,
    rbp: nat,
    ins: Sets,
    outs: Sets)

  // ----- Where loads and stores go -----

  predicate Touches(i: Instr, x: nat) { x in Use(i) || x in Wrt(i) }

  ghost predicate Reaches(blocks: seq<Block>, q: Point, p: Point) {
    IsPoint(blocks, q) && p in Next(blocks, q)
  }

  // p reads x, and x may not be in the vreg: nothing runs before p, or something
  // that does not touch x does.
  ghost predicate NeedsLoad(blocks: seq<Block>, p: Point, x: nat) {
    && IsPoint(blocks, p) && x in Use(InstrAt(blocks, p))
    && ((forall q :: !Reaches(blocks, q, p)) || exists q :: Reaches(blocks, q, p) && !Touches(InstrAt(blocks, q), x))
  }

  // p writes x, and not all that runs next overwrites it.
  ghost predicate NeedsStore(blocks: seq<Block>, p: Point, x: nat) {
    && IsPoint(blocks, p) && x in Wrt(InstrAt(blocks, p))
    && (Next(blocks, p) == {} || exists q :: Reaches(blocks, p, q) && IsPoint(blocks, q) && x !in Wrt(InstrAt(blocks, q)))
  }

  function LoadOf(k: Spills, x: nat): Instr {
    Instr(MOV, Vreg(x), Mem(k.rbp, if x in k.slot then k.slot[x] else 0))
  }

  function StoreOf(k: Spills, x: nat): Instr {
    Instr(MOV, Mem(k.rbp, if x in k.slot then k.slot[x] else 0), Vreg(x))
  }

  ghost function Loads(k: Spills, p: Point, xs: seq<nat>): seq<Instr> {
    if xs == [] then []
    else
      var n := |xs| - 1;
      Loads(k, p, xs[..n]) + if NeedsLoad(k.blocks, p, xs[n]) then [LoadOf(k, xs[n])] else []
  }

  ghost function Stores(k: Spills, p: Point, xs: seq<nat>): seq<Instr> {
    if xs == [] then []
    else
      var n := |xs| - 1;
      Stores(k, p, xs[..n]) + if NeedsStore(k.blocks, p, xs[n]) then [StoreOf(k, xs[n])] else []
  }

  // The first n instructions of block b with their loads and stores.
  ghost function Expand(k: Spills, b: nat, n: nat): seq<Instr>
    requires b < |k.blocks| && n <= |k.blocks[b].instrs|
  {
    if n == 0 then []
    else
      var p := Point(b, n - 1);
      Expand(k, b, n - 1) + Loads(k, p, k.spilled) + [k.blocks[b].instrs[n - 1]] + Stores(k, p, k.spilled)
  }

  ghost function Inserted(k: Spills): seq<Block> {
    seq(|k.blocks|, b requires 0 <= b < |k.blocks| => k.blocks[b].(instrs := Expand(k, b, |k.blocks[b].instrs|)))
  }

  // ----- What is inserted where -----

  ghost function LoadsOf(k: Spills, xs: seq<nat>): seq<Instr> {
    seq(|xs|, n requires 0 <= n < |xs| => LoadOf(k, xs[n]))
  }

  ghost function StoresOf(k: Spills, xs: seq<nat>): seq<Instr> {
    seq(|xs|, n requires 0 <= n < |xs| => StoreOf(k, xs[n]))
  }

  // Something runs before p, and all that may run just before p reads or writes x.
  ghost predicate InVreg(blocks: seq<Block>, p: Point, x: nat) {
    && (exists q :: Reaches(blocks, q, p))
    && forall q :: Reaches(blocks, q, p) ==> x in Use(InstrAt(blocks, q)) || x in Wrt(InstrAt(blocks, q))
  }

  // Something runs after p, and all that may run next writes x.
  ghost predicate Rewritten(blocks: seq<Block>, p: Point, x: nat) {
    && (exists q :: Reaches(blocks, p, q))
    && forall q :: Reaches(blocks, p, q) && IsPoint(blocks, q) ==> x in Wrt(InstrAt(blocks, q))
  }

  ghost predicate AreLoaded(blocks: seq<Block>, p: Point, xs: seq<nat>, loaded: seq<nat>)
    requires IsPoint(blocks, p)
  {
    Increasing(loaded) && forall x :: x in loaded <==> x in xs && x in Use(InstrAt(blocks, p)) && !InVreg(blocks, p, x)
  }

  ghost predicate AreStored(blocks: seq<Block>, p: Point, xs: seq<nat>, stored: seq<nat>)
    requires IsPoint(blocks, p)
  {
    Increasing(stored) && forall x :: x in stored <==> x in xs && x in Wrt(InstrAt(blocks, p)) && !Rewritten(blocks, p, x)
  }

  lemma NeededUnless(blocks: seq<Block>, p: Point, x: nat)
    requires IsPoint(blocks, p)
    ensures NeedsLoad(blocks, p, x) <==> x in Use(InstrAt(blocks, p)) && !InVreg(blocks, p, x)
    ensures NeedsStore(blocks, p, x) <==> x in Wrt(InstrAt(blocks, p)) && !Rewritten(blocks, p, x)
  {
    hide Use, Wrt, Next;
    if Next(blocks, p) != {} {
      var q :| q in Next(blocks, p);
      assert Reaches(blocks, p, q);
    }
  }

  // A stretch of code that is one instruction with its loads and stores.
  ghost predicate IsGroup(k: Spills, p: Point, group: seq<Instr>)
    requires IsPoint(k.blocks, p)
  {
    exists loaded, stored ::
      && AreLoaded(k.blocks, p, k.spilled, loaded) && AreStored(k.blocks, p, k.spilled, stored)
      && group == LoadsOf(k, loaded) + [InstrAt(k.blocks, p)] + StoresOf(k, stored)
  }

  // Code is the groups of a block's instructions one after the other; starts
  // says where each begins.
  ghost predicate IsGrouped(k: Spills, b: nat, code: seq<Instr>, starts: seq<nat>)
    requires b < |k.blocks|
  {
    && |starts| == |k.blocks[b].instrs| + 1 && starts[0] == 0 && starts[|starts| - 1] == |code|
    && forall n: nat :: n < |k.blocks[b].instrs| ==> IsGroupAt(k, b, code, starts, n)
  }

  ghost predicate IsGroupAt(k: Spills, b: nat, code: seq<Instr>, starts: seq<nat>, n: nat)
    requires IsPoint(k.blocks, Point(b, n)) && n + 1 < |starts|
  {
    starts[n] <= starts[n + 1] <= |code| && IsGroup(k, Point(b, n), code[starts[n]..starts[n + 1]])
  }

  ghost predicate Grouped(k: Spills, b: nat, code: seq<Instr>)
    requires b < |k.blocks|
  {
    exists starts :: IsGrouped(k, b, code, starts)
  }

  lemma {:induction false} LoadsAre(k: Spills, p: Point, xs: seq<nat>) returns (loaded: seq<nat>)
    requires IsPoint(k.blocks, p) && Increasing(xs)
    ensures AreLoaded(k.blocks, p, xs, loaded) && Loads(k, p, xs) == LoadsOf(k, loaded)
  {
    hide Use, Wrt, NeedsLoad, InVreg;
    loaded := [];
    if xs != [] {
      var n := |xs| - 1;
      var x := xs[n];
      var before := LoadsAre(k, p, xs[..n]);
      assert forall y :: y in xs <==> y in xs[..n] || y == x;
      assert forall y :: y in xs[..n] ==> y < x;
      assert forall i :: 0 <= i < |before| ==> before[i] in before;
      NeededUnless(k.blocks, p, x);
      loaded := before + if NeedsLoad(k.blocks, p, x) then [x] else [];
      assert LoadsOf(k, loaded) == LoadsOf(k, before) + if NeedsLoad(k.blocks, p, x) then [LoadOf(k, x)] else [];
    }
  }

  lemma {:induction false} StoresAre(k: Spills, p: Point, xs: seq<nat>) returns (stored: seq<nat>)
    requires IsPoint(k.blocks, p) && Increasing(xs)
    ensures AreStored(k.blocks, p, xs, stored) && Stores(k, p, xs) == StoresOf(k, stored)
  {
    hide Use, Wrt, NeedsStore, Rewritten;
    stored := [];
    if xs != [] {
      var n := |xs| - 1;
      var x := xs[n];
      var before := StoresAre(k, p, xs[..n]);
      assert forall y :: y in xs <==> y in xs[..n] || y == x;
      assert forall y :: y in xs[..n] ==> y < x;
      assert forall i :: 0 <= i < |before| ==> before[i] in before;
      NeededUnless(k.blocks, p, x);
      stored := before + if NeedsStore(k.blocks, p, x) then [x] else [];
      assert StoresOf(k, stored) == StoresOf(k, before) + if NeedsStore(k.blocks, p, x) then [StoreOf(k, x)] else [];
    }
  }

  // Spilling puts exactly these loads and stores around each instruction.
  lemma {:induction false} InsertedIsGrouped(k: Spills, b: nat)
    requires b < |k.blocks| && Increasing(k.spilled)
    ensures Grouped(k, b, Inserted(k)[b].instrs)
  {
    hide IsGroup, Increasing, Expand;
    var n := |k.blocks[b].instrs|;
    var code := Expand(k, b, n);
    var starts := seq(n + 1, m requires 0 <= m <= n => |Expand(k, b, m)|);
    assert starts[0] == 0 by { NothingExpanded(k, b); }
    forall m: nat | m < n ensures IsGroupAt(k, b, code, starts, m) {
      GroupAt(k, b, m);
    }
    assert IsGrouped(k, b, code, starts);
  }

  lemma NothingExpanded(k: Spills, b: nat)
    requires b < |k.blocks|
    ensures Expand(k, b, 0) == []
  {
  }

  lemma GroupAt(k: Spills, b: nat, m: nat)
    requires b < |k.blocks| && m < |k.blocks[b].instrs| && Increasing(k.spilled)
    ensures var code, lo, hi := Expand(k, b, |k.blocks[b].instrs|), |Expand(k, b, m)|, |Expand(k, b, m + 1)|;
      lo <= hi <= |code| && IsGroup(k, Point(b, m), code[lo..hi])
  {
    hide Loads, Stores, LoadsOf, StoresOf, AreLoaded, AreStored, Increasing;
    var p := Point(b, m);
    var loaded := LoadsAre(k, p, k.spilled);
    var stored := StoresAre(k, p, k.spilled);
    var lo, hi := Expand(k, b, m), Expand(k, b, m + 1);
    assert hi == lo + (LoadsOf(k, loaded) + [InstrAt(k.blocks, p)] + StoresOf(k, stored));
    ExpandPrefix(k, b, m + 1, |k.blocks[b].instrs|);
    var code := Expand(k, b, |k.blocks[b].instrs|);
    assert code[|lo|..|hi|] == hi[|lo|..];
  }

  lemma {:induction false} ExpandPrefix(k: Spills, b: nat, m: nat, n: nat)
    requires b < |k.blocks| && m <= n <= |k.blocks[b].instrs|
    ensures Expand(k, b, m) <= Expand(k, b, n)
    decreases n
  {
    hide Loads, Stores;
    if m < n { ExpandPrefix(k, b, m, n - 1); }
  }

  ghost predicate IsSplit(group: seq<Instr>, before: seq<Instr>, i: Instr, after: seq<Instr>) {
    group == before + [i] + after
  }

  // After i there is no load or store of x.
  ghost predicate NothingBehind(k: Spills, x: nat, group: seq<Instr>, i: Instr) {
    exists before, after :: IsSplit(group, before, i, after) && LoadOf(k, x) !in after && StoreOf(k, x) !in after
  }

  ghost predicate NothingInFront(k: Spills, x: nat, group: seq<Instr>, i: Instr) {
    exists before, after :: IsSplit(group, before, i, after) && LoadOf(k, x) !in before && StoreOf(k, x) !in before
  }

  // Nothing for x goes between two instructions in a row that write x, such as
  // MOV x, a and ADD x, b.
  lemma NothingBetweenWrites(k: Spills, b: nat, n: nat, x: nat, code: seq<Instr>, starts: seq<nat>)
    requires b < |k.blocks| && n + 1 < |k.blocks[b].instrs| && IsGrouped(k, b, code, starts)
    requires x in Wrt(k.blocks[b].instrs[n]) && x in Wrt(k.blocks[b].instrs[n + 1])
    ensures starts[n] <= starts[n + 1] <= starts[n + 2] <= |code|
    ensures NothingBehind(k, x, code[starts[n]..starts[n + 1]], k.blocks[b].instrs[n])
    ensures NothingInFront(k, x, code[starts[n + 1]..starts[n + 2]], k.blocks[b].instrs[n + 1])
  {
    hide Use, Wrt, IsGroup, NothingBehind, NothingInFront;
    assert IsGroupAt(k, b, code, starts, n) && IsGroupAt(k, b, code, starts, n + 1);
    var p, q := Point(b, n), Point(b, n + 1);
    RewrittenNext(k.blocks, b, n, x);
    NoStoreBehind(k, p, code[starts[n]..starts[n + 1]], x);
    NoLoadInFront(k, q, code[starts[n + 1]..starts[n + 2]], x);
  }

  lemma RewrittenNext(blocks: seq<Block>, b: nat, n: nat, x: nat)
    requires b < |blocks| && n + 1 < |blocks[b].instrs|
    requires x in Wrt(blocks[b].instrs[n]) && x in Wrt(blocks[b].instrs[n + 1])
    ensures Rewritten(blocks, Point(b, n), x) && InVreg(blocks, Point(b, n + 1), x)
  {
    hide Use, Wrt;
    assert Reaches(blocks, Point(b, n), Point(b, n + 1));
  }

  lemma NoStoreBehind(k: Spills, p: Point, group: seq<Instr>, x: nat)
    requires IsPoint(k.blocks, p) && IsGroup(k, p, group) && Rewritten(k.blocks, p, x)
    ensures NothingBehind(k, x, group, InstrAt(k.blocks, p))
  {
    hide Use, Wrt, AreLoaded, Rewritten;
    var loaded, stored :|
      && AreLoaded(k.blocks, p, k.spilled, loaded) && AreStored(k.blocks, p, k.spilled, stored)
      && group == LoadsOf(k, loaded) + [InstrAt(k.blocks, p)] + StoresOf(k, stored);
    assert forall n :: 0 <= n < |stored| ==> stored[n] in stored;
    assert IsSplit(group, LoadsOf(k, loaded), InstrAt(k.blocks, p), StoresOf(k, stored));
  }

  lemma NoLoadInFront(k: Spills, p: Point, group: seq<Instr>, x: nat)
    requires IsPoint(k.blocks, p) && IsGroup(k, p, group) && InVreg(k.blocks, p, x)
    ensures NothingInFront(k, x, group, InstrAt(k.blocks, p))
  {
    hide Use, Wrt, AreStored, InVreg;
    var loaded, stored :|
      && AreLoaded(k.blocks, p, k.spilled, loaded) && AreStored(k.blocks, p, k.spilled, stored)
      && group == LoadsOf(k, loaded) + [InstrAt(k.blocks, p)] + StoresOf(k, stored);
    assert forall n :: 0 <= n < |loaded| ==> loaded[n] in loaded;
    assert IsSplit(group, LoadsOf(k, loaded), InstrAt(k.blocks, p), StoresOf(k, stored));
  }

  // ----- The insertion -----

  method Predecessors(blocks: seq<Block>, order: seq<Point>, next: map<Point, set<Point>>) returns (prev: map<Point, set<Point>>)
    requires order == Layout(blocks)
    requires forall p :: p in next <==> IsPoint(blocks, p)
    requires forall p :: p in next ==> next[p] == Next(blocks, p)
    ensures forall p :: p in prev <==> IsPoint(blocks, p)
    ensures forall p, q :: p in prev ==> (q in prev[p] <==> Reaches(blocks, q, p))
  {
    hide Layout, Next;
    LayoutIsAllPoints(blocks);
    prev := map p | p in next :: {};
    var k := 0;
    while k < |order|
      invariant k <= |order| && prev.Keys == next.Keys
      invariant forall p, q :: p in prev ==> (q in prev[p] <==> Reaches(blocks, q, p) && q in order[..k])
    {
      var i := order[k];
      NextArePoints(blocks, i);
      ghost var before := prev;
      prev := AddTo(prev, next[i], i);
      assert order[..k + 1] == order[..k] + [i];
      k := k + 1;
    }
    assert order[..k] == order;
  }

  method AddTo(prev0: map<Point, set<Point>>, targets: set<Point>, i: Point) returns (prev: map<Point, set<Point>>)
    requires targets <= prev0.Keys
    ensures prev.Keys == prev0.Keys
    ensures forall p, q :: p in prev ==> (q in prev[p] <==> (q in prev0[p] || (q == i && p in targets)))
  {
    prev := prev0;
    var rest := targets;
    while rest != {}
      invariant rest <= targets && prev.Keys == prev0.Keys
      invariant forall p, q :: p in prev ==> (q in prev[p] <==> (q in prev0[p] || (q == i && p in targets - rest)))
      decreases rest
    {
      var j :| j in rest;
      prev := prev[j := prev[j] + {i}];
      rest := rest - {j};
    }
  }

  method LoadNeeded(blocks: seq<Block>, prev: map<Point, set<Point>>, p: Point, x: nat) returns (needed: bool)
    requires IsPoint(blocks, p) && p in prev && forall q :: q in prev[p] <==> Reaches(blocks, q, p)
    ensures needed == NeedsLoad(blocks, p, x)
  {
    hide Use, Wrt, Next;
    if x !in Use(InstrAt(blocks, p)) {
      return false;
    }
    if prev[p] == {} {
      return true;
    }
    assert exists q :: q in prev[p];
    var rest, loaded := prev[p], true;
    while rest != {} && loaded
      invariant rest <= prev[p]
      invariant loaded ==> forall q :: q in prev[p] && q !in rest ==> Touches(InstrAt(blocks, q), x)
      invariant !loaded ==> exists q :: Reaches(blocks, q, p) && !Touches(InstrAt(blocks, q), x)
      decreases rest
    {
      var q :| q in rest;
      rest := rest - {q};
      assert Reaches(blocks, q, p);
      loaded := Touches(InstrAt(blocks, q), x);
    }
    needed := !loaded;
  }

  method StoreNeeded(blocks: seq<Block>, next: map<Point, set<Point>>, p: Point, x: nat) returns (needed: bool)
    requires IsPoint(blocks, p) && p in next && next[p] == Next(blocks, p)
    ensures needed == NeedsStore(blocks, p, x)
  {
    hide Use, Wrt;
    if x !in Wrt(InstrAt(blocks, p)) {
      return false;
    }
    if next[p] == {} {
      return true;
    }
    NextArePoints(blocks, p);
    assert exists q :: q in next[p];
    var rest, rewritten := next[p], true;
    while rest != {} && rewritten
      invariant rest <= next[p]
      invariant rewritten ==> forall q :: q in next[p] && q !in rest ==> x in Wrt(InstrAt(blocks, q))
      invariant !rewritten ==> exists q :: Reaches(blocks, p, q) && IsPoint(blocks, q) && x !in Wrt(InstrAt(blocks, q))
      decreases rest
    {
      var q :| q in rest;
      rest := rest - {q};
      assert Reaches(blocks, p, q);
      rewritten := x in Wrt(InstrAt(blocks, q));
    }
    needed := !rewritten;
  }

  method InsertSpills(k: Spills, order: seq<Point>, next: map<Point, set<Point>>) returns (out: seq<Block>)
    requires order == Layout(k.blocks)
    requires forall p :: p in next <==> IsPoint(k.blocks, p)
    requires forall p :: p in next ==> next[p] == Next(k.blocks, p)
    ensures out == Inserted(k)
    ensures |out| == |k.blocks| && forall b: nat :: b < |out| ==> out[b].preds == k.blocks[b].preds
    ensures Increasing(k.spilled) ==> forall b: nat :: b < |out| ==> Grouped(k, b, out[b].instrs)
  {
    hide Use, Wrt, Next, Layout, NeedsLoad, NeedsStore, Reaches, Grouped, Increasing;
    var prev := Predecessors(k.blocks, order, next);
    out := [];
    var b := 0;
    while b < |k.blocks|
      invariant b <= |k.blocks| == |Inserted(k)|
      invariant out == Inserted(k)[..b]
    {
      var code: seq<Instr>, n := [], 0;
      while n < |k.blocks[b].instrs|
        invariant n <= |k.blocks[b].instrs|
        invariant code == Expand(k, b, n)
      {
        var p := Point(b, n);
        var loads := LoadsBefore(k, prev, p);
        var stores := StoresAfter(k, next, p);
        code := code + loads + [k.blocks[b].instrs[n]] + stores;
        n := n + 1;
      }
      out := out + [k.blocks[b].(instrs := code)];
      b := b + 1;
    }
    if Increasing(k.spilled) {
      forall b: nat | b < |out| ensures Grouped(k, b, out[b].instrs) { InsertedIsGrouped(k, b); }
    }
  }

  method LoadsBefore(k: Spills, prev: map<Point, set<Point>>, p: Point) returns (loads: seq<Instr>)
    requires IsPoint(k.blocks, p) && p in prev && forall q :: q in prev[p] <==> Reaches(k.blocks, q, p)
    ensures loads == Loads(k, p, k.spilled)
  {
    loads := [];
    var n := 0;
    while n < |k.spilled|
      invariant n <= |k.spilled|
      invariant loads == Loads(k, p, k.spilled[..n])
    {
      var needed := LoadNeeded(k.blocks, prev, p, k.spilled[n]);
      assert k.spilled[..n + 1][..n] == k.spilled[..n];
      if needed {
        loads := loads + [LoadOf(k, k.spilled[n])];
      }
      n := n + 1;
    }
    assert k.spilled[..n] == k.spilled;
  }

  method StoresAfter(k: Spills, next: map<Point, set<Point>>, p: Point) returns (stores: seq<Instr>)
    requires IsPoint(k.blocks, p) && p in next && next[p] == Next(k.blocks, p)
    ensures stores == Stores(k, p, k.spilled)
  {
    stores := [];
    var n := 0;
    while n < |k.spilled|
      invariant n <= |k.spilled|
      invariant stores == Stores(k, p, k.spilled[..n])
    {
      var needed := StoreNeeded(k.blocks, next, p, k.spilled[n]);
      assert k.spilled[..n + 1][..n] == k.spilled[..n];
      if needed {
        stores := stores + [StoreOf(k, k.spilled[n])];
      }
      n := n + 1;
    }
    assert k.spilled[..n] == k.spilled;
  }

  // ----- Slots -----

  // Slots are below -start and above -end, and do not overlap.
  ghost predicate SlotsOk(spilled: seq<nat>, widths: map<nat, nat>, slot: map<nat, int>, start: int, end: int) {
    && start <= end
    && (forall x :: x in spilled ==> x in slot && x in widths && -end <= slot[x] && slot[x] + widths[x] <= -start)
    && forall x, y :: x in spilled && y in spilled && x != y && x in slot && y in slot && x in widths && y in widths ==>
        slot[x] + widths[x] <= slot[y] || slot[y] + widths[y] <= slot[x]
  }

  function TotalWidth(spilled: seq<nat>, widths: map<nat, nat>): nat {
    if spilled == [] then 0
    else
      var n := |spilled| - 1;
      TotalWidth(spilled[..n], widths) + if spilled[n] in widths then widths[spilled[n]] else 0
  }

  method AssignSlots(spilled: seq<nat>, widths: map<nat, nat>, start: int) returns (slot: map<nat, int>, offset: int)
    requires Increasing(spilled) && forall x :: x in spilled ==> x in widths && widths[x] > 0
    ensures SlotsOk(spilled, widths, slot, start, offset) && offset == start + TotalWidth(spilled, widths)
    ensures forall n :: 0 <= n < |spilled| ==> spilled[n] in slot && slot[spilled[n]] == 0 - start - TotalWidth(spilled[..n + 1], widths)
  {
    hide TotalWidth, SlotsOk;
    NoSlots(widths, start);
    slot, offset := map[], start;
    assert spilled[..0] == [];
    var n := 0;
    while n < |spilled|
      invariant n <= |spilled|
      invariant forall x :: x in slot ==> x in spilled[..n]
      invariant SlotsOk(spilled[..n], widths, slot, start, offset) && offset == start + TotalWidth(spilled[..n], widths)
      invariant forall m :: 0 <= m < n ==> spilled[m] in slot && slot[spilled[m]] == 0 - start - TotalWidth(spilled[..m + 1], widths)
    {
      var x := spilled[n];
      OneMoreSlot(spilled, n, widths, slot, start, offset);
      assert spilled[..n + 1] == spilled[..n] + [x];
      offset := offset + widths[x];
      slot := slot[x := -offset];
      n := n + 1;
    }
    assert spilled[..n] == spilled;
  }

  lemma NoSlots(widths: map<nat, nat>, start: int)
    ensures SlotsOk([], widths, map[], start, start) && TotalWidth([], widths) == 0
  {
  }

  lemma OneMoreSlot(spilled: seq<nat>, n: nat, widths: map<nat, nat>, slot: map<nat, int>, start: int, offset: int)
    requires Increasing(spilled) && n < |spilled| && spilled[n] in widths && widths[spilled[n]] > 0
    requires (forall x :: x in slot ==> x in spilled[..n]) && SlotsOk(spilled[..n], widths, slot, start, offset)
    ensures var x, more := spilled[n], offset + widths[spilled[n]]; SlotsOk(spilled[..n + 1], widths, slot[x := -more], start, more)
    ensures TotalWidth(spilled[..n + 1], widths) == TotalWidth(spilled[..n], widths) + widths[spilled[n]]
  {
    assert spilled[n] !in spilled[..n];
    assert spilled[..n + 1] == spilled[..n] + [spilled[n]];
    assert spilled[..n + 1][..n] == spilled[..n];
  }
}
