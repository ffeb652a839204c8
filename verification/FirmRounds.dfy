// Rounds that leave calls and returns their registers whatever the colours are.
module FirmRounds {
  import opened Allocation
  import opened Liveness
  import opened Machine
  import opened MachineRun
  import opened Rounds
  import opened Spilling
  import opened SpillingCorrect

  // Any free vreg is written.
  ghost predicate WritesFree(k: Setting, i: Instr) {
    exists x :: x in Wrt(i) && x !in k.fixedVregs
  }

  // Register r was given its value above in the block, with no free vreg
  // written and no call made in between: held in any colouring.
  ghost predicate Firm(k: Setting, b: nat, idx: nat, r: nat)
    requires b < |k.blocks| && idx <= |k.blocks[b].instrs|
    decreases idx
  {
    idx > 0 &&
    var i := k.blocks[b].instrs[idx - 1];
    WritesFixed(k, i, r) || (Firm(k, b, idx - 1, r) && !WritesFree(k, i) && !i.op.CALL?)
  }

  lemma {:induction false} FirmIsHeld(k: Setting, b: nat, idx: nat, r: nat)
    requires b < |k.blocks| && idx <= |k.blocks[b].instrs| && Firm(k, b, idx, r)
    ensures Held(k, b, idx, r)
    decreases idx
  {
    hide WritesFixed, Wrt;
    if idx > 0 && Firm(k, b, idx - 1, r) { FirmIsHeld(k, b, idx - 1, r); }
  }

  ghost predicate NoLoadAt(s: Spills, p: Point) {
    forall x :: x in s.spilled ==> !NeedsLoad(s.blocks, p, x)
  }

  // No load comes between an instruction that gives register r its value and instruction idx.
  ghost predicate KeptSince(k: Setting, s: Spills, b: nat, from: nat, idx: nat, r: nat)
    requires b < |k.blocks| && idx <= |k.blocks[b].instrs|
  {
    from < idx && WritesFixed(k, k.blocks[b].instrs[from], r) && forall m: nat :: from < m <= idx ==> NoLoadAt(s, Point(b, m))
  }

  ghost predicate Kept(k: Setting, s: Spills, b: nat, idx: nat, r: nat)
    requires b < |k.blocks| && idx <= |k.blocks[b].instrs|
  {
    exists from: nat :: KeptSince(k, s, b, from, idx, r)
  }

  // ----- What is still firmly held -----

  lemma {:induction false} LoadsWhereNeeded(s: Spills, p: Point, xs: seq<nat>)
    ensures Loads(s, p, xs) == [] <==> forall x :: x in xs ==> !NeedsLoad(s.blocks, p, x)
  {
    hide NeedsLoad;
    if xs != [] {
      var n := |xs| - 1;
      LoadsWhereNeeded(s, p, xs[..n]);
      assert xs == xs[..n] + [xs[n]];
    }
  }

  lemma SameWrites(k: Setting, k': Setting, i: Instr, r: nat)
    requires Homes(k') == Homes(k)
    ensures WritesFixed(k', i, r) == WritesFixed(k, i, r)
  {
    hide Wrt;
    if f :| f in Wrt(i) && f in k.fixedVregs && f in k.colors && k.colors[f] == r {
      assert f in Homes(k') && Homes(k')[f] == r;
    }
    if f :| f in Wrt(i) && f in k'.fixedVregs && f in k'.colors && k'.colors[f] == r {
      assert f in Homes(k) && Homes(k)[f] == r;
    }
  }

  // No register is firmly held across a load put in front of an instruction.
  lemma LoadsRelease(k: Setting, spills: Spills, b: nat, idx: nat, x: nat, r: nat)
    requires IsPoint(spills.blocks, Point(b, idx)) && k.blocks == Inserted(spills)
    requires x in spills.spilled && NeedsLoad(spills.blocks, Point(b, idx), x)
    requires forall y :: y in spills.spilled ==> y !in k.fixedVregs
    ensures var pos := |Expand(spills, b, idx)| + |Loads(spills, Point(b, idx), spills.spilled)|;
      pos < |k.blocks[b].instrs| && !Firm(k, b, pos, r)
  {
    hide NeedsLoad, Loads, Expand, Firm, Stores;
    var p := Point(b, idx);
    var loads := Loads(spills, p, spills.spilled);
    ExpandAt(spills, b, idx);
    var n :| 0 <= n < |spills.spilled| && spills.spilled[n] == x;
    LoadsAreLoads(spills, p, spills.spilled, n);
    var start := |Expand(spills, b, idx)|;
    var code := k.blocks[b].instrs;
    assert code[start + |loads| - 1] == code[start..start + |loads|][|loads| - 1] == loads[|loads| - 1];
    var y :| y in spills.spilled && loads[|loads| - 1] == LoadOf(spills, y);
    NotFirmAfter(k, b, start + |loads|, y, r);
  }

  lemma {:induction false} NotFirmAfter(k: Setting, b: nat, pos: nat, x: nat, r: nat)
    requires b < |k.blocks| && 0 < pos <= |k.blocks[b].instrs| && x !in k.fixedVregs
    requires k.blocks[b].instrs[pos - 1].op.MOV? && k.blocks[b].instrs[pos - 1].dst == Vreg(x)
    ensures !Firm(k, b, pos, r)
  {
    assert x in Wrt(k.blocks[b].instrs[pos - 1]);
  }

  lemma {:induction false} LoadsAreLoads(spills: Spills, p: Point, xs: seq<nat>, n: nat)
    requires n < |xs| && NeedsLoad(spills.blocks, p, xs[n])
    ensures var loads := Loads(spills, p, xs);
      |loads| > 0 && exists y :: y in xs && loads[|loads| - 1] == LoadOf(spills, y)
  {
    hide NeedsLoad;
    var last := |xs| - 1;
    if NeedsLoad(spills.blocks, p, xs[last]) {
      assert xs[last] in xs;
    } else {
      LoadsAreLoads(spills, p, xs[..last], n);
    }
  }

  // Stores do not change what is held.
  lemma {:induction false} HeldOverStores(k: Setting, s: Spills, p: Point, pos: nat, xs: seq<nat>, r: nat)
    requires p.block < |k.blocks| && pos + |Stores(s, p, xs)| <= |k.blocks[p.block].instrs|
    requires k.blocks[p.block].instrs[pos..pos + |Stores(s, p, xs)|] == Stores(s, p, xs)
    ensures Firm(k, p.block, pos + |Stores(s, p, xs)|, r) <==> Firm(k, p.block, pos, r)
  {
    hide NeedsStore;
    if xs != [] {
      var n := |xs| - 1;
      var init, all := Stores(s, p, xs[..n]), Stores(s, p, xs);
      var code := k.blocks[p.block].instrs;
      assert init <= all;
      assert code[pos..pos + |init|] == code[pos..pos + |all|][..|init|];
      HeldOverStores(k, s, p, pos, xs[..n], r);
      if NeedsStore(s.blocks, p, xs[n]) {
        assert code[pos + |init|] == code[pos..pos + |all|][|init|] == StoreOf(s, xs[n]);
        assert Wrt(code[pos + |init|]) == {};
      }
    }
  }

  // From one instruction to the one below, in the code with loads and stores.
  lemma {:induction false} HeldBelow(k: Setting, s: Spills, k': Setting, b: nat, idx: nat, r: nat)
    requires NextRound(k, s, k') && IsPoint(k.blocks, Point(b, idx))
    ensures Shifted(s, b, idx) < |k'.blocks[b].instrs| && |Expand(s, b, idx + 1)| <= |k'.blocks[b].instrs|
    ensures var i := k.blocks[b].instrs[idx];
      Firm(k', b, |Expand(s, b, idx + 1)|, r) <==>
        WritesFixed(k, i, r) || (Firm(k', b, Shifted(s, b, idx), r) && !WritesFree(k, i) && !i.op.CALL?)
  {
    hide Loads, Stores, Expand, Solves, WritesFixed, WritesFree;
    var p := Point(b, idx);
    ExpandAt(s, b, idx);
    var at := Shifted(s, b, idx);
    HeldOverStores(k', s, p, at + 1, s.spilled, r);
    SameWrites(k, k', k.blocks[b].instrs[idx], r);
    assert WritesFree(k', k.blocks[b].instrs[idx]) == WritesFree(k, k.blocks[b].instrs[idx]) by { SameFree(k, k', k.blocks[b].instrs[idx]); }
  }

  lemma SameFree(k: Setting, k': Setting, i: Instr)
    requires k'.fixedVregs == k.fixedVregs
    ensures WritesFree(k', i) == WritesFree(k, i)
  {
    hide Wrt;
  }

  // Loads of idx, if any, leave nothing held.
  lemma {:induction false} HeldAtInstr(k: Setting, s: Spills, k': Setting, b: nat, idx: nat, r: nat)
    requires NextRound(k, s, k') && IsPoint(k.blocks, Point(b, idx))
    ensures Shifted(s, b, idx) < |k'.blocks[b].instrs|
    ensures Firm(k', b, Shifted(s, b, idx), r) <==> NoLoadAt(s, Point(b, idx)) && Firm(k', b, |Expand(s, b, idx)|, r)
  {
    hide NeedsLoad, Solves, Stores, Held, Loads, Expand;
    ExpandAt(s, b, idx);
    LoadsWhereNeeded(s, Point(b, idx), s.spilled);
    if x :| x in s.spilled && NeedsLoad(s.blocks, Point(b, idx), x) {
      LoadsRelease(k', s, b, idx, x, r);
    }
  }

  // A register held before the round is held after it exactly if no load comes
  // between an instruction that gives it its value and where it is read.
  lemma {:induction false} HeldAfterSpill(k: Setting, s: Spills, k': Setting, b: nat, idx: nat, r: nat)
    requires NextRound(k, s, k') && IsPoint(k.blocks, Point(b, idx))
    ensures Shifted(s, b, idx) < |k'.blocks[b].instrs|
    ensures Firm(k', b, Shifted(s, b, idx), r) <==> Firm(k, b, idx, r) && Kept(k, s, b, idx, r)
    decreases idx
  {
    hide Solves, NeedsLoad, Expand, Loads, Stores, WritesFixed, WritesFree, NextRound, Shifted, NoLoadAt, Kept;
    HeldAtInstr(k, s, k', b, idx, r);
    KeptStep(k, s, b, idx, r);
    if idx > 0 {
      HeldBelow(k, s, k', b, idx - 1, r);
      HeldAfterSpill(k, s, k', b, idx - 1, r);
    } else {
      NothingHeld(k, s, k', b, r);
    }
  }

  lemma {:induction false} NothingHeld(k: Setting, s: Spills, k': Setting, b: nat, r: nat)
    requires NextRound(k, s, k') && b < |k.blocks|
    ensures b < |k'.blocks| && |Expand(s, b, 0)| == 0 && !Firm(k', b, 0, r)
  {
  }

  lemma KeptStep(k: Setting, s: Spills, b: nat, idx: nat, r: nat)
    requires b < |k.blocks| && idx <= |k.blocks[b].instrs|
    ensures Kept(k, s, b, idx, r) <==>
      NoLoadAt(s, Point(b, idx)) && idx > 0 && (WritesFixed(k, k.blocks[b].instrs[idx - 1], r) || Kept(k, s, b, idx - 1, r))
  {
    hide NoLoadAt, WritesFixed;
    if from: nat :| KeptSince(k, s, b, from, idx, r) {
      assert from < idx - 1 ==> KeptSince(k, s, b, from, idx - 1, r);
    }
    if NoLoadAt(s, Point(b, idx)) && idx > 0 && WritesFixed(k, k.blocks[b].instrs[idx - 1], r) {
      assert KeptSince(k, s, b, idx - 1, idx, r);
    }
    if idx > 0 && NoLoadAt(s, Point(b, idx)) && Kept(k, s, b, idx - 1, r) {
      var from: nat :| KeptSince(k, s, b, from, idx - 1, r);
      assert KeptSince(k, s, b, from, idx, r);
    }
  }

  // ----- Calls and returns -----

  ghost predicate AllFirm(k: Setting, w: World) {
    forall p :: IsPoint(k.blocks, p) ==> FirmAt(k, w, p)
  }

  ghost predicate FirmAt(k: Setting, w: World, p: Point)
    requires IsPoint(k.blocks, p)
  {
    var i := InstrAt(k.blocks, p);
    && (i.op.CALL? && i.dst.Sym? ==> forall r :: r in w.params(i.dst.id) ==> Firm(k, p.block, p.idx, r))
    && (i.op.RET? ==> Firm(k, p.block, p.idx, w.rax))
  }

  // What calls and returns read is not given up to a load.
  ghost predicate ArgumentsKept(k: Setting, s: Spills, w: World) {
    forall p :: IsPoint(k.blocks, p) ==> KeptAt(k, s, w, p)
  }

  ghost predicate KeptAt(k: Setting, s: Spills, w: World, p: Point)
    requires IsPoint(k.blocks, p)
  {
    var i := InstrAt(k.blocks, p);
    && (i.op.CALL? && i.dst.Sym? ==> forall r :: r in w.params(i.dst.id) ==> Kept(k, s, p.block, p.idx, r))
    && (i.op.RET? ==> Kept(k, s, p.block, p.idx, w.rax))
  }

  lemma InstrFirm(k: Setting, s: Spills, k': Setting, w: World, b: nat, idx: nat)
    requires NextRound(k, s, k') && IsPoint(k.blocks, Point(b, idx)) && FirmAt(k, w, Point(b, idx))
    requires IsPoint(k'.blocks, Point(b, Shifted(s, b, idx))) && InstrAt(k'.blocks, Point(b, Shifted(s, b, idx))) == k.blocks[b].instrs[idx]
    ensures FirmAt(k', w, Point(b, Shifted(s, b, idx))) <==> KeptAt(k, s, w, Point(b, idx))
  {
    hide Loads, Stores, Expand, Use, Wrt, Next, Solves, Firm, Kept, Shifted, Inserted;
    var i := k.blocks[b].instrs[idx];
    if i.op.CALL? && i.dst.Sym? {
      forall r | r in w.params(i.dst.id) ensures Firm(k', b, Shifted(s, b, idx), r) <==> Kept(k, s, b, idx, r) {
        HeldAfterSpill(k, s, k', b, idx, r);
      }
    }
    if i.op.RET? { HeldAfterSpill(k, s, k', b, idx, w.rax); }
  }

  // Calls and returns find their registers firmly held after a round, if they
  // did before, if and only if no load comes between what gives a call or return
  // its registers and the call or return.
  lemma FirmRound(k: Setting, s: Spills, k': Setting, w: World)
    requires AllFirm(k, w) && NextRound(k, s, k')
    ensures AllFirm(k', w) <==> ArgumentsKept(k, s, w)
  {
    hide Loads, Stores, Expand, Solves, FirmAt, KeptAt, Shifted, Spillable;
    forall p | IsPoint(k.blocks, p) && AllFirm(k', w) ensures KeptAt(k, s, w, p) {
      var p' := ShiftedPoint(s, p);
      InstrFirm(k, s, k', w, p.block, p.idx);
    }
    if ArgumentsKept(k, s, w) {
      forall p | IsPoint(k'.blocks, p) ensures FirmAt(k', w, p) {
        var idx := Locate(s, p.block, p.idx, |s.blocks[p.block].instrs|);
        CodeAt(s, p.block, idx, p.idx);
        if p.idx == Shifted(s, p.block, idx) {
          InstrFirm(k, s, k', w, p.block, idx);
        } else {
          var x :| InstrAt(k'.blocks, p) == LoadOf(s, x) || InstrAt(k'.blocks, p) == StoreOf(s, x);
          SpillCodeFirm(k', s, w, p, x);
        }
      }
    }
  }

  lemma SpillCodeFirm(k': Setting, s: Spills, w: World, p: Point, x: nat)
    requires IsPoint(k'.blocks, p)
    requires InstrAt(k'.blocks, p) == LoadOf(s, x) || InstrAt(k'.blocks, p) == StoreOf(s, x)
    ensures FirmAt(k', w, p)
  {
  }

  // Rounds of that kind need nothing asked of the colours.
  lemma {:induction false} FirmRounds(settings: seq<Setting>, rounds: seq<Spills>, w: World)
    requires RoundsOk(settings, rounds, w) && AllFirm(settings[0], w)
    requires forall j :: 0 <= j < |rounds| ==> ArgumentsKept(settings[j], rounds[j], w)
    ensures CallsAllKeep(settings[|rounds|], w)
    decreases |rounds|
  {
    hide NextRound, Spillable, ArgumentsKept, AllFirm;
    if rounds == [] {
      AllFirmKeep(settings[0], w);
    } else {
      LaterRounds(settings, rounds, w);
      FirmRound(settings[0], rounds[0], settings[1], w);
      FirmRounds(settings[1..], rounds[1..], w);
    }
  }

  lemma AllFirmKeep(k: Setting, w: World)
    requires AllFirm(k, w)
    ensures CallsAllKeep(k, w)
  {
    forall p | IsPoint(k.blocks, p) ensures CallsKeep(k, w, p) {
      assert FirmAt(k, w, p);
      var i := InstrAt(k.blocks, p);
      forall r | Firm(k, p.block, p.idx, r) ensures Held(k, p.block, p.idx, r) { FirmIsHeld(k, p.block, p.idx, r); }
    }
  }
}
