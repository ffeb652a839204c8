// What the visitors do to the builder's state between lookups, and why each
// step keeps the invariant.
module SsaSteps {
  import opened Ast
  import opened IR
  import opened SsaState
  import opened SsaTrees

  // Blocks may be added and lengthened; what lookups recorded stays.
  ghost predicate Beyond(st: St, st': St) {
    && Sizes(st) && Sizes(st')
    && |st.blocks| <= |st'.blocks|
    && st'.g.entries == st.g.entries && Grows(st.g.home, st'.g.home)
    && st'.g.busy == st.g.busy && st'.incomplete == st.incomplete
    && (forall k :: k in st.lko && k.1 in st.g.closed ==> k in st'.lko && st'.lko[k] == st.lko[k])
    && (forall b :: 0 <= b < |st.blocks| ==> BlockBeyond(st, st', b))
    && (forall b :: |st.blocks| <= b < |st'.blocks| ==> st'.blocks[b].phis == [] && !st'.blocks[b].isSealed)
  }

  ghost predicate BlockBeyond(st: St, st': St, b: nat)
    requires Sizes(st) && Sizes(st')
    requires b < |st.blocks| <= |st'.blocks|
  {
    && st'.blocks[b].phis == st.blocks[b].phis
    && st'.blocks[b].isSealed == st.blocks[b].isSealed
    && st'.g.phiSyms[b] == st.g.phiSyms[b]
    && st'.g.bound[b] == st.g.bound[b]
    && (st.blocks[b].isSealed ==> st'.blocks[b].preds == st.blocks[b].preds)
  }

  lemma BeyondKeeps(st: St, st': St)
    requires Inv(st) && Beyond(st, st')
    ensures EntriesOk(st') && PhisOk(st') && IncompleteOk(st') && BusyOk(st')
  {
    forall s: Sym, b: nat | (s, b) in st'.g.entries
      ensures b < |st'.blocks| && s in st'.g.bound[b] && EntryOk(st', s, b)
    {
      assert EntryOk(st, s, b);
      assert BlockBeyond(st, st', b);
      assert PredsOkAt(st, b);
      var o := st.g.entries[(s, b)];
      if i :| 0 <= i < |st.blocks[b].phis| && PhiIs(st, b, i, s, o) {
        assert PhiIs(st', b, i, s, o);
      }
    }
    forall b, i | 0 <= b < |st'.blocks| && 0 <= i < |st'.blocks[b].phis| ensures PhiOk(st', b, i) {
      assert BlockBeyond(st, st', b);
      assert PhiOk(st, b, i);
      assert PredsOkAt(st, b);
    }
    forall b | 0 <= b < |st'.blocks| && !st'.blocks[b].isSealed ensures PendingOk(st', b) {
      if b < |st.blocks| {
        assert BlockBeyond(st, st', b);
        assert PendingOk(st, b);
      }
    }
    assert IncompleteOk(st') by {
      forall b | b in st'.incomplete ensures b < |st'.blocks| && !st'.blocks[b].isSealed {
        assert BlockBeyond(st, st', b);
      }
    }
    forall k | k in st'.g.busy ensures k.0 < |st'.blocks| && k.1 < |st'.blocks[k.0].phis| {
      assert BlockBeyond(st, st', k.0);
    }
  }

  // ----- Writing a symbol -----

  ghost function Written(st: St, b: nat, s: Sym, o: Operand): St
    requires Sizes(st) && b < |st.blocks|
  {
    st.(lko := st.lko[(s, b) := o], g := st.g.(logs := st.g.logs[b := st.g.logs[b] + [(s, o)]]))
  }

  lemma {:induction false} LoggedAppend(log: seq<(Sym, Operand)>, s: Sym, o: Operand, t: Sym)
    ensures Logged(log + [(s, o)], t) <==> Logged(log, t) || t == s
    ensures LastWrite(log + [(s, o)], t) == if t == s then o else LastWrite(log, t)
  {
    var log' := log + [(s, o)];
    assert log'[..|log|] == log && log'[|log|] == (s, o);
    if Logged(log, t) {
      var i :| 0 <= i < |log| && log[i].0 == t;
      assert log'[i].0 == t;
    }
  }

  lemma WrittenKeepsInv(st: St, b: nat, s: Sym, o: Operand)
    requires Inv(st) && b < |st.blocks| && b !in st.g.closed
    requires Settled(st.g.home, b, |st.blocks[b].instrs|, o)
    ensures Inv(Written(st, b, s, o))
    ensures BoundAtEnd(Written(st, b, s, o).g, b) == BoundAtEnd(st.g, b) + {s}
  {
    var st' := Written(st, b, s, o);
    WrittenIsBeyond(st, b, s, o);
    BeyondKeeps(st, st');
    WrittenKeepsLko(st, b, s, o);
    WrittenKeepsPreds(st, b, s, o);
    BoundAfterWrite(st, b, s, o);
  }

  lemma WrittenIsBeyond(st: St, b: nat, s: Sym, o: Operand)
    requires Sizes(st) && b < |st.blocks| && b !in st.g.closed
    ensures Beyond(st, Written(st, b, s, o))
  {
  }

  lemma WrittenKeepsPreds(st: St, b: nat, s: Sym, o: Operand)
    requires Sizes(st) && PredsOk(st) && b < |st.blocks|
    ensures Sizes(Written(st, b, s, o)) && PredsOk(Written(st, b, s, o))
  {
    var st' := Written(st, b, s, o);
    BoundAfterWrite(st, b, s, o);
    forall c | 0 <= c < |st'.blocks| ensures PredsOkAt(st', c) { assert PredsOkAt(st, c); }
  }

  lemma BoundAfterWrite(st: St, b: nat, s: Sym, o: Operand)
    requires Sizes(st) && b < |st.blocks|
    ensures BoundAtEnd(Written(st, b, s, o).g, b) == BoundAtEnd(st.g, b) + {s}
    ensures forall c :: 0 <= c < |st.blocks| && c != b ==> BoundAtEnd(Written(st, b, s, o).g, c) == BoundAtEnd(st.g, c)
  {
    var log := st.g.logs[b];
    var log' := log + [(s, o)];
    assert log'[|log|].0 == s;
    forall t | t in BoundAtEnd(st.g, b) ensures t in BoundAtEnd(Written(st, b, s, o).g, b) {
      if t !in st.g.bound[b] {
        var i :| 0 <= i < |log| && log[i].0 == t;
        assert log'[i].0 == t;
      }
    }
  }

  lemma WrittenKeepsLko(st: St, b: nat, s: Sym, o: Operand)
    requires Sizes(st) && LkoOk(st) && b < |st.blocks|
    ensures Sizes(Written(st, b, s, o)) && LkoOk(Written(st, b, s, o))
  {
    var st' := Written(st, b, s, o);
    var log := st.g.logs[b];
    assert log[..|log|] == log && (log + [(s, o)])[..|log| + 1] == log + [(s, o)];
    forall t: Sym, c: nat | c < |st'.blocks|
      ensures (t, c) in st'.lko <==> KnownAt(st'.g, t, c, |st'.g.logs[c]|)
      ensures (t, c) in st'.lko ==> st'.lko[(t, c)] == OperandAt(st'.g, t, c, |st'.g.logs[c]|)
    {
      assert (t, c) in st.lko <==> KnownAt(st.g, t, c, |st.g.logs[c]|);
      LoggedAppend(log, s, o, t);
    }
  }

  // ----- Appending an instruction -----

  ghost function Appended(st: St, b: nat, i: Instr): St
    requires Sizes(st) && b < |st.blocks|
  {
    var n := |st.blocks[b].instrs|;
    var st' := st.(blocks := st.blocks[b := st.blocks[b].(instrs := st.blocks[b].instrs + [i])]);
    if i.Arith? then st'.(nextValue := st.nextValue + 1, g := st.g.(home := st.g.home[i.result := InstrSite(b, n)]))
    else st'
  }

  lemma AppendedKeepsInv(st: St, b: nat, i: Instr)
    requires Inv(st) && b < |st.blocks|
    requires i.Arith? ==> i.result == st.nextValue
    ensures Inv(Appended(st, b, i))
    ensures forall c :: 0 <= c < |st.blocks| ==> BoundAtEnd(Appended(st, b, i).g, c) == BoundAtEnd(st.g, c)
  {
    var st' := Appended(st, b, i);
    AppendedIsBeyond(st, b, i);
    BeyondKeeps(st, st');
    AppendedKeepsHomes(st, b, i);
    AppendedKeepsLko(st, b, i);
  }

  lemma AppendedIsBeyond(st: St, b: nat, i: Instr)
    requires Sizes(st) && HomesOk(st) && b < |st.blocks|
    requires i.Arith? ==> i.result == st.nextValue
    ensures Beyond(st, Appended(st, b, i))
  {
    assert i.Arith? ==> i.result !in st.g.home;
  }

  lemma AppendedKeepsLko(st: St, b: nat, i: Instr)
    requires Sizes(st) && PredsOk(st) && LkoOk(st) && b < |st.blocks|
    ensures Sizes(Appended(st, b, i)) && PredsOk(Appended(st, b, i)) && LkoOk(Appended(st, b, i))
  {
    var st' := Appended(st, b, i);
    forall c | 0 <= c < |st'.blocks| ensures PredsOkAt(st', c) { assert PredsOkAt(st, c); }
  }

  lemma AppendedKeepsHomes(st: St, b: nat, i: Instr)
    requires Sizes(st) && HomesOk(st) && LogsOk(st) && b < |st.blocks|
    requires i.Arith? ==> i.result == st.nextValue
    ensures HomesOk(Appended(st, b, i)) && LogsOk(Appended(st, b, i))
  {
  }

  // ----- New blocks and their predecessors -----

  ghost function Closed(st: St, b: nat): St {
    st.(g := st.g.(closed := st.g.closed + {b}))
  }

  lemma ClosedKeepsInv(st: St, b: nat)
    requires Inv(st) && b < |st.blocks|
    ensures Inv(Closed(st, b))
  {
    var st' := Closed(st, b);
    BeyondKeeps(st, st');
    forall c | 0 <= c < |st'.blocks| ensures PredsOkAt(st', c) { assert PredsOkAt(st, c); }
  }

  const EMPTY_BLOCK: BasicBlock := BasicBlock([], [], [], [], false)

  ghost function WithBlock(st: St, bound: set<Sym>): St {
    st.(blocks := st.blocks + [EMPTY_BLOCK],
        g := st.g.(logs := st.g.logs + [[]], bound := st.g.bound + [bound], phiSyms := st.g.phiSyms + [[]]))
  }

  lemma WithBlockKeepsInv(st: St, bound: set<Sym>)
    requires Inv(st)
    ensures Inv(WithBlock(st, bound))
    ensures forall c :: 0 <= c < |st.blocks| ==> BoundAtEnd(WithBlock(st, bound).g, c) == BoundAtEnd(st.g, c)
  {
    var st' := WithBlock(st, bound);
    WithBlockIsBeyond(st, bound);
    BeyondKeeps(st, st');
    WithBlockKeepsLko(st, bound);
    WithBlockKeepsPreds(st, bound);
  }

  lemma WithBlockIsBeyond(st: St, bound: set<Sym>)
    requires Sizes(st)
    ensures Beyond(st, WithBlock(st, bound))
  {
  }

  lemma WithBlockKeepsPreds(st: St, bound: set<Sym>)
    requires Sizes(st) && PredsOk(st)
    ensures Sizes(WithBlock(st, bound)) && PredsOk(WithBlock(st, bound))
  {
    var st' := WithBlock(st, bound);
    forall c | 0 <= c < |st'.blocks| ensures PredsOkAt(st', c) {
      if c < |st.blocks| { assert PredsOkAt(st, c); }
    }
  }

  lemma WithBlockKeepsLko(st: St, bound: set<Sym>)
    requires Sizes(st) && LkoOk(st) && EntriesOk(st)
    ensures Sizes(WithBlock(st, bound)) && LkoOk(WithBlock(st, bound))
  {
    var st' := WithBlock(st, bound);
    forall t: Sym, c: nat | c < |st'.blocks|
      ensures (t, c) in st'.lko <==> KnownAt(st'.g, t, c, |st'.g.logs[c]|)
      ensures (t, c) in st'.lko ==> st'.lko[(t, c)] == OperandAt(st'.g, t, c, |st'.g.logs[c]|)
    {
      if c < |st.blocks| {
        assert (t, c) in st.lko <==> KnownAt(st.g, t, c, |st.g.logs[c]|);
      } else {
        assert (t, c) !in st.lko && (t, c) !in st.g.entries;
      }
    }
  }

  ghost function WithPred(st: St, b: nat, p: nat): St
    requires b < |st.blocks|
  {
    st.(blocks := st.blocks[b := st.blocks[b].(preds := st.blocks[b].preds + [p])])
  }

  lemma WithPredKeepsInv(st: St, b: nat, p: nat)
    requires Inv(st) && b < |st.blocks| && p < |st.blocks| && !st.blocks[b].isSealed
    requires p in st.g.closed && p !in st.blocks[b].preds && st.g.bound[b] <= BoundAtEnd(st.g, p)
    ensures Inv(WithPred(st, b, p))
  {
    WithPredIsBeyond(st, b, p);
    BeyondKeeps(st, WithPred(st, b, p));
    WithPredKeepsRest(st, b, p);
    WithPredKeepsPreds(st, b, p);
  }

  lemma WithPredIsBeyond(st: St, b: nat, p: nat)
    requires Sizes(st) && b < |st.blocks| && !st.blocks[b].isSealed
    ensures Beyond(st, WithPred(st, b, p))
  {
  }

  lemma WithPredKeepsPreds(st: St, b: nat, p: nat)
    requires Sizes(st) && PredsOk(st) && b < |st.blocks| && p < |st.blocks| && !st.blocks[b].isSealed
    requires p in st.g.closed && p !in st.blocks[b].preds && st.g.bound[b] <= BoundAtEnd(st.g, p)
    ensures Sizes(WithPred(st, b, p)) && PredsOk(WithPred(st, b, p))
  {
    var st' := WithPred(st, b, p);
    forall c | 0 <= c < |st'.blocks| ensures PredsOkAt(st', c) { assert PredsOkAt(st, c); }
  }

  lemma WithPredKeepsRest(st: St, b: nat, p: nat)
    requires Sizes(st) && LkoOk(st) && LogsOk(st) && HomesOk(st) && b < |st.blocks|
    ensures var st' := WithPred(st, b, p); Sizes(st') && LkoOk(st') && LogsOk(st') && HomesOk(st')
  {
  }

  // ----- Sealing -----

  ghost function Sealed(st: St, b: nat): St
    requires b < |st.blocks|
  {
    st.(blocks := st.blocks[b := st.blocks[b].(isSealed := true)], incomplete := st.incomplete - {b})
  }

  ghost predicate ReadyToSeal(st: St, b: nat)
    requires Sizes(st) && b < |st.blocks|
  {
    && !st.blocks[b].isSealed
    && (|st.blocks[b].preds| == 0 ==> st.g.bound[b] == {} && st.blocks[b].phis == [])
    && (|st.blocks[b].preds| == 1 ==> st.blocks[b].preds[0] < b && st.blocks[b].phis == [])
  }

  lemma SealedKeepsInv(st: St, b: nat, busy: set<(nat, nat)>)
    requires Inv(st) && b < |st.blocks| && ReadyToSeal(st, b)
    requires st.g.busy == busy + set i | 0 <= i < |st.blocks[b].phis| :: (b, i)
    requires forall i :: 0 <= i < |st.blocks[b].phis| ==> Filled(st, b, i)
    requires forall k :: k in busy ==> k.0 != b
    ensures Inv(Sealed(st, b).(g := st.g.(busy := busy)))
  {
    var st' := Sealed(st, b).(g := st.g.(busy := busy));
    SealedKeepsPhis(st, b, busy);
    SealedKeepsRest(st, b, busy);
  }

  lemma SealedKeepsRest(st: St, b: nat, busy: set<(nat, nat)>)
    requires Sizes(st) && PredsOk(st) && IncompleteOk(st) && LkoOk(st) && b < |st.blocks| && ReadyToSeal(st, b)
    ensures var st' := Sealed(st, b).(g := st.g.(busy := busy));
      Sizes(st') && PredsOk(st') && IncompleteOk(st') && LkoOk(st')
  {
    var st' := Sealed(st, b).(g := st.g.(busy := busy));
    forall c | 0 <= c < |st'.blocks| ensures PredsOkAt(st', c) { assert PredsOkAt(st, c); }
    forall c | 0 <= c < |st'.blocks| && !st'.blocks[c].isSealed ensures PendingOk(st', c) { assert PendingOk(st, c); }
  }

  lemma SealedKeepsPhis(st: St, b: nat, busy: set<(nat, nat)>)
    requires Sizes(st) && PhisOk(st) && EntriesOk(st) && BusyOk(st) && b < |st.blocks| && !st.blocks[b].isSealed
    requires st.g.busy == busy + set i | 0 <= i < |st.blocks[b].phis| :: (b, i)
    requires forall i :: 0 <= i < |st.blocks[b].phis| ==> Filled(st, b, i)
    ensures var st' := Sealed(st, b).(g := st.g.(busy := busy));
      Sizes(st') && PhisOk(st') && EntriesOk(st') && BusyOk(st')
  {
    var st' := Sealed(st, b).(g := st.g.(busy := busy));
    forall c, i | 0 <= c < |st'.blocks| && 0 <= i < |st'.blocks[c].phis| ensures PhiOk(st', c, i) {
      assert PhiOk(st, c, i);
      if c == b { assert Filled(st, b, i); }
    }
    forall s: Sym, c: nat | (s, c) in st'.g.entries ensures EntryOk(st', s, c) {
      assert EntryOk(st, s, c);
      var o := st.g.entries[(s, c)];
      if i :| 0 <= i < |st.blocks[c].phis| && PhiIs(st, c, i, s, o) {
        assert PhiIs(st', c, i, s, o);
      }
    }
  }

  // ----- What a step leaves alone -----

  // Blocks below n keep their shape, and all but cur their contents.
  ghost predicate Untouched(st: St, st': St, n: nat, cur: nat) {
    && Sizes(st) && Sizes(st') && n <= |st.blocks| <= |st'.blocks|
    && forall b :: 0 <= b < n ==> UntouchedAt(st, st', b, cur)
  }

  ghost predicate UntouchedAt(st: St, st': St, b: nat, cur: nat)
    requires Sizes(st) && Sizes(st')
    requires b < |st.blocks| <= |st'.blocks|
  {
    && st'.blocks[b].preds == st.blocks[b].preds
    && st'.blocks[b].isSealed == st.blocks[b].isSealed
    && st'.g.bound[b] == st.g.bound[b]
    && (b != cur ==>
        && st'.blocks[b].instrs == st.blocks[b].instrs
        && st'.g.logs[b] == st.g.logs[b]
        && (b in st'.g.closed ==> b in st.g.closed))
  }

  lemma UntouchedTrans(a: St, b: St, c: St, n: nat, cur: nat, cur': nat)
    requires Untouched(a, b, n, cur) && Untouched(b, c, n, cur') && (cur' == cur || n <= cur')
    ensures Untouched(a, c, n, cur)
  {
    forall i | 0 <= i < n ensures UntouchedAt(a, c, i, cur) {
      assert UntouchedAt(a, b, i, cur) && UntouchedAt(b, c, i, cur');
    }
  }

  lemma UntouchedBelow(a: St, b: St, n: nat, m: nat, cur: nat)
    requires Untouched(a, b, n, cur) && m <= n
    ensures Untouched(a, b, m, cur)
  {
    forall i | 0 <= i < m ensures UntouchedAt(a, b, i, cur) {
      assert UntouchedAt(a, b, i, cur);
    }
  }

  // Lookups and sealing: only phis and records are added.
  ghost predicate Passive(st: St, st': St) {
    && Sizes(st) && Sizes(st') && |st'.blocks| == |st.blocks|
    && st'.g.logs == st.g.logs && st'.g.bound == st.g.bound && st'.g.closed == st.g.closed
    && Grows(st.g.home, st'.g.home) && Grows(st.g.entries, st'.g.entries)
    && forall b :: 0 <= b < |st.blocks| ==>
        st'.blocks[b].instrs == st.blocks[b].instrs && st'.blocks[b].preds == st.blocks[b].preds
  }

  lemma PassiveIsStable(st: St, st': St)
    requires Passive(st, st')
    ensures Stable(st, st')
  {
    forall b | 0 <= b < |st.blocks| ensures StableAt(st, st', b) {}
  }

  lemma LookedUpIsPassive(st: St, st': St, s: Sym)
    requires LookedUp(st, st', s)
    ensures Passive(st, st')
    ensures forall n, cur :: 0 <= n <= |st.blocks| ==> Untouched(st, st', n, cur)
  {
    forall b | 0 <= b < |st.blocks|
      ensures st'.blocks[b].instrs == st.blocks[b].instrs && st'.blocks[b].preds == st.blocks[b].preds
      ensures st'.blocks[b].isSealed == st.blocks[b].isSealed
    {
      assert BlockLookedUp(st, st', s, b);
    }
  }

  // ----- Edges -----

  // Only the last instruction of a closed block branches, and exactly the
  // blocks it names have it as a predecessor.
  ghost predicate EdgesOk(st: St)
    requires Sizes(st)
  {
    forall p :: 0 <= p < |st.blocks| ==> EdgesOkAt(st, p)
  }

  predicate Branches(i: Instr) { i.Br? || i.Cbr? }

  ghost predicate BranchOk(i: Instr, n: nat) {
    && Branches(i)
    && (forall t :: t in i.Targets() ==> t < n)
    && (i.Cbr? ==> i.ifTrue != i.ifFalse)
  }

  ghost predicate EdgesOkAt(st: St, p: nat)
    requires Sizes(st) && p < |st.blocks|
  {
    var code := st.blocks[p].instrs;
    && (forall pc :: 0 <= pc < |code| && Branches(code[pc]) ==> p in st.g.closed && pc == |code| - 1)
    && (p in st.g.closed ==>
        && |code| > 0 && BranchOk(code[|code| - 1], |st.blocks|)
        && forall b :: 0 <= b < |st.blocks| ==> (p in st.blocks[b].preds <==> b in code[|code| - 1].Targets()))
  }

  lemma EdgesStay(st: St, st': St)
    requires Passive(st, st') && EdgesOk(st)
    ensures EdgesOk(st')
  {
    forall p | 0 <= p < |st'.blocks| ensures EdgesOkAt(st', p) {
      assert EdgesOkAt(st, p);
    }
  }

  // Block p has been closed by branch i; blocks may have been added.
  ghost predicate Branched(st: St, st': St, p: nat, i: Instr) {
    && Sizes(st) && Sizes(st') && p < |st.blocks| <= |st'.blocks|
    && p !in st.g.closed && st'.g.closed == st.g.closed + {p}
    && st'.blocks[p].instrs == st.blocks[p].instrs + [i]
    && BranchOk(i, |st'.blocks|)
    && (forall b :: 0 <= b < |st.blocks| && b != p ==> st'.blocks[b].instrs == st.blocks[b].instrs)
    && (forall b :: |st.blocks| <= b < |st'.blocks| ==> st'.blocks[b].instrs == [])
    && (forall b :: 0 <= b < |st'.blocks| ==>
        forall q :: q in st'.blocks[b].preds <==>
          (if q == p then b in i.Targets() else b < |st.blocks| && q in st.blocks[b].preds))
  }

  lemma EdgesAfterBranch(st: St, st': St, p: nat, i: Instr)
    requires Branched(st, st', p, i) && EdgesOk(st)
    ensures EdgesOk(st')
  {
    forall q | 0 <= q < |st'.blocks| ensures EdgesOkAt(st', q) {
      if q < |st.blocks| { assert EdgesOkAt(st, q); }
      if q == p {
        assert !(exists pc :: 0 <= pc < |st.blocks[p].instrs| && Branches(st.blocks[p].instrs[pc]));
      }
    }
  }

  // What lowering an expression in block cur does.
  ghost predicate ExprStep(st: St, st': St, cur: nat) {
    && Stable(st, st') && Untouched(st, st', |st.blocks|, cur)
    && |st'.blocks| == |st.blocks| && st'.g.closed == st.g.closed && st'.g.busy == st.g.busy
  }

  lemma ExprStepTrans(a: St, b: St, c: St, cur: nat)
    requires ExprStep(a, b, cur) && ExprStep(b, c, cur)
    ensures ExprStep(a, c, cur)
  {
    StableTrans(a, b, c);
    UntouchedTrans(a, b, c, |a.blocks|, cur, cur);
  }

  lemma WrittenIsExprStep(st: St, b: nat, s: Sym, o: Operand)
    requires Sizes(st) && b < |st.blocks| && b !in st.g.closed
    ensures ExprStep(st, Written(st, b, s, o), b)
    ensures EdgesOk(st) ==> EdgesOk(Written(st, b, s, o))
  {
    var st' := Written(st, b, s, o);
    forall c | 0 <= c < |st.blocks| ensures StableAt(st, st', c) && UntouchedAt(st, st', c, b) {}
    if EdgesOk(st) {
      forall c | 0 <= c < |st.blocks| ensures EdgesOkAt(st', c) { assert EdgesOkAt(st, c); }
    }
  }

  lemma AppendedIsExprStep(st: St, b: nat, i: Instr)
    requires Sizes(st) && HomesOk(st) && b < |st.blocks| && b !in st.g.closed
    requires i.Arith? ==> i.result == st.nextValue
    requires !Branches(i)
    ensures ExprStep(st, Appended(st, b, i), b)
    ensures EdgesOk(st) ==> EdgesOk(Appended(st, b, i))
  {
    var st' := Appended(st, b, i);
    assert i.Arith? ==> i.result !in st.g.home;
    forall c | 0 <= c < |st.blocks| ensures StableAt(st, st', c) && UntouchedAt(st, st', c, b) {}
    if EdgesOk(st) {
      forall c | 0 <= c < |st.blocks| ensures EdgesOkAt(st', c) { assert EdgesOkAt(st, c); }
    }
  }

  lemma LookedUpIsExprStep(st: St, st': St, s: Sym, cur: nat)
    requires LookedUp(st, st', s) && st'.g.busy == st.g.busy
    ensures ExprStep(st, st', cur)
    ensures EdgesOk(st) ==> EdgesOk(st')
  {
    LookedUpIsPassive(st, st', s);
    PassiveIsStable(st, st');
    if EdgesOk(st) { EdgesStay(st, st'); }
  }

  // The point where block b ends as it stands.
  ghost function EndOf(st: St, b: nat): Point
    requires Sizes(st) && b < |st.blocks|
  {
    Point(b, |st.blocks[b].instrs|, |st.g.logs[b]|)
  }

  // Reading s at the end of block b gives the operand on record.
  lemma {:induction false} ReadEmitted(st: St, s: Sym, b: nat)
    requires Inv(st) && b < |st.blocks| && (s, b) in st.lko
    ensures EmitE(st, Ident(s), ETree(EndOf(st, b), EndOf(st, b), st.lko[(s, b)], []))
  {
    assert st.g.logs[b][..|st.g.logs[b]|] == st.g.logs[b];
    RecordedIsSettled(st, s, b);
  }

  // e's value is written to s at the end of block t.end.b.
  lemma {:induction false} WriteEmitted(st: St, e: Expr, t: ETree, s: Sym, b: nat)
    requires Sizes(st) && EmitE(st, e, t) && b < |st.blocks| && t.end == EndOf(st, b) && b !in st.g.closed
    ensures EmitWrite(Written(st, b, s, t.out), s, e,
      ETree(t.start, EndOf(Written(st, b, s, t.out), b), t.out, [t]))
    ensures Settled(st.g.home, b, |st.blocks[b].instrs|, t.out)
    ensures InRange(Written(st, b, s, t.out), t.start) && t.start.b == b
  {
    WrittenIsExprStep(st, b, s, t.out);
    EmitEStable(st, Written(st, b, s, t.out), e, t);
  }

  // An operation on two values just computed.
  lemma {:induction false} ArithEmitted(st: St, op: BinOp, l: Expr, r: Expr, tl: ETree, tr: ETree, b: nat)
    requires Inv(st) && EmitE(st, l, tl) && EmitE(st, r, tr) && tr.start == tl.end
    requires b < |st.blocks| && tr.end == EndOf(st, b) && b !in st.g.closed
    ensures var st' := Appended(st, b, Arith(st.nextValue, op, tl.out, tr.out));
      Sizes(st') && EmitE(st', Binary(op, l, r),
        ETree(tl.start, EndOf(st', b), Register(st.nextValue), [tl, tr]))
  {
    var st' := Appended(st, b, Arith(st.nextValue, op, tl.out, tr.out));
    AppendedIsExprStep(st, b, Arith(st.nextValue, op, tl.out, tr.out));
    EmitEStable(st, st', l, tl);
    EmitEStable(st, st', r, tr);
  }

  lemma ExprStepRefl(st: St, cur: nat)
    requires Sizes(st)
    ensures ExprStep(st, st, cur)
  {
    forall b | 0 <= b < |st.blocks| ensures StableAt(st, st, b) && UntouchedAt(st, st, b, cur) {}
  }

  lemma {:induction false} BinaryLowered(st: St, st1: St, st2: St, op: BinOp, l: Expr, r: Expr, tl: ETree, tr: ETree, b: nat)
    requires ExprStep(st, st1, b) && ExprStep(st1, st2, b)
    requires Inv(st2) && EdgesOk(st2) && b < |st2.blocks| && b !in st2.g.closed
    requires EmitE(st1, l, tl) && EmitE(st2, r, tr) && tr.start == tl.end && tr.end == EndOf(st2, b)
    ensures var st3 := Appended(st2, b, Arith(st2.nextValue, op, tl.out, tr.out));
      && Inv(st3) && EdgesOk(st3) && ExprStep(st, st3, b)
      && EmitE(st3, Binary(op, l, r), ETree(tl.start, EndOf(st3, b), Register(st2.nextValue), [tl, tr]))
      && BoundAtEnd(st3.g, b) == BoundAtEnd(st2.g, b)
  {
    var i := Arith(st2.nextValue, op, tl.out, tr.out);
    var st3 := Appended(st2, b, i);
    EmitEStable(st1, st2, l, tl);
    ArithEmitted(st2, op, l, r, tl, tr, b);
    AppendedKeepsInv(st2, b, i);
    AppendedIsExprStep(st2, b, i);
    ExprStepTrans(st, st1, st2, b);
    ExprStepTrans(st, st2, st3, b);
  }

  lemma {:induction false} WriteLowered(st: St, st1: St, s: Sym, r: Expr, tr: ETree, b: nat)
    requires ExprStep(st, st1, b)
    requires Inv(st1) && EdgesOk(st1) && b < |st1.blocks| && b !in st1.g.closed
    requires EmitE(st1, r, tr) && tr.end == EndOf(st1, b)
    ensures var st2 := Written(st1, b, s, tr.out);
      && Inv(st2) && EdgesOk(st2) && ExprStep(st, st2, b)
      && BoundAtEnd(st2.g, b) == BoundAtEnd(st1.g, b) + {s}
      && var t := ETree(tr.start, EndOf(st2, b), tr.out, [tr]);
         EmitWrite(st2, s, r, t) && EmitE(st2, Assign(s, r), t) && EmitE(st2, VarDecl(s, Some(r)), t)
  {
    WriteEmitted(st1, r, tr, s, b);
    WrittenKeepsInv(st1, b, s, tr.out);
    WrittenIsExprStep(st1, b, s, tr.out);
    ExprStepTrans(st, st1, Written(st1, b, s, tr.out), b);
  }

  lemma DefaultLowered(st: St, s: Sym, b: nat)
    requires Inv(st) && EdgesOk(st) && b < |st.blocks| && b !in st.g.closed
    ensures var st2 := Written(st, b, s, Literal(0));
      && Inv(st2) && EdgesOk(st2) && ExprStep(st, st2, b)
      && BoundAtEnd(st2.g, b) == BoundAtEnd(st.g, b) + {s}
      && EmitE(st2, VarDecl(s, None), ETree(EndOf(st, b), EndOf(st2, b), Literal(0), []))
  {
    WrittenKeepsInv(st, b, s, Literal(0));
    WrittenIsExprStep(st, b, s, Literal(0));
  }

  // ----- Sealing a block, phi by phi -----

  // Busy with every phi of b.
  ghost function AllBusy(st: St, b: nat): St
    requires Sizes(st) && b < |st.blocks|
  {
    st.(g := st.g.(busy := set i | 0 <= i < |st.blocks[b].phis| :: (b, i)))
  }

  lemma AllBusyKeepsInv(st: St, b: nat)
    requires Inv(st) && b < |st.blocks| && st.g.busy == {}
    ensures Inv(AllBusy(st, b))
  {
    var st' := AllBusy(st, b);
    assert ShapeOnly(st, st');
    assert EntriesOk(st') by {
      forall s: Sym, c: nat | (s, c) in st'.g.entries ensures EntryOk(st', s, c) {
        assert EntryOk(st, s, c);
        EntryKept(st, st', s, c);
      }
    }
    assert PhisOk(st') by {
      forall c, i | 0 <= c < |st.blocks| && 0 <= i < |st.blocks[c].phis| ensures PhiOk(st', c, i) {
        assert PhiOk(st, c, i);
      }
    }
    ShapeKept(st, st');
    assert IncompleteOk(st') by {
      forall c | 0 <= c < |st.blocks| && !st.blocks[c].isSealed ensures PendingOk(st', c) { assert PendingOk(st, c); }
    }
  }

  ghost predicate ShapeOnly(st: St, st': St) {
    st'.blocks == st.blocks && st'.lko == st.lko && st'.incomplete == st.incomplete
  }

  // While b is being sealed: its first n phis are filled, the others empty.
  ghost predicate Sealing(st: St, st': St, b: nat, n: nat)
    requires Sizes(st) && b < |st.blocks|
  {
    && Passive(st, st')
    && (forall c :: 0 <= c < |st.blocks| ==> st'.blocks[c].isSealed == st.blocks[c].isSealed)
    && |st'.blocks[b].phis| == |st.blocks[b].phis|
    && st'.g.phiSyms[b] == st.g.phiSyms[b]
    && n <= |st.blocks[b].phis|
    && (forall i :: 0 <= i < n ==> Filled(st', b, i))
    && (forall i :: n <= i < |st.blocks[b].phis| ==> st'.blocks[b].phis[i].incomings == [])
    && st'.g.busy == AllBusy(st, b).g.busy
  }

  lemma SealingStarts(st: St, b: nat)
    requires Inv(st) && b < |st.blocks| && !st.blocks[b].isSealed && st.g.busy == {}
    ensures Inv(AllBusy(st, b)) && Sealing(st, AllBusy(st, b), b, 0)
    ensures |Pending(st, b)| == |st.blocks[b].phis|
    ensures forall i :: 0 <= i < |st.blocks[b].phis| ==> Pending(st, b)[i] == (st.g.phiSyms[b][i], i)
  {
    AllBusyKeepsInv(st, b);
    assert PendingOk(st, b);
    forall i | 0 <= i < |st.blocks[b].phis| ensures st.blocks[b].phis[i].incomings == [] {
      assert PhiOk(st, b, i);
    }
  }

  lemma SealingSizes(st: St, st': St, b: nat, n: nat)
    requires Sizes(st) && b < |st.blocks| && Sealing(st, st', b, n)
    ensures Sizes(st') && |st'.blocks| == |st.blocks|
    ensures forall i :: n <= i < |st.blocks[b].phis| ==> (b, i) in st'.g.busy
  {
  }

  lemma SealingGoesOn(st: St, st1: St, st2: St, b: nat, n: nat)
    requires Sizes(st) && b < |st.blocks| && Inv(st1) && Inv(st2) && Sealing(st, st1, b, n)
    requires |st2.blocks| == |st1.blocks| && n < |st.blocks[b].phis| && n < |st2.blocks[b].phis|
    requires LookedUp(SetIncomings(st1, b, n, st2.blocks[b].phis[n].incomings), st2, st.g.phiSyms[b][n])
    requires Filled(st2, b, n) && st2.g.busy == st1.g.busy
    ensures Sealing(st, st2, b, n + 1)
  {
    hide LkoOk, EntriesOk, PhisOk, PredsOk, IncompleteOk, LogsOk, HomesOk;
    var s := st.g.phiSyms[b][n];
    var mid := SetIncomings(st1, b, n, st2.blocks[b].phis[n].incomings);
    PhiSymOnRecord(st1, b, n);
    LookedUpIsPassive(mid, st2, s);
    assert BlockLookedUp(mid, st2, s, b);
    forall i | 0 <= i < n + 1 ensures Filled(st2, b, i) {
      if i < n { assert Filled(st1, b, i); }
    }
    forall c | 0 <= c < |st.blocks| ensures st2.blocks[c].isSealed == st.blocks[c].isSealed {
      assert BlockLookedUp(mid, st2, s, c);
    }
  }

  lemma PhiSymOnRecord(st: St, b: nat, i: nat)
    requires Inv(st) && b < |st.blocks| && i < |st.blocks[b].phis|
    ensures (st.g.phiSyms[b][i], b) in st.lko
  {
    assert PhiOk(st, b, i);
    assert KnownAt(st.g, st.g.phiSyms[b][i], b, |st.g.logs[b]|);
  }

  // Sealing block b as a whole.
  ghost predicate SealStep(st: St, st': St, b: nat) {
    && Passive(st, st') && st'.g.busy == {}
    && forall c :: 0 <= c < |st.blocks| ==> st'.blocks[c].isSealed == (st.blocks[c].isSealed || c == b)
  }

  lemma SealingEnds(st: St, st1: St, b: nat)
    requires Inv(st) && b < |st.blocks| && ReadyToSeal(st, b) && st.g.busy == {}
    requires Inv(st1) && Sealing(st, st1, b, |st.blocks[b].phis|)
    ensures var st2 := Sealed(st1, b).(g := st1.g.(busy := {})); Inv(st2) && SealStep(st, st2, b)
  {
    hide LkoOk, EntriesOk, PhisOk, PredsOk, IncompleteOk, LogsOk, HomesOk, Filled;
    StillReadyToSeal(st, st1, b);
    SealedKeepsInv(st1, b, {});
  }

  lemma StillReadyToSeal(st: St, st1: St, b: nat)
    requires Sizes(st) && b < |st.blocks| && ReadyToSeal(st, b) && Sealing(st, st1, b, |st.blocks[b].phis|)
    ensures Sizes(st1) && b < |st1.blocks| && ReadyToSeal(st1, b)
    ensures st1.g.busy == {} + set i | 0 <= i < |st1.blocks[b].phis| :: (b, i)
  {
  }
}
