// The builder's state as a value, and the invariant every step of it keeps.
//
// Beside the builder's own tables the state records, for the proofs only, the
// writes of each block in order (logs), the operand a symbol has on entry to a
// block once some lookup asked for it (entries), where each value id is defined
// (home), which symbols are bound on entry to a block (bound), the symbol of
// each phi (phiSyms), the blocks that will receive no further write (closed)
// and the phis whose operands are being filled in (busy).
module SsaState {
  import opened Ast
  import opened IR

  datatype Site = ArgSite | PhiSite(block: nat, idx: nat) | InstrSite(block: nat, pc: nat)

  datatype Ghosts = Ghosts(
    logs: seq<seq<(Sym, Operand)>>,
    entries: map<(Sym, nat), Operand>,
    home: map<nat, Site>,
    bound: seq<set<Sym>>,
    phiSyms: seq<seq<Sym>>,
    closed: set<nat>,
    busy: set<(nat, nat)>)

  datatype St = St(
    blocks: seq<BasicBlock>,
    lko: map<(Sym, nat), Operand>,
    incomplete: map<nat, seq<(Sym, nat)>>,
    nextValue: nat,
    g: Ghosts)

  // ----- The operand a symbol stands for at a point of a block -----

  ghost predicate Logged(log: seq<(Sym, Operand)>, s: Sym) {
    exists i :: 0 <= i < |log| && log[i].0 == s
  }

  // The last write to s.
  ghost function LastWrite(log: seq<(Sym, Operand)>, s: Sym): (o: Operand)
    ensures Logged(log, s) ==> exists i :: 0 <= i < |log| && log[i] == (s, o)
  {
    if log == [] then NoOperand
    else if log[|log| - 1].0 == s then log[|log| - 1].1
    else
      assert forall i :: 0 <= i < |log| - 1 ==> log[..|log| - 1][i] == log[i];
      LastWrite(log[..|log| - 1], s)
  }

  // After the first k writes of block b, s has a known operand ...
  ghost predicate KnownAt(g: Ghosts, s: Sym, b: nat, k: nat)
    requires b < |g.logs| && k <= |g.logs[b]|
  {
    Logged(g.logs[b][..k], s) || (s, b) in g.entries
  }

  // ... and this is it.
  ghost function OperandAt(g: Ghosts, s: Sym, b: nat, k: nat): Operand
    requires b < |g.logs| && k <= |g.logs[b]|
    requires KnownAt(g, s, b, k)
  {
    if Logged(g.logs[b][..k], s) then LastWrite(g.logs[b][..k], s) else g.entries[(s, b)]
  }

  // Symbols bound at the end of a block as it stands.
  ghost function BoundAtEnd(g: Ghosts, b: nat): set<Sym>
    requires b < |g.logs| && b < |g.bound|
  {
    g.bound[b] + set i | 0 <= i < |g.logs[b]| :: g.logs[b][i].0
  }

  // The operand has its value whenever control is at (b, pc), and keeps it
  // until control leaves b: it is a literal, an argument, a phi of b or an
  // instruction of b before pc, or it is defined in a block with a smaller id.
  ghost predicate Settled(home: map<nat, Site>, b: nat, pc: nat, o: Operand) {
    match o
    case NoOperand => false
    case Literal(_) => true
    case Register(v) =>
      v in home &&
      match home[v]
      case ArgSite => true
      case PhiSite(d, _) => d <= b
      case InstrSite(d, k) => d < b || (d == b && k < pc)
  }

  // ----- Invariant -----

  ghost predicate Sizes(st: St) {
    && |st.g.logs| == |st.blocks|
    && |st.g.bound| == |st.blocks|
    && |st.g.phiSyms| == |st.blocks|
    && (forall b :: b in st.g.closed ==> b < |st.blocks|)
    && forall b :: 0 <= b < |st.blocks| ==> |st.g.phiSyms[b]| == |st.blocks[b].phis|
  }

  // Predecessors are closed and, once there are to be no more of them, either
  // none, one with a smaller id, or several.
  ghost predicate PredsOk(st: St)
    requires Sizes(st)
  {
    forall b :: 0 <= b < |st.blocks| ==> PredsOkAt(st, b)
  }

  ghost predicate PredsOkAt(st: St, b: nat)
    requires Sizes(st) && b < |st.blocks|
  {
    var blk := st.blocks[b];
    && (forall i, j :: 0 <= i < j < |blk.preds| ==> blk.preds[i] != blk.preds[j])
    && (forall i :: 0 <= i < |blk.preds| ==>
        && blk.preds[i] < |st.blocks|
        && blk.preds[i] in st.g.closed
        && st.g.bound[b] <= BoundAtEnd(st.g, blk.preds[i]))
    && (blk.isSealed && |blk.preds| == 0 ==> st.g.bound[b] == {} && blk.phis == [])
    && (blk.isSealed && |blk.preds| == 1 ==> blk.preds[0] < b && blk.phis == [])
  }

  // m_lko holds exactly the known operands at the end of each block.
  ghost predicate LkoOk(st: St)
    requires Sizes(st)
  {
    && (forall s: Sym, b: nat :: (s, b) in st.lko ==> b < |st.blocks|)
    && forall s: Sym, b: nat :: b < |st.blocks| ==>
        && ((s, b) in st.lko <==> KnownAt(st.g, s, b, |st.g.logs[b]|))
        && ((s, b) in st.lko ==> st.lko[(s, b)] == OperandAt(st.g, s, b, |st.g.logs[b]|))
  }

  // An entry operand is a phi of the block, or what its only predecessor ends with.
  ghost predicate EntriesOk(st: St)
    requires Sizes(st)
  {
    forall s: Sym, b: nat :: (s, b) in st.g.entries ==>
      b < |st.blocks| && s in st.g.bound[b] && EntryOk(st, s, b)
  }

  ghost predicate EntryOk(st: St, s: Sym, b: nat)
    requires Sizes(st) && b < |st.blocks| && (s, b) in st.g.entries
  {
    var o := st.g.entries[(s, b)];
    && Settled(st.g.home, b, 0, o)
    && (|| (exists i :: 0 <= i < |st.blocks[b].phis| && PhiIs(st, b, i, s, o))
        || (st.blocks[b].isSealed && |st.blocks[b].preds| == 1
            && (s, st.blocks[b].preds[0]) in st.lko && o == st.lko[(s, st.blocks[b].preds[0])]))
  }

  ghost predicate PhiIs(st: St, b: nat, i: nat, s: Sym, o: Operand)
    requires Sizes(st) && b < |st.blocks| && i < |st.blocks[b].phis|
  {
    st.g.phiSyms[b][i] == s && o == Register(st.blocks[b].phis[i].result)
  }

  // Every phi stands for its symbol on entry, under a value id of its own.
  ghost predicate PhisOk(st: St)
    requires Sizes(st)
  {
    forall b, i :: 0 <= b < |st.blocks| && 0 <= i < |st.blocks[b].phis| ==> PhiOk(st, b, i)
  }

  ghost predicate PhiOk(st: St, b: nat, i: nat)
    requires Sizes(st) && b < |st.blocks| && i < |st.blocks[b].phis|
  {
    var phi := st.blocks[b].phis[i];
    var s := st.g.phiSyms[b][i];
    && phi.result in st.g.home && st.g.home[phi.result] == PhiSite(b, i)
    && (s, b) in st.g.entries && st.g.entries[(s, b)] == Register(phi.result)
    && ((b, i) !in st.g.busy ==> if st.blocks[b].isSealed then Filled(st, b, i) else phi.incomings == [])
  }

  // The phi has exactly one operand per predecessor, the one it ends with.
  ghost predicate Filled(st: St, b: nat, i: nat)
    requires Sizes(st) && b < |st.blocks| && i < |st.blocks[b].phis|
  {
    && |st.blocks[b].phis[i].incomings| == |st.blocks[b].preds|
    && FilledUpTo(st, b, i, |st.blocks[b].preds|)
  }

  ghost predicate FilledUpTo(st: St, b: nat, i: nat, n: nat)
    requires Sizes(st) && b < |st.blocks| && i < |st.blocks[b].phis|
    requires n <= |st.blocks[b].preds| && n <= |st.blocks[b].phis[i].incomings|
  {
    forall j :: 0 <= j < n ==>
      && (st.g.phiSyms[b][i], st.blocks[b].preds[j]) in st.lko
      && st.blocks[b].phis[i].incomings[j] ==
         (st.blocks[b].preds[j], st.lko[(st.g.phiSyms[b][i], st.blocks[b].preds[j])])
  }

  // m_incomplete lists exactly the phis of the unsealed blocks, in order.
  ghost predicate IncompleteOk(st: St)
    requires Sizes(st)
  {
    && (forall b :: b in st.incomplete ==> b < |st.blocks| && !st.blocks[b].isSealed)
    && forall b :: 0 <= b < |st.blocks| && !st.blocks[b].isSealed ==> PendingOk(st, b)
  }

  ghost function Pending(st: St, b: nat): seq<(Sym, nat)> {
    if b in st.incomplete then st.incomplete[b] else []
  }

  ghost predicate PendingOk(st: St, b: nat)
    requires Sizes(st) && b < |st.blocks|
  {
    && |Pending(st, b)| == |st.blocks[b].phis|
    && forall i :: 0 <= i < |st.blocks[b].phis| ==> Pending(st, b)[i] == (st.g.phiSyms[b][i], i)
  }

  // Every operand written in a block is settled at its end.
  ghost predicate LogsOk(st: St)
    requires Sizes(st)
  {
    forall b, i :: 0 <= b < |st.blocks| && 0 <= i < |st.g.logs[b]| ==>
      Settled(st.g.home, b, |st.blocks[b].instrs|, st.g.logs[b][i].1)
  }

  // Value ids are handed out once, and each instruction owns its result.
  ghost predicate HomesOk(st: St)
    requires Sizes(st)
  {
    && (forall v :: v in st.g.home ==> v < st.nextValue)
    && forall b, pc :: 0 <= b < |st.blocks| && 0 <= pc < |st.blocks[b].instrs| && st.blocks[b].instrs[pc].Arith? ==>
        && st.blocks[b].instrs[pc].result in st.g.home
        && st.g.home[st.blocks[b].instrs[pc].result] == InstrSite(b, pc)
  }

  // Only existing phis are busy.
  ghost predicate BusyOk(st: St) {
    forall k :: k in st.g.busy ==> k.0 < |st.blocks| && k.1 < |st.blocks[k.0].phis|
  }

  ghost predicate Inv(st: St) {
    && Sizes(st)
    && BusyOk(st)
    && PredsOk(st)
    && LkoOk(st)
    && EntriesOk(st)
    && PhisOk(st)
    && IncompleteOk(st)
    && LogsOk(st)
    && HomesOk(st)
  }

  // ----- What a lookup may change -----

  // A lookup of s records operands of s, appends phis for s to blocks that had
  // no operand for it, and changes nothing else.
  ghost predicate LookedUp(old_: St, new_: St, s: Sym) {
    && Sizes(old_) && Sizes(new_)
    && |new_.blocks| == |old_.blocks|
    && new_.g.logs == old_.g.logs && new_.g.bound == old_.g.bound
    && new_.g.closed == old_.g.closed
    && old_.nextValue <= new_.nextValue
    && Grows(old_.g.home, new_.g.home) && Grows(old_.g.entries, new_.g.entries) && Grows(old_.lko, new_.lko)
    && (forall k :: k in new_.lko && k !in old_.lko ==> k.0 == s)
    && forall b :: 0 <= b < |old_.blocks| ==> BlockLookedUp(old_, new_, s, b)
  }

  ghost predicate Grows<K, V>(m: map<K, V>, n: map<K, V>) {
    forall k :: k in m ==> k in n && n[k] == m[k]
  }

  ghost predicate BlockLookedUp(old_: St, new_: St, s: Sym, b: nat)
    requires Sizes(old_) && Sizes(new_)
    requires b < |old_.blocks| == |new_.blocks|
  {
    var o, n := old_.blocks[b], new_.blocks[b];
    && n.instrs == o.instrs && n.preds == o.preds && n.isSealed == o.isSealed && n.succs == o.succs
    && o.phis <= n.phis
    && old_.g.phiSyms[b] <= new_.g.phiSyms[b]
    && ((s, b) in old_.lko ==> n.phis == o.phis)
    && (n.isSealed || n.phis == o.phis ==> Pending(new_, b) == Pending(old_, b))
  }

  lemma LookedUpTrans(a: St, b: St, c: St, s: Sym)
    requires LookedUp(a, b, s) && LookedUp(b, c, s)
    ensures LookedUp(a, c, s)
  {
    forall i | 0 <= i < |a.blocks| ensures BlockLookedUp(a, c, s, i) {
      assert BlockLookedUp(a, b, s, i);
      assert BlockLookedUp(b, c, s, i);
    }
  }

  // ----- Steps of a lookup -----

  // The blocks that have no operand recorded for s yet.
  ghost function Missing(st: St, s: Sym): set<nat> {
    set b | 0 <= b < |st.blocks| && (s, b) !in st.lko
  }

  lemma MissingShrinks(a: St, b: St, s: Sym)
    requires |a.blocks| == |b.blocks| && Grows(a.lko, b.lko)
    ensures Missing(b, s) <= Missing(a, s)
    ensures |Missing(b, s)| <= |Missing(a, s)|
  {
    Cardinality(Missing(b, s), Missing(a, s));
  }

  lemma MissingDrops(a: St, b: St, s: Sym, blk: nat)
    requires |a.blocks| == |b.blocks| && Grows(a.lko, b.lko)
    requires blk < |a.blocks| && (s, blk) !in a.lko && (s, blk) in b.lko
    ensures |Missing(b, s)| < |Missing(a, s)|
  {
    assert blk in Missing(a, s) && blk !in Missing(b, s);
    assert Missing(b, s) <= Missing(a, s) - {blk};
    Cardinality(Missing(b, s), Missing(a, s) - {blk});
  }

  lemma Cardinality<T>(a: set<T>, b: set<T>)
    requires a <= b
    ensures |a| <= |b|
  {
    assert b == a + (b - a);
  }

  // A symbol bound at the end of b is on record there, or bound on entry to b
  // and so at the end of each of its predecessors.
  lemma BoundIsReachable(st: St, s: Sym, b: nat)
    requires Inv(st) && b < |st.blocks| && s in BoundAtEnd(st.g, b) && (s, b) !in st.lko
    ensures Sizes(st) && (b, |st.blocks[b].phis|) !in st.g.busy
    ensures s in st.g.bound[b] && !Logged(st.g.logs[b], s) && (s, b) !in st.g.entries
    ensures forall i :: 0 <= i < |st.blocks[b].preds| ==>
      st.blocks[b].preds[i] < |st.blocks| && s in BoundAtEnd(st.g, st.blocks[b].preds[i])
    ensures st.blocks[b].isSealed ==> |st.blocks[b].preds| > 0
    ensures st.blocks[b].isSealed && |st.blocks[b].preds| == 1 ==> st.blocks[b].preds[0] < b
  {
    assert st.g.logs[b][..|st.g.logs[b]|] == st.g.logs[b];
    assert !KnownAt(st.g, s, b, |st.g.logs[b]|);
    assert PredsOkAt(st, b);
  }

  // Block b's symbol s now stands for what its only predecessor ends with.
  ghost function Inherited(st: St, s: Sym, b: nat, o: Operand): St {
    st.(lko := st.lko[(s, b) := o], g := st.g.(entries := st.g.entries[(s, b) := o]))
  }

  lemma InheritedKeepsInv(st: St, s: Sym, b: nat)
    requires Inv(st) && b < |st.blocks| && s in st.g.bound[b] && (s, b) !in st.lko
    requires st.blocks[b].isSealed && |st.blocks[b].preds| == 1
    requires st.blocks[b].preds[0] < |st.blocks| && (s, st.blocks[b].preds[0]) in st.lko
    ensures var o := st.lko[(s, st.blocks[b].preds[0])];
      Inv(Inherited(st, s, b, o)) && LookedUp(st, Inherited(st, s, b, o), s)
  {
    var p := st.blocks[b].preds[0];
    var o := st.lko[(s, p)];
    var st' := Inherited(st, s, b, o);
    assert PredsOkAt(st, b);
    RecordedIsSettled(st, s, p);
    EntryAddedKeepsLko(st, st', s, b, o);
    InheritedKeepsEntries(st, s, b, o);
    InheritedKeepsRest(st, s, b, o);
    ShapeKept(st, st');
  }

  lemma InheritedKeepsEntries(st: St, s: Sym, b: nat, o: Operand)
    requires Sizes(st) && EntriesOk(st) && PhisOk(st) && b < |st.blocks| && s in st.g.bound[b]
    requires (s, b) !in st.lko && (s, b) !in st.g.entries
    requires st.blocks[b].isSealed && |st.blocks[b].preds| == 1 && st.blocks[b].preds[0] < |st.blocks|
    requires (s, st.blocks[b].preds[0]) in st.lko && o == st.lko[(s, st.blocks[b].preds[0])]
    requires Settled(st.g.home, b, 0, o)
    ensures var st' := Inherited(st, s, b, o); Sizes(st') && EntriesOk(st') && PhisOk(st')
  {
    var st' := Inherited(st, s, b, o);
    forall t: Sym, c: nat | (t, c) in st'.g.entries ensures t in st.g.bound[c] && EntryOk(st', t, c) {
      if (t, c) != (s, b) { assert EntryOk(st, t, c); EntryKept(st, st', t, c); }
    }
    forall c, i | 0 <= c < |st.blocks| && 0 <= i < |st.blocks[c].phis| ensures PhiOk(st', c, i) {
      assert PhiOk(st, c, i);
    }
  }

  lemma InheritedKeepsRest(st: St, s: Sym, b: nat, o: Operand)
    requires Sizes(st) && IncompleteOk(st) && BusyOk(st) && b < |st.blocks|
    requires (s, b) !in st.lko && (s, b) !in st.g.entries
    ensures var st' := Inherited(st, s, b, o);
      Sizes(st') && IncompleteOk(st') && BusyOk(st') && LookedUp(st, st', s)
  {
    var st' := Inherited(st, s, b, o);
    forall c | 0 <= c < |st.blocks| && !st.blocks[c].isSealed ensures PendingOk(st', c) { assert PendingOk(st, c); }
    forall c | 0 <= c < |st.blocks| ensures BlockLookedUp(st, st', s, c) {}
  }

  // What is on record at the end of a block is settled there.
  lemma RecordedIsSettled(st: St, s: Sym, b: nat)
    requires Inv(st) && b < |st.blocks| && (s, b) in st.lko
    ensures Settled(st.g.home, b, |st.blocks[b].instrs|, st.lko[(s, b)])
    ensures forall c :: b < c ==> Settled(st.g.home, c, 0, st.lko[(s, b)])
  {
    var log := st.g.logs[b];
    assert log[..|log|] == log;
    assert KnownAt(st.g, s, b, |log|);
    if !Logged(log, s) {
      assert EntryOk(st, s, b);
    }
  }

  lemma EntryAddedKeepsLko(st: St, st': St, s: Sym, b: nat, o: Operand)
    requires Inv(st) && Sizes(st') && |st'.blocks| == |st.blocks| && b < |st.blocks| && (s, b) !in st.lko
    requires st'.g.logs == st.g.logs && st'.g.entries == st.g.entries[(s, b) := o] && st'.lko == st.lko[(s, b) := o]
    ensures LkoOk(st')
    ensures (s, b) !in st.g.entries
  {
    assert st.g.logs[b][..|st.g.logs[b]|] == st.g.logs[b];
    assert !KnownAt(st.g, s, b, |st.g.logs[b]|);
    forall t: Sym, c: nat | c < |st.blocks|
      ensures (t, c) in st'.lko <==> KnownAt(st'.g, t, c, |st.g.logs[c]|)
      ensures (t, c) in st'.lko ==> st'.lko[(t, c)] == OperandAt(st'.g, t, c, |st.g.logs[c]|)
    {
      assert (t, c) in st.lko <==> KnownAt(st.g, t, c, |st.g.logs[c]|);
    }
  }

  // Entries stay right as blocks gain phis and records.
  lemma EntryKept(st: St, st': St, s: Sym, b: nat)
    requires Sizes(st) && Sizes(st') && |st'.blocks| == |st.blocks| && b < |st.blocks|
    requires (s, b) in st.g.entries && EntryOk(st, s, b)
    requires (s, b) in st'.g.entries && st'.g.entries[(s, b)] == st.g.entries[(s, b)]
    requires Grows(st.g.home, st'.g.home) && Grows(st.lko, st'.lko)
    requires st'.blocks[b].isSealed == st.blocks[b].isSealed && st'.blocks[b].preds == st.blocks[b].preds
    requires |st.blocks[b].phis| <= |st'.blocks[b].phis|
    requires forall i :: 0 <= i < |st.blocks[b].phis| ==> st'.blocks[b].phis[i].result == st.blocks[b].phis[i].result
    requires st.g.phiSyms[b] <= st'.g.phiSyms[b]
    ensures EntryOk(st', s, b)
  {
    var o := st.g.entries[(s, b)];
    if i :| 0 <= i < |st.blocks[b].phis| && PhiIs(st, b, i, s, o) {
      assert PhiIs(st', b, i, s, o);
    }
  }

  // A new phi of block b stands for s on entry.
  ghost function WithPhi(st: St, s: Sym, b: nat): St
    requires Sizes(st) && b < |st.blocks|
  {
    var v := st.nextValue;
    var n := |st.blocks[b].phis|;
    st.(blocks := st.blocks[b := st.blocks[b].(phis := st.blocks[b].phis + [Phi(v, [])])],
        lko := st.lko[(s, b) := Register(v)],
        incomplete := if st.blocks[b].isSealed then st.incomplete else st.incomplete[b := Pending(st, b) + [(s, n)]],
        nextValue := v + 1,
        g := st.g.(entries := st.g.entries[(s, b) := Register(v)],
                   home := st.g.home[v := PhiSite(b, n)],
                   phiSyms := st.g.phiSyms[b := st.g.phiSyms[b] + [s]],
                   busy := if st.blocks[b].isSealed then st.g.busy + {(b, n)} else st.g.busy))
  }

  lemma WithPhiKeepsInv(st: St, s: Sym, b: nat)
    requires Inv(st) && b < |st.blocks| && s in st.g.bound[b] && (s, b) !in st.lko
    requires st.blocks[b].isSealed ==> |st.blocks[b].preds| > 1
    ensures Inv(WithPhi(st, s, b)) && LookedUp(st, WithPhi(st, s, b), s)
  {
    var st' := WithPhi(st, s, b);
    assert st.nextValue !in st.g.home;
    EntryAddedKeepsLko(st, st', s, b, Register(st.nextValue));
    WithPhiKeepsEntries(st, s, b);
    WithPhiKeepsPhis(st, s, b);
    ShapeKept(st, st');
    WithPhiIsALookup(st, s, b);
    WithPhiKeepsPending(st, s, b);
  }

  lemma WithPhiIsALookup(st: St, s: Sym, b: nat)
    requires Sizes(st) && BusyOk(st) && HomesOk(st)
    requires b < |st.blocks| && (s, b) !in st.lko && (s, b) !in st.g.entries
    ensures LookedUp(st, WithPhi(st, s, b), s) && BusyOk(WithPhi(st, s, b))
  {
    assert st.nextValue !in st.g.home;
    var st' := WithPhi(st, s, b);
    forall c | 0 <= c < |st.blocks| ensures BlockLookedUp(st, st', s, c) {}
  }

  lemma WithPhiKeepsEntries(st: St, s: Sym, b: nat)
    requires Sizes(st) && EntriesOk(st) && b < |st.blocks| && s in st.g.bound[b]
    requires st.nextValue !in st.g.home && (s, b) !in st.g.entries && (s, b) !in st.lko
    ensures Sizes(WithPhi(st, s, b)) && EntriesOk(WithPhi(st, s, b))
  {
    var st' := WithPhi(st, s, b);
    forall t: Sym, c: nat | (t, c) in st'.g.entries
      ensures c < |st.blocks| && t in st'.g.bound[c] && EntryOk(st', t, c)
    {
      if (t, c) == (s, b) {
        assert PhiIs(st', b, |st.blocks[b].phis|, s, Register(st.nextValue));
      } else {
        assert EntryOk(st, t, c);
        EntryKept(st, st', t, c);
      }
    }
  }

  lemma WithPhiKeepsPhis(st: St, s: Sym, b: nat)
    requires Sizes(st) && PhisOk(st) && BusyOk(st) && b < |st.blocks|
    requires st.nextValue !in st.g.home && (s, b) !in st.g.entries && (s, b) !in st.lko
    ensures Sizes(WithPhi(st, s, b)) && PhisOk(WithPhi(st, s, b))
  {
    var st' := WithPhi(st, s, b);
    forall c, i | 0 <= c < |st'.blocks| && 0 <= i < |st'.blocks[c].phis| ensures PhiOk(st', c, i) {
      if (c, i) != (b, |st.blocks[b].phis|) {
        assert PhiOk(st, c, i);
      }
    }
  }

  lemma WithPhiKeepsPending(st: St, s: Sym, b: nat)
    requires Sizes(st) && IncompleteOk(st) && b < |st.blocks|
    ensures Sizes(WithPhi(st, s, b)) && IncompleteOk(WithPhi(st, s, b))
  {
    var st' := WithPhi(st, s, b);
    forall c | 0 <= c < |st.blocks| && !st'.blocks[c].isSealed ensures PendingOk(st', c) {
      assert PendingOk(st, c);
    }
  }

  // Predecessors, logs and instruction results do not depend on phis.
  lemma ShapeKept(st: St, st': St)
    requires Inv(st) && Sizes(st') && |st'.blocks| == |st.blocks|
    requires st'.g.logs == st.g.logs && st'.g.bound == st.g.bound && st'.g.closed == st.g.closed
    requires Grows(st.g.home, st'.g.home)
    requires forall v :: v in st'.g.home ==> v < st'.nextValue
    requires forall c :: 0 <= c < |st.blocks| ==>
      && st'.blocks[c].preds == st.blocks[c].preds
      && st'.blocks[c].isSealed == st.blocks[c].isSealed
      && st'.blocks[c].instrs == st.blocks[c].instrs
      && (st.blocks[c].isSealed && |st.blocks[c].preds| <= 1 ==> |st'.blocks[c].phis| == |st.blocks[c].phis|)
    ensures PredsOk(st') && LogsOk(st') && HomesOk(st')
  {
    forall c | 0 <= c < |st.blocks| ensures PredsOkAt(st', c) { assert PredsOkAt(st, c); }
  }

  // One more operand for a phi that is being filled.
  ghost function WithIncoming(st: St, b: nat, i: nat, pred: nat, o: Operand): St
    requires Sizes(st) && b < |st.blocks| && i < |st.blocks[b].phis|
  {
    var phi := st.blocks[b].phis[i];
    st.(blocks := st.blocks[b := st.blocks[b].(phis :=
      st.blocks[b].phis[i := phi.(incomings := phi.incomings + [(pred, o)])])])
  }

  lemma WithIncomingKeepsInv(st: St, b: nat, i: nat, pred: nat, o: Operand)
    requires Inv(st) && b < |st.blocks| && i < |st.blocks[b].phis| && (b, i) in st.g.busy
    ensures Inv(WithIncoming(st, b, i, pred, o))
  {
    var st' := WithIncoming(st, b, i, pred, o);
    WithIncomingKeepsEntries(st, b, i, pred, o);
    WithIncomingKeepsPhis(st, b, i, pred, o);
    ShapeKept(st, st');
    assert IncompleteOk(st') by {
      forall c | 0 <= c < |st.blocks| && !st'.blocks[c].isSealed ensures PendingOk(st', c) { assert PendingOk(st, c); }
    }
  }

  lemma WithIncomingKeepsEntries(st: St, b: nat, i: nat, pred: nat, o: Operand)
    requires Inv(st) && b < |st.blocks| && i < |st.blocks[b].phis|
    ensures Sizes(WithIncoming(st, b, i, pred, o)) && EntriesOk(WithIncoming(st, b, i, pred, o))
  {
    var st' := WithIncoming(st, b, i, pred, o);
    forall t: Sym, c: nat | (t, c) in st'.g.entries
      ensures c < |st.blocks| && t in st'.g.bound[c] && EntryOk(st', t, c)
    {
      assert EntryOk(st, t, c);
      EntryKept(st, st', t, c);
    }
  }

  lemma WithIncomingKeepsPhis(st: St, b: nat, i: nat, pred: nat, o: Operand)
    requires Inv(st) && b < |st.blocks| && i < |st.blocks[b].phis| && (b, i) in st.g.busy
    ensures Sizes(WithIncoming(st, b, i, pred, o)) && PhisOk(WithIncoming(st, b, i, pred, o))
  {
    var st' := WithIncoming(st, b, i, pred, o);
    forall c, j | 0 <= c < |st'.blocks| && 0 <= j < |st'.blocks[c].phis| ensures PhiOk(st', c, j) {
      assert PhiOk(st, c, j);
    }
  }

  // The state with other operands in one phi.
  ghost function SetIncomings(st: St, b: nat, i: nat, incomings: seq<(nat, Operand)>): St
    requires Sizes(st) && b < |st.blocks| && i < |st.blocks[b].phis|
  {
    st.(blocks := st.blocks[b := st.blocks[b].(phis :=
      st.blocks[b].phis[i := st.blocks[b].phis[i].(incomings := incomings)])])
  }

  lemma LookedUpBeside(st: St, st': St, s: Sym, b: nat, i: nat, incomings: seq<(nat, Operand)>)
    requires LookedUp(st, st', s) && b < |st.blocks| && i < |st.blocks[b].phis|
    ensures i < |st'.blocks[b].phis|
    ensures LookedUp(SetIncomings(st, b, i, incomings), SetIncomings(st', b, i, incomings), s)
  {
    assert BlockLookedUp(st, st', s, b);
    var a, a' := SetIncomings(st, b, i, incomings), SetIncomings(st', b, i, incomings);
    forall c | 0 <= c < |st.blocks| ensures BlockLookedUp(a, a', s, c) {
      assert BlockLookedUp(st, st', s, c);
    }
  }

  // A filled phi is no longer busy.
  lemma UnbusyKeepsInv(st: St, b: nat, i: nat)
    requires Inv(st) && b < |st.blocks| && i < |st.blocks[b].phis|
    requires st.blocks[b].isSealed && Filled(st, b, i)
    ensures Inv(st.(g := st.g.(busy := st.g.busy - {(b, i)})))
  {
    var st' := st.(g := st.g.(busy := st.g.busy - {(b, i)}));
    ShapeKept(st, st');
    forall c, j | 0 <= c < |st'.blocks| && 0 <= j < |st'.blocks[c].phis| ensures PhiOk(st', c, j) {
      assert PhiOk(st, c, j);
    }
    forall t: Sym, c: nat | (t, c) in st'.g.entries ensures EntryOk(st', t, c) {
      assert EntryOk(st, t, c);
      EntryKept(st, st', t, c);
    }
    assert IncompleteOk(st') by {
      forall c | 0 <= c < |st.blocks| && !st'.blocks[c].isSealed ensures PendingOk(st', c) { assert PendingOk(st, c); }
    }
  }
}
