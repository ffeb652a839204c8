// Code of a single block: what is live in it, and its runs.
module OneBlock {
  import opened Coloring
  import opened Liveness
  import opened Machine
  import opened MachineRun
  import opened SpillingCorrect

  function One(code: seq<Instr>): seq<Block> { [Block(code, [])] }

  // Liveness of one block, given as a list.
  function Ins(live: seq<set<nat>>): Sets {
    map p: Point | p in Spots(|live|) :: if p.idx < |live| then live[p.idx] else {}
  }

  function Outs(live: seq<set<nat>>): Sets {
    map p: Point | p in Spots(|live|) :: Tail(live, p.idx)
  }

  function Spots(n: nat): set<Point> { set i | 0 <= i < n :: Point(0, i) }

  // ----- Liveness -----

  // Each instruction's set follows from the one below.
  ghost predicate Chained(code: seq<Instr>, live: seq<set<nat>>) {
    && |code| == |live|
    && forall n :: 0 <= n < |code| ==> LinkOk(code, live, n)
  }

  ghost predicate LinkOk(code: seq<Instr>, live: seq<set<nat>>, n: nat)
    requires n < |code| == |live|
  {
    live[n] == Use(code[n]) + (Tail(live, n) - Wrt(code[n]))
  }

  function Tail(live: seq<set<nat>>, n: nat): set<nat> { if n + 1 < |live| then live[n + 1] else {} }

  lemma NextInOne(code: seq<Instr>, n: nat)
    requires n < |code|
    ensures IsPoint(One(code), Point(0, n)) && InstrAt(One(code), Point(0, n)) == code[n]
    ensures Next(One(code), Point(0, n)) == if n + 1 < |code| then {Point(0, n + 1)} else {}
  {
  }

  lemma SetsAt(live: seq<set<nat>>, n: nat)
    requires n < |live|
    ensures Point(0, n) in Ins(live) && Ins(live)[Point(0, n)] == live[n]
    ensures Point(0, n) in Outs(live) && Outs(live)[Point(0, n)] == Tail(live, n)
  {
    assert Point(0, n) in Spots(|live|);
  }

  lemma ChainedSolves(code: seq<Instr>, live: seq<set<nat>>)
    requires Chained(code, live)
    ensures Solves(One(code), Ins(live), Outs(live))
  {
    hide Use, Wrt, Next, Ins, Outs;
    var blocks := One(code);
    CoversOne(code, live);
    forall p | IsPoint(blocks, p) ensures SolvesAt(blocks, Ins(live), Outs(live), p) {
      NextInOne(code, p.idx);
      SetsAt(live, p.idx);
      if p.idx + 1 < |code| {
        SetsAt(live, p.idx + 1);
        assert Point(0, p.idx + 1) in Next(blocks, p);
      }
      forall y ensures y in Outs(live)[p] <==> InSome(Ins(live), Next(blocks, p), y) {
        if p.idx + 1 < |code| && y in live[p.idx + 1] { assert Point(0, p.idx + 1) in Next(blocks, p); }
      }
      assert LinkOk(code, live, p.idx);
    }
  }

  lemma CoversOne(code: seq<Instr>, live: seq<set<nat>>)
    requires |code| == |live|
    ensures Covers(One(code), Ins(live)) && Covers(One(code), Outs(live))
  {
    forall p ensures p in Spots(|live|) <==> IsPoint(One(code), p) {}
  }

  // In one block a solution is what is live.
  lemma {:induction false} ChainedLive(code: seq<Instr>, live: seq<set<nat>>, n: nat, y: nat)
    requires Chained(code, live) && n < |code| && y in live[n]
    ensures Live(One(code), Point(0, n), y)
    decreases |code| - n
  {
    hide Use, Wrt, Next;
    NextInOne(code, n);
    assert LinkOk(code, live, n);
    if y in Use(code[n]) {
      LiveHere(One(code), Point(0, n), y);
    } else {
      ChainedLive(code, live, n + 1, y);
      LiveBefore(One(code), Point(0, n), Point(0, n + 1), y);
    }
  }

  lemma AllLive(code: seq<Instr>, live: seq<set<nat>>, p: Point, y: nat)
    requires Chained(code, live) && IsPoint(One(code), p)
    ensures p in Ins(live) && (y in Ins(live)[p] <==> Live(One(code), p, y))
  {
    hide Use, Wrt;
    assert p in Spots(|live|);
    ChainedSolves(code, live);
    if y in live[p.idx] { ChainedLive(code, live, p.idx, y); }
    if path :| LivePath(One(code), path, y) && path[0] == p {
      SolutionHasLive(One(code), Ins(live), Outs(live), path, y);
    }
  }

  // ----- Runs -----

  // One block run from its start, given the states it goes through.
  ghost predicate Goes(registers: seq<Register>, w: World, code: seq<Instr>, homes: map<nat, nat>, junk: Junk, states: seq<State>) {
    && 0 < |states| <= |code| + 1
    && forall n :: 0 <= n < |states| - 1 ==> GoesOn(registers, w, code, homes, junk, states, n)
  }

  ghost predicate GoesOn(registers: seq<Register>, w: World, code: seq<Instr>, homes: map<nat, nat>, junk: Junk, states: seq<State>, n: nat)
    requires n + 1 < |states| <= |code| + 1
  {
    !code[n].op.RET? && !code[n].op.IsJump() && states[n + 1] == Effect(registers, w, homes, junk, states[n], code[n])
  }

  lemma {:induction false} RunGoes(registers: seq<Register>, w: World, code: seq<Instr>, homes: map<nat, nat>, junk: Junk, states: seq<State>)
    requires Goes(registers, w, code, homes, junk, states)
    ensures Run(registers, One(code), w, homes, junk, At(0, 0, states[0]), |states| - 1) == At(0, |states| - 1, states[|states| - 1])
  {
    hide Effect, Run;
    var n := |states| - 1;
    if n == 0 {
      RunNothing(registers, w, One(code), homes, junk, At(0, 0, states[0]));
    } else {
      assert Goes(registers, w, code, homes, junk, states[..n]) by {
        forall m | 0 <= m < n - 1 ensures GoesOn(registers, w, code, homes, junk, states[..n], m) { assert GoesOn(registers, w, code, homes, junk, states, m); }
      }
      RunGoes(registers, w, code, homes, junk, states[..n]);
      assert GoesOn(registers, w, code, homes, junk, states, n - 1);
      OneEffect(registers, One(code), w, homes, junk, 0, n - 1, states[n - 1]);
      RunPlus(registers, One(code), w, homes, junk, At(0, 0, states[0]), n - 1, 1);
    }
  }

  lemma {:induction false} RunNothing(registers: seq<Register>, w: World, blocks: seq<Machine.Block>, homes: map<nat, nat>, junk: Junk, c: Config)
    ensures Run(registers, blocks, w, homes, junk, c, 0) == c
  {
  }

  // A run that comes to a return ends with the result register.
  lemma RunReturns(registers: seq<Register>, w: World, code: seq<Instr>, homes: map<nat, nat>, junk: Junk, states: seq<State>)
    requires Goes(registers, w, code, homes, junk, states) && |states| == |code| && code[|code| - 1].op.RET?
    ensures var last := states[|states| - 1];
      Ends(registers, One(code), w, homes, junk, states[0], Get(last.regs, w.rax), last.mem)
  {
    hide Effect, Goes, Run;
    RunGoes(registers, w, code, homes, junk, states);
    var n := |code| - 1;
    var c := At(0, n, states[n]);
    OneStep(registers, One(code), w, homes, junk, c);
    RunPlus(registers, One(code), w, homes, junk, At(0, 0, states[0]), n, 1);
    assert Run(registers, One(code), w, homes, junk, At(0, 0, states[0]), n + 1) == Done(Get(states[n].regs, w.rax), states[n].mem);
  }

  // ----- What is found out about it -----

  // What is live, found exactly, is what the list says.
  lemma SetsAre(code: seq<Instr>, live: seq<set<nat>>, ins: Sets, outs: Sets)
    requires Chained(code, live) && Solves(One(code), ins, outs)
    requires forall p, y :: IsPoint(One(code), p) ==> (y in ins[p] <==> Live(One(code), p, y))
    ensures ins == Ins(live) && outs == Outs(live)
  {
    hide Ins, Outs, LinkOk, Live, SolvesAt;
    ChainedSolves(code, live);
    CoversOne(code, live);
    forall p | p in ins ensures ins[p] == Ins(live)[p] {
      forall y ensures y in ins[p] <==> y in Ins(live)[p] { AllLive(code, live, p, y); }
    }
    assert ins == Ins(live);
    OutsFollow(One(code), ins, outs, Outs(live));
  }

  lemma OutsFollow(blocks: seq<Block>, ins: Sets, outs: Sets, outs': Sets)
    requires Solves(blocks, ins, outs) && Solves(blocks, ins, outs')
    ensures outs == outs'
  {
    hide Use, Wrt, Next, InSome;
    forall p | p in outs ensures p in outs' && outs[p] == outs'[p] {
      assert SolvesAt(blocks, ins, outs, p) && SolvesAt(blocks, ins, outs', p);
    }
  }

  lemma ClashIn(code: seq<Instr>, live: seq<set<nat>>, p: Point, x: nat, y: nat)
    requires |code| == |live|
    ensures Clash(One(code), Outs(live), p, x, y) <==>
      p.block == 0 && p.idx < |code| && x != y && x in Wrt(code[p.idx]) && y in Tail(live, p.idx)
  {
    hide Outs, Wrt;
    if p.block == 0 && p.idx < |code| {
      NextInOne(code, p.idx);
      SetsAt(live, p.idx);
    }
  }
}
