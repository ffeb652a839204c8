// From a function's body to code with copies in place of phis.
module Pipeline {
  import opened Ast
  import opened Cfg
  import opened CriticalEdges
  import opened IR
  import opened PhiElimination
  import opened SsaBuilder
  import opened SsaFunction

  lemma ListsInRange(blocks: seq<BasicBlock>)
    requires WellFormed(blocks) && ListsOk(blocks)
    ensures SuccsInRange(blocks)
  {
    hide Labelled;
    forall b, i | 0 <= b < |blocks| && 0 <= i < |blocks[b].succs| ensures blocks[b].succs[i] < |blocks| {
      assert BlockOk(blocks, b) && blocks[b].succs[i] in blocks[b].succs;
    }
  }

  // Started on args the code returns v.
  ghost predicate CodeReturns(code: seq<seq<Lowered>>, args: seq<Word>, v: Word) {
    exists m: nat :: LoweredRun(code, Start(args), m) == Done(v)
  }

  ghost predicate AllCopiesSafe(blocks: seq<BasicBlock>)
    requires SuccsInRange(blocks)
  {
    forall b :: 0 <= b < |blocks| ==> CopiesSafe(blocks[b].instrs, BlockCopies(blocks, b))
  }

  // Where the copies are safe the code returns exactly what the body yields.
  method LowerToCopies(params: seq<Sym>, body: Stmt) returns (f: Function, code: seq<seq<Lowered>>)
    requires ScopedStmt(body, SymSet(params))
    ensures SuccsInRange(f.blocks) && code == LowerGraph(f.blocks)
    ensures AllCopiesSafe(f.blocks) ==>
      forall args, v: Word | |args| == |params| :: CodeReturns(code, args, v) <==> Yields(params, body, args, v)
  {
    hide WellFormed, SingleAssignment, PhisAtJoins, NoCriticalEdge, ListsOk, Yields, CodeReturns, LowerCode, CopiesTo, CopiesSafe;
    f := LowerFunction(params, body);
    var blocks := f.blocks;
    ListsInRange(blocks);
    code := [];
    var b := 0;
    while b < |blocks|
      invariant b <= |blocks| && f.blocks == blocks && code == LowerGraph(blocks)[..b]
    {
      var lowered := LowerBlock(blocks, b);
      code := code + [lowered];
      b := b + 1;
    }
    assert code == LowerGraph(blocks);
    if AllCopiesSafe(blocks) {
      forall args, v: Word | |args| == |params| ensures CodeReturns(code, args, v) <==> Yields(params, body, args, v) {
        ReturnsSame(blocks, params, args, v);
      }
    }
  }

  lemma ReturnsSame(blocks: seq<BasicBlock>, params: seq<Sym>, args: seq<Word>, v: Word)
    requires SuccsInRange(blocks) && Lowerable(blocks, |params|) && NeverStuck(blocks, args)
    ensures CodeReturns(LowerGraph(blocks), args, v) <==> Returns(blocks, args, v)
  {
    hide Lowerable, LowerGraph, NeverStuck, LoweredRun, Run;
    LoweringExact(blocks, |params|, args, Done(v));
  }
}
