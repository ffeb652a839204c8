// What it means that names are declared before they are used, read off the text.
module Scoping {
  import opened Ast

  // Where names are declared and used, and where scopes begin and end.
  datatype Mark = Declares(sym: Sym) | Uses(sym: Sym) | Opens | Closes

  function ExprMarks(e: Expr): seq<Mark> {
    match e
    case IntLit(_) => []
    case Ident(s) => [Uses(s)]
    case Binary(_, l, r) => ExprMarks(l) + ExprMarks(r)
    case Assign(s, r) => [Uses(s)] + ExprMarks(r)
    case VarDecl(s, init) => (if init.Some? then ExprMarks(init.value) else []) + [Declares(s)]
  }

  function Scope(ms: seq<Mark>): seq<Mark> { [Opens] + ms + [Closes] }

  function Marks(s: Stmt): seq<Mark>
    decreases s, 0
  {
    match s
    case ExprStmt(e) => ExprMarks(e)
    case Return(r) => Scope(if r.Some? then ExprMarks(r.value) else [])
    case If(c, t, els) => Scope(ExprMarks(c) + Scope(Marks(t)) + if els.Some? then Scope(Marks(els.value)) else [])
    case While(c, body) => Scope(ExprMarks(c) + Scope(Marks(body)))
    case Block(stmts) => Scope(MarksFrom(stmts, 0))
  }

  function MarksFrom(stmts: seq<Stmt>, i: nat): seq<Mark>
    requires i <= |stmts|
    decreases stmts, |stmts| - i + 1
  {
    if i == |stmts| then [] else Marks(stmts[i]) + MarksFrom(stmts, i + 1)
  }

  // How many scopes more were opened than closed.
  function Depth(ms: seq<Mark>): int {
    if ms == [] then 0
    else
      var n := |ms| - 1;
      Depth(ms[..n]) + if ms[n].Opens? then 1 else if ms[n].Closes? then -1 else 0
  }

  // The scope that mark j is in is still open at i.
  ghost predicate StillOpen(ms: seq<Mark>, j: nat, i: nat)
    requires j <= i <= |ms|
  {
    forall k :: j <= k <= i ==> Depth(ms[j..k]) >= 0
  }

  // At i, x is one of bound or declared above in a scope that is still open.
  ghost predicate Visible(ms: seq<Mark>, i: nat, bound: set<Sym>, x: Sym)
    requires i <= |ms|
  {
    x in bound || exists j :: 0 <= j < i && ms[j] == Declares(x) && StillOpen(ms, j, i)
  }

  ghost predicate AllVisible(ms: seq<Mark>, bound: set<Sym>) {
    forall i, x :: 0 <= i < |ms| && ms[i] == Uses(x) ==> Visible(ms, i, bound, x)
  }

  // ----- Depths -----

  lemma {:induction false} DepthAppend(a: seq<Mark>, b: seq<Mark>)
    ensures Depth(a + b) == Depth(a) + Depth(b)
  {
    if b == [] {
      assert a + b == a;
    } else {
      var n := |b| - 1;
      assert (a + b)[..|a + b| - 1] == a + b[..n];
      DepthAppend(a, b[..n]);
    }
  }

  ghost predicate NeverBelow(ms: seq<Mark>) {
    forall k :: 0 <= k <= |ms| ==> Depth(ms[..k]) >= 0
  }

  ghost predicate Nested(ms: seq<Mark>) { NeverBelow(ms) && Depth(ms) == 0 }

  lemma {:induction false} NestedAppend(a: seq<Mark>, b: seq<Mark>)
    requires Nested(a) && Nested(b)
    ensures Nested(a + b)
  {
    DepthAppend(a, b);
    forall k | 0 <= k <= |a + b| ensures Depth((a + b)[..k]) >= 0 {
      if k <= |a| {
        assert (a + b)[..k] == a[..k];
      } else {
        assert (a + b)[..k] == a + b[..k - |a|];
        DepthAppend(a, b[..k - |a|]);
      }
    }
  }

  // ----- What is visible -----

  lemma {:induction false} OpenPrefix(a: seq<Mark>, b: seq<Mark>, j: nat, i: nat)
    requires j <= i <= |a|
    ensures StillOpen(a + b, j, i) <==> StillOpen(a, j, i)
  {
    assert forall k :: j <= k <= i ==> (a + b)[j..k] == a[j..k];
  }

  lemma VisiblePrefix(a: seq<Mark>, b: seq<Mark>, i: nat, bound: set<Sym>, x: Sym)
    requires i <= |a|
    ensures Visible(a + b, i, bound, x) <==> Visible(a, i, bound, x)
  {
    hide StillOpen;
    forall j | 0 <= j < i ensures StillOpen(a + b, j, i) <==> StillOpen(a, j, i) { OpenPrefix(a, b, j, i); }
    assert forall j :: 0 <= j < i ==> (a + b)[j] == a[j];
  }

  // Nothing is closed in b that was open at its start.
  lemma {:induction false} OpenOver(a: seq<Mark>, b: seq<Mark>, j: nat, i: nat)
    requires j <= |a| && i <= |b| && NeverBelow(b)
    ensures StillOpen(a + b, j, |a| + i) <==> StillOpen(a, j, |a|)
  {
    var all := a + b;
    assert forall k :: j <= k <= |a| ==> all[j..k] == a[j..k];
    if StillOpen(a, j, |a|) {
      forall k | j <= k <= |a| + i ensures Depth(all[j..k]) >= 0 {
        if k > |a| {
          assert all[j..k] == a[j..|a|] + b[..k - |a|];
          DepthAppend(a[j..|a|], b[..k - |a|]);
        }
      }
    }
    if StillOpen(all, j, |a| + i) {
      forall k | j <= k <= |a| ensures Depth(a[j..k]) >= 0 { assert Depth(all[j..k]) >= 0; }
    }
  }

  lemma {:induction false} OpenWithin(a: seq<Mark>, b: seq<Mark>, j: nat, i: nat)
    requires j <= i <= |b|
    ensures StillOpen(a + b, |a| + j, |a| + i) <==> StillOpen(b, j, i)
  {
    var all, from := a + b, |a| + j;
    if StillOpen(b, j, i) {
      forall k | from <= k <= |a| + i ensures Depth(all[from..k]) >= 0 { assert all[from..k] == b[j..k - |a|]; }
    }
    if StillOpen(all, |a| + j, |a| + i) {
      forall k | j <= k <= i ensures Depth(b[j..k]) >= 0 {
        var at := |a| + k;
        assert Depth(all[from..at]) >= 0;
        assert all[from..at] == b[j..k];
      }
    }
  }

  lemma VisibleAppend(a: seq<Mark>, b: seq<Mark>, i: nat, bound: set<Sym>, mid: set<Sym>, x: Sym)
    requires i <= |b| && NeverBelow(b) && (x in mid <==> Visible(a, |a|, bound, x))
    ensures Visible(a + b, |a| + i, bound, x) <==> Visible(b, i, mid, x)
  {
    hide StillOpen, NeverBelow;
    var all := a + b;
    if Visible(a, |a|, bound, x) && x !in bound {
      var j :| 0 <= j < |a| && a[j] == Declares(x) && StillOpen(a, j, |a|);
      OpenOver(a, b, j, i);
      assert all[j] == Declares(x);
    }
    if j :| 0 <= j < i && b[j] == Declares(x) && StillOpen(b, j, i) {
      OpenWithin(a, b, j, i);
      assert all[|a| + j] == Declares(x);
    }
    if j :| 0 <= j < |a| + i && all[j] == Declares(x) && StillOpen(all, j, |a| + i) {
      if j < |a| {
        OpenOver(a, b, j, i);
        assert a[j] == Declares(x);
      } else {
        OpenWithin(a, b, j - |a|, i);
        assert b[j - |a|] == Declares(x);
      }
    }
  }

  // ----- Pieces of text -----

  // A piece whose names are all visible exactly if ok holds, and that leaves
  // the names of after visible.
  ghost predicate Does(ms: seq<Mark>, bound: set<Sym>, ok: bool, after: set<Sym>) {
    Nested(ms) && (AllVisible(ms, bound) <==> ok) && forall x :: Visible(ms, |ms|, bound, x) <==> x in after
  }

  lemma DoesNothing(bound: set<Sym>)
    ensures Does([], bound, true, bound)
  {
  }

  lemma {:induction false} DoesOne(m: Mark, bound: set<Sym>)
    requires m.Uses? || m.Declares?
    ensures Does([m], bound, m.Uses? ==> m.sym in bound, if m.Uses? then bound else bound + {m.sym})
  {
    assert Depth([m]) == 0 && Depth([]) == 0 by { assert [m][..0] == []; }
    forall k | 0 <= k <= 1 ensures Depth([m][..k]) >= 0 { assert [m][..k] == if k == 0 then [] else [m]; }
    assert StillOpen([m], 0, 1) by {
      forall k | 0 <= k <= 1 ensures Depth([m][0..k]) >= 0 { assert [m][0..k] == if k == 0 then [] else [m]; }
    }
    forall x ensures Visible([m], 1, bound, x) <==> x in bound || m == Declares(x) {
      if m == Declares(x) { assert [m][0] == Declares(x); }
    }
    if m.Uses? {
      assert AllVisible([m], bound) <==> Visible([m], 0, bound, m.sym) by { assert [m][0] == Uses(m.sym); }
    }
  }

  lemma DoesAppend(a: seq<Mark>, b: seq<Mark>, bound: set<Sym>, ok: bool, mid: set<Sym>, ok': bool, after: set<Sym>)
    requires Does(a, bound, ok, mid) && Does(b, mid, ok', after)
    ensures Does(a + b, bound, ok && ok', after)
  {
    hide Visible, NeverBelow, Depth;
    NestedAppend(a, b);
    var all := a + b;
    forall i, x | 0 <= i <= |b| ensures Visible(all, |a| + i, bound, x) <==> Visible(b, i, mid, x) { VisibleAppend(a, b, i, bound, mid, x); }
    forall i, x | 0 <= i <= |a| ensures Visible(all, i, bound, x) <==> Visible(a, i, bound, x) { VisiblePrefix(a, b, i, bound, x); }
    if AllVisible(all, bound) {
      forall i, x | 0 <= i < |a| && a[i] == Uses(x) ensures Visible(a, i, bound, x) { assert all[i] == Uses(x); }
      forall i, x | 0 <= i < |b| && b[i] == Uses(x) ensures Visible(b, i, mid, x) { assert all[|a| + i] == Uses(x); }
    }
    if AllVisible(a, bound) && AllVisible(b, mid) {
      forall i, x | 0 <= i < |all| && all[i] == Uses(x) ensures Visible(all, i, bound, x) {
        if i < |a| {
          assert a[i] == Uses(x);
        } else {
          assert b[i - |a|] == Uses(x) && Visible(all, |a| + (i - |a|), bound, x) <==> Visible(b, i - |a|, mid, x);
        }
      }
    }
  }

  // What a scope declares is gone when it closes.
  lemma DoesScope(ms: seq<Mark>, bound: set<Sym>, ok: bool, after: set<Sym>)
    requires Does(ms, bound, ok, after)
    ensures Does(Scope(ms), bound, ok, bound)
  {
    hide Visible, NeverBelow, Depth;
    var front := [Opens] + ms;
    ScopeNested(ms);
    forall i, x | 0 <= i <= |ms| ensures Visible(Scope(ms), i + 1, bound, x) <==> Visible(ms, i, bound, x) {
      NothingOpened(bound, x);
      VisibleAppend([Opens], ms, i, bound, bound, x);
      VisiblePrefix(front, [Closes], i + 1, bound, x);
    }
    if AllVisible(Scope(ms), bound) {
      forall i, x | 0 <= i < |ms| && ms[i] == Uses(x) ensures Visible(ms, i, bound, x) { assert Scope(ms)[i + 1] == Uses(x); }
    }
    if AllVisible(ms, bound) {
      forall i, x | 0 <= i < |Scope(ms)| && Scope(ms)[i] == Uses(x) ensures Visible(Scope(ms), i, bound, x) {
        assert ms[i - 1] == Uses(x);
        assert Visible(Scope(ms), (i - 1) + 1, bound, x) <==> Visible(ms, i - 1, bound, x);
      }
    }
    forall x ensures Visible(Scope(ms), |Scope(ms)|, bound, x) <==> x in bound { NothingLeft(ms, bound, x); }
  }

  lemma ScopeNested(ms: seq<Mark>)
    requires Nested(ms)
    ensures Nested(Scope(ms))
  {
    forall k | 0 <= k <= |Scope(ms)| ensures Depth(Scope(ms)[..k]) >= 0 { ScopeDepth(ms, k); }
    ScopeDepth(ms, |Scope(ms)|);
    assert Scope(ms)[..|Scope(ms)|] == Scope(ms);
  }

  lemma {:induction false} ScopeDepth(ms: seq<Mark>, k: nat)
    requires k <= |ms| + 2
    ensures Depth(Scope(ms)[..k]) == if k == 0 then 0 else if k <= |ms| + 1 then 1 + Depth(ms[..k - 1]) else Depth(ms)
  {
    assert Depth([Opens]) == 1 by { assert [Opens][..0] == []; }
    assert Depth([Closes]) == -1 by { assert [Closes][..0] == []; }
    if 0 < k <= |ms| + 1 {
      assert Scope(ms)[..k] == [Opens] + ms[..k - 1];
      DepthAppend([Opens], ms[..k - 1]);
    } else if k == |ms| + 2 {
      assert Scope(ms)[..k] == ([Opens] + ms) + [Closes];
      DepthAppend([Opens], ms);
      DepthAppend([Opens] + ms, [Closes]);
    }
  }

  lemma NothingOpened(bound: set<Sym>, x: Sym)
    ensures Visible([Opens], 1, bound, x) <==> x in bound
  {
  }

  lemma {:induction false} NothingLeft(ms: seq<Mark>, bound: set<Sym>, x: Sym)
    requires Nested(ms)
    ensures Visible(Scope(ms), |Scope(ms)|, bound, x) <==> x in bound
  {
    var all := Scope(ms);
    forall j | 0 <= j < |all| && all[j] == Declares(x) ensures !StillOpen(all, j, |all|) {
      assert all == all[..j] + all[j..|all|];
      DepthAppend(all[..j], all[j..|all|]);
      ScopeDepth(ms, j);
      ScopeDepth(ms, |all|);
      assert all[..|all|] == all;
      assert Depth(ms[..j - 1]) >= 0;
      assert Depth(all[j..|all|]) < 0;
    }
  }

  // ----- Expressions and statements -----

  lemma {:induction false} ExprScoping(e: Expr, bound: set<Sym>)
    ensures Does(ExprMarks(e), bound, ScopedExpr(e, bound), BoundAfter(e, bound))
    decreases e
  {
    hide Does;
    match e
    case IntLit(_) => DoesNothing(bound);
    case Ident(s) => DoesOne(Uses(s), bound);
    case Binary(_, l, r) =>
      ExprScoping(l, bound);
      ExprScoping(r, BoundAfter(l, bound));
      DoesAppend(ExprMarks(l), ExprMarks(r), bound, ScopedExpr(l, bound), BoundAfter(l, bound), ScopedExpr(r, BoundAfter(l, bound)), BoundAfter(e, bound));
    case Assign(s, r) =>
      DoesOne(Uses(s), bound);
      ExprScoping(r, bound);
      DoesAppend([Uses(s)], ExprMarks(r), bound, s in bound, bound, ScopedExpr(r, bound), BoundAfter(r, bound));
    case VarDecl(s, init) =>
      if init.Some? {
        ExprScoping(init.value, bound);
        DoesOne(Declares(s), BoundAfter(init.value, bound));
        DoesAppend(ExprMarks(init.value), [Declares(s)], bound, ScopedExpr(init.value, bound), BoundAfter(init.value, bound), true, BoundAfter(e, bound));
      } else {
        DoesOne(Declares(s), bound);
        assert [] + [Declares(s)] == [Declares(s)];
      }
  }

  lemma {:induction false} StmtScoping(s: Stmt, bound: set<Sym>)
    ensures Does(Marks(s), bound, ScopedStmt(s, bound), BoundAfterStmt(s, bound))
    decreases s, 0
  {
    hide Does;
    match s
    case ExprStmt(e) => ExprScoping(e, bound);
    case Return(r) =>
      if r.Some? {
        ExprScoping(r.value, bound);
        DoesScope(ExprMarks(r.value), bound, ScopedExpr(r.value, bound), BoundAfter(r.value, bound));
      } else {
        DoesNothing(bound);
        DoesScope([], bound, true, bound);
      }
    case If(c, t, els) =>
      var mid := BoundAfter(c, bound);
      var ok := ScopedExpr(c, bound) && ScopedStmt(t, mid);
      ExprScoping(c, bound);
      StmtScoping(t, mid);
      DoesScope(Marks(t), mid, ScopedStmt(t, mid), BoundAfterStmt(t, mid));
      DoesAppend(ExprMarks(c), Scope(Marks(t)), bound, ScopedExpr(c, bound), mid, ScopedStmt(t, mid), mid);
      if els.Some? {
        StmtScoping(els.value, mid);
        DoesScope(Marks(els.value), mid, ScopedStmt(els.value, mid), BoundAfterStmt(els.value, mid));
        DoesAppend(ExprMarks(c) + Scope(Marks(t)), Scope(Marks(els.value)), bound, ok, mid, ScopedStmt(els.value, mid), mid);
        DoesScope(ExprMarks(c) + Scope(Marks(t)) + Scope(Marks(els.value)), bound, ok && ScopedStmt(els.value, mid), mid);
      } else {
        assert ExprMarks(c) + Scope(Marks(t)) + [] == ExprMarks(c) + Scope(Marks(t));
        DoesScope(ExprMarks(c) + Scope(Marks(t)), bound, ok, mid);
      }
    case While(c, body) =>
      var mid := BoundAfter(c, bound);
      ExprScoping(c, bound);
      StmtScoping(body, mid);
      DoesScope(Marks(body), mid, ScopedStmt(body, mid), BoundAfterStmt(body, mid));
      DoesAppend(ExprMarks(c), Scope(Marks(body)), bound, ScopedExpr(c, bound), mid, ScopedStmt(body, mid), mid);
      DoesScope(ExprMarks(c) + Scope(Marks(body)), bound, ScopedExpr(c, bound) && ScopedStmt(body, mid), mid);
    case Block(stmts) =>
      var after := ListScoping(stmts, 0, bound);
      DoesScope(MarksFrom(stmts, 0), bound, ScopedFrom(stmts, 0, bound), after);
  }

  lemma {:induction false} ListScoping(stmts: seq<Stmt>, i: nat, bound: set<Sym>) returns (after: set<Sym>)
    requires i <= |stmts|
    ensures Does(MarksFrom(stmts, i), bound, ScopedFrom(stmts, i, bound), after)
    decreases stmts, |stmts| - i + 1
  {
    hide Does;
    if i == |stmts| {
      DoesNothing(bound);
      after := bound;
    } else {
      var mid := BoundAfterStmt(stmts[i], bound);
      StmtScoping(stmts[i], bound);
      after := ListScoping(stmts, i + 1, mid);
      DoesAppend(Marks(stmts[i]), MarksFrom(stmts, i + 1), bound, ScopedStmt(stmts[i], bound), mid, ScopedFrom(stmts, i + 1, mid), after);
    }
  }

  // A body is well scoped exactly if every name it uses is a parameter or is
  // declared above in a scope that is still open.
  lemma ScopedExactly(body: Stmt, params: set<Sym>)
    ensures ScopedStmt(body, params) <==> AllVisible(Marks(body), params)
  {
    hide ScopedStmt, Marks, AllVisible;
    StmtScoping(body, params);
  }
}
