// The colouring loop: one node leaves the graph at each pass, coloured or spilled.
module GreedyColoring {
  import opened Ast
  import opened Coloring
  import opened Machine
  import opened Ordered

  datatype Problem = Problem(registers: seq<Register>, graph: Graph, domains: Domains, fixedVregs: set<nat>)

  // The state of the loop. saved: the callee-saved registers to preserve.
  datatype Work = Work(graph: Graph, domains: Domains, colors: map<nat, nat>, spilled: set<nat>, saved: set<nat>)

  ghost predicate Proper(p: Problem) {
    && TableOk(p.registers) && p.graph.Keys == p.domains.Keys
    && (forall x, y :: Adjacent(p, x, y) ==> Adjacent(p, y, x) && x != y)
    && (forall x, c :: x in p.domains && c in p.domains[x] ==> IsColor(p.registers, c))
    && (forall x :: x in p.graph && x in p.fixedVregs ==> p.domains[x] != {})
  }

  // ----- What every pass keeps -----

  // The graph is the whole graph without the nodes that left. (A fixed node
  // keeps its neighbours until it leaves.)
  ghost predicate GraphOk(p: Problem, w: Work) {
    && w.graph.Keys <= p.graph.Keys
    && forall x :: x in w.graph ==> w.graph[x] == if x in p.fixedVregs then p.graph[x] else p.graph[x] * w.graph.Keys
  }

  // Each node is in one place: waiting, coloured or spilled.
  ghost predicate Accounted(p: Problem, w: Work) {
    && w.graph.Keys + w.colors.Keys + w.spilled == p.graph.Keys
    && w.graph.Keys !! w.colors.Keys !! w.spilled
    && w.spilled !! p.fixedVregs
  }

  // Domains only shrink, and have lost what is not apart from the colours of
  // the coloured neighbours.
  ghost predicate DomainsOk(p: Problem, w: Work) {
    && w.domains.Keys == p.domains.Keys
    && (forall x :: x in w.graph && x in w.domains && x in p.domains ==> w.domains[x] <= p.domains[x])
    && (forall x :: x in w.graph && x in p.fixedVregs && x in w.domains && x in p.domains ==> w.domains[x] == p.domains[x])
    && forall x, y :: Adjacent(p, x, y) && x in w.graph && x in w.domains && x !in p.fixedVregs && y in w.colors ==>
        Lost(p.registers, w.domains[x], w.colors[y])
  }

  ghost predicate Adjacent(p: Problem, x: nat, y: nat) {
    x in p.graph && y in p.graph[x]
  }

  ghost predicate Lost(registers: seq<Register>, domain: set<nat>, c: nat) {
    forall d :: d in domain ==> AreApart(registers, d, c)
  }

  ghost predicate ColorsOk(p: Problem, w: Work) {
    && (forall x :: x in w.colors ==> x in p.domains && w.colors[x] in p.domains[x])
    && forall x, y :: Adjacent(p, x, y) && x in w.colors && y in w.colors && !(x in p.fixedVregs && y in p.fixedVregs) ==>
        AreApart(p.registers, w.colors[x], w.colors[y])
  }

  // The whole registers behind the callee-saved colours in use.
  ghost predicate SavedOk(p: Problem, w: Work) {
    TableOk(p.registers) && forall r :: r in w.saved <==> exists x :: NeedsSaving(p, w, x, r)
  }

  ghost predicate NeedsSaving(p: Problem, w: Work, x: nat, r: nat)
    requires TableOk(p.registers)
  {
    && x in w.colors && x !in p.fixedVregs && w.colors[x] < |p.registers|
    && !p.registers[w.colors[x]].callerSaved && !p.registers[w.colors[x]].reserved
    && r == Root(p.registers, w.colors[x])
  }

  ghost predicate Kept(p: Problem, w: Work) {
    GraphOk(p, w) && Accounted(p, w) && DomainsOk(p, w) && ColorsOk(p, w) && SavedOk(p, w)
  }

  // ----- One pass -----

  // Node x takes colour c: its neighbours lose exactly what is not apart from c.
  ghost predicate Colored(p: Problem, w: Work, x: nat, c: nat, w': Work) {
    && x in w.graph && x in w.domains && c in w.domains[x] && c < |p.registers|
    && Left(p, w, x, w')
    && w'.colors == w.colors[x := c] && w'.spilled == w.spilled
    && w'.domains.Keys == w.domains.Keys
    && Taking(p, w.domains, w.graph[x] - p.fixedVregs, c, w'.domains)
  }

  ghost predicate Taking(p: Problem, domains: Domains, vregs: set<nat>, c: nat, domains': Domains) {
    forall n: nat, d: nat :: n in domains && n in domains' ==> TakingOne(p, domains, vregs, c, domains', n, d)
  }

  ghost predicate TakingOne(p: Problem, domains: Domains, vregs: set<nat>, c: nat, domains': Domains, n: nat, d: nat)
    requires n in domains && n in domains'
  {
    d in domains'[n] <==> d in domains[n] && (n in vregs ==> AreApart(p.registers, d, c))
  }

  lemma TakingAt(p: Problem, domains: Domains, vregs: set<nat>, c: nat, domains': Domains, n: nat, d: nat)
    requires Taking(p, domains, vregs, c, domains') && n in domains && n in domains'
    ensures d in domains'[n] <==> d in domains[n] && (n in vregs ==> AreApart(p.registers, d, c))
  {
    assert TakingOne(p, domains, vregs, c, domains', n, d);
  }

  lemma TakingShrinks(p: Problem, domains: Domains, vregs: set<nat>, c: nat, domains': Domains, n: nat)
    requires Taking(p, domains, vregs, c, domains') && n in domains && n in domains'
    ensures domains'[n] <= domains[n] && (n !in vregs ==> domains'[n] == domains[n])
    ensures n in vregs ==> Lost(p.registers, domains'[n], c)
  {
    hide AreApart, Taking;
    forall d: nat ensures d in domains'[n] <==> d in domains[n] && (n in vregs ==> AreApart(p.registers, d, c)) {
      TakingAt(p, domains, vregs, c, domains', n, d);
    }
  }

  // Taking the family of c away does that.
  lemma FamilyTaken(p: Problem, domains: Domains, vregs: set<nat>, c: nat, domains': Domains)
    requires TableOk(p.registers) && IsColor(p.registers, c) && domains'.Keys == domains.Keys
    requires forall n, d :: n in vregs && n in domains && d in domains[n] ==> IsColor(p.registers, d)
    requires forall n :: n in domains ==> domains'[n] == if n in vregs then domains[n] - Family(p.registers, c) else domains[n]
    ensures Taking(p, domains, vregs, c, domains')
  {
    hide TableOk, Family, AreApart;
    forall n, d | n in vregs && n in domains && d in domains[n] ensures d in Family(p.registers, c) <==> !AreApart(p.registers, d, c) {
      FamilyIsNotApart(p.registers, d, c);
    }
  }

  // Node x is left without a colour.
  ghost predicate IsSpilled(p: Problem, w: Work, x: nat, w': Work) {
    x in w.graph && Left(p, w, x, w') && w' == w.(graph := w'.graph, spilled := w.spilled + {x})
  }

  // Node x leaves the graph.
  ghost predicate Left(p: Problem, w: Work, x: nat, w': Work)
    requires x in w.graph
  {
    && w'.graph.Keys == w.graph.Keys - {x}
    && forall n :: n in w'.graph ==> w'.graph[n] == if n in w.graph[x] - p.fixedVregs then w.graph[n] - {x} else w.graph[n]
  }

  lemma LeftKeepsGraph(p: Problem, w: Work, x: nat, w': Work)
    requires Proper(p) && GraphOk(p, w) && x in w.graph && Left(p, w, x, w')
    ensures GraphOk(p, w')
  {
    forall n | n in w'.graph
      ensures w'.graph[n] == if n in p.fixedVregs then p.graph[n] else p.graph[n] * w'.graph.Keys
    {
      if n !in p.fixedVregs {
        assert Adjacent(p, x, n) <==> Adjacent(p, n, x);
      }
    }
  }

  // x is fixed and so is all that is coloured, or x is free.
  lemma ColoredKeepsDomains(p: Problem, w: Work, x: nat, c: nat, w': Work)
    requires Proper(p) && GraphOk(p, w) && DomainsOk(p, w) && x in w.graph && Colored(p, w, x, c, w')
    requires x in p.fixedVregs || w.graph.Keys !! p.fixedVregs
    ensures DomainsOk(p, w')
  {
    hide Taking, AreApart;
    forall n | n in w'.graph ensures n in w'.domains && n in p.domains && w'.domains[n] <= p.domains[n] && (n in p.fixedVregs ==> w'.domains[n] == p.domains[n]) {
      TakingShrinks(p, w.domains, w.graph[x] - p.fixedVregs, c, w'.domains, n);
    }
    forall n, y | Adjacent(p, n, y) && n in w'.graph && n in w'.domains && n !in p.fixedVregs && y in w'.colors
      ensures Lost(p.registers, w'.domains[n], w'.colors[y])
    {
      TakingShrinks(p, w.domains, w.graph[x] - p.fixedVregs, c, w'.domains, n);
      if y == x {
        assert n in p.graph[x];
      } else {
        assert Lost(p.registers, w.domains[n], w.colors[y]);
      }
    }
  }

  lemma ColoredKeepsColors(p: Problem, w: Work, x: nat, c: nat, w': Work)
    requires Proper(p) && GraphOk(p, w) && Accounted(p, w) && DomainsOk(p, w) && ColorsOk(p, w) && Colored(p, w, x, c, w')
    requires x !in p.fixedVregs || w.colors.Keys <= p.fixedVregs
    ensures ColorsOk(p, w')
  {
    forall u, v | Adjacent(p, u, v) && u in w'.colors && v in w'.colors && !(u in p.fixedVregs && v in p.fixedVregs)
      ensures AreApart(p.registers, w'.colors[u], w'.colors[v])
    {
      if u == x {
        assert Lost(p.registers, w.domains[x], w.colors[v]);
      } else if v == x {
        assert Adjacent(p, x, u);
        assert Lost(p.registers, w.domains[x], w.colors[u]);
      } else {
        assert AreApart(p.registers, w.colors[u], w.colors[v]);
      }
    }
  }

  lemma {:induction false} ColoredKeepsSaved(p: Problem, w: Work, x: nat, c: nat, w': Work)
    requires Proper(p) && SavedOk(p, w) && Accounted(p, w) && Colored(p, w, x, c, w')
    requires w'.saved == w.saved +
      if x !in p.fixedVregs && !p.registers[c].callerSaved && !p.registers[c].reserved then {Root(p.registers, c)} else {}
    ensures SavedOk(p, w')
  {
    forall r ensures r in w'.saved <==> exists y :: NeedsSaving(p, w', y, r) {
      if y :| NeedsSaving(p, w, y, r) { assert NeedsSaving(p, w', y, r); }
      if y :| NeedsSaving(p, w', y, r) {
        if y != x { assert NeedsSaving(p, w, y, r); }
      }
      if r in w'.saved && r !in w.saved { assert NeedsSaving(p, w', x, r); }
    }
  }

  lemma {:induction false} ColoredKeeps(p: Problem, w: Work, x: nat, c: nat, w': Work)
    requires Proper(p) && Kept(p, w) && Colored(p, w, x, c, w')
    requires if x in p.fixedVregs then w.colors.Keys <= p.fixedVregs else w.graph.Keys !! p.fixedVregs
    requires w'.saved == w.saved +
      if x !in p.fixedVregs && !p.registers[c].callerSaved && !p.registers[c].reserved then {Root(p.registers, c)} else {}
    ensures Kept(p, w')
  {
    hide GraphOk, DomainsOk, ColorsOk, SavedOk, Proper;
    LeftKeepsGraph(p, w, x, w');
    ColoredKeepsDomains(p, w, x, c, w');
    ColoredKeepsColors(p, w, x, c, w');
    ColoredKeepsSaved(p, w, x, c, w');
  }

  lemma TableThere(p: Problem)
    requires Proper(p)
    ensures TableOk(p.registers)
  {
  }

  // A colour a waiting node may take is a register, and a fixed node has one.
  lemma ColorsThere(p: Problem, w: Work, x: nat)
    requires Proper(p) && Kept(p, w) && x in w.graph
    ensures x in w.domains && w.graph[x] <= p.graph.Keys && w.graph[x] <= w.domains.Keys
    ensures forall c :: c in w.domains[x] ==> IsColor(p.registers, c)
    ensures x in p.fixedVregs ==> w.domains[x] != {}
    ensures x !in p.fixedVregs ==> w.graph[x] <= w.graph.Keys
  {
    assert forall y :: y in p.graph[x] ==> Adjacent(p, x, y);
    assert p.graph[x] <= p.graph.Keys;
  }

  lemma SpilledKeeps(p: Problem, w: Work, x: nat, w': Work)
    requires Proper(p) && Kept(p, w) && x in w.graph && x !in p.fixedVregs && Left(p, w, x, w')
    requires w' == w.(graph := w'.graph, spilled := w.spilled + {x})
    ensures Kept(p, w')
  {
    hide GraphOk, Proper, DomainsOk, ColorsOk, SavedOk;
    LeftKeepsGraph(p, w, x, w');
    LeavesRest(p, w, w');
  }

  // Taking a node out of the graph only weakens what is asked of the rest.
  lemma LeavesRest(p: Problem, w: Work, w': Work)
    requires DomainsOk(p, w) && ColorsOk(p, w) && SavedOk(p, w) && w'.graph.Keys <= w.graph.Keys
    requires w'.domains == w.domains && w'.colors == w.colors && w'.saved == w.saved
    ensures DomainsOk(p, w') && ColorsOk(p, w') && SavedOk(p, w')
  {
    hide NeedsSaving, Lost, AreApart, TableOk;
    assert SavedOk(p, w') by { SameSaved(p, w, w'); }
  }

  lemma SameSaved(p: Problem, w: Work, w': Work)
    requires SavedOk(p, w) && w'.colors == w.colors && w'.saved == w.saved
    ensures SavedOk(p, w')
  {
    forall x, r ensures NeedsSaving(p, w, x, r) <==> NeedsSaving(p, w', x, r) {}
  }

  ghost predicate FixedPass(p: Problem, w: Work, x: nat, w': Work) {
    x in w.domains && exists c :: IsLeast(w.domains[x], c) && Colored(p, w, x, c, w')
  }

  ghost predicate IsLeast(domain: set<nat>, c: nat) { c in domain && forall d :: d in domain ==> c <= d }

  lemma TakenFrom(p: Problem, w: Work, vregs: set<nat>, c: nat, domains': Domains)
    requires Proper(p) && Kept(p, w) && vregs <= w.graph.Keys && vregs <= w.domains.Keys && IsColor(p.registers, c)
    requires domains'.Keys == w.domains.Keys
    requires forall n :: n in domains' ==> domains'[n] == if n in vregs then w.domains[n] - Family(p.registers, c) else w.domains[n]
    ensures Taking(p, w.domains, vregs, c, domains')
  {
    hide Proper, Kept, Family;
    TableThere(p);
    forall n, d | n in vregs && n in w.domains && d in w.domains[n] ensures IsColor(p.registers, d) { ColorsThere(p, w, n); }
    FamilyTaken(p, w.domains, vregs, c, domains');
  }

  // A fixed vreg has its colour before the loop starts.
  method ColorFixed(p: Problem, w0: Work, x: nat) returns (w: Work)
    requires Proper(p) && Kept(p, w0) && x in w0.graph && x in p.fixedVregs && w0.colors.Keys <= p.fixedVregs
    requires p.graph.Keys - p.fixedVregs <= w0.graph.Keys && x in w0.domains
    ensures Kept(p, w) && w.graph.Keys == w0.graph.Keys - {x} && w.colors.Keys == w0.colors.Keys + {x}
    ensures w.saved == w0.saved && w.spilled == w0.spilled
    ensures FixedPass(p, w0, x, w)
  {
    hide GraphOk, DomainsOk, ColorsOk, SavedOk, Proper, Taking, Family, TableOk;
    ColorsThere(p, w0, x);
    var c := Smallest(w0.domains[x]);
    var neighbours := w0.graph[x] - p.fixedVregs;
    var domains := EraseColors(w0.domains, neighbours, Family(p.registers, c));
    var graph := Detach(w0.graph, x, neighbours);
    TakenFrom(p, w0, neighbours, c, domains);
    w := Work(graph, domains, w0.colors[x := c], w0.spilled, w0.saved);
    ColoredKeeps(p, w0, x, c, w);
  }

  method ColorFree(p: Problem, w0: Work, x: nat, c: nat) returns (w: Work)
    requires Proper(p) && TableOk(p.registers) && Kept(p, w0) && w0.graph.Keys !! p.fixedVregs
    requires x in w0.graph && x in w0.domains && c in w0.domains[x]
    ensures Kept(p, w) && Colored(p, w0, x, c, w)
  {
    hide GraphOk, DomainsOk, ColorsOk, SavedOk, Proper, Taking, Family, TableOk;
    ColorsThere(p, w0, x);
    var saved := w0.saved;
    if !p.registers[c].callerSaved && !p.registers[c].reserved {
      var root := RootOf(p.registers, c);
      saved := saved + {root};
    }
    assert w0.graph[x] - p.fixedVregs == w0.graph[x];
    var domains := EraseColors(w0.domains, w0.graph[x], Family(p.registers, c));
    var graph := Detach(w0.graph, x, w0.graph[x]);
    TakenFrom(p, w0, w0.graph[x], c, domains);
    w := Work(graph, domains, w0.colors[x := c], w0.spilled, saved);
    ColoredKeeps(p, w0, x, c, w);
  }

  method Spill(p: Problem, w0: Work, x: nat) returns (w: Work)
    requires Proper(p) && Kept(p, w0) && x in w0.graph && w0.graph.Keys !! p.fixedVregs
    ensures Kept(p, w) && IsSpilled(p, w0, x, w)
  {
    assert w0.graph[x] - p.fixedVregs == w0.graph[x];
    var graph := Detach(w0.graph, x, w0.graph[x]);
    w := w0.(graph := graph, spilled := w0.spilled + {x});
    SpilledKeeps(p, w0, x, w);
  }

  // ----- Choices -----

  // Among the nodes with fewer neighbours than colours, one with the smallest
  // domain. (Which of several is up to the sort.)
  method PickEasy(graph: Graph, domains: Domains, counts: map<nat, nat>) returns (found: Option<nat>)
    requires graph.Keys <= domains.Keys && graph.Keys <= counts.Keys
    ensures match found
      case Some(x) => IsEasiest(graph, domains, counts, x)
      case None => forall y :: !Easy(graph, counts, y)
    ensures found.Some? ==> found.value in graph && |graph[found.value]| < counts[found.value]
    ensures forall y :: y in graph && |graph[y]| < counts[y] ==> found.Some?
    ensures forall y :: y in graph && |graph[y]| < counts[y] && found.Some? ==> |domains[found.value]| <= |domains[y]|
  {
    found := None;
    var rest := graph.Keys;
    while rest != {}
      invariant rest <= graph.Keys
      invariant match found
        case Some(x) => Easy(graph, counts, x) && x in domains &&
          forall y :: Easy(graph, counts, y) && y in domains && y !in rest ==> |domains[x]| <= |domains[y]|
        case None => forall y :: Easy(graph, counts, y) ==> y in rest
      decreases rest
    {
      var x :| x in rest;
      rest := rest - {x};
      if |graph[x]| < counts[x] && (found.None? || |domains[x]| < |domains[found.value]|) {
        found := Some(x);
      }
    }
    forall y | y in graph && |graph[y]| < counts[y] ensures found.Some? && |domains[found.value]| <= |domains[y]| { assert Easy(graph, counts, y); }
  }

  ghost predicate IsEasiest(graph: Graph, domains: Domains, counts: map<nat, nat>, x: nat) {
    Easy(graph, counts, x) && x in domains && forall y :: Easy(graph, counts, y) && y in domains ==> |domains[x]| <= |domains[y]|
  }

  ghost predicate IsHardest(graph: Graph, x: nat) {
    x in graph && forall y :: y in graph ==> |graph[y]| <= |graph[x]|
  }

  ghost predicate Easy(graph: Graph, counts: map<nat, nat>, x: nat) {
    x in graph && x in counts && |graph[x]| < counts[x]
  }

  // A node with the most neighbours.
  method PickHardest(graph: Graph) returns (x: nat)
    requires graph != map[]
    ensures IsHardest(graph, x)
    ensures x in graph && forall y :: y in graph ==> |graph[y]| <= |graph[x]|
  {
    assert exists y :: y in graph;
    x :| x in graph;
    var rest := graph.Keys - {x};
    while rest != {}
      invariant rest <= graph.Keys && x in graph
      invariant forall y :: y in graph && y !in rest ==> |graph[y]| <= |graph[x]|
      decreases rest
    {
      var y :| y in rest;
      rest := rest - {y};
      if |graph[x]| < |graph[y]| {
        x := y;
      }
    }
  }

  // c is the colour of the first partner whose colour the domain allows, else
  // the least of the domain.
  ghost predicate IsPick(domain: set<nat>, partners: seq<nat>, colors: map<nat, nat>, c: nat) {
    && c in domain
    && ((exists k :: 0 <= k < |partners| && Suits(domain, partners[k], colors)) ==>
          exists k :: 0 <= k < |partners| && Suits(domain, partners[k], colors) && colors[partners[k]] == c
            && forall m :: 0 <= m < k ==> !Suits(domain, partners[m], colors))
    && ((forall k :: 0 <= k < |partners| ==> !Suits(domain, partners[k], colors)) ==> forall d :: d in domain ==> c <= d)
  }

  // Partner k is the first with a colour the domain allows.
  ghost predicate IsFirst(domain: set<nat>, partners: seq<nat>, colors: map<nat, nat>, k: nat)
    requires k < |partners|
  {
    && partners[k] in colors && colors[partners[k]] in domain
    && forall m :: 0 <= m < k && partners[m] in colors ==> colors[partners[m]] !in domain
  }

  // The colour of the first vreg this one is copied to or from that the domain
  // allows, else the first of the domain.
  method PickColor(domain: set<nat>, partners: seq<nat>, colors: map<nat, nat>) returns (c: nat)
    requires domain != {}
    ensures IsPick(domain, partners, colors, c)
    ensures c in domain
    ensures forall k :: 0 <= k < |partners| && IsFirst(domain, partners, colors, k) ==> c == colors[partners[k]]
    ensures (forall k :: 0 <= k < |partners| ==> !IsFirst(domain, partners, colors, k)) ==> forall d :: d in domain ==> c <= d
  {
    c := Smallest(domain);
    var k := 0;
    while k < |partners|
      invariant k <= |partners|
      invariant c in domain && forall d :: d in domain ==> c <= d
      invariant forall m :: 0 <= m < k ==> !Suits(domain, partners[m], colors)
    {
      if partners[k] in colors && colors[partners[k]] in domain {
        c := colors[partners[k]];
        assert Suits(domain, partners[k], colors) && IsFirst(domain, partners, colors, k);
        return;
      }
      k := k + 1;
    }
  }

  ghost predicate Suits(domain: set<nat>, partner: nat, colors: map<nat, nat>) {
    partner in colors && colors[partner] in domain
  }

  ghost predicate AliasesOne(registers: seq<Register>, taken: seq<nat>, d: nat) {
    exists i :: 0 <= i < |taken| && !AreApart(registers, taken[i], d)
  }

  // Colours taken one after the other, leaving out what a colour taken before aliases.
  ghost function Taken(registers: seq<Register>, order: seq<nat>): seq<nat> {
    if order == [] then []
    else
      var n := |order| - 1;
      var before := Taken(registers, order[..n]);
      if AliasesOne(registers, before, order[n]) then before else before + [order[n]]
  }

  // What is taken can be used side by side, and every colour is taken or aliased.
  lemma {:induction false} TakenApart(registers: seq<Register>, order: seq<nat>)
    ensures forall c :: c in Taken(registers, order) ==> c in order
    ensures var taken := Taken(registers, order);
      && (forall i, j :: 0 <= i < j < |taken| ==> AreApart(registers, taken[i], taken[j]))
      && forall c :: c in order ==> c in taken || AliasesOne(registers, taken, c)
  {
    if order != [] {
      var n := |order| - 1;
      TakenApart(registers, order[..n]);
      var before, taken := Taken(registers, order[..n]), Taken(registers, order);
      assert before <= taken;
      forall c | c in order ensures c in taken || AliasesOne(registers, taken, c) {
        if c in order[..n] && c !in before {
          var i :| 0 <= i < |before| && !AreApart(registers, before[i], c);
          assert taken[i] == before[i];
        } else if c !in order[..n] {
          assert c == order[n];
        }
      }
    }
  }

  // How many colours of a domain are taken, in the order of their ids.
  ghost predicate IsCount(registers: seq<Register>, domain: set<nat>, count: nat) {
    exists order :: Increasing(order) && (forall c :: c in order <==> c in domain) && count == |Taken(registers, order)|
  }

  method AliasesAny(registers: seq<Register>, counted: seq<nat>, c: nat) returns (aliased: bool)
    requires TableOk(registers) && IsColor(registers, c) && forall d :: d in counted ==> IsColor(registers, d)
    ensures aliased <==> AliasesOne(registers, counted, c)
  {
    hide TableOk, Family, AreApart;
    aliased := false;
    var i := 0;
    while i < |counted|
      invariant i <= |counted|
      invariant aliased <==> exists m :: 0 <= m < i && !AreApart(registers, counted[m], c)
    {
      FamilyIsNotApart(registers, counted[i], c);
      aliased := aliased || counted[i] in Family(registers, c);
      i := i + 1;
    }
  }

  method CountColors(registers: seq<Register>, domain: set<nat>) returns (count: nat)
    requires TableOk(registers) && forall c :: c in domain ==> IsColor(registers, c)
    ensures IsCount(registers, domain, count)
  {
    hide TableOk, AliasesOne;
    var colors := Sorted(domain);
    var counted: seq<nat> := [];
    var k := 0;
    while k < |colors|
      invariant k <= |colors| && counted == Taken(registers, colors[..k])
      invariant forall c :: c in counted ==> c in domain
    {
      var c := colors[k];
      assert c in domain;
      var aliased := AliasesAny(registers, counted, c);
      assert colors[..k + 1][..k] == colors[..k];
      if !aliased {
        counted := counted + [c];
      }
      k := k + 1;
    }
    assert colors[..k] == colors;
    count := |counted|;
  }

  // ----- The whole colouring -----

  ghost predicate Finished(p: Problem, w: Work) {
    Kept(p, w) && w.graph == map[]
  }

  lemma StartKept(p: Problem)
    requires Proper(p)
    ensures Kept(p, Work(p.graph, p.domains, map[], {}, {}))
  {
    forall x | x in p.graph ensures p.graph[x] <= p.graph.Keys {
      forall y | y in p.graph[x] ensures y in p.graph { assert Adjacent(p, x, y); }
    }
  }

  // All fixed vregs have their colours, and free ones have lost what is not
  // apart from those of their fixed neighbours.
  ghost predicate FixedDone(p: Problem, w: Work) {
    && w.graph.Keys == p.graph.Keys - p.fixedVregs && w.spilled == {} && w.domains.Keys == p.domains.Keys
    && w.colors.Keys == p.graph.Keys * p.fixedVregs
    && (forall y :: y in w.colors && y in p.domains ==> IsLeast(p.domains[y], w.colors[y]))
    && (forall n :: n in w.domains && n in p.domains ==> w.domains[n] <= p.domains[n])
    && (forall n :: n in w.graph && n in p.graph ==> w.graph[n] == p.graph[n] * w.graph.Keys)
    && forall n, c :: n in w.graph && n in p.domains && n in w.domains ==>
        (c in w.domains[n] <==> c in p.domains[n] && !LosesTo(p, w.colors, n, c))
  }

  // A coloured neighbour of n takes c away from it.
  ghost predicate LosesTo(p: Problem, colors: map<nat, nat>, n: nat, c: nat) {
    exists y :: y in colors && Adjacent(p, y, n) && !AreApart(p.registers, c, colors[y])
  }

  // The fixed vregs coloured so far.
  ghost predicate FixedSoFar(p: Problem, w: Work) {
    && w.domains.Keys == p.domains.Keys && w.colors.Keys <= p.graph.Keys * p.fixedVregs
    && (forall n :: n in w.domains && n in p.domains ==> w.domains[n] <= p.domains[n])
    && (forall y :: y in w.colors && y in p.domains ==> IsLeast(p.domains[y], w.colors[y]))
    && forall n, c :: n in p.graph && n in p.domains && n in w.domains ==>
        (c in w.domains[n] <==> c in p.domains[n] && (n in p.fixedVregs || !LosesTo(p, w.colors, n, c)))
  }

  lemma FixedStep(p: Problem, w: Work, x: nat, w': Work)
    requires Proper(p) && GraphOk(p, w) && FixedSoFar(p, w) && x in w.graph && x in p.fixedVregs && x !in w.colors
    requires FixedPass(p, w, x, w')
    ensures FixedSoFar(p, w')
  {
    hide TableOk;
    var c :| IsLeast(w.domains[x], c) && Colored(p, w, x, c, w');
    assert w.domains[x] == p.domains[x] && w.graph[x] == p.graph[x];
    DomainsStep(p, w, x, c, w');
  }

  lemma DomainsStep(p: Problem, w: Work, x: nat, c: nat, w': Work)
    requires FixedSoFar(p, w) && x in p.graph && x in p.fixedVregs && x !in w.colors && x in p.domains && IsLeast(p.domains[x], c)
    requires c < |p.registers| && w'.colors == w.colors[x := c] && w'.domains.Keys == w.domains.Keys
    requires Taking(p, w.domains, p.graph[x] - p.fixedVregs, c, w'.domains)
    ensures FixedSoFar(p, w')
  {
    hide LosesTo, AreApart, Taking;
    forall n | n in w'.domains && n in p.domains ensures w'.domains[n] <= p.domains[n] {
      TakingShrinks(p, w.domains, p.graph[x] - p.fixedVregs, c, w'.domains, n);
    }
    forall n, d | n in p.graph && n in p.domains && n in w'.domains
      ensures d in w'.domains[n] <==> d in p.domains[n] && (n in p.fixedVregs || !LosesTo(p, w'.colors, n, d))
    {
      TakenMore(p, w.colors, x, c, n, d);
      TakingAt(p, w.domains, p.graph[x] - p.fixedVregs, c, w'.domains, n, d);
    }
  }

  lemma TakenMore(p: Problem, colors: map<nat, nat>, x: nat, c: nat, n: nat, d: nat)
    requires x !in colors
    ensures LosesTo(p, colors[x := c], n, d) <==> LosesTo(p, colors, n, d) || (Adjacent(p, x, n) && !AreApart(p.registers, d, c))
  {
    hide Adjacent, AreApart;
    var more := colors[x := c];
    if y :| y in colors && Adjacent(p, y, n) && !AreApart(p.registers, d, colors[y]) { assert more[y] == colors[y]; }
    if y :| y in more && Adjacent(p, y, n) && !AreApart(p.registers, d, more[y]) {
      if y != x { assert colors[y] == more[y]; }
    }
    if Adjacent(p, x, n) && !AreApart(p.registers, d, c) { assert more[x] == c; }
  }

  method ColorAllFixed(p: Problem) returns (w: Work)
    requires Proper(p)
    ensures Kept(p, w) && FixedDone(p, w)
  {
    hide GraphOk, DomainsOk, ColorsOk, SavedOk, Proper, LosesTo, FixedSoFar, FixedPass;
    w := Work(p.graph, p.domains, map[], {}, {});
    StartKept(p);
    StartFixed(p, w);
    var rest := p.graph.Keys * p.fixedVregs;
    while rest != {}
      invariant rest <= p.fixedVregs * p.graph.Keys
      invariant Kept(p, w) && w.graph.Keys == p.graph.Keys - p.fixedVregs + rest
      invariant w.colors.Keys == p.graph.Keys * p.fixedVregs - rest && w.spilled == {}
      invariant FixedSoFar(p, w)
      decreases rest
    {
      var x :| x in rest;
      ghost var before := w;
      assert x in w.domains by { ColorsThere(p, w, x); }
      w := ColorFixed(p, w, x);
      FixedStep(p, before, x, w);
      rest := rest - {x};
    }
    FixedAll(p, w);
  }

  lemma FixedAll(p: Problem, w: Work)
    requires FixedSoFar(p, w) && GraphOk(p, w) && w.graph.Keys == p.graph.Keys - p.fixedVregs && w.spilled == {}
    requires w.colors.Keys == p.graph.Keys * p.fixedVregs
    ensures FixedDone(p, w)
  {
    hide LosesTo;
  }

  lemma StartFixed(p: Problem, w: Work)
    requires w == Work(p.graph, p.domains, map[], {}, {})
    ensures FixedSoFar(p, w)
  {
  }

  // One pass: the easiest node takes a colour if it has one left, else it is
  // spilled; without an easy node a hardest one is.
  ghost predicate IsPass(p: Problem, w: Work, counts: map<nat, nat>, moves: Partners, x: nat, w': Work) {
    if exists y :: Easy(w.graph, counts, y) then
      && IsEasiest(w.graph, w.domains, counts, x)
      && if w.domains[x] == {} then IsSpilled(p, w, x, w')
         else exists c :: IsPick(w.domains[x], ListOf(moves, x), w.colors, c) && Colored(p, w, x, c, w')
    else
      IsHardest(w.graph, x) && IsSpilled(p, w, x, w')
  }

  // Takes one node out of the graph: coloured if it has fewer neighbours than
  // colours and a colour left, spilled otherwise.
  method Pass(p: Problem, w0: Work, counts: map<nat, nat>, moves: Partners) returns (w: Work, ghost x: nat)
    requires Proper(p) && Kept(p, w0) && w0.graph != map[] && w0.graph.Keys !! p.fixedVregs
    requires p.graph.Keys <= counts.Keys
    ensures Kept(p, w) && x in w0.graph && w.graph.Keys == w0.graph.Keys - {x}
    ensures IsPass(p, w0, counts, moves, x, w)
  {
    hide GraphOk, DomainsOk, ColorsOk, SavedOk, Proper, IsPick;
    assert TableOk(p.registers) by { TableThere(p); }
    assert w0.graph.Keys <= w0.domains.Keys by { forall y | y in w0.graph ensures y in w0.domains { ColorsThere(p, w0, y); } }
    var found := PickEasy(w0.graph, w0.domains, counts);
    if found.None? {
      var y := PickHardest(w0.graph);
      w := Spill(p, w0, y);
      x := y;
    } else {
      var y := found.value;
      x := y;
      if w0.domains[y] == {} {
        w := Spill(p, w0, y);
      } else {
        var c := PickColor(w0.domains[y], ListOf(moves, y), w0.colors);
        w := ColorFree(p, w0, y, c);
      }
    }
  }

  method CountAll(registers: seq<Register>, domains: Domains) returns (counts: map<nat, nat>)
    requires TableOk(registers) && forall x, c :: x in domains && c in domains[x] ==> IsColor(registers, c)
    ensures counts.Keys == domains.Keys && forall x :: x in counts ==> IsCount(registers, domains[x], counts[x])
  {
    hide IsCount;
    counts := map[];
    var rest := domains.Keys;
    while rest != {}
      invariant rest <= domains.Keys && counts.Keys == domains.Keys - rest
      invariant forall x :: x in counts ==> IsCount(registers, domains[x], counts[x])
      decreases rest
    {
      var x :| x in rest;
      var count := CountColors(registers, domains[x]);
      counts := counts[x := count];
      rest := rest - {x};
    }
  }

  // The loop, from where the fixed vregs are coloured to where the graph is empty.
  ghost predicate IsRun(p: Problem, counts: map<nat, nat>, moves: Partners, trace: seq<Work>) {
    && |trace| > 0 && FixedDone(p, trace[0])
    && counts.Keys == trace[0].domains.Keys
    && (forall x :: x in counts && x in trace[0].domains ==> IsCount(p.registers, trace[0].domains[x], counts[x]))
    && forall i :: 0 <= i < |trace| - 1 ==> PassAt(p, counts, moves, trace, i)
  }

  ghost predicate PassAt(p: Problem, counts: map<nat, nat>, moves: Partners, trace: seq<Work>, i: nat)
    requires i + 1 < |trace|
  {
    trace[i].graph != map[] && SomePass(p, trace[i], counts, moves, trace[i + 1])
  }

  ghost predicate SomePass(p: Problem, w: Work, counts: map<nat, nat>, moves: Partners, w': Work) {
    exists x :: IsPass(p, w, counts, moves, x, w')
  }

  // What the loop may come to.
  ghost predicate IsResult(p: Problem, moves: Partners, w: Work) {
    exists counts, trace :: IsRun(p, counts, moves, trace) && trace[|trace| - 1] == w && w.graph == map[]
  }

  method Color(p: Problem, moves: Partners) returns (w: Work)
    requires Proper(p)
    ensures Finished(p, w) && IsResult(p, moves, w)
  {
    hide FixedDone, IsPass, IsCount;
    w := ColorAllFixed(p);
    ghost var trace := [w];
    FixedKeys(p, w);
    var counts := CountAll(p.registers, w.domains);
    while w.graph != map[]
      invariant Kept(p, w) && w.graph.Keys !! p.fixedVregs
      invariant p.graph.Keys <= counts.Keys
      invariant IsRun(p, counts, moves, trace) && trace[|trace| - 1] == w
      decreases w.graph.Keys
    {
      ghost var x;
      ghost var before := trace;
      w, x := Pass(p, w, counts, moves);
      trace := trace + [w];
      RunGoesOn(p, counts, moves, before, x, w);
    }
  }

  lemma FixedKeys(p: Problem, w: Work)
    requires Proper(p) && Kept(p, w) && FixedDone(p, w)
    ensures w.graph.Keys !! p.fixedVregs && w.domains.Keys == p.graph.Keys
    ensures forall x, c :: x in w.domains && c in w.domains[x] ==> IsColor(p.registers, c)
  {
    hide TableOk, Kept;
    forall x, c | x in w.domains && c in w.domains[x] ensures IsColor(p.registers, c) { assert c in p.domains[x]; }
  }

  lemma RunGoesOn(p: Problem, counts: map<nat, nat>, moves: Partners, trace: seq<Work>, x: nat, w: Work)
    requires IsRun(p, counts, moves, trace) && trace[|trace| - 1].graph != map[]
    requires IsPass(p, trace[|trace| - 1], counts, moves, x, w)
    ensures IsRun(p, counts, moves, trace + [w])
  {
    hide FixedDone, IsPass, IsCount;
    var more := trace + [w];
    forall i | 0 <= i < |more| - 1 ensures PassAt(p, counts, moves, more, i) {
      if i < |trace| - 1 {
        assert PassAt(p, counts, moves, trace, i);
        assert more[i] == trace[i] && more[i + 1] == trace[i + 1];
      } else {
        assert more[i] == trace[|trace| - 1] && more[i + 1] == w;
        assert SomePass(p, more[i], counts, moves, more[i + 1]);
      }
    }
  }
}
