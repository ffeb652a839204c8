// Longest-match tokenization.
module Lexer {
  import opened Dfa
  import opened Nfa
  import opened RangeAutomaton
  import opened Ranges

  // Tokens of kind Skipped are not kept.
  datatype Kind = Skipped | Kept(name: string)

  datatype Rule = Rule(automaton: RangeAutomata, priority: nat, kind: Kind)

  datatype Token = Token(kind: Kind, lexeme: string, line: nat, column: nat)

  // ----- The longest match of one rule -----

  ghost predicate IsMunch(d: DFA<SymblRange>, input: string, pos: nat, end: nat) {
    && pos <= end <= |input|
    && (end > pos ==> CharRecognizes(d, input[pos..end]))
    && forall k :: end < k <= |input| ==> !CharRecognizes(d, input[pos..k])
  }

  lemma MunchUnique(d: DFA<SymblRange>, input: string, pos: nat, e: nat, f: nat)
    requires IsMunch(d, input, pos, e) && IsMunch(d, input, pos, f)
    ensures e == f
  {
  }

  // Stops early when stuck: nothing longer could match.
  method RunMaximalMunch(rule: RangeAutomata, input: string, pos: nat) returns (end: nat)
    requires rule.Valid() && pos <= |input|
    modifies rule.inner
    ensures rule.Valid() && IsMunch(rule.inner.dfa, input, pos, end)
  {
    hide CharRecognizes, Tracks, DfaOk, Disjoint, Labels;
    var d := rule.inner.dfa;
    rule.Reset();
    end := pos;
    var p := pos;
    assert input[pos..pos] == [];
    while p < |input|
      invariant pos <= end <= p <= |input|
      invariant rule.Valid() && Tracks(d, input[pos..p], rule.inner.current)
      invariant end > pos ==> CharRecognizes(d, input[pos..end])
      invariant forall k :: end < k <= p ==> !CharRecognizes(d, input[pos..k])
    {
      rule.Process(input[p], input[pos..p]);
      assert input[pos..p + 1] == input[pos..p] + [input[p]];
      TracksAccepts(d, input[pos..p + 1], rule.inner.current);
      if rule.InAccepting() {
        end := p + 1;
      } else if rule.Stuck() {
        forall k | p + 1 < k <= |input| ensures !CharRecognizes(d, input[pos..k]) {
          assert input[pos..k] == input[pos..p + 1] + input[p + 1..k];
          StuckForGood(d, input[pos..p + 1], input[p + 1..k]);
        }
        break;
      }
      p := p + 1;
    }
  }

  // ----- The best rule -----

  ghost predicate Munches(rules: seq<Rule>, input: string, pos: nat, i: nat, end: nat) {
    i < |rules| && IsMunch(rules[i].automaton.inner.dfa, input, pos, end)
  }

  // Rule i matches up to end; no rule matches longer; of those that match as
  // long it has the lowest priority number, and is the first with it.
  ghost predicate IsBest(rules: seq<Rule>, input: string, pos: nat, i: nat, end: nat) {
    && pos < end && Munches(rules, input, pos, i, end)
    && forall j: nat, e: nat :: Munches(rules, input, pos, j, e) ==> Beats(rules, i, end, j, e)
  }

  ghost predicate Beats(rules: seq<Rule>, i: nat, end: nat, j: nat, e: nat)
    requires i < |rules| && j < |rules|
  {
    e < end || (e == end && (rules[i].priority < rules[j].priority || (rules[i].priority == rules[j].priority && i <= j)))
  }

  ghost predicate NoMatch(rules: seq<Rule>, input: string, pos: nat) {
    forall j: nat, e: nat :: Munches(rules, input, pos, j, e) ==> e == pos
  }

  lemma BestUnique(rules: seq<Rule>, input: string, pos: nat, i: nat, e: nat, j: nat, f: nat)
    requires IsBest(rules, input, pos, i, e) && IsBest(rules, input, pos, j, f)
    ensures i == j && e == f
  {
    assert Beats(rules, i, e, j, f) && Beats(rules, j, f, i, e);
  }

  lemma BestOrNone(rules: seq<Rule>, input: string, pos: nat, i: nat, e: nat)
    requires IsBest(rules, input, pos, i, e)
    ensures !NoMatch(rules, input, pos)
  {
  }

  // ----- Lines and columns -----

  // The positions of the newlines before pos.
  function NewlinesBefore(input: string, pos: nat): set<nat>
    requires pos <= |input|
  {
    set k: nat | k < pos && input[k] == '\n'
  }

  // Where the line that position pos is on starts.
  function LineStart(input: string, pos: nat): (start: nat)
    requires pos <= |input|
    ensures start <= pos && (start > 0 ==> input[start - 1] == '\n')
    ensures forall k :: start <= k < pos ==> input[k] != '\n'
  {
    if pos == 0 then 0 else if input[pos - 1] == '\n' then pos else LineStart(input, pos - 1)
  }

  function LineOf(input: string, pos: nat): nat
    requires pos <= |input|
  {
    1 + |NewlinesBefore(input, pos)|
  }

  function ColumnOf(input: string, pos: nat): nat
    requires pos <= |input|
  {
    pos - LineStart(input, pos) + 1
  }

  // ----- Tokenization -----

  // One match: the rule and where the lexeme ends.
  datatype Piece = Piece(rule: nat, start: nat, end: nat)

  // Best matches one after the other from position 0 to position stop.
  ghost predicate IsPartition(rules: seq<Rule>, input: string, pieces: seq<Piece>, stop: nat) {
    && stop <= |input|
    && (if pieces == [] then stop == 0 else pieces[|pieces| - 1].end == stop)
    && forall k :: 0 <= k < |pieces| ==> PieceOk(rules, input, pieces, k)
  }

  ghost predicate PieceOk(rules: seq<Rule>, input: string, pieces: seq<Piece>, k: nat)
    requires k < |pieces|
  {
    && pieces[k].start == (if k == 0 then 0 else pieces[k - 1].end)
    && IsBest(rules, input, pieces[k].start, pieces[k].rule, pieces[k].end)
  }

  function TokenOf(rules: seq<Rule>, input: string, p: Piece): seq<Token> {
    if p.rule < |rules| && p.start <= p.end <= |input| && rules[p.rule].kind.Kept? then
      [Token(rules[p.rule].kind, input[p.start..p.end], LineOf(input, p.start), ColumnOf(input, p.start))]
    else []
  }

  function TokensOf(rules: seq<Rule>, input: string, pieces: seq<Piece>): seq<Token> {
    if pieces == [] then []
    else TokensOf(rules, input, pieces[..|pieces| - 1]) + TokenOf(rules, input, pieces[|pieces| - 1])
  }

  function Lexemes(input: string, pieces: seq<Piece>): seq<string>
    requires forall k :: 0 <= k < |pieces| ==> pieces[k].start <= pieces[k].end <= |input|
  {
    seq(|pieces|, k requires 0 <= k < |pieces| => input[pieces[k].start..pieces[k].end])
  }

  // Lexemes, skipped ones included, are the input up to where it stopped.
  lemma {:induction false} LexemesAreTheInput(rules: seq<Rule>, input: string, pieces: seq<Piece>, stop: nat)
    requires IsPartition(rules, input, pieces, stop)
    ensures forall k :: 0 <= k < |pieces| ==> pieces[k].start < pieces[k].end <= |input|
    ensures Flatten(Lexemes(input, pieces)) == input[..stop]
  {
    forall k | 0 <= k < |pieces| ensures pieces[k].start < pieces[k].end <= |input| { assert PieceOk(rules, input, pieces, k); }
    if pieces != [] {
      var n := |pieces| - 1;
      ShorterPartition(rules, input, pieces, stop);
      LexemesAreTheInput(rules, input, pieces[..n], pieces[n].start);
      assert Lexemes(input, pieces) == Lexemes(input, pieces[..n]) + [input[pieces[n].start..stop]];
      FlattenSnoc(Lexemes(input, pieces[..n]), input[pieces[n].start..stop]);
    }
  }

  lemma ShorterPartition(rules: seq<Rule>, input: string, pieces: seq<Piece>, stop: nat)
    requires IsPartition(rules, input, pieces, stop) && pieces != []
    ensures IsPartition(rules, input, pieces[..|pieces| - 1], pieces[|pieces| - 1].start)
  {
    var n := |pieces| - 1;
    assert PieceOk(rules, input, pieces, n);
    forall k | 0 <= k < n ensures PieceOk(rules, input, pieces[..n], k) { assert PieceOk(rules, input, pieces, k); }
  }

  lemma {:induction false} FlattenSnoc(ws: seq<string>, w: string)
    ensures Flatten(ws + [w]) == Flatten(ws) + w
    decreases ws
  {
    if ws == [] {
      assert Flatten([] + [w]) == w + Flatten<char>([]);
    } else {
      assert (ws + [w])[1..] == ws[1..] + [w];
      FlattenSnoc(ws[1..], w);
    }
  }

  // There is only one way to cut the input: of two partitions one goes on where the other stops.
  lemma {:induction false} PartitionsAgree(rules: seq<Rule>, input: string, ps: seq<Piece>, s: nat, qs: seq<Piece>, t: nat)
    requires IsPartition(rules, input, ps, s) && IsPartition(rules, input, qs, t) && |ps| <= |qs|
    ensures ps <= qs
  {
    if ps != [] {
      var n := |ps| - 1;
      ShorterPartition(rules, input, ps, s);
      PartitionsAgree(rules, input, ps[..n], ps[n].start, qs, t);
      assert PieceOk(rules, input, ps, n) && PieceOk(rules, input, qs, n);
      assert ps[..n] <= qs;
      if n > 0 { assert ps[n - 1] == ps[..n][n - 1] == qs[n - 1]; }
      BestUnique(rules, input, ps[n].start, ps[n].rule, ps[n].end, qs[n].rule, qs[n].end);
    }
  }

  // Two partitions that cannot go on are the same.
  lemma PartitionUnique(rules: seq<Rule>, input: string, ps: seq<Piece>, s: nat, qs: seq<Piece>, t: nat)
    requires IsPartition(rules, input, ps, s) && IsPartition(rules, input, qs, t)
    requires Ended(rules, input, s) && Ended(rules, input, t)
    ensures ps == qs && s == t
  {
    if |ps| <= |qs| {
      PartitionsAgree(rules, input, ps, s, qs, t);
      NothingLonger(rules, input, ps, s, qs, t);
    } else {
      PartitionsAgree(rules, input, qs, t, ps, s);
      NothingLonger(rules, input, qs, t, ps, s);
    }
  }

  // At the end of the input, or where no rule matches.
  ghost predicate Ended(rules: seq<Rule>, input: string, stop: nat) {
    stop >= |input| || NoMatch(rules, input, stop)
  }

  lemma NothingLonger(rules: seq<Rule>, input: string, ps: seq<Piece>, s: nat, qs: seq<Piece>, t: nat)
    requires IsPartition(rules, input, ps, s) && IsPartition(rules, input, qs, t) && ps <= qs && Ended(rules, input, s)
    ensures ps == qs
  {
    if |ps| < |qs| { GoesOn(rules, input, ps, s, qs, t); }
  }

  lemma GoesOn(rules: seq<Rule>, input: string, ps: seq<Piece>, s: nat, qs: seq<Piece>, t: nat)
    requires IsPartition(rules, input, ps, s) && IsPartition(rules, input, qs, t) && ps <= qs && |ps| < |qs|
    ensures !Ended(rules, input, s)
  {
    var n := |ps|;
    assert PieceOk(rules, input, qs, n);
    assert n > 0 ==> qs[n - 1] == ps[n - 1];
    assert qs[n].start == s;
    BestOrNone(rules, input, s, qs[n].rule, qs[n].end);
  }

  // ----- The order of the rules -----

  // No two rules of the same priority recognize the same non-empty word.
  ghost predicate Unambiguous(rules: seq<Rule>) {
    forall i, j, w :: 0 <= i < |rules| && 0 <= j < |rules| && i != j && rules[i].priority == rules[j].priority && w != [] ==>
      !(RecognizesWord(rules, i, w) && RecognizesWord(rules, j, w))
  }

  ghost predicate RecognizesWord(rules: seq<Rule>, i: nat, w: string)
    requires i < |rules|
  {
    CharRecognizes(rules[i].automaton.inner.dfa, w)
  }

  ghost predicate SameRules(rules: seq<Rule>, others: seq<Rule>) {
    (forall r :: r in rules ==> r in others) && (forall r :: r in others ==> r in rules)
  }

  // In whatever order rules are tried, the same one is best.
  lemma BestSame(rules: seq<Rule>, others: seq<Rule>, input: string, pos: nat, i: nat, e: nat, j: nat, f: nat)
    requires Unambiguous(rules) && SameRules(rules, others)
    requires IsBest(rules, input, pos, i, e) && IsBest(others, input, pos, j, f)
    ensures e == f && rules[i] == others[j]
  {
    hide CharRecognizes;
    assert others[j] in others && rules[i] in rules;
    var m: nat :| m < |rules| && rules[m] == others[j];
    var n: nat :| n < |others| && others[n] == rules[i];
    assert Munches(rules, input, pos, m, f) && Munches(others, input, pos, n, e);
    assert Beats(rules, i, e, m, f) && Beats(others, j, f, n, e);
    assert e == f && rules[i].priority == rules[m].priority;
    assert RecognizesWord(rules, i, input[pos..e]) && RecognizesWord(rules, m, input[pos..e]);
  }

  lemma NoMatchSame(rules: seq<Rule>, others: seq<Rule>, input: string, pos: nat)
    requires SameRules(rules, others)
    ensures NoMatch(rules, input, pos) <==> NoMatch(others, input, pos)
  {
    hide CharRecognizes, IsMunch;
    forall j: nat, e: nat | NoMatch(rules, input, pos) && Munches(others, input, pos, j, e) ensures e == pos {
      assert others[j] in rules;
      var m: nat :| m < |rules| && rules[m] == others[j];
      assert Munches(rules, input, pos, m, e);
    }
    forall j: nat, e: nat | NoMatch(others, input, pos) && Munches(rules, input, pos, j, e) ensures e == pos {
      assert rules[j] in others;
      var m: nat :| m < |others| && others[m] == rules[j];
      assert Munches(others, input, pos, m, e);
    }
  }

  // Two cuts with the rules in different orders agree as far as both go.
  lemma {:induction false} CutsAgree(rules: seq<Rule>, others: seq<Rule>, input: string, ps: seq<Piece>, s: nat, qs: seq<Piece>, t: nat)
    requires Unambiguous(rules) && SameRules(rules, others)
    requires IsPartition(rules, input, ps, s) && IsPartition(others, input, qs, t) && |ps| <= |qs|
    ensures TokensOf(rules, input, ps) == TokensOf(others, input, qs[..|ps|])
    ensures ps != [] ==> qs[|ps| - 1].end == s
    ensures IsPartition(others, input, qs[..|ps|], s)
  {
    hide IsBest, Unambiguous, SameRules, LineOf, ColumnOf;
    if ps != [] {
      var n := |ps| - 1;
      ShorterPartition(rules, input, ps, s);
      CutsAgree(rules, others, input, ps[..n], ps[n].start, qs, t);
      assert PieceOk(rules, input, ps, n) && PieceOk(others, input, qs, n);
      assert ps[n].start == qs[n].start;
      BestSame(rules, others, input, ps[n].start, ps[n].rule, ps[n].end, qs[n].rule, qs[n].end);
      BestInRange(rules, input, ps[n].start, ps[n].rule, ps[n].end);
      BestInRange(others, input, qs[n].start, qs[n].rule, qs[n].end);
      var first := qs[..n + 1];
      assert first[..n] == qs[..n];
      forall k | 0 <= k < |first| ensures PieceOk(others, input, first, k) { assert PieceOk(others, input, qs, k); }
    }
  }

  // So the tokens and the position of an error do not depend on the order that
  // sorting by priority leaves rules of the same priority in.
  lemma {:induction false} OrderIrrelevant(rules: seq<Rule>, others: seq<Rule>, input: string, ps: seq<Piece>, s: nat, qs: seq<Piece>, t: nat)
    requires Unambiguous(rules) && Unambiguous(others) && SameRules(rules, others)
    requires IsPartition(rules, input, ps, s) && IsPartition(others, input, qs, t)
    requires Ended(rules, input, s) && Ended(others, input, t)
    ensures s == t && TokensOf(rules, input, ps) == TokensOf(others, input, qs)
  {
    hide Unambiguous, IsPartition, NoMatch, IsBest, TokensOf;
    NoMatchSame(rules, others, input, s);
    NoMatchSame(rules, others, input, t);
    if |ps| <= |qs| {
      CutsAgree(rules, others, input, ps, s, qs, t);
      PartitionUnique(others, input, qs[..|ps|], s, qs, t);
    } else {
      CutsAgree(others, rules, input, qs, t, ps, s);
      PartitionUnique(rules, input, ps[..|qs|], t, ps, s);
    }
  }

  // UnknownInput: the character no rule starts with, and where it is.
  datatype LexResult = Done | UnknownInput(character: char, position: nat, line: nat, column: nat)

  class Tokenizer {
    var rules: seq<Rule>
    var tokens: seq<Token>

    constructor (rules: seq<Rule>)
      ensures this.rules == rules && tokens == []
    {
      this.rules, this.tokens := rules, [];
    }

    ghost function Automatas(): set<Automata<SymblRange>>
      reads `rules
    {
      set r | r in rules :: r.automaton.inner
    }

    ghost predicate Valid()
      reads `rules, Automatas()
    {
      forall r :: r in rules ==> r.automaton.Valid()
    }

    // Appends the tokens of the input; on the first character where no rule
    // matches it stops with an error, keeping what it has appended.
    method Process(input: string) returns (result: LexResult, ghost pieces: seq<Piece>, ghost stop: nat)
      requires Valid()
      modifies `tokens, Automatas()
      ensures Valid() && rules == old(rules)
      ensures IsPartition(rules, input, pieces, stop) && Ended(rules, input, stop)
      ensures tokens == old(tokens) + TokensOf(rules, input, pieces)
      ensures result.Done? <==> stop == |input|
      ensures stop < |input| ==> result == UnknownInput(input[stop], stop, LineOf(input, stop), ColumnOf(input, stop))
    {
      pieces, stop := [], 0;
      assert IsPartition(rules, input, pieces, stop) && TokensOf(rules, input, pieces) == [];
      hide IsBest, NoMatch, IsMunch, LineStart, LineOf, NewlinesBefore, ColumnOf, IsPartition, PieceOk, TokensOf, TokenOf, Valid, Automatas, Munches, Beats, CharRecognizes;
      var pos, line, lineStart := 0, 1, 0;
      LineAtStart(input);
      while pos < |input|
        invariant Valid() && rules == old(rules) && Automatas() == old(Automatas())
        invariant pos == stop <= |input| && IsPartition(rules, input, pieces, stop)
        invariant tokens == old(tokens) + TokensOf(rules, input, pieces)
        invariant line == LineOf(input, pos) && lineStart == LineStart(input, pos)
        decreases |input| - pos
      {
        var bestRule, bestEnd := TakeBest(input, pos, line, lineStart);
        if bestEnd == pos {
          ColumnIs(input, pos);
          result := UnknownInput(input[pos], pos, line, pos - lineStart + 1);
          return;
        }
        ghost var piece := Piece(bestRule, pos, bestEnd);
        OneMorePiece(rules, input, pieces, stop, piece);
        pieces, stop := pieces + [piece], bestEnd;
        line, lineStart := CountLines(input, pos, bestEnd, line, lineStart);
        pos := bestEnd;
      }
      result := Done;
    }

    // Appends the token of the best match at pos, if there is one and it is kept.
    method TakeBest(input: string, pos: nat, line: nat, lineStart: nat) returns (bestRule: nat, bestEnd: nat)
      requires Valid() && pos < |input| && line == LineOf(input, pos) && lineStart == LineStart(input, pos)
      modifies `tokens, Automatas()
      ensures Valid() && rules == old(rules) && Automatas() == old(Automatas())
      ensures bestEnd == pos ==> NoMatch(rules, input, pos) && tokens == old(tokens)
      ensures bestEnd != pos ==>
        && IsBest(rules, input, pos, bestRule, bestEnd) && bestEnd <= |input|
        && tokens == old(tokens) + TokenOf(rules, input, Piece(bestRule, pos, bestEnd))
    {
      hide IsBest, NoMatch, IsMunch, LineStart, LineOf, ColumnOf, TokenOf, Valid, Automatas;
      bestRule, bestEnd := BestRule(input, pos);
      if bestEnd != pos {
        BestInRange(rules, input, pos, bestRule, bestEnd);
        PieceToken(rules, input, Piece(bestRule, pos, bestEnd));
        if rules[bestRule].kind.Kept? {
          tokens := tokens + [Token(rules[bestRule].kind, input[pos..bestEnd], line, pos - lineStart + 1)];
        }
      }
    }

    // Runs every rule from pos.
    method BestRule(input: string, pos: nat) returns (bestRule: nat, bestEnd: nat)
      requires Valid() && pos < |input|
      modifies Automatas()
      ensures Valid() && rules == old(rules) && tokens == old(tokens) && Automatas() == old(Automatas())
      ensures bestEnd == pos ==> NoMatch(rules, input, pos)
      ensures bestEnd != pos ==> IsBest(rules, input, pos, bestRule, bestEnd)
    {
      hide IsMunch;
      bestRule, bestEnd := 0, pos;
      var i: nat := 0;
      while i < |rules|
        invariant i <= |rules| && Valid() && rules == old(rules) && tokens == old(tokens) && Automatas() == old(Automatas())
        invariant bestEnd >= pos
        invariant bestEnd == pos ==> forall j: nat, e: nat :: j < i && Munches(rules, input, pos, j, e) ==> e == pos
        invariant bestEnd > pos ==> bestRule < i && Munches(rules, input, pos, bestRule, bestEnd)
        invariant bestEnd > pos ==> forall j: nat, e: nat :: j < i && Munches(rules, input, pos, j, e) ==> Beats(rules, bestRule, bestEnd, j, e)
      {
        assert rules[i] in rules && rules[i].automaton.inner in Automatas();
        label before:
        var end := RunMaximalMunch(rules[i].automaton, input, pos);
        OthersStayValid@before(i);
        forall e: nat | Munches(rules, input, pos, i, e) ensures e == end {
          MunchUnique(rules[i].automaton.inner.dfa, input, pos, e, end);
        }
        assert pos <= end by { MunchAfter(rules[i].automaton.inner.dfa, input, pos, end); }
        if end > bestEnd {
          bestEnd := end;
          bestRule := i;
        } else if end == bestEnd && end > pos {
          if rules[i].priority < rules[bestRule].priority {
            bestRule := i;
          }
        }
        i := i + 1;
      }
    }

    twostate lemma OthersStayValid(i: nat)
      requires rules == old(rules) && i < |rules| && old(Valid()) && rules[i].automaton.Valid()
      requires forall r :: r in rules && r.automaton.inner != rules[i].automaton.inner ==> unchanged(r.automaton.inner)
      ensures Valid()
    {
      forall r | r in rules ensures r.automaton.Valid() {
        if r.automaton.inner != rules[i].automaton.inner { assert old(r.automaton.Valid()); }
      }
    }
  }

  lemma MunchAfter(d: DFA<SymblRange>, input: string, pos: nat, end: nat)
    requires IsMunch(d, input, pos, end)
    ensures pos <= end <= |input|
  {
  }

  lemma BestInRange(rules: seq<Rule>, input: string, pos: nat, i: nat, end: nat)
    requires IsBest(rules, input, pos, i, end)
    ensures i < |rules| && pos < end <= |input|
  {
  }

  lemma {:induction false} OneMorePiece(rules: seq<Rule>, input: string, pieces: seq<Piece>, stop: nat, p: Piece)
    requires IsPartition(rules, input, pieces, stop) && p.start == stop && IsBest(rules, input, stop, p.rule, p.end) && p.end <= |input|
    ensures IsPartition(rules, input, pieces + [p], p.end)
    ensures TokensOf(rules, input, pieces + [p]) == TokensOf(rules, input, pieces) + TokenOf(rules, input, p)
  {
    hide IsBest;
    var more := pieces + [p];
    assert more[..|pieces|] == pieces;
    forall k | 0 <= k < |more| ensures PieceOk(rules, input, more, k) {
      if k < |pieces| { assert PieceOk(rules, input, pieces, k); }
    }
  }

  lemma {:induction false} PieceToken(rules: seq<Rule>, input: string, p: Piece)
    requires p.rule < |rules| && p.start <= p.end <= |input|
    ensures TokenOf(rules, input, p) ==
      if rules[p.rule].kind.Kept? then
        [Token(rules[p.rule].kind, input[p.start..p.end], LineOf(input, p.start), p.start - LineStart(input, p.start) + 1)]
      else []
  {
    hide LineOf, LineStart;
  }

  lemma {:induction false} ColumnIs(input: string, pos: nat)
    requires pos <= |input|
    ensures ColumnOf(input, pos) == pos - LineStart(input, pos) + 1
  {
    hide LineStart;
  }

  lemma {:induction false} LineAtStart(input: string)
    ensures LineOf(input, 0) == 1 && LineStart(input, 0) == 0
  {
  }

  lemma OneMoreLine(input: string, pos: nat)
    requires pos < |input|
    ensures LineOf(input, pos + 1) == LineOf(input, pos) + if input[pos] == '\n' then 1 else 0
  {
    assert NewlinesBefore(input, pos + 1) == NewlinesBefore(input, pos) + if input[pos] == '\n' then {pos} else {};
  }

  // Counts the lines a lexeme ends.
  method CountLines(input: string, pos: nat, end: nat, line0: nat, start0: nat) returns (line: nat, lineStart: nat)
    requires pos <= end <= |input| && line0 == LineOf(input, pos) && start0 == LineStart(input, pos)
    ensures line == LineOf(input, end) && lineStart == LineStart(input, end)
  {
    line, lineStart := line0, start0;
    var i := pos;
    while i < end
      invariant pos <= i <= end && line == LineOf(input, i) && lineStart == LineStart(input, i)
    {
      OneMoreLine(input, i);
      if input[i] == '\n' {
        line, lineStart := line + 1, i + 1;
      }
      i := i + 1;
    }
  }
}
