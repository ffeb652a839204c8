// Automata whose symbols are ranges of characters.
module Ranges {
  import opened Nfa
  import opened Regex

  datatype SymblRange = SymblRange(lo: char, hi: char) {
    predicate Contains(c: char) { lo <= c <= hi }

    predicate Intersects(s: SymblRange) { lo <= s.hi && s.lo <= hi }
  }

  lemma IntersectsIffShared(r: SymblRange, s: SymblRange)
    requires r.lo <= r.hi && s.lo <= s.hi
    ensures r.Intersects(s) <==> exists c :: r.Contains(c) && s.Contains(c)
  {
    if r.Intersects(s) {
      var c := if r.lo <= s.lo then s.lo else r.lo;
      assert r.Contains(c) && s.Contains(c);
    }
  }

  // Two ranges are the same or have no character in common.
  ghost predicate Disjoint(ranges: set<SymblRange>) {
    forall r, s, c :: r in ranges && s in ranges && r.Contains(c) && s.Contains(c) ==> r == s
  }

  // ----- Characters for ranges -----

  ghost predicate Spells(rs: seq<SymblRange>, w: string) {
    |rs| == |w| && forall i :: 0 <= i < |w| ==> rs[i].Contains(w[i])
  }

  // Characters an expression over ranges denotes.
  ghost predicate Matches(r: Rex<SymblRange>, w: string)
    decreases r
  {
    match r
    case One(s) => |w| == 1 && s.Contains(w[0])
    case Word(ss) => Spells(ss, w)
    case Either(a, b) => Matches(a, w) || Matches(b, w)
    case Seq(a, b) => exists u, v :: w == u + v && Matches(a, u) && Matches(b, v)
    case Repeat(a) => exists ws :: |ws| > 0 && Flatten(ws) == w && forall i :: 0 <= i < |ws| ==> Matches(a, ws[i])
    case Any(a) => exists ws :: Flatten(ws) == w && forall i :: 0 <= i < |ws| ==> Matches(a, ws[i])
    case Opt(a) => w == [] || Matches(a, w)
  }

  ghost predicate SpelledBy(r: Rex<SymblRange>, w: string) {
    exists rs :: Spells(rs, w) && Denotes(r, rs)
  }

  lemma SpellsAppend(rs: seq<SymblRange>, ss: seq<SymblRange>, v: string, w: string)
    requires Spells(rs, v) && Spells(ss, w)
    ensures Spells(rs + ss, v + w)
  {
  }

  // Pieces spelled one by one spell the whole.
  lemma {:induction false} FlattenSpells(a: Rex<SymblRange>, ws: seq<string>) returns (rss: seq<seq<SymblRange>>)
    requires forall i :: 0 <= i < |ws| ==> SpelledBy(a, ws[i])
    ensures |rss| == |ws| && Spells(Flatten(rss), Flatten(ws)) && forall i :: 0 <= i < |rss| ==> Denotes(a, rss[i])
  {
    rss := [];
    if ws != [] {
      assert SpelledBy(a, ws[0]);
      var rs :| Spells(rs, ws[0]) && Denotes(a, rs);
      var more := FlattenSpells(a, ws[1..]);
      rss := [rs] + more;
      assert rss[1..] == more;
      SpellsAppend(rs, Flatten(more), ws[0], Flatten(ws[1..]));
    }
  }

  lemma SpellsCut(rs: seq<SymblRange>, ss: seq<SymblRange>, w: string)
    requires Spells(rs + ss, w)
    ensures |rs| <= |w| && Spells(rs, w[..|rs|]) && Spells(ss, w[|rs|..])
  {
    var ts := rs + ss;
    forall i | 0 <= i < |rs| ensures rs[i].Contains(w[..|rs|][i]) { assert ts[i] == rs[i]; }
    forall i | 0 <= i < |ss| ensures ss[i].Contains(w[|rs|..][i]) { assert ts[|rs| + i] == ss[i]; }
  }

  // The whole cut where the pieces end.
  lemma {:induction false} FlattenCut(a: Rex<SymblRange>, rss: seq<seq<SymblRange>>, w: string) returns (ws: seq<string>)
    requires Spells(Flatten(rss), w) && forall i :: 0 <= i < |rss| ==> Denotes(a, rss[i])
    ensures |ws| == |rss| && Flatten(ws) == w && forall i :: 0 <= i < |ws| ==> SpelledBy(a, ws[i])
    decreases rss
  {
    hide Denotes, Spells;
    ws := [];
    if rss != [] {
      var n := |rss[0]|;
      SpellsCut(rss[0], Flatten(rss[1..]), w);
      var more := FlattenCut(a, rss[1..], w[n..]);
      ws := [w[..n]] + more;
      assert SpelledBy(a, w[..n]);
      assert ws[1..] == more;
      assert w == w[..n] + w[n..];
    } else {
      assert w == [] by { SpellsNothing(w); }
    }
  }

  lemma SpellsNothing(w: string)
    requires Spells([], w)
    ensures w == []
  {
  }

  // What an expression denotes, in characters: a word of ranges it denotes, each standing for one of its characters.
  lemma {:induction false} MatchesIsSpelled(r: Rex<SymblRange>, w: string)
    ensures Matches(r, w) <==> SpelledBy(r, w)
    decreases r, 1
  {
    match r
    case One(s) =>
      if Matches(r, w) { assert Spells([s], w) && Denotes(r, [s]); }
    case Word(ss) =>
      if Matches(r, w) { assert Spells(ss, w) && Denotes(r, ss); }
    case Either(a, b) =>
      MatchesIsSpelled(a, w);
      MatchesIsSpelled(b, w);
      if SpelledBy(a, w) {
        var rs :| Spells(rs, w) && Denotes(a, rs);
        assert Denotes(r, rs);
      }
      if SpelledBy(b, w) {
        var rs :| Spells(rs, w) && Denotes(b, rs);
        assert Denotes(r, rs);
      }
    case Seq(a, b) => SeqIsSpelled(a, b, w);
    case Repeat(a) => ManyIsSpelled(a, w);
    case Any(a) => ManyIsSpelled(a, w);
    case Opt(a) =>
      MatchesIsSpelled(a, w);
      if w == [] { assert Spells([], w) && Denotes(r, []); }
      if SpelledBy(a, w) {
        var rs :| Spells(rs, w) && Denotes(a, rs);
        assert Denotes(r, rs);
      }
  }

  lemma {:induction false} SeqIsSpelled(a: Rex<SymblRange>, b: Rex<SymblRange>, w: string)
    ensures Matches(Seq(a, b), w) <==> SpelledBy(Seq(a, b), w)
    decreases Seq(a, b), 0
  {
    if Matches(Seq(a, b), w) {
      var u, v :| w == u + v && Matches(a, u) && Matches(b, v);
      MatchesIsSpelled(a, u);
      MatchesIsSpelled(b, v);
      JoinSpelled(a, b, u, v);
    }
    if SpelledBy(Seq(a, b), w) {
      var n := CutSpelled(a, b, w);
      MatchesIsSpelled(a, w[..n]);
      MatchesIsSpelled(b, w[n..]);
      assert w == w[..n] + w[n..];
    }
  }

  lemma JoinSpelled(a: Rex<SymblRange>, b: Rex<SymblRange>, u: string, v: string)
    requires SpelledBy(a, u) && SpelledBy(b, v)
    ensures SpelledBy(Seq(a, b), u + v)
  {
    hide Spells;
    var rs :| Spells(rs, u) && Denotes(a, rs);
    var ss :| Spells(ss, v) && Denotes(b, ss);
    SpellsAppend(rs, ss, u, v);
    assert Denotes(Seq(a, b), rs + ss);
  }

  lemma CutSpelled(a: Rex<SymblRange>, b: Rex<SymblRange>, w: string) returns (n: nat)
    requires SpelledBy(Seq(a, b), w)
    ensures n <= |w| && SpelledBy(a, w[..n]) && SpelledBy(b, w[n..])
  {
    var ts :| Spells(ts, w) && Denotes(Seq(a, b), ts);
    var rs, ss :| ts == rs + ss && Denotes(a, rs) && Denotes(b, ss);
    n := |rs|;
    SpellsCut(rs, ss, w);
  }

  // All pieces are denoted.
  ghost predicate AllDenoted(a: Rex<SymblRange>, rss: seq<seq<SymblRange>>) {
    forall i :: 0 <= i < |rss| ==> Denotes(a, rss[i])
  }

  ghost predicate AllMatch(a: Rex<SymblRange>, ws: seq<string>) {
    forall i :: 0 <= i < |ws| ==> Matches(a, ws[i])
  }

  lemma PiecesSpelled(a: Rex<SymblRange>, ws: seq<string>) returns (rss: seq<seq<SymblRange>>)
    requires AllMatch(a, ws)
    ensures |rss| == |ws| && Spells(Flatten(rss), Flatten(ws)) && AllDenoted(a, rss)
    decreases a, 2, ws
  {
    hide Spells, Matches;
    forall i | 0 <= i < |ws| ensures SpelledBy(a, ws[i]) { MatchesIsSpelled(a, ws[i]); }
    rss := FlattenSpells(a, ws);
  }

  lemma PiecesMatch(a: Rex<SymblRange>, rss: seq<seq<SymblRange>>, w: string) returns (ws: seq<string>)
    requires Spells(Flatten(rss), w) && AllDenoted(a, rss)
    ensures |ws| == |rss| && Flatten(ws) == w && AllMatch(a, ws)
    decreases a, 2, rss
  {
    hide Spells, Matches;
    ws := FlattenCut(a, rss, w);
    forall i | 0 <= i < |ws| ensures Matches(a, ws[i]) { MatchesIsSpelled(a, ws[i]); }
  }

  lemma {:induction false} MatchedIsSpelled(a: Rex<SymblRange>, ws: seq<string>)
    requires AllMatch(a, ws)
    ensures SpelledBy(Any(a), Flatten(ws)) && (|ws| > 0 ==> SpelledBy(Repeat(a), Flatten(ws)))
    decreases a, 3, 0
  {
    hide Spells, Matches;
    var rss := PiecesSpelled(a, ws);
    assert Denotes(Any(a), Flatten(rss));
    if |ws| > 0 { assert Denotes(Repeat(a), Flatten(rss)); }
  }

  lemma {:induction false} SpelledIsMatched(a: Rex<SymblRange>, rss: seq<seq<SymblRange>>, w: string)
    requires Spells(Flatten(rss), w) && AllDenoted(a, rss)
    ensures Matches(Any(a), w) && (|rss| > 0 ==> Matches(Repeat(a), w))
    decreases a, 3, 0
  {
    hide Spells, Denotes;
    var ws := PiecesMatch(a, rss, w);
    assert AllMatch(a, ws);
  }

  lemma {:induction false} ManyIsSpelled(a: Rex<SymblRange>, w: string)
    ensures Matches(Repeat(a), w) <==> SpelledBy(Repeat(a), w)
    ensures Matches(Any(a), w) <==> SpelledBy(Any(a), w)
    decreases a, 4
  {
    hide Matches, SpelledBy;
    MatchedForward(a, w);
    SpelledBackward(a, w);
  }

  lemma {:induction false} MatchedForward(a: Rex<SymblRange>, w: string)
    ensures Matches(Repeat(a), w) ==> SpelledBy(Repeat(a), w)
    ensures Matches(Any(a), w) ==> SpelledBy(Any(a), w)
    decreases a, 3, 1
  {
    hide SpelledBy;
    if Matches(Any(a), w) {
      var ws :| Flatten(ws) == w && AllMatch(a, ws);
      MatchedIsSpelled(a, ws);
    }
    if Matches(Repeat(a), w) {
      var ws :| |ws| > 0 && Flatten(ws) == w && AllMatch(a, ws);
      MatchedIsSpelled(a, ws);
    }
  }

  lemma {:induction false} SpelledBackward(a: Rex<SymblRange>, w: string)
    ensures SpelledBy(Repeat(a), w) ==> Matches(Repeat(a), w)
    ensures SpelledBy(Any(a), w) ==> Matches(Any(a), w)
    decreases a, 3, 1
  {
    hide Matches, Spells;
    if SpelledBy(Any(a), w) {
      var rs :| Spells(rs, w) && Denotes(Any(a), rs);
      var rss :| Flatten(rss) == rs && AllDenoted(a, rss);
      SpelledIsMatched(a, rss, w);
    }
    if SpelledBy(Repeat(a), w) {
      var rs :| Spells(rs, w) && Denotes(Repeat(a), rs);
      var rss :| |rss| > 0 && Flatten(rss) == rs && AllDenoted(a, rss);
      SpelledIsMatched(a, rss, w);
    }
  }
}
