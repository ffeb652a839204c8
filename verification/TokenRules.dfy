// The rules of the language's tokenizer.
module TokenRules {
  import opened Lexer
  import opened Nfa
  import opened RangeAutomaton
  import opened Ranges
  import opened Regex

  datatype RuleSpec = RuleSpec(expr: Rex<SymblRange>, priority: nat, kind: Kind)

  function Between(a: char, b: char): Rex<SymblRange> { One(SymblRange(a, b)) }

  function Char(c: char): Rex<SymblRange> { One(SymblRange(c, c)) }

  function Text(s: string): Rex<SymblRange> {
    Word(seq(|s|, i requires 0 <= i < |s| => SymblRange(s[i], s[i])))
  }

  function Letter(): Rex<SymblRange> { Either(Between('a', 'z'), Between('A', 'Z')) }

  function Digit(): Rex<SymblRange> { Between('0', '9') }

  function Alphanum(): Rex<SymblRange> { Either(Letter(), Digit()) }

  function Identifier(): Rex<SymblRange> {
    Seq(Either(Letter(), Char('_')), Any(Either(Alphanum(), Char('_'))))
  }

  function FloatLiteral(): Rex<SymblRange> { Seq(Seq(Repeat(Digit()), Char('.')), Repeat(Digit())) }

  // The greatest character is that of this model's character type.
  function NonQuote(): Rex<SymblRange> { Either(Between('\0', '!'), Between('#', '\U{10FFFF}')) }

  function StringLiteral(): Rex<SymblRange> { Seq(Seq(Char('"'), Any(NonQuote())), Char('"')) }

  function Spaces(): seq<RuleSpec> {
    [ RuleSpec(Either(Char(' '), Char('\t')), 1000, Skipped),
      RuleSpec(Either(Char('\n'), Char('\r')), 1000, Skipped) ]
  }

  function Literals(): seq<RuleSpec> {
    [ RuleSpec(Repeat(Digit()), 0, Kept("INT_LIT")),
      RuleSpec(FloatLiteral(), 0, Kept("FLOAT_LIT")),
      RuleSpec(Either(Text("true"), Text("false")), 0, Kept("BOOL_LIT")),
      RuleSpec(StringLiteral(), 0, Kept("STR_LIT")) ]
  }

  function Punctuation(): seq<RuleSpec> {
    [ RuleSpec(Char('_'), 0, Kept("UNDERSCORE")),
      RuleSpec(Char(','), 0, Kept("COMMA")),
      RuleSpec(Char('.'), 0, Kept("DOT")),
      RuleSpec(Char(';'), 0, Kept("ENDEXPR")),
      RuleSpec(Char('('), 0, Kept("OPEN_PAR")),
      RuleSpec(Char(')'), 0, Kept("CLOSE_PAR")),
      RuleSpec(Char('['), 0, Kept("OPEN_BRAC")),
      RuleSpec(Char(']'), 0, Kept("CLOSE_BRAC")),
      RuleSpec(Char('{'), 0, Kept("OPEN_CURLBRAC")),
      RuleSpec(Char('}'), 0, Kept("CLOSE_CURLBRAC")) ]
  }

  function Keywords(): seq<RuleSpec> {
    [ RuleSpec(Text("continue"), 0, Kept("CONTINUE_STMT")),
      RuleSpec(Text("break"), 0, Kept("BREAK_STMT")),
      RuleSpec(Text("return"), 0, Kept("RETURN_STMT")),
      RuleSpec(Text("if"), 0, Kept("IF_STMT")),
      RuleSpec(Text("else"), 0, Kept("ELSE_STMT")),
      RuleSpec(Text("while"), 0, Kept("WHILE_STMT")),
      RuleSpec(Text("for"), 0, Kept("FOR_STMT")),
      RuleSpec(Text("func"), 0, Kept("FUNC_STMT")),
      RuleSpec(Text("module"), 0, Kept("MODULE_STMT")) ]
  }

  function Operators(): seq<RuleSpec> {
    [ RuleSpec(Char('+'), 0, Kept("BIN_OP")),
      RuleSpec(Char('*'), 0, Kept("BIN_OP")),
      RuleSpec(Char('>'), 0, Kept("BIN_OP")),
      RuleSpec(Char('<'), 0, Kept("BIN_OP")),
      RuleSpec(Text(">="), 0, Kept("BIN_OP")),
      RuleSpec(Text("<="), 0, Kept("BIN_OP")),
      RuleSpec(Text("=="), 0, Kept("BIN_OP")),
      RuleSpec(Text("!="), 0, Kept("BIN_OP")),
      RuleSpec(Char('='), 0, Kept("ASSIGN")),
      RuleSpec(Seq(Char(':'), Char(':')), 0, Kept("COLON_COLON")) ]
  }

  function Specs(): seq<RuleSpec> {
    Spaces() + Literals() + Punctuation() + Keywords() + Operators() + [RuleSpec(Identifier(), 1, Kept("IDENDIFIER"))]
  }

  // Built from single characters only.
  predicate Simple(r: Rex<SymblRange>) {
    match r
    case One(s) => s.lo == s.hi
    case Word(ss) => forall i :: 0 <= i < |ss| ==> ss[i].lo == ss[i].hi
    case Either(a, b) => Simple(a) && Simple(b)
    case Seq(a, b) => Simple(a) && Simple(b)
    case Repeat(a) => Simple(a)
    case Any(a) => Simple(a)
    case Opt(a) => Simple(a)
  }

  lemma {:induction false} SimpleRanges(r: Rex<SymblRange>, s: SymblRange)
    requires Simple(r) && s in Alphabet(r)
    ensures s.lo == s.hi
  {
    match r
    case One(_) =>
    case Word(ss) =>
    case Either(a, b) => if s in Alphabet(a) { SimpleRanges(a, s); } else { SimpleRanges(b, s); }
    case Seq(a, b) => if s in Alphabet(a) { SimpleRanges(a, s); } else { SimpleRanges(b, s); }
    case Repeat(a) => SimpleRanges(a, s);
    case Any(a) => SimpleRanges(a, s);
    case Opt(a) => SimpleRanges(a, s);
  }

  lemma {:induction false} SimpleIsDisjoint(r: Rex<SymblRange>)
    requires Simple(r)
    ensures Disjoint(Alphabet(r))
  {
    forall s | s in Alphabet(r) ensures s.lo == s.hi { SimpleRanges(r, s); }
  }

  lemma LetterAlphabet()
    ensures Alphabet(Letter()) == {SymblRange('a', 'z'), SymblRange('A', 'Z')}
    ensures Alphabet(Alphanum()) == Alphabet(Letter()) + {SymblRange('0', '9')}
    ensures Alphabet(Digit()) == {SymblRange('0', '9')}
  {
  }

  lemma RangeRulesDisjoint()
    ensures Disjoint(Alphabet(Repeat(Digit()))) && Disjoint(Alphabet(FloatLiteral()))
    ensures Disjoint(Alphabet(StringLiteral())) && Disjoint(Alphabet(Identifier()))
  {
    LetterAlphabet();
    var under := {SymblRange('_', '_')};
    assert Alphabet(Char('_')) == under;
    assert Alphabet(Either(Letter(), Char('_'))) == Alphabet(Letter()) + under;
    assert Alphabet(Any(Either(Alphanum(), Char('_')))) == Alphabet(Either(Alphanum(), Char('_'))) == Alphabet(Alphanum()) + under;
    assert Alphabet(Identifier()) == {SymblRange('a', 'z'), SymblRange('A', 'Z'), SymblRange('0', '9'), SymblRange('_', '_')};
    assert Alphabet(Repeat(Digit())) == {SymblRange('0', '9')};
    assert Alphabet(Char('.')) == {SymblRange('.', '.')};
    assert Alphabet(Seq(Repeat(Digit()), Char('.'))) == {SymblRange('0', '9'), SymblRange('.', '.')};
    assert Alphabet(FloatLiteral()) == {SymblRange('0', '9'), SymblRange('.', '.')};
    assert Alphabet(NonQuote()) == {SymblRange('\0', '!'), SymblRange('#', '\U{10FFFF}')};
    assert Alphabet(Char('"')) == {SymblRange('"', '"')};
    assert Alphabet(Seq(Char('"'), Any(NonQuote()))) == Alphabet(Char('"')) + Alphabet(NonQuote());
    assert Alphabet(StringLiteral()) == {SymblRange('\0', '!'), SymblRange('#', '\U{10FFFF}'), SymblRange('"', '"')};
  }

  ghost predicate AllDisjoint(specs: seq<RuleSpec>) {
    forall i :: 0 <= i < |specs| ==> Disjoint(Alphabet(specs[i].expr))
  }

  lemma TextIsSimple(s: string)
    ensures Simple(Text(s))
  {
  }

  lemma SimpleSpecs(specs: seq<RuleSpec>)
    requires forall i :: 0 <= i < |specs| ==> Simple(specs[i].expr)
    ensures AllDisjoint(specs)
  {
    forall i | 0 <= i < |specs| ensures Disjoint(Alphabet(specs[i].expr)) { SimpleIsDisjoint(specs[i].expr); }
  }

  // No rule mixes ranges that overlap.
  lemma SpecsDisjoint()
    ensures AllDisjoint(Specs())
  {
    SimpleSpecs(Spaces());
    SimpleSpecs(Punctuation());
    SimpleSpecs(Keywords());
    SimpleSpecs(Operators());
    RangeRulesDisjoint();
    LiteralsDisjoint();
    var all := Spaces() + Literals() + Punctuation() + Keywords() + Operators();
    JoinDisjoint(Spaces(), Literals());
    JoinDisjoint(Spaces() + Literals(), Punctuation());
    JoinDisjoint(Spaces() + Literals() + Punctuation(), Keywords());
    JoinDisjoint(Spaces() + Literals() + Punctuation() + Keywords(), Operators());
    JoinDisjoint(all, [RuleSpec(Identifier(), 1, Kept("IDENDIFIER"))]);
  }

  lemma LiteralsDisjoint()
    ensures AllDisjoint(Literals())
  {
    RangeRulesDisjoint();
    TextIsSimple("true");
    TextIsSimple("false");
    SimpleIsDisjoint(Either(Text("true"), Text("false")));
  }

  lemma JoinDisjoint(a: seq<RuleSpec>, b: seq<RuleSpec>)
    requires AllDisjoint(a) && AllDisjoint(b)
    ensures AllDisjoint(a + b)
  {
  }

  // ----- No two rules of the same priority match the same word -----

  predicate IsDigit(c: char) { '0' <= c <= '9' }

  // What tells the words of one rule from those of the others: the first
  // character and the length, but for numbers and strings.
  function Mark(w: string): (char, nat) {
    if w == [] then ('\0', 0)
    else if IsDigit(w[0]) then ('0', if '.' in w then 1 else 0)
    else if w[0] == '"' then ('"', 0)
    else (w[0], |w|)
  }

  // The rule, counted from the first, whose words have the mark.
  function Owner(m: (char, nat)): nat {
    match m.0
    case ' ' => 0
    case '\t' => 0
    case '\n' => 1
    case '\r' => 1
    case '0' => 2 + (if m.1 == 1 then 1 else 0)
    case 't' => 4
    case 'f' => if m.1 == 5 then 4 else if m.1 == 3 then 22 else 23
    case '"' => 5
    case '_' => 6
    case ',' => 7
    case '.' => 8
    case ';' => 9
    case '(' => 10
    case ')' => 11
    case '[' => 12
    case ']' => 13
    case '{' => 14
    case '}' => 15
    case 'c' => 16
    case 'b' => 17
    case 'r' => 18
    case 'i' => 19
    case 'e' => 20
    case 'w' => 21
    case 'm' => 24
    case '+' => 25
    case '*' => 26
    case '>' => if m.1 == 1 then 27 else 29
    case '<' => if m.1 == 1 then 28 else 30
    case '=' => if m.1 == 2 then 31 else 33
    case '!' => 32
    case _ => 34
  }

  lemma {:induction false} TextMark(s: string, w: string)
    requires Matches(Text(s), w)
    ensures w == s
  {
    assert Spells(seq(|s|, i requires 0 <= i < |s| => SymblRange(s[i], s[i])), w);
  }

  lemma {:induction false} CharMark(c: char, w: string)
    requires Matches(Char(c), w)
    ensures w == [c]
  {
  }

  lemma {:induction false} DigitsOnly(ws: seq<string>)
    requires forall i :: 0 <= i < |ws| ==> Matches(Digit(), ws[i])
    ensures |Flatten(ws)| == |ws| && forall k :: 0 <= k < |Flatten(ws)| ==> IsDigit(Flatten(ws)[k])
  {
    if ws != [] { DigitsOnly(ws[1..]); }
  }

  lemma {:induction false} IntMark(w: string)
    requires Matches(Repeat(Digit()), w)
    ensures w != [] && (forall k :: 0 <= k < |w| ==> IsDigit(w[k])) && Mark(w) == ('0', 0)
  {
    hide Digit;
    var ws :| |ws| > 0 && Flatten(ws) == w && forall i :: 0 <= i < |ws| ==> Matches(Digit(), ws[i]);
    DigitsOnly(ws);
  }

  lemma {:induction false} FloatMark(w: string)
    requires Matches(FloatLiteral(), w)
    ensures Mark(w) == ('0', 1)
  {
    hide Digit;
    var whole := Seq(Repeat(Digit()), Char('.'));
    var u, v :| w == u + v && Matches(whole, u) && Matches(Repeat(Digit()), v);
    var x, y :| u == x + y && Matches(Repeat(Digit()), x) && Matches(Char('.'), y);
    IntMark(x);
    CharMark('.', y);
    assert w[0] == x[0] && w[|x|] == '.';
  }

  lemma {:induction false} StringMark(w: string)
    requires Matches(StringLiteral(), w)
    ensures Mark(w) == ('"', 0)
  {
    var open := Seq(Char('"'), Any(NonQuote()));
    var u, v :| w == u + v && Matches(open, u) && Matches(Char('"'), v);
    var x, y :| u == x + y && Matches(Char('"'), x) && Matches(Any(NonQuote()), y);
    CharMark('"', x);
    assert w[0] == '"';
  }

  // Every rule before the last owns the marks of its words.
  ghost predicate Owns(specs: seq<RuleSpec>, from: nat) {
    forall i, w :: 0 <= i < |specs| && Matches(specs[i].expr, w) ==> OwnsWord(w, from + i)
  }

  ghost predicate OwnsWord(w: string, i: int) { Owner(Mark(w)) == i }

  lemma SpacesOwn()
    ensures Owns(Spaces(), 0)
  {
    forall i, w | 0 <= i < 2 && Matches(Spaces()[i].expr, w) ensures OwnsWord(w, i) {
      if i == 0 {
        if Matches(Char(' '), w) { CharMark(' ', w); } else { CharMark('\t', w); }
      } else {
        if Matches(Char('\n'), w) { CharMark('\n', w); } else { CharMark('\r', w); }
      }
    }
  }

  lemma TruthMark(w: string)
    requires Matches(Either(Text("true"), Text("false")), w)
    ensures OwnsWord(w, 4)
  {
    hide Text;
    if Matches(Text("true"), w) { TextMark("true", w); } else { TextMark("false", w); }
  }

  lemma LiteralsOwn()
    ensures Owns(Literals(), 2)
  {
    hide FloatLiteral, StringLiteral, Digit, Text, Matches;
    forall i, w | 0 <= i < 4 && Matches(Literals()[i].expr, w) ensures OwnsWord(w, 2 + i) {
      if i == 0 { IntMark(w); }
      else if i == 1 { FloatMark(w); }
      else if i == 2 { TruthMark(w); }
      else { StringMark(w); }
    }
  }

  lemma PunctuationOwns()
    ensures Owns(Punctuation(), 6)
  {
    hide Matches;
    var marks := "_,.;()[]{}";
    forall i, w | 0 <= i < 10 && Matches(Punctuation()[i].expr, w) ensures OwnsWord(w, 6 + i) {
      assert Punctuation()[i].expr == Char(marks[i]);
      CharMark(marks[i], w);
    }
  }

  lemma KeywordsOwn()
    ensures Owns(Keywords(), 16)
  {
    hide Matches, Text;
    var words := ["continue", "break", "return", "if", "else", "while", "for", "func", "module"];
    forall i, w | 0 <= i < 9 && Matches(Keywords()[i].expr, w) ensures OwnsWord(w, 16 + i) {
      assert Keywords()[i].expr == Text(words[i]);
      TextMark(words[i], w);
    }
  }

  lemma OperatorsOwn()
    ensures Owns(Operators(), 25)
  {
    hide Matches, Text;
    forall i, w | 0 <= i < 10 && Matches(Operators()[i].expr, w) ensures OwnsWord(w, 25 + i) {
      if i < 4 {
        var marks := "+*><";
        assert Operators()[i].expr == Char(marks[i]);
        CharMark(marks[i], w);
      } else if i < 8 {
        var words := [">=", "<=", "==", "!="];
        assert Operators()[i].expr == Text(words[i - 4]);
        TextMark(words[i - 4], w);
      } else if i == 8 {
        CharMark('=', w);
      } else {
        ColonsMark(w);
      }
    }
  }

  lemma {:induction false} ColonsMark(w: string)
    requires Matches(Seq(Char(':'), Char(':')), w)
    ensures w == "::"
  {
    var u, v :| w == u + v && Matches(Char(':'), u) && Matches(Char(':'), v);
    CharMark(':', u);
    CharMark(':', v);
  }

  lemma JoinOwns(a: seq<RuleSpec>, b: seq<RuleSpec>, from: nat)
    requires Owns(a, from) && Owns(b, from + |a|)
    ensures Owns(a + b, from)
  {
    hide Matches, OwnsWord;
    forall i, w | 0 <= i < |a + b| && Matches((a + b)[i].expr, w) ensures OwnsWord(w, from + i) {
      if i >= |a| { assert (a + b)[i] == b[i - |a|]; }
    }
  }

  function AllButLast(): seq<RuleSpec> { Spaces() + Literals() + Punctuation() + Keywords() + Operators() }

  lemma AllOwn()
    ensures Owns(AllButLast(), 0)
  {
    hide Owns;
    SpacesOwn();
    LiteralsOwn();
    PunctuationOwns();
    KeywordsOwn();
    OperatorsOwn();
    JoinOwns(Spaces(), Literals(), 0);
    JoinOwns(Spaces() + Literals(), Punctuation(), 0);
    JoinOwns(Spaces() + Literals() + Punctuation(), Keywords(), 0);
    JoinOwns(Spaces() + Literals() + Punctuation() + Keywords(), Operators(), 0);
  }

  // Only the identifier rule has its priority.
  lemma LastAlone()
    ensures Specs() == AllButLast() + [RuleSpec(Identifier(), 1, Kept("IDENDIFIER"))]
    ensures forall i :: 0 <= i < |AllButLast()| ==> AllButLast()[i].priority != 1
  {
    hide Identifier, FloatLiteral, StringLiteral, Digit, Char, Text;
    forall i | 0 <= i < |AllButLast()| ensures AllButLast()[i].priority != 1 {
      var s := AllButLast()[i];
      assert s in Spaces() || s in Literals() || s in Punctuation() || s in Keywords() || s in Operators();
    }
  }

  lemma {:induction false} SpecsUnambiguous(i: nat, j: nat, w: string)
    requires i < |Specs()| && j < |Specs()| && i != j && Specs()[i].priority == Specs()[j].priority
    ensures !(Matches(Specs()[i].expr, w) && Matches(Specs()[j].expr, w))
  {
    hide Specs, AllButLast, Matches;
    LastAlone();
    AllOwn();
    var all := AllButLast();
    if i < |all| && j < |all| {
      assert Specs()[i] == all[i] && Specs()[j] == all[j];
      assert Matches(all[i].expr, w) ==> OwnsWord(w, 0 + i);
      assert Matches(all[j].expr, w) ==> OwnsWord(w, 0 + j);
    }
  }

  // One automaton per rule, each recognizing what its expression matches.
  method BuildRules() returns (rules: seq<Rule>)
    ensures |rules| == |Specs()|
    ensures forall i :: 0 <= i < |rules| ==> rules[i].automaton.Valid() && fresh(rules[i].automaton.inner)
    ensures forall i :: 0 <= i < |rules| ==> rules[i].priority == Specs()[i].priority && rules[i].kind == Specs()[i].kind
    ensures forall i, w :: 0 <= i < |rules| ==> (CharRecognizes(rules[i].automaton.inner.dfa, w) <==> Matches(Specs()[i].expr, w))
    ensures Unambiguous(rules)
  {
    hide Specs, Alphabet, Matches, CharRecognizes, Disjoint;
    SpecsDisjoint();
    var specs := Specs();
    rules := [];
    var i := 0;
    while i < |specs|
      invariant i <= |specs| && |rules| == i
      invariant forall k :: 0 <= k < i ==> rules[k].automaton.Valid() && fresh(rules[k].automaton.inner)
      invariant forall k :: 0 <= k < i ==> rules[k].priority == specs[k].priority && rules[k].kind == specs[k].kind
      invariant forall k, w :: 0 <= k < i ==> (CharRecognizes(rules[k].automaton.inner.dfa, w) <==> Matches(specs[k].expr, w))
    {
      var a := BuildRanges(specs[i].expr);
      rules := rules + [Rule(a, specs[i].priority, specs[i].kind)];
      i := i + 1;
    }
    forall i, j, w | 0 <= i < |rules| && 0 <= j < |rules| && i != j && rules[i].priority == rules[j].priority
      ensures !(RecognizesWord(rules, i, w) && RecognizesWord(rules, j, w))
    {
      SpecsUnambiguous(i, j, w);
    }
  }
}
