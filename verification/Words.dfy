// The words of the language and their kinds, as the tokenizer finds them.
module Words {
  import opened Lexer
  import opened Nfa
  import opened RangeAutomaton
  import opened Ranges
  import opened Regex
  import opened TokenRules

  // ----- What is a word -----

  datatype MaybeKind = NoKind | OfKind(kind: Kind)

  // Blanks, punctuation, keywords and operators.
  function FixedKind(w: string): MaybeKind {
    match w
    case " " => OfKind(Skipped)
    case "\t" => OfKind(Skipped)
    case "\n" => OfKind(Skipped)
    case "\r" => OfKind(Skipped)
    case "true" => OfKind(Kept("BOOL_LIT"))
    case "false" => OfKind(Kept("BOOL_LIT"))
    case "_" => OfKind(Kept("UNDERSCORE"))
    case "," => OfKind(Kept("COMMA"))
    case "." => OfKind(Kept("DOT"))
    case ";" => OfKind(Kept("ENDEXPR"))
    case "(" => OfKind(Kept("OPEN_PAR"))
    case ")" => OfKind(Kept("CLOSE_PAR"))
    case "[" => OfKind(Kept("OPEN_BRAC"))
    case "]" => OfKind(Kept("CLOSE_BRAC"))
    case "{" => OfKind(Kept("OPEN_CURLBRAC"))
    case "}" => OfKind(Kept("CLOSE_CURLBRAC"))
    case "continue" => OfKind(Kept("CONTINUE_STMT"))
    case "break" => OfKind(Kept("BREAK_STMT"))
    case "return" => OfKind(Kept("RETURN_STMT"))
    case "if" => OfKind(Kept("IF_STMT"))
    case "else" => OfKind(Kept("ELSE_STMT"))
    case "while" => OfKind(Kept("WHILE_STMT"))
    case "for" => OfKind(Kept("FOR_STMT"))
    case "func" => OfKind(Kept("FUNC_STMT"))
    case "module" => OfKind(Kept("MODULE_STMT"))
    case "+" => OfKind(Kept("BIN_OP"))
    case "*" => OfKind(Kept("BIN_OP"))
    case ">" => OfKind(Kept("BIN_OP"))
    case "<" => OfKind(Kept("BIN_OP"))
    case ">=" => OfKind(Kept("BIN_OP"))
    case "<=" => OfKind(Kept("BIN_OP"))
    case "==" => OfKind(Kept("BIN_OP"))
    case "!=" => OfKind(Kept("BIN_OP"))
    case "=" => OfKind(Kept("ASSIGN"))
    case "::" => OfKind(Kept("COLON_COLON"))
    case _ => NoKind
  }

  predicate IsNameStart(c: char) { 'a' <= c <= 'z' || 'A' <= c <= 'Z' || c == '_' }

  predicate IsNameChar(c: char) { IsNameStart(c) || '0' <= c <= '9' }

  predicate NotQuote(c: char) { c != '"' }

  predicate AreDigits(w: string) { w != [] && forall k :: 0 <= k < |w| ==> '0' <= w[k] <= '9' }

  predicate IsFloat(w: string) {
    exists n :: 0 <= n < |w| && w[n] == '.' && AreDigits(w[..n]) && AreDigits(w[n + 1..])
  }

  predicate IsQuoted(w: string) {
    && |w| >= 2 && w[0] == '"' && w[|w| - 1] == '"'
    && forall k :: 0 < k < |w| - 1 ==> w[k] != '"'
  }

  predicate IsName(w: string) {
    w != [] && IsNameStart(w[0]) && forall k :: 0 <= k < |w| ==> IsNameChar(w[k])
  }

  // A reserved word is not a name.
  function KindOf(w: string): MaybeKind {
    if FixedKind(w).OfKind? then FixedKind(w)
    else if AreDigits(w) then OfKind(Kept("INT_LIT"))
    else if IsFloat(w) then OfKind(Kept("FLOAT_LIT"))
    else if IsQuoted(w) then OfKind(Kept("STR_LIT"))
    else if IsName(w) then OfKind(Kept("IDENDIFIER"))
    else NoKind
  }

  // ----- What the rules' expressions match -----

  // The expression matches the single characters of a class.
  ghost predicate IsClass(a: Rex<SymblRange>, p: char -> bool) {
    forall w :: Matches(a, w) <==> |w| == 1 && p(w[0])
  }

  ghost predicate AllIn(w: string, p: char -> bool) {
    forall k :: 0 <= k < |w| ==> p(w[k])
  }

  function Singles(w: string): (ws: seq<string>)
    ensures |ws| == |w| && forall k :: 0 <= k < |w| ==> ws[k] == [w[k]]
  {
    seq(|w|, k requires 0 <= k < |w| => [w[k]])
  }

  lemma {:induction false} FlattenSingles(w: string)
    ensures Flatten(Singles(w)) == w
    decreases w
  {
    if w != [] {
      assert Singles(w)[1..] == Singles(w[1..]);
      FlattenSingles(w[1..]);
    }
  }

  lemma {:induction false} FlattenOfSingles(ws: seq<string>)
    requires forall k :: 0 <= k < |ws| ==> |ws[k]| == 1
    ensures |Flatten(ws)| == |ws| && forall k :: 0 <= k < |ws| ==> Flatten(ws)[k] == ws[k][0]
    decreases ws
  {
    if ws != [] { FlattenOfSingles(ws[1..]); }
  }

  lemma {:induction false} SeqOf(a: Rex<SymblRange>, b: Rex<SymblRange>, u: string, v: string)
    requires Matches(a, u) && Matches(b, v)
    ensures Matches(Seq(a, b), u + v)
  {
  }

  lemma {:induction false} PartsOf(a: Rex<SymblRange>, b: Rex<SymblRange>, w: string) returns (u: string, v: string)
    requires Matches(Seq(a, b), w)
    ensures w == u + v && Matches(a, u) && Matches(b, v)
  {
    u, v :| w == u + v && Matches(a, u) && Matches(b, v);
  }

  lemma {:induction false} ManyOf(a: Rex<SymblRange>, ws: seq<string>)
    requires AllMatch(a, ws)
    ensures Matches(Any(a), Flatten(ws)) && (ws != [] ==> Matches(Repeat(a), Flatten(ws)))
  {
  }

  lemma {:induction false} PiecesOf(a: Rex<SymblRange>, w: string) returns (ws: seq<string>)
    requires Matches(Any(a), w)
    ensures Flatten(ws) == w && AllMatch(a, ws)
  {
    ws :| Flatten(ws) == w && AllMatch(a, ws);
  }

  lemma {:induction false} RepeatIsAny(a: Rex<SymblRange>, w: string) returns (ws: seq<string>)
    requires Matches(Repeat(a), w)
    ensures ws != [] && Flatten(ws) == w && AllMatch(a, ws)
  {
    ws :| |ws| > 0 && Flatten(ws) == w && AllMatch(a, ws);
  }

  lemma ManyOfClass(a: Rex<SymblRange>, p: char -> bool, w: string)
    requires IsClass(a, p)
    ensures Matches(Any(a), w) <==> AllIn(w, p)
    ensures Matches(Repeat(a), w) <==> w != [] && AllIn(w, p)
  {
    hide Matches;
    if AllIn(w, p) {
      FlattenSingles(w);
      ManyOf(a, Singles(w));
    }
    if Matches(Any(a), w) {
      var ws := PiecesOf(a, w);
      FlattenOfSingles(ws);
    }
    if Matches(Repeat(a), w) {
      var ws := RepeatIsAny(a, w);
      FlattenOfSingles(ws);
    }
  }

  lemma {:induction false} BetweenMatches(a: char, b: char, w: string)
    ensures Matches(Between(a, b), w) <==> |w| == 1 && a <= w[0] <= b
  {
  }

  lemma {:induction false} EitherMatches(a: Rex<SymblRange>, b: Rex<SymblRange>, w: string)
    ensures Matches(Either(a, b), w) <==> Matches(a, w) || Matches(b, w)
  {
  }

  lemma {:induction false} CharMatches(c: char, w: string)
    ensures Matches(Char(c), w) <==> w == [c]
  {
  }

  lemma {:induction false} ClassesOf(w: string)
    ensures Matches(Digit(), w) <==> |w| == 1 && IsDigit(w[0])
    ensures Matches(NonQuote(), w) <==> |w| == 1 && NotQuote(w[0])
    ensures Matches(Either(Letter(), Char('_')), w) <==> |w| == 1 && IsNameStart(w[0])
    ensures Matches(Either(Alphanum(), Char('_')), w) <==> |w| == 1 && IsNameChar(w[0])
  {
    hide Matches;
    BetweenMatches('0', '9', w);
    BetweenMatches('\0', '!', w);
    BetweenMatches('#', '\U{10FFFF}', w);
    BetweenMatches('a', 'z', w);
    BetweenMatches('A', 'Z', w);
    CharMatches('_', w);
    EitherMatches(Between('\0', '!'), Between('#', '\U{10FFFF}'), w);
    EitherMatches(Between('a', 'z'), Between('A', 'Z'), w);
    EitherMatches(Letter(), Digit(), w);
    EitherMatches(Letter(), Char('_'), w);
    EitherMatches(Alphanum(), Char('_'), w);
  }

  lemma Classes()
    ensures IsClass(Digit(), IsDigit)
    ensures IsClass(NonQuote(), NotQuote)
    ensures IsClass(Either(Letter(), Char('_')), IsNameStart)
    ensures IsClass(Either(Alphanum(), Char('_')), IsNameChar)
  {
    hide Matches, IsDigit, NotQuote, IsNameStart, IsNameChar, Digit, NonQuote, Letter, Alphanum, Char;
    forall w: string
      ensures Matches(Digit(), w) <==> |w| == 1 && IsDigit(w[0])
      ensures Matches(NonQuote(), w) <==> |w| == 1 && NotQuote(w[0])
      ensures Matches(Either(Letter(), Char('_')), w) <==> |w| == 1 && IsNameStart(w[0])
      ensures Matches(Either(Alphanum(), Char('_')), w) <==> |w| == 1 && IsNameChar(w[0])
    {
      ClassesOf(w);
    }
  }

  lemma {:induction false} DigitsMatch(w: string)
    ensures Matches(Repeat(Digit()), w) <==> AreDigits(w)
  {
    hide Matches, Digit;
    Classes();
    ManyOfClass(Digit(), IsDigit, w);
  }

  lemma {:induction false} FloatMatch(w: string)
    ensures Matches(FloatLiteral(), w) <==> IsFloat(w)
  {
    hide Matches, Digit, Char, AreDigits;
    var whole := Seq(Repeat(Digit()), Char('.'));
    if Matches(FloatLiteral(), w) {
      var u, v := PartsOf(whole, Repeat(Digit()), w);
      var x, y := PartsOf(Repeat(Digit()), Char('.'), u);
      DigitsMatch(x);
      DigitsMatch(v);
      CharMatches('.', y);
      assert w[|x|] == '.' && w[..|x|] == x && w[|x| + 1..] == v;
    }
    if IsFloat(w) {
      var n :| 0 <= n < |w| && w[n] == '.' && AreDigits(w[..n]) && AreDigits(w[n + 1..]);
      DigitsMatch(w[..n]);
      DigitsMatch(w[n + 1..]);
      CharMatches('.', ['.']);
      SeqOf(Repeat(Digit()), Char('.'), w[..n], ['.']);
      SeqOf(whole, Repeat(Digit()), w[..n] + ['.'], w[n + 1..]);
      assert w == w[..n] + ['.'] + w[n + 1..];
    }
  }

  lemma {:induction false} QuotedMatch(w: string)
    ensures Matches(StringLiteral(), w) <==> IsQuoted(w)
  {
    hide Matches, NonQuote, Char;
    Classes();
    var quote, inside := Char('"'), Any(NonQuote());
    if Matches(StringLiteral(), w) {
      var u, v := PartsOf(Seq(quote, inside), quote, w);
      var x, y := PartsOf(quote, inside, u);
      CharMatches('"', x);
      CharMatches('"', v);
      ManyOfClass(NonQuote(), NotQuote, y);
      assert forall k :: 0 < k < |w| - 1 ==> w[k] == y[k - 1];
    }
    if IsQuoted(w) {
      var n := |w| - 1;
      ManyOfClass(NonQuote(), NotQuote, w[1..n]);
      CharMatches('"', ['"']);
      SeqOf(quote, inside, ['"'], w[1..n]);
      SeqOf(Seq(quote, inside), quote, ['"'] + w[1..n], ['"']);
      assert w == ['"'] + w[1..n] + ['"'];
    }
  }

  lemma {:induction false} NameMatch(w: string)
    ensures Matches(Identifier(), w) <==> IsName(w)
  {
    hide Matches, Letter, Alphanum, Char, IsNameStart, IsNameChar;
    Classes();
    var first, more := Either(Letter(), Char('_')), Either(Alphanum(), Char('_'));
    if Matches(Identifier(), w) {
      var u, v := PartsOf(first, Any(more), w);
      ManyOfClass(more, IsNameChar, v);
      StartIsChar(u[0]);
      assert forall k :: 0 < k < |w| ==> w[k] == v[k - 1];
    }
    if IsName(w) {
      ManyOfClass(more, IsNameChar, w[1..]);
      SeqOf(first, Any(more), w[..1], w[1..]);
      assert w == w[..1] + w[1..];
    }
  }

  lemma StartIsChar(c: char)
    requires IsNameStart(c)
    ensures IsNameChar(c)
  {
  }

  lemma {:induction false} TextMatches(s: string, w: string)
    ensures Matches(Text(s), w) <==> w == s
  {
    if Matches(Text(s), w) { TextMark(s, w); }
  }

  lemma ColonsMatch(w: string)
    ensures Matches(Seq(Char(':'), Char(':')), w) <==> w == "::"
  {
    hide Matches;
    if Matches(Seq(Char(':'), Char(':')), w) { ColonsMark(w); }
    CharMatches(':', ":");
    SeqOf(Char(':'), Char(':'), ":", ":");
    assert ":" + ":" == "::";
  }

  // ----- The rules one by one -----

  function BlankWords(): seq<seq<string>> { [[" ", "\t"], ["\n", "\r"]] }

  function PunctuationWords(): seq<string> { ["_", ",", ".", ";", "(", ")", "[", "]", "{", "}"] }

  function KeywordWords(): seq<string> { ["continue", "break", "return", "if", "else", "while", "for", "func", "module"] }

  function OperatorWords(): seq<string> { ["+", "*", ">", "<", ">=", "<=", "==", "!=", "=", "::"] }

  lemma BlankRule(i: nat, w: string)
    requires i < 2
    ensures Matches(Spaces()[i].expr, w) <==> w in BlankWords()[i]
  {
    hide Matches, Char;
    CharMatches(' ', w);
    CharMatches('\t', w);
    CharMatches('\n', w);
    CharMatches('\r', w);
    EitherMatches(Char(' '), Char('\t'), w);
    EitherMatches(Char('\n'), Char('\r'), w);
  }

  lemma PunctuationRule(i: nat, w: string)
    requires i < 10
    ensures Matches(Punctuation()[i].expr, w) <==> w == PunctuationWords()[i]
  {
    hide Matches;
    CharMatches(PunctuationWords()[i][0], w);
  }

  lemma KeywordRule(i: nat, w: string)
    requires i < 9
    ensures Matches(Keywords()[i].expr, w) <==> w == KeywordWords()[i]
  {
    hide Matches, Text;
    TextMatches(KeywordWords()[i], w);
  }

  lemma OperatorRule(i: nat, w: string)
    requires i < 10
    ensures Matches(Operators()[i].expr, w) <==> w == OperatorWords()[i]
  {
    hide Matches, Text;
    if i < 4 || i == 8 {
      CharMatches(OperatorWords()[i][0], w);
    } else if i < 8 {
      TextMatches(OperatorWords()[i], w);
    } else {
      ColonsMatch(w);
    }
  }

  lemma LiteralRule(i: nat, w: string)
    requires i < 4
    ensures Matches(Literals()[i].expr, w) <==>
      if i == 0 then AreDigits(w) else if i == 1 then IsFloat(w) else if i == 2 then w in ["true", "false"] else IsQuoted(w)
  {
    hide Matches, Text, Digit, FloatLiteral, StringLiteral, AreDigits, IsFloat, IsQuoted;
    if i == 0 { DigitsMatch(w); }
    else if i == 1 { FloatMatch(w); }
    else if i == 2 {
      EitherMatches(Text("true"), Text("false"), w);
      TextMatches("true", w);
      TextMatches("false", w);
    } else { QuotedMatch(w); }
  }

  lemma FixedFirst(w: string)
    ensures FixedKind(w).OfKind? ==> w != [] && !IsDigit(w[0]) && w[0] != '"'
  {
  }

  // The kinds of literals exclude each other and everything fixed but the truth values.
  lemma LiteralKinds(w: string)
    ensures AreDigits(w) ==> KindOf(w) == OfKind(Kept("INT_LIT"))
    ensures IsFloat(w) ==> KindOf(w) == OfKind(Kept("FLOAT_LIT"))
    ensures IsQuoted(w) ==> KindOf(w) == OfKind(Kept("STR_LIT"))
  {
    hide FixedKind;
    FixedFirst(w);
    if IsFloat(w) {
      var n :| 0 <= n < |w| && w[n] == '.' && AreDigits(w[..n]) && AreDigits(w[n + 1..]);
      assert w[0] == w[..n][0];
    }
  }

  // The fixed words have the kinds of their rules.
  lemma FixedKinds(i: nat)
    ensures i < 2 ==> forall w :: w in BlankWords()[i] ==> FixedKind(w) == OfKind(Spaces()[i].kind)
    ensures i < 10 ==> FixedKind(PunctuationWords()[i]) == OfKind(Punctuation()[i].kind)
    ensures i < 9 ==> FixedKind(KeywordWords()[i]) == OfKind(Keywords()[i].kind)
    ensures i < 10 ==> FixedKind(OperatorWords()[i]) == OfKind(Operators()[i].kind)
  {
    hide Char, Text;
  }

  // What a rule before the last matches is a word of its kind.
  lemma RuleIsSound(s: RuleSpec, w: string)
    requires s in AllButLast() && Matches(s.expr, w)
    ensures KindOf(w) == OfKind(s.kind)
  {
    hide Matches, FixedKind, AreDigits, IsFloat, IsQuoted, IsName;
    if s in Spaces() {
      var i: nat :| i < 2 && Spaces()[i] == s;
      BlankRule(i, w);
      FixedKinds(i);
    } else if s in Literals() {
      var i: nat :| i < 4 && Literals()[i] == s;
      LiteralRule(i, w);
      LiteralKinds(w);
      TruthKinds();
    } else if s in Punctuation() {
      var i: nat :| i < 10 && Punctuation()[i] == s;
      PunctuationRule(i, w);
      FixedKinds(i);
    } else if s in Keywords() {
      var i: nat :| i < 9 && Keywords()[i] == s;
      KeywordRule(i, w);
      FixedKinds(i);
    } else {
      var i: nat :| i < 10 && Operators()[i] == s;
      OperatorRule(i, w);
      FixedKinds(i);
    }
  }

  lemma TruthKinds()
    ensures FixedKind("true") == FixedKind("false") == OfKind(Kept("BOOL_LIT"))
  {
  }

  ghost predicate Found(specs: seq<RuleSpec>, w: string) {
    exists i :: 0 <= i < |specs| && Matches(specs[i].expr, w)
  }

  lemma FoundIn(s: RuleSpec, w: string)
    requires Matches(s.expr, w)
    requires s in Spaces() || s in Literals() || s in Punctuation() || s in Keywords() || s in Operators()
    ensures Found(AllButLast(), w)
  {
    hide Matches, Spaces, Literals, Punctuation, Keywords, Operators;
    assert s in AllButLast();
    var i :| 0 <= i < |AllButLast()| && AllButLast()[i] == s;
  }

  lemma FixedWords(w: string)
    requires FixedKind(w).OfKind?
    ensures w in [" ", "\t", "\n", "\r", "true", "false"] || w in PunctuationWords() || w in KeywordWords() || w in OperatorWords()
  {
  }

  // Every word but names is matched by one of them.
  lemma WordIsFound(w: string)
    requires KindOf(w).OfKind? && (FixedKind(w).OfKind? || !IsName(w))
    ensures Found(AllButLast(), w)
  {
    hide Matches, FixedKind, AreDigits, IsFloat, IsQuoted, IsName;
    if FixedKind(w).OfKind? {
      FixedWords(w);
      if w in PunctuationWords() {
        var i: nat :| i < 10 && PunctuationWords()[i] == w;
        PunctuationRule(i, w);
        FoundIn(Punctuation()[i], w);
      } else if w in KeywordWords() {
        var i: nat :| i < 9 && KeywordWords()[i] == w;
        KeywordRule(i, w);
        FoundIn(Keywords()[i], w);
      } else if w in OperatorWords() {
        var i: nat :| i < 10 && OperatorWords()[i] == w;
        OperatorRule(i, w);
        FoundIn(Operators()[i], w);
      } else if w in ["true", "false"] {
        LiteralRule(2, w);
        FoundIn(Literals()[2], w);
      } else {
        BlankRule(0, w);
        BlankRule(1, w);
        FoundIn(Spaces()[if w in BlankWords()[0] then 0 else 1], w);
      }
    } else {
      LiteralRule(0, w);
      LiteralRule(1, w);
      LiteralRule(3, w);
      FoundIn(Literals()[if AreDigits(w) then 0 else if IsFloat(w) then 1 else 3], w);
    }
  }

  // ----- All rules together -----

  ghost predicate RulesAre(rules: seq<Rule>) {
    && |rules| == |Specs()|
    && (forall i :: 0 <= i < |rules| ==> rules[i].priority == Specs()[i].priority && rules[i].kind == Specs()[i].kind)
    && forall i: nat, w :: i < |rules| ==> (RecognizesWord(rules, i, w) <==> Matches(Specs()[i].expr, w))
  }

  ghost predicate Recognized(rules: seq<Rule>, w: string) {
    exists i: nat :: i < |rules| && RecognizesWord(rules, i, w)
  }

  lemma NameIsNoLiteral(w: string)
    requires IsName(w)
    ensures KindOf(w) == (if FixedKind(w).OfKind? then FixedKind(w) else OfKind(Kept("IDENDIFIER"))) && KindOf(w) != OfKind(Skipped)
  {
    hide FixedKind;
    FixedSkipped(w);
  }

  lemma FixedSkipped(w: string)
    ensures FixedKind(w) == OfKind(Skipped) ==> !IsName(w)
  {
  }

  lemma KeptFirst(s: RuleSpec)
    requires s in AllButLast() && s.kind.Kept?
    ensures s.priority == 0
  {
    hide FloatLiteral, StringLiteral, Digit, Char, Text;
    assert s in Spaces() || s in Literals() || s in Punctuation() || s in Keywords() || s in Operators();
  }

  // Rule i of all is rule i of those before the last, or the last, which is for names.
  lemma RuleAt(i: nat)
    requires i < |Specs()|
    ensures |Specs()| == |AllButLast()| + 1
    ensures if i < |AllButLast()| then Specs()[i] == AllButLast()[i] && Specs()[i] in AllButLast()
      else Specs()[i] == RuleSpec(Identifier(), 1, Kept("IDENDIFIER"))
  {
    hide Specs, AllButLast, Identifier;
    LastAlone();
  }

  // Some rule matches exactly the words.
  lemma RecognizedAreWords(rules: seq<Rule>, w: string)
    requires RulesAre(rules)
    ensures Recognized(rules, w) <==> KindOf(w).OfKind?
  {
    hide Specs, AllButLast, Matches, RecognizesWord, KindOf, FixedKind, IsName, Identifier;
    if Recognized(rules, w) {
      var i: nat :| i < |rules| && RecognizesWord(rules, i, w);
      RuleAt(i);
      if i < |AllButLast()| {
        RuleIsSound(Specs()[i], w);
      } else {
        NameMatch(w);
        NameIsNoLiteral(w);
      }
    }
    if KindOf(w).OfKind? {
      LastAlone();
      RuleAt(|AllButLast()|);
      if FixedKind(w).OfKind? || !IsName(w) {
        WordIsFound(w);
        var i: nat :| i < |AllButLast()| && Matches(AllButLast()[i].expr, w);
        RuleAt(i);
        assert RecognizesWord(rules, i, w);
      } else {
        NameMatch(w);
        assert RecognizesWord(rules, |AllButLast()|, w);
      }
    }
  }

  // The rule of lowest priority number that matches a word has its kind.
  lemma FirstHasKind(rules: seq<Rule>, i: nat, w: string)
    requires RulesAre(rules) && i < |rules| && RecognizesWord(rules, i, w)
    requires forall j: nat :: j < |rules| && RecognizesWord(rules, j, w) ==> rules[i].priority <= rules[j].priority
    ensures KindOf(w) == OfKind(rules[i].kind)
  {
    hide Specs, AllButLast, Matches, RecognizesWord, KindOf, FixedKind, IsName, Identifier;
    RuleAt(i);
    if i < |AllButLast()| {
      RuleIsSound(Specs()[i], w);
    } else {
      NameMatch(w);
      NameIsNoLiteral(w);
      if FixedKind(w).OfKind? {
        WordIsFound(w);
        var j: nat :| j < |AllButLast()| && Matches(AllButLast()[j].expr, w);
        RuleAt(j);
        assert RecognizesWord(rules, j, w);
        RuleIsSound(Specs()[j], w);
        KeptFirst(Specs()[j]);
        assert false;
      }
    }
  }

  // ----- Longest words -----

  ghost predicate IsLongestWord(input: string, pos: nat, end: nat) {
    && pos < end <= |input| && KindOf(input[pos..end]).OfKind?
    && NoLonger(input, pos, end)
  }

  ghost predicate NoLonger(input: string, pos: nat, end: nat) {
    forall e: nat :: pos <= e && end < e <= |input| ==> KindOf(input[pos..e]).NoKind?
  }

  lemma {:induction false} MunchOf(rules: seq<Rule>, input: string, pos: nat, i: nat, top: nat) returns (end: nat)
    requires i < |rules| && pos <= top <= |input|
    requires forall k: nat :: top < k <= |input| ==> !RecognizesWord(rules, i, input[pos..k])
    ensures Munches(rules, input, pos, i, end) && end <= top
    decreases top
  {
    hide CharRecognizes;
    end := top;
    if top > pos && !RecognizesWord(rules, i, input[pos..top]) {
      end := MunchOf(rules, input, pos, i, top - 1);
    }
  }

  // A rule that matches up to e has its longest match there or further on.
  lemma MunchPast(rules: seq<Rule>, input: string, pos: nat, i: nat, e: nat) returns (end: nat)
    requires i < |rules| && pos < e <= |input| && RecognizesWord(rules, i, input[pos..e])
    ensures Munches(rules, input, pos, i, end) && e <= end
  {
    hide CharRecognizes;
    end := MunchOf(rules, input, pos, i, |input|);
  }

  lemma BestIsWord(rules: seq<Rule>, input: string, pos: nat, i: nat, end: nat)
    requires RulesAre(rules) && IsBest(rules, input, pos, i, end)
    ensures IsLongestWord(input, pos, end) && KindOf(input[pos..end]) == OfKind(rules[i].kind)
  {
    hide CharRecognizes, KindOf, RulesAre;
    var w := input[pos..end];
    assert RecognizesWord(rules, i, w);
    forall j: nat | j < |rules| && RecognizesWord(rules, j, w) ensures rules[i].priority <= rules[j].priority {
      var e := MunchPast(rules, input, pos, j, end);
      assert Beats(rules, i, end, j, e);
    }
    FirstHasKind(rules, i, w);
    forall e: nat | pos <= e && end < e <= |input| ensures KindOf(input[pos..e]).NoKind? {
      RecognizedAreWords(rules, input[pos..e]);
      if Recognized(rules, input[pos..e]) {
        var j: nat :| j < |rules| && RecognizesWord(rules, j, input[pos..e]);
        var f := MunchPast(rules, input, pos, j, e);
      }
    }
  }

  lemma NoMatchNoWord(rules: seq<Rule>, input: string, pos: nat)
    requires RulesAre(rules) && pos <= |input| && NoMatch(rules, input, pos)
    ensures NoLonger(input, pos, pos)
  {
    hide CharRecognizes, KindOf, RulesAre;
    forall e: nat | pos < e <= |input| ensures KindOf(input[pos..e]).NoKind? {
      RecognizedAreWords(rules, input[pos..e]);
      if Recognized(rules, input[pos..e]) {
        var j: nat :| j < |rules| && RecognizesWord(rules, j, input[pos..e]);
        var f := MunchPast(rules, input, pos, j, e);
      }
    }
  }

  // ----- Cutting the input into words -----

  // Positions from 0 on, each the end of the longest word that starts at the one before.
  ghost predicate IsCut(input: string, cut: seq<nat>) {
    cut != [] && cut[0] == 0 && forall k :: 0 <= k < |cut| - 1 ==> CutAt(input, cut, k)
  }

  ghost predicate CutAt(input: string, cut: seq<nat>, k: nat)
    requires k + 1 < |cut|
  {
    IsLongestWord(input, cut[k], cut[k + 1])
  }

  // The token of the word between two positions, none for blanks.
  ghost function WordToken(input: string, pos: nat, end: nat): seq<Token> {
    if pos <= end <= |input| && KindOf(input[pos..end]).OfKind? && KindOf(input[pos..end]).kind.Kept? then
      [Token(KindOf(input[pos..end]).kind, input[pos..end], LineOf(input, pos), ColumnOf(input, pos))]
    else []
  }

  ghost function WordTokens(input: string, cut: seq<nat>): seq<Token> {
    if |cut| < 2 then [] else WordTokens(input, cut[..|cut| - 1]) + WordToken(input, cut[|cut| - 2], cut[|cut| - 1])
  }

  // Tokens are those of the longest words one after the other, up to the end
  // or to where no word starts.
  ghost predicate IsTokenized(input: string, tokens: seq<Token>, stop: nat) {
    exists cut :: IsCut(input, cut) && cut[|cut| - 1] == stop && tokens == WordTokens(input, cut)
      && stop <= |input| && NoLonger(input, stop, stop)
  }

  lemma {:induction false} PiecesCut(rules: seq<Rule>, input: string, pieces: seq<Piece>, stop: nat) returns (cut: seq<nat>)
    requires RulesAre(rules) && IsPartition(rules, input, pieces, stop)
    ensures IsCut(input, cut) && cut[|cut| - 1] == stop <= |input| && WordTokens(input, cut) == TokensOf(rules, input, pieces)
    decreases pieces
  {
    hide IsBest, KindOf, RulesAre, LineOf, ColumnOf, IsLongestWord;
    if pieces == [] {
      cut := [0];
    } else {
      var n := |pieces| - 1;
      ShorterPartition(rules, input, pieces, stop);
      var before := PiecesCut(rules, input, pieces[..n], pieces[n].start);
      assert PieceOk(rules, input, pieces, n);
      BestIsWord(rules, input, pieces[n].start, pieces[n].rule, stop);
      BestInRange(rules, input, pieces[n].start, pieces[n].rule, stop);
      cut := before + [stop];
      forall k | 0 <= k < |cut| - 1 ensures CutAt(input, cut, k) {
        if k < |before| - 1 { assert CutAt(input, before, k); }
      }
      assert cut[..|cut| - 1] == before;
    }
  }

  // There is one way only to cut an input into longest words.
  lemma {:induction false} CutsAgree(input: string, cut: seq<nat>, other: seq<nat>)
    requires IsCut(input, cut) && IsCut(input, other) && |cut| <= |other|
    ensures cut <= other
    decreases |cut|
  {
    hide KindOf;
    if |cut| > 1 {
      var n := |cut| - 1;
      var before := cut[..n];
      forall k | 0 <= k < |before| - 1 ensures CutAt(input, before, k) { assert CutAt(input, cut, k); }
      CutsAgree(input, before, other);
      assert cut[n - 1] == before[n - 1] == other[n - 1];
      assert CutAt(input, cut, n - 1) && CutAt(input, other, n - 1);
      LongestOnce(input, cut[n - 1], cut[n], other[n]);
    }
  }

  lemma LongestOnce(input: string, pos: nat, e: nat, f: nat)
    requires IsLongestWord(input, pos, e) && IsLongestWord(input, pos, f)
    ensures e == f
  {
    hide KindOf;
  }

  lemma CutGoesOn(input: string, cut: seq<nat>, other: seq<nat>)
    requires IsCut(input, cut) && IsCut(input, other) && cut <= other && |cut| < |other|
    ensures !NoLonger(input, cut[|cut| - 1], cut[|cut| - 1])
  {
    hide KindOf;
    assert CutAt(input, other, |cut| - 1);
  }

  // So tokens and where they stop are determined.
  lemma TokenizedOnce(input: string, tokens: seq<Token>, stop: nat, tokens': seq<Token>, stop': nat)
    requires IsTokenized(input, tokens, stop) && IsTokenized(input, tokens', stop')
    ensures tokens == tokens' && stop == stop'
  {
    hide WordTokens, NoLonger;
    var cut :| IsCut(input, cut) && cut[|cut| - 1] == stop && tokens == WordTokens(input, cut);
    var other :| IsCut(input, other) && other[|other| - 1] == stop' && tokens' == WordTokens(input, other);
    if |cut| <= |other| {
      CutsAgree(input, cut, other);
      if |cut| < |other| { CutGoesOn(input, cut, other); }
      assert cut == other;
    } else {
      CutsAgree(input, other, cut);
      CutGoesOn(input, other, cut);
    }
  }

  // The tokens, and whether the input was read to its end or which character no
  // word starts with.
  ghost predicate IsLexed(input: string, tokens: seq<Token>, result: LexResult) {
    exists stop: nat :: IsTokenized(input, tokens, stop) && stop <= |input| && result == ResultAt(input, stop)
  }

  function ResultAt(input: string, stop: nat): LexResult
    requires stop <= |input|
  {
    if stop == |input| then Done else UnknownInput(input[stop], stop, LineOf(input, stop), ColumnOf(input, stop))
  }

  // A word alone gives its one token, or none if it is blank.
  lemma WordAlone(w: string, tokens: seq<Token>, result: LexResult)
    requires KindOf(w).OfKind? && IsLexed(w, tokens, result)
    ensures result.Done? && tokens == if KindOf(w).kind.Kept? then [Token(KindOf(w).kind, w, 1, 1)] else []
  {
    hide KindOf, IsTokenized, LineOf, ColumnOf;
    var stop: nat :| IsTokenized(w, tokens, stop) && stop <= |w| && result == ResultAt(w, stop);
    OneToken(w, tokens, stop);
  }

  lemma {:induction false} OneToken(w: string, tokens: seq<Token>, stop: nat)
    requires KindOf(w).OfKind? && IsTokenized(w, tokens, stop)
    ensures stop == |w| && tokens == if KindOf(w).kind.Kept? then [Token(KindOf(w).kind, w, 1, 1)] else []
  {
    hide KindOf, LineOf, ColumnOf;
    assert w != [] by { NoEmptyWord(); }
    var cut := [0, |w|];
    assert w[0..|w|] == w;
    assert CutAt(w, cut, 0);
    assert IsCut(w, cut) && NoLonger(w, |w|, |w|);
    LineAtStart(w);
    ColumnIs(w, 0);
    assert cut[..1] == [0];
    assert WordTokens(w, cut) == WordTokens(w, [0]) + WordToken(w, 0, |w|);
    assert IsTokenized(w, WordTokens(w, cut), |w|);
    TokenizedOnce(w, tokens, stop, WordTokens(w, cut), |w|);
  }

  predicate IsBlank(c: char) { c == ' ' || c == '\t' || c == '\n' || c == '\r' }

  lemma BlankFixed(w: string)
    requires w != [] && IsBlank(w[0])
    ensures FixedKind(w) == if |w| == 1 then OfKind(Skipped) else NoKind
  {
    if |w| == 1 { assert w == [w[0]]; }
  }

  // What starts with a blank is a word only if it is that blank.
  lemma BlankWord(w: string)
    requires w != [] && IsBlank(w[0])
    ensures KindOf(w) == if |w| == 1 then OfKind(Skipped) else NoKind
  {
    hide FixedKind;
    BlankFixed(w);
    assert !AreDigits(w) && !IsQuoted(w) && !IsName(w);
    assert !IsFloat(w);
  }

  // Blanks alone give no token.
  lemma BlanksAlone(w: string, tokens: seq<Token>, result: LexResult)
    requires (forall k :: 0 <= k < |w| ==> IsBlank(w[k])) && IsLexed(w, tokens, result)
    ensures result.Done? && tokens == []
  {
    hide KindOf, IsTokenized, LineOf, ColumnOf;
    var stop: nat :| IsTokenized(w, tokens, stop) && stop <= |w| && result == ResultAt(w, stop);
    NoTokens(w, tokens, stop);
  }

  lemma {:induction false} NoTokens(w: string, tokens: seq<Token>, stop: nat)
    requires (forall k :: 0 <= k < |w| ==> IsBlank(w[k])) && IsTokenized(w, tokens, stop)
    ensures stop == |w| && tokens == []
  {
    hide KindOf;
    var cut := BlankCut(w, |w|);
    assert NoLonger(w, |w|, |w|);
    assert IsTokenized(w, WordTokens(w, cut), |w|);
    TokenizedOnce(w, tokens, stop, WordTokens(w, cut), |w|);
  }

  lemma {:induction false} BlankCut(w: string, n: nat) returns (cut: seq<nat>)
    requires n <= |w| && forall k :: 0 <= k < |w| ==> IsBlank(w[k])
    ensures IsCut(w, cut) && cut[|cut| - 1] == n && WordTokens(w, cut) == []
  {
    hide KindOf;
    if n == 0 {
      cut := [0];
    } else {
      var before := BlankCut(w, n - 1);
      cut := before + [n];
      var m := n - 1;
      BlankWord(w[m..n]);
      forall e: nat | n < e <= |w| ensures KindOf(w[m..e]).NoKind? { BlankWord(w[m..e]); }
      forall k | 0 <= k < |cut| - 1 ensures CutAt(w, cut, k) {
        if k < |before| - 1 { assert CutAt(w, before, k); }
      }
      assert cut[..|cut| - 1] == before;
    }
  }

  lemma NoEmptyWord()
    ensures KindOf("").NoKind?
  {
  }

  // The tokenizer of the language cuts any input into its longest words.
  method Tokenize(input: string) returns (result: LexResult, tokens: seq<Token>)
    ensures IsLexed(input, tokens, result)
  {
    hide Specs, Matches, IsBest, NoMatch, IsPartition, TokensOf, CharRecognizes, IsCut, WordTokens, Unambiguous, LineOf, ColumnOf;
    var rules := BuildRules();
    assert RulesAre(rules);
    var tokenizer := new Tokenizer(rules);
    ghost var pieces, stop;
    result, pieces, stop := tokenizer.Process(input);
    tokens := tokenizer.tokens;
    ghost var cut := PiecesCut(rules, input, pieces, stop);
    if stop < |input| { NoMatchNoWord(rules, input, stop); }
    assert NoLonger(input, stop, stop);
    assert tokens == [] + TokensOf(rules, input, pieces) == WordTokens(input, cut);
    assert IsTokenized(input, tokens, stop);
  }
}
