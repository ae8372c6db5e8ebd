/** Worked scenarios over a small stand-in pattern engine that knows the handful of
    patterns used below: `\d+` (ASCII digits), `\s+`, `\+`, and plain literals. */
module Scenarios {

  import opened Wrappers
  import opened Tokens
  import opened Rules
  import opened Scanning
  import opened ScanLemmas
  import Plex

  predicate IsDigit(c: char)
  {
    '0' <= c <= '9'
  }

  /** An anchored literal match: the whole literal at the start of `s`. */
  function Literal(lit: string, s: string): (r: Option<nat>)
    ensures r.Some? <==> lit != [] && lit <= s
    ensures r.Some? ==> r.value == |lit|
  {
    if lit != [] && lit <= s then Some(|lit|) else None
  }

  function Demo(p: Pattern, s: string): Option<nat>
  {
    if p.source == "\\d+" then OneOrMore(s, IsDigit)
    else if p.source == "\\s+" then OneOrMore(s, IsWhitespace)
    else if p.source == "\\+" then Literal("+", s)
    else Literal(p.source, s)
  }

  /** The stand-in engine meets the contract of an anchored matcher, agrees with `\s+`
      on the whitespace pattern, and never matches an empty prefix. */
  lemma DemoIsWellBehaved(rules: seq<Rule>)
    ensures Anchored(Demo)
    ensures MatchesWhitespace(Demo)
    ensures Consuming(Demo, rules)
  {
  }

  const Num := NewRule("NUM", "\\d+")
  const Plus := NewRule("PLUS", "\\+")
  const Precedence := [NewRule("A", "ab"), NewRule("B", "a")]
  const Arith := [Num, Plus, WhitespaceRule]

  /** With rule "ab" (type A) before rule "a" (type B), the input "ab" is one token of
      type A: the first rule that matches wins, not the longest match. */
  lemma FirstRuleWins()
    ensures Anchored(Demo) && Consuming(Demo, Precedence)
    ensures Scan(Demo, Precedence, "ab") == Run([Step(Precedence[0], "ab")], None)
    ensures Emitted(Scan(Demo, Precedence, "ab").steps) == [Token("ab", "A")]
  {
    DemoIsWellBehaved(Precedence);
    var rules := Precedence;
    assert rules[0] == Rule("A", Pattern("ab", 0), Emit);
    assert Demo(rules[0].pattern, "ab") == Some(2);
    ScanTakesFirstMatchingRule(Demo, rules, "ab", 0, 2);
    assert "ab"[2..] == [] && "ab"[..2] == "ab";
  }

  /** The steps of the scan of "12 + 7" under `Arith`, one suffix at a time. */
  const Blank := Step(WhitespaceRule, " ")
  const Seven := [Step(Num, "7")]
  const BlankSeven := [Blank] + Seven
  const PlusBlankSeven := [Step(Plus, "+")] + BlankSeven
  const BlankPlusBlankSeven := [Blank] + PlusBlankSeven
  const ArithSteps := [Step(Num, "12")] + BlankPlusBlankSeven

  /** Which of its patterns the stand-in engine sees in each rule of `Arith`. */
  lemma ArithRules(s: string)
    ensures Arith[0] == Num && Arith[1] == Plus && Arith[2] == WhitespaceRule
    ensures Demo(Num.pattern, s) == OneOrMore(s, IsDigit)
    ensures Demo(Plus.pattern, s) == Literal("+", s)
    ensures Demo(WhitespaceRule.pattern, s) == OneOrMore(s, IsWhitespace)
  {
    assert Num.pattern.source == "\\d+";
    assert Plus.pattern.source == "\\+" != "\\d+";
    assert "\\s+" != "\\d+" && "\\s+" != "\\+";
  }

  /** Under `Arith`, a run of `n` digits at the start is one NUM step. */
  lemma ArithTakesNumber(s: string, n: nat)
    requires Anchored(Demo) && Consuming(Demo, Arith)
    requires 0 < n <= |s|
    requires forall k :: 0 <= k < n ==> IsDigit(s[k])
    requires n < |s| ==> !IsDigit(s[n])
    ensures Scan(Demo, Arith, s) ==
              Run([Step(Num, s[..n])] + Scan(Demo, Arith, s[n..]).steps, Scan(Demo, Arith, s[n..]).stuck)
  {
    ArithRules(s);
    LeadingRunIs(s, IsDigit, n);
    ScanTakesFirstMatchingRule(Demo, Arith, s, 0, n);
  }

  /** Under `Arith`, a "+" at the start is one PLUS step. */
  lemma ArithTakesPlus(s: string)
    requires Anchored(Demo) && Consuming(Demo, Arith)
    requires s != [] && s[0] == '+'
    ensures Scan(Demo, Arith, s) ==
              Run([Step(Plus, "+")] + Scan(Demo, Arith, s[1..]).steps, Scan(Demo, Arith, s[1..]).stuck)
  {
    ArithRules(s);
    assert s[..1] == "+";
    ScanTakesFirstMatchingRule(Demo, Arith, s, 1, 1);
  }

  /** Under `Arith`, a single blank before a character that is not whitespace is one
      discarded step. */
  lemma ArithTakesBlank(s: string)
    requires Anchored(Demo) && Consuming(Demo, Arith)
    requires |s| >= 2 && s[0] == ' ' && !IsWhitespace(s[1])
    ensures Scan(Demo, Arith, s) ==
              Run([Blank] + Scan(Demo, Arith, s[1..]).steps, Scan(Demo, Arith, s[1..]).stuck)
  {
    ArithRules(s);
    assert !IsDigit(s[0]) && s[..1] == " ";
    LeadingRunIs(s, IsDigit, 0);
    LeadingRunIs(s, IsWhitespace, 1);
    ScanTakesFirstMatchingRule(Demo, Arith, s, 2, 1);
  }

  /** Facts about the literal text of "12 + 7" and its suffixes. */
  lemma ArithTexts()
    ensures "7"[1..] == [] && "7"[..1] == "7" && IsDigit("7"[0])
    ensures |" 7"| >= 2 && " 7"[0] == ' ' && !IsWhitespace(" 7"[1]) && " 7"[1..] == "7"
    ensures "+ 7" != [] && "+ 7"[0] == '+' && "+ 7"[1..] == " 7"
    ensures |" + 7"| >= 2 && " + 7"[0] == ' ' && !IsWhitespace(" + 7"[1]) && " + 7"[1..] == "+ 7"
    ensures forall k :: 0 <= k < 2 ==> IsDigit("12 + 7"[k])
    ensures !IsDigit("12 + 7"[2]) && "12 + 7"[2..] == " + 7" && "12 + 7"[..2] == "12"
  {
  }

  lemma ArithSeven()
    requires Anchored(Demo) && Consuming(Demo, Arith)
    ensures Scan(Demo, Arith, "7") == Run(Seven, None)
  {
    ArithTexts();
    ArithTakesNumber("7", 1);
  }

  lemma ArithBlankSeven()
    requires Anchored(Demo) && Consuming(Demo, Arith)
    ensures Scan(Demo, Arith, " 7") == Run(BlankSeven, None)
  {
    ArithTexts();
    ArithSeven();
    ArithTakesBlank(" 7");
  }

  lemma ArithPlusBlankSeven()
    requires Anchored(Demo) && Consuming(Demo, Arith)
    ensures Scan(Demo, Arith, "+ 7") == Run(PlusBlankSeven, None)
  {
    ArithTexts();
    ArithBlankSeven();
    ArithTakesPlus("+ 7");
  }

  lemma ArithBlankPlusBlankSeven()
    requires Anchored(Demo) && Consuming(Demo, Arith)
    ensures Scan(Demo, Arith, " + 7") == Run(BlankPlusBlankSeven, None)
  {
    ArithTexts();
    ArithPlusBlankSeven();
    ArithTakesBlank(" + 7");
  }

  lemma ArithSteps12()
    requires Anchored(Demo) && Consuming(Demo, Arith)
    ensures Scan(Demo, Arith, "12 + 7") == Run(ArithSteps, None)
  {
    ArithTexts();
    ArithBlankPlusBlankSeven();
    ArithTakesNumber("12 + 7", 2);
  }

  lemma ArithEmits()
    ensures Emitted(ArithSteps) == [Token("12", "NUM"), Token("+", "PLUS"), Token("7", "NUM")]
  {
    assert Emitted(Seven) == [Token("7", "NUM")];
    assert BlankSeven[1..] == Seven;
    assert Emitted(BlankSeven) == [Token("7", "NUM")];
    assert PlusBlankSeven[1..] == BlankSeven;
    assert Emitted(PlusBlankSeven) == [Token("+", "PLUS"), Token("7", "NUM")];
    assert BlankPlusBlankSeven[1..] == PlusBlankSeven;
    assert Emitted(BlankPlusBlankSeven) == [Token("+", "PLUS"), Token("7", "NUM")];
    assert ArithSteps[1..] == BlankPlusBlankSeven;
  }

  /** "12 + 7" with NUM, PLUS and the whitespace rule appended: three tokens, the two
      blanks consumed but not emitted. */
  lemma Arithmetic()
    ensures Anchored(Demo) && Consuming(Demo, Arith)
    ensures Scan(Demo, Arith, "12 + 7").stuck == None
    ensures Emitted(Scan(Demo, Arith, "12 + 7").steps) ==
              [Token("12", "NUM"), Token("+", "PLUS"), Token("7", "NUM")]
  {
    DemoIsWellBehaved(Arith);
    ArithSteps12();
    ArithEmits();
  }

  /** With only a digit rule, "123x" yields the one token "123" (the match is greedy),
      then stops at "x" with the error whose snippet is "x". */
  lemma UnmatchedInput()
    ensures Anchored(Demo) && Consuming(Demo, [Num])
    ensures Scan(Demo, [Num], "123x") == Run([Step(Num, "123")], Some("x"))
    ensures Emitted(Scan(Demo, [Num], "123x").steps) == [Token("123", "NUM")]
    ensures ErrorOf(Scan(Demo, [Num], "123x").stuck) == Some(LexicalError("No rules match at x..."))
  {
    DemoIsWellBehaved([Num]);
    UnmatchedTexts();
    ArithRules("x");
    ArithRules("123x");
    LeadingRunIs("x", IsDigit, 0);
    assert Misses(Demo, [Num], 0, "x");
    ScanStops(Demo, [Num], "x");
    LeadingRunIs("123x", IsDigit, 3);
    ScanTakesFirstMatchingRule(Demo, [Num], "123x", 0, 3);
  }

  lemma UnmatchedTexts()
    ensures forall k :: 0 <= k < 3 ==> IsDigit("123x"[k])
    ensures !IsDigit("123x"[3]) && !IsDigit("x"[0])
    ensures "123x"[3..] == "x" && "123x"[..3] == "123"
    ensures NoMatchError("x") == LexicalError("No rules match at x...")
  {
    assert "No rules match at " + "x" + "..." == "No rules match at x...";
  }

  /** A caller's rule list passed to the lexer gains the whitespace rule, and the
      lexer scans "12 + 7" the same way on every call. */
  method ArithmeticSession() returns (first: seq<Token>, second: seq<Token>, shared: seq<Rule>)
    ensures shared == Arith
    ensures first == second == [Token("12", "NUM"), Token("+", "PLUS"), Token("7", "NUM")]
  {
    var rules := new Plex.RuleList([Num, Plus]);
    var lexer := new Plex.Lexer(rules);
    shared := rules.items;
    DemoIsWellBehaved(shared);
    Arithmetic();
    var error;
    first, error := lexer.Tokenize(Demo, "12 + 7");
    second, error := lexer.Tokenize(Demo, "12 + 7");
  }
}
