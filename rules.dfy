/** Lexical rules and the abstract anchored-prefix matching engine they rely on. */
module Rules {

  import opened Wrappers

  /** A pattern as it is handed to the regular-expression compiler: its source text
      and its compilation flags. */
  datatype Pattern = Pattern(source: string, flags: int)

  /** What a rule does with its matched text: build a token from it (the default
      callback, the token constructor) or discard it (a callback of None). */
  datatype Callback = Emit | Discard

  /** A rule: the type given to what it matches, its pattern and its callback. */
  datatype Rule = Rule(ruleType: string, pattern: Pattern, callback: Callback)

  /** Building a rule, with the source's defaults: the token constructor as callback
      and no flags. */
  function NewRule(tokenType: string, source: string, callback: Callback := Emit, flags: int := 0): Rule
  {
    Rule(tokenType, Pattern(source, flags), callback)
  }

  /** The regular-expression engine: the length of the match of a pattern anchored at
      the start of a string, or None when the pattern does not match there. */
  type Engine = (Pattern, string) -> Option<nat>

  /** What the engine promises: a match never extends past the end of the string. */
  ghost predicate Anchored(engine: Engine)
  {
    forall p: Pattern, s: string :: engine(p, s).Some? ==> engine(p, s).value <= |s|
  }

  /** Every rule in the list consumes at least one character whenever it matches a
      non-empty string. Scanning is known to terminate only under this condition. */
  ghost predicate Consuming(engine: Engine, rules: seq<Rule>)
  {
    forall i: int, s: string :: 0 <= i < |rules| && s != [] && engine(rules[i].pattern, s).Some? ==>
      engine(rules[i].pattern, s).value > 0
  }

  /** The characters matched by `\s` in a Python 3 `str` pattern: the code points
      for which `str.isspace` holds. */
  predicate IsWhitespace(c: char)
  {
    var n := c as int;
    (0x09 <= n <= 0x0D) || (0x1C <= n <= 0x20) || n == 0x85 || n == 0xA0 || n == 0x1680 ||
    (0x2000 <= n <= 0x200A) || n == 0x2028 || n == 0x2029 || n == 0x202F || n == 0x205F || n == 0x3000
  }

  /** The length of the longest prefix of `s` whose characters all belong to a class:
      what a greedy `X*` matches at the start of `s`. */
  function LeadingRun(s: string, inClass: char -> bool): (n: nat)
    ensures n <= |s|
    ensures forall k :: 0 <= k < n ==> inClass(s[k])
    ensures n < |s| ==> !inClass(s[n])
  {
    if s != [] && inClass(s[0]) then 1 + LeadingRun(s[1..], inClass) else 0
  }

  /** The run is exactly `n` long when the first `n` characters are in the class and the
      next one, if any, is not. */
  lemma LeadingRunIs(s: string, inClass: char -> bool, n: nat)
    requires n <= |s|
    requires forall k :: 0 <= k < n ==> inClass(s[k])
    requires n < |s| ==> !inClass(s[n])
    ensures LeadingRun(s, inClass) == n
  {
  }

  /** The anchored match of a greedy `X+` at the start of `s`. */
  function OneOrMore(s: string, inClass: char -> bool): (r: Option<nat>)
  {
    var n := LeadingRun(s, inClass);
    if n == 0 then None else Some(n)
  }

  /** The pattern `\s+` of the implicit whitespace rule. */
  const WhitespacePattern := Pattern("\\s+", 0)

  /** The implicit whitespace rule: type "_whitespace", pattern `\s+`, discarded. */
  const WhitespaceRule := Rule("_whitespace", WhitespacePattern, Discard)

  /** The engine gives `\s+` its meaning: the longest run of whitespace, if non-empty. */
  ghost predicate MatchesWhitespace(engine: Engine)
  {
    forall s: string :: engine(WhitespacePattern, s) == OneOrMore(s, IsWhitespace)
  }

  /** A string of whitespace only is matched by `\s+` in full. */
  lemma WhitespaceMatchesAll(engine: Engine, s: string)
    requires MatchesWhitespace(engine)
    requires s != []
    requires forall k :: 0 <= k < |s| ==> IsWhitespace(s[k])
    ensures engine(WhitespacePattern, s) == Some(|s|)
  {
  }

  /** A `\s+` match on a non-empty string is never empty. */
  lemma WhitespaceRuleConsumes(engine: Engine, rules: seq<Rule>)
    requires MatchesWhitespace(engine)
    requires Consuming(engine, rules)
    ensures Consuming(engine, rules + [WhitespaceRule])
  {
    var all := rules + [WhitespaceRule];
    forall i: int, s: string | 0 <= i < |all| && s != [] && engine(all[i].pattern, s).Some?
      ensures engine(all[i].pattern, s).value > 0
    {
      if i < |rules| {
        assert all[i] == rules[i];
      } else {
        assert all[i] == WhitespaceRule;
        assert engine(WhitespacePattern, s) == OneOrMore(s, IsWhitespace);
      }
    }
  }
}
