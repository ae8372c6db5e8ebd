/** The lexer object and the rule list it shares with its caller. */
module Plex {

  import opened Wrappers
  import opened Tokens
  import opened Rules
  import opened Scanning

  /** A mutable list of rules, shared by reference like the list a caller hands to
      the lexer's constructor. */
  class RuleList {
    var items: seq<Rule>

    constructor (items: seq<Rule>)
      ensures this.items == items
    {
      this.items := items;
    }

    method Append(r: Rule)
      modifies this
      ensures items == old(items) + [r]
    {
      items := items + [r];
    }
  }

  /** The inner loop of a scan step: the rules are tried in list order against the
      start of `rest`, and the first one whose pattern matches ends the search. */
  method TryRules(engine: Engine, rs: seq<Rule>, rest: string) returns (hit: Option<Hit>)
    ensures hit == FirstMatch(engine, rs, rest)
  {
    var i := 0;
    while i < |rs|
      invariant 0 <= i <= |rs|
      invariant forall j :: 0 <= j < i ==> Misses(engine, rs, j, rest)
    {
      var m := engine(rs[i].pattern, rest);
      if m.Some? {
        FirstMatchIsUnique(engine, rs, rest, i, m.value);
        return Some(Hit(i, m.value));
      }
      i := i + 1;
    }
    return None;
  }

  class Lexer {
    var rules: RuleList

    /** Keeps the caller's list itself, not a copy; with `skipWhitespace` it appends
        the whitespace rule to that list, so the caller sees the change too. */
    constructor (rules: RuleList, skipWhitespace: bool := true)
      modifies rules
      ensures this.rules == rules
      ensures rules.items == if skipWhitespace then old(rules.items) + [WhitespaceRule] else old(rules.items)
    {
      this.rules := rules;
      new;
      if skipWhitespace {
        this.rules.Append(WhitespaceRule);
      }
    }

    /** Scans `input`, returning the tokens yielded and, if scanning stopped at a
        remainder no rule matches, the error raised there (tokens yielded before the
        error remain valid; none follow it). */
    method Tokenize(engine: Engine, input: string) returns (tokens: seq<Token>, error: Option<LexicalError>)
      requires Anchored(engine) && Consuming(engine, rules.items)
      ensures tokens == Emitted(Scan(engine, rules.items, input).steps)
      ensures error == ErrorOf(Scan(engine, rules.items, input).stuck)
      ensures input == [] ==> tokens == [] && error == None
    {
      var rs := rules.items;
      ghost var whole := Scan(engine, rs, input);
      var rest := input;
      tokens := [];
      error := None;
      while rest != []
        invariant tokens + Emitted(Scan(engine, rs, rest).steps) == Emitted(whole.steps)
        invariant Scan(engine, rs, rest).stuck == whole.stuck
        decreases |rest|
      {
        var hit := TryRules(engine, rs, rest);
        if hit == None {
          ScanStops(engine, rs, rest);
          error := Some(NoMatchError(rest));
          return;
        }
        var i := hit.value.index;
        var n := hit.value.length;
        ScanAdvance(engine, rs, rest, hit.value, tokens);
        ghost var emitted := tokens + Fire(Step(rs[i], rest[..n]));
        var text := rest[..n];
        rest := rest[n..];
        if rs[i].callback == Emit {
          tokens := tokens + [Token(text, rs[i].ruleType)];
        }
        assert tokens == emitted;
      }
      assert Scan(engine, rs, rest) == Run([], None);
    }
  }
}
