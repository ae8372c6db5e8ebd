/** The meaning of a scan: which rule fires at each point, what it consumes, what it
    emits, and where scanning stops for want of a matching rule. */
module Scanning {

  import opened Wrappers
  import opened Tokens
  import opened Rules

  /** The rule chosen at one position: its index in the list and its match length. */
  datatype Hit = Hit(index: nat, length: nat)

  /** Rule `j` of the list exists and does not match at the start of `s`. */
  predicate Misses(engine: Engine, rules: seq<Rule>, j: int, s: string)
  {
    0 <= j < |rules| && engine(rules[j].pattern, s).None?
  }

  /** The first rule, in list order, whose pattern matches at the start of `s`. A rule
      that matches is chosen even when a later one would match a longer prefix. */
  function FirstMatch(engine: Engine, rules: seq<Rule>, s: string): (r: Option<Hit>)
    ensures r.Some? ==>
              && r.value.index < |rules|
              && engine(rules[r.value.index].pattern, s) == Some(r.value.length)
              && forall j :: 0 <= j < r.value.index ==> Misses(engine, rules, j, s)
    ensures r.None? <==> forall j :: 0 <= j < |rules| ==> Misses(engine, rules, j, s)
  {
    if rules == [] then None
    else match engine(rules[0].pattern, s)
      case Some(n) =>
        assert !Misses(engine, rules, 0, s);
        Some(Hit(0, n))
      case None =>
        assert forall j :: 1 <= j < |rules| ==>
          (Misses(engine, rules, j, s) <==> Misses(engine, rules[1..], j - 1, s));
        match FirstMatch(engine, rules[1..], s)
        case None => None
        case Some(h) =>
          assert !Misses(engine, rules, h.index + 1, s);
          Some(Hit(h.index + 1, h.length))
  }

  /** Rule `i` is chosen with match length `n` exactly when it matches with that
      length and no rule before it matches. */
  lemma FirstMatchIsUnique(engine: Engine, rules: seq<Rule>, s: string, i: nat, n: nat)
    ensures FirstMatch(engine, rules, s) == Some(Hit(i, n)) <==>
              && i < |rules|
              && engine(rules[i].pattern, s) == Some(n)
              && forall j :: 0 <= j < i ==> Misses(engine, rules, j, s)
  {
    if i < |rules| && engine(rules[i].pattern, s) == Some(n) {
      assert !Misses(engine, rules, i, s);
      var r := FirstMatch(engine, rules, s);
      if r.Some? && r.value.index < i {
        assert !Misses(engine, rules, r.value.index, s);
      }
    }
  }

  /** One iteration of the scan loop: the rule that fired and the text it matched. */
  datatype Step = Step(rule: Rule, text: string)

  /** A whole scan: its steps in order, and the remainder at which no rule matched,
      if scanning stopped there. */
  datatype Run = Run(steps: seq<Step>, stuck: Option<string>)

  /** Scanning `s`: while input remains, the first matching rule consumes its match
      and scanning restarts from the first rule on what is left. */
  function Scan(engine: Engine, rules: seq<Rule>, s: string): (r: Run)
    requires Anchored(engine) && Consuming(engine, rules)
    ensures |r.steps| <= |s|
    ensures r.stuck.Some? ==> r.stuck.value != []
    decreases |s|
  {
    if s == [] then Run([], None)
    else match FirstMatch(engine, rules, s)
      case None => Run([], Some(s))
      case Some(h) =>
        var tail := Scan(engine, rules, s[h.length..]);
        Run([Step(rules[h.index], s[..h.length])] + tail.steps, tail.stuck)
  }

  /** Unfolding a scan at a position where rule `h.index` is the first to match. */
  lemma ScanUnfold(engine: Engine, rules: seq<Rule>, s: string, h: Hit)
    requires Anchored(engine) && Consuming(engine, rules)
    requires s != [] && FirstMatch(engine, rules, s) == Some(h)
    ensures h.index < |rules| && 0 < h.length <= |s|
    ensures Scan(engine, rules, s) ==
              Run([Step(rules[h.index], s[..h.length])] + Scan(engine, rules, s[h.length..]).steps,
                  Scan(engine, rules, s[h.length..]).stuck)
  {
  }

  /** One step of a scan, from the scanner's point of view: if `tokens` followed by
      what the scan of `rest` emits is the goal, then `tokens` with the step's output
      followed by what the scan of the new remainder emits is the goal too, and the
      scan of the new remainder stops where the scan of `rest` stops. */
  lemma ScanAdvance(engine: Engine, rules: seq<Rule>, rest: string, h: Hit, tokens: seq<Token>)
    requires Anchored(engine) && Consuming(engine, rules)
    requires rest != [] && FirstMatch(engine, rules, rest) == Some(h)
    ensures h.index < |rules| && 0 < h.length <= |rest|
    ensures var step := Step(rules[h.index], rest[..h.length]);
            var tail := Scan(engine, rules, rest[h.length..]);
            && (tokens + Fire(step)) + Emitted(tail.steps) == tokens + Emitted(Scan(engine, rules, rest).steps)
            && tail.stuck == Scan(engine, rules, rest).stuck
  {
    var step := Step(rules[h.index], rest[..h.length]);
    var tail := Scan(engine, rules, rest[h.length..]);
    ScanUnfold(engine, rules, rest, h);
    EmittedCons(step, tail.steps, tokens);
  }

  /** A scan stops with an error where no rule matches. */
  lemma ScanStops(engine: Engine, rules: seq<Rule>, s: string)
    requires Anchored(engine) && Consuming(engine, rules)
    requires s != [] && FirstMatch(engine, rules, s) == None
    ensures Scan(engine, rules, s) == Run([], Some(s))
  {
  }

  /** The matched texts of the steps, one after another. */
  function Texts(steps: seq<Step>): string
  {
    if steps == [] then [] else steps[0].text + Texts(steps[1..])
  }

  /** The remainder of the input when step `k` of a run begins: the texts of the steps
      from `k` on, then what the run left unconsumed. */
  function Remaining(run: Run, k: nat): string
    requires k <= |run.steps|
  {
    Texts(run.steps[k..]) + Unconsumed(run)
  }

  /** The part of the input a run did not consume. */
  function Unconsumed(run: Run): string
  {
    match run.stuck
    case None => []
    case Some(rest) => rest
  }

  /** What the callback of the step's rule yields: the token built from the matched
      text and the rule's type, or nothing for a discard rule. */
  function Fire(step: Step): (r: seq<Token>)
    ensures |r| <= 1
    ensures r != [] <==> step.rule.callback == Emit
    ensures r != [] ==> r[0] == Token(step.text, step.rule.ruleType)
  {
    match step.rule.callback
    case Emit => [Token(step.text, step.rule.ruleType)]
    case Discard => []
  }

  /** The tokens the steps yield, in order. */
  function Emitted(steps: seq<Step>): (r: seq<Token>)
    ensures |r| <= |steps|
    ensures |r| == |steps| <==> forall k :: 0 <= k < |steps| ==> steps[k].rule.callback == Emit
  {
    if steps == [] then [] else Fire(steps[0]) + Emitted(steps[1..])
  }

  lemma EmittedCons(step: Step, steps: seq<Step>, tokens: seq<Token>)
    ensures (tokens + Fire(step)) + Emitted(steps) == tokens + Emitted([step] + steps)
  {
    assert ([step] + steps)[1..] == steps;
  }

  /** The exception raised when no rule matches. */
  datatype LexicalError = LexicalError(message: string)

  /** The error for an unmatched remainder: a fixed prefix, at most the first 17
      characters of the remainder, and "..." whatever the remainder's length. */
  function NoMatchError(rest: string): (e: LexicalError)
    ensures |e.message| == 21 + (if |rest| < KeptPrefix then |rest| else KeptPrefix)
    ensures e.message[..18] == "No rules match at "
    ensures e.message[18..|e.message| - 3] <= rest
    ensures e.message[|e.message| - 3..] == "..."
  {
    var snippet := if |rest| < KeptPrefix then rest else rest[..KeptPrefix];
    LexicalError("No rules match at " + snippet + "...")
  }

  /** The error a run ends in, if any. */
  function ErrorOf(stuck: Option<string>): Option<LexicalError>
  {
    match stuck
    case None => None
    case Some(rest) => Some(NoMatchError(rest))
  }
}
