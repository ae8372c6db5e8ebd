/** Properties of scanning: precedence, consumption, emission, reassembly and the
    stopping condition. */
module ScanLemmas {

  import opened Wrappers
  import opened Tokens
  import opened Rules
  import opened Scanning

  lemma {:induction false} TextsAppend(a: seq<Step>, b: seq<Step>)
    ensures Texts(a + b) == Texts(a) + Texts(b)
  {
    if a == [] {
      assert a + b == b;
    } else {
      calc {
        Texts(a + b);
      == { assert (a + b)[0] == a[0]; assert (a + b)[1..] == a[1..] + b; }
        a[0].text + Texts(a[1..] + b);
      == { TextsAppend(a[1..], b); }
        a[0].text + (Texts(a[1..]) + Texts(b));
      }
    }
  }

  lemma {:induction false} EmittedAppend(a: seq<Step>, b: seq<Step>)
    ensures Emitted(a + b) == Emitted(a) + Emitted(b)
  {
    if a == [] {
      assert a + b == b;
    } else {
      calc {
        Emitted(a + b);
      == { assert (a + b)[0] == a[0]; assert (a + b)[1..] == a[1..] + b; }
        Fire(a[0]) + Emitted(a[1..] + b);
      == { EmittedAppend(a[1..], b); }
        Fire(a[0]) + (Emitted(a[1..]) + Emitted(b));
      }
    }
  }

  /** Whether a rule list already decides a position, appending rules to it changes
      nothing there: later rules are never consulted once an earlier one matches, even
      when they would match a longer prefix. Where no rule of the list matches, the
      appended rules are tried in their own order. */
  lemma FirstMatchIgnoresLaterRules(engine: Engine, rules: seq<Rule>, later: seq<Rule>, s: string)
    ensures FirstMatch(engine, rules, s).Some? ==>
              FirstMatch(engine, rules + later, s) == FirstMatch(engine, rules, s)
    ensures FirstMatch(engine, rules, s).None? ==>
              FirstMatch(engine, rules + later, s) ==
                match FirstMatch(engine, later, s)
                case None => None
                case Some(h) => Some(Hit(|rules| + h.index, h.length))
  {
    var all := rules + later;
    match FirstMatch(engine, rules, s)
    case Some(h) =>
      forall j | 0 <= j < h.index
        ensures Misses(engine, all, j, s)
      {
        assert Misses(engine, rules, j, s);
        assert all[j] == rules[j];
      }
      assert all[h.index] == rules[h.index];
      FirstMatchIsUnique(engine, all, s, h.index, h.length);
    case None =>
      forall j | 0 <= j < |rules|
        ensures Misses(engine, all, j, s)
      {
        assert Misses(engine, rules, j, s);
        assert all[j] == rules[j];
      }
      match FirstMatch(engine, later, s)
      case Some(h) =>
        forall j | |rules| <= j < |rules| + h.index
          ensures Misses(engine, all, j, s)
        {
          assert Misses(engine, later, j - |rules|, s);
          assert all[j] == later[j - |rules|];
        }
        assert all[|rules| + h.index] == later[h.index];
        FirstMatchIsUnique(engine, all, s, |rules| + h.index, h.length);
      case None =>
        forall j | |rules| <= j < |all|
          ensures Misses(engine, all, j, s)
        {
          assert Misses(engine, later, j - |rules|, s);
          assert all[j] == later[j - |rules|];
        }
  }

  /** Putting a step in front of a run puts its text in front of what the run reassembles to. */
  lemma PrependStep(step: Step, tail: Run)
    ensures Texts([step] + tail.steps) + Unconsumed(Run([step] + tail.steps, tail.stuck)) ==
              step.text + (Texts(tail.steps) + Unconsumed(tail))
  {
    assert ([step] + tail.steps)[1..] == tail.steps;
  }

  /** The matched texts of a scan, emitted and discarded alike, followed by the
      remainder it stopped at, give back the input; so the scan consumes all of the
      input exactly when it ends without error. */
  lemma {:induction false} ScanReassembles(engine: Engine, rules: seq<Rule>, s: string)
    requires Anchored(engine) && Consuming(engine, rules)
    ensures Texts(Scan(engine, rules, s).steps) + Unconsumed(Scan(engine, rules, s)) == s
    ensures Scan(engine, rules, s).stuck == None <==> Texts(Scan(engine, rules, s).steps) == s
    decreases |s|
  {
    var run := Scan(engine, rules, s);
    if s != [] && FirstMatch(engine, rules, s).Some? {
      var h := FirstMatch(engine, rules, s).value;
      ScanUnfold(engine, rules, s, h);
      var tail := Scan(engine, rules, s[h.length..]);
      ScanReassembles(engine, rules, s[h.length..]);
      PrependStep(Step(rules[h.index], s[..h.length]), tail);
      assert s[..h.length] + s[h.length..] == s;
    }
    assert run.stuck.Some? ==> |Unconsumed(run)| > 0;
  }

  /** The steps before step `k` consumed a prefix of the input, and what they left is
      the remainder at step `k`. */
  lemma ScanConsumesPrefix(engine: Engine, rules: seq<Rule>, s: string, k: nat)
    requires Anchored(engine) && Consuming(engine, rules)
    requires k <= |Scan(engine, rules, s).steps|
    ensures s == Texts(Scan(engine, rules, s).steps[..k]) + Remaining(Scan(engine, rules, s), k)
  {
    ScanReassembles(engine, rules, s);
    RunSplits(Scan(engine, rules, s), k);
  }

  lemma RunSplits(run: Run, k: nat)
    requires k <= |run.steps|
    ensures Texts(run.steps) + Unconsumed(run) == Texts(run.steps[..k]) + Remaining(run, k)
  {
    var steps := run.steps;
    calc {
      Texts(steps) + Unconsumed(run);
    == { assert steps == steps[..k] + steps[k..]; TextsAppend(steps[..k], steps[k..]); }
      (Texts(steps[..k]) + Texts(steps[k..])) + Unconsumed(run);
    ==
      Texts(steps[..k]) + (Texts(steps[k..]) + Unconsumed(run));
    }
  }

  /** Step `k` of a scan is taken by the first rule, in list order, that matches at the
      start of the remainder at that point, and it consumes exactly that rule's match,
      a non-empty prefix of the remainder. */
  lemma {:induction false} ScanStepIsFirstMatch(engine: Engine, rules: seq<Rule>, s: string, k: nat)
    requires Anchored(engine) && Consuming(engine, rules)
    requires k < |Scan(engine, rules, s).steps|
    ensures var run := Scan(engine, rules, s);
            var rest := Remaining(run, k);
            var step := run.steps[k];
            && step.text != []
            && step.text <= rest
            && FirstMatch(engine, rules, rest).Some?
            && rules[FirstMatch(engine, rules, rest).value.index] == step.rule
            && FirstMatch(engine, rules, rest).value.length == |step.text|
    decreases |s|
  {
    assert s != [] && FirstMatch(engine, rules, s).Some?;
    var h := FirstMatch(engine, rules, s).value;
    ScanUnfold(engine, rules, s, h);
    var run := Scan(engine, rules, s);
    var tail := Scan(engine, rules, s[h.length..]);
    if k == 0 {
      ScanReassembles(engine, rules, s);
      assert run.steps[0..] == run.steps;
      assert Remaining(run, 0) == s;
      assert run.steps[0] == Step(rules[h.index], s[..h.length]);
    } else {
      ScanStepIsFirstMatch(engine, rules, s[h.length..], k - 1);
      assert run.steps[k..] == tail.steps[k - 1..];
    }
  }

  /** On a non-empty input, a scan takes its first step with rule `i` and its match of
      length `n` exactly when rule `i` is the first rule whose pattern matches there. */
  lemma ScanTakesFirstMatchingRule(engine: Engine, rules: seq<Rule>, s: string, i: nat, n: nat)
    requires Anchored(engine) && Consuming(engine, rules)
    requires s != []
    requires i < |rules| && engine(rules[i].pattern, s) == Some(n)
    requires forall j :: 0 <= j < i ==> Misses(engine, rules, j, s)
    ensures 0 < n <= |s|
    ensures Scan(engine, rules, s) ==
              Run([Step(rules[i], s[..n])] + Scan(engine, rules, s[n..]).steps, Scan(engine, rules, s[n..]).stuck)
  {
    FirstMatchIsUnique(engine, rules, s, i, n);
    ScanUnfold(engine, rules, s, Hit(i, n));
  }

  /** The remainder at step `k + 1` is the remainder at step `k` with that step's text
      taken off its front. */
  lemma RemainingStep(run: Run, k: nat)
    requires k < |run.steps|
    ensures Remaining(run, k) == run.steps[k].text + Remaining(run, k + 1)
  {
    assert run.steps[k..][0] == run.steps[k];
    assert run.steps[k..][1..] == run.steps[k + 1..];
  }

  /** Each step removes exactly the prefix its rule matched: the next remainder is the
      current one with its first `length` characters dropped, a strictly shorter suffix. */
  lemma ScanStepDropsMatch(engine: Engine, rules: seq<Rule>, s: string, k: nat)
    requires Anchored(engine) && Consuming(engine, rules)
    requires k < |Scan(engine, rules, s).steps|
    ensures var run := Scan(engine, rules, s);
            var rest := Remaining(run, k);
            && FirstMatch(engine, rules, rest).Some?
            && FirstMatch(engine, rules, rest).value.length <= |rest|
            && Remaining(run, k + 1) == rest[FirstMatch(engine, rules, rest).value.length..]
            && |Remaining(run, k + 1)| < |rest|
  {
    var run := Scan(engine, rules, s);
    ScanStepIsFirstMatch(engine, rules, s, k);
    RemainingStep(run, k);
    var rest := Remaining(run, k);
    var text := run.steps[k].text;
    assert rest[|text|..] == Remaining(run, k + 1);
  }

  /** A scan that stops with an error stops after its last step, at a non-empty
      remainder that no rule matches. */
  lemma {:induction false} ScanStuckWhereNoRuleMatches(engine: Engine, rules: seq<Rule>, s: string)
    requires Anchored(engine) && Consuming(engine, rules)
    requires Scan(engine, rules, s).stuck.Some?
    ensures var run := Scan(engine, rules, s);
            && run.stuck.value == Remaining(run, |run.steps|)
            && run.stuck.value != []
            && FirstMatch(engine, rules, run.stuck.value) == None
    decreases |s|
  {
    var run := Scan(engine, rules, s);
    assert run.steps[|run.steps|..] == [];
    if FirstMatch(engine, rules, s).Some? {
      var h := FirstMatch(engine, rules, s).value;
      ScanUnfold(engine, rules, s, h);
      ScanStuckWhereNoRuleMatches(engine, rules, s[h.length..]);
    }
  }

  /** A discard step yields nothing, an emitting step exactly one token; so steps that
      all emit yield one token per step, carrying the step's text and rule type. */
  lemma {:induction false} EmittedWithoutDiscards(steps: seq<Step>)
    requires forall k :: 0 <= k < |steps| ==> steps[k].rule.callback == Emit
    ensures |Emitted(steps)| == |steps|
    ensures forall k :: 0 <= k < |steps| ==>
              Emitted(steps)[k] == Token(steps[k].text, steps[k].rule.ruleType)
    ensures Strs(Emitted(steps)) == Texts(steps)
  {
    if steps != [] {
      EmittedWithoutDiscards(steps[1..]);
      var e := Emitted(steps);
      assert e == [Token(steps[0].text, steps[0].rule.ruleType)] + Emitted(steps[1..]);
      assert e[1..] == Emitted(steps[1..]);
    }
  }

  /** Steps whose rules all discard yield no tokens, however much input they consume. */
  lemma {:induction false} EmittedOnlyDiscards(steps: seq<Step>)
    requires forall k :: 0 <= k < |steps| ==> steps[k].rule.callback == Discard
    ensures Emitted(steps) == []
  {
    if steps != [] {
      EmittedOnlyDiscards(steps[1..]);
    }
  }

  /** When no rule discards and the scan succeeds, the tokens' lexemes written one after
      another give back the input. */
  lemma TokensReassembleInput(engine: Engine, rules: seq<Rule>, s: string)
    requires Anchored(engine) && Consuming(engine, rules)
    requires forall i :: 0 <= i < |rules| ==> rules[i].callback == Emit
    requires Scan(engine, rules, s).stuck == None
    ensures Strs(Emitted(Scan(engine, rules, s).steps)) == s
  {
    var steps := Scan(engine, rules, s).steps;
    forall k | 0 <= k < |steps|
      ensures steps[k].rule.callback == Emit
    {
      ScanStepIsFirstMatch(engine, rules, s, k);
    }
    EmittedWithoutDiscards(steps);
    ScanReassembles(engine, rules, s);
  }

  /** With the whitespace rule appended, an input of whitespace only is consumed in one
      discarded step and yields no tokens and no error, provided no earlier rule matches
      whitespace. */
  lemma WhitespaceOnlyInputIsDiscarded(engine: Engine, rules: seq<Rule>, s: string)
    requires Anchored(engine) && MatchesWhitespace(engine) && Consuming(engine, rules)
    requires forall i, t :: 0 <= i < |rules| && t != [] && (forall k :: 0 <= k < |t| ==> IsWhitespace(t[k])) ==>
               engine(rules[i].pattern, t).None?
    requires forall k :: 0 <= k < |s| ==> IsWhitespace(s[k])
    ensures Consuming(engine, rules + [WhitespaceRule])
    ensures Emitted(Scan(engine, rules + [WhitespaceRule], s).steps) == []
    ensures Scan(engine, rules + [WhitespaceRule], s).stuck == None
  {
    WhitespaceRuleConsumes(engine, rules);
    var all := rules + [WhitespaceRule];
    if s != [] {
      WhitespaceMatchesAll(engine, s);
      assert all[|rules|] == WhitespaceRule;
      forall j | 0 <= j < |rules|
        ensures Misses(engine, all, j, s)
      {
        assert all[j] == rules[j];
      }
      FirstMatchIsUnique(engine, all, s, |rules|, |s|);
      ScanUnfold(engine, all, s, Hit(|rules|, |s|));
      assert s[|s|..] == [] && s[..|s|] == s;
      assert Scan(engine, all, s[|s|..]) == Run([], None);
      assert Scan(engine, all, s) == Run([Step(WhitespaceRule, s)], None);
      assert Fire(Step(WhitespaceRule, s)) == [];
    }
  }
}
