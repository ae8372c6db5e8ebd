# plex in Dafny

A model of `plex.py`, a small rule-based lexer. A `Lexer` holds a list of rules. Each rule
has a token type, a regular-expression pattern and a callback, which here is either emit
or discard. `tokenize` walks a cursor over the input. At each position it tries the rules
in list order and takes the first one whose pattern matches at the start of the
remainder. It drops the matched text, emits a `Token(text, type)` unless the rule
discards, and restarts from the first rule. When no rule matches a non-empty remainder,
it raises `LexicalError("No rules match at " + remainder[:17] + "...")`. The constructor
appends a `_whitespace` rule for `\s+` to the caller's own list, in place, unless
`skip_whitespace` is false.

Layout:

- `wrappers.dfy`: `Option`.
- `tokens.dfy` (module `Tokens`): `Token` with its display form (`__repr__` and its
  truncation rule) and `Str` (`__str__`).
- `rules.dfy` (module `Rules`):
  - `Pattern`, `Callback` and `Rule`, with `NewRule` taking the defaults of
    `Rule.__init__`;
  - the matcher interface `Engine` and its contracts `Anchored` and `Consuming`;
  - the whitespace rule, with `\s` as the code points for which Python 3's
    `str.isspace` holds.
- `scanning.dfy` (module `Scanning`):
  - `FirstMatch`: one scan step's rule search;
  - `Scan`: the whole scan as a value, a `Run` of `Step`s plus the remainder the scan
    got stuck at, if any;
  - `Emitted`: the tokens a run yields;
  - `NoMatchError`: the error message.
- `lexer.dfy` (module `Plex`):
  - the imperative lexer;
  - `RuleList` stands for the Python list object the caller and the `Lexer` share by
    reference;
  - `Lexer.Tokenize` is the `while` loop over the cursor, and `TryRules` is its inner
    `for`/`else` over the rules. Both are proved against `Scan` and `FirstMatch`.
- `properties.dfy` (module `ScanLemmas`): the properties of the scan, stated for every
  engine, rule list and input.
- `scenarios.dfy` (module `Scenarios`): concrete scans over a small stand-in engine
  `Demo`, which covers `\d+`, `\s+`, `\+` and plain literals.

The regular-expression engine is a parameter `engine: (Pattern, string) -> Option<nat>`,
which gives the length of the match anchored at the start of the string. Every scan
lemma assumes two things about it:

- `Anchored(engine)`: a match never runs past the end of the input.
- `Consuming(engine, rules)`: each rule's match on non-empty input consumes at least one
  character.

Three consequences of the source that the model keeps:

- A lexeme is shown whole only while its length is below 20 (plex.py:22). From 20
  characters on, the display is its first 17 characters followed by `...`.
- A lone `\d+` rule turns `"123x"` into the single token `"123"`, because the match is
  greedy. The error snippet is then `"x"` (`Scenarios.UnmatchedInput`).
- The constructor appends to the caller's own list object (plex.py:63-65), so the caller
  sees the whitespace rule too (`Plex.Lexer.constructor`, `Scenarios.ArithmeticSession`).

## Model

| member | source | states |
|---|---|---|
| Tokens.Display | plex.py:22 | at most 20 characters; a lexeme shorter than 20 is shown whole; one of 20 or more shows exactly its first 17 characters followed by `...` |
| Tokens.DisplayIgnoresTail | plex.py:22 | two lexemes of length at least 20 that share their first 17 characters display identically, in exactly 20 characters, whatever their length |
| Tokens.Token.Repr | plex.py:19-23 | the representation is exactly `<Token: type = "`, the type, `", lexeme = "`, the displayed lexeme and `">`: each framing literal and each field is fixed at its offset, and the length is 31 + type length + display length |
| Tokens.Token.Str | plex.py:25-26 | no contract of its own (it is the lexeme); `ScanLemmas.TokensReassembleInput` states what the `str` of the tokens gives back |
| Rules.NewRule | plex.py:46-49 | no contract of its own: it builds the rule record with the defaults of `Rule.__init__` (callback `Emit`, the `Token` constructor; flags 0); the scenarios build their rules with it |
| Rules.IsWhitespace | plex.py:65 | no contract of its own: the code points `\s` matches (those for which Python 3's `str.isspace` holds); `Rules.WhitespaceMatchesAll` and `ScanLemmas.WhitespaceOnlyInputIsDiscarded` give it meaning |
| Rules.LeadingRun | plex.py:65 | the greedy run of class characters at the start of a string: all characters before it are in the class and the next one, if any, is not |
| Rules.WhitespaceMatchesAll | plex.py:65 | `\s+` matches an all-whitespace non-empty string in full |
| Rules.WhitespaceRuleConsumes | plex.py:65 | appending the `\s+` whitespace rule keeps every rule's match non-empty, so termination is preserved |
| Scanning.FirstMatch | plex.py:69-75 | a hit names a rule whose pattern matches with that length, and every earlier rule misses; there is no hit exactly when every rule misses |
| Scanning.FirstMatchIsUnique | plex.py:69-75 | the search yields rule `i` with length `n` if and only if rule `i` matches with length `n` and all rules before `i` miss |
| Scanning.Scan | plex.py:67-79 | the scan takes at most one step per input character, and it gets stuck only at a non-empty remainder |
| Scanning.ScanAdvance | plex.py:72-75 | taking one step and then the tokens of the rest gives the tokens of the whole remainder |
| Scanning.Fire | plex.py:73-74 | a step yields at most one token; it yields one exactly when the rule emits, and that token has the matched text as lexeme and the rule's type as type |
| Scanning.Emitted | plex.py:68-75 | the steps yield at most one token each, and exactly one each if and only if every step's rule emits; `ScanLemmas.EmittedWithoutDiscards` and `ScanLemmas.EmittedOnlyDiscards` give the tokens themselves |
| Scanning.NoMatchError | plex.py:77-79 | the message is `No rules match at ` + the first 17 characters of the remainder (or all of it if shorter) + an unconditional `...` |
| Plex.RuleList.Append | plex.py:65 | the list becomes the old list with the rule at the end |
| Plex.TryRules | plex.py:69-76 | the rules are tried in list order and the loop returns the first hit, or none when every rule misses |
| Plex.Lexer.constructor | plex.py:62-65 | the lexer keeps the caller's list object, which gains one `_whitespace` discard rule at the end when `skipWhitespace` holds and is unchanged otherwise |
| Plex.Lexer.Tokenize | plex.py:67-79 | the tokens are those the scan emits and the error is raised exactly when the scan gets stuck, using that remainder's message; the empty input gives no tokens and no error |
| ScanLemmas.TextsAppend | plex.py:68-75 | the texts of two runs of steps joined are the two texts joined |
| ScanLemmas.EmittedAppend | plex.py:73-74 | the tokens of two runs of steps joined are the two token lists joined |
| ScanLemmas.FirstMatchIgnoresLaterRules | plex.py:69-75 | rules after the first matching one are never consulted, even when they would match a longer prefix; when no earlier rule matches, the appended rules are tried in their own order |
| ScanLemmas.ScanReassembles | plex.py:68-75 | the matched texts of all steps, emitted or discarded, followed by the stuck remainder, are the input; the scan succeeds exactly when the texts alone are the whole input |
| ScanLemmas.ScanConsumesPrefix | plex.py:68-72 | the steps before step `k` consumed a prefix of the input whose complement is the remainder at step `k` |
| ScanLemmas.RunSplits | plex.py:68-72 | splitting a run at step `k` splits what it reassembles to at the same point |
| ScanLemmas.ScanStepIsFirstMatch | plex.py:69-72 | step `k` is taken by the first rule in list order that matches the remainder at that point, and its text is that rule's (non-empty) match, a prefix of the remainder |
| ScanLemmas.ScanTakesFirstMatchingRule | plex.py:69-75 | on non-empty input, if rule `i` is the first that matches, with length `n`, the scan's first step is rule `i` over the first `n` characters and the scan goes on from the rest |
| ScanLemmas.ScanStepDropsMatch | plex.py:72 | each step drops exactly the matched length from the front of the remainder, leaving a strictly shorter suffix |
| ScanLemmas.ScanStuckWhereNoRuleMatches | plex.py:76-79 | a scan that fails stops after its last step, at a non-empty remainder that no rule matches |
| ScanLemmas.EmittedWithoutDiscards | plex.py:73-74 | emitting steps yield exactly one token each, with the step's text as lexeme and the rule's type as type, and their lexemes joined are the steps' texts |
| ScanLemmas.EmittedOnlyDiscards | plex.py:73-74 | discarding steps yield no tokens |
| ScanLemmas.TokensReassembleInput | plex.py:25-26 | when no rule discards and the scan succeeds, `str` of the tokens, joined, is the input |
| ScanLemmas.WhitespaceOnlyInputIsDiscarded | plex.py:62-75 | with the whitespace rule appended and no user rule matching whitespace, an all-whitespace input yields no tokens and no error |
| Scenarios.DemoIsWellBehaved | plex.py:65 | the stand-in engine is anchored, agrees with `\s+` on the whitespace pattern and never matches an empty prefix |
| Scenarios.FirstRuleWins | plex.py:69-75 | unconditionally (the stand-in engine's assumptions are proved on the way): with rules `ab` (type A) then `a` (type B), `"ab"` is a single A token `"ab"` |
| Scenarios.Arithmetic | plex.py:67-75 | unconditionally: NUM `\d+`, PLUS `\+` and the whitespace rule scan `"12 + 7"` to the tokens `12` NUM, `+` PLUS, `7` NUM, and no error |
| Scenarios.UnmatchedInput | plex.py:76-79 | unconditionally: a lone `\d+` rule scans `"123x"` to the one token `123`, then the error `No rules match at x...` |
| Scenarios.ArithmeticSession | plex.py:62-79 | building a lexer over a caller's list gives that list the whitespace rule, and tokenizing `"12 + 7"` twice gives the same three tokens both times |

## Left out

- Regular-expression compilation and matching (`re.compile`, `pattern.match`, `flags`)
  belong to Python's library. A pattern is kept as its source text and flags, and
  matching is the `engine` parameter. Compilation errors raised when a `Rule` is built
  are not modelled, and flags are carried but not interpreted.
- `\s` is modelled with Python 3 `str` semantics (`MatchesWhitespace`). Python 2 byte
  strings without the `UNICODE` flag match only ASCII whitespace there, and that
  difference is not modelled.
- Laziness of the generator: `Tokenize` returns every token yielded up to the point of
  failure, together with the error, rather than yielding them one at a time. It reads
  the shared rule list once, when it is called. The generator of plex.py starts only at
  the first `next()` and re-reads `self.rules` at every step (plex.py:69). So if the
  caller changes the aliased list while the generator is suspended, later steps change
  in the source but not in the model.
- Token and rule types are strings (`Token.tokenType`, `Rule.ruleType`). plex.py accepts
  any object as `token_type` and renders it in `__repr__` through `str.format`
  (plex.py:20-21). Non-string types, and their formatting, are not modelled.
- `LexicalError` is modelled as a returned value rather than a raised exception.
- Arbitrary callbacks: a callback is either the default `Token` constructor (`Emit`) or
  `None` (`Discard`). User callbacks that build other objects, and a callback that is
  present but falsy, are not modelled.
- The `**kwargs` of `Token.__init__` are accepted and then thrown away (plex.py:15), so a
  token holds only its lexeme and type and the model has no such parameter.
- `Rule.__repr__` (plex.py:51-54) is not modelled, because it only formats text.
- Termination with zero-width matches: the source loops forever when a rule matches the
  empty string at a non-empty remainder. Every scan result assumes `Consuming`, which
  rules this out, so that looping behaviour has no model.
- Scenarios.Demo: a stand-in for the `re` engine that only knows the patterns the
  scenarios use. Its `\d` is ASCII digits only, whereas Python 3's `\d` also matches
  other Unicode decimal digits.
