/** Lexical tokens: a lexeme paired with a type tag, and how a token is displayed. */
module Tokens {

  /** Longest lexeme that the display shows whole is one character short of this. */
  const DisplayLimit := 20

  /** Number of leading lexeme characters kept when the display truncates. */
  const KeptPrefix := 17

  /** The lexeme as shown inside a token's display: whole when shorter than 20
      characters, otherwise its first 17 characters followed by "...". */
  function Display(lexeme: string): (r: string)
    ensures |r| <= DisplayLimit
    ensures |lexeme| < DisplayLimit ==> r == lexeme
    ensures |lexeme| >= DisplayLimit ==>
              |r| == DisplayLimit && r[..KeptPrefix] == lexeme[..KeptPrefix] && r[KeptPrefix..] == "..."
  {
    if |lexeme| < DisplayLimit then lexeme else lexeme[..KeptPrefix] + "..."
  }

  /** Two long lexemes that agree on their first 17 characters are displayed alike:
      the display of a long lexeme does not depend on the rest of it. */
  lemma DisplayIgnoresTail(a: string, b: string)
    requires |a| >= DisplayLimit && |b| >= DisplayLimit
    requires a[..KeptPrefix] == b[..KeptPrefix]
    ensures Display(a) == Display(b)
    ensures |Display(a)| == DisplayLimit
  {
  }

  /** A token. Extra keyword attributes given to the source's constructor are dropped,
      so a token holds exactly these two fields. */
  datatype Token = Token(lexeme: string, tokenType: string) {

    /** The debugging representation `<Token: type = "T", lexeme = "L">`, with the
        lexeme passed through Display. */
    function Repr(): (r: string)
      ensures |r| == 31 + |tokenType| + |Display(lexeme)|
      ensures r[..16] == "<Token: type = \""
      ensures r[16 + |tokenType|..29 + |tokenType|] == "\", lexeme = \""
      ensures r[|r| - 2..] == "\">"
      ensures |r| <= 31 + |tokenType| + DisplayLimit
      ensures r[16..16 + |tokenType|] == tokenType
      ensures r[29 + |tokenType|..|r| - 2] == Display(lexeme)
    {
      "<Token: type = \"" + tokenType + "\", lexeme = \"" + Display(lexeme) + "\">"
    }

    /** The plain-text rendering of a token: its lexeme. */
    function Str(): string
    {
      lexeme
    }
  }

  /** The rendering of a token sequence written one after another. */
  function Strs(ts: seq<Token>): string
  {
    if ts == [] then [] else ts[0].Str() + Strs(ts[1..])
  }
}
