/** The token stream the MetaUI parser reads: the token types it names,
    the lexer's token groups, and the lexer's cursor (`nextToken`,
    `peekNextToken`). The lexer itself is not part of this model: its
    output is given as a finite sequence of tokens ending in EOF. */
module Tokens {

  /** The token types the parser names. `Lexical` stands for every other
      type the lexer defines (string, number and similar literals), which
      the parser only meets through the token groups. */
  datatype TokenType =
    | EOF | LBrace | RBrace | Semi | Hash | Coma | Identifier | At | NullMarker
    | OpEq | Star | LParen | RParen | LBracket | RBracket | Colon
    | NextPrecedenceChain
    | Lexical(name: string)

  /** A token as the lexer hands it out: its type, its text, its offsets
      in the source and its position for error reports. */
  datatype Token = Token(kind: TokenType, value: string, starts: int, ends: int, line: int, column: int)

  /** The lexer's token groups `KeyIdentifier`, `KeyProperty` and
      `SimpleValue`, kept as the lists the parser passes to `eat` and
      `containsToken`. */
  datatype TokenGroups = TokenGroups(keyIdentifier: seq<TokenType>, keyProperty: seq<TokenType>, simpleValue: seq<TokenType>)

  /** Every group names at least one type (`eat` reports the first one
      when it fails) and none holds EOF (the lexer never groups its end
      marker with the tokens of a construct). */
  predicate ValidGroups(g: TokenGroups) {
    && |g.keyIdentifier| > 0 && |g.keyProperty| > 0 && |g.simpleValue| > 0
    && EOF !in g.keyIdentifier && EOF !in g.keyProperty && EOF !in g.simpleValue
  }

  /** The type of the token at index `i`. */
  function KindAt(ts: seq<Token>, i: nat): TokenType
    requires i < |ts|
  {
    ts[i].kind
  }

  /** A lexer's output: non-empty, with EOF as its last token and nowhere else. */
  predicate ValidStream(ts: seq<Token>) {
    && |ts| > 0
    && ts[|ts| - 1].kind == EOF
    && forall i :: 0 <= i < |ts| - 1 ==> KindAt(ts, i) != EOF
  }

  /** EOF is the last token of a stream, so a cursor on EOF is at its end. */
  lemma EofIsLast(ts: seq<Token>, p: nat)
    requires ValidStream(ts) && p < |ts| && ts[p].kind == EOF
    ensures p == |ts| - 1
  {
    assert KindAt(ts, p) == EOF;
  }

  /** The lexer's `nextToken` as a move of the cursor: once at EOF it stays there. */
  function Next(ts: seq<Token>, p: nat): (q: nat)
    requires ValidStream(ts) && p < |ts|
    ensures q < |ts|
    ensures ts[p].kind == EOF ==> q == p
    ensures ts[p].kind != EOF ==> q == p + 1
  {
    if ts[p].kind == EOF then p else p + 1
  }

  /** The lexer's `peekNextToken`: the token after the current one. */
  function Peek(ts: seq<Token>, p: nat): (t: Token)
    requires ValidStream(ts) && p < |ts|
    ensures ts[p].kind == EOF ==> t.kind == EOF
    ensures ts[p].kind != EOF ==> t == ts[p + 1]
  {
    ts[Next(ts, p)]
  }
}
