/**
 * The tokens of the scenario text format: one kind tag and one payload. Text payloads
 * are NUL-free strings, so comparing them character by character is what `strcmp` does.
 */
module Tokens {
  /** token_t. An integer is stored in a 16-bit field. */
  datatype Token =
    | Empty
    | Symbol(symbol: char)
    | Identifier(name: string)
    | CharLiteral(letter: char)
    | StringLiteral(text: string)
    | Integer(value: nat)

  /** The token type tags, in their declaration order. */
  const KindEmpty: nat := 0
  const KindSymbol: nat := 1
  const KindIdentifier: nat := 2
  const KindChar: nat := 3
  const KindString: nat := 4
  const KindInteger: nat := 5

  /** uint16_t holds values below this bound. */
  const IntegerModulus: nat := 0x1_0000

  function Kind(t: Token): (k: nat)
    ensures k <= KindInteger
    ensures (k == KindEmpty <==> t.Empty?) && (k == KindSymbol <==> t.Symbol?) &&
      (k == KindIdentifier <==> t.Identifier?) && (k == KindChar <==> t.CharLiteral?) &&
      (k == KindString <==> t.StringLiteral?) && (k == KindInteger <==> t.Integer?)
  {
    match t
    case Empty => KindEmpty
    case Symbol(_) => KindSymbol
    case Identifier(_) => KindIdentifier
    case CharLiteral(_) => KindChar
    case StringLiteral(_) => KindString
    case Integer(_) => KindInteger
  }

  /** token_equals: tokens of different types differ; otherwise compare the payload; two empty tokens are equal. */
  predicate TokenEquals(a: Token, b: Token): (eq: bool)
    ensures eq <==> a == b
  {
    if Kind(a) != Kind(b) then false
    else if Kind(a) == KindSymbol then a.symbol == b.symbol
    else if Kind(a) == KindIdentifier then a.name == b.name
    else if Kind(a) == KindChar then a.letter == b.letter
    else if Kind(a) == KindString then a.text == b.text
    else if Kind(a) == KindInteger then a.value == b.value
    else true
  }

  /** token_is_symbol. */
  predicate IsSymbol(t: Token, c: char): (r: bool)
    ensures r <==> t == Symbol(c)
  {
    Kind(t) == KindSymbol && t.symbol == c
  }

  /** token_is_number. */
  predicate IsNumber(t: Token): (r: bool)
    ensures r <==> t.Integer?
  {
    Kind(t) == KindInteger
  }

  /** token_is_literal: a char, a string or a number. */
  predicate IsLiteral(t: Token): (r: bool)
    ensures r <==> t.CharLiteral? || t.StringLiteral? || t.Integer?
    ensures IsNumber(t) ==> r
  {
    Kind(t) == KindChar || Kind(t) == KindString || IsNumber(t)
  }
}
