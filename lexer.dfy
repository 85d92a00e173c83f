/**
 * The scenario-text lexer. The text is the characters before the NUL terminator; the
 * cursor is an index into it, and the index |src| is the terminator itself. The lexer
 * reads one character past the cursor for a char literal and scans to a closing quote for
 * a string; where the C code would read beyond the terminator, the model reports an
 * overrun (`None`) instead.
 */
module Lexing {
  import opened Common
  import opened Tokens

  /** The characters lexer_skip_spaces skips. */
  predicate IsSpace(c: char) { c == ' ' || c == '\t' || c == '\r' || c == '\n' }

  /** isdigit, isalpha and isalnum-or-underscore in the C locale. */
  predicate IsDigit(c: char) { '0' <= c <= '9' }
  predicate IsAlpha(c: char) { 'a' <= c <= 'z' || 'A' <= c <= 'Z' }
  predicate IsIdChar(c: char) { IsAlpha(c) || IsDigit(c) || c == '_' }

  /** The end of the run of blanks starting at p. */
  function SkipSpaces(s: string, p: nat): (q: nat)
    requires p <= |s|
    ensures p <= q <= |s|
    ensures forall i :: p <= i < q ==> IsSpace(s[i])
    ensures q == |s| || !IsSpace(s[q])
    decreases |s| - p
  {
    if p < |s| && IsSpace(s[p]) then SkipSpaces(s, p + 1) else p
  }

  /** The end of the maximal run of identifier characters starting at p. */
  function IdEnd(s: string, p: nat): (q: nat)
    requires p <= |s|
    ensures p <= q <= |s|
    ensures forall i :: p <= i < q ==> IsIdChar(s[i])
    ensures q == |s| || !IsIdChar(s[q])
    decreases |s| - p
  {
    if p < |s| && IsIdChar(s[p]) then IdEnd(s, p + 1) else p
  }

  /** The end of the maximal run of decimal digits starting at p. */
  function DigitsEnd(s: string, p: nat): (q: nat)
    requires p <= |s|
    ensures p <= q <= |s|
    ensures forall i :: p <= i < q ==> IsDigit(s[i])
    ensures q == |s| || !IsDigit(s[q])
    decreases |s| - p
  {
    if p < |s| && IsDigit(s[p]) then DigitsEnd(s, p + 1) else p
  }

  /** The first double quote at or after p, if the text has one. */
  function ClosingQuote(s: string, p: nat): (q: Option<nat>)
    requires p <= |s|
    ensures q.Some? ==> p <= q.value < |s| && s[q.value] == '"' && forall i :: p <= i < q.value ==> s[i] != '"'
    ensures q.None? ==> forall i :: p <= i < |s| ==> s[i] != '"'
    decreases |s| - p
  {
    if p == |s| then None else if s[p] == '"' then Some(p) else ClosingQuote(s, p + 1)
  }

  /** The value of a string of decimal digits. */
  function DecimalValue(ds: string): nat
  {
    if |ds| == 0 then 0 else DecimalValue(ds[..|ds| - 1]) * 10 + ((ds[|ds| - 1] as int - '0' as int) % 10)
  }

  /** ULLONG_MAX, which strtoull returns for a value too large for it. */
  const ULongMax: nat := 0xFFFF_FFFF_FFFF_FFFF

  /** strtoull's value, saturated, then stored in the token's 16-bit field. */
  function ParsedInteger(v: nat): (n: nat)
    ensures n < IntegerModulus
    ensures v < IntegerModulus ==> n == v
  {
    (if v > ULongMax then ULongMax else v) % IntegerModulus
  }

  /**
   * lexer_collect_next_token at a character of the text: the token and the index just after it;
   * None where the C code would read past the terminator.
   */
  function NextToken(s: string, p: nat): (r: Option<(Token, nat)>)
    requires p < |s|
    ensures r.Some? ==> p < r.value.1 <= |s| && !r.value.0.Empty?
    ensures r.Some? && r.value.0.Symbol? ==> r.value.0.symbol == s[p] && r.value.1 == p + 1
    ensures r.None? <==> (s[p] == '\'' && |s| < p + 3) || (s[p] == '"' && ClosingQuote(s, p + 1).None?)
  {
    var c := s[p];
    if IsDigit(c) then
      var e := DigitsEnd(s, p);
      Some((Integer(ParsedInteger(DecimalValue(s[p..e]))), e))
    else if IsAlpha(c) || c == '_' then
      var e := IdEnd(s, p);
      Some((Identifier(s[p..e]), e))
    else if c == '\'' then
      if p + 3 <= |s| then Some((CharLiteral(s[p + 1]), p + 3)) else None
    else if c == '"' then
      match ClosingQuote(s, p + 1)
      case Some(q) => Some((StringLiteral(s[p + 1..q]), q + 1))
      case None => None
    else Some((Symbol(c), p + 1))
  }

  /** Put known tokens in front of a result that may have failed. */
  function Prepend(acc: seq<Token>, rest: Option<seq<Token>>): Option<seq<Token>>
  {
    if rest.None? then None else Some(acc + rest.value)
  }

  /** lexer_collect_tokens from index p: skip blanks, take a token, repeat until the terminator. */
  function Tokenize(s: string, p: nat): Option<seq<Token>>
    requires p <= |s|
    decreases |s| - p
  {
    var q := SkipSpaces(s, p);
    if q == |s| then Some([])
    else match NextToken(s, q)
      case None => None
      case Some((t, e)) => Prepend([t], Tokenize(s, e))
  }

  /** Leading blanks do not change what is collected. */
  lemma TokenizeAfterSpaces(s: string, p: nat)
    requires p <= |s|
    ensures Tokenize(s, SkipSpaces(s, p)) == Tokenize(s, p)
  {
  }

  /** At a character that is not blank, Tokenize takes the next token there, or fails with it. */
  lemma TokenizeAt(s: string, p: nat)
    requires p < |s| && !IsSpace(s[p])
    ensures NextToken(s, p).None? ==> Tokenize(s, p).None?
    ensures NextToken(s, p).Some? ==>
      var (t, e) := NextToken(s, p).value; Tokenize(s, p) == Prepend([t], Tokenize(s, e))
  {
    assert SkipSpaces(s, p) == p;
  }

  /** One more known token in front: the prefix grows by it. */
  lemma PrependSnoc(acc: seq<Token>, t: Token, rest: Option<seq<Token>>)
    ensures Prepend(acc, Prepend([t], rest)) == Prepend(acc + [t], rest)
  {
    if rest.Some? {
      assert acc + ([t] + rest.value) == (acc + [t]) + rest.value;
    }
  }

  /** A blank character that the lexer would have skipped. */
  predicate IsBlankToken(t: Token) { t.Symbol? && IsSpace(t.symbol) }

  /** No collected token is empty or a blank, and each consumed at least one character, so there are at most as many tokens as characters. */
  lemma {:induction false} TokenizeProperties(s: string, p: nat)
    requires p <= |s| && Tokenize(s, p).Some?
    ensures |Tokenize(s, p).value| <= |s| - p
    ensures forall i :: 0 <= i < |Tokenize(s, p).value| ==>
      !Tokenize(s, p).value[i].Empty? && !IsBlankToken(Tokenize(s, p).value[i])
    decreases |s| - p
  {
    var q := SkipSpaces(s, p);
    if q < |s| {
      var (t, e) := NextToken(s, q).value;
      TokenizeProperties(s, e);
      assert Tokenize(s, p).value == [t] + Tokenize(s, e).value;
    }
  }

  /** What lexer_go_to_next_token_equal_to finds. */
  datatype Search = Found(after: nat) | Exhausted | Overrun

  /** Collect tokens one after another, with no blank skipping, until one equals t. */
  function FindToken(s: string, p: nat, t: Token): (r: Search)
    requires p <= |s|
    ensures r.Found? ==> p < r.after <= |s|
    decreases |s| - p
  {
    if p == |s| then Exhausted
    else match NextToken(s, p)
      case None => Overrun
      case Some((u, e)) => if TokenEquals(u, t) then Found(e) else FindToken(s, e, t)
  }

  /** A successful search stops just after a token equal to the one sought. */
  lemma {:induction false} FindTokenStopsAfterMatch(s: string, p: nat, t: Token)
    requires p <= |s| && FindToken(s, p, t).Found?
    ensures exists q :: p <= q < FindToken(s, p, t).after && NextToken(s, q) == Some((t, FindToken(s, p, t).after))
    decreases |s| - p
  {
    var (u, e) := NextToken(s, p).value;
    if u != t {
      FindTokenStopsAfterMatch(s, e, t);
    }
  }

  /** A search that runs to the terminator met no equal token on the way. */
  lemma {:induction false} FindTokenExhaustedMeansAbsent(s: string, p: nat, q: nat, t: Token)
    requires p <= |s| && q < |s| && FindToken(s, p, t).Exhausted?
    requires Reached(s, p, q)
    ensures NextToken(s, q).Some? && NextToken(s, q).value.0 != t
    decreases |s| - p
  {
    if p != q {
      var (u, e) := NextToken(s, p).value;
      FindTokenExhaustedMeansAbsent(s, e, q, t);
    }
  }

  /** q is a token start reached from p by collecting tokens without skipping blanks. */
  predicate Reached(s: string, p: nat, q: nat)
    requires p <= |s|
    decreases |s| - p
  {
    p == q || (p < |s| && NextToken(s, p).Some? && Reached(s, NextToken(s, p).value.1, q))
  }

  /** lexer_collect_next_token_of_type: the first token of the kind, or the empty token at the terminator. */
  function NextOfKind(s: string, p: nat, kind: nat): (r: Option<(Token, nat)>)
    requires p <= |s|
    ensures r.Some? ==> p <= r.value.1 <= |s|
    ensures r.Some? ==> (r.value.0.Empty? && r.value.1 == |s|) || (Kind(r.value.0) == kind && p < r.value.1)
    decreases |s| - p
  {
    if p == |s| then Some((Empty, p))
    else match NextToken(s, p)
      case None => None
      case Some((u, e)) => if Kind(u) == kind then Some((u, e)) else NextOfKind(s, e, kind)
  }

  /** lexer_t: the text and the cursor into it. */
  class Lexer {
    const src: string
    var cursor: nat

    predicate Valid()
      reads this
    {
      cursor <= |src|
    }

    /** lexer_init: the cursor starts at the beginning of the text. */
    constructor Init(text: string)
      ensures Valid() && src == text && cursor == 0
    {
      src := text;
      cursor := 0;
    }

    /** lexer_restart. */
    method Restart()
      modifies this
      ensures Valid() && cursor == 0
    {
      cursor := 0;
    }

    /** lexer_skip_spaces. */
    method SkipBlanks()
      requires Valid()
      modifies this
      ensures Valid() && cursor == SkipSpaces(src, old(cursor))
    {
      while cursor < |src| && IsSpace(src[cursor])
        invariant old(cursor) <= cursor <= |src|
        invariant SkipSpaces(src, cursor) == SkipSpaces(src, old(cursor))
        decreases |src| - cursor
      {
        cursor := cursor + 1;
      }
    }

    /** lexer_collect_symbol: the character under the cursor. */
    method CollectSymbol() returns (t: Token)
      requires Valid() && cursor < |src|
      modifies this
      ensures Valid() && t == Symbol(src[old(cursor)]) && cursor == old(cursor) + 1
    {
      t := Symbol(src[cursor]);
      cursor := cursor + 1;
    }

    /** lexer_collect_id: the maximal run of letters, digits and underscores at the cursor. */
    method CollectId() returns (t: Token)
      requires Valid()
      modifies this
      ensures Valid() && cursor == IdEnd(src, old(cursor)) && t == Identifier(src[old(cursor)..cursor])
    {
      var start := cursor;
      while cursor < |src| && IsIdChar(src[cursor])
        invariant start <= cursor <= |src|
        invariant IdEnd(src, cursor) == IdEnd(src, start)
        decreases |src| - cursor
      {
        cursor := cursor + 1;
      }
      t := Identifier(src[start..cursor]);
    }

    /** lexer_collect_char: skip the opening quote, take one character, skip one more. */
    method CollectChar() returns (t: Option<Token>)
      requires Valid() && cursor < |src|
      modifies this
      ensures Valid()
      ensures old(cursor) + 3 <= |src| ==> t == Some(CharLiteral(src[old(cursor) + 1])) && cursor == old(cursor) + 3
      ensures |src| < old(cursor) + 3 ==> t.None? && cursor == |src|
    {
      if |src| < cursor + 3 {
        cursor := |src|;
        return None;
      }
      t := Some(CharLiteral(src[cursor + 1]));
      cursor := cursor + 3;
    }

    /** lexer_collect_string: the characters between the opening quote and the next double quote. */
    method CollectString() returns (t: Option<Token>)
      requires Valid() && cursor < |src|
      modifies this
      ensures Valid()
      ensures match ClosingQuote(src, old(cursor) + 1)
        case Some(q) => t == Some(StringLiteral(src[old(cursor) + 1..q])) && cursor == q + 1
        case None => t.None? && cursor == |src|
    {
      cursor := cursor + 1;
      var start := cursor;
      while cursor < |src| && src[cursor] != '"'
        invariant start <= cursor <= |src|
        invariant ClosingQuote(src, cursor) == ClosingQuote(src, start)
        decreases |src| - cursor
      {
        cursor := cursor + 1;
      }
      if cursor == |src| {
        return None;
      }
      t := Some(StringLiteral(src[start..cursor]));
      cursor := cursor + 1;
    }

    /** lexer_collect_number: the maximal run of digits, read by strtoull and stored in 16 bits. */
    method CollectNumber() returns (t: Token)
      requires Valid() && cursor < |src| && IsDigit(src[cursor])
      modifies this
      ensures Valid() && cursor == DigitsEnd(src, old(cursor))
      ensures t == Integer(ParsedInteger(DecimalValue(src[old(cursor)..cursor])))
    {
      var start := cursor;
      var value := 0;
      while cursor < |src| && IsDigit(src[cursor])
        invariant start <= cursor <= |src|
        invariant DigitsEnd(src, cursor) == DigitsEnd(src, start)
        invariant value == DecimalValue(src[start..cursor])
        decreases |src| - cursor
      {
        assert src[start..cursor + 1][..cursor - start] == src[start..cursor];
        value := value * 10 + ((src[cursor] as int - '0' as int) % 10);
        cursor := cursor + 1;
      }
      t := Integer(ParsedInteger(value));
    }

    /** lexer_collect_next_token: dispatch on the character under the cursor. */
    method CollectNextToken() returns (t: Option<Token>)
      requires Valid() && cursor < |src|
      modifies this
      ensures Valid()
      ensures match NextToken(src, old(cursor))
        case Some((u, e)) => t == Some(u) && cursor == e
        case None => t.None? && cursor == |src|
    {
      var c := src[cursor];
      if IsDigit(c) {
        var u := CollectNumber();
        return Some(u);
      }
      if IsAlpha(c) || c == '_' {
        var u := CollectId();
        return Some(u);
      }
      if c == '\'' {
        t := CollectChar();
      } else if c == '"' {
        t := CollectString();
      } else {
        var u := CollectSymbol();
        t := Some(u);
      }
    }

    /** lexer_collect_tokens: every token up to the terminator, blanks skipped before and between. */
    method CollectTokens() returns (tokens: Option<seq<Token>>)
      requires Valid()
      modifies this
      ensures Valid()
      ensures tokens == Tokenize(src, old(cursor))
      ensures tokens.Some? ==> cursor == |src|
    {
      ghost var start := cursor;
      var acc: seq<Token> := [];
      SkipBlanks();
      TokenizeAfterSpaces(src, start);
      assert Tokenize(src, start) == Prepend(acc, Tokenize(src, cursor)) by {
        if Tokenize(src, cursor).Some? {
          assert acc + Tokenize(src, cursor).value == Tokenize(src, cursor).value;
        }
      }
      while cursor < |src|
        invariant Valid()
        invariant cursor == |src| || !IsSpace(src[cursor])
        invariant Tokenize(src, start) == Prepend(acc, Tokenize(src, cursor))
        decreases |src| - cursor
      {
        ghost var before := cursor;
        var t := CollectNextToken();
        if t.None? {
          TokenizeAt(src, before);
          return None;
        }
        ghost var after := cursor;
        TokenizeAt(src, before);
        PrependSnoc(acc, t.value, Tokenize(src, after));
        acc := acc + [t.value];
        SkipBlanks();
        TokenizeAfterSpaces(src, after);
      }
      assert acc + [] == acc;
      tokens := Some(acc);
    }

    /** lexer_collect_next_token_of_type: collect tokens until one of the kind, or return the empty token at the terminator. */
    method CollectNextTokenOfKind(kind: nat) returns (t: Option<Token>)
      requires Valid()
      modifies this
      ensures Valid()
      ensures match NextOfKind(src, old(cursor), kind)
        case Some((u, e)) => t == Some(u) && cursor == e
        case None => t.None? && cursor == |src|
    {
      while cursor < |src|
        invariant Valid()
        invariant NextOfKind(src, cursor, kind) == NextOfKind(src, old(cursor), kind)
        decreases |src| - cursor
      {
        var u := CollectNextToken();
        if u.None? {
          return None;
        }
        if Kind(u.value) == kind {
          return u;
        }
      }
      return Some(Empty);
    }

    /** lexer_go_to_next_token_equal_to: true, with the cursor just past the first equal token, or false at the terminator. */
    method GoToNextTokenEqualTo(target: Token) returns (found: bool)
      requires Valid()
      modifies this
      ensures Valid()
      ensures match FindToken(src, old(cursor), target)
        case Found(e) => found && cursor == e
        case Exhausted => !found && cursor == |src|
        case Overrun => !found && cursor == |src|
    {
      while cursor < |src|
        invariant Valid()
        invariant FindToken(src, cursor, target) == FindToken(src, old(cursor), target)
        decreases |src| - cursor
      {
        var u := CollectNextToken();
        if u.None? {
          return false;
        }
        if TokenEquals(u.value, target) {
          return true;
        }
      }
      return false;
    }
  }
}
