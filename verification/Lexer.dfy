/**
 The lexical grammar behind the pagination check, read forwards: each item says how many bytes it
 takes and what the next item may see of it.
 */
module Lexer {
  import opened Wrappers

  // ---- byte classes ---------------------------------------------------------------------------

  // The ASCII codes of the bytes that open or close an item.
  const DOUBLE_QUOTE: U8 := 0x22
  const DOLLAR: U8 := 0x24
  const AMPERSAND: U8 := 0x26
  const QUOTE: U8 := 0x27
  const STAR: U8 := 0x2A
  const DASH: U8 := 0x2D
  const SLASH: U8 := 0x2F
  const BACKSLASH: U8 := 0x5C

  predicate IsIdentifierStart(b: U8) {
    'A' as int <= b <= 'Z' as int || 'a' as int <= b <= 'z' as int || b == '_' as int || b >= 0x80
  }

  predicate IsDigit(b: U8) {
    '0' as int <= b <= '9' as int
  }

  predicate IsIdentifierContinue(b: U8) {
    IsIdentifierStart(b) || IsDigit(b) || b == DOLLAR
  }

  predicate IsTagContinue(b: U8) {
    IsIdentifierStart(b) || IsDigit(b)
  }

  predicate IsNewline(b: U8) {
    b == '\n' as int || b == '\r' as int
  }

  predicate IsE(b: U8) {
    b == 'e' as int || b == 'E' as int
  }

  predicate IsU(b: U8) {
    b == 'u' as int || b == 'U' as int
  }

  function Lower(b: U8): U8 {
    if 'A' as int <= b <= 'Z' as int then b + 32 else b
  }

  predicate Spells(word: Bytes, keyword: string) {
    |word| == |keyword| && forall i :: 0 <= i < |word| ==> Lower(word[i]) == keyword[i] as int
  }

  predicate IsPaginationKeyword(word: Bytes) {
    Spells(word, "limit") || Spells(word, "offset") || Spells(word, "fetch")
  }

  // ---- how far each item reaches --------------------------------------------------------------

  predicate Pair(s: Bytes, p: nat, a: U8, b: U8) {
    p + 1 < |s| && s[p] == a && s[p + 1] == b
  }

  /** The end of a single-quoted string whose inside goes on at `p`. */
  function SingleQuoted(s: Bytes, p: nat, escapes: bool): (end: nat)
    requires p <= |s|
    ensures p <= end <= |s|
    decreases |s| - p
  {
    if p == |s| then p
    else if Pair(s, p, QUOTE, QUOTE) then SingleQuoted(s, p + 2, escapes)
    else if s[p] == QUOTE then p + 1
    else if escapes && s[p] == BACKSLASH then if p + 1 == |s| then p + 1 else SingleQuoted(s, p + 2, escapes)
    else SingleQuoted(s, p + 1, escapes)
  }

  /** The end of a quoted run in which only a doubled quote stands for a quote. */
  function DoubleQuoted(s: Bytes, p: nat, quote: U8): (end: nat)
    requires p <= |s|
    ensures p <= end <= |s|
    decreases |s| - p
  {
    if p == |s| then p
    else if Pair(s, p, quote, quote) then DoubleQuoted(s, p + 2, quote)
    else if s[p] == quote then p + 1
    else DoubleQuoted(s, p + 1, quote)
  }

  function LineComment(s: Bytes, p: nat): (end: nat)
    requires p <= |s|
    ensures p <= end <= |s|
    decreases |s| - p
  {
    if p == |s| then p else if IsNewline(s[p]) then p + 1 else LineComment(s, p + 1)
  }

  /** The end of a block comment whose inside goes on at `p`: comments inside it are read whole. */
  function Comment(s: Bytes, p: nat): (end: nat)
    requires p <= |s|
    ensures p <= end <= |s|
    ensures p < |s| ==> p < end
    decreases |s| - p
  {
    if p == |s| then p
    else if Pair(s, p, SLASH, STAR) then Comment(s, Comment(s, p + 2))
    else if Pair(s, p, STAR, SLASH) then p + 2
    else Comment(s, p + 1)
  }

  function TagRun(s: Bytes, p: nat): (end: nat)
    requires p <= |s|
    ensures p <= end <= |s|
    decreases |s| - p
  {
    if p == |s| || !IsTagContinue(s[p]) then p else TagRun(s, p + 1)
  }

  /** The end of the dollar-quote delimiter, tag included, that begins at `p`. */
  function Delimiter(s: Bytes, p: nat): (end: Option<nat>)
    requires p < |s|
    ensures end.Some? ==> p + 2 <= end.value <= |s| && s[end.value - 1] == DOLLAR
  {
    if p + 1 == |s| then None
    else if s[p + 1] == DOLLAR then Some(p + 2)
    else if !IsIdentifierStart(s[p + 1]) then None
    else
      var end := TagRun(s, p + 2);
      if end < |s| && s[end] == DOLLAR then Some(end + 1) else None
  }

  predicate Occurs(s: Bytes, delimiter: Bytes, at: nat) {
    at + |delimiter| <= |s| && s[at..at + |delimiter|] == delimiter
  }

  /** The end of the first occurrence of the delimiter from `p` on, or of the text. */
  function DollarBody(s: Bytes, p: nat, delimiter: Bytes): (end: nat)
    requires p <= |s|
    ensures p <= end <= |s|
    decreases |s| - p
  {
    if Occurs(s, delimiter, p) then p + |delimiter|
    else if p == |s| then p
    else DollarBody(s, p + 1, delimiter)
  }

  function WordEnd(s: Bytes, p: nat): (end: nat)
    requires p <= |s|
    ensures p <= end <= |s|
    ensures forall i :: p <= i < end ==> IsIdentifierContinue(s[i])
    decreases |s| - p
  {
    if p == |s| || !IsIdentifierContinue(s[p]) then p else WordEnd(s, p + 1)
  }

  lemma {:induction false} SingleQuotedEnds(s: Bytes, p: nat, escapes: bool)
    requires p <= |s|
    ensures SingleQuoted(s, p, escapes) < |s| ==>
              p < SingleQuoted(s, p, escapes) && s[SingleQuoted(s, p, escapes) - 1] == QUOTE
    decreases |s| - p
  {
    if p < |s| {
      if Pair(s, p, QUOTE, QUOTE) || (s[p] != QUOTE && escapes && s[p] == BACKSLASH && p + 1 < |s|) {
        SingleQuotedEnds(s, p + 2, escapes);
      } else if s[p] != QUOTE && !(escapes && s[p] == BACKSLASH) {
        SingleQuotedEnds(s, p + 1, escapes);
      }
    }
  }

  lemma {:induction false} DoubleQuotedEnds(s: Bytes, p: nat, quote: U8)
    requires p <= |s|
    ensures DoubleQuoted(s, p, quote) < |s| ==> p < DoubleQuoted(s, p, quote) && s[DoubleQuoted(s, p, quote) - 1] == quote
    decreases |s| - p
  {
    if p < |s| {
      if Pair(s, p, quote, quote) {
        DoubleQuotedEnds(s, p + 2, quote);
      } else if s[p] != quote {
        DoubleQuotedEnds(s, p + 1, quote);
      }
    }
  }

  lemma {:induction false} LineCommentEnds(s: Bytes, p: nat)
    requires p <= |s|
    ensures LineComment(s, p) < |s| ==> p < LineComment(s, p) && IsNewline(s[LineComment(s, p) - 1])
    decreases |s| - p
  {
    if p < |s| && !IsNewline(s[p]) {
      LineCommentEnds(s, p + 1);
    }
  }

  lemma {:induction false} CommentEnds(s: Bytes, p: nat)
    requires p <= |s|
    ensures Comment(s, p) < |s| ==> p < Comment(s, p) && s[Comment(s, p) - 1] == SLASH
    decreases |s| - p
  {
    if p < |s| {
      if Pair(s, p, SLASH, STAR) {
        CommentEnds(s, Comment(s, p + 2));
      } else if !Pair(s, p, STAR, SLASH) {
        CommentEnds(s, p + 1);
      }
    }
  }

  lemma {:induction false} DollarBodyEnds(s: Bytes, p: nat, delimiter: Bytes)
    requires p <= |s| && delimiter != []
    ensures DollarBody(s, p, delimiter) < |s| ==>
              p < DollarBody(s, p, delimiter) && s[DollarBody(s, p, delimiter) - 1] == delimiter[|delimiter| - 1]
    decreases |s| - p
  {
    if Occurs(s, delimiter, p) {
      assert s[p..p + |delimiter|][|delimiter| - 1] == delimiter[|delimiter| - 1];
    } else if p < |s| {
      DollarBodyEnds(s, p + 1, delimiter);
    }
  }

  /** The body ends at the first occurrence, not a later one. */
  lemma {:induction false} DollarBodyIsFirst(s: Bytes, p: nat, delimiter: Bytes, at: nat)
    requires p <= at && delimiter != [] && Occurs(s, delimiter, at)
    ensures DollarBody(s, p, delimiter) <= at + |delimiter|
    decreases |s| - p
  {
    if p < at {
      DollarBodyIsFirst(s, p + 1, delimiter, at);
    }
  }

  // ---- items ----------------------------------------------------------------------------------

  datatype Token = Word(text: Bytes) | Literal | Blank | Other

  /** What stands right before an item: enough to tell whether a string has an escape prefix. */
  datatype Before =
    | Apart        // the start, or a byte that cannot continue an identifier
    | Glued        // a byte that can
    | EscapeWord   // a lone e
    | UnicodeWord  // a lone u
    | UnicodeMark  // a lone u and an ampersand

  datatype Item = Item(token: Token, end: nat, after: Before)

  predicate Touches(before: Before) {
    before.Glued? || before.EscapeWord? || before.UnicodeWord?
  }

  function AfterWord(word: Bytes, before: Before): Before {
    if Touches(before) || |word| != 1 then Glued
    else if IsE(word[0]) then EscapeWord
    else if IsU(word[0]) then UnicodeWord
    else Glued
  }

  function AfterOther(b: U8, before: Before): Before {
    if b == AMPERSAND && before.UnicodeWord? then UnicodeMark
    else if IsIdentifierContinue(b) then Glued
    else Apart
  }

  function NextItem(s: Bytes, p: nat, before: Before): (item: Item)
    requires p < |s|
    ensures p < item.end <= |s|
  {
    if s[p] == QUOTE then
      Item(Literal, SingleQuoted(s, p + 1, before.EscapeWord? || before.UnicodeMark?), Apart)
    else if s[p] == DOUBLE_QUOTE then Item(Literal, DoubleQuoted(s, p + 1, DOUBLE_QUOTE), Apart)
    else if Pair(s, p, DASH, DASH) then Item(Blank, LineComment(s, p + 2), Apart)
    else if Pair(s, p, SLASH, STAR) then Item(Blank, Comment(s, p + 2), Apart)
    else if s[p] == DOLLAR then
      match Delimiter(s, p)
      case Some(end) => Item(Literal, DollarBody(s, end, s[p..end]), Glued)
      case None => Item(Other, p + 1, Glued)
    else if IsIdentifierStart(s[p]) then
      var end := WordEnd(s, p + 1);
      Item(Word(s[p..end]), end, AfterWord(s[p..end], before))
    else Item(Other, p + 1, AfterOther(s[p], before))
  }

  /** The items of the text from `p` on. */
  function Tokens(s: Bytes, p: nat, before: Before): seq<Token>
    requires p <= |s|
    decreases |s| - p
  {
    if p == |s| then []
    else
      var item := NextItem(s, p, before);
      [item.token] + Tokens(s, item.end, item.after)
  }

  predicate IsKeywordToken(token: Token) {
    token.Word? && IsPaginationKeyword(token.text)
  }

  /** The text pages itself: a pagination keyword stands outside strings, comments and quotes. */
  predicate HasKeyword(tokens: seq<Token>) {
    exists i :: 0 <= i < |tokens| && IsKeywordToken(tokens[i])
  }

  lemma HasKeywordCons(token: Token, rest: seq<Token>)
    ensures HasKeyword([token] + rest) <==> IsKeywordToken(token) || HasKeyword(rest)
  {
    var all := [token] + rest;
    assert all[0] == token;
    if HasKeyword(rest) {
      var i :| 0 <= i < |rest| && IsKeywordToken(rest[i]);
      assert all[i + 1] == rest[i];
    }
    if HasKeyword(all) {
      var i :| 0 <= i < |all| && IsKeywordToken(all[i]);
      assert i > 0 ==> all[i] == rest[i - 1];
    }
  }

  lemma TokensStep(s: Bytes, p: nat, before: Before)
    requires p < |s|
    ensures
      var item := NextItem(s, p, before);
      HasKeyword(Tokens(s, p, before)) <==> IsKeywordToken(item.token) || HasKeyword(Tokens(s, item.end, item.after))
  {
    var item := NextItem(s, p, before);
    HasKeywordCons(item.token, Tokens(s, item.end, item.after));
  }

  // ---- quoting an identifier ------------------------------------------------------------------

  function Twice(b: U8): Bytes {
    if b == DOUBLE_QUOTE then [DOUBLE_QUOTE, DOUBLE_QUOTE] else [b]
  }

  function Doubled(identifier: Bytes): Bytes {
    if identifier == [] then [] else Doubled(identifier[..|identifier| - 1]) + Twice(identifier[|identifier| - 1])
  }

  function Quoted(identifier: Bytes): Bytes {
    [DOUBLE_QUOTE] + Doubled(identifier) + [DOUBLE_QUOTE]
  }

  /** The quoter: a quote inside the name is written twice. */
  method QuoteIdentifier(identifier: Bytes) returns (quoted: Bytes)
    ensures quoted == Quoted(identifier)
  {
    quoted := [DOUBLE_QUOTE];
    for i := 0 to |identifier|
      invariant quoted == [DOUBLE_QUOTE] + Doubled(identifier[..i])
    {
      assert identifier[..i + 1][..i] == identifier[..i];
      if identifier[i] == DOUBLE_QUOTE {
        quoted := quoted + [DOUBLE_QUOTE];
      }
      quoted := quoted + [identifier[i]];
    }
    assert identifier[..|identifier|] == identifier;
    quoted := quoted + [DOUBLE_QUOTE];
  }

  lemma {:induction false} DoubledCons(identifier: Bytes)
    requires identifier != []
    ensures Doubled(identifier) == Twice(identifier[0]) + Doubled(identifier[1..])
  {
    var n := |identifier| - 1;
    if n > 0 {
      DoubledCons(identifier[..n]);
      assert identifier[..n][1..] == identifier[1..][..n - 1];
      assert Doubled(identifier[1..]) == Doubled(identifier[1..][..n - 1]) + Twice(identifier[n]);
      ConcatIsAssociative(Twice(identifier[0]), Doubled(identifier[..n][1..]), Twice(identifier[n]));
    } else {
      assert identifier[1..] == [] && identifier[..0] == [];
    }
  }

  /** Where `text` stands in `s`. */
  predicate StandsAt(s: Bytes, p: nat, text: Bytes) {
    p + |text| <= |s| && s[p..p + |text|] == text
  }

  lemma StandsParts(s: Bytes, p: nat, a: Bytes, b: Bytes)
    requires StandsAt(s, p, a + b)
    ensures StandsAt(s, p, a) && StandsAt(s, p + |a|, b)
  {
    assert a == (a + b)[..|a|] && b == (a + b)[|a|..];
  }

  /** Reading past the name: the run ends at its closing quote unless a further quote follows. */
  lemma {:induction false} DoubledIsRead(s: Bytes, p: nat, identifier: Bytes, end: nat)
    requires StandsAt(s, p, Doubled(identifier) + [DOUBLE_QUOTE]) && end == p + |Doubled(identifier)| + 1
    ensures DoubleQuoted(s, p, DOUBLE_QUOTE) == end <==> end == |s| || s[end] != DOUBLE_QUOTE
    decreases |identifier|
  {
    if identifier == [] {
      ClosingQuoteIsRead(s, p);
    } else {
      StandsCons(s, p, identifier);
      TwiceIsRead(s, p, identifier[0]);
      DoubledIsRead(s, p + |Twice(identifier[0])|, identifier[1..], end);
    }
  }

  lemma ClosingQuoteIsRead(s: Bytes, p: nat)
    requires StandsAt(s, p, [] + [DOUBLE_QUOTE])
    ensures DoubleQuoted(s, p, DOUBLE_QUOTE) == p + 1 <==> p + 1 == |s| || s[p + 1] != DOUBLE_QUOTE
  {
    assert s[p..p + 1][0] == DOUBLE_QUOTE;
  }

  lemma StandsCons(s: Bytes, p: nat, identifier: Bytes)
    requires identifier != [] && StandsAt(s, p, Doubled(identifier) + [DOUBLE_QUOTE])
    ensures |Doubled(identifier)| == |Twice(identifier[0])| + |Doubled(identifier[1..])|
    ensures StandsAt(s, p, Twice(identifier[0]))
    ensures StandsAt(s, p + |Twice(identifier[0])|, Doubled(identifier[1..]) + [DOUBLE_QUOTE])
  {
    var first, rest := Twice(identifier[0]), Doubled(identifier[1..]);
    DoubledCons(identifier);
    ConcatIsAssociative(first, rest, [DOUBLE_QUOTE]);
    StandsParts(s, p, first, rest + [DOUBLE_QUOTE]);
  }

  /** One character of the name, as the quoter writes it, is read back as one. */
  lemma TwiceIsRead(s: Bytes, p: nat, b: U8)
    requires StandsAt(s, p, Twice(b))
    ensures DoubleQuoted(s, p, DOUBLE_QUOTE) == DoubleQuoted(s, p + |Twice(b)|, DOUBLE_QUOTE)
  {
    var text := s[p..p + |Twice(b)|];
    assert s[p] == text[0] && s[p + |Twice(b)| - 1] == text[|Twice(b)| - 1];
  }

  /**
   The scanner reads a quoted identifier as one item, whatever the name and wherever it stands,
   exactly when the text after it does not begin with a quote; so a quoted name never counts as a
   keyword.
   */
  lemma QuotedIsOneItem(s: Bytes, p: nat, identifier: Bytes, before: Before)
    requires StandsAt(s, p, Quoted(identifier))
    ensures
      var end := p + |Quoted(identifier)|;
      && (NextItem(s, p, before).end == end <==> end == |s| || s[end] != DOUBLE_QUOTE)
      && (end == |s| || s[end] != DOUBLE_QUOTE ==>
            (HasKeyword(Tokens(s, p, before)) <==> HasKeyword(Tokens(s, end, Apart))))
  {
    ConcatIsAssociative([DOUBLE_QUOTE], Doubled(identifier), [DOUBLE_QUOTE]);
    StandsParts(s, p, [DOUBLE_QUOTE], Doubled(identifier) + [DOUBLE_QUOTE]);
    assert s[p] == s[p..p + 1][0];
    DoubledIsRead(s, p + 1, identifier, p + |Quoted(identifier)|);
    TokensStep(s, p, before);
  }
}
