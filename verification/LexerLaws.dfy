/**
 What the lexical grammar reads, stated from the side of the writer: each kind of item, written out in
 any way it can be, is read back as one item and hides its content from the keyword check.
 */
module LexerLaws {
  import opened Wrappers
  import opened Lexer

  // ---- single-quoted strings ------------------------------------------------------------------

  /** One step of writing a string: a byte as it is, a byte behind a backslash, or a quote written twice. */
  datatype Piece = Plain(b: U8) | Slashed(b: U8) | TwoQuotes

  function PieceText(piece: Piece): (text: Bytes)
    ensures 1 <= |text| <= 2
  {
    match piece
    case Plain(b) => [b]
    case Slashed(b) => [BACKSLASH, b]
    case TwoQuotes => [QUOTE, QUOTE]
  }

  function TextOf(pieces: seq<Piece>): Bytes {
    if pieces == [] then [] else PieceText(pieces[0]) + TextOf(pieces[1..])
  }

  /** Without escapes a backslash is a byte like any other. */
  predicate Writes(piece: Piece, escapes: bool) {
    match piece
    case Plain(b) => b != QUOTE && (escapes ==> b != BACKSLASH)
    case Slashed(_) => escapes
    case TwoQuotes => true
  }

  function StringText(pieces: seq<Piece>): Bytes {
    [QUOTE] + (TextOf(pieces) + [QUOTE])
  }

  lemma PieceIsRead(s: Bytes, p: nat, piece: Piece, escapes: bool)
    requires StandsAt(s, p, PieceText(piece)) && Writes(piece, escapes)
    ensures SingleQuoted(s, p, escapes) == SingleQuoted(s, p + |PieceText(piece)|, escapes)
  {
    var text := s[p..p + |PieceText(piece)|];
    assert s[p] == text[0] && s[p + |text| - 1] == text[|text| - 1];
  }

  lemma PiecesStand(s: Bytes, p: nat, pieces: seq<Piece>)
    requires pieces != [] && StandsAt(s, p, TextOf(pieces) + [QUOTE])
    ensures StandsAt(s, p, PieceText(pieces[0]))
    ensures StandsAt(s, p + |PieceText(pieces[0])|, TextOf(pieces[1..]) + [QUOTE])
    ensures |TextOf(pieces)| == |PieceText(pieces[0])| + |TextOf(pieces[1..])|
  {
    ConcatIsAssociative(PieceText(pieces[0]), TextOf(pieces[1..]), [QUOTE]);
    StandsParts(s, p, PieceText(pieces[0]), TextOf(pieces[1..]) + [QUOTE]);
  }

  lemma {:induction false} PiecesAreRead(s: Bytes, p: nat, pieces: seq<Piece>, escapes: bool, end: nat)
    requires StandsAt(s, p, TextOf(pieces) + [QUOTE]) && end == p + |TextOf(pieces)| + 1
    requires forall i :: 0 <= i < |pieces| ==> Writes(pieces[i], escapes)
    ensures SingleQuoted(s, p, escapes) == end <==> end == |s| || s[end] != QUOTE
    decreases |pieces|
  {
    if pieces == [] {
      assert s[p..p + 1][0] == QUOTE;
    } else {
      PiecesStand(s, p, pieces);
      PieceIsRead(s, p, pieces[0], escapes);
      PiecesAreRead(s, p + |PieceText(pieces[0])|, pieces[1..], escapes, end);
    }
  }

  predicate Escapes(before: Before) {
    before.EscapeWord? || before.UnicodeMark?
  }

  /**
   A string, however it is written, is one literal that ends at its closing quote exactly when no
   further quote follows. After an escape prefix a backslash takes the next byte with it; without one
   the first quote that is not doubled ends the string.
   */
  lemma StringIsOneItem(s: Bytes, p: nat, pieces: seq<Piece>, before: Before)
    requires StandsAt(s, p, StringText(pieces))
    requires forall i :: 0 <= i < |pieces| ==> Writes(pieces[i], Escapes(before))
    ensures
      var end := p + |StringText(pieces)|;
      && (NextItem(s, p, before).end == end <==> end == |s| || s[end] != QUOTE)
      && (end == |s| || s[end] != QUOTE ==>
            && NextItem(s, p, before) == Item(Literal, end, Apart)
            && (HasKeyword(Tokens(s, p, before)) <==> HasKeyword(Tokens(s, end, Apart))))
  {
    StandsParts(s, p, [QUOTE], TextOf(pieces) + [QUOTE]);
    assert s[p] == s[p..p + 1][0];
    PiecesAreRead(s, p + 1, pieces, Escapes(before), p + |StringText(pieces)|);
    TokensStep(s, p, before);
  }

  /** A lone e or E, or a lone u or U with an ampersand. */
  predicate IsEscapePrefix(prefix: Bytes) {
    || prefix == ['e' as int] || prefix == ['E' as int]
    || prefix == ['u' as int, '&' as int] || prefix == ['U' as int, '&' as int]
  }

  /** A prefix byte is a word of its own if nothing goes on behind it. */
  lemma LoneLetter(s: Bytes, p: nat, before: Before)
    requires p + 1 < |s| && (IsE(s[p]) || IsU(s[p])) && !IsIdentifierContinue(s[p + 1])
    ensures NextItem(s, p, before) == Item(Word([s[p]]), p + 1, AfterWord([s[p]], before))
    ensures HasKeyword(Tokens(s, p, before)) <==> HasKeyword(Tokens(s, p + 1, AfterWord([s[p]], before)))
  {
    assert WordEnd(s, p + 1) == p + 1;
    assert |s[p..p + 1]| == 1 && s[p..p + 1][0] == s[p];
    assert s[p..p + 1] == [s[p]];
    TokensStep(s, p, before);
  }

  /** What an escape prefix announces to the quote behind it. */
  function Announced(prefix: Bytes): Before {
    if |prefix| == 1 then EscapeWord else UnicodeMark
  }

  lemma PrefixAnnounces(s: Bytes, p: nat, prefix: Bytes, before: Before)
    requires IsEscapePrefix(prefix) && StandsAt(s, p, prefix) && !Touches(before)
    requires p + |prefix| < |s| && s[p + |prefix|] == QUOTE
    ensures HasKeyword(Tokens(s, p, before)) <==> HasKeyword(Tokens(s, p + |prefix|, Announced(prefix)))
  {
    assert s[p] == s[p..p + |prefix|][0];
    if |prefix| == 2 {
      assert s[p + 1] == s[p..p + |prefix|][1];
      LoneLetter(s, p, before);
      TokensStep(s, p + 1, UnicodeWord);
    } else {
      LoneLetter(s, p, before);
    }
  }

  lemma PrefixedStands(s: Bytes, p: nat, prefix: Bytes, pieces: seq<Piece>)
    requires StandsAt(s, p, prefix + StringText(pieces))
    ensures StandsAt(s, p, prefix) && StandsAt(s, p + |prefix|, StringText(pieces))
    ensures p + |prefix| < |s| && s[p + |prefix|] == QUOTE
  {
    StandsParts(s, p, prefix, StringText(pieces));
    var q := p + |prefix|;
    assert s[q] == s[q..q + |StringText(pieces)|][0];
  }

  lemma StringHides(s: Bytes, p: nat, pieces: seq<Piece>, before: Before, end: nat)
    requires StandsAt(s, p, StringText(pieces)) && Escapes(before)
    requires forall i :: 0 <= i < |pieces| ==> Writes(pieces[i], true)
    requires end == p + |StringText(pieces)| && (end < |s| ==> s[end] != QUOTE)
    ensures HasKeyword(Tokens(s, p, before)) <==> HasKeyword(Tokens(s, end, Apart))
  {
    StringIsOneItem(s, p, pieces, before);
  }

  /** With its prefix, an escape string hides whatever it holds, escaped quotes and backslashes included. */
  lemma EscapeStringHides(s: Bytes, p: nat, prefix: Bytes, pieces: seq<Piece>, before: Before, end: nat)
    requires IsEscapePrefix(prefix) && StandsAt(s, p, prefix + StringText(pieces)) && !Touches(before)
    requires forall i :: 0 <= i < |pieces| ==> Writes(pieces[i], true)
    requires end == p + |prefix| + |StringText(pieces)| && (end < |s| ==> s[end] != QUOTE)
    ensures HasKeyword(Tokens(s, p, before)) <==> HasKeyword(Tokens(s, end, Apart))
  {
    var quote := p + |prefix|;
    assert StandsAt(s, quote, StringText(pieces)) && StandsAt(s, p, prefix) && quote < |s| && s[quote] == QUOTE by {
      PrefixedStands(s, p, prefix, pieces);
    }
    PrefixAnnounces(s, p, prefix, before);
    StringHides(s, quote, pieces, Announced(prefix), end);
  }

  /** The letter of a longer word is no prefix: there a backslash does not keep the string open. */
  lemma LongWordIsNoPrefix(word: Bytes, before: Before)
    requires |word| != 1 || Touches(before)
    ensures !Escapes(AfterWord(word, before)) && !Escapes(AfterOther(AMPERSAND, AfterWord(word, before)))
  {
  }

  // ---- comments -------------------------------------------------------------------------------

  /** The inside of a block comment: bytes, and comments that are whole in themselves. */
  datatype Inside = End | Byte(b: U8, rest: Inside) | Inner(inner: Inside, next: Inside)

  function InsideText(inside: Inside): Bytes
    decreases inside, 0
  {
    match inside
    case End => []
    case Byte(b, rest) => [b] + InsideText(rest)
    case Inner(inner, next) => CommentText(inner) + InsideText(next)
  }

  function CommentText(inside: Inside): Bytes
    decreases inside, 1
  {
    [SLASH, STAR] + (InsideText(inside) + [STAR, SLASH])
  }

  /** The first byte of an inside and the closing mark behind it. */
  function FirstByte(inside: Inside): U8 {
    match inside
    case End => STAR
    case Byte(b, _) => b
    case Inner(_, _) => SLASH
  }

  /** No byte forms a mark with the next one. */
  predicate NoStrayMarks(inside: Inside) {
    match inside
    case End => true
    case Byte(b, rest) =>
      && !(b == SLASH && FirstByte(rest) == STAR) && !(b == STAR && FirstByte(rest) == SLASH)
      && NoStrayMarks(rest)
    case Inner(inner, next) => NoStrayMarks(inner) && NoStrayMarks(next)
  }

  lemma FirstByteIs(inside: Inside)
    ensures (InsideText(inside) + [STAR, SLASH])[0] == FirstByte(inside)
  {
  }

  lemma ByteStands(s: Bytes, p: nat, b: U8, rest: Inside)
    requires StandsAt(s, p, InsideText(Byte(b, rest)) + [STAR, SLASH])
    ensures p + 1 < |s| && s[p] == b && s[p + 1] == FirstByte(rest)
    ensures StandsAt(s, p + 1, InsideText(rest) + [STAR, SLASH])
  {
    var tail := InsideText(rest) + [STAR, SLASH];
    ConcatIsAssociative([b], InsideText(rest), [STAR, SLASH]);
    StandsParts(s, p, [b], tail);
    FirstByteIs(rest);
    assert s[p] == s[p..p + 1][0] && s[p + 1] == s[p + 1..p + 1 + |tail|][0];
  }

  lemma InnerStands(s: Bytes, p: nat, inner: Inside, next: Inside)
    requires StandsAt(s, p, InsideText(Inner(inner, next)) + [STAR, SLASH])
    ensures Pair(s, p, SLASH, STAR)
    ensures StandsAt(s, p + 2, InsideText(inner) + [STAR, SLASH])
    ensures StandsAt(s, p + |CommentText(inner)|, InsideText(next) + [STAR, SLASH])
  {
    ConcatIsAssociative(CommentText(inner), InsideText(next), [STAR, SLASH]);
    StandsParts(s, p, CommentText(inner), InsideText(next) + [STAR, SLASH]);
    StandsParts(s, p, [SLASH, STAR], InsideText(inner) + [STAR, SLASH]);
    assert s[p] == s[p..p + 2][0] && s[p + 1] == s[p..p + 2][1];
  }

  /** A comment with comments inside it ends at its own closing mark. */
  lemma {:induction false} InsideIsRead(s: Bytes, p: nat, inside: Inside)
    requires StandsAt(s, p, InsideText(inside) + [STAR, SLASH]) && NoStrayMarks(inside)
    ensures Comment(s, p) == p + |InsideText(inside)| + 2
    decreases inside
  {
    match inside {
      case End =>
        assert s[p] == s[p..p + 2][0] && s[p + 1] == s[p..p + 2][1];
      case Byte(b, rest) =>
        ByteStands(s, p, b, rest);
        InsideIsRead(s, p + 1, rest);
      case Inner(inner, next) =>
        InnerStands(s, p, inner, next);
        InsideIsRead(s, p + 2, inner);
        InsideIsRead(s, p + |CommentText(inner)|, next);
    }
  }

  /** A block comment, nested to any depth, is one item and hides what it holds. */
  lemma CommentIsOneItem(s: Bytes, p: nat, inside: Inside, before: Before)
    requires StandsAt(s, p, CommentText(inside)) && NoStrayMarks(inside)
    ensures
      var end := p + |CommentText(inside)|;
      && NextItem(s, p, before) == Item(Blank, end, Apart)
      && (HasKeyword(Tokens(s, p, before)) <==> HasKeyword(Tokens(s, end, Apart)))
  {
    StandsParts(s, p, [SLASH, STAR], InsideText(inside) + [STAR, SLASH]);
    assert s[p] == s[p..p + 2][0] && s[p + 1] == s[p..p + 2][1];
    InsideIsRead(s, p + 2, inside);
    TokensStep(s, p, before);
  }

  lemma {:induction false} LineIsRead(s: Bytes, p: nat, end: nat)
    requires p <= end < |s| && IsNewline(s[end]) && forall i :: p <= i < end ==> !IsNewline(s[i])
    ensures LineComment(s, p) == end + 1
    decreases end - p
  {
    if p < end {
      LineIsRead(s, p + 1, end);
    }
  }

  /** A line comment ends behind the first line feed or carriage return. */
  lemma LineCommentIsOneItem(s: Bytes, p: nat, end: nat, before: Before)
    requires p + 2 <= end < |s| && s[p] == s[p + 1] == '-' as int
    requires s[end] == '\n' as int || s[end] == '\r' as int
    requires forall i :: p + 2 <= i < end ==> s[i] != '\n' as int && s[i] != '\r' as int
    ensures NextItem(s, p, before) == Item(Blank, end + 1, Apart)
    ensures HasKeyword(Tokens(s, p, before)) <==> HasKeyword(Tokens(s, end + 1, Apart))
  {
    LineIsRead(s, p + 2, end);
    TokensStep(s, p, before);
  }

  // ---- dollar quotes --------------------------------------------------------------------------

  /** A tag may be empty; otherwise it begins like an identifier and goes on without a dollar. */
  predicate IsTag(tag: Bytes) {
    tag != [] ==> IsIdentifierStart(tag[0]) && forall i :: 0 <= i < |tag| ==> IsIdentifierStart(tag[i]) || IsDigit(tag[i])
  }

  function DelimiterText(tag: Bytes): Bytes {
    [DOLLAR] + (tag + [DOLLAR])
  }

  lemma {:induction false} TagIsRead(s: Bytes, p: nat, end: nat)
    requires p <= end < |s| && s[end] == DOLLAR && forall i :: p <= i < end ==> IsTagContinue(s[i])
    ensures TagRun(s, p) == end
    decreases end - p
  {
    if p < end {
      TagIsRead(s, p + 1, end);
    }
  }

  lemma DelimiterIsRead(s: Bytes, p: nat, tag: Bytes)
    requires IsTag(tag) && StandsAt(s, p, DelimiterText(tag))
    ensures Delimiter(s, p) == Some(p + |tag| + 2)
  {
    var text, end := DelimiterText(tag), p + |tag| + 1;
    forall i | p <= i <= end
      ensures s[i] == text[i - p]
    {
      assert s[i] == s[p..p + |text|][i - p];
    }
    if tag != [] {
      assert s[p + 1] == tag[0];
      assert forall i :: p + 2 <= i < end ==> s[i] == tag[i - p - 1];
      TagIsRead(s, p + 2, end);
    }
  }

  lemma {:induction false} BodyIsRead(s: Bytes, p: nat, delimiter: Bytes, at: nat)
    requires p <= at && Occurs(s, delimiter, at) && forall k :: p <= k < at ==> !Occurs(s, delimiter, k)
    ensures DollarBody(s, p, delimiter) == at + |delimiter|
    decreases at - p
  {
    if p < at {
      BodyIsRead(s, p + 1, delimiter, at);
    }
  }

  lemma DelimiterOpens(s: Bytes, p: nat, tag: Bytes, before: Before)
    requires IsTag(tag) && StandsAt(s, p, DelimiterText(tag))
    ensures
      var end := p + |tag| + 2;
      NextItem(s, p, before) == Item(Literal, DollarBody(s, end, DelimiterText(tag)), Glued)
  {
    DelimiterIsRead(s, p, tag);
    var text := DelimiterText(tag);
    assert s[p] == s[p..p + |text|][0];
    assert p + |text| == p + |tag| + 2;
  }

  /** The body of a dollar-quoted string goes on up to the first place where its delimiter comes again. */
  lemma DollarQuoteEnds(s: Bytes, p: nat, tag: Bytes, at: nat, before: Before)
    requires IsTag(tag) && StandsAt(s, p, DelimiterText(tag))
    requires p + |tag| + 2 <= at && Occurs(s, DelimiterText(tag), at)
    requires forall k :: p + |tag| + 2 <= k < at ==> !Occurs(s, DelimiterText(tag), k)
    ensures NextItem(s, p, before) == Item(Literal, at + |tag| + 2, Glued)
  {
    DelimiterOpens(s, p, tag, before);
    BodyIsRead(s, p + |tag| + 2, DelimiterText(tag), at);
  }

  /** A dollar-quoted string is one item and hides what it holds. */
  lemma DollarQuoteIsOneItem(s: Bytes, p: nat, tag: Bytes, at: nat, before: Before)
    requires IsTag(tag) && StandsAt(s, p, DelimiterText(tag))
    requires p + |tag| + 2 <= at && Occurs(s, DelimiterText(tag), at)
    requires forall k :: p + |tag| + 2 <= k < at ==> !Occurs(s, DelimiterText(tag), k)
    ensures NextItem(s, p, before) == Item(Literal, at + |tag| + 2, Glued)
    ensures HasKeyword(Tokens(s, p, before)) <==> HasKeyword(Tokens(s, at + |tag| + 2, Glued))
  {
    DollarQuoteEnds(s, p, tag, at, before);
    TokensStep(s, p, before);
  }

  /** A dollar before a digit, as in a parameter, quotes nothing. */
  lemma ParameterIsNoQuote(s: Bytes, p: nat, before: Before)
    requires p + 1 < |s| && s[p] == '$' as int && '0' as int <= s[p + 1] <= '9' as int
    ensures NextItem(s, p, before) == Item(Other, p + 1, Glued)
  {
  }

  // ---- words ----------------------------------------------------------------------------------

  /** The word is the given one, each letter in either case. */
  predicate SameLetters(word: Bytes, letters: string) {
    |word| == |letters| && forall i :: 0 <= i < |word| ==> word[i] == letters[i] as int || word[i] == letters[i] as int - 32
  }

  predicate IsLetter(b: U8) {
    'a' as int <= b <= 'z' as int || 'A' as int <= b <= 'Z' as int
  }

  /** Letters, underscores and everything beyond ASCII begin a word; digits and dollars may follow. */
  predicate BeginsWord(b: U8) {
    IsLetter(b) || b == '_' as int || 0x80 <= b
  }

  predicate ContinuesWord(b: U8) {
    BeginsWord(b) || '0' as int <= b <= '9' as int || b == '$' as int
  }

  lemma {:induction false} WordIsRead(s: Bytes, p: nat, end: nat)
    requires p <= end <= |s| && forall i :: p <= i < end ==> ContinuesWord(s[i])
    requires end < |s| ==> !ContinuesWord(s[end])
    ensures WordEnd(s, p) == end
    decreases end - p
  {
    if p < end {
      WordIsRead(s, p + 1, end);
    }
  }

  lemma SpelledExactly(word: Bytes, letters: string)
    requires forall i :: 0 <= i < |letters| ==> 'a' <= letters[i] <= 'z'
    ensures Spells(word, letters) <==> SameLetters(word, letters)
  {
    if |word| == |letters| {
      forall i | 0 <= i < |word|
        ensures Lower(word[i]) == letters[i] as int <==> word[i] == letters[i] as int || word[i] == letters[i] as int - 32
      {
      }
    }
  }

  /**
   Three words count as keywords, in any case, and only where they stand alone: as a part of a longer
   word they do not.
   */
  lemma WordIsOneItem(s: Bytes, p: nat, end: nat, before: Before)
    requires p < end <= |s| && BeginsWord(s[p]) && forall i :: p < i < end ==> ContinuesWord(s[i])
    requires end < |s| ==> !ContinuesWord(s[end])
    ensures NextItem(s, p, before).token == Word(s[p..end]) && NextItem(s, p, before).end == end
    ensures IsKeywordToken(NextItem(s, p, before).token) <==>
              SameLetters(s[p..end], "limit") || SameLetters(s[p..end], "offset") || SameLetters(s[p..end], "fetch")
  {
    WordIsRead(s, p + 1, end);
    SpelledExactly(s[p..end], "limit");
    SpelledExactly(s[p..end], "offset");
    SpelledExactly(s[p..end], "fetch");
  }
}
