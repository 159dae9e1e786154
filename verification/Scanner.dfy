/**
 The pagination check as it runs: one position moves over the bytes, comments keep a depth, and an
 escape prefix is found by looking back.
 */
module Scanner {
  import opened Wrappers
  import opened Lexer

  function At(bytes: Bytes, i: int): Option<U8> {
    if 0 <= i < |bytes| then Some(bytes[i]) else None
  }

  // ---- helpers that skip one item -------------------------------------------------------------

  /** No identifier character stands right before position `i`. */
  predicate NotContinuing(bytes: Bytes, i: int) {
    i <= 0 || i > |bytes| || !IsIdentifierContinue(bytes[i - 1])
  }

  predicate HasEscapeStringPrefix(bytes: Bytes, quote: nat)
    requires quote <= |bytes|
  {
    || (quote >= 1 && IsE(bytes[quote - 1]) && NotContinuing(bytes, quote - 1))
    || (quote >= 2 && bytes[quote - 1] == AMPERSAND && IsU(bytes[quote - 2]) && NotContinuing(bytes, quote - 2))
  }

  method SkipSingleQuoted(bytes: Bytes, start: nat) returns (position: nat)
    requires start < |bytes|
    ensures position == SingleQuoted(bytes, start + 1, HasEscapeStringPrefix(bytes, start))
  {
    var escapes := HasEscapeStringPrefix(bytes, start);
    position := start + 1;
    while position < |bytes|
      invariant start + 1 <= position <= |bytes|
      invariant SingleQuoted(bytes, position, escapes) == SingleQuoted(bytes, start + 1, escapes)
    {
      if bytes[position] == QUOTE {
        if At(bytes, position + 1) == Some(QUOTE) {
          position := position + 2;
        } else {
          return position + 1;
        }
      } else if escapes && bytes[position] == BACKSLASH {
        position := if position + 2 <= |bytes| then position + 2 else |bytes|;
      } else {
        position := position + 1;
      }
    }
  }

  method SkipDoubledQuote(bytes: Bytes, start: nat, quote: U8) returns (position: nat)
    requires start < |bytes|
    ensures position == DoubleQuoted(bytes, start + 1, quote)
  {
    position := start + 1;
    while position < |bytes|
      invariant start + 1 <= position <= |bytes|
      invariant DoubleQuoted(bytes, position, quote) == DoubleQuoted(bytes, start + 1, quote)
    {
      if bytes[position] == quote {
        if At(bytes, position + 1) == Some(quote) {
          position := position + 2;
        } else {
          return position + 1;
        }
      } else {
        position := position + 1;
      }
    }
  }

  method SkipLineComment(bytes: Bytes, start: nat) returns (position: nat)
    requires start <= |bytes|
    ensures position == LineComment(bytes, start)
  {
    position := start;
    while position < |bytes| && !IsNewline(bytes[position])
      invariant start <= position <= |bytes|
      invariant LineComment(bytes, position) == LineComment(bytes, start)
    {
      position := position + 1;
    }
    if position < |bytes| {
      position := position + 1;
    }
  }

  /** The end of the outermost of `depth` open comments. */
  function Nested(s: Bytes, p: nat, depth: nat): (end: nat)
    requires p <= |s|
    decreases depth
  {
    if depth == 0 then p else Nested(s, Comment(s, p), depth - 1)
  }

  lemma {:induction false} NestedAtEnd(s: Bytes, depth: nat)
    ensures Nested(s, |s|, depth) == |s|
  {
    if depth > 0 {
      NestedAtEnd(s, depth - 1);
    }
  }

  /** An opening mark goes one level down, a closing one up, any other byte stays. */
  lemma NestedStep(s: Bytes, p: nat, depth: nat)
    requires p < |s| && depth > 0
    ensures Nested(s, p, depth) ==
            if Pair(s, p, SLASH, STAR) then Nested(s, p + 2, depth + 1)
            else if Pair(s, p, STAR, SLASH) then Nested(s, p + 2, depth - 1)
            else Nested(s, p + 1, depth)
  {
    if Pair(s, p, SLASH, STAR) {
      assert Nested(s, p + 2, depth + 1) == Nested(s, Comment(s, p + 2), depth);
    }
  }

  method SkipBlockComment(bytes: Bytes, start: nat) returns (position: nat)
    requires start <= |bytes|
    ensures position == Comment(bytes, start)
  {
    var depth: nat := 1;
    position := start;
    ghost var end := Comment(bytes, start);
    while position < |bytes|
      invariant start <= position <= |bytes| && depth > 0
      invariant Nested(bytes, position, depth) == end
    {
      NestedStep(bytes, position, depth);
      if bytes[position] == SLASH && At(bytes, position + 1) == Some(STAR) {
        depth := depth + 1;
        position := position + 2;
      } else if bytes[position] == STAR && At(bytes, position + 1) == Some(SLASH) {
        depth := depth - 1;
        position := position + 2;
        if depth == 0 {
          return position;
        }
      } else {
        position := position + 1;
      }
    }
    NestedAtEnd(bytes, depth);
  }

  method DollarQuoteDelimiterEnd(bytes: Bytes, start: nat) returns (end: Option<nat>)
    requires start < |bytes|
    ensures end == Delimiter(bytes, start)
  {
    if start + 1 == |bytes| {
      return None;
    }
    if bytes[start + 1] == DOLLAR {
      return Some(start + 2);
    }
    if !IsIdentifierStart(bytes[start + 1]) {
      return None;
    }
    var position := start + 2;
    while position < |bytes| && IsTagContinue(bytes[position])
      invariant start + 2 <= position <= |bytes|
      invariant TagRun(bytes, position) == TagRun(bytes, start + 2)
    {
      position := position + 1;
    }
    if At(bytes, position) == Some(DOLLAR) {
      return Some(position + 1);
    }
    return None;
  }

  /** Where no window of the delimiter's width is left, the body runs to the end. */
  lemma {:induction false} NoWindowLeft(s: Bytes, p: nat, delimiter: Bytes)
    requires p <= |s| && p + |delimiter| > |s|
    ensures DollarBody(s, p, delimiter) == |s|
    decreases |s| - p
  {
    if p < |s| {
      NoWindowLeft(s, p + 1, delimiter);
    }
  }

  method SkipDollarQuoted(bytes: Bytes, start: nat, delimiterEnd: nat) returns (position: nat)
    requires start < delimiterEnd <= |bytes|
    ensures position == DollarBody(bytes, delimiterEnd, bytes[start..delimiterEnd])
  {
    var delimiter := bytes[start..delimiterEnd];
    position := delimiterEnd;
    while position + |delimiter| <= |bytes|
      invariant delimiterEnd <= position <= |bytes|
      invariant DollarBody(bytes, position, delimiter) == DollarBody(bytes, delimiterEnd, delimiter)
    {
      if bytes[position..position + |delimiter|] == delimiter {
        return position + |delimiter|;
      }
      position := position + 1;
    }
    NoWindowLeft(bytes, position, delimiter);
    return |bytes|;
  }

  method SkipWord(bytes: Bytes, start: nat) returns (position: nat)
    requires start < |bytes|
    ensures position == WordEnd(bytes, start + 1)
  {
    position := start + 1;
    while position < |bytes| && IsIdentifierContinue(bytes[position])
      invariant start + 1 <= position <= |bytes|
      invariant WordEnd(bytes, position) == WordEnd(bytes, start + 1)
    {
      position := position + 1;
    }
  }

  // ---- looking back agrees with reading forwards ----------------------------------------------

  /** What the bytes before `position` say, as the scanner looks back at them. */
  predicate LooksBack(bytes: Bytes, position: nat, before: Before)
    requires position <= |bytes|
  {
    && (Touches(before) <==> !NotContinuing(bytes, position))
    && (before.EscapeWord? <==> position >= 1 && IsE(bytes[position - 1]) && NotContinuing(bytes, position - 1))
    && (before.UnicodeWord? <==> position >= 1 && IsU(bytes[position - 1]) && NotContinuing(bytes, position - 1))
    && (before.UnicodeMark? <==>
          position >= 2 && bytes[position - 1] == AMPERSAND
          && IsU(bytes[position - 2]) && NotContinuing(bytes, position - 2))
  }

  /** The escape prefix found by looking back is the one the items before it announce. */
  lemma PrefixAgrees(bytes: Bytes, position: nat, before: Before)
    requires position <= |bytes| && LooksBack(bytes, position, before)
    ensures HasEscapeStringPrefix(bytes, position) <==> before.EscapeWord? || before.UnicodeMark?
  {
  }

  lemma LooksBackAfterWord(bytes: Bytes, position: nat, before: Before)
    requires position < |bytes| && LooksBack(bytes, position, before) && IsIdentifierStart(bytes[position])
    ensures
      var end := WordEnd(bytes, position + 1);
      LooksBack(bytes, end, AfterWord(bytes[position..end], before))
  {
    var end := WordEnd(bytes, position + 1);
    assert bytes[position..end][0] == bytes[position];
  }

  /** A literal or comment that does not end the text ends in a byte no prefix can use. */
  lemma LooksBackAfterMarked(bytes: Bytes, position: nat, end: nat, after: Before)
    requires position + 1 < end <= |bytes|
    requires
      var last := bytes[end - 1];
      && (last == QUOTE || last == DOUBLE_QUOTE || last == SLASH || last == DOLLAR || IsNewline(last))
      && after == if last == DOLLAR then Glued else Apart
    ensures LooksBack(bytes, end, after)
  {
  }

  lemma LooksBackAfter(bytes: Bytes, position: nat, before: Before)
    requires position < |bytes| && LooksBack(bytes, position, before)
    ensures
      var item := NextItem(bytes, position, before);
      item.end < |bytes| ==> LooksBack(bytes, item.end, item.after)
  {
    var item := NextItem(bytes, position, before);
    if item.end < |bytes| {
      if item.token.Word? {
        LooksBackAfterWord(bytes, position, before);
      } else if !item.token.Other? {
        MarkedEnd(bytes, position, before);
        LooksBackAfterMarked(bytes, position, item.end, item.after);
      }
    }
  }

  lemma MarkedEnd(bytes: Bytes, position: nat, before: Before)
    requires position < |bytes|
    requires var item := NextItem(bytes, position, before); item.end < |bytes| && (item.token.Literal? || item.token.Blank?)
    ensures
      var item := NextItem(bytes, position, before);
      && position + 1 < item.end
      && var last := bytes[item.end - 1];
      && (last == QUOTE || last == DOUBLE_QUOTE || last == SLASH || last == DOLLAR || IsNewline(last))
      && item.after == if last == DOLLAR then Glued else Apart
  {
    if bytes[position] == QUOTE {
      SingleQuotedEnds(bytes, position + 1, before.EscapeWord? || before.UnicodeMark?);
    } else if bytes[position] == DOUBLE_QUOTE {
      DoubleQuotedEnds(bytes, position + 1, DOUBLE_QUOTE);
    } else if Pair(bytes, position, DASH, DASH) {
      LineCommentEnds(bytes, position + 2);
    } else if Pair(bytes, position, SLASH, STAR) {
      CommentEnds(bytes, position + 2);
    } else {
      var end := Delimiter(bytes, position).value;
      DollarBodyEnds(bytes, end, bytes[position..end]);
    }
  }

  // ---- the scanner ----------------------------------------------------------------------------

  /** One item: the scanner moves as far as the grammar says. */
  method SkipItem(bytes: Bytes, position: nat, ghost before: Before) returns (next: nat, found: bool)
    requires position < |bytes| && LooksBack(bytes, position, before)
    ensures next == NextItem(bytes, position, before).end
    ensures found <==> IsKeywordToken(NextItem(bytes, position, before).token)
  {
    found := false;
    if bytes[position] == QUOTE {
      PrefixAgrees(bytes, position, before);
      next := SkipSingleQuoted(bytes, position);
    } else if bytes[position] == DOUBLE_QUOTE {
      next := SkipDoubledQuote(bytes, position, DOUBLE_QUOTE);
    } else if bytes[position] == DASH && At(bytes, position + 1) == Some(DASH) {
      next := SkipLineComment(bytes, position + 2);
    } else if bytes[position] == SLASH && At(bytes, position + 1) == Some(STAR) {
      next := SkipBlockComment(bytes, position + 2);
    } else if bytes[position] == DOLLAR {
      var end := DollarQuoteDelimiterEnd(bytes, position);
      match end {
        case Some(delimiterEnd) => next := SkipDollarQuoted(bytes, position, delimiterEnd);
        case None => next := position + 1;
      }
    } else if IsIdentifierStart(bytes[position]) {
      next := SkipWord(bytes, position);
      found := IsPaginationKeyword(bytes[position..next]);
    } else {
      next := position + 1;
    }
  }

  /** Terminates, stays in bounds, and answers exactly what the grammar says. */
  method ContainsPaginationKeyword(bytes: Bytes) returns (found: bool)
    ensures found <==> HasKeyword(Tokens(bytes, 0, Apart))
  {
    var position := 0;
    ghost var before := Apart;
    while position < |bytes|
      invariant 0 <= position <= |bytes|
      invariant position < |bytes| ==> LooksBack(bytes, position, before)
      invariant HasKeyword(Tokens(bytes, 0, Apart)) <==> HasKeyword(Tokens(bytes, position, before))
    {
      ghost var item := NextItem(bytes, position, before);
      TokensStep(bytes, position, before);
      LooksBackAfter(bytes, position, before);
      var next, keyword := SkipItem(bytes, position, before);
      if keyword {
        return true;
      }
      before := item.after;
      position := next;
    }
    return false;
  }
}
