/** The preimages of request fingerprints and of event ids, hashed without field tags. */
module Preimages {
  import opened Wrappers
  import opened Cursors
  import opened BigEndian
  import opened CursorCodec
  import opened Domains

  // ---- the request fingerprint ----------------------------------------------------------------

  /** A presence byte, then the canonical cursor when there is one. */
  function OptionalCursor(c: Option<Cursor>): Bytes {
    if c.Some? then [1] + Canonical(c.value) else [0]
  }

  function RequestPreimage(cursorIdentity: Bytes, committed: Option<Cursor>, resumeAfter: Option<Cursor>): Bytes {
    Prefix(RisingRequest) + (cursorIdentity + (OptionalCursor(committed) + OptionalCursor(resumeAfter)))
  }

  /** The presence byte makes an optional cursor readable whatever follows it. */
  lemma OptionalCursorIsReadable(c: Option<Cursor>, d: Option<Cursor>, x: Bytes, y: Bytes)
    requires OptionalCursor(c) + x == OptionalCursor(d) + y
    ensures c == d && x == y
  {
    var whole := OptionalCursor(c) + x;
    assert whole[0] == OptionalCursor(c)[0] == OptionalCursor(d)[0];
    var n := |OptionalCursor(c)|;
    assert OptionalCursor(c) == whole[..n] == OptionalCursor(d);
    assert x == whole[n..] == y;
    if c.Some? {
      assert OptionalCursor(c)[1..] == Canonical(c.value);
      assert OptionalCursor(d)[1..] == Canonical(d.value);
      CanonicalIsInjective(c.value, d.value);
    }
  }

  lemma RequestPreimageIsInjective(
      i: Bytes, committed: Option<Cursor>, resume: Option<Cursor>,
      j: Bytes, committed': Option<Cursor>, resume': Option<Cursor>)
    requires |i| == |j| == 32
    requires RequestPreimage(i, committed, resume) == RequestPreimage(j, committed', resume')
    ensures i == j && committed == committed' && resume == resume'
  {
    var x, y := OptionalCursor(committed) + OptionalCursor(resume), OptionalCursor(committed') + OptionalCursor(resume');
    DomainsSeparate(RisingRequest, RisingRequest, i + x, j + y);
    SameLengthSplits(i, j, x, y);
    OptionalCursorsAreReadable(committed, resume, committed', resume');
  }

  lemma OptionalCursorsAreReadable(
      committed: Option<Cursor>, resume: Option<Cursor>, committed': Option<Cursor>, resume': Option<Cursor>)
    requires OptionalCursor(committed) + OptionalCursor(resume) == OptionalCursor(committed') + OptionalCursor(resume')
    ensures committed == committed' && resume == resume'
  {
    OptionalCursorIsReadable(committed, committed', OptionalCursor(resume), OptionalCursor(resume'));
    assert OptionalCursor(resume) + [] == OptionalCursor(resume') + [];
    OptionalCursorIsReadable(resume, resume', [], []);
  }

  // ---- event ids ------------------------------------------------------------------------------

  /** What a rising event id depends on besides the row. */
  datatype EventKeys = EventKeys(input: Bytes, lineage: Bytes, cursorIdentity: Bytes)

  predicate Sized(keys: EventKeys) {
    |keys.input| == 32 && |keys.lineage| == 32 && |keys.cursorIdentity| == 32
  }

  function RisingEventContent(keys: EventKeys, c: Cursor): Bytes {
    keys.input + keys.lineage + keys.cursorIdentity + Canonical(c)
  }

  function RisingEventPreimage(keys: EventKeys, c: Cursor): Bytes {
    Prefix(RisingEvent) + RisingEventContent(keys, c)
  }

  function BatchEventContent(input: Bytes, batch: Bytes, ordinal: U64): Bytes {
    input + batch + U64Bytes(ordinal)
  }

  function BatchEventPreimage(input: Bytes, batch: Bytes, ordinal: U64): Bytes {
    Prefix(BatchEvent) + BatchEventContent(input, batch, ordinal)
  }

  /** Rising events share an id only when input, lineage, cursor identity and row cursor agree. */
  lemma RisingEventIsInjective(k: EventKeys, c: Cursor, l: EventKeys, d: Cursor)
    requires Sized(k) && Sized(l)
    requires RisingEventPreimage(k, c) == RisingEventPreimage(l, d)
    ensures k == l && c == d
  {
    var x, y := RisingEventContent(k, c), RisingEventContent(l, d);
    DomainsSeparate(RisingEvent, RisingEvent, x, y);
    assert k.input == x[..32] == y[..32] == l.input;
    assert k.lineage == x[32..64] == y[32..64] == l.lineage;
    assert k.cursorIdentity == x[64..96] == y[64..96] == l.cursorIdentity;
    assert Canonical(c) == x[96..] == y[96..] == Canonical(d);
    CanonicalIsInjective(c, d);
  }

  lemma BatchEventIsInjective(i: Bytes, b: Bytes, m: U64, j: Bytes, b': Bytes, n: U64)
    requires |i| == |j| == 32 && |b| == |b'| == 16
    requires BatchEventPreimage(i, b, m) == BatchEventPreimage(j, b', n)
    ensures i == j && b == b' && m == n
  {
    var x, y := BatchEventContent(i, b, m), BatchEventContent(j, b', n);
    DomainsSeparate(BatchEvent, BatchEvent, x, y);
    assert i == x[..32] == y[..32] == j;
    assert b == x[32..48] == y[32..48] == b';
    assert U64Bytes(m) == x[48..] == y[48..] == U64Bytes(n);
    Widths();
    BytesAreInjective(m, n, 8);
  }

  lemma EventKindsNeverMeet(k: EventKeys, c: Cursor, i: Bytes, b: Bytes, n: U64)
    ensures RisingEventPreimage(k, c) != BatchEventPreimage(i, b, n)
  {
    if RisingEventPreimage(k, c) == BatchEventPreimage(i, b, n) {
      DomainsSeparate(RisingEvent, BatchEvent, RisingEventContent(k, c), BatchEventContent(i, b, n));
    }
  }

  // ---- what stands where ----------------------------------------------------------------------

  /** The cursor identity, then the committed cursor and then the resume position, each behind a presence byte. */
  lemma RequestLayout(identity: Bytes, committed: Option<Cursor>, resume: Option<Cursor>)
    ensures RequestPreimage(identity, committed, resume) ==
      Prefix(RisingRequest) + identity
      + (if committed.Some? then [1] + Canonical(committed.value) else [0])
      + (if resume.Some? then [1] + Canonical(resume.value) else [0])
  {
    ConcatIsAssociative(Prefix(RisingRequest) + identity, OptionalCursor(committed), OptionalCursor(resume));
    ConcatIsAssociative(Prefix(RisingRequest), identity, OptionalCursor(committed) + OptionalCursor(resume));
  }

  /** Input, lineage, cursor identity and the row's cursor. */
  lemma RisingEventLayout(keys: EventKeys, c: Cursor)
    requires Sized(keys)
    ensures
      var b, at := RisingEventPreimage(keys, c), |Prefix(RisingEvent)|;
      && |b| == at + 114 && b[..at] == Prefix(RisingEvent)
      && b[at..at + 32] == keys.input && b[at + 32..at + 64] == keys.lineage
      && b[at + 64..at + 96] == keys.cursorIdentity && b[at + 96..] == Canonical(c)
  {
  }

  /** Input, batch and ordinal. */
  lemma BatchEventLayout(input: Bytes, batch: Bytes, ordinal: U64)
    requires |input| == 32 && |batch| == 16
    ensures
      var b, at := BatchEventPreimage(input, batch, ordinal), |Prefix(BatchEvent)|;
      && |b| == at + 56 && b[..at] == Prefix(BatchEvent)
      && b[at..at + 32] == input && b[at + 32..at + 48] == batch && b[at + 48..] == U64Bytes(ordinal)
  {
  }
}
