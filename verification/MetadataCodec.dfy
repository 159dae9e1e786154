/** The 80-byte recovery metadata that is authenticated with every sealed page. */
module MetadataCodec {
  import opened Wrappers
  import opened Cursors
  import opened BigEndian
  import opened CursorCodec

  const METADATA_FORMAT_VERSION: nat := 2
  const ENCODED_BYTES: nat := 80
  const FINGERPRINT_BYTES: nat := 32

  datatype Metadata = Metadata(
    rows: U64,
    truncated: bool,
    fingerprint: Bytes,
    candidate: Option<Cursor>,
    resume: Option<Cursor>)

  datatype MetadataError =
    | InvalidLength
    | UnsupportedVersion
    | UnsupportedFlags
    | NonCanonicalReservedByte
    | NonCanonicalAbsentCursor
    | InvalidCursor
    | InvalidSemantics
    | InvalidRequestFingerprint

  predicate AllZero(b: Bytes) {
    forall i :: 0 <= i < |b| ==> b[i] == 0
  }

  function Zeros(n: nat): (b: Bytes)
    ensures |b| == n && AllZero(b)
  {
    seq(n, _ => 0)
  }

  function ValidateMetadata(m: Metadata): Outcome<MetadataError> {
    if AllZero(m.fingerprint) then Fail(InvalidRequestFingerprint)
    else if m.rows == 0 then
      if m.truncated || m.candidate.Some? || m.resume.Some? then Fail(InvalidSemantics) else Pass
    else if m.candidate.None? || m.resume.None? then Fail(InvalidSemantics)
    else if PositionCmp(m.candidate.value, m.resume.value) == Less then Fail(InvalidSemantics)
    else Pass
  }

  /** A value that the constructor lets through. */
  predicate Constructible(m: Metadata) {
    |m.fingerprint| == FINGERPRINT_BYTES && ValidateMetadata(m).Pass?
  }

  // Bit 0: truncated; bit 1: candidate present; bit 2: resume present.
  function FlagsOf(m: Metadata): (flags: U8)
    ensures flags < 8
  {
    (if m.truncated then 1 else 0) + (if m.candidate.Some? then 2 else 0) + (if m.resume.Some? then 4 else 0)
  }

  predicate Flag(flags: U8, bit: nat)
    requires bit < 3
  {
    (flags / (if bit == 0 then 1 else if bit == 1 then 2 else 4)) % 2 == 1
  }

  function Slot(c: Option<Cursor>): (b: Bytes)
    ensures |b| == CURSOR_BYTES
  {
    if c.Some? then Canonical(c.value) else Zeros(CURSOR_BYTES)
  }

  function Head(m: Metadata): (b: Bytes)
    ensures |b| == 12
  {
    ToBytes(METADATA_FORMAT_VERSION, 2) + [FlagsOf(m), 0] + U64Bytes(m.rows)
  }

  /** The layout: version, flags, a reserved zero, rows, fingerprint, and two cursor slots. */
  function Encoded(m: Metadata): (b: Bytes)
    requires |m.fingerprint| == FINGERPRINT_BYTES
    ensures |b| == ENCODED_BYTES
  {
    Head(m) + m.fingerprint + Slot(m.candidate) + Slot(m.resume)
  }

  /** An absent cursor leaves its slot as the zeroed buffer has it. */
  method WriteSlot(a: array<U8>, at: nat, c: Option<Cursor>)
    requires at + CURSOR_BYTES <= a.Length
    requires forall i :: at <= i < at + CURSOR_BYTES ==> a[i] == 0
    modifies a
    ensures a[..] == Splice(old(a[..]), at, Slot(c))
  {
    if c.Some? {
      CopyInto(a, at, Canonical(c.value));
    } else {
      assert Splice(a[..], at, Zeros(CURSOR_BYTES)) == a[..];
    }
  }

  /** Fills the zeroed buffer field by field. */
  method Encode(m: Metadata) returns (a: array<U8>)
    requires |m.fingerprint| == FINGERPRINT_BYTES
    ensures fresh(a) && a[..] == Encoded(m)
  {
    a := new U8[ENCODED_BYTES](_ => 0);
    assert a[..] == Zeros(ENCODED_BYTES);
    CopyInto(a, 0, ToBytes(METADATA_FORMAT_VERSION, 2));
    var flags: U8 := if m.truncated then 1 else 0;
    if m.candidate.Some? {
      flags := flags + 2;
    }
    WriteSlot(a, 44, m.candidate);
    if m.resume.Some? {
      flags := flags + 4;
    }
    WriteSlot(a, 62, m.resume);
    CopyInto(a, 2, [flags]);
    CopyInto(a, 4, U64Bytes(m.rows));
    CopyInto(a, 12, m.fingerprint);
    LayoutIs(m);
  }

  function Written(m: Metadata): Bytes
    requires |m.fingerprint| == FINGERPRINT_BYTES
  {
    var version := Splice(Zeros(ENCODED_BYTES), 0, ToBytes(METADATA_FORMAT_VERSION, 2));
    var slots := Splice(Splice(version, 44, Slot(m.candidate)), 62, Slot(m.resume));
    Splice(Splice(Splice(slots, 2, [FlagsOf(m)]), 4, U64Bytes(m.rows)), 12, m.fingerprint)
  }

  lemma LayoutIs(m: Metadata)
    requires |m.fingerprint| == FINGERPRINT_BYTES
    ensures Written(m) == Encoded(m)
  {
    var version := Splice(Zeros(ENCODED_BYTES), 0, ToBytes(METADATA_FORMAT_VERSION, 2));
    var slots := Splice(Splice(version, 44, Slot(m.candidate)), 62, Slot(m.resume));
    var w := Written(m);
    JoinsParts(w);
    assert w[2] == FlagsOf(m);
    assert forall i :: i == 3 || 0 <= i < 2 || 44 <= i < 80 ==> w[i] == slots[i];
    assert slots[3] == 0 && slots[0] == version[0] && slots[1] == version[1];
    assert w[..2] == ToBytes(METADATA_FORMAT_VERSION, 2);
    assert w[4..12] == U64Bytes(m.rows);
    assert w[12..44] == m.fingerprint;
    assert w[44..62] == slots[44..62] == Slot(m.candidate);
    assert w[62..] == slots[62..] == Slot(m.resume);
  }

  lemma JoinsParts(b: Bytes)
    requires |b| == ENCODED_BYTES
    ensures b == b[..2] + [b[2], b[3]] + b[4..12] + b[12..44] + b[44..62] + b[62..]
  {
    assert b[..4] == b[..2] + [b[2], b[3]];
    assert b[..12] == b[..4] + b[4..12];
    assert b[..44] == b[..12] + b[12..44];
    assert b[..62] == b[..44] + b[44..62];
  }

  function DecodeSlot(b: Bytes, present: bool): Result<Option<Cursor>, MetadataError> {
    if !present then
      if AllZero(b) then Ok(None) else Err(NonCanonicalAbsentCursor)
    else match FromCanonical(b)
      case Ok(c) => Ok(Some(c))
      case Err(_) => Err(InvalidCursor)
  }

  function Decode(b: Bytes): Result<Metadata, MetadataError> {
    if |b| != ENCODED_BYTES then Err(InvalidLength)
    else if FromBytes(b[..2]) != METADATA_FORMAT_VERSION then Err(UnsupportedVersion)
    else if b[2] >= 8 then Err(UnsupportedFlags)
    else if b[3] != 0 then Err(NonCanonicalReservedByte)
    else
      var candidate := DecodeSlot(b[44..62], Flag(b[2], 1));
      if candidate.Err? then Err(candidate.error)
      else
        var resume := DecodeSlot(b[62..], Flag(b[2], 2));
        if resume.Err? then Err(resume.error)
        else
          var m := Metadata(U64From(b[4..12]), Flag(b[2], 0), b[12..44], candidate.value, resume.value);
          var valid := ValidateMetadata(m);
          if valid.Fail? then Err(valid.error) else Ok(m)
  }

  lemma SlotRoundTrip(c: Option<Cursor>)
    ensures DecodeSlot(Slot(c), c.Some?) == Ok(c)
  {
    if c.Some? {
      DecodesCanonical(c.value);
    }
  }

  lemma SlotIsCanonical(b: Bytes, present: bool)
    requires |b| == CURSOR_BYTES && DecodeSlot(b, present).Ok?
    ensures DecodeSlot(b, present).value.Some? == present
    ensures Slot(DecodeSlot(b, present).value) == b
  {
    if present {
      EncodesAccepted(b);
    }
  }

  lemma FlagsFromBits(m: Metadata, flags: U8)
    requires flags < 8 && m.truncated == Flag(flags, 0)
    requires m.candidate.Some? == Flag(flags, 1) && m.resume.Some? == Flag(flags, 2)
    ensures FlagsOf(m) == flags
  {
  }

  lemma FlagsRoundTrip(m: Metadata)
    ensures Flag(FlagsOf(m), 0) == m.truncated
    ensures Flag(FlagsOf(m), 1) == m.candidate.Some? && Flag(FlagsOf(m), 2) == m.resume.Some?
  {
  }

  lemma EncodedParts(m: Metadata)
    requires |m.fingerprint| == FINGERPRINT_BYTES
    ensures
      var b := Encoded(m);
      && b[..2] == ToBytes(METADATA_FORMAT_VERSION, 2) && b[2] == FlagsOf(m) && b[3] == 0
      && b[4..12] == U64Bytes(m.rows) && b[12..44] == m.fingerprint
      && b[44..62] == Slot(m.candidate) && b[62..] == Slot(m.resume)
  {
    var b := Encoded(m);
    assert b[..12] == Head(m);
    assert Head(m)[..2] == ToBytes(METADATA_FORMAT_VERSION, 2) && Head(m)[4..12] == U64Bytes(m.rows);
    assert b[..2] == b[..12][..2] && b[4..12] == b[..12][4..12];
  }

  /** Decoding what was encoded gives the value back, when the constructor would have made it. */
  lemma DecodeEncoded(m: Metadata)
    requires |m.fingerprint| == FINGERPRINT_BYTES
    ensures Decode(Encoded(m)) == if ValidateMetadata(m).Pass? then Ok(m) else Err(ValidateMetadata(m).error)
  {
    EncodedParts(m);
    Widths();
    FromToBytes(METADATA_FORMAT_VERSION, 2);
    FlagsRoundTrip(m);
    SlotRoundTrip(m.candidate);
    SlotRoundTrip(m.resume);
    U64RoundTrip(m.rows, U64Bytes(m.rows));
  }

  /** Only canonical byte strings are accepted: an accepted one is the encoding of its value. */
  lemma EncodedDecode(b: Bytes)
    requires Decode(b).Ok?
    ensures Constructible(Decode(b).value) && Encoded(Decode(b).value) == b
  {
    var m := Decode(b).value;
    SlotIsCanonical(b[44..62], Flag(b[2], 1));
    SlotIsCanonical(b[62..], Flag(b[2], 2));
    U64RoundTrip(0, b[4..12]);
    ToFromBytes(b[..2]);
    FlagsFromBits(m, b[2]);
    JoinsParts(b);
  }

  /** Accepted encodings are in bijection with constructible values. */
  lemma MetadataBijection(b: Bytes)
    ensures Decode(b).Ok? <==> exists m :: Constructible(m) && Encoded(m) == b
    ensures forall m, n :: Constructible(m) && Constructible(n) && Encoded(m) == Encoded(n) ==> m == n
  {
    if Decode(b).Ok? {
      EncodedDecode(b);
    }
    forall m | Constructible(m)
      ensures Decode(Encoded(m)) == Ok(m)
    {
      DecodeEncoded(m);
    }
  }

  /** Where each part stands: version, flags, reserved byte, rows, fingerprint, candidate and resume. */
  lemma EncodedLayout(m: Metadata, i: nat)
    requires |m.fingerprint| == 32 && i < 8
    ensures
      var b := Encoded(m);
      && |b| == 80 && b[0] == 0 && b[1] == 2 && b[3] == 0
      && b[2] == (if m.truncated then 1 else 0) + (if m.candidate.Some? then 2 else 0) + (if m.resume.Some? then 4 else 0)
      && b[4 + i] == m.rows / Pow256(7 - i) % 256
      && b[12..44] == m.fingerprint
      && (if m.candidate.Some? then b[44..62] == Canonical(m.candidate.value) else AllZero(b[44..62]))
      && (if m.resume.Some? then b[62..80] == Canonical(m.resume.value) else AllZero(b[62..80]))
  {
    var b := Encoded(m);
    EncodedParts(m);
    assert b[0] == b[..2][0] && b[1] == b[..2][1] && b[4 + i] == b[4..12][i];
    ByteAt(2, 2, 0);
    ByteAt(2, 2, 1);
    Widths();
    ByteAt(m.rows, 8, i);
    assert b[62..80] == b[62..];
  }

  /**
   What can be constructed: a fingerprint that is not all zero; without rows nothing else; with rows
   both cursors, the candidate not before the resume position.
   */
  lemma ConstructibleExactlyWhen(m: Metadata)
    ensures Constructible(m) <==>
      && |m.fingerprint| == 32 && (exists i :: 0 <= i < 32 && m.fingerprint[i] != 0)
      && (if m.rows == 0 then !m.truncated && m.candidate.None? && m.resume.None?
          else m.candidate.Some? && m.resume.Some? && AtMost(m.resume.value, m.candidate.value))
  {
    CursorOrderIsStrictTotal(
      if m.resume.Some? then m.resume.value else Cursor(0, 0),
      if m.candidate.Some? then m.candidate.value else Cursor(0, 0), Cursor(0, 0));
  }

  /** A string of the wrong form is refused for the first part that is wrong. */
  lemma DecodeRefuses(b: Bytes)
    ensures Decode(b) == Err(InvalidLength) <==> |b| != 80
    ensures |b| == 80 ==> (Decode(b) == Err(UnsupportedVersion) <==> !(b[0] == 0 && b[1] == 2))
    ensures |b| == 80 && b[0] == 0 && b[1] == 2 ==> (Decode(b) == Err(UnsupportedFlags) <==> b[2] >= 8)
    ensures |b| == 80 && b[0] == 0 && b[1] == 2 && b[2] < 8 ==> (Decode(b) == Err(NonCanonicalReservedByte) <==> b[3] != 0)
  {
    if |b| == 80 {
      VersionBytes(b[..2]);
    }
  }

  lemma VersionBytes(b: Bytes)
    requires |b| == 2
    ensures FromBytes(b) == METADATA_FORMAT_VERSION <==> b[0] == 0 && b[1] == 2
  {
    assert b[..1] == [b[0]] && FromBytes([b[0]]) == b[0];
  }
}
