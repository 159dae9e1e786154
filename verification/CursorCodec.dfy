/** The 18-byte canonical form of a cursor. */
module CursorCodec {
  import opened Wrappers
  import opened Cursors
  import opened BigEndian

  const CURSOR_FORMAT_VERSION: nat := 1
  const CURSOR_BYTES: nat := 18

  datatype CursorCodecError = InvalidCanonicalLength | UnsupportedFormatVersion

  function Canonical(c: Cursor): (b: Bytes)
    ensures |b| == CURSOR_BYTES
  {
    ToBytes(CURSOR_FORMAT_VERSION, 2) + I64Bytes(c.ts) + I64Bytes(c.id)
  }

  method ToCanonicalBytes(c: Cursor) returns (a: array<U8>)
    ensures fresh(a) && a[..] == Canonical(c)
  {
    a := new U8[CURSOR_BYTES](_ => 0);
    CopyInto(a, 0, ToBytes(CURSOR_FORMAT_VERSION, 2));
    CopyInto(a, 2, I64Bytes(c.ts));
    CopyInto(a, 10, I64Bytes(c.id));
  }

  function FromCanonical(b: Bytes): Result<Cursor, CursorCodecError> {
    if |b| != CURSOR_BYTES then Err(InvalidCanonicalLength)
    else if FromBytes(b[..2]) != CURSOR_FORMAT_VERSION then Err(UnsupportedFormatVersion)
    else Ok(Cursor(I64From(b[2..10]), I64From(b[10..])))
  }

  /** Every cursor survives the round trip, and only canonical forms are accepted. */
  lemma CursorRoundTrip(c: Cursor, b: Bytes)
    ensures FromCanonical(Canonical(c)) == Ok(c)
    ensures FromCanonical(b).Ok? <==> exists d :: b == Canonical(d)
    ensures FromCanonical(b).Ok? ==> Canonical(FromCanonical(b).value) == b
  {
    DecodesCanonical(c);
    if FromCanonical(b).Ok? {
      EncodesAccepted(b);
    } else if d :| b == Canonical(d) {
      DecodesCanonical(d);
      assert false;
    }
  }

  lemma DecodesCanonical(c: Cursor)
    ensures FromCanonical(Canonical(c)) == Ok(c)
  {
    var b := Canonical(c);
    assert b[..2] == ToBytes(CURSOR_FORMAT_VERSION, 2);
    assert b[2..10] == I64Bytes(c.ts);
    assert b[10..] == I64Bytes(c.id);
    Widths();
    FromToBytes(CURSOR_FORMAT_VERSION, 2);
    I64RoundTrip(c.ts, b[2..10]);
    I64RoundTrip(c.id, b[10..]);
  }

  lemma EncodesAccepted(b: Bytes)
    requires FromCanonical(b).Ok?
    ensures Canonical(FromCanonical(b).value) == b
  {
    ToFromBytes(b[..2]);
    I64RoundTrip(0, b[2..10]);
    I64RoundTrip(0, b[10..]);
    assert b == b[..2] + b[2..10] + b[10..];
  }

  lemma CanonicalIsInjective(c: Cursor, d: Cursor)
    ensures Canonical(c) == Canonical(d) ==> c == d
  {
    DecodesCanonical(c);
    DecodesCanonical(d);
  }

  /** Bytes 0 and 1 hold the version, one; 2 to 9 the timestamp and 10 to 17 the id, each from its highest byte down. */
  lemma CanonicalLayout(c: Cursor, i: nat)
    requires i < 8
    ensures |Canonical(c)| == 18 && Canonical(c)[0] == 0 && Canonical(c)[1] == 1
    ensures Canonical(c)[2 + i] == (if c.ts < 0 then c.ts + 0x1_0000_0000_0000_0000 else c.ts) / Pow256(7 - i) % 256
    ensures Canonical(c)[10 + i] == (if c.id < 0 then c.id + 0x1_0000_0000_0000_0000 else c.id) / Pow256(7 - i) % 256
  {
    ByteAt(1, 2, 0);
    ByteAt(1, 2, 1);
    Widths();
    SignedBytes(c.ts);
    SignedBytes(c.id);
    ByteAt(if c.ts < 0 then c.ts + 0x1_0000_0000_0000_0000 else c.ts, 8, i);
    ByteAt(if c.id < 0 then c.id + 0x1_0000_0000_0000_0000 else c.id, 8, i);
  }

  /** A string is refused for its length first, then for its version. */
  lemma RefusesExactlyWhen(b: Bytes)
    ensures FromCanonical(b) == Err(InvalidCanonicalLength) <==> |b| != 18
    ensures FromCanonical(b) == Err(UnsupportedFormatVersion) <==> |b| == 18 && !(b[0] == 0 && b[1] == 1)
  {
    if |b| == 18 {
      assert b[..2][..1] == [b[0]] && FromBytes([b[0]]) == b[0];
    }
  }
}
