/** The daemon's UUID printer and the strict parser of configured input ids. */
module Uuid {
  import opened Wrappers
  import opened Hex

  function UuidText(b: Bytes): (s: string)
    requires |b| == 16
    ensures |s| == 36
  {
    HexOf(b[0..4]) + "-" + HexOf(b[4..6]) + "-" + HexOf(b[6..8]) + "-" + HexOf(b[8..10]) + "-" + HexOf(b[10..16])
  }

  /** Version 4 and the variant bits over random bytes. */
  function Versioned(random: Bytes): (b: Bytes)
    requires |random| == 16
    ensures |b| == 16
  {
    random[6 := random[6] % 0x10 + 0x40][8 := random[8] % 0x40 + 0x80]
  }

  /**
   The high half of byte 6 is four and the top bits of byte 8 are one and zero; all the other bits are
   the random ones.
   */
  lemma VersionedBits(random: Bytes, i: nat)
    requires |random| == 16 && i < 16
    ensures Versioned(random)[6] / 0x10 == 4 && Versioned(random)[6] % 0x10 == random[6] % 0x10
    ensures Versioned(random)[8] / 0x40 == 2 && Versioned(random)[8] % 0x40 == random[8] % 0x40
    ensures i != 6 && i != 8 ==> Versioned(random)[i] == random[i]
  {
  }

  /** Masks the random bytes in place. */
  method GenerateUuidBytes(bytes: array<U8>)
    requires bytes.Length == 16
    modifies bytes
    ensures bytes[..] == Versioned(old(bytes[..]))
  {
    bytes[6] := bytes[6] % 0x10 + 0x40;
    bytes[8] := bytes[8] % 0x40 + 0x80;
  }

  method GenerateUuid(random: Bytes) returns (s: string)
    requires |random| == 16
    ensures s == UuidText(random)
  {
    var a := EncodeHex(random[0..4]);
    var b := EncodeHex(random[4..6]);
    var c := EncodeHex(random[6..8]);
    var d := EncodeHex(random[8..10]);
    var e := EncodeHex(random[10..16]);
    return a + "-" + b + "-" + c + "-" + d + "-" + e;
  }

  predicate IsHyphen(index: int) {
    index == 8 || index == 13 || index == 18 || index == 23
  }

  /** How many hyphens come before position `index`. */
  function HyphensBefore(index: nat): nat {
    (if index > 8 then 1 else 0) + (if index > 13 then 1 else 0)
    + (if index > 18 then 1 else 0) + (if index > 23 then 1 else 0)
  }

  /** Hex digits before position `index`. */
  function DigitsBefore(index: nat): int {
    index - HyphensBefore(index)
  }

  /** The nibble that the text of `b` shows as its `n`-th digit. */
  function NibbleAt(b: Bytes, n: nat): Nibble
    requires n < 2 * |b|
  {
    if n % 2 == 0 then b[n / 2] / 16 else b[n / 2] % 16
  }

  /** Position by position, the canonical text. */
  predicate Shows(s: string, b: Bytes, index: nat)
    requires index < 36 == |s| && |b| == 16
  {
    if IsHyphen(index) then s[index] == '-' else s[index] == Digit(NibbleAt(b, DigitsBefore(index)))
  }

  lemma HexShows(b: Bytes, n: nat)
    requires n < 2 * |b|
    ensures HexOf(b)[n] == Digit(NibbleAt(b, n))
  {
    HexAt(b, n / 2);
  }

  /** The five groups, each where the hyphens put it. */
  lemma TextParts(b: Bytes)
    requires |b| == 16
    ensures
      var s := UuidText(b);
      && s[0..8] == HexOf(b[0..4]) && s[9..13] == HexOf(b[4..6]) && s[14..18] == HexOf(b[6..8])
      && s[19..23] == HexOf(b[8..10]) && s[24..36] == HexOf(b[10..16])
      && s[8] == s[13] == s[18] == s[23] == '-'
  {
  }

  lemma GroupShows(s: string, b: Bytes, at: nat, upto: nat, first: nat, last: nat, index: nat)
    requires |s| == 36 && |b| == 16 && at <= index < upto <= 36 && first <= last <= 16
    requires upto - at == 2 * (last - first) && s[at..upto] == HexOf(b[first..last])
    ensures s[index] == Digit(NibbleAt(b, index - at + 2 * first))
  {
    HexShows(b[first..last], index - at);
    assert s[index] == s[at..upto][index - at];
  }

  lemma UuidTextShows(b: Bytes, index: nat)
    requires |b| == 16 && index < 36
    ensures Shows(UuidText(b), b, index)
  {
    var s := UuidText(b);
    TextParts(b);
    if index < 8 {
      GroupShows(s, b, 0, 8, 0, 4, index);
    } else if 8 < index < 13 {
      GroupShows(s, b, 9, 13, 4, 6, index);
    } else if 13 < index < 18 {
      GroupShows(s, b, 14, 18, 6, 8, index);
    } else if 18 < index < 23 {
      GroupShows(s, b, 19, 23, 8, 10, index);
    } else if 23 < index {
      GroupShows(s, b, 24, 36, 10, 16, index);
    }
  }

  /** The text is the only one that shows the bytes. */
  lemma ShowsIsText(s: string, b: Bytes)
    requires |s| == 36 && |b| == 16
    requires forall index :: 0 <= index < 36 ==> Shows(s, b, index)
    ensures s == UuidText(b)
  {
    forall index | 0 <= index < 36
      ensures s[index] == UuidText(b)[index]
    {
      UuidTextShows(b, index);
      assert Shows(s, b, index);
    }
  }

  predicate NonZero(b: Bytes) {
    exists i :: 0 <= i < |b| && b[i] != 0
  }

  /** Accepts exactly the canonical lowercase text of a non-zero value, and returns that value. */
  method ParseRisingInputId(value: string) returns (r: Option<Bytes>)
    ensures r.Some? <==> exists b :: |b| == 16 && NonZero(b) && UuidText(b) == value
    ensures r.Some? ==> |r.value| == 16 && NonZero(r.value) && UuidText(r.value) == value
  {
    if |value| != 36 {
      return None;
    }
    var bytes := new U8[16](_ => 0);
    var byteIndex := 0;
    var highNibble: Option<Nibble> := None;
    for index := 0 to 36
      invariant 0 <= byteIndex <= 16
      invariant DigitsBefore(index) == 2 * byteIndex + if highNibble.Some? then 1 else 0
      invariant ReadsUpTo(value, bytes[..], byteIndex, highNibble, index)
    {
      if IsHyphen(index) {
        if value[index] != '-' {
          RejectsAt(value, index);
          return None;
        }
      } else {
        var nibble := HexValue(value[index]);
        if nibble.None? {
          RejectsAt(value, index);
          return None;
        }
        DigitRoundTrip(nibble.value, value[index]);
        match highNibble {
          case Some(high) =>
            ghost var before := bytes[..];
            bytes[byteIndex] := high * 16 + nibble.value;
            ReadsLow(value, before, byteIndex, high, index);
            byteIndex := byteIndex + 1;
            highNibble := None;
          case None =>
            ReadsHigh(value, bytes[..], byteIndex, index);
            highNibble := nibble;
        }
      }
    }
    assert forall k :: 0 <= k < 36 ==> Shows(value, bytes[..], k) by {
      forall k | 0 <= k < 36
        ensures Shows(value, bytes[..], k)
      {
        assert Reads(value, bytes[..], byteIndex, highNibble, k);
      }
    }
    ShowsIsText(value, bytes[..]);
    if forall i :: 0 <= i < 16 ==> bytes[i] == 0 {
      ZeroIsRejected(value, bytes[..]);
      return None;
    }
    return Some(bytes[..]);
  }

  /** Position `k` was read: its digit is in a finished byte, or is the pending high nibble. */
  predicate Reads(s: string, bytes: Bytes, byteIndex: nat, high: Option<Nibble>, k: nat)
    requires k < 36 == |s| && |bytes| == 16 && byteIndex <= 16
  {
    if IsHyphen(k) then s[k] == '-'
    else if DigitsBefore(k) < 2 * byteIndex then s[k] == Digit(NibbleAt(bytes, DigitsBefore(k)))
    else DigitsBefore(k) == 2 * byteIndex && high.Some? && s[k] == Digit(high.value)
  }

  predicate ReadsUpTo(s: string, bytes: Bytes, byteIndex: nat, high: Option<Nibble>, index: nat)
    requires index <= 36 == |s| && |bytes| == 16 && byteIndex <= 16
  {
    forall k :: 0 <= k < index ==> Reads(s, bytes, byteIndex, high, k)
  }

  /** The second digit of a byte finishes it. */
  lemma ReadsLow(s: string, before: Bytes, byteIndex: nat, high: Nibble, index: nat)
    requires |s| == 36 && index < 36 && !IsHyphen(index) && |before| == 16 && byteIndex < 16
    requires DigitsBefore(index) == 2 * byteIndex + 1
    requires ReadsUpTo(s, before, byteIndex, Some(high), index) && HexValue(s[index]).Some?
    ensures ReadsUpTo(s, before[byteIndex := high * 16 + HexValue(s[index]).value], byteIndex + 1, None, index + 1)
  {
    var after, more := before[byteIndex := high * 16 + HexValue(s[index]).value], index + 1;
    var next := byteIndex + 1;
    DigitRoundTrip(0, s[index]);
    forall k | 0 <= k < more
      ensures Reads(s, after, next, None, k)
    {
      if k < index {
        assert Reads(s, before, byteIndex, Some(high), k);
      }
    }
  }

  /** The first digit of a byte is kept until the second. */
  lemma ReadsHigh(s: string, bytes: Bytes, byteIndex: nat, index: nat)
    requires |s| == 36 && index < 36 && !IsHyphen(index) && |bytes| == 16 && byteIndex < 16
    requires DigitsBefore(index) == 2 * byteIndex
    requires ReadsUpTo(s, bytes, byteIndex, None, index) && HexValue(s[index]).Some?
    ensures ReadsUpTo(s, bytes, byteIndex, HexValue(s[index]), index + 1)
  {
    DigitRoundTrip(0, s[index]);
    var more := index + 1;
    forall k | 0 <= k < more
      ensures Reads(s, bytes, byteIndex, HexValue(s[index]), k)
    {
      if k < index {
        assert Reads(s, bytes, byteIndex, None, k);
      }
    }
  }

  lemma RejectsAt(value: string, index: nat)
    requires |value| == 36 && index < 36
    requires if IsHyphen(index) then value[index] != '-' else HexValue(value[index]).None?
    ensures forall b :: |b| == 16 ==> UuidText(b) != value
  {
    forall b: Bytes | |b| == 16
      ensures UuidText(b) != value
    {
      UuidTextShows(b, index);
      if !IsHyphen(index) {
        DigitRoundTrip(NibbleAt(b, DigitsBefore(index)), 'a');
      }
    }
  }

  lemma TextIsInjective(a: Bytes, b: Bytes)
    requires |a| == |b| == 16 && UuidText(a) == UuidText(b)
    ensures a == b
  {
    TextParts(a);
    TextParts(b);
    HexIsInjective(a[10..16], b[10..16]);
    HexIsInjective(a[0..4], b[0..4]);
    HexIsInjective(a[4..6], b[4..6]);
    HexIsInjective(a[6..8], b[6..8]);
    HexIsInjective(a[8..10], b[8..10]);
    assert a == a[0..4] + a[4..6] + a[6..8] + a[8..10] + a[10..16];
    assert b == b[0..4] + b[4..6] + b[6..8] + b[8..10] + b[10..16];
  }

  lemma ZeroIsRejected(value: string, zeros: Bytes)
    requires |zeros| == 16 && !NonZero(zeros) && UuidText(zeros) == value
    ensures forall b :: |b| == 16 && NonZero(b) ==> UuidText(b) != value
  {
    forall b: Bytes | |b| == 16 && NonZero(b)
      ensures UuidText(b) != value
    {
      if UuidText(b) == value {
        TextIsInjective(b, zeros);
      }
    }
  }

  /** The parser inverts the printer on every value the printer is given but zero. */
  method PrintThenParse(b: Bytes) returns (r: Option<Bytes>)
    requires |b| == 16
    ensures r == if NonZero(b) then Some(b) else None
  {
    var s := GenerateUuid(b);
    r := ParseRisingInputId(s);
    if r.Some? {
      TextIsInjective(r.value, b);
    }
  }

  /** Whatever the random bytes, the parser accepts a generated id and reads its bytes back. */
  method GenerateThenParse(random: array<U8>) returns (r: Option<Bytes>)
    requires random.Length == 16
    modifies random
    ensures r == Some(Versioned(old(random[..]))) && random[..] == r.value
  {
    GenerateUuidBytes(random);
    assert random[..][6] != 0;
    r := PrintThenParse(random[..]);
  }
}
