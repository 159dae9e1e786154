/** Lowercase hexadecimal, as the spool and the daemon write and read it. */
module Hex {
  import opened Wrappers

  type Nibble = x: int | 0 <= x < 16

  function Digit(n: Nibble): char {
    if n < 10 then '0' + n as char else 'a' + (n - 10) as char
  }

  predicate IsLowerHex(c: char) {
    '0' <= c <= '9' || 'a' <= c <= 'f'
  }

  function HexValue(c: char): Option<Nibble> {
    if '0' <= c <= '9' then Some(c as int - '0' as int)
    else if 'a' <= c <= 'f' then Some(c as int - 'a' as int + 10)
    else None
  }

  predicate AllLowerHex(s: string) {
    forall i :: 0 <= i < |s| ==> IsLowerHex(s[i])
  }

  function Combine(high: Nibble, low: Nibble): U8 {
    high * 16 + low
  }

  lemma DigitRoundTrip(n: Nibble, c: char)
    ensures HexValue(Digit(n)) == Some(n) && IsLowerHex(Digit(n))
    ensures IsLowerHex(c) <==> HexValue(c).Some?
    ensures IsLowerHex(c) ==> Digit(HexValue(c).value) == c
  {
  }

  function ByteText(b: U8): string {
    [Digit(b / 16), Digit(b % 16)]
  }

  /** Two digits a byte, the high one first. */
  function HexOf(bytes: Bytes): (s: string)
    ensures |s| == 2 * |bytes|
  {
    if bytes == [] then [] else HexOf(bytes[..|bytes| - 1]) + ByteText(bytes[|bytes| - 1])
  }

  method EncodeHex(bytes: Bytes) returns (encoded: string)
    ensures encoded == HexOf(bytes)
  {
    encoded := [];
    for i := 0 to |bytes|
      invariant encoded == HexOf(bytes[..i])
    {
      encoded := encoded + [Digit(bytes[i] / 16)];
      encoded := encoded + [Digit(bytes[i] % 16)];
      assert bytes[..i + 1][..i] == bytes[..i];
    }
    assert bytes[..|bytes|] == bytes;
  }

  lemma {:induction false} HexAt(bytes: Bytes, i: nat)
    requires i < |bytes|
    ensures HexOf(bytes)[2 * i] == Digit(bytes[i] / 16) && HexOf(bytes)[2 * i + 1] == Digit(bytes[i] % 16)
  {
    var n := |bytes| - 1;
    if i < n {
      HexAt(bytes[..n], i);
    }
  }

  lemma HexIsLower(bytes: Bytes)
    ensures forall i :: 0 <= i < |HexOf(bytes)| ==> IsLowerHex(HexOf(bytes)[i])
  {
    forall i | 0 <= i < |HexOf(bytes)|
      ensures IsLowerHex(HexOf(bytes)[i])
    {
      HexAt(bytes, i / 2);
    }
  }

  lemma NotHexText(value: string, n: nat)
    requires |value| != 2 * n || !AllLowerHex(value)
    ensures !exists bytes :: |bytes| == n && HexOf(bytes) == value
  {
    if bytes :| |bytes| == n && HexOf(bytes) == value {
      HexIsLower(bytes);
    }
  }

  /** Accepts exactly the text of `n` bytes, and returns those bytes. */
  method DecodeHex(value: string, n: nat) returns (r: Option<Bytes>)
    ensures r.Some? <==> exists bytes :: |bytes| == n && HexOf(bytes) == value
    ensures r.Some? ==> |r.value| == n && HexOf(r.value) == value
  {
    if |value| != n * 2 || !AllLowerHex(value) {
      NotHexText(value, n);
      return None;
    }
    var decoded := new U8[n](_ => 0);
    for index := 0 to n
      invariant HexOf(decoded[..index]) == value[..2 * index]
    {
      var high, low := HexValue(value[index * 2]), HexValue(value[index * 2 + 1]);
      DigitRoundTrip(0, value[index * 2]);
      DigitRoundTrip(0, value[index * 2 + 1]);
      DecodesOne(decoded[..index], value, index, high.value, low.value);
      decoded[index] := Combine(high.value, low.value);
      assert decoded[..index + 1] == decoded[..index] + [decoded[index]];
    }
    assert decoded[..n] == decoded[..] && value[..2 * n] == value;
    return Some(decoded[..]);
  }

  lemma DecodesOne(bytes: Bytes, value: string, index: nat, high: Nibble, low: Nibble)
    requires 2 * index + 1 < |value| && HexOf(bytes) == value[..2 * index]
    requires Digit(high) == value[2 * index] && Digit(low) == value[2 * index + 1]
    ensures HexOf(bytes + [Combine(high, low)]) == value[..2 * (index + 1)]
  {
    var more := bytes + [Combine(high, low)];
    assert more[..|more| - 1] == bytes;
    assert Combine(high, low) / 16 == high && Combine(high, low) % 16 == low;
    assert value[..2 * (index + 1)] == value[..2 * index] + [value[2 * index], value[2 * index + 1]];
  }

  lemma HexIsInjective(a: Bytes, b: Bytes)
    requires HexOf(a) == HexOf(b)
    ensures a == b
  {
    forall i | 0 <= i < |a|
      ensures a[i] == b[i]
    {
      HexAt(a, i);
      HexAt(b, i);
      DigitRoundTrip(a[i] / 16, 'a');
      DigitRoundTrip(b[i] / 16, 'a');
      DigitRoundTrip(a[i] % 16, 'a');
      DigitRoundTrip(b[i] % 16, 'a');
    }
  }

  /** Decoding is the inverse of encoding, for every length. */
  method EncodeThenDecode(bytes: Bytes) returns (r: Option<Bytes>)
    ensures r == Some(bytes)
  {
    var text := EncodeHex(bytes);
    r := DecodeHex(text, |bytes|);
    HexIsInjective(bytes, r.value);
  }
}
