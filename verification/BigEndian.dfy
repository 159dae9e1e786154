/** Fixed-width big-endian integers, as the codecs write them. */
module BigEndian {
  import opened Wrappers

  function Pow256(width: nat): (p: nat)
    ensures p > 0
  {
    if width == 0 then 1 else 256 * Pow256(width - 1)
  }

  function ToBytes(n: nat, width: nat): (b: Bytes)
    ensures |b| == width
  {
    if width == 0 then [] else ToBytes(n / 256, width - 1) + [n % 256]
  }

  function FromBytes(b: Bytes): nat {
    if b == [] then 0 else FromBytes(b[..|b| - 1]) * 256 + b[|b| - 1]
  }

  lemma {:induction false} FromToBytes(n: nat, width: nat)
    requires n < Pow256(width)
    ensures FromBytes(ToBytes(n, width)) == n
  {
    if width > 0 {
      FromToBytes(n / 256, width - 1);
      assert ToBytes(n, width)[..width - 1] == ToBytes(n / 256, width - 1);
    }
  }

  lemma {:induction false} ToFromBytes(b: Bytes)
    ensures FromBytes(b) < Pow256(|b|)
    ensures ToBytes(FromBytes(b), |b|) == b
  {
    if b != [] {
      var n := |b| - 1;
      ToFromBytes(b[..n]);
      assert FromBytes(b) / 256 == FromBytes(b[..n]) && FromBytes(b) % 256 == b[n];
      assert b == b[..n] + [b[n]];
    }
  }

  lemma Widths()
    ensures Pow256(2) == 0x1_0000 && Pow256(4) == 0x1_0000_0000 && Pow256(8) == MAX_U64 + 1
  {
    assert Pow256(0) == 1 && Pow256(1) == 256 && Pow256(2) == 0x1_0000;
    assert Pow256(3) == 0x100_0000 && Pow256(4) == 0x1_0000_0000;
    assert Pow256(5) == 0x100_0000_0000 && Pow256(6) == 0x1_0000_0000_0000 && Pow256(7) == 0x100_0000_0000_0000;
  }

  function U64Bytes(n: U64): (b: Bytes)
    ensures |b| == 8
  {
    ToBytes(n, 8)
  }

  function U64From(b: Bytes): U64
    requires |b| == 8
  {
    ToFromBytes(b);
    Widths();
    FromBytes(b)
  }

  lemma U64RoundTrip(n: U64, b: Bytes)
    requires |b| == 8
    ensures U64From(U64Bytes(n)) == n
    ensures U64Bytes(U64From(b)) == b
  {
    Widths();
    FromToBytes(n, 8);
    ToFromBytes(b);
  }

  /** Two's complement. */
  function I64Bytes(n: I64): (b: Bytes)
    ensures |b| == 8
  {
    ToBytes(if n < 0 then n + MAX_U64 + 1 else n, 8)
  }

  function I64From(b: Bytes): I64
    requires |b| == 8
  {
    var n := U64From(b);
    if n > MAX_I64 then n - MAX_U64 - 1 else n
  }

  lemma I64RoundTrip(n: I64, b: Bytes)
    requires |b| == 8
    ensures I64From(I64Bytes(n)) == n
    ensures I64Bytes(I64From(b)) == b
  {
    U64RoundTrip(if n < 0 then n + MAX_U64 + 1 else n, b);
  }

  /** Equal bytes of one width come from equal integers. */
  lemma BytesAreInjective(m: nat, n: nat, width: nat)
    requires m < Pow256(width) && n < Pow256(width)
    ensures ToBytes(m, width) == ToBytes(n, width) ==> m == n
  {
    FromToBytes(m, width);
    FromToBytes(n, width);
  }

  lemma DivideTwice(n: nat, d: nat)
    requires d > 0
    ensures n / 256 / d == n / (256 * d)
  {
    var q, r := n / 256 / d, n / 256 % d;
    assert n / 256 == q * d + r;
    assert n == 256 * (q * d + r) + n % 256;
    assert 256 * (q * d) == q * (256 * d);
    assert 0 <= 256 * r + n % 256 < 256 * d;
    QuotientIs(n, 256 * d, q, 256 * r + n % 256);
  }

  lemma MultiplesGrow(a: nat, b: nat, d: nat)
    requires a < b
    ensures (a + 1) * d == a * d + d <= b * d
  {
  }

  lemma QuotientIs(n: nat, d: nat, q: nat, r: nat)
    requires d > 0 && n == q * d + r && r < d
    ensures n / d == q
  {
    if q < n / d {
      MultiplesGrow(q, n / d, d);
      assert false;
    }
    if n / d < q {
      MultiplesGrow(n / d, q, d);
      assert false;
    }
  }

  /** The most significant byte comes first: byte `i` counts multiples of 256 to the power of the bytes after it. */
  lemma {:induction false} ByteAt(n: nat, width: nat, i: nat)
    requires i < width
    ensures ToBytes(n, width)[i] == n / Pow256(width - 1 - i) % 256
  {
    if i < width - 1 {
      ByteAt(n / 256, width - 1, i);
      DivideTwice(n, Pow256(width - 2 - i));
    }
  }

  /** Negative numbers count down from 2^64, so the first byte shows the sign. */
  lemma SignedBytes(n: I64)
    ensures I64Bytes(n) == U64Bytes(if n < 0 then n + 0x1_0000_0000_0000_0000 else n)
    ensures n < 0 <==> I64Bytes(n)[0] >= 0x80
  {
    var u: U64 := if n < 0 then n + 0x1_0000_0000_0000_0000 else n;
    ByteAt(u, 8, 0);
    Widths();
    assert Pow256(7) == 0x100_0000_0000_0000;
  }

  // ---- writing into a fixed buffer ------------------------------------------------------------

  /** `s` with `b` written over it from position `at`. */
  function Splice(s: Bytes, at: nat, b: Bytes): (r: Bytes)
    requires at + |b| <= |s|
    ensures |r| == |s|
    ensures forall i :: 0 <= i < |s| ==> r[i] == if at <= i < at + |b| then b[i - at] else s[i]
  {
    s[..at] + b + s[at + |b|..]
  }

  method CopyInto(a: array<U8>, at: nat, b: Bytes)
    requires at + |b| <= a.Length
    modifies a
    ensures a[..] == Splice(old(a[..]), at, b)
  {
    for i := 0 to |b|
      invariant forall k :: 0 <= k < at || at + |b| <= k < a.Length ==> a[k] == old(a[k])
      invariant forall k :: 0 <= k < i ==> a[at + k] == b[k]
    {
      a[at + i] := b[i];
    }
    assert forall k :: at <= k < at + |b| ==> a[k] == b[k - at];
    assert a[..] == Splice(old(a[..]), at, b);
  }
}
