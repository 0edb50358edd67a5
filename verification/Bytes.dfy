/** Byte strings and the big-endian integers that every on-disk header uses. */
module Bytes {

  type byte = x: int | 0 <= x < 256

  /** 256 to the power `width`: the number of values an unsigned integer of that many bytes can hold. */
  function Capacity(width: nat): (r: nat)
    ensures r >= 1
  {
    if width == 0 then 1 else 256 * Capacity(width - 1)
  }

  /** `PutUint16/32/64` after the conversion to that width: the low `width` bytes of `n`, high byte first. */
  function Big(n: nat, width: nat): (s: seq<byte>)
    ensures |s| == width
  {
    if width == 0 then [] else Big(n / 256, width - 1) + [n % 256]
  }

  /** `Uint16/32/64`: the number that a big-endian byte string denotes. */
  function Number(s: seq<byte>): nat {
    if s == [] then 0 else Number(s[..|s| - 1]) * 256 + s[|s| - 1]
  }

  /** Reading back what was written gives the number modulo the width: exactly the conversion in the source. */
  lemma {:induction false} NumberOfBig(n: nat, width: nat)
    ensures Number(Big(n, width)) == n % Capacity(width)
  {
    if width > 0 {
      var s := Big(n, width);
      assert s[..|s| - 1] == Big(n / 256, width - 1);
      NumberOfBig(n / 256, width - 1);
      SplitModulus(n, Capacity(width - 1));
    }
  }

  lemma SplitModulus(n: nat, m: nat)
    requires m >= 1
    ensures n % (256 * m) == ((n / 256) % m) * 256 + n % 256
  {
    var q, r := n / 256, n % 256;
    var a, b := q / m, q % m;
    assert n == (256 * m) * a + (256 * b + r) by {
      assert q == m * a + b;
      assert n == 256 * q + r;
    }
    assert 256 * b + r < 256 * m by { assert b + 1 <= m; }
    RemainderIs(n, 256 * m, a, 256 * b + r);
  }

  lemma RemainderIs(n: nat, d: nat, q: nat, r: nat)
    requires d >= 1 && r < d && n == d * q + r
    ensures n % d == r
  {
    var p, rest := n / d, n % d;
    if q > p { AtLeast(d, q - p); Distribute(d, q, p); }
    if q < p { AtLeast(d, p - q); Distribute(d, p, q); }
  }

  lemma AtLeast(d: nat, k: nat)
    requires k >= 1
    ensures d * k >= d
  {
    if k > 1 { AtLeast(d, k - 1); assert d * k == d * (k - 1) + d; }
  }

  lemma Distribute(d: nat, a: nat, b: nat)
    requires b <= a
    ensures d * (a - b) == d * a - d * b
  {}

  lemma Capacities()
    ensures Capacity(2) == 0x1_0000
    ensures Capacity(4) == 0x1_0000_0000
    ensures Capacity(8) == 0x1_0000_0000_0000_0000
  {
    assert Capacity(3) == 0x100_0000;
    assert Capacity(4) == 0x1_0000_0000;
    assert Capacity(5) == 0x100_0000_0000;
    assert Capacity(6) == 0x1_0000_0000_0000;
    assert Capacity(7) == 0x100_0000_0000_0000;
  }

  /** The round trip for a number that fits. */
  lemma BigRoundTrip(n: nat, width: nat)
    requires n < Capacity(width)
    ensures Number(Big(n, width)) == n
  {
    NumberOfBig(n, width);
    RemainderIs(n, Capacity(width), 0, n);
  }

  /** Writes one big-endian field into a buffer, leaving the bytes around it alone. */
  method PutBig(buffer: array<byte>, at: nat, width: nat, n: nat)
    requires at + width <= buffer.Length
    modifies buffer
    ensures buffer[..] == old(buffer[..at]) + Big(n, width) + old(buffer[at + width..])
  {
    var rest: nat, k: nat := n, width;
    while k > 0
      invariant k <= width
      invariant buffer[..at] == old(buffer[..at])
      invariant buffer[at + width..] == old(buffer[at + width..])
      invariant Big(rest, k) + buffer[at + k..at + width] == Big(n, width)
    {
      ghost var before := buffer[at + k..at + width];
      buffer[at + k - 1] := rest % 256;
      assert buffer[at + k - 1..at + width] == [rest % 256] + before;
      rest, k := rest / 256, k - 1;
    }
    assert buffer[at..at + width] == Big(n, width);
    assert buffer[..] == buffer[..at] + buffer[at..at + width] + buffer[at + width..];
  }

  /** `copy`: places a byte string at an offset. */
  method PutBytes(buffer: array<byte>, at: nat, s: seq<byte>)
    requires at + |s| <= buffer.Length
    modifies buffer
    ensures buffer[..] == old(buffer[..at]) + s + old(buffer[at + |s|..])
  {
    for k := 0 to |s|
      invariant buffer[..at] == old(buffer[..at])
      invariant buffer[at + |s|..] == old(buffer[at + |s|..])
      invariant buffer[at..at + k] == s[..k]
    {
      buffer[at + k] := s[k];
      assert buffer[at..at + k + 1] == buffer[at..at + k] + [s[k]];
    }
    assert buffer[..] == buffer[..at] + buffer[at..at + |s|] + buffer[at + |s|..];
  }

  /** A slice of a slice. */
  lemma SliceOfSlice<T>(s: seq<T>, a: nat, b: nat, lo: nat, hi: nat)
    requires a <= b <= |s| && lo <= hi <= b - a
    ensures s[a..b][lo..hi] == s[a + lo..a + hi]
  {
    var t := s[a..b];
    assert forall k :: 0 <= k < |t| ==> t[k] == s[a + k];
    forall k | 0 <= k < hi - lo ensures t[lo..hi][k] == s[a + lo..a + hi][k] {
      assert t[lo..hi][k] == t[lo + k] == s[a + (lo + k)];
    }
  }

  /** If two strings agree on `p` bytes from their starts, they agree on every slice of those. */
  lemma Overlay<T>(s: seq<T>, at: nat, whole: seq<T>, p: nat, lo: nat, hi: nat)
    requires at + p <= |s| && p <= |whole| && s[at..at + p] == whole[..p] && lo <= hi <= p
    ensures s[at + lo..at + hi] == whole[lo..hi]
  {
    SliceOfSlice(s, at, at + p, lo, hi);
    SliceOfSlice(whole, 0, p, lo, hi);
    assert whole[0..p] == whole[..p];
  }
}
