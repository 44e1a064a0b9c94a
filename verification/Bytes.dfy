/** Bytes, little-endian words and 512-byte sectors: the vocabulary of everything on disk. */
module Bytes {

  type byte = x: int | 0 <= x < 0x100
  type u16 = x: int | 0 <= x < 0x1_0000
  type u32 = x: int | 0 <= x < 0x1_0000_0000

  type Sector = s: seq<byte> | |s| == 512 witness seq(512, i => 0)

  function Zeros(n: nat): (z: seq<byte>)
    ensures |z| == n && forall i :: 0 <= i < n ==> z[i] == 0
  {
    seq(n, i => 0)
  }

  function U16(b: seq<byte>): (x: u16)
    requires |b| == 2
  {
    var lo: int, hi: int := b[0], b[1];
    lo + 0x100 * hi
  }

  function U32(b: seq<byte>): (x: u32)
    requires |b| == 4
  {
    var lo: int, hi: int := U16(b[..2]), U16(b[2..]);
    lo + 0x1_0000 * hi
  }

  function Le16(x: u16): (b: seq<byte>)
    ensures |b| == 2 && U16(b) == x
  {
    [x % 0x100, x / 0x100]
  }

  function Le32(x: u32): (b: seq<byte>)
    ensures |b| == 4 && U32(b) == x
  {
    var lo, hi := Le16(x % 0x1_0000), Le16(x / 0x1_0000);
    assert (lo + hi)[..2] == lo && (lo + hi)[2..] == hi;
    lo + hi
  }

  lemma LeBack16(b: seq<byte>)
    requires |b| == 2
    ensures Le16(U16(b)) == b
  {
    var lo: int, hi: int := b[0], b[1];
    assert (lo + 0x100 * hi) % 0x100 == lo && (lo + 0x100 * hi) / 0x100 == hi;
  }

  lemma LeBack32(b: seq<byte>)
    requires |b| == 4
    ensures Le32(U32(b)) == b
  {
    var lo, hi := U16(b[..2]), U16(b[2..]);
    LeBack16(b[..2]);
    LeBack16(b[2..]);
    hide U16, Le16;
    assert U32(b) % 0x1_0000 == lo && U32(b) / 0x1_0000 == hi;
    assert b == b[..2] + b[2..];
  }

  /** s with the bytes of d stored from index at on. */
  function Patch(s: seq<byte>, at: nat, d: seq<byte>): (r: seq<byte>)
    requires at + |d| <= |s|
    ensures |r| == |s|
    ensures r[at..at + |d|] == d
    ensures forall i :: 0 <= i < |s| && !(at <= i < at + |d|) ==> r[i] == s[i]
  {
    s[..at] + d + s[at + |d|..]
  }

  /** One more byte of the run d[from..] patched in. */
  lemma PatchNext(s: seq<byte>, at: nat, d: seq<byte>, from: nat, n: nat)
    requires at + n + 1 <= |s| && from + n + 1 <= |d|
    ensures Patch(s, at, d[from..from + n + 1]) == Patch(s, at, d[from..from + n])[at + n := d[from + n]]
  {
  }

  lemma PrefixPart<T>(s: seq<T>, n: nat, a: nat, b: nat)
    requires a <= b <= n <= |s|
    ensures s[..n][a..b] == s[a..b]
  {
  }

  lemma PatchNothing(s: seq<byte>, at: nat, b: seq<byte>, from: nat)
    requires at <= |s| && from <= |b|
    ensures Patch(s, at, b[from..from]) == s
  {
  }

  /** Two adjacent runs of d patched one after the other. */
  lemma PatchAppend(s: seq<byte>, d: seq<byte>, from: nat, mid: nat, to: nat)
    requires from <= mid <= to <= |d| && to - from <= |s|
    ensures Patch(Patch(s, 0, d[from..mid]), mid - from, d[mid..to]) == Patch(s, 0, d[from..to])
  {
    assert d[from..to] == d[from..mid] + d[mid..to];
  }

  lemma MulStep(a: int, b: int, n: int)
    requires a < b && 0 <= n
    ensures a * n + n <= b * n
  {
    var d := b - a - 1;
    assert b * n == a * n + n + d * n;
    MulNonneg(d, n);
  }

  lemma MulNonneg(d: int, n: int)
    requires 0 <= d && 0 <= n
    ensures 0 <= d * n
  {
  }

  lemma DivModUnique(x: int, q: int, r: int, n: int)
    requires x == q * n + r && 0 <= r < n
    ensures x / n == q && x % n == r
  {
    var q', r' := x / n, x % n;
    assert x == q' * n + r';
    if q < q' {
      MulStep(q, q', n);
    } else if q' < q {
      MulStep(q', q, n);
    }
  }

  /** Quotient and remainder of a * n + b by a variable divisor. */
  lemma DivMod(a: nat, b: nat, n: nat)
    requires b < n
    ensures (a * n + b) / n == a && (a * n + b) % n == b
  {
    DivModUnique(a * n + b, a, b, n);
  }

  lemma DivBound(j: nat, k: nat, n: nat)
    requires n > 0
    ensures j < k * n <==> j / n < k
  {
    var q, r := j / n, j % n;
    assert j == q * n + r;
    if q < k {
      MulStep(q, k, n);
    } else if k < q {
      MulStep(k, q, n);
    }
  }

  lemma DivModBack(x: nat, n: nat)
    requires n > 0
    ensures x == (x / n) * n + x % n && 0 <= x / n
  {
  }

  lemma MulThrough(a: int, b: int)
    ensures a * (512 * b) == 512 * (a * b)
  {
  }
}
