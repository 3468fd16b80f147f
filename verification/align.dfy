/**
 * Alignment arithmetic and little-endian byte images used by the byte
 * buffers the model builds (the PostgreSQL TYPEALIGN family and the
 * 16-byte STROMALIGN of pg-strom).
 */
module Align {

  newtype byte = x: int | 0 <= x < 256

  const BLCKSZ: nat := 8192

  /** How many whole units of `a` fit in `n`. */
  function Quot(n: nat, a: nat): (q: nat)
    requires a > 0
    ensures a * q <= n < a * q + a
    decreases n
  {
    if n < a then 0 else 1 + Quot(n - a, a)
  }

  /** TYPEALIGN(a, n): the smallest multiple of `a` that is at least `n`. */
  function TypeAlign(a: nat, n: nat): (r: nat)
    requires a > 0
    ensures n <= r < n + a
  {
    var q := Quot(n, a);
    if a * q == n then n else a * q + a
  }

  /** MAXALIGN, INTALIGN, STROMALIGN and TYPEALIGN(BLCKSZ, _). */
  function MaxAlign(n: nat): (r: nat)
    ensures n <= r < n + 8
  {
    TypeAlign(8, n)
  }

  function IntAlign(n: nat): (r: nat)
    ensures n <= r < n + 4
  {
    TypeAlign(4, n)
  }

  function StromAlign(n: nat): (r: nat)
    ensures n <= r < n + 16
  {
    TypeAlign(16, n)
  }

  function BlockAlign(n: nat): (r: nat)
    ensures n <= r < n + BLCKSZ
  {
    TypeAlign(BLCKSZ, n)
  }

  /** Which multiple of `a` the aligned value is. */
  function AlignQuot(a: nat, n: nat): (k: nat)
    requires a > 0
    ensures TypeAlign(a, n) == a * k
  {
    var q := Quot(n, a);
    if a * q == n then q else q + 1
  }

  /** `x` sits on a boundary of `a`. */
  predicate Aligned(a: nat, x: nat)
    requires a > 0
  {
    TypeAlign(a, x) == x
  }

  /** An aligned value is on a boundary. */
  lemma AlignedAfterAlign(a: nat, n: nat)
    requires a > 0
    ensures Aligned(a, TypeAlign(a, n))
  {
    TypeAlignFixed(a, AlignQuot(a, n));
  }

  /** No multiple of the alignment lies between `n` and its aligned value. */
  lemma TypeAlignLeast(a: nat, n: nat, j: nat)
    requires a > 0 && n <= a * j
    ensures TypeAlign(a, n) <= a * j
  {
    var q := Quot(n, a);
    if j <= q {
      LemmaMulMono(a, j, q);
    } else {
      LemmaMulMono(a, q + 1, j);
    }
  }

  lemma LemmaMulMono(a: nat, j: nat, k: nat)
    requires j <= k
    ensures a * j <= a * k
  {
    if j < k {
      LemmaMulMono(a, j, k - 1);
      assert a * k == a * (k - 1) + a;
    }
  }

  /** Aligning an aligned value changes nothing. */
  lemma TypeAlignFixed(a: nat, k: nat)
    requires a > 0
    ensures TypeAlign(a, a * k) == a * k
  {
    var q := Quot(a * k, a);
    if q < k {
      LemmaMulMono(a, q + 1, k);
    } else if q > k {
      LemmaMulMono(a, k + 1, q);
    }
  }

  /** An 8-byte boundary is also a 4-byte boundary, and the two alignments differ by at most one word. */
  lemma MaxAlignNearIntAlign(n: nat)
    ensures IntAlign(MaxAlign(n)) == MaxAlign(n)
    ensures IntAlign(n) <= MaxAlign(n) <= IntAlign(n) + 4
  {
    var j := AlignQuot(8, n);
    var t := AlignQuot(4, n);
    assert MaxAlign(n) == 4 * (2 * j);
    TypeAlignFixed(4, 2 * j);
    TypeAlignLeast(4, n, 2 * j);
    if t % 2 == 0 {
      TypeAlignLeast(8, n, t / 2);
    } else {
      TypeAlignLeast(8, n, (t + 1) / 2);
    }
  }

  /** BITMAPLEN: bytes of a null bitmap covering `n` items. */
  function BitmapLen(n: nat): (r: nat)
    ensures 8 * r >= n && 8 * r < n + 8
  {
    (n + 7) / 8
  }

  /** `n` zero bytes of padding. */
  function Zeros(n: nat): (r: seq<byte>)
    ensures |r| == n
  {
    if n == 0 then [] else [0] + Zeros(n - 1)
  }

  lemma ZerosAdd(a: nat, b: nat)
    ensures Zeros(a) + Zeros(b) == Zeros(a + b)
  {
    if a > 0 {
      ZerosAdd(a - 1, b);
      assert Zeros(a) + Zeros(b) == [0] + (Zeros(a - 1) + Zeros(b));
    }
  }

  function Pow256(w: nat): (r: nat)
    ensures r >= 1
  {
    if w == 0 then 1 else 256 * Pow256(w - 1)
  }

  /** Little-endian image of the low `w` bytes of `v`, as a `memcpy` out of a little-endian integer. */
  function LE(v: nat, w: nat): (r: seq<byte>)
    ensures |r| == w
  {
    if w == 0 then [] else [(v % 256) as byte] + LE(v / 256, w - 1)
  }

  /** The unsigned value of a little-endian byte image. */
  function UnLE(s: seq<byte>): (r: nat)
    ensures r < Pow256(|s|)
  {
    if |s| == 0 then 0 else s[0] as nat + 256 * UnLE(s[1..])
  }

  /** Reading back the image of a value that fits in `w` bytes yields the value. */
  lemma {:induction false} UnLEofLE(v: nat, w: nat)
    requires v < Pow256(w)
    ensures UnLE(LE(v, w)) == v
  {
    if w > 0 {
      var q, d := v / 256, v % 256;
      var s := LE(v, w);
      assert s == [d as byte] + LE(q, w - 1);
      assert s[0] as nat == d;
      assert s[1..] == LE(q, w - 1);
      assert v == 256 * q + d;
      assert Pow256(w) == 256 * Pow256(w - 1);
      assert q < Pow256(w - 1);
      UnLEofLE(q, w - 1);
      assert UnLE(s) == d + 256 * UnLE(LE(q, w - 1));
    }
  }

  /** Little-endian images of fixed width, as the header words of a node are stored. */
  function LE16(v: nat): (r: seq<byte>)
    ensures |r| == 2
  {
    LE(v, 2)
  }

  function LE32(v: nat): (r: seq<byte>)
    ensures |r| == 4
  {
    LE(v, 4)
  }

  /** The 16-bit and 32-bit little-endian words at `off`. */
  function Get16(b: seq<byte>, off: nat): nat
    requires off + 2 <= |b|
  {
    UnLE(b[off..off + 2])
  }

  function Get32(b: seq<byte>, off: nat): nat
    requires off + 4 <= |b|
  {
    UnLE(b[off..off + 4])
  }

  lemma Pow256Values()
    ensures Pow256(2) == 0x10000 && Pow256(4) == 0x1_0000_0000
  {
    assert Pow256(1) == 256;
    assert Pow256(3) == 256 * 0x10000;
  }

  lemma Get16LE16(b: seq<byte>, off: nat, v: nat)
    requires off + 2 <= |b| && b[off..off + 2] == LE16(v) && v < 0x10000
    ensures Get16(b, off) == v
  {
    Pow256Values();
    UnLEofLE(v, 2);
  }

  lemma Get32LE32(b: seq<byte>, off: nat, v: nat)
    requires off + 4 <= |b| && b[off..off + 4] == LE32(v) && v < 0x1_0000_0000
    ensures Get32(b, off) == v
  {
    Pow256Values();
    UnLEofLE(v, 4);
  }

  /** A window into a window of a buffer is a window of the buffer. */
  lemma SubSlice<T>(b: seq<T>, c: nat, s: seq<T>, i: nat, j: nat)
    requires c + |s| <= |b| && b[c..c + |s|] == s && i <= j <= |s|
    ensures b[c + i..c + j] == s[i..j]
  {
    forall k | 0 <= k < j - i
      ensures b[c + i..c + j][k] == s[i..j][k]
    {
      assert b[c + i + k] == b[c..c + |s|][i + k];
    }
  }

  /** The two parts of the window `b[c..d]`, at the positions the caller names. */
  lemma Window2<T>(b: seq<T>, c: nat, d: nat, p: seq<T>, x: seq<T>, y: seq<T>, i: nat)
    requires d == c + |p| && d <= |b| && b[c..d] == p && p == x + y && i == c + |x|
    ensures b[c..i] == x && b[i..d] == y
  {
    SubSlice(b, c, p, 0, |x|);
    SubSlice(b, c, p, |x|, |p|);
    assert p[..|x|] == x;
    assert p[|x|..] == y;
  }

  /** The second and third parts of the window `b[c..d]`, at the positions the caller names. */
  lemma Window3<T>(b: seq<T>, c: nat, d: nat, p: seq<T>, x: seq<T>, y: seq<T>, z: seq<T>, i: nat, j: nat)
    requires d == c + |p| && d <= |b| && b[c..d] == p && p == x + y + z
    requires i == c + |x| && j == i + |y|
    ensures b[i..j] == y && b[j..d] == z
  {
    SubSlice(b, c, p, |x|, |x| + |y|);
    SubSlice(b, c, p, |x| + |y|, |p|);
    assert p[|x|..|x| + |y|] == y;
    assert p[|x| + |y|..|p|] == z;
  }

  /** Adjacent windows of a buffer form one window. */
  lemma Join2<T>(b: seq<T>, i: nat, j: nat, k: nat, x: seq<T>, y: seq<T>)
    requires i <= j <= k <= |b| && b[i..j] == x && b[j..k] == y
    ensures b[i..k] == x + y
  {
    assert b[i..k] == b[i..j] + b[j..k];
  }

  /** The four parts of a four-way concatenation. */
  lemma Parts4<T>(e: seq<T>, a: seq<T>, b: seq<T>, c: seq<T>, d: seq<T>)
    requires e == a + b + c + d
    ensures |e| == |a| + |b| + |c| + |d|
    ensures e[..|a|] == a && e[|a|..|a| + |b|] == b
    ensures e[|a| + |b|..|a| + |b| + |c|] == c && e[|a| + |b| + |c|..] == d
  {
  }

  /** Regrouping a four-way concatenation. */
  lemma Assoc4<T>(a: seq<T>, b: seq<T>, c: seq<T>, d: seq<T>)
    ensures a + b + c + d == a + (b + c + d)
  {
  }
}
