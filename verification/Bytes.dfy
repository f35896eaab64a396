/** Bytes, fixed-width integers, little-endian fields and splicing: what every
    on-disk structure of a VHDX image is written with. */
module Bytes {

  const TWO16 := 0x1_0000
  const TWO32 := 0x1_0000_0000
  const TWO64 := 0x1_0000_0000_0000_0000

  type byte = x: int | 0 <= x < 256
  type u16 = x: int | 0 <= x < TWO16
  type u32 = x: int | 0 <= x < TWO32
  type u64 = x: int | 0 <= x < TWO64

  type Buf = seq<byte>

  datatype Option<+T> = None | Some(value: T)

  /** The crate's error kinds; the message texts are not modelled. `Panic` stands for a
      slice out of range, which unwinds to the caller. */
  datatype Error =
    | Io | NotVhdx | NoValidHeader | NoValidRegionTable | BadMetadata | BadChecksum
    | Corrupt | Unsupported | OutOfBounds | ReadOnly
    | LogNeedsReplay | LogUnassembled | LogReplay | Panic

  datatype Result<+T> = Ok(value: T) | Err(error: Error) {
    predicate IsFailure() { Err? }
    function PropagateFailure<U>(): Result<U>
      requires Err?
    {
      Err(error)
    }
    function Extract(): T
      requires Ok?
    {
      value
    }
  }

  function Need(condition: bool, error: Error): (r: Result<()>) {
    if condition then Ok(()) else Err(error)
  }

  function Min(a: int, b: int): int { if a <= b then a else b }

  function Max(a: int, b: int): int { if a >= b then a else b }

  function SaturatingAdd(a: u64, b: int): u64
    requires b >= 0
  {
    if a + b < TWO64 then a + b else TWO64 - 1
  }

  function Zeros(n: nat): (z: Buf)
    ensures |z| == n && forall i :: 0 <= i < n ==> z[i] == 0
  {
    seq(n, i => 0)
  }

  // ---- Little-endian fields ----

  function Pow256(w: nat): (p: nat)
    ensures p > 0
  {
    if w == 0 then 1 else 256 * Pow256(w - 1)
  }

  /** `x.to_le_bytes()` for a field of `w` bytes. */
  function Le(x: nat, w: nat): (b: Buf)
    ensures |b| == w
  {
    if w == 0 then [] else [x % 256] + Le(x / 256, w - 1)
  }

  /** `from_le_bytes`. */
  function LeNat(b: Buf): (x: nat)
    ensures x < Pow256(|b|)
  {
    if b == [] then 0 else b[0] + 256 * LeNat(b[1..])
  }

  /** Byte `i` is the digit of 256 to the `i`: the least significant comes first. */
  lemma {:induction false} LeDigit(x: nat, w: nat, i: nat)
    requires i < w
    ensures Le(x, w)[i] == x / Pow256(i) % 256
    decreases w
  {
    if i > 0 {
      LeDigit(x / 256, w - 1, i - 1);
      NextDigit(x, Pow256(i - 1));
    }
  }

  lemma NextDigit(x: nat, p: nat)
    requires p > 0
    ensures x / 256 / p == x / (256 * p)
  {
    var q, r := x / 256 / p, x / 256 % p;
    assert x == 256 * (q * p + r) + x % 256;
    assert 256 * (q * p) == q * (256 * p);
    assert 256 * r + x % 256 < 256 * p;
    DivModUnique(x, 256 * p, q, 256 * r + x % 256);
  }

  function Quotient(x: nat, n: nat): nat
    requires n > 0
  {
    x / n
  }

  lemma MulCancel(a: nat, b: nat, d: nat)
    requires a * d < b * d
    ensures a < b
  {
  }

  lemma DivModUnique(x: nat, m: nat, q: nat, r: nat)
    requires m > 0 && r < m && x == q * m + r
    ensures x / m == q && x % m == r
  {
    MulCancel(q, x / m + 1, m);
    MulCancel(x / m, q + 1, m);
  }

  lemma {:induction false} LeRoundTrip(x: nat, w: nat)
    requires x < Pow256(w)
    ensures LeNat(Le(x, w)) == x
  {
    if w > 0 {
      LeRoundTrip(x / 256, w - 1);
      assert Le(x, w)[1..] == Le(x / 256, w - 1);
    }
  }

  lemma {:induction false} LeOfLeNat(b: Buf)
    ensures Le(LeNat(b), |b|) == b
  {
    if b != [] {
      LeOfLeNat(b[1..]);
      var x := LeNat(b[1..]);
      assert (b[0] + 256 * x) % 256 == b[0] && (b[0] + 256 * x) / 256 == x;
      hide LeNat, Pow256;
      assert b == [b[0]] + b[1..];
    }
  }

  lemma PowersOf256()
    ensures Pow256(2) == TWO16 && Pow256(4) == TWO32 && Pow256(8) == TWO64
  {
    assert Pow256(0) == 1 && Pow256(1) == 256 && Pow256(2) == 256 * 256;
    assert Pow256(3) == 256 * Pow256(2) && Pow256(4) == 256 * Pow256(3);
    assert Pow256(5) == 256 * Pow256(4) && Pow256(6) == 256 * Pow256(5);
    assert Pow256(7) == 256 * Pow256(6) && Pow256(8) == 256 * Pow256(7);
  }

  function ReadU16(b: Buf, off: nat): u16
    requires off + 2 <= |b|
  {
    PowersOf256();
    LeNat(b[off..off + 2])
  }

  function ReadU32(b: Buf, off: nat): u32
    requires off + 4 <= |b|
  {
    PowersOf256();
    LeNat(b[off..off + 4])
  }

  function ReadU64(b: Buf, off: nat): u64
    requires off + 8 <= |b|
  {
    PowersOf256();
    LeNat(b[off..off + 8])
  }

  lemma ReadsLe16(b: Buf, off: nat, x: u16)
    requires off + 2 <= |b| && b[off..off + 2] == Le(x, 2)
    ensures ReadU16(b, off) == x
  {
    PowersOf256();
    LeRoundTrip(x, 2);
  }

  lemma ReadsLe32(b: Buf, off: nat, x: u32)
    requires off + 4 <= |b| && b[off..off + 4] == Le(x, 4)
    ensures ReadU32(b, off) == x
  {
    PowersOf256();
    LeRoundTrip(x, 4);
  }

  lemma ReadsLe64(b: Buf, off: nat, x: u64)
    requires off + 8 <= |b| && b[off..off + 8] == Le(x, 8)
    ensures ReadU64(b, off) == x
  {
    PowersOf256();
    LeRoundTrip(x, 8);
  }

  // ---- Splicing ----

  /** `d` with `b` copied over it at `off`. */
  function Splice(d: Buf, off: nat, b: Buf): (r: Buf)
    requires off + |b| <= |d|
    ensures |r| == |d|
  {
    d[..off] + b + d[off + |b|..]
  }

  lemma SpliceAt(d: Buf, off: nat, b: Buf, i: nat)
    requires off + |b| <= |d| && i < |d|
    ensures Splice(d, off, b)[i] == if off <= i < off + |b| then b[i - off] else d[i]
  {
  }

  lemma SpliceInside(d: Buf, off: nat, b: Buf)
    requires off + |b| <= |d|
    ensures Splice(d, off, b)[off..off + |b|] == b
  {
  }

  lemma SpliceOutside(d: Buf, off: nat, b: Buf, lo: nat, hi: nat)
    requires off + |b| <= |d| && lo <= hi <= |d|
    requires hi <= off || off + |b| <= lo
    ensures Splice(d, off, b)[lo..hi] == d[lo..hi]
  {
  }

  lemma SubSlice(d: Buf, lo: nat, hi: nat, a: nat, b: nat)
    requires lo <= hi <= |d| && a <= b <= hi - lo
    ensures d[lo..hi][a..b] == d[lo + a..lo + b]
  {
    var l, r := d[lo..hi][a..b], d[lo + a..lo + b];
    assert forall i :: 0 <= i < |l| ==> l[i] == r[i];
  }

  /** Splicing back the bytes already there changes nothing. */
  lemma SpliceSame(d: Buf, off: nat, b: Buf)
    requires off + |b| <= |d| && d[off..off + |b|] == b
    ensures Splice(d, off, b) == d
  {
    assert forall i :: off <= i < off + |b| ==> d[i] == d[off..off + |b|][i - off];
  }

  /** Equal-width parts, laid end to end. */
  function Join(parts: seq<Buf>): Buf {
    if parts == [] then [] else Join(parts[..|parts| - 1]) + parts[|parts| - 1]
  }

  lemma OneMore(width: nat, n: nat)
    ensures width * (n + 1) == width * n + width
  {
  }

  lemma {:induction false} JoinLength(parts: seq<Buf>, width: nat)
    requires forall p :: p in parts ==> |p| == width
    ensures |Join(parts)| == width * |parts|
  {
    if parts != [] {
      var n := |parts| - 1;
      JoinLength(parts[..n], width);
      assert |parts[n]| == width by { assert parts[n] in parts; }
      OneMore(width, n);
    }
  }

  lemma {:induction false} JoinAt(parts: seq<Buf>, width: nat, i: nat)
    requires i < |parts| && forall p :: p in parts ==> |p| == width
    ensures 0 <= width * i <= width * i + width <= |Join(parts)|
    ensures Join(parts)[width * i..width * i + width] == parts[i]
  {
    var n := |parts| - 1;
    JoinLength(parts, width);
    JoinLength(parts[..n], width);
    if i < n {
      JoinAt(parts[..n], width, i);
      assert parts[..n][i] == parts[i];
    }
  }

  /** Copies `b` into a buffer in place. */
  method Put(a: array<byte>, off: nat, b: Buf)
    requires off + |b| <= a.Length
    modifies a
    ensures a[..] == Splice(old(a[..]), off, b)
    ensures forall i :: 0 <= i < a.Length ==> a[i] == if off <= i < off + |b| then b[i - off] else old(a[i])
  {
    forall i | 0 <= i < |b| {
      a[off + i] := b[i];
    }
  }
}
