/** Deriving fresh GUIDs (`stir_sequence_into_guid` in src/reader.rs). */
module Guids {
  import opened Bytes
  import opened LogFormat

  /** Bitwise exclusive or of two naturals. */
  function Xor(a: nat, b: nat): nat
    decreases a + b
  {
    if a == 0 then b
    else if b == 0 then a
    else (a % 2 + b % 2) % 2 + 2 * Xor(a / 2, b / 2)
  }

  lemma {:induction false} XorBound(a: nat, b: nat, n: nat)
    requires a < n && b < n && Halves(n)
    ensures Xor(a, b) < n
    decreases n
  {
    if a != 0 && b != 0 {
      XorBound(a / 2, b / 2, n / 2);
    }
  }

  /** A power of two. */
  predicate Halves(n: nat) { n == 1 || (n > 1 && n % 2 == 0 && Halves(n / 2)) }

  /** Exclusive or with one operand fixed loses nothing of the other. */
  lemma XorHalf(a: nat, b: nat)
    requires a > 0 && b > 0
    ensures Xor(a, b) / 2 == Xor(a / 2, b / 2)
  {
  }

  lemma XorParity(a: nat, b: nat)
    requires a > 0 && b > 0
    ensures Xor(a, b) % 2 == (a % 2 + b % 2) % 2
  {
  }

  lemma SameParity(a: nat, b: nat, c: nat)
    requires (a % 2 + b % 2) % 2 == (a % 2 + c % 2) % 2 && b / 2 == c / 2
    ensures b == c
  {
  }

  lemma XorZero(a: nat)
    ensures Xor(0, a) == a && Xor(a, 0) == a
  {
  }

  lemma {:induction false} XorInjective(a: nat, b: nat, c: nat)
    requires Xor(a, b) == Xor(a, c)
    ensures b == c
    decreases a + b + c
  {
    hide Xor;
    if a == 0 {
      XorZero(b);
      XorZero(c);
    } else if b == 0 {
      XorZero(a);
      XorKeeps(a, c);
    } else if c == 0 {
      XorZero(a);
      XorKeeps(a, b);
    } else {
      XorHalf(a, b);
      XorHalf(a, c);
      XorInjective(a / 2, b / 2, c / 2);
      XorParity(a, b);
      XorParity(a, c);
      SameParity(a, b, c);
    }
  }

  lemma {:induction false} XorKeeps(a: nat, b: nat)
    ensures Xor(a, b) == a <==> b == 0
    decreases a + b
  {
    if a != 0 && b != 0 {
      XorKeeps(a / 2, b / 2);
    }
  }

  function Xor8(a: byte, b: byte): byte {
    assert Halves(256);
    XorBound(a, b, 256);
    Xor(a, b)
  }

  /** The sequence number laid over bytes 8..16, before the all-zero guard. */
  function Laid(g: Guid, sequence: u64): (r: Guid)
    ensures forall i :: 0 <= i < 16 ==> r[i] == if i < 8 then g[i] else Xor8(g[i], Le(sequence, 8)[i - 8])
  {
    g[..8] + seq(8, i requires 0 <= i < 8 => Xor8(g[8 + i], Le(sequence, 8)[i]))
  }

  function Stir(g: Guid, sequence: u64): Guid {
    var t := Laid(g, sequence);
    if t == Zeros(16) then t[0 := 1] else t
  }

  lemma {:induction false} LeInjective(a: nat, b: nat, w: nat)
    requires a < Pow256(w) && b < Pow256(w) && Le(a, w) == Le(b, w)
    ensures a == b
  {
    LeRoundTrip(a, w);
    LeRoundTrip(b, w);
  }

  lemma LaidInjective(g: Guid, s: u64, t: u64)
    requires Laid(g, s) == Laid(g, t)
    ensures s == t
  {
    var l, m, x, y := Laid(g, s), Laid(g, t), Le(s, 8), Le(t, 8);
    hide Laid, Le, Xor;
    forall i | 0 <= i < 8
      ensures x[i] == y[i]
    {
      assert l[i + 8] == Xor8(g[i + 8], x[i]) && m[i + 8] == Xor8(g[i + 8], y[i]);
      XorInjective(g[i + 8], x[i], y[i]);
    }
    assert x == y;
    PowersOf256();
    LeInjective(s, t, 8);
  }

  lemma StirInjective(g: Guid, s: u64, t: u64)
    requires Stir(g, s) == Stir(g, t)
    ensures s == t
  {
    var a, b := Laid(g, s), Laid(g, t);
    assert a[0] == g[0] && b[0] == g[0];
    LaidInjective(g, s, t);
  }

  lemma LaidZero(g: Guid)
    ensures Laid(g, 0) == g
  {
    var l, x := Laid(g, 0), Le(0, 8);
    LeZero(8);
    forall i | 0 <= i < 16
      ensures l[i] == g[i]
    {
      if i >= 8 {
        assert l[i] == Xor8(g[i], x[i - 8]);
      }
    }
  }

  lemma {:induction false} LeZero(w: nat)
    ensures Le(0, w) == Zeros(w)
  {
    if w > 0 {
      LeZero(w - 1);
    }
  }

  /** A stirred GUID is never the all-zero sentinel, differs from what it was
      stirred from whenever the sequence number is not zero, and from anything
      another sequence number would have made of it. */
  lemma StirFresh(g: Guid, sequence: u64)
    ensures Stir(g, sequence) != Zeros(16)
    ensures sequence != 0 ==> Stir(g, sequence) != g
    ensures forall t: u64 :: Stir(g, sequence) == Stir(g, t) ==> sequence == t
  {
    var l := Laid(g, sequence);
    assert l[0] == g[0];
    if sequence != 0 && l == g {
      LaidZero(g);
      LaidInjective(g, sequence, 0);
    }
    forall t: u64 | Stir(g, sequence) == Stir(g, t)
      ensures sequence == t
    {
      StirInjective(g, sequence, t);
    }
  }

  /** What the guard makes the first half of a GUID that would be all zero. */
  const GUARDED: Buf := [1] + Zeros(7)

  /** Stirring leaves the first half alone, but for the guard. */
  lemma StirKeepsHalf(g: Guid, sequence: u64)
    ensures var half := Stir(g, sequence)[..8];
      half == g[..8] || (g[..8] == Zeros(8) && half == GUARDED)
  {
    var l := Laid(g, sequence);
    assert forall i :: 0 <= i < 8 ==> l[i] == g[i];
    if l == Zeros(16) {
      assert g[..8] == Zeros(8);
      assert l[0 := 1][..8] == GUARDED;
    } else {
      assert l[..8] == g[..8];
    }
  }

  // ---- Bit by bit ----

  /** Bit `k` of a number. */
  function Bit(x: nat, k: nat): nat {
    if k == 0 then x % 2 else Bit(x / 2, k - 1)
  }

  lemma {:induction false} XorBit(a: nat, b: nat, k: nat)
    ensures Bit(Xor(a, b), k) == (Bit(a, k) + Bit(b, k)) % 2
    decreases k
  {
    hide Xor;
    XorParts(a, b);
    if k > 0 {
      XorBit(a / 2, b / 2, k - 1);
    }
  }

  lemma {:induction false} LowBits(x: nat, n: nat, k: nat)
    requires Halves(n) && Bits(n) > k
    ensures Bit(x % n, k) == Bit(x, k)
    decreases k
  {
    HalvesOf(x, n);
    if k > 0 {
      LowBits(x / 2, n / 2, k - 1);
    }
  }

  /** How many bits the numbers below a power of two have. */
  function Bits(n: nat): nat {
    if n <= 1 then 0 else 1 + Bits(n / 2)
  }

  lemma HalvesOf(x: nat, n: nat)
    requires n > 1 && n % 2 == 0
    ensures x % n % 2 == x % 2 && x % n / 2 == x / 2 % (n / 2)
  {
    HalvesAt(x, n / 2, x / n, x % n / 2, x % n % 2);
  }

  lemma HalvesAt(x: nat, m: nat, q: nat, h: nat, b: nat)
    requires b < 2 && h < m && x == q * (2 * m) + (2 * h + b)
    ensures x % 2 == b && x / 2 % m == h
  {
    assert q * (2 * m) == 2 * (q * m);
    DivModUnique(x, 2, q * m + h, b);
    DivModUnique(x / 2, m, q, h);
  }

  lemma QuarterBits(x: nat, k: nat)
    ensures Bit(x, k + 2) == Bit(Quotient(x, 4), k)
  {
    assert x / 2 / 2 == x / 4;
  }

  lemma TwiceQuotient(x: nat, n: nat)
    requires n == 4 || n == 16
    ensures Quotient(Quotient(x, n), n) == Quotient(x, n * n)
  {
  }

  lemma HighBits(x: nat, k: nat)
    ensures Bit(x, k + 8) == Bit(Quotient(x, 256), k)
  {
    hide Bit;
    TwiceQuotient(x, 4);
    TwiceQuotient(x, 16);
    TwiceQuotient(Quotient(x, 16), 4);
    hide Quotient;
    QuarterBits(x, k + 6);
    QuarterBits(Quotient(x, 4), k + 4);
    QuarterBits(Quotient(x, 16), k + 2);
    QuarterBits(Quotient(Quotient(x, 16), 4), k);
  }

  /** Byte `i` of a little-endian number holds its bits from `8 * i` on. */
  lemma {:induction false} LeBit(x: nat, w: nat, i: nat, k: nat)
    requires i < w && k < 8
    ensures Bit(Le(x, w)[i], k) == Bit(x, 8 * i + k)
    decreases w
  {
    ByteBits();
    if i == 0 {
      LowBits(x, 256, k);
    } else {
      LeBit(x / 256, w - 1, i - 1, k);
      HighBits(x, 8 * (i - 1) + k);
    }
  }

  lemma ByteBits()
    ensures Halves(256) && Bits(256) == 8
  {
    assert Bits(16) == 4 && Bits(256) == 4 + Bits(16);
  }

  /** Bit `k` of byte `8 + i` is the old one, turned over if that bit of the number is set. */
  predicate BitLaid(g: Guid, sequence: u64, r: Guid, i: nat, k: nat)
    requires i < 8
  {
    Bit(r[8 + i], k) == (Bit(g[8 + i], k) + Bit(sequence, 8 * i + k)) % 2
  }

  /** What stirring does, bit by bit: the number's bits, least significant byte first, are
      laid over the second half, and the first is kept, unless nothing would be left. */
  lemma StirExactly(g: Guid, sequence: u64)
    ensures var r := Stir(g, sequence);
      (forall i: nat, k: nat :: i < 8 && k < 8 ==> BitLaid(g, sequence, r, i, k))
      && r[..8] == if g[..8] == Zeros(8) && r[8..] == Zeros(8) then [1, 0, 0, 0, 0, 0, 0, 0] else g[..8]
  {
    hide Laid, Bit, Xor, Le;
    var l, r := Laid(g, sequence), Stir(g, sequence);
    assert r[8..] == l[8..] && l[..8] == g[..8];
    forall i: nat, k: nat | i < 8 && k < 8
      ensures BitLaid(g, sequence, r, i, k)
    {
      assert r[8 + i] == r[8..][i] && l[8 + i] == l[8..][i];
      XorBit(g[8 + i], Le(sequence, 8)[i], k);
      LeBit(sequence, 8, i, k);
    }
    assert l == l[..8] + l[8..] && Zeros(16) == Zeros(8) + Zeros(8);
    assert Zeros(16)[0 := 1][..8] == [1, 0, 0, 0, 0, 0, 0, 0];
    if g[..8] == Zeros(8) && r[8..] == Zeros(8) {
      assert l == Zeros(16);
    }
  }

  // ---- Going round ----

  /** Halves and parity, whatever the operands. */
  lemma XorParts(a: nat, b: nat)
    ensures Xor(a, b) / 2 == Xor(a / 2, b / 2) && Xor(a, b) % 2 == (a % 2 + b % 2) % 2
  {
  }

  lemma {:induction false} XorAssociates(a: nat, b: nat, c: nat)
    ensures Xor(Xor(a, b), c) == Xor(a, Xor(b, c))
    decreases a + b + c
  {
    hide Xor, Halves, Bit, Bits;
    if a + b + c == 0 {
      XorZero(0);
    } else {
      XorAssociates(a / 2, b / 2, c / 2);
      XorParts(a, b);
      XorParts(Xor(a, b), c);
      XorParts(b, c);
      XorParts(a, Xor(b, c));
      ParityAssociates(a % 2, b % 2, c % 2);
      SameParts(Xor(Xor(a, b), c), Xor(a, Xor(b, c)));
    }
  }

  lemma ParityAssociates(p: nat, q: nat, r: nat)
    requires p < 2 && q < 2 && r < 2
    ensures ((p + q) % 2 + r) % 2 == (p + (q + r) % 2) % 2
  {
  }

  lemma SameParts(x: nat, y: nat)
    requires x / 2 == y / 2 && x % 2 == y % 2
    ensures x == y
  {
  }

  lemma {:induction false} XorSelf(a: nat)
    ensures Xor(a, a) == 0
  {
    if a > 0 {
      XorSelf(a / 2);
    }
  }

  /** Exclusive or goes digit by digit, in any base that is a power of two. */
  lemma {:induction false} XorDigits(a: nat, i: nat, b: nat, j: nat, n: nat)
    requires Halves(n) && i < n && j < n
    ensures Xor(a * n + i, b * n + j) == Xor(a, b) * n + Xor(i, j)
    decreases n
  {
    hide Xor;
    if n == 1 {
      XorZero(0);
    } else {
      var m := n / 2;
      XorDigits(a, i / 2, b, j / 2, m);
      DoubledDigit(a, i, m);
      DoubledDigit(b, j, m);
      XorParts(a * n + i, b * n + j);
      XorParts(i, j);
      DoubledDigit(Xor(a, b), Xor(i, j), m);
    }
  }

  lemma DoubledDigit(a: nat, i: nat, m: nat)
    ensures (a * (2 * m) + i) / 2 == a * m + i / 2 && (a * (2 * m) + i) % 2 == i % 2
  {
    assert a * (2 * m) == 2 * (a * m);
  }

  lemma {:induction false} LeOfXor(x: nat, y: nat, w: nat, i: nat)
    requires i < w
    ensures Le(Xor(x, y), w)[i] == Xor8(Le(x, w)[i], Le(y, w)[i])
    decreases w
  {
    hide Xor;
    LastByteOfXor(x, y);
    if i > 0 {
      LeOfXor(x / 256, y / 256, w - 1, i - 1);
    }
  }

  lemma LastByteOfXor(x: nat, y: nat)
    ensures Xor(x, y) % 256 == Xor8(x % 256, y % 256) && Xor(x, y) / 256 == Xor(x / 256, y / 256)
  {
    hide Xor, Halves;
    Digits(x);
    Digits(y);
    XorOfDigits(x / 256, x % 256, y / 256, y % 256);
  }

  lemma XorOfDigits(a: nat, i: byte, b: nat, j: byte)
    ensures var r := Xor(a * 256 + i, b * 256 + j);
      r % 256 == Xor8(i, j) && r / 256 == Xor(a, b)
  {
    assert Halves(256);
    hide Xor, Halves;
    XorDigits(a, i, b, j, 256);
    LowDigit(Xor(a, b), Xor8(i, j));
  }

  lemma Digits(x: nat)
    ensures x / 256 * 256 + x % 256 == x
  {
  }

  lemma LowDigit(a: nat, i: nat)
    requires i < 256
    ensures (a * 256 + i) % 256 == i && (a * 256 + i) / 256 == a
  {
  }

  lemma HalvesDouble(n: nat)
    requires Halves(n)
    ensures n > 0 && Halves(2 * n)
  {
  }

  lemma HalvesByte(n: nat)
    requires Halves(n)
    ensures Halves(256 * n)
  {
    hide Halves;
    HalvesDouble(n);
    HalvesDouble(2 * n);
    HalvesDouble(4 * n);
    HalvesDouble(8 * n);
    HalvesDouble(16 * n);
    HalvesDouble(32 * n);
    HalvesDouble(64 * n);
    HalvesDouble(128 * n);
  }

  lemma XorOfU64(a: u64, b: u64)
    ensures Xor(a, b) < TWO64
  {
    assert Halves(1);
    hide Halves, Xor;
    HalvesByte(1);
    HalvesByte(0x100);
    HalvesByte(0x1_0000);
    HalvesByte(0x100_0000);
    HalvesByte(0x1_0000_0000);
    HalvesByte(0x100_0000_0000);
    HalvesByte(0x1_0000_0000_0000);
    HalvesByte(0x100_0000_0000_0000);
    XorBound(a, b, TWO64);
  }

  /** Two numbers laid one over the other are their exclusive or, laid once. */
  lemma LaidTwice(g: Guid, a: u64, b: u64)
    ensures Xor(a, b) < TWO64 && Laid(Laid(g, a), b) == Laid(g, Xor(a, b))
  {
    XorOfU64(a, b);
    hide Laid, Le, Xor;
    var once, twice, both := Laid(g, a), Laid(Laid(g, a), b), Laid(g, Xor(a, b));
    forall i | 0 <= i < 16
      ensures twice[i] == both[i]
    {
      if i >= 8 {
        LeOfXor(a, b, 8, i - 8);
        XorAssociates(g[i], Le(a, 8)[i - 8], Le(b, 8)[i - 8]);
      }
    }
  }

  lemma LaidUnguarded(g: Guid, s: u64)
    requires g[..8] != Zeros(8)
    ensures Stir(g, s) == Laid(g, s) && Stir(g, s)[..8] == g[..8]
  {
    var l := Laid(g, s);
    assert l[..8] == g[..8];
    assert Zeros(16)[..8] == Zeros(8);
  }

  /** The GUID after `k` stirs by consecutive numbers from `s`. */
  function StirRun(g: Guid, s: nat, k: nat): Guid
    requires s + k <= TWO64
  {
    if k == 0 then g else Stir(StirRun(g, s, k - 1), s + k - 1)
  }

  /** Their exclusive or. */
  function XorRun(s: nat, k: nat): (x: u64)
    requires s + k <= TWO64
  {
    if k == 0 then 0
    else
      XorOfU64(XorRun(s, k - 1), s + k - 1);
      Xor(XorRun(s, k - 1), s + k - 1)
  }

  lemma {:induction false} StirRunIsLaid(g: Guid, s: nat, k: nat)
    requires s + k <= TWO64 && g[..8] != Zeros(8)
    ensures StirRun(g, s, k) == Laid(g, XorRun(s, k)) && StirRun(g, s, k)[..8] == g[..8]
    decreases k
  {
    hide Stir, Laid, Xor;
    if k == 0 {
      LaidZero(g);
    } else {
      StirRunIsLaid(g, s, k - 1);
      LaidUnguarded(StirRun(g, s, k - 1), s + k - 1);
      LaidTwice(g, XorRun(s, k - 1), s + k - 1);
    }
  }

  /** The exclusive or of `1..n`. */
  function XorTo(n: nat): nat {
    if n % 4 == 0 then n else if n % 4 == 1 then 1 else if n % 4 == 2 then n + 1 else 0
  }

  lemma XorPair(b: nat)
    requires b % 2 == 0
    ensures Xor(b, b + 1) == 1 && Xor(1, b) == b + 1
  {
    hide Xor;
    XorParts(b, b + 1);
    XorParts(1, b);
    XorSelf(b / 2);
    XorZero(b / 2);
  }

  lemma XorToAt(q: nat, r: nat)
    requires r < 4
    ensures XorTo(4 * q + r) == if r == 0 then 4 * q else if r == 1 then 1 else if r == 2 then 4 * q + 3 else 0
  {
    assert (4 * q + r) % 4 == r;
  }

  lemma XorToNextEven(q: nat)
    ensures Xor(XorTo(4 * q), 4 * q + 1) == XorTo(4 * q + 1)
    ensures Xor(XorTo(4 * q + 2), 4 * q + 3) == XorTo(4 * q + 3)
  {
    hide Xor, XorTo;
    XorToAt(q, 0);
    XorToAt(q, 1);
    XorToAt(q, 2);
    XorToAt(q, 3);
    XorPair(4 * q);
    XorSelf(4 * q + 3);
  }

  lemma XorToNextOdd(q: nat)
    ensures Xor(XorTo(4 * q + 1), 4 * q + 2) == XorTo(4 * q + 2)
    ensures Xor(XorTo(4 * q + 3), 4 * q + 4) == XorTo(4 * q + 4)
  {
    hide Xor, XorTo;
    XorToAt(q, 1);
    XorToAt(q, 2);
    XorToAt(q, 3);
    XorToAt(q + 1, 0);
    EvenPlusTwo(q);
    XorPair(4 * q + 2);
    XorZero(4 * q + 4);
  }

  lemma EvenPlusTwo(q: nat)
    ensures (4 * q + 2) % 2 == 0
  {
    Doubled(4 * q + 2, 2 * q + 1);
  }

  lemma Doubled(n: nat, k: nat)
    requires n == 2 * k
    ensures n % 2 == 0 && (n + 1) % 2 == 1
  {
  }

  lemma Fourfold(n: nat, p: nat, t: nat)
    requires n == 4 * p + t && t < 4
    ensures n % 4 == t
  {
  }

  lemma XorToNext(n: nat)
    requires n > 0
    ensures Xor(XorTo(n - 1), n) == XorTo(n)
  {
    hide Xor, XorTo;
    var q := (n - 1) / 4;
    XorToNextEven(q);
    XorToNextOdd(q);
    assert n - 1 == 4 * q || n - 1 == 4 * q + 1 || n - 1 == 4 * q + 2 || n - 1 == 4 * q + 3;
  }

  lemma XorToSameAt(q: nat, r: nat, p: nat, t: nat)
    requires r < 4 && t < 4
    ensures XorTo(4 * q + r) == XorTo(4 * q + r + (4 * p + t)) <==> Cancels(4 * q + r + 1, 4 * p + t)
  {
    hide XorTo, Cancels;
    XorToAt(q, r);
    CancelsAt(q, r, p, t);
    if r + t < 4 {
      XorToAt(q + p, r + t);
      assert 4 * (q + p) + (r + t) == 4 * q + r + (4 * p + t);
    } else {
      XorToAt(q + p + 1, r + t - 4);
      assert 4 * (q + p + 1) + (r + t - 4) == 4 * q + r + (4 * p + t);
    }
  }

  lemma CancelsAt(q: nat, r: nat, p: nat, t: nat)
    requires r < 4 && t < 4
    ensures Cancels(4 * q + r + 1, 4 * p + t)
      <==> (p == 0 && t == 0) || ((r == 1 || r == 3) && t == 0) || (q == 0 && r == 0 && t == 3)
  {
    var s, k := 4 * q + r + 1, 4 * p + t;
    Fourfold(k, p, t);
    if r == 0 {
      Doubled(4 * q, 2 * q);
    } else if r == 1 {
      Doubled(s, 2 * q + 1);
    } else if r == 2 {
      Doubled(4 * q + 2, 2 * q + 1);
    } else {
      Doubled(s, 2 * q + 2);
    }
  }

  lemma {:induction false} XorRunIs(s: nat, k: nat)
    requires 0 < s && s + k <= TWO64
    ensures Xor(XorTo(s - 1), XorRun(s, k)) == XorTo(s + k - 1)
    decreases k
  {
    hide Xor, XorTo;
    if k == 0 {
      XorZero(XorTo(s - 1));
    } else {
      XorRunIs(s, k - 1);
      XorAssociates(XorTo(s - 1), XorRun(s, k - 1), s + k - 1);
      XorToNext(s + k - 1);
    }
  }

  /** A run of `k` numbers from `s` on cancels: the first number of a run is at least 1. */
  predicate Cancels(s: nat, k: nat) { k == 0 || (s % 2 == 0 && k % 4 == 0) || (s == 1 && k % 4 == 3) }

  lemma XorRunZero(s: nat, k: nat)
    requires 0 < s && s + k <= TWO64
    ensures XorRun(s, k) == 0 <==> Cancels(s, k)
  {
    hide Xor, XorRun, XorTo, Cancels;
    XorRunIs(s, k);
    XorKeeps(XorTo(s - 1), XorRun(s, k));
    var q, r, p, t := (s - 1) / 4, (s - 1) % 4, k / 4, k % 4;
    assert s - 1 == 4 * q + r && k == 4 * p + t;
    XorToSameAt(q, r, p, t);
  }

  /** A GUID comes back after `k` consecutive stirs exactly when the exclusive or of the
      sequence numbers is zero, if its first half keeps the guard from firing: that is,
      from an even number after every fourth stir, and from 1 after every fourth but one. */
  lemma StirsReturn(g: Guid, s: nat, k: nat)
    requires 0 < s && s + k <= TWO64 && g[..8] != Zeros(8)
    ensures StirRun(g, s, k) == g <==> XorRun(s, k) == 0
    ensures StirRun(g, s, k) == g <==> Cancels(s, k)
  {
    hide Stir, Laid, Xor, StirRun, XorRun, Cancels;
    StirRunIsLaid(g, s, k);
    XorRunZero(s, k);
    LaidZero(g);
    if StirRun(g, s, k) == g {
      LaidInjective(g, XorRun(s, k), 0);
    }
  }

  /** The loop over the sequence number's bytes, and the guard. */
  method StirSequenceIntoGuid(guid: array<byte>, sequence: u64)
    requires guid.Length == 16
    modifies guid
    ensures guid[..] == Stir(old(guid[..]), sequence)
  {
    var bytes := Le(sequence, 8);
    ghost var laid := Laid(guid[..], sequence);
    var i := 0;
    while i < 8
      invariant 0 <= i <= 8
      invariant forall k :: 0 <= k < 16 ==> guid[k] == if 8 <= k < 8 + i then laid[k] else old(guid[k])
    {
      guid[8 + i] := Xor8(guid[8 + i], bytes[i]);
      i := i + 1;
    }
    assert guid[..] == laid;
    if forall k :: 0 <= k < 16 ==> guid[k] == 0 {
      assert guid[..] == Zeros(16);
      guid[0] := 1;
    }
  }

  /** A copy of a GUID, stirred. */
  method Stirred(g: Guid, sequence: u64) returns (r: Guid)
    ensures r == Stir(g, sequence)
  {
    var copy := new byte[16](i requires 0 <= i < 16 => g[i]);
    assert copy[..] == g;
    StirSequenceIntoGuid(copy, sequence);
    return copy[..];
  }
}
