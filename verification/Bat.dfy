/** The block allocation table (src/bat.rs; section 2.5 of MS-VHDX), and whether a
    declared region covers the disk (`bat_region_covers_the_disk` in src/reader.rs). */
module Bat {
  import opened Bytes

  const ONE_MIB: nat := 0x10_0000
  const ENTRY_BYTES: nat := 8

  datatype PayloadState =
    | NotPresent | Undefined | Zero | Unmapped | FullyPresent | PartiallyPresent | Reserved(v: nat)
  {
    predicate ZeroFill() { NotPresent? || Undefined? || Zero? || Unmapped? }
    predicate Readable() { FullyPresent? || ZeroFill() }
  }

  function StateFrom(v: nat): PayloadState {
    if v == 0 then NotPresent
    else if v == 1 then Undefined
    else if v == 2 then Zero
    else if v == 3 then Unmapped
    else if v == 6 then FullyPresent
    else if v == 7 then PartiallyPresent
    else Reserved(v)
  }

  datatype BatEntry = BatEntry(state: PayloadState, fileOffset: u64)

  /** State in the low three bits, megabytes in the top forty-four. */
  function FromU64(raw: u64): BatEntry {
    BatEntry(StateFrom(raw % 8), raw / ONE_MIB * ONE_MIB)
  }

  /** The raw entry the writer publishes for a block at `off`. */
  function PresentAt(off: u64): u64
    requires off < TWO64 - ONE_MIB
  {
    off / ONE_MIB * ONE_MIB + 6
  }

  lemma PresentRoundTrip(off: u64)
    requires off < TWO64 - ONE_MIB && off % ONE_MIB == 0
    ensures FromU64(PresentAt(off)) == BatEntry(FullyPresent, off)
  {
  }

  /** What each number in a raw entry means: its low three bits say whether the block reads
      as zeros (0 to 3), is there (6), is there in part (7) or is not to be read (4, 5), and
      its upper forty-four where it begins. */
  lemma RawEntry(raw: u64)
    ensures var e := FromU64(raw);
      e.fileOffset == raw - raw % 0x10_0000
      && (e.state.ZeroFill() <==> raw % 8 in {0, 1, 2, 3}) && (e.state.FullyPresent? <==> raw % 8 == 6)
      && (e.state.PartiallyPresent? <==> raw % 8 == 7) && (e.state.Reserved? <==> raw % 8 in {4, 5})
      && (e.state.Readable() <==> raw % 8 !in {4, 5, 7})
      && (e.state.NotPresent? <==> raw % 8 == 0) && (e.state.Undefined? <==> raw % 8 == 1)
      && (e.state.Zero? <==> raw % 8 == 2) && (e.state.Unmapped? <==> raw % 8 == 3)
      && (e.state.Reserved? ==> e.state.v == raw % 8)
  {
    assert raw == raw / ONE_MIB * ONE_MIB + raw % ONE_MIB;
  }

  // ---- Geometry ----

  predicate IsPowerOfTwo(n: nat) { n == 1 || (n > 1 && n % 2 == 0 && IsPowerOfTwo(n / 2)) }

  /** The nine block sizes there are. */
  predicate LegalBlockSize(n: nat) {
    n == ONE_MIB || n == 2 * ONE_MIB || n == 4 * ONE_MIB || n == 8 * ONE_MIB || n == 16 * ONE_MIB || n == 32 * ONE_MIB
    || n == 64 * ONE_MIB || n == 128 * ONE_MIB || n == 256 * ONE_MIB
  }

  /** Two powers of two within a factor of two are the same. */
  lemma {:induction false} OnePowerBetween(n: nat, p: nat)
    requires IsPowerOfTwo(n) && IsPowerOfTwo(p) && p <= n < 2 * p
    ensures n == p
    decreases n
  {
    if n > 1 && p > 1 {
      OnePowerBetween(n / 2, p / 2);
    }
  }

  lemma {:induction false} PowerDoubles(n: nat)
    requires IsPowerOfTwo(n)
    ensures n > 0 && IsPowerOfTwo(2 * n)
  {
  }

  lemma FourDoublings(n: nat)
    requires IsPowerOfTwo(n)
    ensures IsPowerOfTwo(16 * n)
  {
    hide IsPowerOfTwo;
    PowerDoubles(n);
    PowerDoubles(2 * n);
    PowerDoubles(4 * n);
    PowerDoubles(8 * n);
  }

  lemma MegabyteIsPower()
    ensures IsPowerOfTwo(ONE_MIB)
  {
    assert IsPowerOfTwo(1);
    hide IsPowerOfTwo;
    FourDoublings(1);
    FourDoublings(16);
    FourDoublings(256);
    FourDoublings(4096);
    FourDoublings(0x1_0000);
  }

  lemma NextSize(n: nat, p: nat)
    requires IsPowerOfTwo(p)
    ensures IsPowerOfTwo(2 * p)
    ensures IsPowerOfTwo(n) && p <= n ==> n == p || n >= 2 * p
  {
    PowerDoubles(p);
    if IsPowerOfTwo(n) && p <= n < 2 * p {
      OnePowerBetween(n, p);
    }
  }

  /** They are the powers of two that `open` lets through. */
  lemma LegalSizes(n: nat)
    ensures LegalBlockSize(n) <==> IsPowerOfTwo(n) && ONE_MIB <= n <= 256 * ONE_MIB
  {
    hide IsPowerOfTwo;
    MegabyteIsPower();
    NextSize(n, ONE_MIB);
    NextSize(n, 2 * ONE_MIB);
    NextSize(n, 4 * ONE_MIB);
    NextSize(n, 8 * ONE_MIB);
    NextSize(n, 16 * ONE_MIB);
    NextSize(n, 32 * ONE_MIB);
    NextSize(n, 64 * ONE_MIB);
    NextSize(n, 128 * ONE_MIB);
  }

  predicate LegalSectorSize(n: nat) { n == 512 || n == 4096 }

  function ChunkRatio(blockSize: nat, sectorSize: nat): nat
    requires blockSize > 0
  {
    0x80_0000 * sectorSize / blockSize
  }

  lemma ChunkRatioBounds(blockSize: nat, sectorSize: nat)
    requires LegalBlockSize(blockSize) && LegalSectorSize(sectorSize)
    ensures 16 <= ChunkRatio(blockSize, sectorSize) <= 32768
  {
    var n := 0x80_0000 * sectorSize;
    QuotientBounds(n, blockSize, 16, 32768);
  }

  /** A chunk holds exactly 2^23 sectors. */
  lemma ChunkIsSectors(blockSize: nat, sectorSize: nat)
    requires LegalBlockSize(blockSize) && LegalSectorSize(sectorSize)
    ensures ChunkRatio(blockSize, sectorSize) * blockSize == 0x80_0000 * sectorSize
  {
  }

  lemma QuotientBounds(n: nat, d: nat, lo: nat, hi: nat)
    requires d > 0 && lo * d <= n <= hi * d
    ensures lo <= n / d <= hi
  {
    MulCancel(lo, n / d + 1, d);
    MulCancel(n / d, hi + 1, d);
  }

  function DataBatIndex(block: nat, ratio: nat): nat
    requires ratio > 0
  {
    block / ratio * (ratio + 1) + block % ratio
  }

  /** One bitmap entry has been stepped over for each whole chunk before the block. */
  lemma IndexSkipsBitmaps(block: nat, ratio: nat)
    requires ratio > 0
    ensures DataBatIndex(block, ratio) == block + block / ratio
  {
    var q, r := block / ratio, block % ratio;
    assert q * (ratio + 1) == q * ratio + q;
  }

  lemma QuotientMonotone(a: nat, b: nat, d: nat)
    requires a <= b && d > 0
    ensures a / d <= b / d
  {
    MulCancel(a / d, b / d + 1, d);
  }

  lemma IndexIncreases(a: nat, b: nat, ratio: nat)
    requires ratio > 0 && a < b
    ensures DataBatIndex(a, ratio) < DataBatIndex(b, ratio)
  {
    IndexSkipsBitmaps(a, ratio);
    IndexSkipsBitmaps(b, ratio);
    QuotientMonotone(a, b, ratio);
  }

  /** Position `p` of the table holds a sector-bitmap entry. */
  predicate IsBitmapPosition(p: nat, ratio: nat)
  {
    p % (ratio + 1) == ratio
  }

  /** The payload entries are exactly the positions that are not bitmap entries. */
  lemma IndexHitsPayloadPositions(p: nat, ratio: nat)
    requires ratio > 0
    ensures (exists b: nat :: DataBatIndex(b, ratio) == p) <==> !IsBitmapPosition(p, ratio)
  {
    if b: nat :| DataBatIndex(b, ratio) == p {
      IndexIsPayload(p, ratio, b / ratio, b % ratio);
    }
    if !IsBitmapPosition(p, ratio) {
      PayloadIsIndex(p, ratio, p / (ratio + 1), p % (ratio + 1));
    }
  }

  lemma IndexIsPayload(p: nat, ratio: nat, q: nat, r: nat)
    requires r < ratio && p == q * (ratio + 1) + r
    ensures !IsBitmapPosition(p, ratio)
  {
    DivModUnique(p, ratio + 1, q, r);
  }

  lemma PayloadIsIndex(p: nat, ratio: nat, q: nat, r: nat)
    requires r < ratio && p == q * (ratio + 1) + r
    ensures DataBatIndex(q * ratio + r, ratio) == p
  {
    DivModUnique(q * ratio + r, ratio, q, r);
  }

  /** And no index overflows a u64, whatever the size of the disk. */
  lemma IndexFits(offset: u64, blockSize: nat, ratio: nat)
    requires blockSize >= ONE_MIB && ratio > 0
    ensures DataBatIndex(offset / blockSize, ratio) < 0x2000_0000_0000
  {
    var b := offset / blockSize;
    IndexSkipsBitmaps(b, ratio);
    MulCancel(b, 0x1000_0000_0000, blockSize);
    QuotientAtMost(b, ratio);
  }

  lemma QuotientAtMost(n: nat, d: nat)
    requires d > 0
    ensures n / d <= n
  {
    ProductAtLeast(n / d, d);
  }

  lemma {:induction false} ProductAtLeast(q: nat, d: nat)
    requires d > 0
    ensures q <= q * d
  {
    if d > 1 {
      ProductAtLeast(q, d - 1);
      assert q * d == q * (d - 1) + q;
    }
  }

  // ---- Coverage ----

  function LastBlock(virtualSize: nat, blockSize: nat): nat
    requires virtualSize > 0 && blockSize > 0
  {
    (virtualSize - 1) / blockSize
  }

  /** How many entries the disk needs: `bat_region_covers_the_disk`. */
  function RequiredEntries(regionLength: u32, virtualSize: u64, blockSize: nat, ratio: nat): Result<nat>
    requires blockSize > 0 && ratio > 0
  {
    if regionLength % ENTRY_BYTES != 0 then Err(Corrupt)
    else if virtualSize == 0 then Ok(0)
    else
      var n := DataBatIndex(LastBlock(virtualSize, blockSize), ratio) + 1;
      if n >= TWO64 || regionLength / ENTRY_BYTES < n then Err(Corrupt) else Ok(n)
  }

  /** The table a covered disk loads holds the entry of every byte of the disk, and
      no shorter table does. */
  lemma CoverageIsTight(regionLength: u32, virtualSize: u64, blockSize: nat, ratio: nat)
    requires blockSize > 0 && ratio > 0 && RequiredEntries(regionLength, virtualSize, blockSize, ratio).Ok?
    ensures var n := RequiredEntries(regionLength, virtualSize, blockSize, ratio).value;
      n * ENTRY_BYTES <= regionLength
      && (forall v :: 0 <= v < virtualSize ==> DataBatIndex(v / blockSize, ratio) < n)
      && (n > 0 ==> exists v :: 0 <= v < virtualSize && DataBatIndex(v / blockSize, ratio) == n - 1)
  {
    if virtualSize > 0 {
      var last := LastBlock(virtualSize, blockSize);
      forall v | 0 <= v < virtualSize
        ensures DataBatIndex(v / blockSize, ratio) <= DataBatIndex(last, ratio)
      {
        QuotientMonotone(v, virtualSize - 1, blockSize);
        if v / blockSize < last {
          IndexIncreases(v / blockSize, last, ratio);
        }
      }
      assert DataBatIndex((virtualSize - 1) / blockSize, ratio) == DataBatIndex(last, ratio);
    }
  }
}
