/** An image nothing has been written to: six megabytes with the structures the format
    asks for and an empty disk, with a log or without one. It is well formed, so the
    theorems about
    well-formed images and about every run from one have something to start from. */
module FreshImage {
  import opened Bytes
  import opened Devices
  import opened Headers
  import opened Bat
  import opened Open
  import opened Tables
  import opened Reader
  import opened Image
  import opened Recovery
  import opened CrashSafety
  import opened Atomicity
  import opened Allocator
  import opened Provisioning
  import opened Sessions
  import opened WriteCrash

  const SIZE: nat := 6 * ONE_MIB
  const LOG_AT: nat := ONE_MIB
  const LOG_SIZE: nat := 2 * ONE_MIB
  const BAT_AT: nat := 3 * ONE_MIB
  const METADATA_AT: nat := 4 * ONE_MIB
  const METADATA_SIZE: nat := 0x1_0000

  /** Where there is room for one block. */
  const BLOCK_AT: nat := 5 * ONE_MIB

  const ROWS: seq<RegionRow> :=
    [RegionRow(BAT_GUID, BAT_AT, ONE_MIB, true), RegionRow(METADATA_GUID, METADATA_AT, METADATA_SIZE, true)]
  const METADATA: Region := Region(MetadataRegion, METADATA_AT, METADATA_SIZE, true)
  const TABLE: RegionTable := [Region(BatRegion, BAT_AT, ONE_MIB, true), METADATA]

  function FreshMetadata(): (b: Buf)
    ensures |b| == METADATA_SIZE
  {
    EncodedMetadata(METADATA_SIZE, ONE_MIB, 4 * ONE_MIB, 512, false)
  }

  // ---- An image with any header and any log ----

  function ImageByte(h: Header, log: Buf, spot: byte, i: nat): byte
    requires |log| == LOG_SIZE
  {
    if i < 8 then IDENTIFIER[i]
    else if 0x1_0000 <= i < 0x1_1000 then EncodedHeader(h)[i - 0x1_0000]
    else if TABLE1 <= i < TABLE2 then EncodedTable(ROWS)[i - TABLE1]
    else if LOG_AT <= i < BAT_AT then log[i - LOG_AT]
    else if METADATA_AT <= i < METADATA_AT + METADATA_SIZE then FreshMetadata()[i - METADATA_AT]
    else if i == BLOCK_AT then spot
    else 0
  }

  /** The identifier, one header, one region table, the log, an empty BAT, the metadata,
      and one byte where a block could lie. */
  function Built(h: Header, log: Buf, spot: byte): (d: Buf)
    requires |log| == LOG_SIZE
    ensures |d| == SIZE && forall i :: 0 <= i < SIZE ==> d[i] == ImageByte(h, log, spot, i)
  {
    seq(SIZE, i requires 0 <= i => ImageByte(h, log, spot, i))
  }

  lemma BuiltLow(h: Header, log: Buf, spot: byte)
    requires |log| == LOG_SIZE
    ensures var d := Built(h, log, spot);
      d[..8] == IDENTIFIER && d[0x1_0000..0x1_1000] == EncodedHeader(h) && d[0x2_0000..0x2_1000] == Zeros(HEADER_SIZE)
      && d[TABLE1..TABLE1 + TABLE_SIZE] == EncodedTable(ROWS)
  {
    hide EncodedHeader, EncodedTable, FreshMetadata;
  }

  lemma BuiltHigh(h: Header, log: Buf, spot: byte)
    requires |log| == LOG_SIZE
    ensures var d := Built(h, log, spot);
      d[LOG_AT..BAT_AT] == log && d[BAT_AT..BAT_AT + 32] == Zeros(32) && d[BLOCK_AT] == spot
      && d[METADATA_AT..METADATA_AT + METADATA_SIZE] == FreshMetadata()
  {
    hide EncodedHeader, EncodedTable, FreshMetadata;
  }

  lemma BuiltPick(h: Header, log: Buf, spot: byte)
    requires |log| == LOG_SIZE && h.version == 1
    ensures PickHeader(Built(h, log, spot)) == Ok((h, One))
  {
    hide Built, EncodedHeader, ParseHeader;
    BuiltLow(h, log, spot);
    HeaderRoundTrip(h);
    NoHeaderInZeros();
  }

  lemma NoHeaderInZeros()
    ensures ParseHeader(Zeros(HEADER_SIZE)).Err?
  {
    hide HeaderCrc;
    assert Zeros(HEADER_SIZE)[0..4][0] != HEAD[0];
  }

  lemma KindsOfRows()
    ensures KindOf(BAT_GUID) == BatRegion && KindOf(METADATA_GUID) == MetadataRegion
  {
    assert METADATA_GUID[0] != BAT_GUID[0];
  }

  /** The crate's decoders find the region table and the geometry in the bytes. */
  lemma BuiltTables(h: Header, log: Buf, spot: byte)
    requires |log| == LOG_SIZE
    ensures var d, dec := Built(h, log, spot), CrateDecoders();
      PickTable(d, dec) == Ok(TABLE) && LoadGeometry(d, TABLE, dec) == Ok(FreshGeometry())
  {
    hide Built, EncodedTable, EncodedMetadata, ParseTable, ParseMetadata, LegalGeometry, LegalBlockSize, KindOf;
    BuiltLow(h, log, spot);
    BuiltHigh(h, log, spot);
    TableRoundTrip(ROWS);
    KindsOfRows();
    assert seq(2, i requires 0 <= i < 2 => RegionOf(ROWS[i])) == TABLE;
    MetadataRoundTrip(METADATA_SIZE, ONE_MIB, 4 * ONE_MIB, 512, false);
    FindRegions();
    FreshChecked();
  }

  lemma FindRegions()
    ensures Find(TABLE, MetadataRegion) == Some(METADATA) && Find(TABLE, BatRegion) == Some(TABLE[0])
  {
    assert TABLE[1..][0] == METADATA && TABLE[0].kind == BatRegion;
  }

  lemma FreshChecked()
    ensures CheckGeometry(Metadata(ONE_MIB, 4 * ONE_MIB, 512, false, false)) == Ok(FreshGeometry())
  {
    hide LegalGeometry, LegalBlockSize;
    MegabyteIsPower();
  }

  lemma FreshRatio()
    ensures LegalGeometry(FreshGeometry())
  {
  }

  lemma FreshRequired()
    ensures RequiredEntries(ONE_MIB, 4 * ONE_MIB, ONE_MIB, 4096) == Ok(4) && !UnknownRequired(TABLE)
  {
  }

  function FreshSetting(capacity: nat): Setting { Setting(capacity, TABLE, METADATA, CrateDecoders()) }

  function FreshGeometry(): Geometry { Geometry(ONE_MIB, 512, 4 * ONE_MIB, 4096) }

  /** The reader of such an image. */
  function BuiltState(h: Header, bat: seq<BatEntry>): ReaderState {
    ReaderState(SIZE, h, One, FreshGeometry(), BAT_AT, bat, true)
  }

  lemma BuiltAnchored(h: Header, log: Buf, spot: byte, bat: seq<BatEntry>, capacity: nat)
    requires |log| == LOG_SIZE && |bat| == 4
    ensures Anchored(Built(h, log, spot), BuiltState(h, bat), FreshSetting(capacity))
  {
    hide Built, LegalGeometry, LoadGeometry, PickTable, CrateDecoders, RequiredEntries, Find, UnknownRequired;
    BuiltLow(h, log, spot);
    FreshRatio();
    BuiltTables(h, log, spot);
    FindRegions();
    FreshRequired();
  }

  // ---- Nothing written ----

  function FreshHeader(logged: bool): Header {
    Header(1, Zeros(16), Zeros(16), Zeros(16), 0, 1, if logged then LOG_SIZE else 0, if logged then LOG_AT else 0)
  }

  function EmptyTable(): (bat: seq<BatEntry>)
    ensures |bat| == 4
  {
    seq(4, _ => BatEntry(NotPresent, 0))
  }

  function FreshState(logged: bool): ReaderState { BuiltState(FreshHeader(logged), EmptyTable()) }

  function FreshBytes(logged: bool): (d: Buf)
    ensures |d| == SIZE
  {
    Built(FreshHeader(logged), Zeros(LOG_SIZE), 0)
  }

  lemma {:induction false} ZerosAreZero(n: nat)
    ensures LeNat(Zeros(n)) == 0
  {
    if n > 0 {
      ZerosAreZero(n - 1);
      assert Zeros(n)[1..] == Zeros(n - 1);
    }
  }

  /** A table of zeros is a table of absent blocks. */
  lemma EmptyBat(d: Buf, st: ReaderState)
    requires st.batOffset == BAT_AT && |st.bat| == 4 && |d| >= BAT_AT + 32 && d[BAT_AT..BAT_AT + 32] == Zeros(32)
    ensures BatOf(d, st) == EmptyTable()
  {
    hide LeNat, BatOf;
    BatOfLength(d, st);
    forall k | 0 <= k < 4
      ensures BatOf(d, st)[k] == EmptyTable()[k]
    {
      BatOfEntry(d, st, k);
      SubSlice(d, BAT_AT, BAT_AT + 32, k * ENTRY_BYTES, k * ENTRY_BYTES + 8);
      assert Zeros(32)[k * ENTRY_BYTES..k * ENTRY_BYTES + 8] == Zeros(8);
      ZerosAreZero(8);
    }
  }

  lemma FreshAnchored(logged: bool, capacity: nat)
    ensures Anchored(FreshBytes(logged), FreshState(logged), FreshSetting(capacity))
  {
    hide Built, Anchored, CrateDecoders;
    BuiltAnchored(FreshHeader(logged), Zeros(LOG_SIZE), 0, EmptyTable(), capacity);
  }

  lemma FreshLayout(logged: bool)
    ensures Layout(FreshState(logged), METADATA, SIZE)
  {
    hide DataBatIndex, InDisk;
    var st := FreshState(logged);
    forall b: nat
      ensures !Present(st.geometry, st.bat, b)
    {
    }
  }

  /** It is well formed, with room for any number of journalled writes the header's
      sequence number allows. */
  lemma FreshIsWellFormed(logged: bool, capacity: nat, n: nat)
    requires SIZE <= capacity < 0x8000_0000_0000_0000 && n < TWO64 - 2
    ensures WellFormed(FreshBytes(logged), FreshState(logged), FreshSetting(capacity), n)
  {
    hide Built, Anchored, Layout, PickHeader, BatOf, RoomFor, LegalGeometry, CrateDecoders;
    var d, st, h, log := FreshBytes(logged), FreshState(logged), FreshHeader(logged), Zeros(LOG_SIZE);
    FreshAnchored(logged, capacity);
    FreshLayout(logged);
    BuiltPick(h, log, 0);
    BuiltHigh(h, log, 0);
    EmptyBat(d, st);
    FreshRatio();
    if logged {
      RoomInZeros(LOG_SIZE, h, n);
    }
    MakesWellFormed(d, st, FreshSetting(capacity), n);
  }

  /** Its disk is all zeros. */
  lemma FreshDisk(logged: bool)
    ensures Disk(FreshBytes(logged), FreshGeometry(), FreshState(logged).bat) == Zeros(4 * ONE_MIB)
  {
    hide Built, DataBatIndex, BlockOf, InBlock;
  }

  lemma FreshAbsent(logged: bool)
    ensures Absent(FreshGeometry(), FreshState(logged).bat, 4) <= 4 && BlockCount(FreshGeometry()) == 4
  {
    hide Absent;
  }

  /** With room for its four blocks it is provisioned too. */
  lemma FreshIsProvisioned(logged: bool, capacity: nat)
    requires 10 * ONE_MIB <= capacity
    ensures Provisioned(FreshState(logged), capacity)
  {
    hide Built, Absent;
    var st, g := FreshState(logged), FreshGeometry();
    FreshAbsent(logged);
    AlignedFixed(SIZE, ONE_MIB);
    hide AlignUp;
    assert Nth(SIZE, ONE_MIB, 0) == SIZE && Nth(SIZE, ONE_MIB, 1) == SIZE + ONE_MIB;
    assert Nth(SIZE, ONE_MIB, 2) == SIZE + 2 * ONE_MIB && Nth(SIZE, ONE_MIB, 3) == SIZE + 3 * ONE_MIB;
    forall b: nat | InDisk(g, b)
      ensures ReadableBlock(g, st.bat, b)
    {
    }
  }

  /** From it, with no condition but the length of the run and the room, any calls are
      calls on an array of zeros and none in range fails; and after any crash of the
      write that follows, exactly its finished pieces are there. */
  lemma FreshRuns(logged: bool, capacity: nat, calls: seq<Call>, offset: u64, buf: Buf, c: Crash, w: bool)
    requires 10 * ONE_MIB <= capacity < 0x8000_0000_0000_0000
    requires Pieces(FreshGeometry(), offset, |buf|) + Cost(FreshGeometry(), calls) < TWO64 - 4
    ensures ReaderOk(FreshBytes(logged), FreshState(logged), capacity)
    ensures var s, g := Serve(FreshBytes(logged), FreshState(logged), capacity, calls), FreshGeometry();
      ReaderOk(s.d, s.st, capacity) && s.st.geometry == g
      && var ops, disk := WriteRun(s.d, s.st, capacity, offset, buf).ops, Disk(s.d, g, s.st.bat);
         FlatRun(g, true, Zeros(4 * ONE_MIB), calls, s.replies, disk)
         && (CrashOf(ops, c) && TornDetected(s.d, s.st, ops, c) ==>
               WriteOutcome(CrashState(s.d, ops, c), FreshSetting(capacity), w, 0, disk, g, offset, buf,
                            TornPayload(s.st, ops, c), FinishedOf(s.d, s.st, capacity, offset, buf, c.k)))
  {
    hide WellFormed, ReaderOk, Disk, Serve, FlatRun, WriteRun, WriteOutcome, CrashOf, CrashState, TornDetected,
      TornPayload, Pieces, Cost, FreshBytes, CrateDecoders, Zeros, FinishedOf, Provisioned;
    var g := FreshGeometry();
    var n := 2 + Pieces(g, offset, |buf|) + Cost(g, calls);
    FreshIsWellFormed(logged, capacity, n);
    FreshIsProvisioned(logged, capacity);
    OkOfWellFormed(FreshBytes(logged), FreshState(logged), FreshSetting(capacity), n);
    FreshDisk(logged);
    RunThenCrash(FreshBytes(logged), FreshState(logged), FreshSetting(capacity), 0, true, calls, offset, buf, c, w);
  }
}
