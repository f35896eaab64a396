/** Reading and writing through the BAT (src/reader.rs): what each call does to the
    device and to the reader, and the class that does it. */
module Reader {
  import opened Bytes
  import opened LogFormat
  import opened Devices
  import opened Guids
  import opened Headers
  import opened Bat
  import opened Open

  // ---- Pieces of a transfer ----

  datatype BlockChunk = BlockChunk(inBlock: nat, batIndex: nat, bufPos: nat, len: nat)

  function ChunkAt(g: Geometry, cursor: nat, end: nat, bufPos: nat): (c: BlockChunk)
    requires g.blockSize > 0 && g.ratio > 0 && cursor < end
    ensures 0 < c.len <= end - cursor && c.inBlock + c.len <= g.blockSize
  {
    var inBlock := cursor % g.blockSize;
    BlockChunk(inBlock, DataBatIndex(cursor / g.blockSize, g.ratio), bufPos, Min(g.blockSize - inBlock, end - cursor))
  }

  /** `cursor..end` split where it crosses block boundaries. */
  function Chunks(g: Geometry, cursor: nat, end: nat, bufPos: nat): seq<BlockChunk>
    requires g.blockSize > 0 && g.ratio > 0
    decreases end - cursor
  {
    if cursor >= end then []
    else
      var c := ChunkAt(g, cursor, end, bufPos);
      [c] + Chunks(g, cursor + c.len, end, bufPos + c.len)
  }

  method BlockChunks(g: Geometry, offset: nat, end: nat) returns (chunks: seq<BlockChunk>)
    requires g.blockSize > 0 && g.ratio > 0
    ensures chunks == Chunks(g, offset, end, 0)
  {
    chunks := [];
    var cursor, bufPos := offset, 0;
    while cursor < end
      invariant cursor >= 0 && bufPos >= 0
      invariant chunks + Chunks(g, cursor, end, bufPos) == Chunks(g, offset, end, 0)
      decreases end - cursor
    {
      hide ChunkAt;
      var c := ChunkAt(g, cursor, end, bufPos);
      ghost var rest := Chunks(g, cursor + c.len, end, bufPos + c.len);
      assert Chunks(g, cursor, end, bufPos) == [c] + rest;
      hide Chunks;
      assert chunks + ([c] + rest) == (chunks + [c]) + rest;
      chunks := chunks + [c];
      cursor, bufPos := cursor + c.len, bufPos + c.len;
    }
  }

  /** The end of a transfer; nothing for an empty one. */
  function TransferEnd(virtualSize: u64, offset: u64, len: nat): Result<Option<nat>> {
    if len == 0 then Ok(None)
    else if offset + len >= TWO64 then Err(Corrupt)
    else if offset + len > virtualSize then Err(OutOfBounds)
    else Ok(Some(offset + len))
  }

  function HostOffset(devSize: nat, fileOffset: u64, inBlock: nat, len: nat): Result<nat> {
    if fileOffset + inBlock + len > devSize then Err(Corrupt) else Ok(fileOffset + inBlock)
  }

  // ---- Reading ----

  function ReadChunk(d: Buf, st: ReaderState, c: BlockChunk): (r: Result<Buf>)
    requires |d| == st.devSize
    ensures r.Ok? ==> |r.value| == c.len
  {
    if c.batIndex >= |st.bat| then Err(Corrupt)
    else
      var e := st.bat[c.batIndex];
      if e.state.FullyPresent? then
        var host :- HostOffset(st.devSize, e.fileOffset, c.inBlock, c.len);
        Ok(d[host..host + c.len])
      else if e.state.ZeroFill() then Ok(Zeros(c.len))
      else Err(Unsupported)
  }

  function ReadChunks(d: Buf, st: ReaderState, cs: seq<BlockChunk>): Result<Buf>
    requires |d| == st.devSize
  {
    if cs == [] then Ok([])
    else
      var first :- ReadChunk(d, st, cs[0]);
      var rest :- ReadChunks(d, st, cs[1..]);
      Ok(first + rest)
  }

  function ReadRun(d: Buf, st: ReaderState, offset: u64, len: nat): Result<Buf>
    requires |d| == st.devSize && LegalGeometry(st.geometry)
  {
    var end :- TransferEnd(st.geometry.virtualSize, offset, len);
    match end
    case None => Ok([])
    case Some(end) => ReadChunks(d, st, Chunks(st.geometry, offset, end, 0))
  }

  // ---- Writing ----

  /** The device operations of a step, the reader after it, and its result. */
  datatype Step = Step(ops: seq<DevOp>, st: ReaderState, result: Result<()>)

  function AlignUp(n: nat, blockSize: nat): (r: nat)
    requires blockSize > 0
  {
    (n + blockSize - 1) / blockSize * blockSize
  }

  /** The header `journal_sector_write` rotates in. */
  function JournalledHeader(h: Header): Header {
    var sequence := (h.sequence + 1) % TWO64;
    h.(sequence := sequence, logGuid := Stir(h.logGuid, sequence),
       fileWriteGuid := Stir(h.fileWriteGuid, sequence), dataWriteGuid := Stir(h.dataWriteGuid, sequence))
  }

  function JournalEntry(st: ReaderState, off: u64, sector: Sector): (b: Buf)
    requires st.devSize < TWO64
    ensures |b| == 8192
  {
    assert RoundUpSector(ENTRY_HEADER + 1 * DESCRIPTOR) == SECTOR;
    var next := JournalledHeader(st.header);
    EncodedEntry(next.sequence, 0, next.logGuid, st.devSize, st.devSize, [PendingWrite(off, sector)])
  }

  predicate Journals(h: Header) { h.logLength != 0 && h.logOffset != 0 && h.logLength >= 8192 }

  function Journal(st: ReaderState, off: u64, sector: Sector): Step
    requires st.devSize < TWO64
  {
    if !Journals(st.header) then Step([], st, Ok(()))
    else
      var next, slot := JournalledHeader(st.header), st.slot.Other();
      var entry := JournalEntry(st, off, sector);
      if |entry| > st.header.logLength then Step([], st, Ok(()))
      else
        Step([Write(st.header.logOffset, entry), Flush, Write(slot.Offset(), EncodedHeader(next)), Flush],
             st.(header := next, slot := slot), Ok(()))
  }

  /** Where the BAT entry's sector starts. */
  function SectorOf(st: ReaderState, index: nat): nat {
    (st.batOffset + index * ENTRY_BYTES) / SECTOR * SECTOR
  }

  /** The whole of the entry lies in that sector. */
  predicate InSector(batOffset: nat, index: nat) { (batOffset + index * ENTRY_BYTES) % SECTOR + ENTRY_BYTES <= SECTOR }

  /** That sector with the entry of a block at `at` spliced in. */
  function PublishedSector(d: Buf, st: ReaderState, index: nat, at: u64): Sector
    requires SectorOf(st, index) + SECTOR <= |d| && InSector(st.batOffset, index) && at < TWO64 - ONE_MIB
  {
    var off := SectorOf(st, index);
    Splice(d[off..off + SECTOR], st.batOffset + index * ENTRY_BYTES - off, Le(PresentAt(at), 8))
  }

  /** What a reader from `open` can rely on. */
  ghost predicate ReaderOk(d: Buf, st: ReaderState, capacity: nat) {
    |d| == st.devSize <= capacity < 0x8000_0000_0000_0000
    && LegalGeometry(st.geometry)
    && LogRegionValid(|d|, st.header) && st.header.version == 1
    && st.batOffset + |st.bat| * ENTRY_BYTES <= |d|
  }

  lemma AlignUpBounds(n: nat, blockSize: nat)
    requires blockSize > 0
    ensures n <= AlignUp(n, blockSize) < n + blockSize && AlignUp(n, blockSize) % blockSize == 0
  {
    var m := n + blockSize - 1;
    DivModUnique(m / blockSize * blockSize, blockSize, m / blockSize, 0);
  }

  lemma MultipleOfMultiple(r: nat, a: nat, b: nat)
    requires a > 0 && b > 0 && r % a == 0 && a % b == 0
    ensures r % b == 0
  {
    var q, k := r / a, a / b;
    assert r == q * (k * b) == (q * k) * b;
    DivModUnique(r, b, q * k, 0);
  }

  lemma AlignedUp(n: nat, blockSize: nat)
    requires LegalBlockSize(blockSize)
    ensures var r := AlignUp(n, blockSize);
      n <= r < n + blockSize && r % blockSize == 0 && r % ONE_MIB == 0 && blockSize % ONE_MIB == 0 && r % SECTOR == 0
  {
    hide AlignUp, LegalBlockSize;
    BlockIsMegabytes(blockSize);
    AlignUpBounds(n, blockSize);
    MultipleOfMultiple(AlignUp(n, blockSize), blockSize, ONE_MIB);
    MultipleOfMultiple(AlignUp(n, blockSize), ONE_MIB, SECTOR);
  }

  lemma BlockIsMegabytes(n: nat)
    requires LegalBlockSize(n)
    ensures n > 0 && n % ONE_MIB == 0
  {
  }

  lemma SectorInside(d: Buf, st: ReaderState, capacity: nat, index: nat)
    requires ReaderOk(d, st, capacity) && index < |st.bat|
    ensures SectorOf(st, index) % SECTOR == 0
    ensures SectorOf(st, index) <= st.batOffset + index * ENTRY_BYTES
    ensures InSector(st.batOffset, index) <==> st.batOffset + index * ENTRY_BYTES + 8 <= SectorOf(st, index) + SECTOR
    ensures SectorOf(st, index) + SECTOR <= AlignUp(|d|, st.geometry.blockSize)
  {
    hide AlignUp, LegalGeometry, LogRegionValid, SectorOf;
    BlockSizeIsLegal(st.geometry);
    AlignedUp(|d|, st.geometry.blockSize);
    SectorIs(st, index);
    SectorArithmetic(st.batOffset + index * ENTRY_BYTES, |d|, AlignUp(|d|, st.geometry.blockSize));
  }

  lemma BlockSizeIsLegal(g: Geometry)
    requires LegalGeometry(g)
    ensures LegalBlockSize(g.blockSize) && g.blockSize > 0
  {
  }

  lemma SectorIs(st: ReaderState, index: nat)
    ensures SectorOf(st, index) == (st.batOffset + index * ENTRY_BYTES) / SECTOR * SECTOR
  {
  }

  lemma SectorHolds(start: nat, index: nat)
    requires InSector(start, index)
    ensures var x := start + index * ENTRY_BYTES;
      x / SECTOR * SECTOR <= x && x + 8 <= x / SECTOR * SECTOR + SECTOR
  {
  }

  lemma SectorArithmetic(x: nat, size: nat, at: nat)
    requires x < size <= at && at % SECTOR == 0
    ensures var s := x / SECTOR * SECTOR;
      s % SECTOR == 0 && s <= x && (x % SECTOR + 8 <= SECTOR <==> x + 8 <= s + SECTOR) && s + SECTOR <= at
  {
  }

  /** No entry of a table straddles two sectors if the table starts on a multiple of
      eight; and if it does not, one of any 512 in a row does. */
  lemma EntriesInSectors(batOffset: nat, n: nat)
    ensures batOffset % ENTRY_BYTES == 0 ==> forall index: nat :: InSector(batOffset, index)
    ensures batOffset % ENTRY_BYTES != 0 && n >= SECTOR / ENTRY_BYTES ==>
      exists index: nat :: index < n && !InSector(batOffset, index)
  {
    if batOffset % ENTRY_BYTES != 0 && n >= SECTOR / ENTRY_BYTES {
      var room := SECTOR - batOffset % SECTOR;
      var index := room / ENTRY_BYTES;
      assert (batOffset + index * ENTRY_BYTES) % SECTOR == SECTOR - room % ENTRY_BYTES;
      assert !InSector(batOffset, index);
    }
  }

  /** Where an allocation puts its block, and the BAT sector that will name it. */
  datatype Plan = Plan(at: u64, size: u64, off: u64, sector: Sector)

  function NewSize(st: ReaderState): nat
    requires st.geometry.blockSize > 0
  {
    AlignUp(st.devSize, st.geometry.blockSize) + st.geometry.blockSize
  }

  function PlanFor(d: Buf, st: ReaderState, capacity: nat, index: nat): Plan
    requires ReaderOk(d, st, capacity) && index < |st.bat| && NewSize(st) <= capacity && InSector(st.batOffset, index)
  {
    AlignedUp(|d|, st.geometry.blockSize);
    SectorInside(d, st, capacity, index);
    var at := AlignUp(st.devSize, st.geometry.blockSize);
    var size := NewSize(st);
    Plan(at, size, SectorOf(st, index), PublishedSector(d + Zeros(size - |d|), st, index, at))
  }

  lemma PlanFacts(d: Buf, st: ReaderState, capacity: nat, index: nat)
    requires ReaderOk(d, st, capacity) && index < |st.bat| && NewSize(st) <= capacity && InSector(st.batOffset, index)
    ensures var p := PlanFor(d, st, capacity, index);
      |d| <= p.at && p.size == p.at + st.geometry.blockSize && p.size <= capacity && p.at % ONE_MIB == 0
      && p.off % SECTOR == 0 && p.off + SECTOR <= p.at && LogRegionValid(p.size, st.header)
      && p.off <= st.batOffset + index * ENTRY_BYTES && st.batOffset + index * ENTRY_BYTES + 8 <= p.off + SECTOR
  {
    hide AlignUp, LegalBlockSize, PublishedSector, ChunkRatio;
    AlignedUp(|d|, st.geometry.blockSize);
    SectorInside(d, st, capacity, index);
  }

  lemma PlanSector(d: Buf, st: ReaderState, capacity: nat, index: nat)
    requires ReaderOk(d, st, capacity) && index < |st.bat| && NewSize(st) <= capacity && InSector(st.batOffset, index)
    ensures var p := PlanFor(d, st, capacity, index);
      p.at < TWO64 - ONE_MIB && |d| <= p.size && p.off + SECTOR <= p.size
      && p.off <= st.batOffset + index * ENTRY_BYTES && st.batOffset + index * ENTRY_BYTES + 8 <= p.off + SECTOR
      && p.sector == Splice((d + Zeros(p.size - |d|))[p.off..p.off + SECTOR],
         st.batOffset + index * ENTRY_BYTES - p.off,
                            Le(PresentAt(p.at), 8))
  {
    hide AlignUp, LegalGeometry, LogRegionValid, Splice, PresentAt, Le, Zeros;
    PlanFacts(d, st, capacity, index);
  }

  function PlanOps(st: ReaderState, p: Plan): seq<DevOp> {
    [SetLen(p.size), Write(p.at, Zeros(st.geometry.blockSize)), Flush]
    + Journal(st.(devSize := p.size), p.off, p.sector).ops
    + [Write(p.off, p.sector), Flush]
  }

  function PlanState(st: ReaderState, p: Plan, index: nat): ReaderState
    requires index < |st.bat| && p.at < TWO64 - ONE_MIB
  {
    Journal(st.(devSize := p.size), p.off, p.sector).st.(bat := st.bat[index := FromU64(PresentAt(p.at))])
  }

  /** The new block, zeroed. */
  function ExtendOps(st: ReaderState): seq<DevOp>
    requires st.geometry.blockSize > 0
  {
    var at := AlignUp(st.devSize, st.geometry.blockSize);
    [SetLen(NewSize(st)), Write(at, Zeros(st.geometry.blockSize)), Flush]
  }

  /** `allocate_block_for`: a zeroed block at the tail, journalled, then published. An
      entry that straddles two sectors makes the splice run off its buffer, with the
      block already there. */
  function Allocate(d: Buf, st: ReaderState, capacity: nat, index: nat): Step
    requires ReaderOk(d, st, capacity) && index < |st.bat|
  {
    if NewSize(st) > capacity then Step([], st, Err(Io))
    else if !InSector(st.batOffset, index) then
      Step(ExtendOps(st), st.(devSize := NewSize(st)), Err(Panic))
    else
      PlanFacts(d, st, capacity, index);
      var p := PlanFor(d, st, capacity, index);
      Step(PlanOps(st, p), PlanState(st, p, index), Ok(()))
  }

  /** The reader after journalling. */
  function JournalledState(st: ReaderState): ReaderState {
    if st.header.logLength == 0 then st else st.(header := JournalledHeader(st.header), slot := st.slot.Other())
  }

  /** The device after the journal entry and the header, if they are written. */
  function JournalledDevice(d: Buf, st: ReaderState, off: u64, sector: Sector): (e: Buf)
    requires |d| == st.devSize < TWO64 && LogRegionValid(|d|, st.header)
    ensures |e| == |d|
  {
    if st.header.logLength == 0 then d
    else
      LogRegionMeansMegabytes(|d|, st.header);
      Splice(Splice(d, st.header.logOffset, JournalEntry(st, off, sector)),
             st.slot.Other().Offset(), EncodedHeader(JournalledHeader(st.header)))
  }

  /** For a log region `open` accepts, the journal is written exactly when there is
      a log at all. */
  lemma JournalRuns(d: Buf, st: ReaderState, off: u64, sector: Sector)
    requires |d| == st.devSize < TWO64 && LogRegionValid(|d|, st.header)
    ensures Journals(st.header) <==> st.header.logLength > 0
    ensures Journal(st, off, sector).result.Ok?
    ensures RunOps(d, Journal(st, off, sector).ops) == JournalledDevice(d, st, off, sector)
    ensures Journal(st, off, sector).st == JournalledState(st)
    ensures Inside(Journal(st, off, sector).ops, |d|)
  {
    hide JournalEntry, EncodedHeader, RunOps, Splice, JournalledHeader;
    if st.header.logLength > 0 {
      LogRegionMeansMegabytes(|d|, st.header);
      var entry, enc := JournalEntry(st, off, sector), EncodedHeader(JournalledHeader(st.header));
      var a, b := Write(st.header.logOffset, entry), Write(st.slot.Other().Offset(), enc);
      assert [a, Flush, b, Flush] == [a, Flush] + [b, Flush];
      RunConcat(d, [a, Flush], [b, Flush]);
      WriteThenFlush(d, a.off, entry);
      WriteThenFlush(Splice(d, a.off, entry), b.off, enc);
    } else {
      LogReplay.RunNothing(d, []);
    }
  }

  /** The zeroing of a block the extension already left zero. */
  lemma ZeroTail(d: Buf, at: nat, size: nat)
    requires |d| <= at <= size
    ensures RunOps(d, [SetLen(size), Write(at, Zeros(size - at)), Flush]) == d + Zeros(size - |d|)
  {
    hide RunOps, RunOp, Splice, Zeros;
    var wide := d + Zeros(size - |d|);
    ExtendSteps(d, size, Write(at, Zeros(size - at)));
    LogReplay.Grown(d, size);
    ZerosAtEnd(d, at, size);
    SpliceSame(wide, at, Zeros(size - at));
    WriteInside(wide, at, Zeros(size - at));
  }

  lemma ZerosAtEnd(d: Buf, at: nat, size: nat)
    requires |d| <= at <= size
    ensures (d + Zeros(size - |d|))[at..at + (size - at)] == Zeros(size - at)
  {
  }

  lemma WriteInside(d: Buf, off: nat, b: Buf)
    requires off + |b| <= |d|
    ensures RunOp(d, Write(off, b)) == Splice(d, off, b)
  {
    hide Splice;
  }

  lemma ThreeRuns(d: Buf, a: seq<DevOp>, b: seq<DevOp>, c: seq<DevOp>)
    ensures RunOps(d, a + b + c) == RunOps(RunOps(RunOps(d, a), b), c)
  {
    RunConcat(d, a + b, c);
    RunConcat(d, a, b);
  }

  /** The device an allocation leaves. */
  lemma PlanRuns(d: Buf, st: ReaderState, p: Plan)
    requires |d| == st.devSize <= p.at && p.size == p.at + st.geometry.blockSize && p.off + SECTOR <= p.at
    requires LogRegionValid(p.size, st.header)
    ensures var wide := d + Zeros(p.size - |d|);
      RunOps(d, PlanOps(st, p))
      == Splice(JournalledDevice(wide, st.(devSize := p.size), p.off, p.sector), p.off, p.sector)
    ensures |RunOps(d, PlanOps(st, p))| == p.size
  {
    hide Splice, RunOps, Journal, JournalledDevice, LogRegionValid, Zeros;
    var wide, grown := d + Zeros(p.size - |d|), st.(devSize := p.size);
    var first := [SetLen(p.size), Write(p.at, Zeros(st.geometry.blockSize)), Flush];
    var j, last := Journal(grown, p.off, p.sector), [Write(p.off, p.sector), Flush];
    ThreeRuns(d, first, j.ops, last);
    ZeroTail(d, p.at, p.size);
    JournalRuns(wide, grown, p.off, p.sector);
    WriteThenFlush(RunOps(wide, j.ops), p.off, p.sector);
  }

  /** One piece of a write. */
  function WritePiece(d: Buf, st: ReaderState, capacity: nat, c: BlockChunk, src: Buf): Step
    requires ReaderOk(d, st, capacity)
  {
    if c.batIndex >= |st.bat| then Step([], st, Err(Corrupt))
    else
      var e := st.bat[c.batIndex];
      if e.state.FullyPresent? then
        match HostOffset(st.devSize, e.fileOffset, c.inBlock, |src|)
        case Err(error) => Step([], st, Err(error))
        case Ok(host) => Step([Write(host, src)], st, Ok(()))
      else if e.state.ZeroFill() then
        var a := Allocate(d, st, capacity, c.batIndex);
        if a.result.Err? then a
        else
          match HostOffset(a.st.devSize, AlignUp(st.devSize, st.geometry.blockSize), c.inBlock, |src|)
          case Err(error) => Step(a.ops, a.st, Err(error))
          case Ok(host) => Step(a.ops + [Write(host, src)], a.st, Ok(()))
      else Step([], st, Err(Unsupported))
  }

  /** The three ways an allocation can go. */
  lemma AllocateCases(d: Buf, st: ReaderState, capacity: nat, index: nat)
    requires ReaderOk(d, st, capacity) && index < |st.bat| && st.geometry.blockSize > 0
    ensures NewSize(st) > capacity ==> Allocate(d, st, capacity, index) == Step([], st, Err(Io))
    ensures NewSize(st) <= capacity && !InSector(st.batOffset, index) ==>
      Allocate(d, st, capacity, index) == Step(ExtendOps(st), st.(devSize := NewSize(st)), Err(Panic))
    ensures NewSize(st) <= capacity && InSector(st.batOffset, index) ==>
      var p, a := PlanFor(d, st, capacity, index), Allocate(d, st, capacity, index);
      p.at < TWO64 - ONE_MIB && a.ops == PlanOps(st, p) && a.st == PlanState(st, p, index) && a.result.Ok?
      && p.at == AlignUp(st.devSize, st.geometry.blockSize) && p.size == NewSize(st)
  {
    hide ReaderOk, PublishedSector, AlignUp, PlanOps, PlanState, InSector, ExtendOps;
    Sized(d, st, capacity);
    if NewSize(st) <= capacity && InSector(st.batOffset, index) {
      PlanFacts(d, st, capacity, index);
    }
  }

  lemma ExtendRuns(d: Buf, st: ReaderState)
    requires |d| == st.devSize && st.geometry.blockSize > 0 && LogRegionValid(|d|, st.header)
    ensures |d| <= NewSize(st) && RunOps(d, ExtendOps(st)) == d + Zeros(NewSize(st) - |d|)
    ensures LogRegionValid(NewSize(st), st.header)
  {
    hide RunOps, AlignUp, Zeros;
    AlignUpBounds(st.devSize, st.geometry.blockSize);
    ZeroTail(d, AlignUp(st.devSize, st.geometry.blockSize), NewSize(st));
  }

  lemma AllocateKeepsOk(d: Buf, st: ReaderState, capacity: nat, index: nat)
    requires ReaderOk(d, st, capacity) && index < |st.bat|
    ensures var a := Allocate(d, st, capacity, index);
      ReaderOk(RunOps(d, a.ops), a.st, capacity) && a.st.geometry == st.geometry && |a.st.bat| == |st.bat|
      && (a.result == Err(Io) ==> a.ops == [] && a.st == st)
      && (a.result != Err(Io) ==> a.st.devSize == NewSize(st))
      && (a.result.Ok? <==> NewSize(st) <= capacity && InSector(st.batOffset, index))
      && (a.result.Err? ==> a.result.error == Io || a.result.error == Panic)
  {
    hide RunOps, JournalledDevice, Journal, PublishedSector, LegalGeometry, AlignUp, FromU64, PresentAt, ExtendOps;
    LogReplay.RunNothing(d, []);
    Sized(d, st, capacity);
    ExtendRuns(d, st);
    if NewSize(st) <= capacity && InSector(st.batOffset, index) {
      var p := PlanFor(d, st, capacity, index);
      PlanFacts(d, st, capacity, index);
      PlanRuns(d, st, p);
      JournalRuns(d + Zeros(p.size - |d|), st.(devSize := p.size), p.off, p.sector);
    }
  }

  lemma PieceKeepsOk(d: Buf, st: ReaderState, capacity: nat, c: BlockChunk, src: Buf)
    requires ReaderOk(d, st, capacity)
    ensures var p := WritePiece(d, st, capacity, c, src);
      ReaderOk(RunOps(d, p.ops), p.st, capacity) && p.st.geometry == st.geometry && |p.st.bat| == |st.bat|
  {
    hide RunOps, Allocate, LegalGeometry, LogRegionValid, AlignUp, Splice;
    LogReplay.RunNothing(d, []);
    if c.batIndex < |st.bat| {
      var e := st.bat[c.batIndex];
      if e.state.FullyPresent? {
        if e.fileOffset + c.inBlock + |src| <= |d| {
          RunOne(d, Write(e.fileOffset + c.inBlock, src));
        }
      } else if e.state.ZeroFill() {
        AllocateKeepsOk(d, st, capacity, c.batIndex);
        Sized(d, st, capacity);
        var a := Allocate(d, st, capacity, c.batIndex);
        var d1, host := RunOps(d, a.ops), AlignUp(st.devSize, st.geometry.blockSize) + c.inBlock;
        RunConcat(d, a.ops, [Write(host, src)]);
        RunOne(d1, Write(host, src));
      }
    }
  }

  predicate ChunksWithin(cs: seq<BlockChunk>, n: nat) {
    forall i :: 0 <= i < |cs| ==> cs[i].bufPos + cs[i].len <= n
  }

  lemma {:induction false} ChunksFit(g: Geometry, cursor: nat, end: nat, bufPos: nat)
    requires g.blockSize > 0 && g.ratio > 0
    ensures cursor <= end ==> ChunksWithin(Chunks(g, cursor, end, bufPos), bufPos + end - cursor)
    decreases end - cursor
  {
    hide DataBatIndex;
    if cursor < end {
      var c := ChunkAt(g, cursor, end, bufPos);
      ChunksFit(g, cursor + c.len, end, bufPos + c.len);
    }
  }

  function Source(buf: Buf, c: BlockChunk): Buf
    requires c.bufPos + c.len <= |buf|
  {
    buf[c.bufPos..c.bufPos + c.len]
  }

  /** The pieces in order, up to the first that fails. */
  function WriteChunks(d: Buf, st: ReaderState, capacity: nat, cs: seq<BlockChunk>, buf: Buf): Step
    requires ReaderOk(d, st, capacity) && ChunksWithin(cs, |buf|)
    decreases |cs|
  {
    if cs == [] then Step([], st, Ok(()))
    else
      var p := WritePiece(d, st, capacity, cs[0], Source(buf, cs[0]));
      if p.result.Err? then p
      else
        PieceKeepsOk(d, st, capacity, cs[0], Source(buf, cs[0]));
        var rest := WriteChunks(RunOps(d, p.ops), p.st, capacity, cs[1..], buf);
        Step(p.ops + rest.ops, rest.st, rest.result)
  }

  function WriteRun(d: Buf, st: ReaderState, capacity: nat, offset: u64, buf: Buf): Step
    requires ReaderOk(d, st, capacity)
  {
    if !st.writable then Step([], st, Err(Error.ReadOnly))
    else
      match TransferEnd(st.geometry.virtualSize, offset, |buf|)
      case Err(e) => Step([], st, Err(e))
      case Ok(None) => Step([], st, Ok(()))
      case Ok(Some(end)) =>
        ChunksFit(st.geometry, offset, end, 0);
        var w := WriteChunks(d, st, capacity, Chunks(st.geometry, offset, end, 0), buf);
        if w.result.Err? then w else Step(w.ops + [Flush], w.st, w.result)
  }

  // ---- The reader ----

  class VhdxReader {
    const dev: Device
    var devSize: nat
    var header: Header
    var slot: Slot
    var bat: seq<BatEntry>
    const geometry: Geometry
    const batOffset: u64
    const writable: bool

    function State(): ReaderState
      reads this
    {
      ReaderState(devSize, header, slot, geometry, batOffset, bat, writable)
    }

    ghost predicate Valid()
      reads this, dev
    {
      dev.Valid() && ReaderOk(dev.data, State(), dev.capacity)
    }

    constructor (dev: Device, st: ReaderState)
      ensures this.dev == dev && State() == st
    {
      this.dev := dev;
      devSize, header, slot, bat := st.devSize, st.header, st.slot, st.bat;
      geometry, batOffset, writable := st.geometry, st.batOffset, st.writable;
    }

    /** `open_inner`, handing out the reader it loaded. */
    static method OpenOn(dev: Device, writable: bool, replayCapable: bool, dec: Decoders)
      returns (r: Result<VhdxReader>)
      requires dev.Valid()
      modifies dev
      ensures dev.Valid()
      ensures var o := OpenRun(old(dev.data), dev.capacity, writable, replayCapable, dec);
        dev.trace == old(dev.trace) + o.ops && dev.data == RunOps(old(dev.data), o.ops)
        && (r.Ok? <==> o.result.Ok?) && (r.Err? ==> r.error == o.result.error)
        && (r.Ok? ==> fresh(r.value) && r.value.dev == dev && r.value.State() == o.result.value)
    {
      var st := OpenInner(dev, writable, replayCapable, dec);
      match st {
        case Err(e) => return Err(e);
        case Ok(st) =>
          var reader := new VhdxReader(dev, st);
          return Ok(reader);
      }
    }

    method ReadAt(offset: u64, len: nat) returns (r: Result<Buf>)
      requires Valid()
      ensures r == ReadRun(dev.data, State(), offset, len)
    {
      hide Chunks, ReadChunk, LegalGeometry;
      var end := TransferEnd(geometry.virtualSize, offset, len);
      if end.Err? {
        return Err(end.error);
      }
      if end.value.None? {
        return Ok([]);
      }
      LegalMeansPositive(geometry);
      var chunks := BlockChunks(geometry, offset, end.value.value);
      r := ReadPieces(chunks);
    }

    method ReadPieces(chunks: seq<BlockChunk>) returns (r: Result<Buf>)
      requires Valid()
      ensures r == ReadChunks(dev.data, State(), chunks)
    {
      hide ReadChunk, ReaderOk;
      assert |dev.data| == devSize by { Sized(dev.data, State(), dev.capacity); }
      var buf: Buf := [];
      ghost var all := ReadChunks(dev.data, State(), chunks);
      var i := 0;
      assert chunks[0..] == chunks;
      assert all.Ok? ==> [] + all.value == all.value;
      while i < |chunks|
        invariant 0 <= i <= |chunks|
        invariant all == match ReadChunks(dev.data, State(), chunks[i..])
                         case Err(e) => Err(e)
                         case Ok(rest) => Ok(buf + rest)
      {
        assert chunks[i..][0] == chunks[i] && chunks[i..][1..] == chunks[i + 1..];
        var piece := ReadPiece(chunks[i]);
        if piece.Err? {
          return Err(piece.error);
        }
        ghost var rest := ReadChunks(dev.data, State(), chunks[i + 1..]);
        assert rest.Ok? ==> buf + (piece.value + rest.value) == (buf + piece.value) + rest.value;
        buf := buf + piece.value;
        i := i + 1;
      }
      assert buf + [] == buf;
      return Ok(buf);
    }

    method ReadPiece(c: BlockChunk) returns (r: Result<Buf>)
      requires Valid()
      ensures |dev.data| == devSize && r == ReadChunk(dev.data, State(), c)
    {
      hide LegalGeometry, LogRegionValid;
      if c.batIndex >= |bat| {
        return Err(Corrupt);
      }
      var e := bat[c.batIndex];
      match e.state {
        case FullyPresent =>
          var host := HostOffset(devSize, e.fileOffset, c.inBlock, c.len);
          if host.Err? {
            return Err(host.error);
          }
          r := dev.ReadAt(host.value, c.len);
        case NotPresent => return Ok(Zeros(c.len));
        case Undefined => return Ok(Zeros(c.len));
        case Zero => return Ok(Zeros(c.len));
        case Unmapped => return Ok(Zeros(c.len));
        case PartiallyPresent => return Err(Unsupported);
        case Reserved(_) => return Err(Unsupported);
      }
    }

    method JournalSectorWrite(off: u64, sector: Sector)
      requires dev.Valid() && |dev.data| == devSize && LogRegionValid(devSize, header)
      modifies this`header, this`slot, dev
      ensures dev.Valid() && |dev.data| == devSize
      ensures var j := Journal(old(State()), off, sector);
        State() == j.st && dev.trace == old(dev.trace) + j.ops && dev.data == RunOps(old(dev.data), j.ops)
    {
      hide EncodedHeader, EncodedEntry, RunOps, RunOp, Stir;
      LogReplay.RunNothing(dev.data, dev.trace);
      if header.logLength == 0 || header.logOffset == 0 || header.logLength < 8192 {
        return;
      }
      var sequence := (header.sequence + 1) % TWO64;
      var guid := Stirred(header.logGuid, sequence);
      var entry := EncodeEntry(sequence, 0, guid, devSize, devSize, [PendingWrite(off, sector)]);
      if |entry| > header.logLength {
        return;
      }
      ghost var d, t := dev.data, dev.trace;
      ghost var a := Write(header.logOffset, entry);
      LogRegionMeansMegabytes(devSize, header);
      var _ := dev.WriteAt(header.logOffset, entry);
      dev.FlushAll();
      var next := slot.Other();
      var fileGuid := Stirred(header.fileWriteGuid, sequence);
      var dataGuid := Stirred(header.dataWriteGuid, sequence);
      var newHeader := header.(sequence := sequence, logGuid := guid, fileWriteGuid := fileGuid,
        dataWriteGuid := dataGuid);
      var bytes := EncodeHeader(newHeader);
      ghost var b := Write(next.Offset(), bytes);
      var _ := dev.WriteAt(next.Offset(), bytes);
      dev.FlushAll();
      header := newHeader;
      slot := next;
      FourSteps(d, a, b);
      assert t + [a, Flush, b, Flush] == t + [a] + [Flush] + [b] + [Flush];
    }

    /** Picks the tail, extends the device, zeroes the block, journals and publishes. */
    method AllocateBlockFor(index: nat) returns (r: Result<nat>)
      requires Valid() && index < |bat|
      modifies this, dev
      ensures Valid()
      ensures var a := Allocate(old(dev.data), old(State()), dev.capacity, index);
        State() == a.st && dev.trace == old(dev.trace) + a.ops && dev.data == RunOps(old(dev.data), a.ops)
        && (r.Ok? <==> a.result.Ok?) && (r.Err? ==> r.error == a.result.error)
        && (r.Ok? ==> r.value == AlignUp(old(devSize), geometry.blockSize))
    {
      ghost var d, t, st := dev.data, dev.trace, State();
      hide AlignUp, RunOps, RunOp, Allocate, PlanFor, PlanOps, PlanState, ReaderOk, Zeros, InSector;
      Sized(d, st, dev.capacity);
      LogIsValid(d, st, dev.capacity);
      ExtendRuns(d, st);
      AllocateKeepsOk(d, st, dev.capacity, index);
      AllocateCases(d, st, dev.capacity, index);
      LogReplay.RunNothing(d, t);
      var at := AlignUp(devSize, geometry.blockSize);
      var size := at + geometry.blockSize;
      if size > dev.capacity {
        return Err(Io);
      }
      ReaderBounds(d, st);
      ExtendZeroed(at, size);
      r := NameBlock(index, at, d, st, t);
    }

    /** Puts the new block in the table, if its entry can be spliced. */
    method NameBlock(index: nat, at: u64, ghost d: Buf, ghost st: ReaderState, ghost t: seq<DevOp>)
      returns (r: Result<nat>)
      requires dev.Valid() && ReaderOk(d, st, dev.capacity) && index < |st.bat| && st.geometry.blockSize > 0
        && NewSize(st) <= dev.capacity
      requires at == AlignUp(st.devSize, st.geometry.blockSize) && State() == st.(devSize := NewSize(st))
      requires |d| <= NewSize(st) && dev.data == d + Zeros(NewSize(st) - |d|)
      requires dev.data == RunOps(d, ExtendOps(st)) && dev.trace == t + ExtendOps(st)
      modifies this, dev
      ensures dev.Valid()
      ensures var a := Allocate(d, st, dev.capacity, index);
        State() == a.st && dev.trace == t + a.ops && dev.data == RunOps(d, a.ops)
        && (r.Ok? <==> a.result.Ok?) && (r.Err? ==> r.error == a.result.error) && (r.Ok? ==> r.value == at)
    {
      hide AlignUp, RunOps, RunOp, Allocate, PlanFor, PlanOps, PlanState, ReaderOk, Zeros, InSector;
      AllocateCases(d, st, dev.capacity, index);
      if !InSector(batOffset, index) {
        return Err(Panic);
      }
      ghost var p := PlanFor(d, st, dev.capacity, index);
      PublishBlock(index, at, d, st, t, p);
      return Ok(at);
    }

    /** The device first, the bound second; then the zeros. */
    method ExtendZeroed(at: nat, size: nat)
      requires dev.Valid() && |dev.data| <= at && at + geometry.blockSize == size <= dev.capacity
      modifies this`devSize, dev
      ensures dev.Valid() && devSize == size
      ensures var first := [SetLen(size), Write(at, Zeros(geometry.blockSize)), Flush];
        dev.trace == old(dev.trace) + first && dev.data == RunOps(old(dev.data), first)
        && dev.data == old(dev.data) + Zeros(size - |old(dev.data)|)
    {
      ghost var d, t := dev.data, dev.trace;
      ZeroTail(d, at, size);
      hide RunOps, RunOp, Zeros;
      ghost var w := Write(at, Zeros(geometry.blockSize));
      ExtendSteps(d, size, w);
      LogReplay.Grown(d, size);
      var _ := dev.Extend(size);
      devSize := size;
      var _ := dev.WriteAt(at, Zeros(geometry.blockSize));
      dev.FlushAll();
      assert t + [SetLen(size), w, Flush] == t + [SetLen(size)] + [w] + [Flush];
    }

    method PublishBlock(index: nat, at: u64, ghost d: Buf, ghost st: ReaderState, ghost t: seq<DevOp>, ghost p: Plan)
      requires dev.Valid() && ReaderOk(d, st, dev.capacity) && index < |st.bat| && NewSize(st) <= dev.capacity
      requires InSector(st.batOffset, index)
      requires p == PlanFor(d, st, dev.capacity, index) && at == p.at && State() == st.(devSize := p.size)
      requires dev.data == d + Zeros(p.size - |d|)
      requires dev.data == RunOps(d, [SetLen(p.size), Write(p.at, Zeros(geometry.blockSize)), Flush])
      requires dev.trace == t + [SetLen(p.size), Write(p.at, Zeros(geometry.blockSize)), Flush]
      modifies this, dev
      ensures dev.Valid() && at < TWO64 - ONE_MIB && State() == PlanState(st, p, index)
      ensures dev.trace == t + PlanOps(st, p) && dev.data == RunOps(d, PlanOps(st, p))
    {
      hide AlignUp, RunOps, Journal, PublishedSector, PlanOps, FromU64, PresentAt, Zeros, LogRegionValid, LegalGeometry;
      PlanFacts(d, st, dev.capacity, index);
      SameSector(d, st, dev.capacity, index);
      SamePlanOps(st, p);
      var off, sector := SpliceEntry(index, at);
      Publish(off, sector, d, t, p);
      bat := bat[index := FromU64(PresentAt(at))];
    }

    method WriteAt(offset: u64, buf: Buf) returns (r: Result<()>)
      requires Valid()
      modifies this, dev
      ensures Valid()
      ensures var w := WriteRun(old(dev.data), old(State()), dev.capacity, offset, buf);
        r == w.result && State() == w.st && dev.trace == old(dev.trace) + w.ops
          && dev.data == RunOps(old(dev.data), w.ops)
    {
      hide WriteChunks, RunOps, ReaderOk, Chunks, ChunksWithin, LegalGeometry, LegalBlockSize;
      ghost var d, t, st := dev.data, dev.trace, State();
      LogReplay.RunNothing(d, t);
      if !writable {
        return Err(Error.ReadOnly);
      }
      var end := TransferEnd(geometry.virtualSize, offset, |buf|);
      if end.Err? {
        return Err(end.error);
      }
      if end.value.None? {
        return Ok(());
      }
      Sized(d, st, dev.capacity);
      GeometryOk(d, st, dev.capacity);
      LegalMeansPositive(geometry);
      ChunksFit(geometry, offset, end.value.value, 0);
      var chunks := BlockChunks(geometry, offset, end.value.value);
      r := WriteThrough(chunks, buf);
    }

    /** The pieces, and a flush if they all went through. */
    method WriteThrough(chunks: seq<BlockChunk>, buf: Buf) returns (r: Result<()>)
      requires Valid() && ChunksWithin(chunks, |buf|)
      modifies this, dev
      ensures Valid()
      ensures var w := WriteChunks(old(dev.data), old(State()), dev.capacity, chunks, buf);
        var ops := if w.result.Ok? then w.ops + [Flush] else w.ops;
        r == w.result && State() == w.st && dev.trace == old(dev.trace) + ops && dev.data == RunOps(old(dev.data), ops)
    {
      hide WriteChunks, RunOps, ReaderOk, ChunksWithin;
      ghost var d, t := dev.data, dev.trace;
      ghost var ops := WriteChunks(d, State(), dev.capacity, chunks, buf).ops;
      r := WritePieces(chunks, buf);
      if r.Ok? {
        RunConcat(d, ops, [Flush]);
        LogReplay.RunFlush(RunOps(d, ops));
        assert t + (ops + [Flush]) == (t + ops) + [Flush];
        dev.FlushAll();
      }
    }

    method WritePieces(chunks: seq<BlockChunk>, buf: Buf) returns (r: Result<()>)
      requires Valid() && ChunksWithin(chunks, |buf|)
      modifies this, dev
      ensures Valid()
      ensures var w := WriteChunks(old(dev.data), old(State()), dev.capacity, chunks, buf);
        r == w.result && State() == w.st && dev.trace == old(dev.trace) + w.ops
          && dev.data == RunOps(old(dev.data), w.ops)
    {
      hide WritePiece, RunOps, ReaderOk;
      ghost var all := WriteChunks(dev.data, State(), dev.capacity, chunks, buf);
      ghost var done: seq<DevOp> := [];
      var i := 0;
      assert chunks[0..] == chunks;
      LogReplay.RunNothing(dev.data, dev.trace);
      assert [] + all.ops == all.ops;
      while i < |chunks|
        invariant 0 <= i <= |chunks| && Valid() && ChunksWithin(chunks[i..], |buf|)
        invariant dev.trace == old(dev.trace) + done && dev.data == RunOps(old(dev.data), done)
        invariant var rest := WriteChunks(dev.data, State(), dev.capacity, chunks[i..], buf);
          all == Step(done + rest.ops, rest.st, rest.result)
      {
        ghost var cs := chunks[i..];
        ghost var d, st := dev.data, State();
        assert cs[0] == chunks[i] && cs[1..] == chunks[i + 1..];
        ghost var p := WritePiece(d, st, dev.capacity, cs[0], Source(buf, cs[0]));
        PieceKeepsOk(d, st, dev.capacity, cs[0], Source(buf, cs[0]));
        RunConcat(old(dev.data), done, p.ops);
        assert old(dev.trace) + (done + p.ops) == (old(dev.trace) + done) + p.ops;
        var w := WriteOne(chunks[i], buf[chunks[i].bufPos..chunks[i].bufPos + chunks[i].len]);
        if w.Err? {
          return w;
        }
        ghost var rest := WriteChunks(dev.data, State(), dev.capacity, cs[1..], buf);
        assert done + (p.ops + rest.ops) == (done + p.ops) + rest.ops;
        done := done + p.ops;
        i := i + 1;
      }
      assert chunks[i..] == [];
      assert done + [] == done;
      return Ok(());
    }

    method WriteOne(c: BlockChunk, src: Buf) returns (r: Result<()>)
      requires Valid()
      modifies this, dev
      ensures Valid()
      ensures var p := WritePiece(old(dev.data), old(State()), dev.capacity, c, src);
        r == p.result && State() == p.st && dev.trace == old(dev.trace) + p.ops
          && dev.data == RunOps(old(dev.data), p.ops)
    {
      hide RunOps, RunOp, ReaderOk, Allocate, AlignUp;
      ghost var d, t, st := dev.data, dev.trace, State();
      LogReplay.RunNothing(d, t);
      Sized(d, st, dev.capacity);
      PieceKeepsOk(d, st, dev.capacity, c, src);
      if c.batIndex >= |bat| {
        return Err(Corrupt);
      }
      var entry := bat[c.batIndex];
      var hostBlock;
      ghost var ops: seq<DevOp> := [];
      match entry.state {
        case FullyPresent => hostBlock := entry.fileOffset;
        case PartiallyPresent => return Err(Unsupported);
        case Reserved(_) => return Err(Unsupported);
        case _ =>
          var at := AllocateBlockFor(c.batIndex);
          if at.Err? {
            return Err(at.error);
          }
          hostBlock := at.value;
          ops := Allocate(d, st, dev.capacity, c.batIndex).ops;
      }
      Sized(dev.data, State(), dev.capacity);
      if hostBlock + c.inBlock + |src| > devSize {
        return Err(Corrupt);
      }
      assert [] + [Write(hostBlock + c.inBlock, src)] == [Write(hostBlock + c.inBlock, src)];
      WritePayload(hostBlock + c.inBlock, src, d, t, ops);
      return Ok(());
    }

    method WritePayload(host: nat, src: Buf, ghost d: Buf, ghost t: seq<DevOp>, ghost ops: seq<DevOp>)
      requires dev.Valid() && host + |src| <= |dev.data| && dev.data == RunOps(d, ops) && dev.trace == t + ops
      modifies dev
      ensures dev.Valid() && dev.data == RunOps(d, ops + [Write(host, src)])
        && dev.trace == t + (ops + [Write(host, src)])
    {
      hide RunOps, RunOp;
      RunConcat(d, ops, [Write(host, src)]);
      RunOne(dev.data, Write(host, src));
      assert t + (ops + [Write(host, src)]) == (t + ops) + [Write(host, src)];
      var _ := dev.WriteAt(host, src);
    }

    /** The BAT sector with the new entry in it. */
    method SpliceEntry(index: nat, at: u64) returns (off: nat, sector: Sector)
      requires InSector(batOffset, index) && SectorOf(State(), index) + SECTOR <= |dev.data| && at < TWO64 - ONE_MIB
      ensures off == SectorOf(State(), index) && sector == PublishedSector(dev.data, State(), index, at)
    {
      hide Splice, PresentAt, Le, SectorOf;
      off := SectorOf(State(), index);
      SectorHolds(batOffset, index);
      SectorIs(State(), index);
      var read := dev.ReadAt(off, SECTOR);
      sector := Splice(read.value, batOffset + index * ENTRY_BYTES - off, Le(PresentAt(at), 8));
    }

    /** Through the log first, then in place. */
    method Publish(off: u64, sector: Sector, ghost d: Buf, ghost t: seq<DevOp>, ghost p: Plan)
      requires dev.Valid() && |dev.data| == devSize == p.size && LogRegionValid(p.size, header)
      requires off == p.off && sector == p.sector && off + SECTOR <= devSize
      requires dev.data == RunOps(d, [SetLen(p.size), Write(p.at, Zeros(geometry.blockSize)), Flush])
      requires dev.trace == t + [SetLen(p.size), Write(p.at, Zeros(geometry.blockSize)), Flush]
      modifies this`header, this`slot, dev
      ensures dev.Valid() && State() == Journal(old(State()), p.off, p.sector).st
      ensures dev.trace == t + PlanOps(old(State()), p) && dev.data == RunOps(d, PlanOps(old(State()), p))
    {
      hide RunOps, RunOp, Journal, Splice, Zeros, LogRegionValid;
      ghost var first := [SetLen(p.size), Write(p.at, Zeros(geometry.blockSize)), Flush];
      ghost var j := Journal(State(), p.off, p.sector);
      ghost var last := [Write(p.off, p.sector), Flush];
      assert State().(devSize := p.size) == State();
      JournalSectorWrite(off, sector);
      ThreeRuns(d, first, j.ops, last);
      WriteFlush(dev.data, p.off, p.sector);
      var _ := dev.WriteAt(off, sector);
      dev.FlushAll();
      assert t + (first + j.ops + last) == (t + first) + j.ops + [Write(p.off, p.sector)] + [Flush];
    }
  }

  lemma ReaderBounds(d: Buf, st: ReaderState)
    requires |d| == st.devSize && st.geometry.blockSize > 0
    ensures |d| <= AlignUp(st.devSize, st.geometry.blockSize)
  {
    hide AlignUp;
    AlignUpBounds(st.devSize, st.geometry.blockSize);
  }

  lemma SamePlanOps(st: ReaderState, p: Plan)
    ensures PlanOps(st.(devSize := p.size), p) == PlanOps(st, p)
  {
    hide Journal;
    assert st.(devSize := p.size).(devSize := p.size) == st.(devSize := p.size);
  }

  lemma SameSector(d: Buf, st: ReaderState, capacity: nat, index: nat)
    requires ReaderOk(d, st, capacity) && index < |st.bat| && NewSize(st) <= capacity && InSector(st.batOffset, index)
    ensures var p := PlanFor(d, st, capacity, index);
      var grown := st.(devSize := p.size);
      SectorOf(grown, index) == p.off && p.size >= |d| && p.off + SECTOR <= p.size && p.at < TWO64 - ONE_MIB
      && PublishedSector(d + Zeros(p.size - |d|), grown, index, p.at) == p.sector
  {
    hide AlignUp, LegalGeometry, LogRegionValid, Splice, PresentAt, Le;
    PlanFacts(d, st, capacity, index);
  }

  lemma ExtendSteps(d: Buf, size: nat, w: DevOp)
    ensures RunOps(d, [SetLen(size), w, Flush]) == RunOp(RunOp(d, SetLen(size)), w)
  {
    hide RunOps, RunOp;
    assert [SetLen(size), w, Flush] == [SetLen(size)] + [w] + [Flush];
    ThreeRuns(d, [SetLen(size)], [w], [Flush]);
    RunOne(d, SetLen(size));
    RunOne(RunOp(d, SetLen(size)), w);
    LogReplay.RunFlush(RunOp(RunOp(d, SetLen(size)), w));
  }

  lemma WriteFlush(d: Buf, off: nat, b: Buf)
    requires off + |b| <= |d|
    ensures RunOps(d, [Write(off, b), Flush]) == RunOp(d, Write(off, b))
  {
    WriteThenFlush(d, off, b);
  }

  lemma Sized(d: Buf, st: ReaderState, capacity: nat)
    requires ReaderOk(d, st, capacity)
    ensures |d| == st.devSize <= capacity < 0x8000_0000_0000_0000 && st.geometry.blockSize >= ONE_MIB
  {
  }

  lemma LogIsValid(d: Buf, st: ReaderState, capacity: nat)
    requires ReaderOk(d, st, capacity)
    ensures LogRegionValid(|d|, st.header)
  {
  }

  lemma GeometryOk(d: Buf, st: ReaderState, capacity: nat)
    requires ReaderOk(d, st, capacity)
    ensures LegalGeometry(st.geometry)
  {
  }

  lemma LegalMeansPositive(g: Geometry)
    requires LegalGeometry(g)
    ensures g.blockSize >= ONE_MIB && g.ratio >= 16
  {
  }

  lemma FourSteps(d: Buf, a: DevOp, b: DevOp)
    ensures RunOps(d, [a, Flush, b, Flush]) == RunOp(RunOp(d, a), b)
  {
    hide RunOp;
    assert [a, Flush, b, Flush] == [] + [a] + [Flush] + [b] + [Flush];
    LogReplay.RunNothing(d, []);
    hide RunOps;
    RunConcat(d, [a, Flush], [b, Flush]);
    assert [a, Flush] == [a] + [Flush] && [b, Flush] == [b] + [Flush]
      && [a, Flush] + [b, Flush] == [a, Flush, b, Flush];
    RunConcat(d, [a], [Flush]);
    RunOne(d, a);
    LogReplay.RunFlush(RunOp(d, a));
    RunConcat(RunOp(d, a), [b], [Flush]);
    RunOne(RunOp(d, a), b);
    LogReplay.RunFlush(RunOp(RunOp(d, a), b));
  }
}
