/** What open leaves, and whole runs of reads and writes against one flat array of
    bytes. */
module Sessions {
  import opened Bytes
  import opened Devices
  import opened LogReplay
  import opened Headers
  import opened Bat
  import opened Open
  import opened Reader
  import opened Image
  import opened Recovery
  import opened CrashSafety
  import opened Refinement
  import opened Provisioning

  // ---- From open to a well-formed image ----

  /** What an open that had nothing to replay says of the device. */
  lemma QuietOpenFacts(d: Buf, st: ReaderState, capacity: nat, w: bool, dec: Decoders)
    requires |d| <= capacity < 0x8000_0000_0000_0000 && OpenRun(d, capacity, w, true, dec) == Opened([], Ok(st))
    ensures |d| >= 8 && d[..8] == IDENTIFIER && PickHeader(d) == Ok((st.header, st.slot)) && st.header.logVersion == 0
    ensures LogRegionValid(|d|, st.header) && Pending(d, st.header) == Ok([])
    ensures Settle(d, st.header, dec).Ok?
      && Load(d, st.header, st.slot, Settle(d, st.header, dec).value, w, dec) == Ok(st)
  {
    hide Gates, Settle, PickHeader, Pending, LogRegionValid, LogClear, Replay, RunOps, LoadGeometry, LoadBat,
      RequiredEntries, PickTable;
    GateFacts(d, true, dec);
    var g := Gates(d, true, dec).value;
    if g.chain == [] {
      assert OpenWithout(d, g, w, dec) == Ok(st);
    }
  }

  lemma LoadedAnchored(d: Buf, st: ReaderState, capacity: nat, rt: RegionTable, w: bool, dec: Decoders)
    requires |d| >= TABLES_END && d[..8] == IDENTIFIER && Settle(d, st.header, dec) == Ok(rt)
    requires Load(d, st.header, st.slot, rt, w, dec) == Ok(st)
    ensures Find(rt, MetadataRegion).Some?
      && Anchored(d, st, Setting(capacity, rt, Find(rt, MetadataRegion).value, dec))
    ensures st.batOffset + |st.bat| * ENTRY_BYTES <= |d| && BatOf(d, st) == st.bat && LogClear(rt, st.header)
  {
    hide PickTable, RequiredEntries, DecodeBat, LegalGeometry, LogClear;
    var g := LoadGeometry(d, rt, dec).value;
    var r := Find(rt, BatRegion).value;
    CoverageIsTight(r.length, g.virtualSize, g.blockSize, g.ratio) by { GeometryIsLegal(d, rt, dec); }
  }

  lemma GeometryIsLegal(d: Buf, rt: RegionTable, dec: Decoders)
    requires LoadGeometry(d, rt, dec).Ok?
    ensures LegalGeometry(LoadGeometry(d, rt, dec).value)
  {
    hide LegalGeometry;
  }

  lemma ClearedSettles(d1: Buf, h: Header, slot: Slot, dec: Decoders)
    requires h.logOffset >= ONE_MIB && h.logOffset + h.logLength <= |d1| && |d1| >= 2 * ONE_MIB
    ensures Settle(Cleared(d1, h, slot), ClearedHeader(h), dec) == Settle(d1, h, dec)
  {
    hide Cleared, PickTable, LogClear;
    ClearedFrame(d1, h, slot, TABLE1, TABLES_END);
    PickTableFrame(d1, Cleared(d1, h, slot), dec);
    if PickTable(d1, dec).Ok? {
      ClearSameLog(PickTable(d1, dec).value, h);
    }
  }

  /** A device an open has succeeded on, with or without a replay. */
  ghost predicate Loaded(e: Buf, st: ReaderState, capacity: nat, w: bool, dec: Decoders) {
    |e| <= capacity < 0x8000_0000_0000_0000 && st.header.logVersion == 0 && st.header.version == 1
    && LogRegionValid(|e|, st.header) && Pending(e, st.header) == Ok([])
    && Settle(e, st.header, dec).Ok? && Load(e, st.header, st.slot, Settle(e, st.header, dec).value, w, dec) == Ok(st)
  }

  lemma LoadKeepsHeader(d: Buf, h: Header, slot: Slot, rt: RegionTable, w: bool, dec: Decoders)
    ensures Load(d, h, slot, rt, w, dec).Ok? ==>
      Load(d, h, slot, rt, w, dec).value.header == h && Load(d, h, slot, rt, w, dec).value.slot == slot
  {
    hide LoadGeometry, LoadBat, RequiredEntries;
  }

  lemma OpenLoads(d: Buf, capacity: nat, w: bool, dec: Decoders)
    requires |d| <= capacity < 0x8000_0000_0000_0000 && OpenRun(d, capacity, w, true, dec).result.Ok?
    ensures var o := OpenRun(d, capacity, w, true, dec);
      Loaded(RunOps(d, o.ops), o.result.value, capacity, w, dec)
  {
    hide Gates, Settle, Load, PickHeader, Pending, LogRegionValid, LogClear, Replay, RunOps, Cleared, ClearOps, OpenRun;
    var o := OpenRun(d, capacity, w, true, dec);
    if o.ops == [] {
      RunNothing(d, []);
      QuietOpenFacts(d, o.result.value, capacity, w, dec);
      PickedIsVersionOne(d);
    } else {
      OpenedDevice(d, capacity, w, dec);
      GateFacts(d, true, dec);
      PickedIsVersionOne(d);
      var g := Gates(d, true, dec).value;
      var d1 := RunOps(d, Replay(|d|, capacity, g.chain).ops);
      LogRegionMeansMegabytes(|d|, g.header);
      ClearedSettles(d1, g.header, g.slot, dec);
      LoadKeepsHeader(Cleared(d1, g.header, g.slot), ClearedHeader(g.header), g.slot.Other(),
        Settle(d1, g.header, dec).value, w, dec);
      ClearedLogValid(|d|, |d1|, g.header);
      NothingAfterClear(Cleared(d1, g.header, g.slot), g.header);
    }
  }

  lemma ClearedLogValid(size: nat, more: nat, h: Header)
    requires LogRegionValid(size, h) && size <= more
    ensures LogRegionValid(more, ClearedHeader(h))
  {
  }

  lemma NothingAfterClear(e: Buf, h: Header)
    ensures Pending(e, ClearedHeader(h)) == Ok([])
  {
  }

  /** The parts of a well-formed image that open does not see to: that the header it
      goes on with is the one on the device, where things lie, and whether the log has
      room for what is to come. */
  ghost predicate Unchecked(e: Buf, st: ReaderState, m: Region, n: nat)
    requires st.geometry.blockSize > 0 && st.geometry.ratio > 0
  {
    |e| >= 8 && e[..8] == IDENTIFIER && PickHeader(e) == Ok((st.header, st.slot)) && Layout(st, m, |e|)
    && (st.header.logLength > 0 ==>
          st.header.logOffset + st.header.logLength <= |e| && RoomFor(LogRegion(e, st.header), st.header, n))
  }

  /** An opened image is well formed exactly when those hold. */
  lemma OpenedIsWellFormed(d: Buf, capacity: nat, w: bool, dec: Decoders, n: nat)
    requires |d| <= capacity < 0x8000_0000_0000_0000 && OpenRun(d, capacity, w, true, dec).result.Ok?
    ensures var o := OpenRun(d, capacity, w, true, dec);
      var e, st := RunOps(d, o.ops), o.result.value;
      Settle(e, st.header, dec).Ok? && LegalGeometry(st.geometry)
      && var rt := Settle(e, st.header, dec).value;
         Find(rt, MetadataRegion).Some?
         && var m := Find(rt, MetadataRegion).value;
            WellFormed(e, st, Setting(capacity, rt, m, dec), n) <==> Unchecked(e, st, m, n)
  {
    hide OpenRun, Settle, Load, RunOps, LegalGeometry, Pending, LogRegionValid, WellFormed, Unchecked;
    OpenLoads(d, capacity, w, dec);
    var o := OpenRun(d, capacity, w, true, dec);
    LoadedIsWellFormed(RunOps(d, o.ops), o.result.value, capacity, w, dec, n);
  }

  lemma LoadedIsWellFormed(e: Buf, st: ReaderState, capacity: nat, w: bool, dec: Decoders, n: nat)
    requires Loaded(e, st, capacity, w, dec)
    ensures Settle(e, st.header, dec).Ok? && LegalGeometry(st.geometry)
    ensures var rt := Settle(e, st.header, dec).value;
      Find(rt, MetadataRegion).Some?
      && var m := Find(rt, MetadataRegion).value;
         WellFormed(e, st, Setting(capacity, rt, m, dec), n) <==> Unchecked(e, st, m, n)
  {
    var rt := Settle(e, st.header, dec).value;
    LoadCovers(e, st, st.header, st.slot, rt, w, dec);
    hide Settle, Load, Anchored, PickHeader, BatOf, LogClear, RoomFor, Layout, LegalGeometry, LogRegionValid, Pending,
      ReaderOk;
    var m := Find(rt, MetadataRegion).value;
    LegalMeansPositive(st.geometry);
    if Unchecked(e, st, m, n) {
      LayoutParts(st, m, |e|);
      LoadedAnchored(e, st, capacity, rt, w, dec);
      OpenedOk(e, st, capacity);
      MakesWellFormed(e, st, Setting(capacity, rt, m, dec), n);
    }
    if WellFormed(e, st, Setting(capacity, rt, m, dec), n) {
      WellFormedParts(e, st, Setting(capacity, rt, m, dec), n);
      AnchoredStart(e, st, Setting(capacity, rt, m, dec));
    }
  }

  lemma AnchoredStart(d: Buf, st: ReaderState, env: Setting)
    requires Anchored(d, st, env)
    ensures |d| >= 8 && d[..8] == IDENTIFIER
  {
    hide PickTable, LoadGeometry, RequiredEntries, LegalGeometry;
  }

  /** The header is current after an open that replayed nothing, and after one whose
      chain stayed above the headers and whose sequence number did not wrap; and after
      a replay the log has room for as long as the sequence number lasts. */
  lemma OpenedIsCurrent(d: Buf, capacity: nat, w: bool, dec: Decoders, n: nat)
    requires |d| <= capacity < 0x8000_0000_0000_0000 && OpenRun(d, capacity, w, true, dec).result.Ok?
    requires OpenRun(d, capacity, w, true, dec).ops != [] ==>
      Gates(d, true, dec).Ok? && StaysAboveHeaders(Gates(d, true, dec).value.chain)
        && Gates(d, true, dec).value.header.sequence < TWO64 - 1
    ensures var o := OpenRun(d, capacity, w, true, dec);
      var e, st := RunOps(d, o.ops), o.result.value;
      |e| >= 8 && e[..8] == IDENTIFIER && PickHeader(e) == Ok((st.header, st.slot))
      && (o.ops != [] ==>
            st.header.logOffset + st.header.logLength <= |e|
            && (RoomFor(LogRegion(e, st.header), st.header, n) <==> st.header.sequence + n < TWO64 - 1))
  {
    hide Gates, Settle, Load, PickHeader, Pending, LogRegionValid, LogClear, Replay, RunOps, Cleared, ClearOps,
      OpenRun, StaysAboveHeaders, RoomFor, LogRegion;
    var o := OpenRun(d, capacity, w, true, dec);
    if o.ops == [] {
      RunNothing(d, []);
      QuietOpenFacts(d, o.result.value, capacity, w, dec);
    } else {
      OpenIdempotent(d, capacity, w, dec, w, true);
      var e, st := RunOps(d, o.ops), o.result.value;
      QuietOpenFacts(e, st.(writable := w), capacity, w, dec);
      ReplayLeavesZeros(d, capacity, w, dec);
      if st.header.sequence + n < TWO64 - 1 {
        RoomInZeros(st.header.logLength, st.header, n);
      } else {
        NoRoomPastEnd(LogRegion(e, st.header), st.header, n);
      }
    }
  }

  lemma NoRoomPastEnd(log: Buf, h: Header, n: nat)
    requires h.sequence + n >= TWO64 - 1
    ensures !RoomFor(log, h, n)
  {
  }

  lemma ReplayLeavesZeros(d: Buf, capacity: nat, w: bool, dec: Decoders)
    requires |d| <= capacity < 0x8000_0000_0000_0000
    requires OpenRun(d, capacity, w, true, dec).result.Ok? && OpenRun(d, capacity, w, true, dec).ops != []
    ensures var o := OpenRun(d, capacity, w, true, dec);
      var e, h := RunOps(d, o.ops), o.result.value.header;
      h.logOffset + h.logLength <= |e| && LogRegion(e, h) == Zeros(h.logLength)
  {
    hide Gates, Settle, Load, PickHeader, Pending, LogRegionValid, LogClear, Replay, RunOps, Cleared, OpenRun;
    OpenedDevice(d, capacity, w, dec);
    var g := Gates(d, true, dec).value;
    var d1 := RunOps(d, Replay(|d|, capacity, g.chain).ops);
    LogRegionMeansMegabytes(|d|, g.header);
    LoadKeepsHeader(Cleared(d1, g.header, g.slot), ClearedHeader(g.header), g.slot.Other(),
      Settle(d1, g.header, dec).value, w, dec);
    ClearedLogIsZeros(d1, g.header, g.slot);
  }

  lemma OpenedOk(d: Buf, st: ReaderState, capacity: nat)
    requires |d| == st.devSize <= capacity < 0x8000_0000_0000_0000 && LegalGeometry(st.geometry)
      && LogRegionValid(|d|, st.header)
    requires st.header.version == 1 && st.batOffset + |st.bat| * ENTRY_BYTES <= |d|
    ensures ReaderOk(d, st, capacity)
  {
    hide LegalGeometry, LogRegionValid;
  }

  /** Entries enough for the disk, and none to spare. */
  ghost predicate Covers(g: Geometry, n: nat)
    requires g.blockSize > 0 && g.ratio > 0
  {
    (forall v: nat :: v < g.virtualSize ==> DataBatIndex(BlockOf(g, v), g.ratio) < n)
    && (n > 0 ==> exists v: nat :: v < g.virtualSize && DataBatIndex(BlockOf(g, v), g.ratio) == n - 1)
  }

  lemma LoadCovers(d: Buf, st: ReaderState, h: Header, slot: Slot, rt: RegionTable, w: bool, dec: Decoders)
    requires Load(d, h, slot, rt, w, dec) == Ok(st)
    ensures LegalGeometry(st.geometry) && Covers(st.geometry, |st.bat|) && st.devSize == |d|
      && Find(rt, MetadataRegion).Some?
  {
    hide RequiredEntries, DecodeBat, LegalGeometry, DataBatIndex;
    GeometryIsLegal(d, rt, dec);
    LegalMeansPositive(st.geometry);
    RequiredCovers(Find(rt, BatRegion).value.length, st.geometry, |st.bat|);
  }

  lemma RequiredCovers(regionLength: u32, g: Geometry, n: nat)
    requires g.blockSize > 0 && g.ratio > 0
      && RequiredEntries(regionLength, g.virtualSize, g.blockSize, g.ratio) == Ok(n)
    ensures Covers(g, n)
  {
    hide DataBatIndex;
    if g.virtualSize > 0 {
      var last := LastBlock(g.virtualSize, g.blockSize);
      assert BlockOf(g, g.virtualSize - 1) == last;
      hide BlockOf;
      forall v: nat | v < g.virtualSize
        ensures DataBatIndex(BlockOf(g, v), g.ratio) < n
      {
        ByteInDisk(g, v);
        if BlockOf(g, v) < last {
          IndexIncreases(BlockOf(g, v), last, g.ratio);
        }
      }
    }
  }

  /** After any successful open, every piece of every transfer inside the disk has its
      entry in the table, and no shorter table would do. */
  lemma OpenCovers(d: Buf, capacity: nat, w: bool, replayCapable: bool, dec: Decoders, offset: nat, end: nat)
    requires |d| < TWO64 && OpenRun(d, capacity, w, replayCapable, dec).result.Ok?
    ensures var st := OpenRun(d, capacity, w, replayCapable, dec).result.value;
      LegalGeometry(st.geometry) && Covers(st.geometry, |st.bat|)
      && (end <= st.geometry.virtualSize ==>
            forall i :: 0 <= i < |Chunks(st.geometry, offset, end, 0)| ==>
              Chunks(st.geometry, offset, end, 0)[i].batIndex < |st.bat|)
  {
    hide Gates, Settle, Load, Replay, RunOps, Chunks, LegalGeometry, Covers;
    var st := OpenRun(d, capacity, w, replayCapable, dec).result.value;
    var g := Gates(d, replayCapable, dec).value;
    if g.chain == [] {
      LoadCovers(d, st, g.header, g.slot, Settle(d, g.header, dec).value, w, dec);
    } else {
      var d1 := RunOps(d, Replay(|d|, capacity, g.chain).ops);
      LoadCovers(RunOps(d1, ClearOps(g.header, g.slot)), st, ClearedHeader(g.header), g.slot.Other(),
        Settle(d1, g.header, dec).value, w, dec);
    }
    LegalMeansPositive(st.geometry);
    if end <= st.geometry.virtualSize {
      ChunksIndexed(st.geometry, |st.bat|, offset, end, 0);
    }
  }

  lemma {:induction false} ChunksIndexed(g: Geometry, n: nat, v: nat, end: nat, pos: nat)
    requires g.blockSize > 0 && g.ratio > 0 && end <= g.virtualSize && Covers(g, n)
    ensures forall i :: 0 <= i < |Chunks(g, v, end, pos)| ==> Chunks(g, v, end, pos)[i].batIndex < n
    decreases end - v
  {
    hide DataBatIndex;
    if v < end {
      var c := ChunkAt(g, v, end, pos);
      assert c.batIndex == DataBatIndex(BlockOf(g, v), g.ratio);
      ChunksIndexed(g, n, v + c.len, end, pos + c.len);
    }
  }

  // ---- One write ----

  /** How many pieces a transfer has. */
  function Pieces(g: Geometry, offset: nat, len: nat): nat
    requires g.blockSize > 0 && g.ratio > 0
  {
    |Chunks(g, offset, offset + len, 0)|
  }

  lemma {:induction false} ReachAll(g: Geometry, v: nat, end: nat, pos: nat)
    requires g.blockSize > 0 && g.ratio > 0 && v <= end
    ensures Reach(g, v, end, |Chunks(g, v, end, pos)|) == end
    decreases end - v
  {
    if v < end {
      var len := ChunkAt(g, v, end, pos).len;
      ReachMore(g, v, end, pos, |Chunks(g, v + len, end, pos + len)|);
      hide ChunkAt;
      ReachAll(g, v + len, end, pos + len);
    }
  }

  lemma {:induction false} ChunksKeepOk(d: Buf, st: ReaderState, capacity: nat, cs: seq<BlockChunk>, buf: Buf)
    requires ReaderOk(d, st, capacity) && ChunksWithin(cs, |buf|)
    ensures var w := WriteChunks(d, st, capacity, cs, buf);
      ReaderOk(RunOps(d, w.ops), w.st, capacity) && w.st.geometry == st.geometry
    decreases |cs|
  {
    hide ReaderOk, WritePiece, RunOps;
    RunNothing(d, []);
    if cs != [] {
      var src := Source(buf, cs[0]);
      var p := WritePiece(d, st, capacity, cs[0], src);
      PieceKeepsOk(d, st, capacity, cs[0], src);
      if p.result.Ok? {
        var d1 := RunOps(d, p.ops);
        ChunksKeepOk(d1, p.st, capacity, cs[1..], buf);
        RunConcat(d, p.ops, WriteChunks(d1, p.st, capacity, cs[1..], buf).ops);
      }
    }
  }

  /** The operations of a write run those of its pieces. */
  lemma WriteRunIs(d: Buf, st: ReaderState, capacity: nat, offset: u64, buf: Buf)
    requires ReaderOk(d, st, capacity) && st.writable && buf != [] && offset + |buf| <= st.geometry.virtualSize
    requires st.geometry.blockSize > 0 && st.geometry.ratio > 0
    ensures var cs := Chunks(st.geometry, offset, offset + |buf|, 0);
      ChunksWithin(cs, |buf|)
      && var w, run := WriteChunks(d, st, capacity, cs, buf), WriteRun(d, st, capacity, offset, buf);
         run.ops == (if w.result.Ok? then w.ops + [Flush] else w.ops)
         && RunOps(d, run.ops) == RunOps(d, w.ops) && run.st == w.st && run.result == w.result
  {
    hide ReaderOk, WriteChunks, RunOps, Chunks, ChunksWithin;
    ChunksFit(st.geometry, offset, offset + |buf|, 0);
    var w := WriteChunks(d, st, capacity, Chunks(st.geometry, offset, offset + |buf|, 0), buf);
    RunConcat(d, w.ops, [Flush]);
    RunFlush(RunOps(d, w.ops));
  }

  lemma WriteKeepsOk(d: Buf, st: ReaderState, capacity: nat, offset: u64, buf: Buf)
    requires ReaderOk(d, st, capacity)
    ensures var w := WriteRun(d, st, capacity, offset, buf);
      ReaderOk(RunOps(d, w.ops), w.st, capacity) && w.st.geometry == st.geometry
  {
    hide WriteChunks, RunOps, Chunks, ChunksWithin, ReaderOk, LegalGeometry;
    RunNothing(d, []);
    GeometryOk(d, st, capacity);
    LegalMeansPositive(st.geometry);
    if st.writable && buf != [] && offset + |buf| <= st.geometry.virtualSize {
      ChunksFit(st.geometry, offset, offset + |buf|, 0);
      ChunksKeepOk(d, st, capacity, Chunks(st.geometry, offset, offset + |buf|, 0), buf);
      WriteRunIs(d, st, capacity, offset, buf);
    }
  }

  /** A write of the flat array; nothing happens past its end. */
  function FlatWrite(disk: Buf, offset: nat, x: Buf): Buf {
    if offset + |x| <= |disk| then Splice(disk, offset, x) else disk
  }

  /** `x` is where some number of whole pieces of `v..end` ends. */
  ghost predicate PieceBoundary(g: Geometry, v: nat, end: nat, x: nat)
    requires g.blockSize > 0 && g.ratio > 0 && v <= end
  {
    exists j: nat :: x == Reach(g, v, end, j)
  }

  /** A write puts all of its buffer on the disk, or the pieces before one that does
      not fit, or, if it lies outside the disk or the reader is read only, nothing. */
  lemma WriteRefines(d: Buf, st: ReaderState, env: Setting, n: nat, offset: u64, buf: Buf) returns (k: nat)
    requires st.geometry.blockSize > 0 && st.geometry.ratio > 0 && ReaderOk(d, st, env.capacity)
    requires WellFormed(d, st, env, n + Pieces(st.geometry, offset, |buf|))
    ensures var w, g := WriteRun(d, st, env.capacity, offset, buf), st.geometry;
      k <= |buf| && (w.result.Ok? ==> k == |buf|) && (k > 0 ==> st.writable && offset + |buf| <= g.virtualSize)
      && PieceBoundary(g, offset, offset + |buf|, offset + k)
      && SamePlaces(st, w.st) && w.st.writable == st.writable && HeaderMoved(st, w.st)
      && Disk(RunOps(d, w.ops), g, w.st.bat) == FlatWrite(Disk(d, g, st.bat), offset, buf[..k])
      && WellFormed(RunOps(d, w.ops), w.st, env, n)
  {
    hide WellFormed, ReaderOk, RunOps, Disk, Splice, WriteChunks, Chunks, Reach, ChunksWithin;
    var g, cs := st.geometry, Chunks(st.geometry, offset, offset + |buf|, 0);
    var disk := Disk(d, g, st.bat);
    if st.writable && buf != [] && offset + |buf| <= g.virtualSize {
      WriteRunIs(d, st, env.capacity, offset, buf);
      var j := ChunksRefine(d, st, env, n, offset, offset + |buf|, 0, buf);
      k := Reach(g, offset, offset + |buf|, j) - offset;
      ReachAll(g, offset, offset + |buf|, 0);
      assert buf[0..0 + k] == buf[..k];
    } else {
      k := 0;
      RunNothing(d, []);
      WriteNothing(d, st, env.capacity, offset, buf);
      FewerWellFormed(d, st, env, n + |cs|, n);
      if offset <= |disk| {
        SpliceEmpty(disk, offset);
      }
      ReachNone(g, offset, offset + |buf|);
      assert buf[..0] == [];
    }
  }

  lemma WriteNothing(d: Buf, st: ReaderState, capacity: nat, offset: u64, buf: Buf)
    requires ReaderOk(d, st, capacity)
    requires !st.writable || buf == [] || offset + |buf| > st.geometry.virtualSize
    ensures var w := WriteRun(d, st, capacity, offset, buf);
      w.ops == [] && w.st == st && (w.result.Ok? <==> st.writable && buf == [])
  {
    hide ReaderOk, WriteChunks, Chunks;
  }

  // ---- Runs of calls ----

  datatype Call = ReadCall(offset: u64, len: nat) | WriteCall(offset: u64, buf: Buf)

  /** The image after a run of calls, and what they returned; a write returns no
      bytes. */
  datatype Served = Served(d: Buf, st: ReaderState, replies: seq<Result<Buf>>)

  function Reply(r: Result<()>): Result<Buf> {
    match r
    case Ok(_) => Ok([])
    case Err(e) => Err(e)
  }

  function ServeOne(d: Buf, st: ReaderState, capacity: nat, call: Call): (s: Served)
    requires ReaderOk(d, st, capacity)
    ensures ReaderOk(s.d, s.st, capacity) && s.st.geometry == st.geometry && |s.replies| == 1
  {
    match call
    case ReadCall(offset, len) => Served(d, st, [ReadRun(d, st, offset, len)])
    case WriteCall(offset, buf) =>
      WriteKeepsOk(d, st, capacity, offset, buf);
      var w := WriteRun(d, st, capacity, offset, buf);
      Served(RunOps(d, w.ops), w.st, [Reply(w.result)])
  }

  function Serve(d: Buf, st: ReaderState, capacity: nat, calls: seq<Call>): Served
    requires ReaderOk(d, st, capacity)
    decreases |calls|
  {
    if calls == [] then Served(d, st, [])
    else
      var one := ServeOne(d, st, capacity, calls[0]);
      var rest := Serve(one.d, one.st, capacity, calls[1..]);
      Served(rest.d, rest.st, one.replies + rest.replies)
  }

  predicate InRange(size: nat, call: Call) {
    match call
    case ReadCall(offset, len) => len == 0 || offset + len <= size
    case WriteCall(offset, buf) => buf == [] || offset + |buf| <= size
  }

  /** What one call may do to a flat array of bytes, and return: a failing write stops
      between two pieces, and when `live` no call in range fails. */
  ghost predicate FlatStep(g: Geometry, live: bool, disk: Buf, call: Call, reply: Result<Buf>, after: Buf)
    requires g.blockSize > 0 && g.ratio > 0
  {
    (reply.Ok? ==> InRange(|disk|, call)) && (live && InRange(|disk|, call) ==> reply.Ok?)
    && match call
       case ReadCall(offset, len) =>
         after == disk
         && (len == 0 ==> reply == Ok([]))
         && (len > 0 && reply.Ok? ==> offset + len <= |disk| && reply.value == disk[offset..offset + len])
       case WriteCall(offset, buf) =>
         (reply.Ok? ==> reply.value == [] && after == FlatWrite(disk, offset, buf))
         && (reply.Err? ==>
               exists k :: 0 <= k <= |buf| && (k > 0 ==> offset + |buf| <= |disk|)
                 && after == FlatWrite(disk, offset, buf[..k])
                           && PieceBoundary(g, offset, offset + |buf|, offset + k))
  }

  ghost predicate FlatRun(g: Geometry, live: bool, disk: Buf, calls: seq<Call>, replies: seq<Result<Buf>>, after: Buf)
    requires g.blockSize > 0 && g.ratio > 0
    decreases |calls|
  {
    if calls == [] then replies == [] && after == disk
    else
      replies != []
      && exists next: Buf ::
           FlatStep(g, live, disk, calls[0], replies[0], next)
           && FlatRun(g, live, next, calls[1..], replies[1..], after)
  }

  /** The journalled pieces a run may need. */
  function Cost(g: Geometry, calls: seq<Call>): nat
    requires g.blockSize > 0 && g.ratio > 0
  {
    if calls == [] then 0
    else (if calls[0].WriteCall? then Pieces(g, calls[0].offset, |calls[0].buf|) else 0) + Cost(g, calls[1..])
  }

  /** Every call in range succeeds on a provisioned image, and leaves it so. */
  lemma CallSucceeds(d: Buf, st: ReaderState, env: Setting, n: nat, call: Call)
    requires st.geometry.blockSize > 0 && st.geometry.ratio > 0 && ReaderOk(d, st, env.capacity)
      && Provisioned(st, env.capacity)
    requires WellFormed(d, st, env, n + Cost(st.geometry, [call]))
    ensures var s := ServeOne(d, st, env.capacity, call);
      (InRange(st.geometry.virtualSize, call) ==> s.replies[0].Ok?) && Provisioned(s.st, env.capacity)
  {
    hide WellFormed, ReaderOk, RunOps, Disk, ReadRun, WriteRun, LegalGeometry, Pieces, AllReadable, Chunks,
      Provisioned, WriteChunks, ChunksWithin;
    var g := st.geometry;
    CostOne(g, call);
    GeometryOk(d, st, env.capacity);
    Sized(d, st, env.capacity);
    match call
    case ReadCall(offset, len) =>
      ReadRefines(d, st, env, n, offset, len);
      if len > 0 && offset + len <= g.virtualSize {
        ChunksReadable(st, env.capacity, offset, offset + len, 0);
      }
    case WriteCall(offset, buf) =>
      MayWrite(st, env.capacity);
      if buf != [] && offset + |buf| <= g.virtualSize {
        WriteRunIs(d, st, env.capacity, offset, buf);
        PiecesAre(g, offset, |buf|);
        ChunksSucceed(d, st, env, n, offset, offset + |buf|, 0, buf);
      } else {
        WriteNothing(d, st, env.capacity, offset, buf);
      }
  }

  lemma PiecesAre(g: Geometry, offset: nat, len: nat)
    requires g.blockSize > 0 && g.ratio > 0
    ensures Pieces(g, offset, len) == |Chunks(g, offset, offset + len, 0)|
  {
    hide Chunks;
  }

  lemma MayWrite(st: ReaderState, capacity: nat)
    requires st.geometry.blockSize > 0 && st.geometry.ratio > 0 && Provisioned(st, capacity)
    ensures st.writable
  {
  }

  lemma CallRefines(d: Buf, st: ReaderState, env: Setting, n: nat, live: bool, call: Call)
    requires st.geometry.blockSize > 0 && st.geometry.ratio > 0 && ReaderOk(d, st, env.capacity)
      && (live ==> Provisioned(st, env.capacity))
    requires WellFormed(d, st, env, n + Cost(st.geometry, [call]))
    ensures var s, g := ServeOne(d, st, env.capacity, call), st.geometry;
      FlatStep(g, live, Disk(d, g, st.bat), call, s.replies[0], Disk(s.d, g, s.st.bat))
        && (live ==> Provisioned(s.st, env.capacity))
      && SamePlaces(st, s.st) && HeaderMoved(st, s.st) && WellFormed(s.d, s.st, env, n)
  {
    hide WellFormed, ReaderOk, RunOps, Disk, ReadRun, WriteRun, LegalGeometry, Pieces, FlatWrite, AllReadable, Chunks,
      Provisioned, PieceBoundary, ServeOne;
    if live {
      CallSucceeds(d, st, env, n, call);
    }
    CallSteps(d, st, env, n, call);
  }

  lemma CallSteps(d: Buf, st: ReaderState, env: Setting, n: nat, call: Call)
    requires st.geometry.blockSize > 0 && st.geometry.ratio > 0 && ReaderOk(d, st, env.capacity)
    requires WellFormed(d, st, env, n + Cost(st.geometry, [call]))
    ensures var s, g := ServeOne(d, st, env.capacity, call), st.geometry;
      FlatStep(g, false, Disk(d, g, st.bat), call, s.replies[0], Disk(s.d, g, s.st.bat))
      && SamePlaces(st, s.st) && HeaderMoved(st, s.st) && WellFormed(s.d, s.st, env, n)
  {
    hide WellFormed, ReaderOk, RunOps, Disk, ReadRun, WriteRun, LegalGeometry, Pieces, FlatWrite, AllReadable, Chunks,
      PieceBoundary;
    CostOne(st.geometry, call);
    GeometryOk(d, st, env.capacity);
    Sized(d, st, env.capacity);
    match call
    case ReadCall(offset, len) =>
      ReadRefines(d, st, env, n, offset, len);
    case WriteCall(offset, buf) =>
      var k := WriteRefines(d, st, env, n, offset, buf);
      assert buf[..|buf|] == buf;
  }

  lemma CostOne(g: Geometry, call: Call)
    requires g.blockSize > 0 && g.ratio > 0
    ensures Cost(g, [call]) == if call.WriteCall? then Pieces(g, call.offset, |call.buf|) else 0
  {
    hide Pieces;
    assert [call][1..] == [];
  }

  /** Any run of reads and writes on a well-formed image is a run on one flat array of
      `virtualSize` bytes, on which no call in range fails if the image is provisioned;
      and it leaves the image well formed: the table in memory is still the table on
      the device. */
  lemma {:induction false} RunRefines(d: Buf, st: ReaderState, env: Setting, n: nat, live: bool,
                                      calls: seq<Call>)
    requires st.geometry.blockSize > 0 && st.geometry.ratio > 0 && ReaderOk(d, st, env.capacity)
      && (live ==> Provisioned(st, env.capacity))
    requires WellFormed(d, st, env, n + Cost(st.geometry, calls))
    ensures var s, g := Serve(d, st, env.capacity, calls), st.geometry;
      s.st.geometry == g
      && FlatRun(g, live, Disk(d, g, st.bat), calls, s.replies, Disk(s.d, g, s.st.bat))
         && (live ==> Provisioned(s.st, env.capacity))
      && SamePlaces(st, s.st) && HeaderMoved(st, s.st) && WellFormed(s.d, s.st, env, n)
    decreases |calls|
  {
    hide WellFormed, ReaderOk, Disk, ServeOne, FlatStep, Pieces, Provisioned, NthHeader;
    var g := st.geometry;
    if calls == [] {
      MovedNothing(st);
    } else {
      var one, rest := ServeOne(d, st, env.capacity, calls[0]), calls[1..];
      CostOne(g, calls[0]);
      CallRefines(d, st, env, n + Cost(g, rest), live, calls[0]);
      RunRefines(one.d, one.st, env, n, live, rest);
      var s := Serve(d, st, env.capacity, calls);
      MovedTwice(st, one.st, s.st);
      assert s.replies[0] == one.replies[0] && s.replies[1..] == Serve(one.d, one.st, env.capacity, rest).replies;
    }
  }
}
