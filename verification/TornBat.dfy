/** A torn BAT sector: what it can do to an image without a log, exactly when every such
    tear is tolerated, and the tears no image minds. */
module TornBat {
  import opened Bytes
  import opened LogFormat
  import opened Devices
  import opened Headers
  import opened Bat
  import opened Open
  import opened Reader
  import opened Image
  import opened Recovery
  import opened CrashSafety
  import opened Atomicity
  import opened UnloggedCrash
  import opened Refinement
  import opened Sessions
  import opened WriteCrash
  import opened Allocator
  import opened Tables
  import opened FreshImage

  /** A crash that tears a write to the BAT, leaving any bytes. */
  predicate TableTear(st: ReaderState, ops: seq<DevOp>, c: Crash) {
    CrashOf(ops, c) && c.Torn? && InTable(st, ops[c.k].off)
  }

  // ---- A tear that shows ----

  /** Reopening does nothing and succeeds, and byte `x` of the disk, zero in `disk`, is the
      first of the file's own identifier. */
  ghost predicate ShowsStart(e: Buf, env: Setting, w: bool, disk: Buf, x: nat) {
    |e| < TWO64 && x < |disk| && disk[x] == 0
    && var o := OpenRun(e, env.capacity, w, true, env.dec);
       o.ops == [] && o.result.Ok?
       && var s := o.result.value;
          s.geometry.blockSize > 0 && s.geometry.ratio > 0 && s.geometry.virtualSize == |disk|
          && Disk(e, s.geometry, s.bat)[x] == IDENTIFIER[0]
  }

  lemma ShownIsNotRecovered(e: Buf, env: Setting, w: bool, n: nat, disk: Buf, x: nat)
    requires ShowsStart(e, env, w, disk, x)
    ensures !Recovers(e, env, w, n, disk)
  {
    hide OpenRun, WellFormed, Disk, Held;
    LogReplay.RunNothing(e, []);
  }

  /** The device once the tear has left the entry of block `a` naming the start of the
      file. */
  function TornDevice(d: Buf, st: ReaderState, p: Plan, index: nat): (e: Buf)
    requires |d| <= p.size && SectorOf(st, index) + SECTOR <= |d| && InSector(st.batOffset, index)
    ensures |e| == p.size
  {
    Splice(Wide(d, p), SectorOf(st, index), PublishedSector(d, st, index, 0))
  }

  /** What the entry of an absent block has to do with the sector of another. */
  ghost predicate Sharing(d: Buf, st: ReaderState, env: Setting, n: nat, b: nat, p: Plan, a: nat) {
    Allocating(d, st, env, n, b, p) && st.header.logLength == 0
    && st.geometry.blockSize > 0 && st.geometry.ratio > 0 && InDisk(st.geometry, a) && !Present(st.geometry, st.bat, a)
    && DataBatIndex(a, st.geometry.ratio) < |st.bat| && SectorOf(st, DataBatIndex(a, st.geometry.ratio)) == p.off
  }

  lemma SharedSector(d: Buf, st: ReaderState, env: Setting, n: nat, b: nat, p: Plan, a: nat)
    requires Sharing(d, st, env, n, b, p, a)
    ensures var index := DataBatIndex(a, st.geometry.ratio);
      index < |st.bat| && InSector(st.batOffset, index) && p.off + SECTOR <= |d| <= p.size && p.size <= env.capacity
      && ONE_MIB <= st.batOffset <= p.off && p.off + SECTOR <= BatEnd(st)
      && SectorOf(st, index) == p.off && p.off <= st.batOffset + index * ENTRY_BYTES
      && st.batOffset + index * ENTRY_BYTES + 8 <= p.off + SECTOR && |d| >= ONE_MIB && BareBounds(d, st, p)
      && p.size >= 2 * ONE_MIB
  {
    hide WellFormed, Anchored, PickHeader, LogClear, Layout, ControlLayout, BlocksApart, ReaderOk, BatOf,
      LogRegionValid, BlocksClear, InDisk, PlanFor, NewSize, BatEnd, DataBatIndex, Present, Allocating, InSector,
      BareBounds;
    var index := DataBatIndex(a, st.geometry.ratio);
    AllocatingIs(d, st, env, n, b, p);
    WellFormedParts(d, st, env, n);
    LayoutParts(st, env.m, |d|);
    AllocatingPlan(d, st, env, n, b, p);
    BareBoundsOf(d, st, env, n, b, p);
    TableInSectors(d, st, env, n, index);
    EntryInSector(st, index);
    hide SectorOf;
    BareSize(d, st, p);
  }

  lemma BareSize(d: Buf, st: ReaderState, p: Plan)
    requires BareBounds(d, st, p)
    ensures ONE_MIB <= |d| <= p.size && p.off + SECTOR <= |d|
  {
  }

  lemma EntryInSector(st: ReaderState, index: nat)
    requires InSector(st.batOffset, index)
    ensures SectorOf(st, index) <= st.batOffset + index * ENTRY_BYTES
    ensures st.batOffset + index * ENTRY_BYTES + 8 <= SectorOf(st, index) + SECTOR
  {
  }

  lemma TornTable(d: Buf, st: ReaderState, env: Setting, n: nat, b: nat, p: Plan, a: nat)
    requires Sharing(d, st, env, n, b, p, a)
    ensures var index := DataBatIndex(a, st.geometry.ratio);
      index < |st.bat| && InSector(st.batOffset, index) && SectorOf(st, index) + SECTOR <= |d| <= p.size
      && st.batOffset + |st.bat| * ENTRY_BYTES <= p.size
      && BatOf(TornDevice(d, st, p, index), st) == st.bat[index := BatEntry(FullyPresent, 0)]
  {
    hide WellFormed, Anchored, PickHeader, LogClear, Layout, ControlLayout, BlocksApart, ReaderOk, BatOf,
      LogRegionValid, Splice, BlocksClear, InDisk, PlanFor, NewSize, PresentAt, Le, BatEnd, Zeros, DataBatIndex,
      Present, Allocating, Sharing, SectorOf, InSector, BareBounds;
    SharedSector(d, st, env, n, b, p, a);
    WellFormedShared(d, st, env, n, b, p, a);
    WellFormedParts(d, st, env, n);
    var wide, index := Wide(d, p), DataBatIndex(a, st.geometry.ratio);
    assert wide[..|d|] == d;
    assert wide[p.off..p.off + SECTOR] == d[p.off..p.off + SECTOR];
    NearTable(d, wide);
    BatPublished(d, wide, wide, st, p.off, index, 0, PublishedSector(d, st, index, 0));
  }

  lemma WellFormedShared(d: Buf, st: ReaderState, env: Setting, n: nat, b: nat, p: Plan, a: nat)
    requires Sharing(d, st, env, n, b, p, a)
    ensures WellFormed(d, st, env, n) && st.header.logLength == 0
  {
    hide WellFormed, DataBatIndex, InDisk, Present, Allocating;
    AllocatingIs(d, st, env, n, b, p);
  }

  lemma NearTorn(d: Buf, st: ReaderState, p: Plan, off: nat, x: Sector)
    requires ONE_MIB <= st.batOffset <= off && off + SECTOR <= BatEnd(st) && off + SECTOR <= |d| <= p.size
      && |d| >= ONE_MIB
    requires p.size >= 2 * ONE_MIB
    ensures var e := Splice(Wide(d, p), off, x);
      Near(d, e, st) && PickHeader(e) == PickHeader(d) && e[0..8] == d[0..8]
  {
    hide Near, BatEnd, Splice, PickHeader, Zeros;
    var wide := Wide(d, p);
    NearWide(d, Zeros(p.size - |d|), st);
    NearSplice(d, wide, st, off, x);
    WidenedHeader(d, Zeros(p.size - |d|));
    HeaderBelowBat(wide, st, off, x);
    SpliceOutside(wide, off, x, 0, 8);
    PrefixSlice(d, Zeros(p.size - |d|), 0, 8);
  }

  /** It loads, with block `a` at the start of the file. */
  lemma TornOpens(d: Buf, st: ReaderState, env: Setting, n: nat, b: nat, p: Plan, a: nat, w: bool)
    requires Sharing(d, st, env, n, b, p, a)
    ensures var index := DataBatIndex(a, st.geometry.ratio);
      index < |st.bat| && InSector(st.batOffset, index) && SectorOf(st, index) + SECTOR <= |d| <= p.size
      && var e := TornDevice(d, st, p, index);
         |e| < TWO64 && e[0..8] == IDENTIFIER
         && OpenRun(e, env.capacity, w, true, env.dec)
            == Opened([], Ok(st.(devSize := |e|, bat := st.bat[index := BatEntry(FullyPresent, 0)], writable := w)))
  {
    hide WellFormed, Anchored, PickHeader, LogClear, Layout, ControlLayout, BlocksApart, ReaderOk, BatOf,
      LogRegionValid, Splice, BlocksClear, InDisk, PlanFor, NewSize, PresentAt, Le, BatEnd, Zeros, DataBatIndex,
      Present, Allocating, Sharing, SectorOf, InSector, BareBounds, Near, Load, Gates, Settle, Wide, PublishedSector;
    SharedSector(d, st, env, n, b, p, a);
    WellFormedShared(d, st, env, n, b, p, a);
    WellFormedParts(d, st, env, n);
    LayoutParts(st, env.m, |d|);
    TornTable(d, st, env, n, b, p, a);
    var index := DataBatIndex(a, st.geometry.ratio);
    var e, t := TornDevice(d, st, p, index), st.(devSize := p.size);
    NearTorn(d, st, p, p.off, PublishedSector(d, st, index, 0));
    AnchoredStart(d, st, env);
    assert e[..8] == e[0..8] && d[..8] == d[0..8];
    NearAnchored(d, e, st, env);
    AnchoredSame(e, st, t, env);
    ReaderOkMoves(d, st, e, t, env.capacity);
    NothingPending(e, t.header);
    GatesPass(e, t, env);
    AnchoredLoads(e, t, env, t.header, t.slot, w);
    BatOfSame(e, st, t);
    QuietOpen(e, env.capacity, w, env.dec, t.header, t.slot, env.rt);
  }

  lemma NothingPending(e: Buf, h: Header)
    requires h.logLength == 0
    ensures Pending(e, h) == Ok([])
  {
  }

  lemma BlockStarts(g: Geometry, a: nat)
    requires g.blockSize > 0 && InDisk(g, a)
    ensures At(g, a, 0) < g.virtualSize
  {
    var last := LastBlock(g.virtualSize, g.blockSize);
    assert At(g, a, 0) == a * g.blockSize <= last * g.blockSize;
  }

  lemma TornByte(d: Buf, e: Buf, g: Geometry, bat: seq<BatEntry>, a: nat)
    requires g.blockSize > 0 && g.ratio > 0 && InDisk(g, a) && !Present(g, bat, a)
      && DataBatIndex(a, g.ratio) < |bat| && |e| > 0
    ensures var x := At(g, a, 0);
      x < g.virtualSize && Disk(d, g, bat)[x] == 0
      && Disk(e, g, bat[DataBatIndex(a, g.ratio) := BatEntry(FullyPresent, 0)])[x] == e[0]
  {
    hide DataBatIndex, InDisk, At, Disk;
    BlockStarts(g, a);
    DiskSlice(d, g, bat, a, 0, 1, 0);
    DiskSlice(e, g, bat[DataBatIndex(a, g.ratio) := BatEntry(FullyPresent, 0)], a, 0, 1, 0);
  }

  lemma TearShows(d: Buf, st: ReaderState, env: Setting, n: nat, b: nat, p: Plan, a: nat, w: bool)
    requires Sharing(d, st, env, n, b, p, a)
    ensures var index := DataBatIndex(a, st.geometry.ratio);
      index < |st.bat| && InSector(st.batOffset, index) && SectorOf(st, index) + SECTOR <= |d| <= p.size
      && ShowsStart(TornDevice(d, st, p, index), env, w, Disk(d, st.geometry, st.bat), At(st.geometry, a, 0))
  {
    hide WellFormed, InDisk, DataBatIndex, Present, Allocating, SectorOf, InSector, TornDevice, Disk, OpenRun, At;
    TornOpens(d, st, env, n, b, p, a, w);
    var e := TornDevice(d, st, p, DataBatIndex(a, st.geometry.ratio));
    assert e[0] == e[0..8][0];
    TornByte(d, e, st.geometry, st.bat, a);
  }

  lemma TornIsCrash(d: Buf, st: ReaderState, env: Setting, n: nat, b: nat, p: Plan, a: nat, inBlock: nat, src: Buf)
    requires Sharing(d, st, env, n, b, p, a) && inBlock + |src| <= st.geometry.blockSize
    ensures var index := DataBatIndex(a, st.geometry.ratio);
      index < |st.bat| && InSector(st.batOffset, index) && SectorOf(st, index) + SECTOR <= |d| <= p.size
      && var ops, c := BareOps(st, p, inBlock, src), Torn(3, PublishedSector(d, st, index, 0));
         TableTear(st, ops, c) && CrashState(d, ops, c) == TornDevice(d, st, p, index)
  {
    hide InDisk, DataBatIndex, Present, Allocating, InSector, Splice, BatEnd, BareBounds, PublishedSector, SectorOf,
      RunOps, Zeros, BareStage;
    SharedSector(d, st, env, n, b, p, a);
    var index := DataBatIndex(a, st.geometry.ratio);
    BareRun(d, st, p, inBlock, src, 3);
    ThirdStage(d, st, p, inBlock, src);
  }

  lemma ThirdStage(d: Buf, st: ReaderState, p: Plan, inBlock: nat, src: Buf)
    requires BareBounds(d, st, p) && inBlock + |src| <= st.geometry.blockSize
    ensures |d| <= p.size && BareStage(d, st, p, inBlock, src, 3) == Wide(d, p)
  {
    hide Bare, Splice;
  }

  /** Without a log: whatever block a piece allocates, and whatever absent block has its
      entry in the same sector, some tear of that sector makes a reopen succeed and show
      the start of the file where that block read as zeros. */
  lemma TornSectorShows(d: Buf, st: ReaderState, env: Setting, n: nat, v: nat, end: nat, pos: nat, src: Buf, a: nat,
                        w: bool)
    requires st.header.logLength == 0 && st.geometry.blockSize > 0 && st.geometry.ratio > 0
      && v < end <= st.geometry.virtualSize
    requires ReaderOk(d, st, env.capacity)
    requires var k := ChunkAt(st.geometry, v, end, pos);
      |src| == k.len && k.batIndex < |st.bat| && st.bat[k.batIndex].state.ZeroFill() && NewSize(st) <= env.capacity
      && InDisk(st.geometry, a) && !Present(st.geometry, st.bat, a) && DataBatIndex(a, st.geometry.ratio) < |st.bat|
      && SectorOf(st, DataBatIndex(a, st.geometry.ratio)) == SectorOf(st, k.batIndex)
    requires WellFormed(d, st, env, n)
    ensures var ops, index := WritePiece(d, st, env.capacity, ChunkAt(st.geometry, v, end, pos), src).ops,
                              DataBatIndex(a, st.geometry.ratio);
      InSector(st.batOffset, index) && SectorOf(st, index) + SECTOR <= |d|
      && var c := Torn(3, PublishedSector(d, st, index, 0));
         |ops| == 6 && TableTear(st, ops, c)
         && ShowsStart(CrashState(d, ops, c), env, w, Disk(d, st.geometry, st.bat), At(st.geometry, a, 0))
  {
    hide WellFormed, ReaderOk, WritePiece, Disk, InDisk, DataBatIndex, PlanFor, NewSize, BareOps, Allocating, At,
      BlockOf, InBlock, CrashState, TableTear, ShowsStart, SectorOf, InSector, Present, PublishedSector;
    var g, k, b := st.geometry, ChunkAt(st.geometry, v, end, pos), BlockOf(st.geometry, v);
    ChunkFacts(g, v, end, pos);
    PieceAllocates(d, st, env, n, v, end, pos);
    var p := PlanFor(d, st, env.capacity, k.batIndex);
    hide ChunkAt;
    PlanIsInSector(d, st, env.capacity, k.batIndex);
    BareOpsOfWrite(d, st, env.capacity, k, src);
    TornIsCrash(d, st, env, n, b, p, a, k.inBlock, src);
    TearShows(d, st, env, n, b, p, a, w);
  }

  lemma PlanIsInSector(d: Buf, st: ReaderState, capacity: nat, index: nat)
    requires ReaderOk(d, st, capacity) && index < |st.bat| && NewSize(st) <= capacity && InSector(st.batOffset, index)
    ensures PlanFor(d, st, capacity, index).off == SectorOf(st, index)
  {
    hide PublishedSector, AlignUp, SectorOf, InSector;
  }

  // ---- Exactly when no tear of the BAT shows ----

  /** The first piece whose block is not there yet can be given one. */
  predicate Allocates(st: ReaderState, capacity: nat, cs: seq<BlockChunk>)
    requires st.geometry.blockSize > 0
  {
    cs != [] && cs[0].batIndex < |st.bat|
    && if st.bat[cs[0].batIndex].state.FullyPresent? then Allocates(st, capacity, cs[1..])
       else PieceFits(st, capacity, cs[0])
  }

  lemma AllocatesCons(st: ReaderState, capacity: nat, c: BlockChunk, rest: seq<BlockChunk>)
    requires st.geometry.blockSize > 0
    ensures Allocates(st, capacity, [c] + rest)
      <==> c.batIndex < |st.bat|
           && if st.bat[c.batIndex].state.FullyPresent? then Allocates(st, capacity, rest)
              else PieceFits(st, capacity, c)
  {
    assert ([c] + rest)[1..] == rest;
  }

  lemma TearSooner(d: Buf, st: ReaderState, a: seq<DevOp>, b: seq<DevOp>, c: Crash)
    requires TableTear(st, a, c)
    ensures TableTear(st, a + b, c) && CrashState(d, a + b, c) == CrashState(d, a, c)
  {
    hide RunOps, RunOp, BatEnd;
    assert (a + b)[..c.k] == a[..c.k];
  }

  lemma TearLater(d: Buf, st: ReaderState, a: seq<DevOp>, b: seq<DevOp>, c: Crash)
    requires TableTear(st, b, c)
    ensures var later := Torn(c.k + |a|, c.bytes);
      TableTear(st, a + b, later) && CrashState(d, a + b, later) == CrashState(RunOps(d, a), b, c)
  {
    hide RunOps, RunOp, BatEnd;
    CrashLater(d, a, b, Torn(c.k + |a|, c.bytes));
  }

  /** The disk with the pieces finished by the time of a crash. */
  function Expected(d: Buf, st: ReaderState, capacity: nat, v: nat, end: nat, pos: nat, buf: Buf, k: nat): Buf
    requires st.geometry.blockSize > 0 && st.geometry.ratio > 0
    requires v <= end <= st.geometry.virtualSize && pos + (end - v) <= |buf|
    requires ReaderOk(d, st, capacity) && ChunksWithin(Chunks(st.geometry, v, end, pos), |buf|)
  {
    Applied(Disk(d, st.geometry, st.bat), st.geometry, v, end, pos, buf,
            Finished(d, st, capacity, Chunks(st.geometry, v, end, pos), buf, k))
  }

  /** `a` writes the first piece over a present block and leaves `d1`. */
  ghost predicate PresentStep(d: Buf, st: ReaderState, capacity: nat, v: nat, end: nat, pos: nat, buf: Buf, d1: Buf,
                              a: seq<DevOp>)
    requires st.geometry.blockSize > 0 && st.geometry.ratio > 0 && ReaderOk(d, st, capacity)
    requires v < end <= st.geometry.virtualSize && pos + (end - v) <= |buf|
  {
    var k := ChunkAt(st.geometry, v, end, pos);
    k.len > 0 && v + k.len <= end && ReaderOk(d1, st, capacity) && k.batIndex < |st.bat|
    && a == [Write(st.bat[k.batIndex].fileOffset + k.inBlock, buf[pos..pos + k.len])]
    && WritePiece(d, st, capacity, k, buf[pos..pos + k.len]) == Step(a, st, Ok(())) && RunOps(d, a) == d1
    && Disk(d1, st.geometry, st.bat) == Splice(Disk(d, st.geometry, st.bat), v, buf[pos..pos + k.len])
  }

  lemma PastPresent(d: Buf, st: ReaderState, env: Setting, n: nat, v: nat, end: nat, pos: nat, buf: Buf)
    returns (d1: Buf, a: seq<DevOp>)
    requires st.geometry.blockSize > 0 && st.geometry.ratio > 0
    requires v < end <= st.geometry.virtualSize && pos + (end - v) <= |buf|
    requires ReaderOk(d, st, env.capacity) && ChunksWithin(Chunks(st.geometry, v, end, pos), |buf|)
    requires var k := ChunkAt(st.geometry, v, end, pos);
      k.batIndex < |st.bat| && st.bat[k.batIndex].state.FullyPresent?
    requires WellFormed(d, st, env, n)
    ensures PresentStep(d, st, env.capacity, v, end, pos, buf, d1, a) && WellFormed(d1, st, env, n)
  {
    hide WellFormed, ReaderOk, Disk, RunOps, WritePiece, Splice, PieceDone, ChunkAt;
    var k := ChunkAt(st.geometry, v, end, pos);
    var src := buf[pos..pos + k.len];
    ChunkFacts(st.geometry, v, end, pos);
    Sized(d, st, env.capacity);
    PresentPiece(d, st, env, n, v, end, pos, src);
    var host := st.bat[k.batIndex].fileOffset + k.inBlock;
    a, d1 := [Write(host, src)], Splice(d, host, src);
    OneWrite(d, host, src);
    PieceDoneIs(d, st, d1, st, env, n, v, src);
    PieceDoneDisk(d, st, d1, st, env, n, v, src);
    OkOfWellFormed(d1, st, env, n);
  }

  lemma OneWrite(d: Buf, off: nat, x: Buf)
    requires off + |x| <= |d|
    ensures RunOps(d, [Write(off, x)]) == Splice(d, off, x)
  {
    hide RunOps, Splice;
    RunOne(d, Write(off, x));
  }

  /** What is finished past it. */
  lemma ExpectedMore(d: Buf, st: ReaderState, capacity: nat, v: nat, end: nat, pos: nat, buf: Buf, d1: Buf,
                     a: seq<DevOp>, i: nat)
    requires st.geometry.blockSize > 0 && st.geometry.ratio > 0
    requires v < end <= st.geometry.virtualSize && pos + (end - v) <= |buf|
    requires ReaderOk(d, st, capacity) && ChunksWithin(Chunks(st.geometry, v, end, pos), |buf|)
    requires PresentStep(d, st, capacity, v, end, pos, buf, d1, a)
    ensures var k := ChunkAt(st.geometry, v, end, pos);
      ChunksWithin(Chunks(st.geometry, v + k.len, end, pos + k.len), |buf|)
      && Expected(d, st, capacity, v, end, pos, buf, i + 1)
         == Expected(d1, st, capacity, v + k.len, end, pos + k.len, buf, i)
  {
    hide ReaderOk, Disk, RunOps, WritePiece, Splice, ChunkAt, Chunks, ChunksWithin, Finished, Applied;
    var g, k := st.geometry, ChunkAt(st.geometry, v, end, pos);
    var rest := Chunks(g, v + k.len, end, pos + k.len);
    ChunksCons(g, v, end, pos);
    FinishedFirst(d, st, capacity, k, rest, buf, i + 1);
    AppliedMore(Disk(d, g, st.bat), g, v, end, pos, buf, Finished(d1, st, capacity, rest, buf, i));
  }

  /** Without a log, if some piece allocates, some tear shows the start of the file. */
  lemma {:induction false} ChunksTear(d: Buf, st: ReaderState, env: Setting, n: nat,
                                      v: nat, end: nat, pos: nat, buf: Buf, w: bool) returns (c: Crash, x: nat)
    requires st.header.logLength == 0 && st.geometry.blockSize > 0 && st.geometry.ratio > 0
    requires v <= end <= st.geometry.virtualSize && pos + (end - v) <= |buf|
    requires ReaderOk(d, st, env.capacity) && ChunksWithin(Chunks(st.geometry, v, end, pos), |buf|)
    requires Allocates(st, env.capacity, Chunks(st.geometry, v, end, pos))
    requires WellFormed(d, st, env, n)
    ensures var ops := WriteChunks(d, st, env.capacity, Chunks(st.geometry, v, end, pos), buf).ops;
      TableTear(st, ops, c)
      && ShowsStart(CrashState(d, ops, c), env, w, Expected(d, st, env.capacity, v, end, pos, buf, c.k), x)
    decreases end - v
  {
    hide WellFormed, ReaderOk, Disk, RunOps, WritePiece, PieceFits, Splice, CrashState, ChunkAt, WriteChunks, Chunks,
      ChunksWithin, Allocates, TableTear, ShowsStart, Expected, NewSize;
    var g, cs := st.geometry, Chunks(st.geometry, v, end, pos);
    if v == end {
      NoChunks(d, st, env.capacity, v, pos, buf);
      NoneAllocates(st, env.capacity);
      assert false;
    } else {
      var k := ChunkAt(g, v, end, pos);
      var rest := Chunks(g, v + k.len, end, pos + k.len);
      ChunksCons(g, v, end, pos);
      AllocatesCons(st, env.capacity, k, rest);
      if st.bat[k.batIndex].state.FullyPresent? {
        var d1, a := PastPresent(d, st, env, n, v, end, pos, buf);
        FirstChunk(d, st, env.capacity, k, rest, buf);
        var later;
        later, x := ChunksTear(d1, st, env, n, v + k.len, end, pos + k.len, buf, w);
        TearIsTorn(st, WriteChunks(d1, st, env.capacity, rest, buf).ops, later);
        TearLater(d, st, a, WriteChunks(d1, st, env.capacity, rest, buf).ops, later);
        c := Torn(later.k + 1, later.bytes);
        ExpectedMore(d, st, env.capacity, v, end, pos, buf, d1, a, later.k);
      } else {
        c, x := FirstTear(d, st, env, n, v, end, pos, buf, w);
      }
    }
  }

  lemma TearIsTorn(st: ReaderState, ops: seq<DevOp>, c: Crash)
    requires TableTear(st, ops, c)
    ensures c.Torn?
  {
  }

  lemma NoneAllocates(st: ReaderState, capacity: nat)
    requires st.geometry.blockSize > 0
    ensures !Allocates(st, capacity, [])
  {
  }

  /** The piece that allocates is the first. */
  lemma FirstTear(d: Buf, st: ReaderState, env: Setting, n: nat,
                  v: nat, end: nat, pos: nat, buf: Buf, w: bool) returns (c: Crash, x: nat)
    requires st.header.logLength == 0 && st.geometry.blockSize > 0 && st.geometry.ratio > 0
    requires v < end <= st.geometry.virtualSize && pos + (end - v) <= |buf|
    requires ReaderOk(d, st, env.capacity) && ChunksWithin(Chunks(st.geometry, v, end, pos), |buf|)
    requires var k := ChunkAt(st.geometry, v, end, pos);
      PieceFits(st, env.capacity, k) && !st.bat[k.batIndex].state.FullyPresent?
    requires WellFormed(d, st, env, n)
    ensures var ops := WriteChunks(d, st, env.capacity, Chunks(st.geometry, v, end, pos), buf).ops;
      TableTear(st, ops, c)
      && ShowsStart(CrashState(d, ops, c), env, w, Expected(d, st, env.capacity, v, end, pos, buf, c.k), x)
  {
    hide WellFormed, ReaderOk, Disk, RunOps, WritePiece, Splice, CrashState, ChunkAt, WriteChunks, Chunks,
      ChunksWithin, TableTear, ShowsStart, NewSize, Finished, Applied, SectorOf, InSector, PublishedSector,
      DataBatIndex, InDisk, BlockOf, InBlock;
    var g, k := st.geometry, ChunkAt(st.geometry, v, end, pos);
    var src, rest, b := buf[pos..pos + k.len], Chunks(g, v + k.len, end, pos + k.len), BlockOf(g, v);
    ChunkFacts(g, v, end, pos);
    ChunksCons(g, v, end, pos);
    FirstChunk(d, st, env.capacity, k, rest, buf);
    Sized(d, st, env.capacity);
    TornSectorShows(d, st, env, n, v, end, pos, src, b, w);
    UnloggedPiece(d, st, env, n, v, end, pos, src);
    var ops, more := WritePiece(d, st, env.capacity, k, src).ops, WriteChunks(d, st, env.capacity, [k] + rest, buf).ops;
    c, x := Torn(3, PublishedSector(d, st, DataBatIndex(b, g.ratio), 0)), At(g, b, 0);
    assert more == ops + more[6..];
    TearSooner(d, st, ops, more[6..], c);
    FinishedFirst(d, st, env.capacity, k, rest, buf, 3);
    AppliedNone(Disk(d, g, st.bat), g, v, end, pos, buf);
  }

  /** If none does, no operation of the write is to the BAT. */
  lemma {:induction false} NothingTears(d: Buf, st: ReaderState, env: Setting, n: nat,
                                        v: nat, end: nat, pos: nat, buf: Buf, c: Crash)
    requires st.geometry.blockSize > 0 && st.geometry.ratio > 0
    requires v <= end <= st.geometry.virtualSize && pos + (end - v) <= |buf|
    requires ReaderOk(d, st, env.capacity) && ChunksWithin(Chunks(st.geometry, v, end, pos), |buf|)
    requires !Allocates(st, env.capacity, Chunks(st.geometry, v, end, pos))
    requires WellFormed(d, st, env, n)
    ensures !TableTear(st, WriteChunks(d, st, env.capacity, Chunks(st.geometry, v, end, pos), buf).ops, c)
    decreases end - v
  {
    hide WellFormed, ReaderOk, Disk, RunOps, WritePiece, PieceFits, Splice, ChunkAt, WriteChunks, Chunks, ChunksWithin,
      Allocates, Expected, NewSize, BatEnd, BlockOf, InBlock, InDisk, DataBatIndex;
    var g, cs := st.geometry, Chunks(st.geometry, v, end, pos);
    if v == end {
      NoChunks(d, st, env.capacity, v, pos, buf);
    } else {
      var k := ChunkAt(g, v, end, pos);
      var rest := Chunks(g, v + k.len, end, pos + k.len);
      ChunkFacts(g, v, end, pos);
      TableOfWellFormed(d, st, env, n, BlockOf(g, v));
      ChunksCons(g, v, end, pos);
      AllocatesCons(st, env.capacity, k, rest);
      if st.bat[k.batIndex].state.FullyPresent? {
        var d1, a := PastPresent(d, st, env, n, v, end, pos, buf);
        FirstChunk(d, st, env.capacity, k, rest, buf);
        PresentIsFree(d, st, env, n, v, end, pos);
        if c.Torn? && c.k > 0 {
          NothingTears(d1, st, env, n, v + k.len, end, pos + k.len, buf, Shifted(c, 1));
        }
      } else {
        FirstChunk(d, st, env.capacity, k, rest, buf);
        RefusedPiece(d, st, env.capacity, k, buf[pos..pos + k.len]);
      }
    }
  }

  // ---- A whole write ----

  predicate AllocatesIn(st: ReaderState, capacity: nat, offset: u64, buf: Buf)
    requires st.geometry.blockSize > 0 && st.geometry.ratio > 0
  {
    st.writable && buf != [] && offset + |buf| <= st.geometry.virtualSize
    && Allocates(st, capacity, Chunks(st.geometry, offset, offset + |buf|, 0))
  }

  /** Whatever a tear of the BAT during the write leaves there, reopening exposes the old
      disk with exactly the finished pieces. */
  ghost predicate TearsTolerated(d: Buf, st: ReaderState, env: Setting, n: nat, offset: u64, buf: Buf, w: bool)
    requires st.geometry.blockSize > 0 && st.geometry.ratio > 0 && ReaderOk(d, st, env.capacity)
  {
    var ops := WriteRun(d, st, env.capacity, offset, buf).ops;
    forall c :: TableTear(st, ops, c) ==>
      WriteOutcome(CrashState(d, ops, c), env, w, n, Disk(d, st.geometry, st.bat), st.geometry, offset, buf, None,
                   FinishedOf(d, st, env.capacity, offset, buf, c.k))
  }

  lemma LoggedTear(d: Buf, st: ReaderState, ops: seq<DevOp>, c: Crash)
    requires TableTear(st, ops, c) && st.header.logLength > 0
    ensures TornDetected(d, st, ops, c) && TornPayload(st, ops, c) == None
  {
    hide RunOps, Detected, BatEnd;
  }

  /** Every tear of the BAT is tolerated exactly when there is a log, or no piece of the
      write allocates. */
  lemma TearsToleratedExactly(d: Buf, st: ReaderState, env: Setting, n: nat, offset: u64, buf: Buf, w: bool)
    requires st.geometry.blockSize > 0 && st.geometry.ratio > 0 && ReaderOk(d, st, env.capacity)
    requires WellFormed(d, st, env, n + 2 + Pieces(st.geometry, offset, |buf|))
    ensures TearsTolerated(d, st, env, n, offset, buf, w)
      <==> st.header.logLength > 0 || !AllocatesIn(st, env.capacity, offset, buf)
  {
    hide WellFormed, ReaderOk, Disk, WriteRun, CrashState, TableTear, WriteOutcome, FinishedOf, TornDetected,
      TornPayload, Pieces;
    var ops := WriteRun(d, st, env.capacity, offset, buf).ops;
    if st.header.logLength > 0 {
      forall c | TableTear(st, ops, c)
        ensures CrashOf(ops, c)
        ensures WriteOutcome(CrashState(d, ops, c), env, w, n, Disk(d, st.geometry, st.bat), st.geometry, offset,
          buf, None,
                             FinishedOf(d, st, env.capacity, offset, buf, c.k))
      {
        TearIsCrash(st, ops, c);
        LoggedTear(d, st, ops, c);
        WriteIsAtomic(d, st, env, n, offset, buf, c, w);
      }
    } else if AllocatesIn(st, env.capacity, offset, buf) {
      var c := WriteTears(d, st, env, n, offset, buf, w);
    } else {
      forall c
        ensures !TableTear(st, ops, c)
      {
        WriteKeepsOffTable(d, st, env, n, offset, buf, c);
      }
    }
  }

  lemma TearIsCrash(st: ReaderState, ops: seq<DevOp>, c: Crash)
    requires TableTear(st, ops, c)
    ensures CrashOf(ops, c)
  {
  }

  lemma WriteTears(d: Buf, st: ReaderState, env: Setting, n: nat, offset: u64, buf: Buf, w: bool) returns (c: Crash)
    requires st.geometry.blockSize > 0 && st.geometry.ratio > 0 && ReaderOk(d, st, env.capacity)
      && st.header.logLength == 0
    requires AllocatesIn(st, env.capacity, offset, buf)
    requires WellFormed(d, st, env, n + 2 + Pieces(st.geometry, offset, |buf|))
    ensures var ops := WriteRun(d, st, env.capacity, offset, buf).ops;
      TableTear(st, ops, c)
      && !WriteOutcome(CrashState(d, ops, c), env, w, n, Disk(d, st.geometry, st.bat), st.geometry, offset, buf, None,
                       FinishedOf(d, st, env.capacity, offset, buf, c.k))
  {
    hide WellFormed, ReaderOk, Disk, WriteRun, CrashState, TableTear, Pieces, Chunks, WriteChunks, ChunksWithin,
      Allocates, ShowsStart, Recovers, Applied, Finished, RunOps;
    var g, end := st.geometry, offset + |buf|;
    WriteRunIs(d, st, env.capacity, offset, buf);
    var x;
    c, x := ChunksTear(d, st, env, n + 2 + Pieces(st.geometry, offset, |buf|), offset, end, 0, buf, w);
    var ops, run := WriteChunks(d, st, env.capacity, Chunks(g, offset, end, 0), buf).ops,
      WriteRun(d, st, env.capacity, offset, buf).ops;
    assert ops + [] == ops;
    TearSooner(d, st, ops, [], c);
    TearSooner(d, st, ops, [Flush], c);
    TearIsCrash(st, run, c);
    ShownIsNotRecovered(CrashState(d, run, c), env, w, n, Expected(d, st, env.capacity, offset, end, 0, buf, c.k), x);
  }

  lemma WriteKeepsOffTable(d: Buf, st: ReaderState, env: Setting, n: nat, offset: u64, buf: Buf, c: Crash)
    requires st.geometry.blockSize > 0 && st.geometry.ratio > 0 && ReaderOk(d, st, env.capacity)
    requires !AllocatesIn(st, env.capacity, offset, buf)
    requires WellFormed(d, st, env, n + 2 + Pieces(st.geometry, offset, |buf|))
    ensures !TableTear(st, WriteRun(d, st, env.capacity, offset, buf).ops, c)
  {
    hide WellFormed, ReaderOk, WriteRun, Pieces, Chunks, WriteChunks, ChunksWithin, Allocates, RunOps, BatEnd;
    if st.writable && buf != [] && offset + |buf| <= st.geometry.virtualSize {
      WriteRunIs(d, st, env.capacity, offset, buf);
      NothingTears(d, st, env, n + 2 + Pieces(st.geometry, offset, |buf|), offset, offset + |buf|, 0, buf, c);
    } else {
      WriteNothing(d, st, env.capacity, offset, buf);
    }
  }

  // ---- Tears that keep each entry whole ----

  /** Each aligned eight bytes are the old ones or the new ones. */
  ghost predicate WholeFields(before: Sector, after: Sector, x: Sector) {
    forall k :: 0 <= k < 512 ==>
      x[8 * k..8 * k + 8] == before[8 * k..8 * k + 8] || x[8 * k..8 * k + 8] == after[8 * k..8 * k + 8]
  }

  lemma FieldOf(i: nat)
    requires i < SECTOR
    ensures 8 * (i / 8) <= i < 8 * (i / 8) + 8 && i / 8 < 512
  {
  }

  /** Published and old sector differ in one entry, so a tear that keeps each entry whole
      left one of them. */
  lemma WholeFieldsTear(before: Sector, entry: Buf, j: nat, x: Sector)
    requires |entry| == 8 && j < 512 && WholeFields(before, Splice(before, 8 * j, entry), x)
    ensures x == before || x == Splice(before, 8 * j, entry)
  {
    hide Splice;
    var after := Splice(before, 8 * j, entry);
    var y := if x[8 * j..8 * j + 8] == before[8 * j..8 * j + 8] then before else after;
    assert x[8 * j..8 * j + 8] == y[8 * j..8 * j + 8];
    forall i | 0 <= i < SECTOR
      ensures x[i] == y[i]
    {
      FieldOf(i);
      var k := i / 8;
      if k == j {
        assert x[i] == x[8 * j..8 * j + 8][i - 8 * j] && y[i] == y[8 * j..8 * j + 8][i - 8 * j];
      } else {
        SpliceAt(before, 8 * j, entry, i);
        assert x[i] == x[8 * k..8 * k + 8][i - 8 * k];
        SpliceOutside(before, 8 * j, entry, 8 * k, 8 * k + 8);
        assert before[i] == before[8 * k..8 * k + 8][i - 8 * k];
      }
    }
  }

  /** So without a log such a tear is harmless. */
  lemma WholeEntriesRecover(d: Buf, st: ReaderState, env: Setting, n: nat, b: nat, p: Plan, inBlock: nat, src: Buf,
                            x: Sector, w: bool)
    requires BareSetting(d, st, env, n, b, p, inBlock, src)
    requires p.off + SECTOR <= |d| && WholeFields(d[p.off..p.off + SECTOR], p.sector, x)
    ensures var ops := BareOps(st, p, inBlock, src);
      TableTear(st, ops, Torn(3, x))
      && Recovers(CrashState(d, ops, Torn(3, x)), env, w, n, Disk(d, st.geometry, st.bat))
  {
    hide WellFormed, Allocating, Recovers, Disk, Splice, DataBatIndex, InDisk, At, RunOps, Detected, BareBounds,
      Zeros, BatEnd, BareStage, CrashState, WholeFields, InSector, Le, PresentAt;
    var ops, c, v := BareOps(st, p, inBlock, src), Torn(3, x), At(st.geometry, b, inBlock);
    BareSize(d, st, p);
    BareWide(d, st, p);
    AllocatingPlan(d, st, env, n + 1, b, p);
    AllocatingAligned(d, st, env, n + 1, b, p);
    var at, wide := st.batOffset + DataBatIndex(b, st.geometry.ratio) * ENTRY_BYTES - p.off, Wide(d, p);
    assert wide[p.off..p.off + SECTOR] == d[p.off..p.off + SECTOR];
    WholeFieldsTear(d[p.off..p.off + SECTOR], Le(PresentAt(p.at), 8), at / 8, x);
    BareRun(d, st, p, inBlock, src, 3);
    ThirdStage(d, st, p, inBlock, src);
    BarePieceCrash(d, st, env, n, b, p, inBlock, src, c, w);
  }

  lemma AllocatingAligned(d: Buf, st: ReaderState, env: Setting, n: nat, b: nat, p: Plan)
    requires Allocating(d, st, env, n, b, p)
    ensures (st.batOffset + DataBatIndex(b, st.geometry.ratio) * ENTRY_BYTES - p.off) % 8 == 0
  {
    hide WellFormed, Anchored, PickHeader, LogClear, Layout, ControlLayout, BlocksApart, ReaderOk, BatOf,
      LogRegionValid, BlocksClear, InDisk, NewSize, BatEnd, DataBatIndex, Present, InSector;
    AllocatingIs(d, st, env, n, b, p);
    WellFormedParts(d, st, env, n);
    LayoutParts(st, env.m, |d|);
    PlanIsInSector(d, st, env.capacity, DataBatIndex(b, st.geometry.ratio));
    hide PlanFor;
    EightApart(st, DataBatIndex(b, st.geometry.ratio));
  }

  lemma EightApart(st: ReaderState, index: nat)
    requires st.batOffset % SECTOR == 0
    ensures (st.batOffset + index * ENTRY_BYTES - SectorOf(st, index)) % 8 == 0
  {
    var y := 512 * (st.batOffset / SECTOR) + index;
    assert st.batOffset + index * ENTRY_BYTES == 8 * y;
    DivModUnique(8 * y, SECTOR, y / 512, 8 * (y % 512));
    DivModUnique(8 * (y % 512), 8, y % 512, 0);
  }

  // ---- An input ----

  lemma OneChunk()
    ensures Chunks(FreshGeometry(), 0, 1, 0) == [BlockChunk(0, 0, 0, 1)]
  {
    hide Chunks, ChunkAt;
    ByteIsChunk();
    ChunksCons(FreshGeometry(), 0, 1, 0);
    NoChunksAtEnd(FreshGeometry(), 1, 1);
  }

  lemma NoChunksAtEnd(g: Geometry, v: nat, pos: nat)
    requires g.blockSize > 0 && g.ratio > 0
    ensures Chunks(g, v, v, pos) == []
  {
  }

  lemma ByteIsChunk()
    ensures ChunkAt(FreshGeometry(), 0, 1, 0) == BlockChunk(0, 0, 0, 1)
  {
    assert DataBatIndex(0, 4096) == 0;
  }

  /** One byte written to the fresh image without a log. */
  lemma FreshTears(capacity: nat, n: nat, x: byte, w: bool)
    requires 10 * ONE_MIB <= capacity < 0x8000_0000_0000_0000 && n < TWO64 - 5
    ensures var d, st := FreshBytes(false), FreshState(false);
      ReaderOk(d, st, capacity) && !TearsTolerated(d, st, FreshSetting(capacity), n, 0, [x], w)
  {
    hide FreshBytes, ReaderOk, WellFormed, CrateDecoders, TearsTolerated, Chunks, Anchored, Layout;
    var d, st, m := FreshBytes(false), FreshState(false), n + 2 + Pieces(FreshGeometry(), 0, 1);
    OneChunk();
    FreshIsWellFormed(false, capacity, m);
    OkOfWellFormed(d, st, FreshSetting(capacity), m);
    AllocatesCons(st, capacity, BlockChunk(0, 0, 0, 1), []);
    AlignedFixed(SIZE, ONE_MIB);
    hide AlignUp;
    assert [BlockChunk(0, 0, 0, 1)] + [] == [BlockChunk(0, 0, 0, 1)];
    TearsToleratedExactly(d, st, FreshSetting(capacity), n, 0, [x], w);
  }
}
