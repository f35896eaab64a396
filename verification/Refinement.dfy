/** On a well-formed image, reading and writing are those of one flat array. */
module Refinement {
  import opened Bytes
  import opened LogFormat
  import opened LogReplay
  import opened Devices
  import opened Headers
  import opened Bat
  import opened Open
  import opened Reader
  import opened Image
  import opened Recovery
  import opened CrashSafety
  import opened Atomicity

  /** A piece of a transfer lies in one block of the disk. */
  lemma ChunkFacts(g: Geometry, v: nat, end: nat, pos: nat)
    requires g.blockSize > 0 && g.ratio > 0 && v < end <= g.virtualSize
    ensures var c, b := ChunkAt(g, v, end, pos), BlockOf(g, v);
      c.inBlock == InBlock(g, v) && c.batIndex == DataBatIndex(b, g.ratio) && InDisk(g, b)
      && At(g, b, c.inBlock) == v && c.inBlock + c.len <= g.blockSize && v + c.len <= end && c.bufPos == pos
         && c.len > 0
  {
    ByteInDisk(g, v);
  }

  // ---- Reading ----

  lemma DiskSlice(d: Buf, g: Geometry, bat: seq<BatEntry>, b: nat, i: nat, len: nat, x: nat)
    requires g.blockSize > 0 && g.ratio > 0 && i + len <= g.blockSize && At(g, b, i) + len <= g.virtualSize && x < len
    ensures Disk(d, g, bat)[At(g, b, i) + x] == EntryByte(d, g, bat, b, i + x)
  {
    hide EntryByte;
    PieceBytes(g, b, i, len, At(g, b, i) + x);
  }

  lemma ReadPieceRefines(d: Buf, st: ReaderState, env: Setting, n: nat, v: nat, end: nat, pos: nat)
    requires st.geometry.blockSize > 0 && st.geometry.ratio > 0 && v < end <= st.geometry.virtualSize
      && |d| == st.devSize
    requires WellFormed(d, st, env, n)
    ensures var c := ChunkAt(st.geometry, v, end, pos);
      var r := ReadChunk(d, st, c);
      c.batIndex < |st.bat|
      && (r.Ok? <==> st.bat[c.batIndex].state.Readable()) && (r.Err? ==> r.error == Unsupported)
      && (r.Ok? ==> r.value == Disk(d, st.geometry, st.bat)[v..v + c.len])
  {
    hide WellFormed, Disk, InDisk, At, BlockOf, InBlock, DataBatIndex;
    var g := st.geometry;
    var c, b := ChunkAt(g, v, end, pos), BlockOf(g, v);
    ChunkFacts(g, v, end, pos);
    hide ChunkAt;
    TableOfWellFormed(d, st, env, n, b);
    var e := st.bat[c.batIndex];
    if e.state.FullyPresent? {
      PresentBlock(d, st, env, n, b);
    }
    var r := ReadChunk(d, st, c);
    if r.Ok? {
      forall x | 0 <= x < c.len
        ensures r.value[x] == Disk(d, g, st.bat)[v + x]
      {
        DiskSlice(d, g, st.bat, b, c.inBlock, c.len, x);
      }
    }
  }

  lemma TableOfWellFormed(d: Buf, st: ReaderState, env: Setting, n: nat, b: nat)
    requires st.geometry.blockSize > 0 && st.geometry.ratio > 0 && InDisk(st.geometry, b)
    requires WellFormed(d, st, env, n)
    ensures DataBatIndex(b, st.geometry.ratio) < |st.bat| && ReaderOk(d, st, env.capacity)
  {
    hide PickHeader, Layout, Pending, Landed, LogClear, RoomFor, BatOf, Anchored, InDisk, DataBatIndex;
    BlockHasEntry(d, st, env, b);
  }

  /** Every block the range touches can be read. */
  ghost predicate AllReadable(st: ReaderState, cs: seq<BlockChunk>) {
    forall i :: 0 <= i < |cs| ==> cs[i].batIndex < |st.bat| && st.bat[cs[i].batIndex].state.Readable()
  }

  lemma {:induction false} ReadChunksRefine(d: Buf, st: ReaderState, env: Setting, n: nat,
                                            v: nat, end: nat, pos: nat)
    requires st.geometry.blockSize > 0 && st.geometry.ratio > 0 && v <= end <= st.geometry.virtualSize
      && |d| == st.devSize
    requires WellFormed(d, st, env, n)
    ensures var cs := Chunks(st.geometry, v, end, pos);
      var r := ReadChunks(d, st, cs);
      (r.Ok? <==> AllReadable(st, cs)) && (r.Err? ==> r.error == Unsupported)
      && (r.Ok? ==> r.value == Disk(d, st.geometry, st.bat)[v..end])
    decreases end - v
  {
    hide WellFormed, Disk, ReadChunk, ChunkAt, AllReadable;
    AllReadableNone(st);
    if v < end {
      var g := st.geometry;
      var c := ChunkAt(g, v, end, pos);
      ReadPieceRefines(d, st, env, n, v, end, pos);
      ReadChunksRefine(d, st, env, n, v + c.len, end, pos + c.len);
      var cs, rest := Chunks(g, v, end, pos), Chunks(g, v + c.len, end, pos + c.len);
      assert cs == [c] + rest && cs[1..] == rest;
      AllReadableCons(st, c, rest);
      var disk := Disk(d, g, st.bat);
      assert disk[v..end] == disk[v..v + c.len] + disk[v + c.len..end];
    }
  }

  lemma AllReadableNone(st: ReaderState)
    ensures AllReadable(st, [])
  {
  }

  lemma AllReadableCons(st: ReaderState, c: BlockChunk, rest: seq<BlockChunk>)
    ensures AllReadable(st, [c] + rest)
      <==> (c.batIndex < |st.bat| && st.bat[c.batIndex].state.Readable()) && AllReadable(st, rest)
  {
    var cs := [c] + rest;
    if AllReadable(st, cs) {
      assert cs[0] == c && forall i :: 0 <= i < |rest| ==> rest[i] == cs[i + 1];
    }
  }

  /** A read inside the disk succeeds exactly when every block it touches is readable,
      and returns the flat array's bytes. */
  lemma ReadRefines(d: Buf, st: ReaderState, env: Setting, n: nat, offset: u64, len: nat)
    requires |d| == st.devSize && LegalGeometry(st.geometry)
    requires WellFormed(d, st, env, n)
    ensures var r, g := ReadRun(d, st, offset, len), st.geometry;
      (len == 0 ==> r == Ok([]))
      && (len > 0 && offset + len > g.virtualSize ==> r.Err?)
      && (len > 0 && offset + len <= g.virtualSize ==>
            (r.Ok? <==> AllReadable(st, Chunks(g, offset, offset + len, 0)))
            && (r.Ok? ==> r.value == Disk(d, g, st.bat)[offset..offset + len]))
  {
    hide WellFormed, Disk, Chunks, AllReadable, ReadChunks;
    LegalMeansPositive(st.geometry);
    if len > 0 && offset + len <= st.geometry.virtualSize {
      ReadChunksRefine(d, st, env, n, offset, offset + len, 0);
    }
  }

  // ---- Writing one piece ----

  /** The header after `k` rotations. */
  function NthHeader(h: Header, k: nat): Header {
    if k == 0 then h else JournalledHeader(NthHeader(h, k - 1))
  }

  /** The header rotated once for every step of its sequence number, each time to the other
      slot. */
  predicate HeaderMoved(st: ReaderState, t: ReaderState) {
    var steps := t.header.sequence - st.header.sequence;
    steps >= 0 && t.header == NthHeader(st.header, steps)
    && t.slot == if steps % 2 == 0 then st.slot else st.slot.Other()
  }

  lemma {:induction false} NthAdds(h: Header, a: nat, b: nat)
    ensures NthHeader(NthHeader(h, a), b) == NthHeader(h, a + b)
    decreases b
  {
    hide JournalledHeader;
    if b > 0 {
      NthAdds(h, a, b - 1);
    }
  }

  lemma MovedNothing(s: ReaderState)
    ensures HeaderMoved(s, s)
  {
  }

  lemma MovedTwice(s: ReaderState, t: ReaderState, u: ReaderState)
    requires HeaderMoved(s, t) && HeaderMoved(t, u)
    ensures HeaderMoved(s, u)
  {
    hide NthHeader;
    NthAdds(s.header, t.header.sequence - s.header.sequence, u.header.sequence - t.header.sequence);
  }

  lemma MovedOnce(s: ReaderState, t: ReaderState)
    requires t.header == JournalledHeader(s.header) && t.slot == s.slot.Other()
    requires t.header.sequence == s.header.sequence + 1
    ensures HeaderMoved(s, t)
  {
    hide JournalledHeader;
    assert NthHeader(s.header, 0) == s.header && NthHeader(s.header, 1) == JournalledHeader(NthHeader(s.header, 0));
  }

  /** The image `e`, `t` is `d`, `st` with `src` at `v` of its disk. */
  ghost predicate PieceDone(d: Buf, st: ReaderState, e: Buf, t: ReaderState, env: Setting, n: nat,
                            v: nat, src: Buf)
    requires st.geometry.blockSize > 0 && st.geometry.ratio > 0 && v + |src| <= st.geometry.virtualSize
  {
    SamePlaces(st, t) && t.writable == st.writable && HeaderMoved(st, t)
    && Disk(e, t.geometry, t.bat) == Splice(Disk(d, st.geometry, st.bat), v, src)
    && WellFormed(e, t, env, n)
  }

  lemma FewerWellFormed(d: Buf, st: ReaderState, env: Setting, n: nat, k: nat)
    requires WellFormed(d, st, env, n) && k <= n
    ensures WellFormed(d, st, env, k)
  {
    hide ReaderOk, Anchored, BatOf, PickHeader, LogClear, Layout, Pending, Landed, RoomFor;
    WellFormedParts(d, st, env, n);
    if st.header.logLength > 0 {
      RoomForFewer(LogRegion(d, st.header), st.header, n, k);
    }
  }

  lemma PresentPiece(d: Buf, st: ReaderState, env: Setting, n: nat, v: nat, end: nat, pos: nat, src: Buf)
    requires st.geometry.blockSize > 0 && st.geometry.ratio > 0 && v < end <= st.geometry.virtualSize
      && |d| == st.devSize
    requires var c := ChunkAt(st.geometry, v, end, pos);
      |src| == c.len && c.batIndex < |st.bat| && st.bat[c.batIndex].state.FullyPresent?
    requires WellFormed(d, st, env, n) && ReaderOk(d, st, env.capacity)
    ensures var c := ChunkAt(st.geometry, v, end, pos);
      var w, host := WritePiece(d, st, env.capacity, c, src), st.bat[c.batIndex].fileOffset + c.inBlock;
      w == Step([Write(host, src)], st, Ok(())) && v + c.len <= end && host + c.len <= |d|
      && forall x: Buf :: |x| == |src| ==> PieceDone(d, st, Splice(d, host, x), st, env, n, v, x)
  {
    hide WellFormed, Disk, InDisk, At, BlockOf, InBlock, DataBatIndex, Splice, ReaderOk;
    var g := st.geometry;
    var c, b := ChunkAt(g, v, end, pos), BlockOf(g, v);
    ChunkFacts(g, v, end, pos);
    hide ChunkAt;
    PresentBlock(d, st, env, n, b);
    forall x: Buf | |x| == |src|
      ensures PieceDone(d, st, Splice(d, st.bat[c.batIndex].fileOffset + c.inBlock, x), st, env, n, v, x)
    {
      PresentKeeps(d, st, env, n, b, c.inBlock, x);
    }
  }

  /** Without a log there is no entry and no new header: only the table changes. */
  lemma UnloggedNear(d: Buf, st: ReaderState, p: Plan, m: Region)
    requires ONE_MIB <= st.batOffset <= p.off && p.off + SECTOR <= BatEnd(st) <= |d| <= p.at && p.at % ONE_MIB == 0
      && p.at <= p.size
    ensures var e := Splice(Wide(d, p), p.off, p.sector);
      Near(d, Wide(d, p), st) && Near(d, e, st) && |e| == p.size && PickHeader(e) == PickHeader(d)
  {
    hide Near, BatEnd, Splice, PickHeader, Zeros;
    var wide := Wide(d, p);
    NearWide(d, Zeros(p.size - |d|), st);
    NearSplice(d, wide, st, p.off, p.sector);
    PrefixSlice(d, Zeros(p.size - |d|), 0x1_0000, 0x1_1000);
    PrefixSlice(d, Zeros(p.size - |d|), 0x2_0000, 0x2_1000);
    PickHeaderFrame(wide, d);
    HeaderBelowBat(wide, st, p.off, p.sector);
  }

  /** The image an allocation makes when nothing is journalled. */
  function Unlogged(st: ReaderState, p: Plan, b: nat): ReaderState
    requires st.geometry.ratio > 0 && DataBatIndex(b, st.geometry.ratio) < |st.bat|
  {
    st.(devSize := p.size, bat := WithBlock(st.geometry, st.bat, b, p.at))
  }

  lemma UnloggedKeeps(d: Buf, st: ReaderState, p: Plan, env: Setting, n: nat, b: nat)
    requires st.geometry.blockSize > 0 && st.geometry.ratio > 0 && st.header.logLength == 0
    requires DataBatIndex(b, st.geometry.ratio) < |st.bat| && p.size >= |d| && p.off + SECTOR <= p.size
    requires Allocating(d, st, env, n, b, p)
    ensures WellFormed(Splice(Wide(d, p), p.off, p.sector), Unlogged(st, p, b), env, n)
  {
    hide WellFormed, Anchored, PickHeader, LogClear, Layout, ControlLayout, BlocksApart, ReaderOk, BatOf,
      LogRegionValid, Splice, Near, BlocksClear, InDisk, PlanFor, NewSize, PresentAt, Le, BatEnd, Zeros, DataBatIndex,
      Allocating;
    AllocatingIs(d, st, env, n, b, p);
    WellFormedParts(d, st, env, n);
    LayoutParts(st, env.m, |d|);
    AllocatingPlan(d, st, env, n, b, p);
    var e, t := Splice(Wide(d, p), p.off, p.sector), Unlogged(st, p, b);
    UnloggedNear(d, st, p, env.m);
    NearAnchored(d, e, st, env);
    AnchoredSame(e, st, t, env);
    ReaderOkMoves(d, st, e, t, env.capacity);
    LayoutWithBlock(st, env.m, |d|, b, p.at, t);
    assert Wide(d, p)[..|d|] == d;
    NearTable(d, Wide(d, p));
    BatPublished(d, Wide(d, p), Wide(d, p), st, p.off, DataBatIndex(b, st.geometry.ratio), p.at, p.sector);
    BatOfSame(e, st, t);
    MakesWellFormed(e, t, env, n);
  }

  lemma NearTable(d: Buf, wide: Buf)
    requires |d| <= |wide| && wide[..|d|] == d
    ensures forall i :: 0 <= i < |d| ==> wide[i] == d[i]
  {
    assert forall i :: 0 <= i < |d| ==> wide[..|d|][i] == wide[i];
  }

  lemma AllocatingIs(d: Buf, st: ReaderState, env: Setting, n: nat, b: nat, p: Plan)
    requires Allocating(d, st, env, n, b, p)
    ensures WellFormed(d, st, env, n) && InDisk(st.geometry, b) && !Present(st.geometry, st.bat, b)
  {
    hide WellFormed, InDisk, DataBatIndex, PlanFor, NewSize;
  }

  lemma UnloggedOps(d: Buf, st: ReaderState, capacity: nat, c: BlockChunk, src: Buf)
    requires ReaderOk(d, st, capacity) && c.batIndex < |st.bat| && st.bat[c.batIndex].state.ZeroFill()
    requires NewSize(st) <= capacity && c.inBlock + |src| <= st.geometry.blockSize && st.header.logLength == 0
    requires InSector(st.batOffset, c.batIndex)
    ensures var p, w := PlanFor(d, st, capacity, c.batIndex), WritePiece(d, st, capacity, c, src);
      |d| <= p.at && p.size == p.at + st.geometry.blockSize && p.off + SECTOR <= p.size
      && w.result.Ok? && w.ops == PlanOps(st, p) + [Write(p.at + c.inBlock, src)]
      && w.st == st.(devSize := p.size, bat := st.bat[c.batIndex := BatEntry(FullyPresent, p.at)])
  {
    hide AlignUp, PublishedSector, LegalGeometry, LogRegionValid, FromU64, PresentAt, PlanOps, JournalEntry;
    PlanFacts(d, st, capacity, c.batIndex);
    PresentRoundTrip(PlanFor(d, st, capacity, c.batIndex).at);
  }

  lemma UnloggedRun(d: Buf, st: ReaderState, p: Plan, inBlock: nat, src: Buf)
    requires |d| == st.devSize <= p.at && p.size == p.at + st.geometry.blockSize && p.off + SECTOR <= p.at
    requires LogRegionValid(p.size, st.header) && st.header.logLength == 0 && inBlock + |src| <= st.geometry.blockSize
    ensures RunOps(d, PlanOps(st, p) + [Write(p.at + inBlock, src)])
      == Splice(Splice(Wide(d, p), p.off, p.sector), p.at + inBlock, src)
  {
    hide RunOps, Splice, PlanOps, Zeros, LogRegionValid;
    PlanRuns(d, st, p);
    RunConcat(d, PlanOps(st, p), [Write(p.at + inBlock, src)]);
    RunOne(RunOps(d, PlanOps(st, p)), Write(p.at + inBlock, src));
  }

  lemma UnloggedPayload(d: Buf, st: ReaderState, p: Plan, inBlock: nat, x: Buf, env: Setting,
                        n: nat, b: nat)
    requires st.geometry.blockSize > 0 && st.geometry.ratio > 0 && st.header.logLength == 0
    requires DataBatIndex(b, st.geometry.ratio) < |st.bat| && |d| <= p.at && p.size == p.at + st.geometry.blockSize
    requires p.off + SECTOR <= p.at && inBlock + |x| <= st.geometry.blockSize
    requires At(st.geometry, b, inBlock) + |x| <= st.geometry.virtualSize && InDisk(st.geometry, b)
    requires Allocating(d, st, env, n, b, p)
    ensures var e, t := Splice(Splice(Wide(d, p), p.off, p.sector), p.at + inBlock, x), Unlogged(st, p, b);
      WellFormed(e, t, env, n)
      && Disk(e, st.geometry, t.bat) == Splice(Disk(d, st.geometry, st.bat), At(st.geometry, b, inBlock), x)
  {
    hide WellFormed, Allocating, Disk, Splice, DataBatIndex, WithBlock, BatEnd, InDisk, At, PickHeader, Near;
    var f, t := Splice(Wide(d, p), p.off, p.sector), Unlogged(st, p, b);
    UnloggedKeeps(d, st, p, env, n, b);
    UnloggedZeros(d, st, p);
    hide Zeros;
    AllocatingIs(d, st, env, n, b, p);
    UnloggedIsNear(d, st, p, env, n, b);
    NewDiskIsOld(d, f, st, env, n, b, p);
    WithBlockEntries(st.geometry, st.bat, b, p.at, b);
    PresentKeeps(f, t, env, n, b, inBlock, x);
  }

  lemma UnloggedZeros(d: Buf, st: ReaderState, p: Plan)
    requires |d| <= p.at && p.size == p.at + st.geometry.blockSize && p.off + SECTOR <= p.at
    ensures Splice(Wide(d, p), p.off, p.sector)[p.at..p.size] == Zeros(st.geometry.blockSize)
  {
    SpliceOutside(Wide(d, p), p.off, p.sector, p.at, p.size);
    assert Wide(d, p)[p.at..p.size] == Zeros(st.geometry.blockSize);
  }

  lemma UnloggedIsNear(d: Buf, st: ReaderState, p: Plan, env: Setting, n: nat, b: nat)
    requires p.size >= |d| && p.off + SECTOR <= p.size
    requires Allocating(d, st, env, n, b, p)
    ensures Near(d, Splice(Wide(d, p), p.off, p.sector), st)
  {
    hide WellFormed, Anchored, PickHeader, LogClear, Layout, ControlLayout, BlocksApart, ReaderOk, BatOf,
      LogRegionValid, Splice, Near, BlocksClear, InDisk, PlanFor, NewSize, PresentAt, Le, BatEnd, Zeros, DataBatIndex,
      Allocating;
    AllocatingIs(d, st, env, n, b, p);
    WellFormedParts(d, st, env, n);
    LayoutParts(st, env.m, |d|);
    AllocatingPlan(d, st, env, n, b, p);
    UnloggedNear(d, st, p, env.m);
  }

  lemma TableInSectors(d: Buf, st: ReaderState, env: Setting, n: nat, index: nat)
    requires WellFormed(d, st, env, n)
    ensures InSector(st.batOffset, index)
  {
    hide WellFormed, Anchored, PickHeader, LogClear, Layout, ControlLayout, BlocksApart, BlocksClear, ReaderOk,
      RoomFor, BatOf, LogRegionValid, Pending, Landed, BatEnd, InSector;
    WellFormedParts(d, st, env, n);
    LayoutParts(st, env.m, |d|);
    AlignedInSector(st.batOffset, index);
  }

  lemma AlignedInSector(start: nat, index: nat)
    requires start % SECTOR == 0
    ensures InSector(start, index)
  {
    var y := 512 * (start / SECTOR) + index;
    assert start + index * ENTRY_BYTES == 8 * y;
    DivModUnique(8 * y, SECTOR, y / 512, 8 * (y % 512));
  }

  /** What a piece that allocates starts from. */
  lemma PieceAllocates(d: Buf, st: ReaderState, env: Setting, n: nat, v: nat, end: nat, pos: nat)
    requires st.geometry.blockSize > 0 && st.geometry.ratio > 0 && v < end <= st.geometry.virtualSize
    requires var c := ChunkAt(st.geometry, v, end, pos);
      c.batIndex < |st.bat| && st.bat[c.batIndex].state.ZeroFill() && NewSize(st) <= env.capacity
        && ReaderOk(d, st, env.capacity)
    requires WellFormed(d, st, env, n)
    ensures var c, b := ChunkAt(st.geometry, v, end, pos), BlockOf(st.geometry, v);
      InSector(st.batOffset, c.batIndex)
      && Allocating(d, st, env, n, b, PlanFor(d, st, env.capacity, c.batIndex))
  {
    hide WellFormed, InDisk, DataBatIndex, PlanFor, NewSize, ReaderOk, InSector;
    TableInSectors(d, st, env, n, ChunkAt(st.geometry, v, end, pos).batIndex);
    ChunkFacts(st.geometry, v, end, pos);
  }

  lemma LoggedPiece(d: Buf, st: ReaderState, env: Setting, n: nat, v: nat, end: nat, pos: nat, src: Buf)
    requires st.geometry.blockSize > 0 && st.geometry.ratio > 0 && v < end <= st.geometry.virtualSize
      && st.header.logLength > 0
    requires var c := ChunkAt(st.geometry, v, end, pos);
      |src| == c.len && c.batIndex < |st.bat| && st.bat[c.batIndex].state.ZeroFill() && NewSize(st) <= env.capacity
    requires ReaderOk(d, st, env.capacity)
    requires WellFormed(d, st, env, n + 1)
    ensures var w := WritePiece(d, st, env.capacity, ChunkAt(st.geometry, v, end, pos), src);
      w.result.Ok? && v + |src| <= end && PieceDone(d, st, RunOps(d, w.ops), w.st, env, n, v, src)
  {
    hide WellFormed, InDisk, DataBatIndex, PlanFor, NewSize, ReaderOk, WritePiece, PieceOps, RunOps, Stage,
      StageBounds, Allocating, Disk, Splice, At, BlockOf, InBlock, Rotated, JournalledHeader, Published,
      LegalGeometry, BatEnd;
    var g, c, b := st.geometry, ChunkAt(st.geometry, v, end, pos), BlockOf(st.geometry, v);
    ChunkFacts(g, v, end, pos);
    PieceAllocates(d, st, env, n + 1, v, end, pos);
    var p := PlanFor(d, st, env.capacity, c.batIndex);
    hide ChunkAt;
    AllocatingBounds(d, st, env, n + 1, b, p);
    PieceOpsOfWrite(d, st, env.capacity, c, src);
    PayloadKeeps(d, st, p, c.inBlock, src, env, n, b);
    LastStage(d, st, p, c.inBlock, src);
    SequenceOfAllocating(d, st, env, n + 1, b, p);
    JournalledFields(st.header);
    MovedOnce(st, WritePiece(d, st, env.capacity, c, src).st);
    hide HeaderMoved;
  }

  lemma LastStage(d: Buf, st: ReaderState, p: Plan, inBlock: nat, src: Buf)
    requires StageBounds(d, st, p) && inBlock + |src| <= st.geometry.blockSize
    ensures RunOps(d, PieceOps(st, p, inBlock, src)) == Splice(Published(d, st, p), p.at + inBlock, src)
  {
    hide Splice, Published, StageBounds, RunOps, PieceOps;
    var ops := PieceOps(st, p, inBlock, src);
    StageRun(d, st, p, inBlock, src, 10);
    assert ops[..10] == ops;
  }

  lemma UnloggedPiece(d: Buf, st: ReaderState, env: Setting, n: nat, v: nat, end: nat, pos: nat, src: Buf)
    requires st.geometry.blockSize > 0 && st.geometry.ratio > 0 && v < end <= st.geometry.virtualSize
      && st.header.logLength == 0
    requires var c := ChunkAt(st.geometry, v, end, pos);
      |src| == c.len && c.batIndex < |st.bat| && st.bat[c.batIndex].state.ZeroFill() && NewSize(st) <= env.capacity
    requires ReaderOk(d, st, env.capacity)
    requires WellFormed(d, st, env, n)
    ensures var w := WritePiece(d, st, env.capacity, ChunkAt(st.geometry, v, end, pos), src);
      w.result.Ok? && v + |src| <= end && PieceDone(d, st, RunOps(d, w.ops), w.st, env, n, v, src)
  {
    hide WellFormed, InDisk, DataBatIndex, PlanFor, NewSize, ReaderOk, WritePiece, RunOps, Allocating, Disk, Splice,
      At, BlockOf, InBlock, BatEnd, Le, PresentAt, LogRegionValid, PlanOps;
    var g, c, b := st.geometry, ChunkAt(st.geometry, v, end, pos), BlockOf(st.geometry, v);
    ChunkFacts(g, v, end, pos);
    PieceAllocates(d, st, env, n, v, end, pos);
    var p := PlanFor(d, st, env.capacity, c.batIndex);
    hide ChunkAt;
    AllocatingPlan(d, st, env, n, b, p);
    UnloggedOps(d, st, env.capacity, c, src);
    UnloggedRun(d, st, p, c.inBlock, src);
    UnloggedPayload(d, st, p, c.inBlock, src, env, n, b);
  }

  /** A piece goes through when its block is present, or can be allocated. */
  predicate PieceFits(st: ReaderState, capacity: nat, c: BlockChunk)
    requires st.geometry.blockSize > 0
  {
    c.batIndex < |st.bat|
    && (st.bat[c.batIndex].state.FullyPresent? || (st.bat[c.batIndex].state.ZeroFill() && NewSize(st) <= capacity))
  }

  /** One piece of a write is a splice of the disk, or nothing at all. */
  lemma PieceRefines(d: Buf, st: ReaderState, env: Setting, n: nat, v: nat, end: nat, pos: nat, src: Buf)
    requires st.geometry.blockSize > 0 && st.geometry.ratio > 0 && v < end <= st.geometry.virtualSize
    requires |src| == ChunkAt(st.geometry, v, end, pos).len && ReaderOk(d, st, env.capacity)
    requires WellFormed(d, st, env, n + 1)
    ensures var c := ChunkAt(st.geometry, v, end, pos);
      var w := WritePiece(d, st, env.capacity, c, src);
      v + |src| <= end && (w.result.Ok? <==> PieceFits(st, env.capacity, c))
      && (w.result.Ok? ==> PieceDone(d, st, RunOps(d, w.ops), w.st, env, n, v, src))
      && (w.result.Err? ==> w.ops == [] && w.st == st)
  {
    hide WellFormed, ReaderOk, InDisk, DataBatIndex, NewSize, RunOps, Disk, Splice, PieceDone, BlockOf, At, InBlock;
    var g, c, b := st.geometry, ChunkAt(st.geometry, v, end, pos), BlockOf(st.geometry, v);
    ChunkFacts(g, v, end, pos);
    TableOfWellFormed(d, st, env, n + 1, b);
    Sized(d, st, env.capacity);
    hide ChunkAt;
    var e := st.bat[c.batIndex];
    if e.state.FullyPresent? {
      FewerWellFormed(d, st, env, n + 1, n);
      PresentPiece(d, st, env, n, v, end, pos, src);
      RunOne(d, Write(e.fileOffset + c.inBlock, src));
    } else if e.state.ZeroFill() && NewSize(st) <= env.capacity {
      if st.header.logLength > 0 {
        LoggedPiece(d, st, env, n, v, end, pos, src);
      } else {
        FewerWellFormed(d, st, env, n + 1, n);
        UnloggedPiece(d, st, env, n, v, end, pos, src);
      }
    } else {
      RefusedPiece(d, st, env.capacity, c, src);
    }
  }

  lemma RefusedPiece(d: Buf, st: ReaderState, capacity: nat, c: BlockChunk, src: Buf)
    requires ReaderOk(d, st, capacity) && c.batIndex < |st.bat| && st.geometry.blockSize > 0
      && !PieceFits(st, capacity, c)
    ensures var w := WritePiece(d, st, capacity, c, src);
      w.result.Err? && w.ops == [] && w.st == st
      && w.result.error == if st.bat[c.batIndex].state.ZeroFill() then Io else Unsupported
  {
    hide ReaderOk, NewSize, PlanFor;
  }

  // ---- Writing all the pieces ----

  /** Where the first `j` pieces of `v..end` end. */
  function Reach(g: Geometry, v: nat, end: nat, j: nat): (r: nat)
    requires g.blockSize > 0 && g.ratio > 0 && v <= end
    ensures v <= r <= end
    decreases j
  {
    if j == 0 || v == end then v else Reach(g, v + ChunkAt(g, v, end, 0).len, end, j - 1)
  }

  lemma SpliceTwice(d: Buf, v: nat, a: Buf, b: Buf)
    requires v + |a| + |b| <= |d|
    ensures Splice(Splice(d, v, a), v + |a|, b) == Splice(d, v, a + b)
  {
  }

  lemma SpliceEmpty(d: Buf, v: nat)
    requires v <= |d|
    ensures Splice(d, v, []) == d
  {
  }

  lemma DoneNothing(d: Buf, st: ReaderState, env: Setting, n: nat, more: nat, v: nat)
    requires st.geometry.blockSize > 0 && st.geometry.ratio > 0 && v <= st.geometry.virtualSize && n <= more
    requires WellFormed(d, st, env, more)
    ensures PieceDone(d, st, d, st, env, n, v, [])
  {
    hide WellFormed, Disk, Splice;
    FewerWellFormed(d, st, env, more, n);
    SpliceEmpty(Disk(d, st.geometry, st.bat), v);
  }

  lemma DoneTwice(d: Buf, st: ReaderState, d1: Buf, st1: ReaderState, e: Buf, t: ReaderState, env: Setting, n: nat,
                  k: nat, v: nat, a: Buf, b: Buf)
    requires st.geometry.blockSize > 0 && st.geometry.ratio > 0 && v + |a| + |b| <= st.geometry.virtualSize
    requires PieceDone(d, st, d1, st1, env, k, v, a) && PieceDone(d1, st1, e, t, env, n, v + |a|, b)
    ensures PieceDone(d, st, e, t, env, n, v, a + b)
  {
    hide WellFormed, Disk, Splice, HeaderMoved;
    SpliceTwice(Disk(d, st.geometry, st.bat), v, a, b);
    MovedTwice(st, st1, t);
  }

  /** The first `j` pieces of `buf[pos..]` at `v..end` are on the disk, and no more. */
  ghost predicate PiecesDone(d: Buf, st: ReaderState, e: Buf, t: ReaderState, env: Setting, n: nat,
                             v: nat, end: nat, pos: nat, buf: Buf, j: nat)
    requires st.geometry.blockSize > 0 && st.geometry.ratio > 0 && v <= end <= st.geometry.virtualSize
      && pos + (end - v) <= |buf|
  {
    PieceDone(d, st, e, t, env, n, v, buf[pos..pos + (Reach(st.geometry, v, end, j) - v)])
  }

  lemma ReachMore(g: Geometry, v: nat, end: nat, pos: nat, j: nat)
    requires g.blockSize > 0 && g.ratio > 0 && v < end
    ensures Reach(g, v, end, j + 1) == Reach(g, v + ChunkAt(g, v, end, pos).len, end, j)
  {
    hide DataBatIndex;
    assert ChunkAt(g, v, end, 0).len == ChunkAt(g, v, end, pos).len;
  }

  lemma PieceThenPieces(d: Buf, st: ReaderState, d1: Buf, st1: ReaderState, e: Buf, t: ReaderState, env: Setting,
                        n: nat, k: nat, v: nat, end: nat, pos: nat, buf: Buf, j: nat)
    requires st.geometry.blockSize > 0 && st.geometry.ratio > 0 && v < end <= st.geometry.virtualSize
      && pos + (end - v) <= |buf|
    requires st1.geometry == st.geometry
    requires var c := ChunkAt(st.geometry, v, end, pos);
      PieceDone(d, st, d1, st1, env, k, v, buf[pos..pos + c.len])
      && PiecesDone(d1, st1, e, t, env, n, v + c.len, end, pos + c.len, buf, j)
    ensures PiecesDone(d, st, e, t, env, n, v, end, pos, buf, j + 1)
  {
    hide PieceDone, ChunkAt, Reach;
    var len := ChunkAt(st.geometry, v, end, pos).len;
    var r := Reach(st.geometry, v + len, end, j);
    ReachMore(st.geometry, v, end, pos, j);
    assert buf[pos..pos + (r - v)] == buf[pos..pos + len] + buf[pos + len..pos + len + (r - (v + len))];
    DoneTwice(d, st, d1, st1, e, t, env, n, k, v, buf[pos..pos + len], buf[pos + len..pos + len + (r - (v + len))]);
  }

  /** The pieces of a write go on the disk in order, up to the first that does not
      fit. */
  lemma {:induction false} ChunksRefine(d: Buf, st: ReaderState, env: Setting, n: nat,
                                        v: nat, end: nat, pos: nat, buf: Buf) returns (j: nat)
    requires st.geometry.blockSize > 0 && st.geometry.ratio > 0 && v <= end <= st.geometry.virtualSize
      && pos + (end - v) <= |buf|
    requires ReaderOk(d, st, env.capacity) && ChunksWithin(Chunks(st.geometry, v, end, pos), |buf|)
    requires WellFormed(d, st, env, n + |Chunks(st.geometry, v, end, pos)|)
    ensures var cs := Chunks(st.geometry, v, end, pos);
      var w := WriteChunks(d, st, env.capacity, cs, buf);
      PiecesDone(d, st, RunOps(d, w.ops), w.st, env, n, v, end, pos, buf, j)
      && j <= |cs| && (w.result.Ok? <==> j == |cs|) && w.st.geometry == st.geometry
      && (j < |cs| ==> !PieceFits(w.st, env.capacity, cs[j]))
    decreases end - v
  {
    hide WellFormed, ReaderOk, RunOps, WritePiece, PieceDone, PieceFits, WriteChunks, Chunks, ChunkAt, Reach,
      ChunksWithin;
    var g, cs := st.geometry, Chunks(st.geometry, v, end, pos);
    RunNothing(d, []);
    if v == end {
      j := 0;
      NoChunks(d, st, env.capacity, v, pos, buf);
      DoneNothing(d, st, env, n, n, v);
    } else {
      var c := ChunkAt(g, v, end, pos);
      var rest, src := Chunks(g, v + c.len, end, pos + c.len), buf[pos..pos + c.len];
      ChunkFacts(g, v, end, pos);
      ChunksCons(g, v, end, pos);
      FirstChunk(d, st, env.capacity, c, rest, buf);
      var p := WritePiece(d, st, env.capacity, c, src);
      PieceRefines(d, st, env, n + |rest|, v, end, pos, src);
      if p.result.Err? {
        j := 0;
        ReachNone(g, v, end);
        DoneNothing(d, st, env, n, n + |cs|, v);
        assert buf[pos..pos] == [];
      } else {
        var d1 := RunOps(d, p.ops);
        PieceDoneIs(d, st, d1, p.st, env, n + |rest|, v, src);
        var i := ChunksRefine(d1, p.st, env, n, v + c.len, end, pos + c.len, buf);
        var after := WriteChunks(d1, p.st, env.capacity, rest, buf);
        RunConcat(d, p.ops, after.ops);
        PieceThenPieces(d, st, d1, p.st, RunOps(d1, after.ops), after.st, env, n, n + |rest|, v, end, pos, buf, i);
        j := i + 1;
      }
    }
  }

  lemma ReachNone(g: Geometry, v: nat, end: nat)
    requires g.blockSize > 0 && g.ratio > 0 && v <= end
    ensures Reach(g, v, end, 0) == v
  {
  }

  lemma NoChunks(d: Buf, st: ReaderState, capacity: nat, v: nat, pos: nat, buf: Buf)
    requires st.geometry.blockSize > 0 && st.geometry.ratio > 0 && ReaderOk(d, st, capacity) && pos <= |buf|
    ensures Chunks(st.geometry, v, v, pos) == [] && ChunksWithin([], |buf|) && Reach(st.geometry, v, v, 0) == v
      && buf[pos..pos] == []
    ensures WriteChunks(d, st, capacity, [], buf) == Step([], st, Ok(()))
  {
    hide ReaderOk;
  }

  lemma ChunksCons(g: Geometry, v: nat, end: nat, pos: nat)
    requires g.blockSize > 0 && g.ratio > 0 && v < end
    ensures var c := ChunkAt(g, v, end, pos);
      c.bufPos == pos && Chunks(g, v, end, pos) == [c] + Chunks(g, v + c.len, end, pos + c.len)
  {
    hide DataBatIndex;
  }

  /** The first piece of a write, and the rest of it. */
  lemma FirstChunk(d: Buf, st: ReaderState, capacity: nat, c: BlockChunk, rest: seq<BlockChunk>, buf: Buf)
    requires ReaderOk(d, st, capacity) && ChunksWithin([c] + rest, |buf|)
    ensures c.bufPos + c.len <= |buf| && ChunksWithin(rest, |buf|)
    ensures var p, w := WritePiece(d, st, capacity, c, buf[c.bufPos..c.bufPos + c.len]),
      WriteChunks(d, st, capacity, [c] + rest, buf);
      ReaderOk(RunOps(d, p.ops), p.st, capacity)
      && (p.result.Err? ==> w == p)
      && (p.result.Ok? ==>
            var after := WriteChunks(RunOps(d, p.ops), p.st, capacity, rest, buf);
            w == Step(p.ops + after.ops, after.st, after.result))
  {
    hide ReaderOk, RunOps, WritePiece;
    var cs := [c] + rest;
    assert cs[0] == c && cs[1..] == rest;
    PieceKeepsOk(d, st, capacity, c, buf[c.bufPos..c.bufPos + c.len]);
  }

  lemma PieceDoneIs(d: Buf, st: ReaderState, e: Buf, t: ReaderState, env: Setting, n: nat,
                    v: nat, src: Buf)
    requires st.geometry.blockSize > 0 && st.geometry.ratio > 0 && v + |src| <= st.geometry.virtualSize
    requires PieceDone(d, st, e, t, env, n, v, src)
    ensures WellFormed(e, t, env, n) && SamePlaces(st, t) && HeaderMoved(st, t)
  {
    hide WellFormed, Disk, Splice;
  }
}
