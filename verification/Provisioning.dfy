/** When nothing inside the disk is refused: every block is one the code can read, and
    the device has room for all that are not there yet. */
module Provisioning {
  import opened Bytes
  import opened Devices
  import opened Headers
  import opened Bat
  import opened Open
  import opened Reader
  import opened Image
  import opened Recovery
  import opened Refinement
  import opened Allocator

  predicate ReadableBlock(g: Geometry, bat: seq<BatEntry>, b: nat)
    requires g.ratio > 0
  {
    var i := DataBatIndex(b, g.ratio);
    i < |bat| && bat[i].state.Readable()
  }

  predicate AbsentBlock(g: Geometry, bat: seq<BatEntry>, b: nat)
    requires g.ratio > 0
  {
    var i := DataBatIndex(b, g.ratio);
    i < |bat| && bat[i].state.ZeroFill()
  }

  /** How many of the first `n` blocks are not there yet. */
  function Absent(g: Geometry, bat: seq<BatEntry>, n: nat): (k: nat)
    requires g.ratio > 0
    ensures k <= n
  {
    if n == 0 then 0 else Absent(g, bat, n - 1) + if AbsentBlock(g, bat, n - 1) then 1 else 0
  }

  function BlockCount(g: Geometry): nat
    requires g.blockSize > 0
  {
    if g.virtualSize == 0 then 0 else LastBlock(g.virtualSize, g.blockSize) + 1
  }

  /** The reader may write, no block of the disk is one it refuses, and the device can
      grow to hold every block that is not there yet. */
  ghost predicate Provisioned(st: ReaderState, capacity: nat)
    requires st.geometry.blockSize > 0 && st.geometry.ratio > 0
  {
    var g := st.geometry;
    st.writable && (forall b: nat :: InDisk(g, b) ==> ReadableBlock(g, st.bat, b))
    && BoundAfter(st.devSize, g.blockSize, Absent(g, st.bat, BlockCount(g))) <= capacity
  }

  // ---- Counting ----

  lemma {:induction false} AbsentCounts(g: Geometry, bat: seq<BatEntry>, n: nat, b: nat)
    requires g.ratio > 0 && b < n && AbsentBlock(g, bat, b)
    ensures Absent(g, bat, n) > 0
    decreases n
  {
    hide AbsentBlock;
    if b < n - 1 {
      AbsentCounts(g, bat, n - 1, b);
    }
  }

  lemma OtherBlocksStay(g: Geometry, bat: seq<BatEntry>, b: nat, at: u64, a: nat)
    requires g.ratio > 0 && DataBatIndex(b, g.ratio) < |bat|
    ensures var nb := WithBlock(g, bat, b, at);
      ReadableBlock(g, nb, b) && !AbsentBlock(g, nb, b)
      && (a != b ==>
            AbsentBlock(g, nb, a) == AbsentBlock(g, bat, a) && ReadableBlock(g, nb, a) == ReadableBlock(g, bat, a))
  {
    if a != b && DataBatIndex(a, g.ratio) == DataBatIndex(b, g.ratio) {
      IndexInjective(a, b, g.ratio);
    }
  }

  /** A block that comes is one fewer to come. */
  lemma {:induction false} OneFewer(g: Geometry, bat: seq<BatEntry>, b: nat, at: u64, n: nat)
    requires g.ratio > 0 && DataBatIndex(b, g.ratio) < |bat| && AbsentBlock(g, bat, b)
    ensures Absent(g, bat, n) == Absent(g, WithBlock(g, bat, b, at), n) + if b < n then 1 else 0
    decreases n
  {
    hide AbsentBlock, ReadableBlock, WithBlock, DataBatIndex;
    if n > 0 {
      OneFewer(g, bat, b, at, n - 1);
      OtherBlocksStay(g, bat, b, at, n - 1);
    }
  }

  lemma {:induction false} NthAfter(size: nat, blockSize: nat, k: nat)
    requires LegalBlockSize(blockSize) && blockSize > 0
    ensures Nth(AlignUp(size, blockSize) + blockSize, blockSize, k) == Nth(size, blockSize, k + 1)
  {
    hide AlignUp, LegalBlockSize;
    if k == 0 {
      AlignUpBounds(size, blockSize);
      Wraps(AlignUp(size, blockSize), blockSize);
      AlignedFixed(AlignUp(size, blockSize) + blockSize, blockSize);
    } else {
      NthAfter(size, blockSize, k - 1);
    }
  }

  /** The bound after one block and then `k`. */
  lemma BoundOneMore(size: nat, blockSize: nat, k: nat)
    requires LegalBlockSize(blockSize) && blockSize > 0
    ensures BoundAfter(AlignUp(size, blockSize) + blockSize, blockSize, k) == BoundAfter(size, blockSize, k + 1)
  {
    hide AlignUp, LegalBlockSize;
    if k > 0 {
      NthAfter(size, blockSize, k - 1);
    }
  }

  lemma BoundHasRoom(size: nat, blockSize: nat, k: nat)
    requires blockSize > 0 && k > 0
    ensures AlignUp(size, blockSize) + blockSize <= BoundAfter(size, blockSize, k)
  {
    hide AlignUp;
    if k > 1 {
      NthIncreases(size, blockSize, 0, k - 1);
    }
  }

  // ---- Pieces ----

  lemma InDiskCounts(g: Geometry, b: nat)
    requires g.blockSize > 0 && InDisk(g, b)
    ensures b < BlockCount(g)
  {
  }

  /** With the provision made, every piece fits. */
  lemma ProvisionedFits(st: ReaderState, capacity: nat, v: nat, end: nat, pos: nat)
    requires st.geometry.blockSize > 0 && st.geometry.ratio > 0 && v < end <= st.geometry.virtualSize
      && Provisioned(st, capacity)
    ensures PieceFits(st, capacity, ChunkAt(st.geometry, v, end, pos))
    ensures var c := ChunkAt(st.geometry, v, end, pos);
      c.batIndex < |st.bat| && st.bat[c.batIndex].state.Readable()
  {
    hide InDisk, DataBatIndex, AlignUp, Absent, BlockCount, At, BlockOf, InBlock, BoundAfter;
    var g, b := st.geometry, BlockOf(st.geometry, v);
    ChunkFacts(g, v, end, pos);
    hide ChunkAt;
    InDiskCounts(g, b);
    assert ReadableBlock(g, st.bat, b);
    if AbsentBlock(g, st.bat, b) {
      AbsentCounts(g, st.bat, BlockCount(g), b);
      BoundHasRoom(st.devSize, g.blockSize, Absent(g, st.bat, BlockCount(g)));
    }
  }

  /** What a piece that goes through makes of the table and the bound. */
  lemma PieceTable(d: Buf, st: ReaderState, capacity: nat, c: BlockChunk, src: Buf)
    requires ReaderOk(d, st, capacity) && c.batIndex < |st.bat| && st.geometry.blockSize > 0
    ensures var p := WritePiece(d, st, capacity, c, src);
      p.result.Ok? ==>
        (st.bat[c.batIndex].state.FullyPresent? && p.st == st)
        || (st.bat[c.batIndex].state.ZeroFill() && p.st.devSize == NewSize(st) && p.st.geometry == st.geometry
           && p.st.writable == st.writable
            && var at := AlignUp(st.devSize, st.geometry.blockSize);
               at < TWO64 && p.st.bat == st.bat[c.batIndex := BatEntry(FullyPresent, at)])
  {
    hide AlignUp, PublishedSector, JournalEntry, EncodedHeader, JournalledHeader, LegalGeometry, LogRegionValid,
      FromU64, PresentAt;
    if st.bat[c.batIndex].state.ZeroFill() && NewSize(st) <= capacity && InSector(st.batOffset, c.batIndex) {
      PlanFacts(d, st, capacity, c.batIndex);
      PresentRoundTrip(PlanFor(d, st, capacity, c.batIndex).at);
    }
  }

  lemma PieceKeepsProvision(d: Buf, st: ReaderState, capacity: nat, v: nat, end: nat, pos: nat, src: Buf)
    requires st.geometry.blockSize > 0 && st.geometry.ratio > 0 && v < end <= st.geometry.virtualSize
      && Provisioned(st, capacity)
    requires ReaderOk(d, st, capacity) && |src| == ChunkAt(st.geometry, v, end, pos).len
    requires WritePiece(d, st, capacity, ChunkAt(st.geometry, v, end, pos), src).result.Ok?
    ensures var p := WritePiece(d, st, capacity, ChunkAt(st.geometry, v, end, pos), src);
      p.st.geometry == st.geometry && Provisioned(p.st, capacity)
  {
    hide InDisk, DataBatIndex, AlignUp, Absent, BlockCount, At, BlockOf, InBlock, BoundAfter, WritePiece, ReaderOk,
      LegalGeometry, LegalBlockSize;
    var g, b, c := st.geometry, BlockOf(st.geometry, v), ChunkAt(st.geometry, v, end, pos);
    ChunkFacts(g, v, end, pos);
    ProvisionedFits(st, capacity, v, end, pos);
    hide ChunkAt;
    PieceTable(d, st, capacity, c, src);
    if !st.bat[c.batIndex].state.FullyPresent? {
      GeometryOk(d, st, capacity);
      BlockSizeIsLegal(g);
      TableKeepsProvision(st, capacity, b, AlignUp(st.devSize, g.blockSize), WritePiece(d, st, capacity, c, src).st);
    }
  }

  lemma TableKeepsProvision(st: ReaderState, capacity: nat, b: nat, at: u64, t: ReaderState)
    requires st.geometry.blockSize > 0 && st.geometry.ratio > 0 && LegalBlockSize(st.geometry.blockSize)
      && InDisk(st.geometry, b)
    requires AbsentBlock(st.geometry, st.bat, b) && Provisioned(st, capacity)
    requires t.geometry == st.geometry && t.writable == st.writable && t.devSize == NewSize(st)
    requires t.bat == WithBlock(st.geometry, st.bat, b, at)
    ensures Provisioned(t, capacity)
  {
    hide InDisk, DataBatIndex, AlignUp, Absent, BlockCount, BoundAfter, WithBlock, LegalBlockSize;
    var g := st.geometry;
    InDiskCounts(g, b);
    OneFewer(g, st.bat, b, at, BlockCount(g));
    BoundOneMore(st.devSize, g.blockSize, Absent(g, t.bat, BlockCount(g)));
    forall a: nat | InDisk(g, a)
      ensures ReadableBlock(g, t.bat, a)
    {
      OtherBlocksStay(g, st.bat, b, at, a);
    }
  }

  // ---- Transfers ----

  /** A write of a provisioned image goes through, and leaves it provisioned. */
  lemma {:induction false} ChunksSucceed(d: Buf, st: ReaderState, env: Setting, n: nat,
                                         v: nat, end: nat, pos: nat, buf: Buf)
    requires st.geometry.blockSize > 0 && st.geometry.ratio > 0 && v <= end <= st.geometry.virtualSize
      && pos + (end - v) <= |buf|
    requires ReaderOk(d, st, env.capacity) && ChunksWithin(Chunks(st.geometry, v, end, pos), |buf|)
      && Provisioned(st, env.capacity)
    requires WellFormed(d, st, env, n + |Chunks(st.geometry, v, end, pos)|)
    ensures var w := WriteChunks(d, st, env.capacity, Chunks(st.geometry, v, end, pos), buf);
      w.result.Ok? && w.st.geometry == st.geometry && Provisioned(w.st, env.capacity)
    decreases end - v
  {
    hide WellFormed, ReaderOk, RunOps, WritePiece, PieceDone, PieceFits, WriteChunks, Chunks, ChunkAt, ChunksWithin,
      Provisioned;
    if v == end {
      NoChunks(d, st, env.capacity, v, pos, buf);
    } else {
      var g := st.geometry;
      var c := ChunkAt(g, v, end, pos);
      var rest, src := Chunks(g, v + c.len, end, pos + c.len), buf[pos..pos + c.len];
      ChunkFacts(g, v, end, pos);
      ChunksCons(g, v, end, pos);
      FirstChunk(d, st, env.capacity, c, rest, buf);
      var p := WritePiece(d, st, env.capacity, c, src);
      ProvisionedFits(st, env.capacity, v, end, pos);
      PieceRefines(d, st, env, n + |rest|, v, end, pos, src);
      PieceKeepsProvision(d, st, env.capacity, v, end, pos, src);
      PieceDoneIs(d, st, RunOps(d, p.ops), p.st, env, n + |rest|, v, src);
      ChunksSucceed(RunOps(d, p.ops), p.st, env, n, v + c.len, end, pos + c.len, buf);
    }
  }

  /** So does a read. */
  lemma {:induction false} ChunksReadable(st: ReaderState, capacity: nat, v: nat, end: nat, pos: nat)
    requires st.geometry.blockSize > 0 && st.geometry.ratio > 0 && v <= end <= st.geometry.virtualSize
      && Provisioned(st, capacity)
    ensures AllReadable(st, Chunks(st.geometry, v, end, pos))
    decreases end - v
  {
    hide Provisioned, ChunkAt, PieceFits, Chunks;
    if v < end {
      var c := ChunkAt(st.geometry, v, end, pos);
      ProvisionedFits(st, capacity, v, end, pos);
      ChunksCons(st.geometry, v, end, pos);
      ChunksReadable(st, capacity, v + c.len, end, pos + c.len);
      AllReadableCons(st, c, Chunks(st.geometry, v + c.len, end, pos + c.len));
    } else {
      NoneLeft(st.geometry, v, pos);
      AllReadableNone(st);
    }
  }

  lemma NoneLeft(g: Geometry, v: nat, pos: nat)
    requires g.blockSize > 0 && g.ratio > 0
    ensures Chunks(g, v, v, pos) == []
  {
  }
}
