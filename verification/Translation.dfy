/** Where a byte of the disk is, said in terms of the bytes of the file alone: the number
    its BAT entry holds, and what a read or a write makes of that number. */
module Translation {
  import opened Bytes
  import opened LogFormat
  import opened Devices
  import opened Headers
  import opened Bat
  import opened Open
  import opened Reader
  import opened Image
  import opened Recovery
  import opened Refinement
  import opened Sessions

  // ---- The entry of a byte ----

  /** One entry for each block before the byte's, and one bitmap entry for each 2^23
      sectors. */
  function EntryIndex(g: Geometry, v: nat): nat
    requires g.blockSize > 0 && g.sectorSize > 0
  {
    Quotient(v, g.blockSize) + Quotient(v, 0x80_0000 * g.sectorSize)
  }

  lemma LegalChunk(g: Geometry)
    requires LegalGeometry(g)
    ensures g.ratio > 0 && g.blockSize >= ONE_MIB && g.sectorSize > 0
    ensures g.ratio * g.blockSize == 0x80_0000 * g.sectorSize
  {
    ChunkIsSectors(g.blockSize, g.sectorSize);
    hide ChunkRatio;
  }

  lemma NestedQuotient(v: nat, b: nat, r: nat)
    requires b > 0 && r > 0
    ensures r * b > 0 && v / b / r == v / (r * b)
  {
    Nested(v, b, r, v / b / r, v / b % r, v % b);
  }

  lemma Nested(v: nat, b: nat, r: nat, k: nat, t: nat, rest: nat)
    requires b > 0 && r > 0 && t < r && rest < b && v == (k * r + t) * b + rest
    ensures r * b > 0 && v / (r * b) == k
  {
    TimesAtMost(t + 1, r, b);
    assert (k * r + t) * b == k * (r * b) + t * b;
    DivModUnique(v, r * b, k, t * b + rest);
  }

  lemma TimesAtMost(a: nat, b: nat, c: nat)
    requires a <= b
    ensures a * c <= b * c
  {
  }

  lemma IndexOfByte(g: Geometry, v: nat)
    requires LegalGeometry(g)
    ensures g.ratio > 0 && g.blockSize > 0 && g.sectorSize > 0
    ensures DataBatIndex(v / g.blockSize, g.ratio) == EntryIndex(g, v)
  {
    LegalChunk(g);
    hide LegalGeometry;
    IndexSkipsBitmaps(v / g.blockSize, g.ratio);
    NestedQuotient(v, g.blockSize, g.ratio);
  }

  /** A reader whose table is the one on the device, and covers the disk. */
  ghost predicate InMemory(d: Buf, st: ReaderState, capacity: nat) {
    ReaderOk(d, st, capacity) && st.geometry.blockSize > 0 && st.geometry.ratio > 0 && st.geometry.sectorSize > 0
    && BatOf(d, st) == st.bat && Covers(st.geometry, |st.bat|)
  }

  /** Byte `v` has an entry inside the file. */
  ghost predicate Mapped(d: Buf, st: ReaderState, v: nat) {
    st.geometry.blockSize > 0 && st.geometry.sectorSize > 0
    && st.batOffset + 8 * EntryIndex(st.geometry, v) + 8 <= |d|
  }

  /** The number that entry holds, on the device. */
  ghost function Raw(d: Buf, st: ReaderState, v: nat): u64
    requires Mapped(d, st, v)
  {
    ReadU64(d, st.batOffset + 8 * EntryIndex(st.geometry, v))
  }

  lemma EntryIsRaw(d: Buf, st: ReaderState, capacity: nat, v: nat)
    requires InMemory(d, st, capacity) && v < st.geometry.virtualSize
    ensures Mapped(d, st, v)
    ensures var k := DataBatIndex(v / st.geometry.blockSize, st.geometry.ratio);
      k == EntryIndex(st.geometry, v) && k < |st.bat| && st.bat[k] == FromU64(Raw(d, st, v))
  {
    hide FromU64, LeNat, BatOf, EntryIndex, DataBatIndex, LegalGeometry;
    OkGeometry(d, st, capacity);
    IndexOfByte(st.geometry, v);
    assert DataBatIndex(BlockOf(st.geometry, v), st.geometry.ratio) < |st.bat|;
    BatOfEntry(d, st, EntryIndex(st.geometry, v));
  }

  lemma OkGeometry(d: Buf, st: ReaderState, capacity: nat)
    requires ReaderOk(d, st, capacity)
    ensures LegalGeometry(st.geometry) && |d| == st.devSize && st.batOffset + |st.bat| * ENTRY_BYTES <= |d|
  {
  }

  // ---- Reading ----

  /** Where the number says the byte lies. */
  function HostOf(raw: u64, g: Geometry, v: nat): nat
    requires g.blockSize > 0
  {
    raw - raw % 0x10_0000 + v % g.blockSize
  }

  /** The byte can be read: its block reads as zeros, or is there and inside the file. */
  ghost predicate Served(d: Buf, st: ReaderState, v: nat) {
    Mapped(d, st, v)
    && var raw := Raw(d, st, v);
       raw % 8 < 4 || (raw % 8 == 6 && HostOf(raw, st.geometry, v) < |d|)
  }

  ghost function ByteThere(d: Buf, st: ReaderState, v: nat): byte
    requires Served(d, st, v)
  {
    var raw := Raw(d, st, v);
    if raw % 8 == 6 then d[HostOf(raw, st.geometry, v)] else 0
  }

  /** `r` is what reading `lo..hi` should give: the bytes there, or the error of the first
      byte that cannot be read. */
  ghost predicate ReadsAs(d: Buf, st: ReaderState, lo: nat, hi: nat, r: Result<Buf>)
    requires lo <= hi
  {
    match r
    case Ok(b) =>
      |b| == hi - lo && forall v :: lo <= v < hi ==> Served(d, st, v) && b[v - lo] == ByteThere(d, st, v)
    case Err(error) =>
      exists v ::
        lo <= v < hi && !Served(d, st, v) && (forall u :: lo <= u < v ==> Served(d, st, u)) && Mapped(d, st, v)
        && error == if Raw(d, st, v) % 8 == 6 then Corrupt else Unsupported
  }

  /** One piece: all its bytes have the same entry. */
  lemma PieceIsOneEntry(d: Buf, st: ReaderState, capacity: nat, v: nat, end: nat, pos: nat, u: nat)
    requires InMemory(d, st, capacity) && v < end <= st.geometry.virtualSize
    requires v <= u < v + ChunkAt(st.geometry, v, end, pos).len
    ensures u < end && Mapped(d, st, v) && Mapped(d, st, u) && Raw(d, st, u) == Raw(d, st, v)
    ensures u % st.geometry.blockSize == v % st.geometry.blockSize + (u - v)
  {
    hide InMemory, DataBatIndex, Raw, EntryIndex;
    var bs := st.geometry.blockSize;
    Sizes(d, st, capacity);
    DivModUnique(u, bs, v / bs, v % bs + (u - v));
    EntryIsRaw(d, st, capacity, v);
    EntryIsRaw(d, st, capacity, u);
    SameRaw(d, st, v, u);
  }

  lemma SameRaw(d: Buf, st: ReaderState, v: nat, u: nat)
    requires Mapped(d, st, v) && Mapped(d, st, u) && EntryIndex(st.geometry, u) == EntryIndex(st.geometry, v)
    ensures Raw(d, st, u) == Raw(d, st, v)
  {
    hide EntryIndex;
  }

  lemma Sizes(d: Buf, st: ReaderState, capacity: nat)
    requires InMemory(d, st, capacity)
    ensures st.geometry.blockSize >= ONE_MIB && st.geometry.ratio > 0 && st.geometry.sectorSize > 0 && |d| == st.devSize
    ensures ReaderOk(d, st, capacity) && LegalGeometry(st.geometry) && |d| <= capacity < 0x8000_0000_0000_0000
  {
    hide BatOf, Covers, LegalGeometry;
    OkParts(d, st, capacity);
  }

  lemma ReadPieceMeans(d: Buf, st: ReaderState, capacity: nat, v: nat, end: nat, pos: nat)
    requires InMemory(d, st, capacity) && v < end <= st.geometry.virtualSize
    ensures |d| == st.devSize
    ensures var c := ChunkAt(st.geometry, v, end, pos);
      ReadsAs(d, st, v, v + c.len, ReadChunk(d, st, c))
  {
    hide InMemory, DataBatIndex, FromU64, Raw, EntryIndex, Mapped;
    Sizes(d, st, capacity);
    var c := ChunkAt(st.geometry, v, end, pos);
    var raw := PieceEntry(d, st, capacity, v, end, pos);
    RawEntry(raw);
    forall u | v <= u < v + c.len
      ensures Mapped(d, st, u) && Raw(d, st, u) == raw
        && HostOf(raw, st.geometry, u) == HostOf(raw, st.geometry, v) + (u - v)
    {
      PieceIsOneEntry(d, st, capacity, v, end, pos, u);
    }
    hide ChunkAt, HostOf;
    PieceReads(d, st, c, v, raw);
  }

  lemma PieceEntry(d: Buf, st: ReaderState, capacity: nat, v: nat, end: nat, pos: nat) returns (raw: u64)
    requires InMemory(d, st, capacity) && v < end <= st.geometry.virtualSize
    ensures Mapped(d, st, v) && raw == Raw(d, st, v)
    ensures var c := ChunkAt(st.geometry, v, end, pos);
      c.batIndex < |st.bat| && st.bat[c.batIndex] == FromU64(raw) && c.inBlock == v % st.geometry.blockSize
      && c.batIndex == EntryIndex(st.geometry, v)
  {
    hide InMemory, DataBatIndex, FromU64, Raw, EntryIndex;
    Sizes(d, st, capacity);
    EntryIsRaw(d, st, capacity, v);
    raw := Raw(d, st, v);
  }

  lemma PieceReads(d: Buf, st: ReaderState, c: BlockChunk, v: nat, raw: u64)
    requires |d| == st.devSize && c.len > 0 && c.batIndex < |st.bat| && st.geometry.blockSize > 0
    requires var e := st.bat[c.batIndex];
      e.fileOffset + c.inBlock == HostOf(raw, st.geometry, v)
      && (e.state.ZeroFill() <==> raw % 8 < 4) && (e.state.FullyPresent? <==> raw % 8 == 6)
    requires forall u :: v <= u < v + c.len ==>
      Mapped(d, st, u) && Raw(d, st, u) == raw && HostOf(raw, st.geometry, u) == HostOf(raw, st.geometry, v) + (u - v)
    ensures ReadsAs(d, st, v, v + c.len, ReadChunk(d, st, c))
  {
    hide Raw, Mapped, HostOf;
    var r, host := ReadChunk(d, st, c), HostOf(raw, st.geometry, v);
    if r.Err? {
      var u := if raw % 8 == 6 then Max(v, v + (|d| - host)) else v;
      assert v <= u < v + c.len && !Served(d, st, u);
    } else {
      forall u | v <= u < v + c.len
        ensures Served(d, st, u) && r.value[u - v] == ByteThere(d, st, u)
      {
      }
    }
  }

  lemma ReadsThen(d: Buf, st: ReaderState, lo: nat, mid: nat, hi: nat, a: Result<Buf>, b: Result<Buf>)
    requires lo <= mid <= hi && ReadsAs(d, st, lo, mid, a)
    ensures a.Err? ==> ReadsAs(d, st, lo, hi, a)
    ensures a.Ok? && ReadsAs(d, st, mid, hi, b) ==>
      ReadsAs(d, st, lo, hi, if b.Ok? then Ok(a.value + b.value) else b)
  {
    hide Served, ByteThere, Raw, Mapped;
    if a.Ok? && b.Err? && ReadsAs(d, st, mid, hi, b) {
      var v :| mid <= v < hi && !Served(d, st, v) && (forall u :: mid <= u < v ==> Served(d, st, u)) && Mapped(d, st, v)
        && b.error == if Raw(d, st, v) % 8 == 6 then Corrupt else Unsupported;
      assert forall u :: lo <= u < v ==> Served(d, st, u);
    }
  }

  lemma {:induction false} ReadChunksMean(d: Buf, st: ReaderState, capacity: nat, v: nat, end: nat, pos: nat)
    requires InMemory(d, st, capacity) && v <= end <= st.geometry.virtualSize
    ensures |d| == st.devSize && ReadsAs(d, st, v, end, ReadChunks(d, st, Chunks(st.geometry, v, end, pos)))
    decreases end - v
  {
    hide InMemory, ReadChunk, ChunkAt, ReadsAs;
    Sizes(d, st, capacity);
    if v < end {
      var c := ChunkAt(st.geometry, v, end, pos);
      ReadPieceMeans(d, st, capacity, v, end, pos);
      ReadChunksMean(d, st, capacity, v + c.len, end, pos + c.len);
      var rest := Chunks(st.geometry, v + c.len, end, pos + c.len);
      assert ([c] + rest)[0] == c && ([c] + rest)[1..] == rest;
      ReadsThen(d, st, v, v + c.len, end, ReadChunk(d, st, c), ReadChunks(d, st, rest));
    } else {
      NoBytes(d, st, v);
    }
  }

  lemma NoBytes(d: Buf, st: ReaderState, v: nat)
    ensures ReadsAs(d, st, v, v, Ok([]))
  {
  }

  /** A read of a reader whose table is the device's: nothing for an empty one, an error
      for one out of range, and otherwise the bytes the entries in the file lead to, or
      the error of the first byte that cannot be read. */
  lemma ReadMeans(d: Buf, st: ReaderState, capacity: nat, offset: u64, len: nat)
    requires InMemory(d, st, capacity)
    ensures |d| == st.devSize && LegalGeometry(st.geometry)
    ensures var r, end := ReadRun(d, st, offset, len), offset + len;
      if len == 0 then r == Ok([])
      else if end >= 0x1_0000_0000_0000_0000 then r == Err(Corrupt)
      else if end > st.geometry.virtualSize then r == Err(OutOfBounds)
      else ReadsAs(d, st, offset, end, r)
  {
    hide InMemory, ReadChunks, ReadsAs, Chunks, LegalGeometry;
    Sizes(d, st, capacity);
    if len > 0 && offset + len <= st.geometry.virtualSize {
      ReadChunksMean(d, st, capacity, offset, offset + len, 0);
    }
  }

  // ---- Whose readers these are ----

  /** A reader from a successful open is one: its table is the device's, and a chunk of it
      is 2^23 sectors. */
  lemma OpenedInMemory(d: Buf, capacity: nat, w: bool, dec: Decoders)
    requires |d| <= capacity < 0x8000_0000_0000_0000 && OpenRun(d, capacity, w, true, dec).result.Ok?
    ensures var o := OpenRun(d, capacity, w, true, dec);
      InMemory(RunOps(d, o.ops), o.result.value, capacity)
      && o.result.value.geometry.ratio * o.result.value.geometry.blockSize
         == 0x80_0000 * o.result.value.geometry.sectorSize
  {
    hide OpenRun, Settle, Load, RunOps, Pending, LogRegionValid, InMemory, LegalGeometry;
    OpenLoads(d, capacity, w, dec);
    var o := OpenRun(d, capacity, w, true, dec);
    LoadedInMemory(RunOps(d, o.ops), o.result.value, capacity, w, dec);
    Sizes(RunOps(d, o.ops), o.result.value, capacity);
    LegalChunk(o.result.value.geometry);
  }

  lemma LoadedInMemory(e: Buf, st: ReaderState, capacity: nat, w: bool, dec: Decoders)
    requires Loaded(e, st, capacity, w, dec)
    ensures InMemory(e, st, capacity)
  {
    var rt := Settle(e, st.header, dec).value;
    LoadCovers(e, st, st.header, st.slot, rt, w, dec);
    hide Settle, Load, BatOf, LegalGeometry, LogRegionValid, Pending, ReaderOk, Covers, PickTable, LogClear, Anchored;
    LegalMeansPositive(st.geometry);
    LegalChunk(st.geometry);
    LoadedTable(e, st, st.header, st.slot, rt, w, dec);
    OpenedOk(e, st, capacity);
  }

  lemma LoadedTable(e: Buf, st: ReaderState, h: Header, slot: Slot, rt: RegionTable, w: bool, dec: Decoders)
    requires Load(e, h, slot, rt, w, dec) == Ok(st)
    ensures st.batOffset + |st.bat| * ENTRY_BYTES <= |e| && BatOf(e, st) == st.bat
  {
    GeometryIsLegal(e, rt, dec);
    hide LoadGeometry, RequiredEntries, LegalGeometry, DecodeBat, Find, LoadBat, BatOf;
    var g, r := LoadGeometry(e, rt, dec).value, Find(rt, BatRegion).value;
    LegalMeansPositive(g);
    TableIsLoaded(e, st, r, g, RequiredEntries(r.length, g.virtualSize, g.blockSize, g.ratio).value);
  }

  lemma TableIsLoaded(e: Buf, st: ReaderState, r: Region, g: Geometry, n: nat)
    requires r.offset + r.length <= |e| && LegalGeometry(g) && g.blockSize > 0 && g.ratio > 0
    requires RequiredEntries(r.length, g.virtualSize, g.blockSize, g.ratio) == Ok(n)
    requires st.batOffset == r.offset && st.bat == LoadBat(e, r, g, n)
    ensures st.batOffset + |st.bat| * ENTRY_BYTES <= |e| && BatOf(e, st) == st.bat
  {
    CoverageIsTight(r.length, g.virtualSize, g.blockSize, g.ratio);
    hide RequiredEntries, LegalGeometry;
  }

  /** And so is that of a well-formed image, at the start of a run or anywhere in one. */
  lemma WellFormedInMemory(d: Buf, st: ReaderState, env: Setting, n: nat)
    requires WellFormed(d, st, env, n)
    ensures InMemory(d, st, env.capacity)
  {
    hide PickHeader, Layout, Pending, Landed, LogClear, RoomFor, BatOf, ReaderOk, RequiredEntries, PickTable,
      LoadGeometry, LegalGeometry, Covers;
    OkGeometry(d, st, env.capacity);
    LegalChunk(st.geometry);
    RequiredCovers(Find(env.rt, BatRegion).value.length, st.geometry, |st.bat|);
  }

  // ---- Writing ----

  /** The least multiple of the block size past the end is the one there is below a
      block's length further. */
  lemma AlignedExactly(n: nat, blockSize: nat, at: nat)
    requires blockSize > 0 && at % blockSize == 0 && n <= at < n + blockSize
    ensures AlignUp(n, blockSize) == at
  {
    hide AlignUp;
    AlignUpBounds(n, blockSize);
    OneMultiple(at, AlignUp(n, blockSize), blockSize);
  }

  lemma OneMultiple(a: nat, b: nat, m: nat)
    requires m > 0 && a % m == 0 && b % m == 0 && a < b + m && b < a + m
    ensures a == b
  {
    WholeMultiple(a, m);
    WholeMultiple(b, m);
    SameMultiple(Quotient(a, m), Quotient(b, m), m);
  }

  lemma WholeMultiple(a: nat, m: nat)
    requires m > 0 && a % m == 0
    ensures a == Quotient(a, m) * m
  {
  }

  lemma SameMultiple(x: nat, y: nat, m: nat)
    requires x * m < y * m + m && y * m < x * m + m
    ensures x == y
  {
    assert (y + 1) * m == y * m + m && (x + 1) * m == x * m + m;
    MulCancel(x, y + 1, m);
    MulCancel(y, x + 1, m);
  }

  /** A sector of the file with one entry naming a block at `at`, present. */
  ghost predicate Names(sector: Sector, wide: Buf, off: nat, entry: nat, at: nat)
    requires off <= entry && entry + 8 <= off + 4096 <= |wide| && at + 6 < TWO64
  {
    forall i :: 0 <= i < 4096 ==>
      sector[i] == if entry - off <= i < entry - off + 8 then Le(at + 6, 8)[i - (entry - off)] else wide[off + i]
  }

  /** The steps of a piece that allocates at `at`: the file is lengthened and the block
      zeroed, the sector of its entry journalled and then written, and the bytes follow. */
  ghost predicate AllocatesAt(d: Buf, st: ReaderState, v: nat, src: Buf, at: nat, w: Step)
    requires Mapped(d, st, v) && st.batOffset + 8 * EntryIndex(st.geometry, v) < TWO64 && |d| <= at
    requires at + st.geometry.blockSize < 0x8000_0000_0000_0000
  {
    var bs, k := st.geometry.blockSize, EntryIndex(st.geometry, v);
    var entry, size, wide := st.batOffset + 8 * k, at + bs, d + Zeros(at + bs - |d|);
    exists off: u64, sector: Sector ::
      off % 4096 == 0 && off <= entry && entry + 8 <= off + 4096 <= |wide| && Names(sector, wide, off, entry, at)
      && w.ops == [SetLen(size), Write(at, Zeros(bs)), Flush] + Journal(st.(devSize := size), off, sector).ops
                  + [Write(off, sector), Flush] + [Write(at + v % bs, src)]
      && k < |st.bat| && w.result == Ok(())
      && w.st == Journal(st.(devSize := size), off, sector).st.(bat := st.bat[k := BatEntry(FullyPresent, at)])
  }

  /** What the number in a byte's entry makes of a piece of a write that begins there. */
  ghost predicate WritesAs(d: Buf, st: ReaderState, capacity: nat, v: nat, src: Buf, w: Step)
    requires Mapped(d, st, v) && capacity < 0x8000_0000_0000_0000
      && st.batOffset + 8 * EntryIndex(st.geometry, v) < TWO64
  {
    var raw, bs := Raw(d, st, v), st.geometry.blockSize;
    (raw % 8 == 6 ==>
       var host := HostOf(raw, st.geometry, v);
       w == if host + |src| <= |d| then Step([Write(host, src)], st, Ok(())) else Step([], st, Err(Corrupt)))
    && (raw % 8 in {4, 5, 7} ==> w == Step([], st, Err(Unsupported)))
    && (raw % 8 < 4 ==>
          forall at: nat :: at % bs == 0 && |d| <= at < |d| + bs ==> AllocationAs(d, st, capacity, v, src, at, w))
  }

  /** There is no room for the block, or its entry runs over the end of its sector, or all
      of the steps are made. */
  ghost predicate AllocationAs(d: Buf, st: ReaderState, capacity: nat, v: nat, src: Buf, at: nat, w: Step)
    requires Mapped(d, st, v) && capacity < 0x8000_0000_0000_0000 && |d| <= at
    requires st.batOffset + 8 * EntryIndex(st.geometry, v) < TWO64
  {
    var bs := st.geometry.blockSize;
    if at + bs > capacity then w == Step([], st, Err(Io))
    else if (st.batOffset + 8 * EntryIndex(st.geometry, v)) % 4096 > 4088 then
      w == Step([SetLen(at + bs), Write(at, Zeros(bs)), Flush], st.(devSize := at + bs), Err(Panic))
    else AllocatesAt(d, st, v, src, at, w)
  }

  lemma WritePieceMeans(d: Buf, st: ReaderState, capacity: nat, v: nat, end: nat, pos: nat, src: Buf)
    requires InMemory(d, st, capacity) && v < end <= st.geometry.virtualSize
    requires |src| == ChunkAt(st.geometry, v, end, pos).len
    ensures Mapped(d, st, v) && ReaderOk(d, st, capacity) && capacity < 0x8000_0000_0000_0000
    ensures st.batOffset + 8 * EntryIndex(st.geometry, v) < TWO64
    ensures WritesAs(d, st, capacity, v, src, WritePiece(d, st, capacity, ChunkAt(st.geometry, v, end, pos), src))
  {
    hide InMemory, DataBatIndex, FromU64, Raw, EntryIndex, WritePiece, ReaderOk, AllocationAs, LegalGeometry, AlignUp,
      Mapped;
    Sizes(d, st, capacity);
    var c := ChunkAt(st.geometry, v, end, pos);
    var raw := PieceEntry(d, st, capacity, v, end, pos);
    RawEntry(raw);
    EntryInFile(d, st, v);
    assert HostOf(raw, st.geometry, v) == st.bat[c.batIndex].fileOffset + c.inBlock;
    hide HostOf, ChunkAt;
    var w := WritePiece(d, st, capacity, c, src);
    PieceSteps(d, st, capacity, c, src);
    if raw % 8 < 4 {
      forall at: nat | at % st.geometry.blockSize == 0 && |d| <= at < |d| + st.geometry.blockSize
        ensures AllocationAs(d, st, capacity, v, src, at, w)
      {
        AlignedExactly(|d|, st.geometry.blockSize, at);
        AllocationSteps(d, st, capacity, v, c, src, at);
      }
    }
  }

  lemma EntryInFile(d: Buf, st: ReaderState, v: nat)
    requires Mapped(d, st, v)
    ensures st.batOffset + 8 * EntryIndex(st.geometry, v) + 8 <= |d|
  {
  }

  lemma PieceSteps(d: Buf, st: ReaderState, capacity: nat, c: BlockChunk, src: Buf)
    requires ReaderOk(d, st, capacity) && c.batIndex < |st.bat|
    ensures var w, e := WritePiece(d, st, capacity, c, src), st.bat[c.batIndex];
      (e.state.FullyPresent? ==>
         w == if e.fileOffset + c.inBlock + |src| <= |d| then Step([Write(e.fileOffset + c.inBlock, src)], st, Ok(()))
              else Step([], st, Err(Corrupt)))
      && (!e.state.FullyPresent? && !e.state.ZeroFill() ==> w == Step([], st, Err(Unsupported)))
  {
    hide Allocate, AlignUp;
  }

  lemma AllocationSteps(d: Buf, st: ReaderState, capacity: nat, v: nat, c: BlockChunk, src: Buf, at: nat)
    requires ReaderOk(d, st, capacity) && c.batIndex < |st.bat| && st.bat[c.batIndex].state.ZeroFill()
      && Mapped(d, st, v)
    requires c.batIndex == EntryIndex(st.geometry, v) && c.inBlock == v % st.geometry.blockSize
    requires 0 < st.geometry.blockSize && c.inBlock + |src| <= st.geometry.blockSize && |d| == st.devSize
    requires at == AlignUp(|d|, st.geometry.blockSize) && |d| <= at
    requires capacity < 0x8000_0000_0000_0000 && st.batOffset + 8 * EntryIndex(st.geometry, v) < TWO64
    ensures AllocationAs(d, st, capacity, v, src, at, WritePiece(d, st, capacity, c, src))
  {
    hide ReaderOk, EntryIndex, AllocatesAt, PlanOps, PlanState, Zeros, Mapped, WritePiece, PlanFor, AlignUp, Allocate;
    if at + st.geometry.blockSize > capacity || !InSector(st.batOffset, c.batIndex) {
      NotAllocated(d, st, capacity, c, src, at);
    } else {
      PlanSteps(d, st, capacity, c, src, at);
      PlanNames(d, st, capacity, v, c, src, at);
    }
  }

  lemma NotAllocated(d: Buf, st: ReaderState, capacity: nat, c: BlockChunk, src: Buf, at: nat)
    requires ReaderOk(d, st, capacity) && c.batIndex < |st.bat| && st.bat[c.batIndex].state.ZeroFill()
    requires st.geometry.blockSize > 0 && at == AlignUp(|d|, st.geometry.blockSize) && |d| == st.devSize
    requires at + st.geometry.blockSize > capacity || !InSector(st.batOffset, c.batIndex)
    ensures var w, bs := WritePiece(d, st, capacity, c, src), st.geometry.blockSize;
      w == if at + bs > capacity then Step([], st, Err(Io))
           else Step([SetLen(at + bs), Write(at, Zeros(bs)), Flush], st.(devSize := at + bs), Err(Panic))
  {
    hide AlignUp, ReaderOk, Zeros, PlanOps, PlanState, PlanFor, InSector;
    AllocateCases(d, st, capacity, c.batIndex);
    hide Allocate;
  }

  lemma PlanSteps(d: Buf, st: ReaderState, capacity: nat, c: BlockChunk, src: Buf, at: nat)
    requires ReaderOk(d, st, capacity) && c.batIndex < |st.bat| && st.bat[c.batIndex].state.ZeroFill()
    requires st.geometry.blockSize > 0 && at == AlignUp(|d|, st.geometry.blockSize) && |d| == st.devSize
    requires at + st.geometry.blockSize <= capacity && InSector(st.batOffset, c.batIndex)
    requires c.inBlock + |src| <= st.geometry.blockSize
    ensures NewSize(st) == at + st.geometry.blockSize
    ensures var p := PlanFor(d, st, capacity, c.batIndex);
      p.at < TWO64 - ONE_MIB
      && WritePiece(d, st, capacity, c, src)
         == Step(PlanOps(st, p) + [Write(at + c.inBlock, src)], PlanState(st, p, c.batIndex), Ok(()))
  {
    hide AlignUp, ReaderOk, Zeros, PlanOps, PlanFor, InSector, Journal, FromU64, PresentAt;
    AllocateCases(d, st, capacity, c.batIndex);
    var p := PlanFor(d, st, capacity, c.batIndex);
    PlanLength(st, p, c.batIndex);
    hide Allocate, PlanState;
  }

  lemma PlanLength(st: ReaderState, p: Plan, index: nat)
    requires index < |st.bat| && p.at < TWO64 - ONE_MIB && p.size < TWO64
    ensures PlanState(st, p, index).devSize == p.size
  {
    hide JournalEntry, FromU64, JournalledHeader;
  }

  lemma PlanNames(d: Buf, st: ReaderState, capacity: nat, v: nat, c: BlockChunk, src: Buf, at: nat)
    requires ReaderOk(d, st, capacity) && c.batIndex < |st.bat| && Mapped(d, st, v)
    requires c.batIndex == EntryIndex(st.geometry, v) && c.inBlock == v % st.geometry.blockSize
    requires |d| == st.devSize && InSector(st.batOffset, c.batIndex)
    requires at == AlignUp(|d|, st.geometry.blockSize) && |d| <= at
      && NewSize(st) == at + st.geometry.blockSize <= capacity
    requires capacity < 0x8000_0000_0000_0000 && st.batOffset + 8 * EntryIndex(st.geometry, v) < TWO64
    ensures var p := PlanFor(d, st, capacity, c.batIndex);
      p.at < TWO64 - ONE_MIB
      && AllocatesAt(d, st, v, src, at,
         Step(PlanOps(st, p) + [Write(at + c.inBlock, src)], PlanState(st, p, c.batIndex), Ok(())))
  {
    hide ReaderOk, EntryIndex, Journal, AlignUp, Le, FromU64, Zeros;
    var p := PlanFor(d, st, capacity, c.batIndex);
    PlanFacts(d, st, capacity, c.batIndex);
    PlanSector(d, st, capacity, c.batIndex);
    hide PlanFor;
    var wide, entry := d + Zeros(p.size - |d|), st.batOffset + c.batIndex * ENTRY_BYTES;
    PresentIsSix(at);
    PresentRoundTrip(at);
    forall i | 0 <= i < 4096
      ensures p.sector[i] == if entry - p.off <= i < entry - p.off + 8 then Le(at + 6, 8)[i - (entry - p.off)]
        else wide[p.off + i]
    {
      SpliceAt(wide[p.off..p.off + SECTOR], entry - p.off, Le(PresentAt(at), 8), i);
    }
    assert Names(p.sector, wide, p.off, entry, at);
  }

  lemma PresentIsSix(at: nat)
    requires at % ONE_MIB == 0 && at < TWO64 - ONE_MIB
    ensures PresentAt(at) == at + 6
  {
  }

  /** When a piece goes through, said of the number in its entry and the length of the
      file. */
  lemma PieceFitsExactly(d: Buf, st: ReaderState, capacity: nat, v: nat, end: nat, pos: nat, at: nat)
    requires InMemory(d, st, capacity) && v < end <= st.geometry.virtualSize
    requires at % st.geometry.blockSize == 0 && |d| <= at < |d| + st.geometry.blockSize
    ensures Mapped(d, st, v)
    ensures PieceFits(st, capacity, ChunkAt(st.geometry, v, end, pos))
      <==> Raw(d, st, v) % 8 == 6 || (Raw(d, st, v) % 8 < 4 && at + st.geometry.blockSize <= capacity)
  {
    hide InMemory, DataBatIndex, FromU64, Raw, EntryIndex, AlignUp, Mapped;
    Sizes(d, st, capacity);
    var raw := PieceEntry(d, st, capacity, v, end, pos);
    RawEntry(raw);
    AlignedExactly(|d|, st.geometry.blockSize, at);
    hide ChunkAt;
  }

  /** What decides a write before anything is done, and what its first entry makes of it. */
  lemma WriteMeans(d: Buf, st: ReaderState, capacity: nat, offset: u64, buf: Buf)
    requires InMemory(d, st, capacity)
    ensures ReaderOk(d, st, capacity)
    ensures var w, end := WriteRun(d, st, capacity, offset, buf), offset + |buf|;
      if !st.writable then w == Step([], st, Err(Error.ReadOnly))
      else if buf == [] then w == Step([], st, Ok(()))
      else if end >= 0x1_0000_0000_0000_0000 then w == Step([], st, Err(Corrupt))
      else if end > st.geometry.virtualSize then w == Step([], st, Err(OutOfBounds))
      else
        Mapped(d, st, offset)
        && (Raw(d, st, offset) % 8 in {4, 5, 7} ==> w == Step([], st, Err(Unsupported)))
  {
    hide InMemory, ReaderOk, WriteChunks, Chunks, ChunkAt, Raw, Mapped, EntryIndex, WritePiece, ChunksWithin, RunOps,
      LegalGeometry;
    Sizes(d, st, capacity);
    var g, end := st.geometry, offset + |buf|;
    if st.writable && buf != [] && end <= g.virtualSize {
      var c := ChunkAt(g, offset, end, 0);
      var rest := Chunks(g, offset + c.len, end, c.len);
      ChunkFacts(g, offset, end, 0);
      ChunksFit(g, offset, end, 0);
      ChunksCons(g, offset, end, 0);
      WritePieceMeans(d, st, capacity, offset, end, 0, buf[0..c.len]);
      FirstChunk(d, st, capacity, c, rest, buf);
    }
  }
}
