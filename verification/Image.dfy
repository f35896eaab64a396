/** Where the parts of an image lie, what its virtual disk holds, and how a write or a
    new block shows on that disk. */
module Image {
  import opened Bytes
  import opened LogFormat
  import opened Headers
  import opened Bat
  import opened Open

  // ---- The virtual disk ----

  predicate InDisk(g: Geometry, b: nat)
    requires g.blockSize > 0
  {
    g.virtualSize > 0 && b <= LastBlock(g.virtualSize, g.blockSize)
  }

  function BlockByte(d: Buf, e: BatEntry, i: nat): byte {
    if e.state.FullyPresent? && e.fileOffset + i < |d| then d[e.fileOffset + i] else 0
  }

  /** Byte `i` of virtual block `b`. */
  function EntryByte(d: Buf, g: Geometry, bat: seq<BatEntry>, b: nat, i: nat): byte
    requires g.ratio > 0
  {
    var k := DataBatIndex(b, g.ratio);
    if k < |bat| then BlockByte(d, bat[k], i) else 0
  }

  function BlockOf(g: Geometry, v: nat): nat
    requires g.blockSize > 0
  {
    v / g.blockSize
  }

  function InBlock(g: Geometry, v: nat): (i: nat)
    requires g.blockSize > 0
    ensures i < g.blockSize
  {
    v % g.blockSize
  }

  /** The disk offset of byte `i` of block `b`. */
  function At(g: Geometry, b: nat, i: nat): nat { b * g.blockSize + i }

  function DiskByte(d: Buf, g: Geometry, bat: seq<BatEntry>, v: nat): byte
    requires g.blockSize > 0 && g.ratio > 0
  {
    EntryByte(d, g, bat, BlockOf(g, v), InBlock(g, v))
  }

  /** The bytes an image exposes. */
  function Disk(d: Buf, g: Geometry, bat: seq<BatEntry>): (r: Buf)
    requires g.blockSize > 0 && g.ratio > 0
    ensures |r| == g.virtualSize && forall v :: 0 <= v < g.virtualSize ==> r[v] == DiskByte(d, g, bat, v)
  {
    seq(g.virtualSize, v requires 0 <= v => DiskByte(d, g, bat, v))
  }

  // ---- Where things lie ----

  /** `lo..hi` and `a..b` share no byte. */
  predicate Apart(lo: int, hi: int, a: int, b: int) { b <= a || hi <= a || b <= lo }

  /** The end of the last sector holding a BAT entry the disk needs. */
  function BatEnd(st: ReaderState): nat { RoundUpSector(st.batOffset + |st.bat| * ENTRY_BYTES) }

  predicate Present(g: Geometry, bat: seq<BatEntry>, b: nat)
    requires g.blockSize > 0 && g.ratio > 0
  {
    var i := DataBatIndex(b, g.ratio);
    i < |bat| && bat[i].state.FullyPresent?
  }

  function Host(g: Geometry, bat: seq<BatEntry>, b: nat): nat
    requires g.blockSize > 0 && g.ratio > 0 && Present(g, bat, b)
  {
    bat[DataBatIndex(b, g.ratio)].fileOffset
  }

  /** A block at `off` clear of the headers, the log, the BAT and the metadata. */
  predicate BlockClear(st: ReaderState, m: Region, size: nat, off: nat) {
    var hi := off + st.geometry.blockSize;
    ONE_MIB <= off && hi <= size
    && Apart(off, hi, st.header.logOffset, st.header.logOffset + st.header.logLength)
    && Apart(off, hi, st.batOffset, BatEnd(st))
    && Apart(off, hi, m.offset, m.offset + m.length)
  }

  /** The control structures of the image, pairwise apart. */
  predicate ControlLayout(st: ReaderState, m: Region, size: nat) {
    var h := st.header;
    st.batOffset % SECTOR == 0 && st.batOffset >= ONE_MIB && BatEnd(st) <= size
    && m.offset >= ONE_MIB && m.offset + m.length <= size
    && (h.logLength > 0 ==> h.logOffset >= ONE_MIB)
    && Apart(st.batOffset, BatEnd(st), m.offset, m.offset + m.length)
    && Apart(st.batOffset, BatEnd(st), h.logOffset, h.logOffset + h.logLength)
    && Apart(m.offset, m.offset + m.length, h.logOffset, h.logOffset + h.logLength)
  }

  ghost predicate BlocksClear(st: ReaderState, m: Region, size: nat)
    requires st.geometry.blockSize > 0 && st.geometry.ratio > 0
  {
    forall b: nat :: InDisk(st.geometry, b) && Present(st.geometry, st.bat, b) ==>
      BlockClear(st, m, size, Host(st.geometry, st.bat, b))
  }

  ghost predicate BlocksApart(g: Geometry, bat: seq<BatEntry>)
    requires g.blockSize > 0 && g.ratio > 0
  {
    forall a: nat, b: nat :: a != b && InDisk(g, a) && InDisk(g, b) && Present(g, bat, a) && Present(g, bat, b) ==>
      Apart(Host(g, bat, a), Host(g, bat, a) + g.blockSize, Host(g, bat, b), Host(g, bat, b) + g.blockSize)
  }

  ghost predicate Layout(st: ReaderState, m: Region, size: nat)
    requires st.geometry.blockSize > 0 && st.geometry.ratio > 0
  {
    ControlLayout(st, m, size) && BlocksClear(st, m, size) && BlocksApart(st.geometry, st.bat)
  }

  // ---- What a device must keep to load as the same image ----

  /** What the theorems about an image hold fixed: how far its device can grow, its region
      table, where its metadata lies, and how the bytes of both are decoded. */
  datatype Setting = Setting(capacity: nat, rt: RegionTable, m: Region, dec: Decoders)

  /** The table, the metadata and the extent of the BAT are those of `st`. */
  ghost predicate Anchored(d: Buf, st: ReaderState, env: Setting) {
    |d| >= TABLES_END && d[..8] == IDENTIFIER && PickTable(d, env.dec) == Ok(env.rt) && !UnknownRequired(env.rt)
    && Find(env.rt, MetadataRegion) == Some(env.m) && LoadGeometry(d, env.rt, env.dec) == Ok(st.geometry)
    && LegalGeometry(st.geometry)
    && Find(env.rt, BatRegion).Some?
    && var r := Find(env.rt, BatRegion).value;
       r.offset == st.batOffset && r.offset + r.length <= |d|
       && RequiredEntries(r.length, st.geometry.virtualSize, st.geometry.blockSize, st.geometry.ratio) == Ok(|st.bat|)
  }

  /** The BAT as the device has it. */
  function BatOf(d: Buf, st: ReaderState): seq<BatEntry>
    requires st.batOffset + |st.bat| * ENTRY_BYTES <= |d|
  {
    DecodeBat(d[st.batOffset..st.batOffset + |st.bat| * ENTRY_BYTES], |st.bat|)
  }

  lemma AnchoredTable(d: Buf, st: ReaderState, env: Setting)
    requires Anchored(d, st, env)
    ensures st.batOffset + |st.bat| * ENTRY_BYTES <= |d| && st.geometry.blockSize >= ONE_MIB && st.geometry.ratio >= 16
  {
    var r := Find(env.rt, BatRegion).value;
    CoverageIsTight(r.length, st.geometry.virtualSize, st.geometry.blockSize, st.geometry.ratio);
  }

  lemma AnchoredLoads(d: Buf, st: ReaderState, env: Setting, h: Header, slot: Slot, w: bool)
    requires Anchored(d, st, env)
    ensures st.batOffset + |st.bat| * ENTRY_BYTES <= |d|
    ensures Load(d, h, slot, env.rt, w, env.dec)
      == Ok(ReaderState(|d|, h, slot, st.geometry, st.batOffset, BatOf(d, st), w))
  {
    AnchoredTable(d, st, env);
    hide LoadGeometry, RequiredEntries, DecodeBat, LegalGeometry;
  }

  /** Two devices that agree on the identifier, the tables and the metadata. */
  lemma AnchoredFrame(d: Buf, e: Buf, st: ReaderState, env: Setting)
    requires Anchored(d, st, env) && |d| <= |e| && env.m.offset + env.m.length <= |d|
    requires e[..8] == d[..8] && e[TABLE1..TABLES_END] == d[TABLE1..TABLES_END]
    requires e[env.m.offset..env.m.offset + env.m.length] == d[env.m.offset..env.m.offset + env.m.length]
    ensures Anchored(e, st, env)
  {
    hide RequiredEntries, LegalGeometry;
    PickTableFrame(d, e, env.dec);
  }

  /** The disk has an entry for each of its blocks, and for each of its bytes. */
  lemma BlockHasEntry(d: Buf, st: ReaderState, env: Setting, b: nat)
    requires Anchored(d, st, env) && InDisk(st.geometry, b)
    ensures DataBatIndex(b, st.geometry.ratio) < |st.bat|
  {
    var g := st.geometry;
    var last := LastBlock(g.virtualSize, g.blockSize);
    if b < last {
      IndexIncreases(b, last, g.ratio);
    }
  }

  lemma ByteInDisk(g: Geometry, v: nat)
    requires g.blockSize > 0 && v < g.virtualSize
    ensures InDisk(g, BlockOf(g, v))
  {
    QuotientMonotone(v, g.virtualSize - 1, g.blockSize);
  }

  // ---- Devices that differ only where control structures are rewritten ----

  /** Byte `i` belongs to a header slot, the log, or the BAT's sectors. */
  predicate Control(st: ReaderState, i: nat) {
    0x1_0000 <= i < 0x1_1000 || 0x2_0000 <= i < 0x2_1000
    || st.header.logOffset <= i < st.header.logOffset + st.header.logLength
    || st.batOffset <= i < BatEnd(st)
  }

  ghost predicate Near(d: Buf, e: Buf, st: ReaderState) {
    |d| <= |e| && forall i :: 0 <= i < |d| && !Control(st, i) ==> e[i] == d[i]
  }

  lemma NearSlice(d: Buf, e: Buf, st: ReaderState, lo: nat, hi: nat)
    requires Near(d, e, st) && lo <= hi <= |d| && forall i :: lo <= i < hi ==> !Control(st, i)
    ensures e[lo..hi] == d[lo..hi]
  {
    hide Control;
    assert forall i :: lo <= i < hi ==> e[i] == d[i];
  }

  lemma NearAnchored(d: Buf, e: Buf, st: ReaderState, env: Setting)
    requires Anchored(d, st, env) && ControlLayout(st, env.m, |d|) && Near(d, e, st)
    ensures Anchored(e, st, env)
  {
    LowBytesFree(st, env.m, |d|);
    hide Anchored, Control, ControlLayout, Near;
    AnchoredSize(d, st, env);
    NearSize(d, e, st);
    MetadataFree(st, env.m, |d|);
    NearSlice(d, e, st, 0, 8);
    NearSlice(d, e, st, TABLE1, TABLES_END);
    NearSlice(d, e, st, env.m.offset, env.m.offset + env.m.length);
    assert e[..8] == e[0..8] && d[..8] == d[0..8];
    AnchoredFrame(d, e, st, env);
  }

  lemma LowBytesFree(st: ReaderState, m: Region, size: nat)
    requires ControlLayout(st, m, size)
    ensures forall i :: 0 <= i < 8 || TABLE1 <= i < TABLES_END ==> !Control(st, i)
  {
  }

  lemma MetadataFree(st: ReaderState, m: Region, size: nat)
    requires ControlLayout(st, m, size)
    ensures m.offset + m.length <= size && forall i :: m.offset <= i < m.offset + m.length ==> !Control(st, i)
  {
  }

  lemma AnchoredSize(d: Buf, st: ReaderState, env: Setting)
    requires Anchored(d, st, env)
    ensures |d| >= TABLES_END
  {
  }

  lemma NearSize(d: Buf, e: Buf, st: ReaderState)
    requires Near(d, e, st)
    ensures |d| <= |e|
  {
  }

  lemma NearRefl(d: Buf, st: ReaderState)
    ensures Near(d, d, st)
  {
  }

  lemma NearWide(d: Buf, z: Buf, st: ReaderState)
    ensures Near(d, d + z, st)
  {
  }

  /** Rewriting control bytes, or bytes past the old end, stays near. */
  lemma NearSplice(d: Buf, e: Buf, st: ReaderState, off: nat, x: Buf)
    requires Near(d, e, st) && off + |x| <= |e|
    requires forall i :: off <= i < off + |x| ==> i >= |d| || Control(st, i)
    ensures Near(d, Splice(e, off, x), st)
  {
    hide Control, Splice;
    var f := Splice(e, off, x);
    forall i | 0 <= i < |d| && !Control(st, i)
      ensures f[i] == d[i]
    {
      SpliceAt(e, off, x, i);
    }
  }

  lemma BlockBytesFree(st: ReaderState, m: Region, size: nat, off: nat, i: nat)
    requires BlockClear(st, m, size, off) && i < st.geometry.blockSize
    ensures off + i < size && !Control(st, off + i)
  {
  }

  /** Near devices expose the same disk through the same table. */
  lemma NearDisk(d: Buf, e: Buf, st: ReaderState, m: Region)
    requires st.geometry.blockSize > 0 && st.geometry.ratio > 0 && Near(d, e, st) && BlocksClear(st, m, |d|)
    ensures Disk(e, st.geometry, st.bat) == Disk(d, st.geometry, st.bat)
  {
    var g, x, y := st.geometry, Disk(e, st.geometry, st.bat), Disk(d, st.geometry, st.bat);
    hide Control, Disk, DataBatIndex, InDisk;
    forall v | 0 <= v < g.virtualSize
      ensures x[v] == y[v]
    {
      NearDiskByte(d, e, st, m, v);
    }
  }

  lemma NearDiskByte(d: Buf, e: Buf, st: ReaderState, m: Region, v: nat)
    requires st.geometry.blockSize > 0 && st.geometry.ratio > 0 && Near(d, e, st) && BlocksClear(st, m, |d|)
    requires v < st.geometry.virtualSize
    ensures DiskByte(e, st.geometry, st.bat, v) == DiskByte(d, st.geometry, st.bat, v)
  {
    hide Control, DataBatIndex, InDisk, BlockClear;
    var g := st.geometry;
    var b, i := BlockOf(g, v), InBlock(g, v);
    ByteInDisk(g, v);
    hide BlockOf, InBlock;
    if Present(g, st.bat, b) {
      BlockBytesFree(st, m, |d|, Host(g, st.bat, b), i);
    }
  }

  // ---- Writing into a block that is present ----

  /** Where a byte of the disk lies relative to a piece of one block. */
  lemma PieceBytes(g: Geometry, b: nat, inBlock: nat, len: nat, w: nat)
    requires g.blockSize > 0 && inBlock + len <= g.blockSize
    ensures At(g, b, inBlock) <= w < At(g, b, inBlock) + len
      <==> BlockOf(g, w) == b && inBlock <= InBlock(g, w) < inBlock + len
    ensures BlockOf(g, w) == b ==> w - At(g, b, inBlock) == InBlock(g, w) - inBlock
  {
    if b * g.blockSize + inBlock <= w < b * g.blockSize + inBlock + len {
      DivModUnique(w, g.blockSize, b, w - b * g.blockSize);
    }
  }

  lemma PresentWrite(d: Buf, st: ReaderState, m: Region, b: nat, inBlock: nat, src: Buf)
    requires st.geometry.blockSize > 0 && st.geometry.ratio > 0
    requires BlocksClear(st, m, |d|) && BlocksApart(st.geometry, st.bat)
    requires InDisk(st.geometry, b) && Present(st.geometry, st.bat, b) && inBlock + |src| <= st.geometry.blockSize
    requires At(st.geometry, b, inBlock) + |src| <= st.geometry.virtualSize
    ensures var g, off := st.geometry, Host(st.geometry, st.bat, b) + inBlock;
      off + |src| <= |d|
      && Disk(Splice(d, off, src), g, st.bat) == Splice(Disk(d, g, st.bat), At(g, b, inBlock), src)
  {
    hide Control, DataBatIndex, InDisk, Splice, At, BlockOf, InBlock;
    var g, off, v := st.geometry, Host(st.geometry, st.bat, b) + inBlock, At(st.geometry, b, inBlock);
    assert BlockClear(st, m, |d|, Host(g, st.bat, b));
    var e := Splice(d, off, src);
    var x, y := Disk(e, g, st.bat), Splice(Disk(d, g, st.bat), v, src);
    hide Disk, BlockClear, BlocksClear, BlocksApart;
    forall w | 0 <= w < g.virtualSize
      ensures x[w] == y[w]
    {
      SpliceAt(Disk(d, g, st.bat), v, src, w);
      PresentWriteByte(d, st, m, b, inBlock, src, w);
    }
  }

  lemma PresentWriteByte(d: Buf, st: ReaderState, m: Region, b: nat, inBlock: nat, src: Buf, w: nat)
    requires st.geometry.blockSize > 0 && st.geometry.ratio > 0
    requires BlocksClear(st, m, |d|) && BlocksApart(st.geometry, st.bat)
    requires InDisk(st.geometry, b) && Present(st.geometry, st.bat, b) && inBlock + |src| <= st.geometry.blockSize
    requires w < st.geometry.virtualSize && Host(st.geometry, st.bat, b) + inBlock + |src| <= |d|
    ensures var g, off := st.geometry, Host(st.geometry, st.bat, b) + inBlock;
      var v := At(g, b, inBlock);
      DiskByte(Splice(d, off, src), g, st.bat, w)
      == if v <= w < v + |src| then src[w - v] else DiskByte(d, g, st.bat, w)
  {
    hide Control, InDisk, Splice, BlockClear, DataBatIndex, EntryByte, At, BlockOf, InBlock, BlocksClear, BlocksApart;
    var g := st.geometry;
    PieceBytes(g, b, inBlock, |src|, w);
    ByteInDisk(g, w);
    PresentWriteEntry(d, st, m, b, inBlock, src, BlockOf(g, w), InBlock(g, w));
  }

  lemma PresentWriteEntry(d: Buf, st: ReaderState, m: Region, b: nat, inBlock: nat, src: Buf, a: nat, i: nat)
    requires st.geometry.blockSize > 0 && st.geometry.ratio > 0
    requires BlocksClear(st, m, |d|) && BlocksApart(st.geometry, st.bat)
    requires InDisk(st.geometry, b) && Present(st.geometry, st.bat, b) && inBlock + |src| <= st.geometry.blockSize
    requires Host(st.geometry, st.bat, b) + inBlock + |src| <= |d|
    requires InDisk(st.geometry, a) && i < st.geometry.blockSize
    ensures EntryByte(Splice(d, Host(st.geometry, st.bat, b) + inBlock, src), st.geometry, st.bat, a, i)
      == if a == b && inBlock <= i < inBlock + |src| then src[i - inBlock] else EntryByte(d, st.geometry, st.bat, a, i)
  {
    hide Control, InDisk, Splice, BlockClear, DataBatIndex;
    var g, off := st.geometry, Host(st.geometry, st.bat, b) + inBlock;
    if Present(g, st.bat, a) {
      var host := Host(g, st.bat, a);
      BlockBytesFree(st, m, |d|, host, i);
      SpliceAt(d, off, src, host + i);
      if a != b {
        OtherBlockApart(g, st.bat, a, b, i, inBlock, |src|);
      }
    }
  }

  lemma OtherBlockApart(g: Geometry, bat: seq<BatEntry>, a: nat, b: nat, i: nat, inBlock: nat, len: nat)
    requires g.blockSize > 0 && g.ratio > 0 && BlocksApart(g, bat) && a != b
    requires InDisk(g, a) && InDisk(g, b) && Present(g, bat, a) && Present(g, bat, b)
    requires i < g.blockSize && inBlock + len <= g.blockSize
    ensures !(Host(g, bat, b) + inBlock <= Host(g, bat, a) + i < Host(g, bat, b) + inBlock + len)
  {
    hide InDisk, DataBatIndex;
  }

  // ---- A block that has just been allocated ----

  /** The table with block `b` present at `at`. */
  function WithBlock(g: Geometry, bat: seq<BatEntry>, b: nat, at: u64): seq<BatEntry>
    requires g.ratio > 0 && DataBatIndex(b, g.ratio) < |bat|
  {
    bat[DataBatIndex(b, g.ratio) := BatEntry(FullyPresent, at)]
  }

  lemma IndexInjective(a: nat, b: nat, ratio: nat)
    requires ratio > 0 && DataBatIndex(a, ratio) == DataBatIndex(b, ratio)
    ensures a == b
  {
    if a < b {
      IndexIncreases(a, b, ratio);
    } else if b < a {
      IndexIncreases(b, a, ratio);
    }
  }

  lemma WithBlockEntries(g: Geometry, bat: seq<BatEntry>, b: nat, at: u64, a: nat)
    requires g.blockSize > 0 && g.ratio > 0 && DataBatIndex(b, g.ratio) < |bat|
    ensures var nb := WithBlock(g, bat, b, at);
      (a == b ==> Present(g, nb, a) && Host(g, nb, a) == at)
      && (a != b ==> (Present(g, nb, a) <==> Present(g, bat, a)))
      && (a != b && Present(g, bat, a) ==> Host(g, nb, a) == Host(g, bat, a))
  {
    if a != b && DataBatIndex(a, g.ratio) == DataBatIndex(b, g.ratio) {
      IndexInjective(a, b, g.ratio);
    }
  }

  /** Same places, possibly another header and table. */
  predicate SamePlaces(s: ReaderState, t: ReaderState) {
    s.geometry == t.geometry && s.batOffset == t.batOffset && |s.bat| == |t.bat|
    && s.header.logOffset == t.header.logOffset && s.header.logLength == t.header.logLength
  }

  /** A block past the old end of the file is clear of everything in it. */
  lemma LayoutWithBlock(st: ReaderState, m: Region, size: nat, b: nat, at: u64, t: ReaderState)
    requires st.geometry.blockSize > 0 && st.geometry.ratio > 0 && Layout(st, m, size)
    requires DataBatIndex(b, st.geometry.ratio) < |st.bat| && size <= at && LogRegionValid(size, st.header)
    requires SamePlaces(st, t) && t.bat == WithBlock(st.geometry, st.bat, b, at)
    ensures Layout(t, m, at + st.geometry.blockSize)
  {
    var g, size' := st.geometry, at + st.geometry.blockSize;
    hide DataBatIndex, InDisk, WithBlock;
    forall a: nat
      ensures InDisk(g, a) && Present(g, t.bat, a) ==> BlockClear(t, m, size', Host(g, t.bat, a))
    {
      WithBlockEntries(g, st.bat, b, at, a);
      if InDisk(g, a) && Present(g, st.bat, a) {
        assert BlockClear(st, m, size, Host(g, st.bat, a));
      }
    }
    forall a: nat, c: nat
      ensures a != c && InDisk(g, a) && InDisk(g, c) && Present(g, t.bat, a) && Present(g, t.bat, c) ==>
        Apart(Host(g, t.bat, a), Host(g, t.bat, a) + g.blockSize, Host(g, t.bat, c), Host(g, t.bat, c) + g.blockSize)
    {
      WithBlockEntries(g, st.bat, b, at, a);
      WithBlockEntries(g, st.bat, b, at, c);
      if InDisk(g, a) && Present(g, st.bat, a) {
        assert BlockClear(st, m, size, Host(g, st.bat, a));
      }
      if InDisk(g, c) && Present(g, st.bat, c) {
        assert BlockClear(st, m, size, Host(g, st.bat, c));
      }
    }
  }

  /** A layout does not depend on the file being no longer than it was. */
  lemma LayoutGrows(st: ReaderState, m: Region, size: nat, t: ReaderState, more: nat)
    requires st.geometry.blockSize > 0 && st.geometry.ratio > 0 && Layout(st, m, size) && size <= more
    requires SamePlaces(st, t) && t.bat == st.bat
    ensures Layout(t, m, more)
  {
    var g := st.geometry;
    hide DataBatIndex, InDisk;
    forall a: nat
      ensures InDisk(g, a) && Present(g, t.bat, a) ==> BlockClear(t, m, more, Host(g, t.bat, a))
    {
      if InDisk(g, a) && Present(g, st.bat, a) {
        assert BlockClear(st, m, size, Host(g, st.bat, a));
      }
    }
  }

  /** A fresh zeroed block in place of one that read as zeros exposes the same disk. */
  lemma AllocatedDisk(d: Buf, e: Buf, st: ReaderState, m: Region, b: nat, at: u64)
    requires st.geometry.blockSize > 0 && st.geometry.ratio > 0 && Near(d, e, st) && BlocksClear(st, m, |d|)
    requires DataBatIndex(b, st.geometry.ratio) < |st.bat| && !Present(st.geometry, st.bat, b)
    requires at + st.geometry.blockSize <= |e| && e[at..at + st.geometry.blockSize] == Zeros(st.geometry.blockSize)
    ensures Disk(e, st.geometry, WithBlock(st.geometry, st.bat, b, at)) == Disk(d, st.geometry, st.bat)
  {
    var g, nb := st.geometry, WithBlock(st.geometry, st.bat, b, at);
    var x, y := Disk(e, g, nb), Disk(d, g, st.bat);
    hide Control, Disk, DataBatIndex, InDisk, WithBlock, BlockOf, InBlock, BlockClear;
    forall v | 0 <= v < g.virtualSize
      ensures x[v] == y[v]
    {
      ByteInDisk(g, v);
      NearDiskByte(d, e, st, m, v);
      AllocatedByte(e, g, st.bat, b, at, BlockOf(g, v), InBlock(g, v));
    }
  }

  lemma AllocatedByte(e: Buf, g: Geometry, bat: seq<BatEntry>, b: nat, at: u64, a: nat, i: nat)
    requires g.blockSize > 0 && g.ratio > 0 && DataBatIndex(b, g.ratio) < |bat| && !Present(g, bat, b)
    requires at + g.blockSize <= |e| && e[at..at + g.blockSize] == Zeros(g.blockSize) && i < g.blockSize
    ensures EntryByte(e, g, WithBlock(g, bat, b, at), a, i) == EntryByte(e, g, bat, a, i)
  {
    if a == b {
      assert e[at + i] == e[at..at + g.blockSize][i];
    } else {
      if DataBatIndex(a, g.ratio) == DataBatIndex(b, g.ratio) {
        IndexInjective(a, b, g.ratio);
      }
    }
  }

  // ---- The table on the device ----

  lemma BatOfEntry(d: Buf, st: ReaderState, k: nat)
    requires st.batOffset + |st.bat| * ENTRY_BYTES <= |d| && k < |st.bat|
    ensures |BatOf(d, st)| == |st.bat| && BatOf(d, st)[k] == FromU64(ReadU64(d, st.batOffset + k * ENTRY_BYTES))
  {
    hide FromU64, LeNat;
    SubSlice(d, st.batOffset, st.batOffset + |st.bat| * ENTRY_BYTES, k * ENTRY_BYTES, k * ENTRY_BYTES + 8);
  }

  lemma BatOfLength(d: Buf, st: ReaderState)
    requires st.batOffset + |st.bat| * ENTRY_BYTES <= |d|
    ensures |BatOf(d, st)| == |st.bat|
  {
  }

  lemma BatOfFrame(d: Buf, e: Buf, st: ReaderState, t: ReaderState)
    requires st.batOffset + |st.bat| * ENTRY_BYTES <= |d| && st.batOffset + |st.bat| * ENTRY_BYTES <= |e|
    requires e[st.batOffset..st.batOffset + |st.bat| * ENTRY_BYTES]
      == d[st.batOffset..st.batOffset + |st.bat| * ENTRY_BYTES]
    requires t.batOffset == st.batOffset && |t.bat| == |st.bat|
    ensures BatOf(e, t) == BatOf(d, st)
  {
  }

  /** Publishing the spliced sector over any device that has the rest of the table. */
  lemma BatPublished(d: Buf, wide: Buf, e: Buf, st: ReaderState, off: nat, index: nat, at: u64, sector: Sector)
    requires st.batOffset + |st.bat| * ENTRY_BYTES <= |d| <= |wide| == |e| && index < |st.bat|
    requires BatOf(d, st) == st.bat && at % ONE_MIB == 0 && at < TWO64 - ONE_MIB
    requires off <= st.batOffset + index * ENTRY_BYTES && st.batOffset + index * ENTRY_BYTES + 8 <= off + SECTOR <= |e|
    requires sector == Splice(wide[off..off + SECTOR], st.batOffset + index * ENTRY_BYTES - off, Le(PresentAt(at), 8))
    requires wide[..|d|] == d
    requires forall i :: st.batOffset <= i < st.batOffset + |st.bat| * ENTRY_BYTES && !(off <= i < off + SECTOR) ==>
      e[i] == d[i]
    ensures BatOf(Splice(e, off, sector), st) == st.bat[index := BatEntry(FullyPresent, at)]
  {
    hide FromU64, PresentAt, DecodeBat, LeNat, Le, Splice, BatOf, ReadU64;
    var f := Splice(e, off, sector);
    BatOfLength(f, st);
    forall k | 0 <= k < |st.bat|
      ensures BatOf(f, st)[k] == st.bat[index := BatEntry(FullyPresent, at)][k]
    {
      var lo := st.batOffset + k * ENTRY_BYTES;
      BatOfEntry(f, st, k);
      BatOfEntry(d, st, k);
      if k == index {
        PublishedEntry(wide, e, off, lo, PresentAt(at), sector);
        PresentRoundTrip(at);
      } else {
        KeptEntry(d, wide, e, off, lo, st.batOffset + index * ENTRY_BYTES, PresentAt(at), sector);
      }
    }
  }

  lemma PublishedEntry(wide: Buf, e: Buf, off: nat, lo: nat, raw: u64, sector: Sector)
    requires off <= lo && lo + 8 <= off + SECTOR <= |wide| == |e|
    requires sector == Splice(wide[off..off + SECTOR], lo - off, Le(raw, 8))
    ensures ReadU64(Splice(e, off, sector), lo) == raw
  {
    var f := Splice(e, off, sector);
    SpliceInside(wide[off..off + SECTOR], lo - off, Le(raw, 8));
    SpliceInside(e, off, sector);
    hide Splice, Le, LeNat;
    SubSlice(f, off, off + SECTOR, lo - off, lo - off + 8);
    ReadsLe64(f, lo, raw);
  }

  lemma KeptEntry(d: Buf, wide: Buf, e: Buf, off: nat, lo: nat, at: nat, raw: u64, sector: Sector)
    requires lo + 8 <= |d| <= |wide| == |e| && wide[..|d|] == d && (lo + 8 <= at || at + 8 <= lo)
    requires off <= at && at + 8 <= off + SECTOR <= |e|
    requires sector == Splice(wide[off..off + SECTOR], at - off, Le(raw, 8))
    requires forall i :: lo <= i < lo + 8 && !(off <= i < off + SECTOR) ==> e[i] == d[i]
    ensures ReadU64(Splice(e, off, sector), lo) == ReadU64(d, lo)
  {
    var f := Splice(e, off, sector);
    hide Splice, Le, LeNat;
    forall i | lo <= i < lo + 8
      ensures f[i] == d[i]
    {
      SpliceAt(e, off, sector, i);
      if off <= i < off + SECTOR {
        SpliceAt(wide[off..off + SECTOR], at - off, Le(raw, 8), i - off);
        assert wide[off..off + SECTOR][i - off] == wide[i] == wide[..|d|][i];
      }
    }
    assert f[lo..lo + 8] == d[lo..lo + 8];
  }
}
