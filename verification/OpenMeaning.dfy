/** When opening succeeds, and what the reader it gives is, said of the bytes of the file,
    the decoders and the conditions of the format alone. */
module OpenMeaning {
  import opened Bytes
  import opened LogReplay
  import opened Devices
  import opened Headers
  import opened Bat
  import opened Open
  import opened Layouts
  import opened EntryLayout
  import opened Translation

  // ---- Which region table ----

  ghost predicate TableAt(d: Buf, off: nat, dec: Decoders, rt: RegionTable) {
    off + 0x1_0000 <= |d| && dec.table(d[off..off + 0x1_0000]) == Some(rt)
  }

  /** The copy at 192 KiB if it decodes, and otherwise the one at 256 KiB. */
  ghost predicate InUse(d: Buf, dec: Decoders, rt: RegionTable) {
    TableAt(d, 0x3_0000, dec, rt) || ((forall r :: !TableAt(d, 0x3_0000, dec, r)) && TableAt(d, 0x4_0000, dec, rt))
  }

  lemma TablePicked(d: Buf, dec: Decoders, rt: RegionTable)
    ensures PickTable(d, dec) == Ok(rt) <==> InUse(d, dec, rt)
    ensures PickTable(d, dec) == Err(NoValidRegionTable)
      <==> forall r :: !TableAt(d, 0x3_0000, dec, r) && !TableAt(d, 0x4_0000, dec, r)
    ensures PickTable(d, dec).Err? ==> PickTable(d, dec) == Err(NoValidRegionTable)
  {
    forall off: nat, r | off == 0x3_0000 || off == 0x4_0000
      ensures TableAt(d, off, dec, r) <==> ProbeTable(d, off, dec) == Some(r)
    {
    }
    if ProbeTable(d, 0x3_0000, dec).Some? {
      assert TableAt(d, 0x3_0000, dec, ProbeTable(d, 0x3_0000, dec).value);
    }
    if ProbeTable(d, 0x4_0000, dec).Some? {
      assert TableAt(d, 0x4_0000, dec, ProbeTable(d, 0x4_0000, dec).value);
    }
  }

  /** `r` is the first region of its kind. */
  ghost predicate FirstOf(rt: RegionTable, kind: RegionKind, r: Region) {
    exists i :: 0 <= i < |rt| && rt[i] == r && r.kind == kind && forall j :: 0 <= j < i ==> rt[j].kind != kind
  }

  lemma {:induction false} FoundFirst(rt: RegionTable, kind: RegionKind, i: nat)
    requires i < |rt| && rt[i].kind == kind && forall j :: 0 <= j < i ==> rt[j].kind != kind
    ensures Find(rt, kind) == Some(rt[i])
  {
    if i > 0 {
      assert rt[0].kind != kind;
      FoundFirst(rt[1..], kind, i - 1);
    }
  }

  lemma {:induction false} FirstFound(rt: RegionTable, kind: RegionKind) returns (i: nat)
    requires Find(rt, kind).Some?
    ensures i < |rt| && Find(rt, kind) == Some(rt[i]) && rt[i].kind == kind
    ensures forall j :: 0 <= j < i ==> rt[j].kind != kind
  {
    if rt[0].kind == kind {
      i := 0;
    } else {
      var k := FirstFound(rt[1..], kind);
      i := k + 1;
      assert forall j :: 0 < j < i ==> rt[j] == rt[1..][j - 1];
    }
  }

  lemma FindExactly(rt: RegionTable, kind: RegionKind, r: Region)
    ensures Find(rt, kind) == Some(r) <==> FirstOf(rt, kind, r)
    ensures Find(rt, kind) == None <==> forall x :: x in rt ==> x.kind != kind
  {
    if Find(rt, kind).Some? {
      var i := FirstFound(rt, kind);
    }
    if FirstOf(rt, kind, r) {
      var i :| 0 <= i < |rt| && rt[i] == r && r.kind == kind && forall j :: 0 <= j < i ==> rt[j].kind != kind;
      FoundFirst(rt, kind, i);
    }
    if Find(rt, kind) == None {
      forall x | x in rt
        ensures x.kind != kind
      {
        var i :| 0 <= i < |rt| && rt[i] == x;
        if x.kind == kind {
          var k := LeastOf(rt, kind, i);
          FoundFirst(rt, kind, k);
        }
      }
    }
  }

  lemma {:induction false} LeastOf(rt: RegionTable, kind: RegionKind, i: nat) returns (k: nat)
    requires i < |rt| && rt[i].kind == kind
    ensures k <= i && rt[k].kind == kind && forall j :: 0 <= j < k ==> rt[j].kind != kind
  {
    if j :| 0 <= j < i && rt[j].kind == kind {
      k := LeastOf(rt, kind, j);
    } else {
      k := i;
    }
  }

  // ---- What the log and the regions must be ----

  /** There is no log, or it is whole megabytes past the first, inside the file. */
  predicate LogInFile(size: nat, h: Header) {
    h.logLength == 0
    || (h.logOffset % 0x10_0000 == 0 && h.logLength % 0x10_0000 == 0 && h.logOffset >= 0x10_0000
        && h.logOffset + h.logLength <= size)
  }

  /** And none of the regions begins before its end and ends after its beginning. */
  ghost predicate LogApart(rt: RegionTable, h: Header) {
    h.logLength == 0
    || forall r :: r in rt ==> r.offset + r.length <= h.logOffset || h.logOffset + h.logLength <= r.offset
  }

  lemma ApartExactly(size: nat, rt: RegionTable, h: Header)
    requires LogInFile(size, h) && size < 0x8000_0000_0000_0000
    ensures LogClear(rt, h) <==> LogApart(rt, h)
  {
    if h.logLength > 0 {
      forall r | r in rt
        ensures LogClearOf(r, h) <==> r.offset + r.length <= h.logOffset || h.logOffset + h.logLength <= r.offset
      {
      }
    }
  }

  /** No region of a kind that is not known is marked required. */
  ghost predicate AllKnown(rt: RegionTable) {
    forall r :: r in rt && r.required ==> r.kind.BatRegion? || r.kind.MetadataRegion?
  }

  // ---- What the metadata must say ----

  /** A block of 1 to 256 MiB, a power of two; sectors of 512 or 4096 bytes; no parent; no
      required item that is not known. */
  predicate Supported(m: Metadata) {
    (exists k: nat :: k <= 8 && Doubled(m.blockSize, k)) && (m.sectorSize == 512 || m.sectorSize == 4096)
    && !m.hasParent && !m.unknownRequired
  }

  function TwoTo(k: nat): nat {
    if k == 0 then 1 else 2 * TwoTo(k - 1)
  }

  /** A megabyte doubled `k` times. */
  predicate Doubled(n: nat, k: nat) { n == 0x10_0000 * TwoTo(k) }

  lemma TwoTos()
    ensures TwoTo(0) == 1 && TwoTo(1) == 2 && TwoTo(2) == 4 && TwoTo(3) == 8 && TwoTo(4) == 16
    ensures TwoTo(5) == 32 && TwoTo(6) == 64 && TwoTo(7) == 128 && TwoTo(8) == 256
  {
    assert TwoTo(4) == 2 * TwoTo(3) && TwoTo(6) == 2 * TwoTo(5) && TwoTo(8) == 2 * TwoTo(7);
  }

  lemma NineSizes(n: nat)
    ensures LegalBlockSize(n) <==> exists k: nat :: k <= 8 && Doubled(n, k)
  {
    TwoTos();
    hide TwoTo;
    if LegalBlockSize(n) {
      assert Doubled(n, 0) || Doubled(n, 1) || Doubled(n, 2) || Doubled(n, 3) || Doubled(n, 4) || Doubled(n, 5)
        || Doubled(n, 6) || Doubled(n, 7) || Doubled(n, 8);
    }
    if k: nat :| k <= 8 && Doubled(n, k) {
      assert k == 0 || k == 1 || k == 2 || k == 3 || k == 4 || k == 5 || k == 6 || k == 7 || k == 8;
    }
  }

  /** The geometry of that metadata: its own sizes, and a chunk of 2^23 sectors. */
  predicate GeometryOf(m: Metadata, g: Geometry) {
    g.blockSize == m.blockSize && g.sectorSize == m.sectorSize && g.virtualSize == m.virtualSize
    && g.ratio * g.blockSize == 0x80_0000 * g.sectorSize
  }

  lemma OneRatio(a: nat, b: nat, n: nat)
    requires n > 0 && a * n == b * n
    ensures a == b
  {
    DivModUnique(a * n, n, a, 0);
    DivModUnique(b * n, n, b, 0);
  }

  lemma GeometryExactly(m: Metadata, g: Geometry)
    ensures CheckGeometry(m) == Ok(g) <==> Supported(m) && GeometryOf(m, g)
    ensures CheckGeometry(m).Err? ==>
      CheckGeometry(m).error == if LegalBlockSize(m.blockSize) && LegalSectorSize(m.sectorSize) then Unsupported
        else Corrupt
  {
    hide IsPowerOfTwo, LegalBlockSize, ChunkRatio, Doubled;
    LegalSizes(m.blockSize);
    NineSizes(m.blockSize);
    if LegalBlockSize(m.blockSize) && LegalSectorSize(m.sectorSize) {
      LegalIsPositive(m.blockSize);
      ChunkIsSectors(m.blockSize, m.sectorSize);
      if GeometryOf(m, g) {
        OneRatio(g.ratio, ChunkRatio(m.blockSize, m.sectorSize), m.blockSize);
      }
    }
  }

  lemma LegalIsPositive(n: nat)
    requires LegalBlockSize(n)
    ensures n > 0
  {
  }

  // ---- Loading ----

  /** `e` is what the number says. */
  predicate EntrySays(raw: u64, e: BatEntry) {
    e.fileOffset == raw - raw % 0x10_0000
    && match e.state
       case NotPresent => raw % 8 == 0
       case Undefined => raw % 8 == 1
       case Zero => raw % 8 == 2
       case Unmapped => raw % 8 == 3
       case FullyPresent => raw % 8 == 6
       case PartiallyPresent => raw % 8 == 7
       case Reserved(v) => raw % 8 == v && (v == 4 || v == 5)
  }

  lemma EntryExactly(raw: u64, e: BatEntry)
    ensures FromU64(raw) == e <==> EntrySays(raw, e)
  {
    RawEntry(raw);
    hide FromU64;
  }

  /** A table of `n` entries: as many as the last byte of the disk asks for, in a region of
      whole entries that holds them. */
  predicate Enough(g: Geometry, r: Region, n: nat)
    requires g.blockSize > 0 && g.sectorSize > 0
  {
    r.length % 8 == 0 && 8 * n <= r.length
    && n == if g.virtualSize == 0 then 0 else EntryIndex(g, g.virtualSize - 1) + 1
  }

  lemma EnoughExactly(g: Geometry, r: Region, n: nat)
    requires LegalGeometry(g)
    ensures g.blockSize > 0 && g.sectorSize > 0 && g.ratio > 0
    ensures RequiredEntries(r.length, g.virtualSize, g.blockSize, g.ratio) == Ok(n) <==> Enough(g, r, n)
    ensures RequiredEntries(r.length, g.virtualSize, g.blockSize, g.ratio).Err? ==>
      RequiredEntries(r.length, g.virtualSize, g.blockSize, g.ratio).error == Corrupt
  {
    LegalChunk(g);
    if g.virtualSize > 0 {
      IndexOfByte(g, g.virtualSize - 1);
    }
    hide DataBatIndex, EntryIndex, LegalGeometry;
  }

  ghost predicate Reads(d: Buf, m: Region, dec: Decoders, md: Metadata) {
    m.offset + m.length <= |d| && dec.metadata(d[m.offset..m.offset + m.length]) == Some(md)
  }

  /** The table of `st` is what the first `|st.bat|` numbers from `off` on say. */
  ghost predicate TableSays(d: Buf, off: nat, st: ReaderState) {
    off + 8 * |st.bat| <= |d| && forall i :: 0 <= i < |st.bat| ==> EntrySays(ReadU64(d, off + 8 * i), st.bat[i])
  }

  /** `st` is the reader of the file `d` whose region table is `rt`: its sizes are those the
      metadata gives, which are supported, and its table the entries the disk needs. */
  ghost predicate LoadsAs(d: Buf, rt: RegionTable, dec: Decoders, st: ReaderState) {
    st.devSize == |d| && st.geometry.blockSize > 0 && st.geometry.sectorSize > 0
    && exists m, md, r ::
         FirstOf(rt, MetadataRegion, m) && Reads(d, m, dec, md) && Supported(md) && GeometryOf(md, st.geometry)
         && FirstOf(rt, BatRegion, r) && r.offset + r.length <= |d| && r.offset == st.batOffset
         && Enough(st.geometry, r, |st.bat|) && TableSays(d, r.offset, st)
  }

  lemma TableSaysExactly(d: Buf, off: nat, st: ReaderState)
    requires off + 8 * |st.bat| <= |d|
    ensures st.bat == DecodeBat(d[off..off + |st.bat| * ENTRY_BYTES], |st.bat|) <==> TableSays(d, off, st)
  {
    hide LeNat, FromU64, EntrySays;
    var bytes := d[off..off + |st.bat| * ENTRY_BYTES];
    forall i | 0 <= i < |st.bat|
      ensures DecodeBat(bytes, |st.bat|)[i] == st.bat[i] <==> EntrySays(ReadU64(d, off + 8 * i), st.bat[i])
    {
      EntryExactly(ReadU64(d, off + 8 * i), st.bat[i]);
      SubSlice(d, off, off + |st.bat| * ENTRY_BYTES, i * ENTRY_BYTES, i * ENTRY_BYTES + 8);
    }
  }

  /** Loading gives that reader, and no other. */
  lemma LoadExactly(d: Buf, h: Header, slot: Slot, rt: RegionTable, w: bool, dec: Decoders, st: ReaderState)
    ensures Load(d, h, slot, rt, w, dec) == Ok(st)
      <==> LoadsAs(d, rt, dec, st) && st.header == h && st.slot == slot && st.writable == w
  {
    hide FirstOf, Supported, GeometryOf, Enough, TableSays, RequiredEntries, CheckGeometry, DecodeBat, LegalGeometry;
    if Load(d, h, slot, rt, w, dec) == Ok(st) {
      LoadedAs(d, h, slot, rt, w, dec, st);
    }
    if LoadsAs(d, rt, dec, st) && st.header == h && st.slot == slot && st.writable == w {
      var m, md, r :|
        FirstOf(rt, MetadataRegion, m) && Reads(d, m, dec, md) && Supported(md) && GeometryOf(md, st.geometry)
        && FirstOf(rt, BatRegion, r) && r.offset + r.length <= |d| && r.offset == st.batOffset
        && Enough(st.geometry, r, |st.bat|) && TableSays(d, r.offset, st);
      AsLoaded(d, rt, w, dec, st, m, md, r);
    }
  }

  lemma LoadedMetadata(d: Buf, h: Header, slot: Slot, rt: RegionTable, w: bool, dec: Decoders, st: ReaderState)
    returns (m: Region, md: Metadata)
    requires Load(d, h, slot, rt, w, dec) == Ok(st)
    ensures Find(rt, MetadataRegion) == Some(m) && Reads(d, m, dec, md) && CheckGeometry(md) == Ok(st.geometry)
  {
    hide RequiredEntries, CheckGeometry, LegalGeometry, Find, LoadBat;
    m := Find(rt, MetadataRegion).value;
    md := dec.metadata(d[m.offset..m.offset + m.length]).value;
  }

  lemma LoadedBat(d: Buf, h: Header, slot: Slot, rt: RegionTable, w: bool, dec: Decoders, st: ReaderState)
    returns (r: Region)
    requires Load(d, h, slot, rt, w, dec) == Ok(st)
    ensures Find(rt, BatRegion) == Some(r) && r.offset + r.length <= |d| && LegalGeometry(st.geometry)
    ensures st.geometry.blockSize > 0 && st.geometry.ratio > 0
    ensures RequiredEntries(r.length, st.geometry.virtualSize, st.geometry.blockSize, st.geometry.ratio) == Ok(|st.bat|)
    ensures st.batOffset == r.offset && st.devSize == |d| && st.header == h && st.slot == slot && st.writable == w
    ensures r.offset + 8 * |st.bat| <= |d|
    ensures st.bat == DecodeBat(d[r.offset..r.offset + |st.bat| * ENTRY_BYTES], |st.bat|)
  {
    GeometryIsChecked(d, rt, dec);
    hide RequiredEntries, LoadGeometry, DecodeBat, LegalGeometry, Find, LoadBat;
    r := Find(rt, BatRegion).value;
    var g := st.geometry;
    EnoughExactly(g, r, |st.bat|);
    LoadBatIs(d, r, g, RequiredEntries(r.length, g.virtualSize, g.blockSize, g.ratio).value);
  }

  lemma LoadBatIs(d: Buf, r: Region, g: Geometry, n: nat)
    requires r.offset + r.length <= |d| && LegalGeometry(g) && g.blockSize > 0 && g.ratio > 0
    requires RequiredEntries(r.length, g.virtualSize, g.blockSize, g.ratio) == Ok(n)
    ensures r.offset + 8 * n <= |d| && LoadBat(d, r, g, n) == DecodeBat(d[r.offset..r.offset + n * ENTRY_BYTES], n)
  {
    CoverageIsTight(r.length, g.virtualSize, g.blockSize, g.ratio);
    hide RequiredEntries, LegalGeometry, DecodeBat;
  }

  lemma LoadedAs(d: Buf, h: Header, slot: Slot, rt: RegionTable, w: bool, dec: Decoders, st: ReaderState)
    requires Load(d, h, slot, rt, w, dec) == Ok(st)
    ensures LoadsAs(d, rt, dec, st) && st.header == h && st.slot == slot && st.writable == w
  {
    hide FirstOf, Supported, GeometryOf, Enough, TableSays, RequiredEntries, CheckGeometry, DecodeBat, LegalGeometry,
      Find, Load, Reads;
    var m, md := LoadedMetadata(d, h, slot, rt, w, dec, st);
    var r := LoadedBat(d, h, slot, rt, w, dec, st);
    FindExactly(rt, MetadataRegion, m);
    FindExactly(rt, BatRegion, r);
    GeometryExactly(md, st.geometry);
    EnoughExactly(st.geometry, r, |st.bat|);
    TableSaysExactly(d, r.offset, st);
  }

  lemma GeometryIsChecked(d: Buf, rt: RegionTable, dec: Decoders)
    requires LoadGeometry(d, rt, dec).Ok?
    ensures LegalGeometry(LoadGeometry(d, rt, dec).value)
  {
    hide LegalGeometry;
  }

  lemma EnoughFits(g: Geometry, r: Region, n: nat)
    requires g.blockSize > 0 && g.sectorSize > 0 && Enough(g, r, n)
    ensures 8 * n <= r.length
  {
  }

  lemma AsLoaded(d: Buf, rt: RegionTable, w: bool, dec: Decoders, st: ReaderState, m: Region, md: Metadata, r: Region)
    requires st.devSize == |d| && st.geometry.blockSize > 0 && st.geometry.sectorSize > 0
    requires FirstOf(rt, MetadataRegion, m) && Reads(d, m, dec, md) && Supported(md) && GeometryOf(md, st.geometry)
    requires FirstOf(rt, BatRegion, r) && r.offset + r.length <= |d| && r.offset == st.batOffset
    requires Enough(st.geometry, r, |st.bat|) && TableSays(d, r.offset, st)
    ensures Load(d, st.header, st.slot, rt, w, dec) == Ok(st.(writable := w))
  {
    hide FirstOf, Supported, GeometryOf, Enough, TableSays, RequiredEntries, DecodeBat, LegalGeometry, Find;
    FindExactly(rt, MetadataRegion, m);
    FindExactly(rt, BatRegion, r);
    GeometryExactly(md, st.geometry);
    assert LegalGeometry(st.geometry);
    hide CheckGeometry;
    EnoughExactly(st.geometry, r, |st.bat|);
    EnoughFits(st.geometry, r, |st.bat|);
    TableSaysExactly(d, r.offset, st);
  }

  // ---- Opening ----

  /** What the file must be for an open to come as far as its log. */
  ghost predicate Entered(d: Buf, dec: Decoders, h: Header, slot: Slot) {
    |d| >= 8 && d[0..8] == Ascii("vhdxfile") && Current(d, h, slot) && h.logVersion == 0 && LogInFile(|d|, h)
    && exists rt :: InUse(d, dec, rt) && LogApart(rt, h)
  }

  lemma IdentifierLetters()
    ensures IDENTIFIER == Ascii("vhdxfile")
  {
  }

  lemma GatesExactly(d: Buf, dec: Decoders, capable: bool, g: Gate)
    requires |d| < 0x8000_0000_0000_0000
    ensures Gates(d, capable, dec) == Ok(g)
      <==> Entered(d, dec, g.header, g.slot) && Pending(d, g.header) == Ok(g.chain) && (g.chain == [] || capable)
  {
    hide PickHeader, PickTable, Pending, Current, InUse, LogClear, LogApart;
    IdentifierLetters();
    var h, slot := g.header, g.slot;
    PickExactly(d, h, slot);
    if |d| >= 8 {
      assert d[..8] == d[0..8];
    }
    if Gates(d, capable, dec) == Ok(g) {
      GateFacts(d, capable, dec);
      var rt := PickTable(d, dec).value;
      TablePicked(d, dec, rt);
      ApartExactly(|d|, rt, h);
      assert Entered(d, dec, h, slot);
    }
    if Entered(d, dec, h, slot) {
      var rt :| InUse(d, dec, rt) && LogApart(rt, h);
      TablePicked(d, dec, rt);
      ApartExactly(|d|, rt, h);
      assert PickHeader(d) == Ok((h, slot)) && LogRegionValid(|d|, h) && LogClear(PickTable(d, dec).value, h);
      assert d[..8] == IDENTIFIER;
      assert Pending(d, h) == Ok(g.chain) && (g.chain == [] || capable) ==> Gates(d, capable, dec) == Ok(g);
    }
  }

  /** What the region table must be for an open to go on with it. */
  ghost predicate Settled(d: Buf, dec: Decoders, h: Header, rt: RegionTable) {
    InUse(d, dec, rt) && AllKnown(rt) && LogApart(rt, h)
  }

  lemma SettleExactly(d: Buf, size: nat, dec: Decoders, h: Header, rt: RegionTable)
    requires LogInFile(size, h) && size < 0x8000_0000_0000_0000
    ensures Settle(d, h, dec) == Ok(rt) <==> Settled(d, dec, h, rt)
  {
    hide PickTable, InUse, LogClear, LogApart, LogInFile;
    TablePicked(d, dec, rt);
    ApartExactly(size, rt, h);
    KnownExactly(rt);
    hide UnknownRequired, AllKnown;
  }

  lemma KnownExactly(rt: RegionTable)
    ensures UnknownRequired(rt) <==> !AllKnown(rt)
  {
  }

  /** An open with nothing to replay succeeds exactly when the file is a VHDX the reader
      supports, and gives exactly the reader of its header, its tables and its metadata. */
  lemma OpensExactly(d: Buf, capacity: nat, w: bool, capable: bool, dec: Decoders, st: ReaderState)
    requires |d| < 0x8000_0000_0000_0000
    ensures OpenRun(d, capacity, w, capable, dec) == Opened([], Ok(st))
      <==> Entered(d, dec, st.header, st.slot) && Pending(d, st.header) == Ok([])
           && (exists rt :: Settled(d, dec, st.header, rt) && LoadsAs(d, rt, dec, st)) && st.writable == w
  {
    hide Gates, Settle, Load, Replay, Pending, LoadsAs, Settled, AfterReplay, Entered;
    var g := Gate(st.header, st.slot, []);
    GatesExactly(d, dec, capable, g);
    forall rt
      ensures Load(d, st.header, st.slot, rt, w, dec) == Ok(st) <==> LoadsAs(d, rt, dec, st) && st.writable == w
    {
      LoadExactly(d, st.header, st.slot, rt, w, dec, st);
    }
    if OpenRun(d, capacity, w, capable, dec) == Opened([], Ok(st)) {
      QuietGate(d, capacity, w, capable, dec, st);
      EnteredLog(d, dec, st.header, st.slot);
      SettleExactly(d, |d|, dec, st.header, Settle(d, st.header, dec).value);
    } else if Entered(d, dec, st.header, st.slot) && Pending(d, st.header) == Ok([]) && st.writable == w {
      if rt :| Settled(d, dec, st.header, rt) && LoadsAs(d, rt, dec, st) {
        EnteredLog(d, dec, st.header, st.slot);
        SettleExactly(d, |d|, dec, st.header, rt);
      }
    }
  }

  lemma EnteredLog(d: Buf, dec: Decoders, h: Header, slot: Slot)
    requires Entered(d, dec, h, slot)
    ensures LogInFile(|d|, h)
  {
  }

  lemma QuietGate(d: Buf, capacity: nat, w: bool, capable: bool, dec: Decoders, st: ReaderState)
    requires |d| < TWO64 && OpenRun(d, capacity, w, capable, dec) == Opened([], Ok(st))
    ensures Gates(d, capable, dec) == Ok(Gate(st.header, st.slot, [])) && Settle(d, st.header, dec).Ok?
    ensures Load(d, st.header, st.slot, Settle(d, st.header, dec).value, w, dec) == Ok(st)
  {
    hide Gates, Settle, LoadGeometry, LoadBat, RequiredEntries, Replay;
    var g := Gates(d, capable, dec).value;
    if g.chain != [] && Replay(|d|, capacity, g.chain).result.Ok? {
      ClearIsSomething(g.header, g.slot);
      assert false;
    }
  }

  lemma ClearIsSomething(h: Header, slot: Slot)
    ensures ClearOps(h, slot) != []
  {
  }

  // ---- After a replay ----

  /** How a replayed log is marked consumed: the log is zeros, the other slot holds the
      header with the next number and no log GUID, and nothing else has changed. */
  lemma ClearedMeans(d: Buf, h: Header, slot: Slot)
    requires h.logOffset >= 0x10_0000 && h.logOffset + h.logLength <= |d| && |d| >= 0x20_0000 && h.version == 1
    ensures var e, k, off := Cleared(d, h, slot), ClearedHeader(h), if slot.One? then 0x2_0000 else 0x1_0000;
      |e| == |d| && (forall i :: h.logOffset <= i < h.logOffset + h.logLength ==> e[i] == 0)
      && SlotHolds(e, off, k)
      && (forall i :: 0 <= i < |d| && !(h.logOffset <= i < h.logOffset + h.logLength) && !(off <= i < off + 4096) ==>
            e[i] == d[i])
      && k.sequence == (if h.sequence == 0xFFFF_FFFF_FFFF_FFFF then 0 else h.sequence + 1) && k.logGuid == Zeros(16)
      && k.fileWriteGuid == h.fileWriteGuid && k.dataWriteGuid == h.dataWriteGuid && k.logVersion == h.logVersion
      && k.version == 1 && k.logLength == h.logLength && k.logOffset == h.logOffset
  {
    hide Splice, EncodedHeader, HeaderBytes, Zeros, ParseHeader;
    var k, off := ClearedHeader(h), slot.Other().Offset();
    var d1 := Splice(d, h.logOffset, Zeros(h.logLength));
    var enc := EncodedHeader(k);
    HeaderRoundTrip(k);
    HeaderExactly(enc, k);
    SpliceInside(d1, off, enc);
    forall i | 0 <= i < |d|
      ensures Cleared(d, h, slot)[i] == if off <= i < off + 4096 then enc[i - off]
                                        else if h.logOffset <= i < h.logOffset + h.logLength then 0 else d[i]
    {
      SpliceAt(d, h.logOffset, Zeros(h.logLength), i);
      SpliceAt(d1, off, enc, i);
      ZeroThere(h.logLength, i - h.logOffset);
    }
  }

  /** And with which writes: the log a megabyte at a time, then the header, each flushed. */
  lemma ConsumedSteps(h: Header, slot: Slot) returns (bytes: Buf)
    requires h.version == 1
    ensures ClearOps(h, slot) == Megabytes(h.logOffset, h.logLength)
                                 + [Flush, Write(if slot.One? then 0x2_0000 else 0x1_0000, bytes), Flush]
    ensures |bytes| == 4096 && HeaderBytes(bytes, ClearedHeader(h))
  {
    hide EncodedHeader, HeaderBytes, ZeroOps, Megabytes, ParseHeader;
    var k := ClearedHeader(h);
    bytes := EncodedHeader(k);
    HeaderRoundTrip(k);
    HeaderExactly(bytes, k);
    ZeroIsMegabytes(h.logOffset, h.logLength);
    var z, w := ZeroOps(h.logOffset, h.logLength), Write(slot.Other().Offset(), bytes);
    assert z + [Flush] + [w, Flush] == z + [Flush, w, Flush];
  }

  lemma ZeroThere(n: nat, i: int)
    ensures 0 <= i < n ==> Zeros(n)[i] == 0
  {
  }

  /** An open that has a chain to replay succeeds exactly when the chain goes on, the region
      table that then stands is one to go on with, and the cleared file loads. */
  lemma ReplaysExactly(d: Buf, capacity: nat, w: bool, dec: Decoders, g: Gate, st: ReaderState)
    requires |d| <= capacity < 0x8000_0000_0000_0000 && g.chain != []
    requires Entered(d, dec, g.header, g.slot) && Pending(d, g.header) == Ok(g.chain)
    ensures var done := Replay(|d|, capacity, g.chain);
      var o, d1, h := OpenRun(d, capacity, w, true, dec), RunOps(d, done.ops), g.header;
      h.logOffset + h.logLength <= |d1| && |d1| >= 0x20_0000
      && (o.result == Ok(st)
          <==> done.result.Ok? && (exists rt :: Settled(d1, dec, h, rt) && LoadsAs(Cleared(d1, h, g.slot), rt, dec, st))
               && st.header == ClearedHeader(h) && st.slot == g.slot.Other() && st.writable == w)
      && (o.result == Ok(st) ==>
            o.ops == done.ops + ClearOps(h, g.slot) && RunOps(d, o.ops) == Cleared(d1, h, g.slot))
  {
    hide OpenRun, Gates, Settle, Load, Replay, RunOps, Pending, LoadsAs, Settled, AfterReplay, Entered, ClearOps,
      Cleared, AllowedExtent;
    GatesExactly(d, dec, true, g);
    EnteredLog(d, dec, g.header, g.slot);
    var h, done := g.header, Replay(|d|, capacity, g.chain);
    var d1 := RunOps(d, done.ops);
    ReplayMeaning(d, capacity, g.chain);
    ExtentIsLength(d, g.chain);
    ChainMeansLog(d, h);
    ReplayingResult(d, capacity, w, dec, g);
    ClearRun(d1, h, g.slot);
    RunConcat(d, done.ops, ClearOps(h, g.slot));
    forall rt
      ensures Settle(d1, h, dec) == Ok(rt) <==> Settled(d1, dec, h, rt)
    {
      SettleExactly(d1, |d|, dec, h, rt);
    }
    forall rt
      ensures Load(Cleared(d1, h, g.slot), ClearedHeader(h), g.slot.Other(), rt, w, dec) == Ok(st)
        <==> LoadsAs(Cleared(d1, h, g.slot), rt, dec, st) && st.header == ClearedHeader(h) && st.slot == g.slot.Other()
             && st.writable == w
    {
      LoadExactly(Cleared(d1, h, g.slot), ClearedHeader(h), g.slot.Other(), rt, w, dec, st);
    }
  }

  lemma ChainMeansLog(d: Buf, h: Header)
    requires Pending(d, h).Ok? && Pending(d, h).value != [] && LogInFile(|d|, h)
    ensures h.logLength > 0 && h.logOffset + h.logLength <= |d| && |d| >= 0x20_0000
  {
  }

  lemma ReplayingResult(d: Buf, capacity: nat, w: bool, dec: Decoders, g: Gate)
    requires |d| < TWO64 && Gates(d, true, dec) == Ok(g) && g.chain != []
    ensures var done := Replay(|d|, capacity, g.chain);
      var o, d1 := OpenRun(d, capacity, w, true, dec), RunOps(d, done.ops);
      if done.result.Err? then o == Opened([], Err(LogReplay))
      else
        match Settle(d1, g.header, dec)
        case Err(e) => o == Opened(done.ops, Err(e))
        case Ok(rt) =>
          o == Opened(done.ops + ClearOps(g.header, g.slot),
                      Load(RunOps(d1, ClearOps(g.header, g.slot)), ClearedHeader(g.header), g.slot.Other(), rt, w, dec))
  {
    hide Gates, Settle, Load, Replay, RunOps, ClearOps;
    var done := Replay(|d|, capacity, g.chain);
    assert done.ops + [] == done.ops;
  }

  // ---- Refusals ----

  /** Whatever is wrong with what is read before the log, in the order it is looked at; and
      the log's own refusals. Nothing has been written. */
  lemma GateRefusals(d: Buf, capacity: nat, w: bool, capable: bool, dec: Decoders, h: Header, slot: Slot,
                     rt: RegionTable)
    requires |d| < 0x8000_0000_0000_0000
    ensures var o := OpenRun(d, capacity, w, capable, dec);
      if |d| < 8 then o == Opened([], Err(Io))
      else if d[0..8] != Ascii("vhdxfile") then o == Opened([], Err(NotVhdx))
      else if forall k :: !SlotHolds(d, 0x1_0000, k) && !SlotHolds(d, 0x2_0000, k)
        then o == Opened([], Err(NoValidHeader))
      else
        Current(d, h, slot) ==>
          if h.logVersion != 0 then o == Opened([], Err(Unsupported))
          else if !LogInFile(|d|, h) then o == Opened([], Err(Corrupt))
          else if forall r :: !TableAt(d, 0x3_0000, dec, r) && !TableAt(d, 0x4_0000, dec, r) then
            o == Opened([], Err(NoValidRegionTable))
          else
            InUse(d, dec, rt) ==>
              if !LogApart(rt, h) then o == Opened([], Err(Corrupt))
              else if Pending(d, h).Err? then o == Opened([], Err(Pending(d, h).error))
              else if Pending(d, h).value != [] && !capable then o == Opened([], Err(LogNeedsReplay))
              else Pending(d, h).value == [] && !AllKnown(rt) ==> o == Opened([], Err(Unsupported))
  {
    hide PickHeader, PickTable, Pending, Current, InUse, LogClear, LogApart, SlotHolds, TableAt, OpenRun, Gates,
      AllKnown, LogInFile;
    IdentifierLetters();
    PickExactly(d, h, slot);
    TablePicked(d, dec, rt);
    if LogInFile(|d|, h) {
      ApartExactly(|d|, rt, h);
    }
    KnownExactly(rt);
    SameLogRule(|d|, h);
    if |d| >= 8 {
      assert d[..8] == d[0..8];
    }
    GateLadder(d, capable, dec);
    OpenLadder(d, capacity, w, capable, dec);
  }

  lemma SameLogRule(size: nat, h: Header)
    ensures LogRegionValid(size, h) <==> LogInFile(size, h)
  {
  }

  lemma GateLadder(d: Buf, capable: bool, dec: Decoders)
    ensures var g := Gates(d, capable, dec);
      if |d| < 8 then g == Err(Io)
      else if d[..8] != IDENTIFIER then g == Err(NotVhdx)
      else if PickHeader(d).Err? then g == Err(PickHeader(d).error)
      else
        var h := PickHeader(d).value.0;
        if h.logVersion != 0 then g == Err(Unsupported)
        else if !LogRegionValid(|d|, h) then g == Err(Corrupt)
        else if PickTable(d, dec).Err? then g == Err(PickTable(d, dec).error)
        else if !LogClear(PickTable(d, dec).value, h) then g == Err(Corrupt)
        else if Pending(d, h).Err? then g == Err(Pending(d, h).error)
        else if Pending(d, h).value != [] && !capable then g == Err(LogNeedsReplay)
        else g.Ok? && g.value.header == h && g.value.chain == Pending(d, h).value
  {
    hide PickHeader, PickTable, Pending, LogClear, LogRegionValid;
  }

  lemma OpenLadder(d: Buf, capacity: nat, w: bool, capable: bool, dec: Decoders)
    requires |d| < TWO64
    ensures var g, o := Gates(d, capable, dec), OpenRun(d, capacity, w, capable, dec);
      (g.Err? ==> o == Opened([], Err(g.error)))
      && (g.Ok? && g.value.chain == [] && PickTable(d, dec).Ok? && UnknownRequired(PickTable(d, dec).value) ==>
            o == Opened([], Err(Unsupported)))
  {
    hide Gates, PickTable, LogClear, Load;
  }

  /** And whatever is wrong with what is read after it. */
  lemma LoadRefusals(d: Buf, h: Header, slot: Slot, rt: RegionTable, w: bool, dec: Decoders, m: Region, md: Metadata,
                     r: Region)
    ensures var o := Load(d, h, slot, rt, w, dec);
      if forall x :: x in rt ==> x.kind != MetadataRegion then o == Err(Corrupt)
      else
        FirstOf(rt, MetadataRegion, m) ==>
          if m.offset + m.length > |d| then o == Err(Corrupt)
          else if dec.metadata(d[m.offset..m.offset + m.length]) == None then o == Err(BadMetadata)
          else
            Reads(d, m, dec, md) ==>
              if !Supported(md) then
                o == Err(if (exists k: nat :: k <= 8 && Doubled(md.blockSize, k)) && md.sectorSize in {512, 4096}
                         then Unsupported else Corrupt)
              else if forall x :: x in rt ==> x.kind != BatRegion then o == Err(Corrupt)
              else
                FirstOf(rt, BatRegion, r) ==>
                  r.offset + r.length > |d|
                    || (forall g, n :: GeometryOf(md, g) && g.blockSize > 0 && g.sectorSize > 0 ==>
                                                  !Enough(g, r, n)) ==>
                    o == Err(Corrupt)
  {
    hide FirstOf, Supported, GeometryOf, Enough, RequiredEntries, CheckGeometry, LegalGeometry, LoadBat, Find,
      LegalBlockSize;
    FindExactly(rt, MetadataRegion, m);
    FindExactly(rt, BatRegion, r);
    NineSizes(md.blockSize);
    if Reads(d, m, dec, md) {
      var g := CheckGeometry(md);
      if g.Ok? {
        GeometryExactly(md, g.value);
        EnoughExactly(g.value, r, 0);
        var n := RequiredEntries(r.length, g.value.virtualSize, g.value.blockSize, g.value.ratio);
        if n.Ok? {
          EnoughExactly(g.value, r, n.value);
        }
      } else {
        GeometryExactly(md, Geometry(md.blockSize, md.sectorSize, md.virtualSize, 0));
        UnsupportedIsRefused(md);
      }
    }
  }

  lemma UnsupportedIsRefused(md: Metadata)
    requires CheckGeometry(md).Err?
    ensures !Supported(md)
  {
    hide LegalBlockSize, IsPowerOfTwo, Doubled;
    LegalSizes(md.blockSize);
    NineSizes(md.blockSize);
  }
}
