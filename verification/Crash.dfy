/** The devices an allocating write passes through, what each of them recovers as, and
    the well-formedness the complete write keeps. */
module CrashSafety {
  import opened Bytes
  import opened LogFormat
  import opened LogChain
  import opened LogState
  import opened Devices
  import opened Guids
  import opened Headers
  import opened Bat
  import opened Open
  import opened Reader
  import opened Image
  import opened Recovery

  // ---- Facts of a well-formed image ----

  lemma WellFormedParts(d: Buf, st: ReaderState, env: Setting, n: nat)
    requires WellFormed(d, st, env, n)
    ensures ReaderOk(d, st, env.capacity) && Anchored(d, st, env) && PickHeader(d) == Ok((st.header, st.slot))
    ensures st.header.logVersion == 0 && st.header.version == 1 && LogClear(env.rt, st.header)
    ensures |d| == st.devSize <= env.capacity < 0x8000_0000_0000_0000 && LogRegionValid(|d|, st.header)
    ensures st.geometry.blockSize >= ONE_MIB && st.geometry.ratio >= 16
    ensures st.batOffset + |st.bat| * ENTRY_BYTES <= |d| && BatOf(d, st) == st.bat
    ensures Layout(st, env.m, |d|) && ControlLayout(st, env.m, |d|) && BlocksClear(st, env.m, |d|)
      && BlocksApart(st.geometry, st.bat)
    ensures Pending(d, st.header).Ok? && Landed(d, st, Pending(d, st.header).value)
    ensures st.header.logLength > 0 ==>
      st.header.logOffset >= ONE_MIB && st.header.logLength >= ONE_MIB
        && st.header.logOffset + st.header.logLength <= |d|
      && |d| >= 2 * ONE_MIB && RoomFor(LogRegion(d, st.header), st.header, n) && st.header.sequence + n < TWO64 - 1
  {
    hide Anchored, PickHeader, LogClear, Layout, Pending, Landed;
    OkParts(d, st, env.capacity);
    LayoutParts(st, env.m, |d|);
    if st.header.logLength > 0 {
      LogRegionMeansMegabytes(|d|, st.header);
    }
  }

  /** The parts that make an image well formed. */
  lemma MakesWellFormed(d: Buf, st: ReaderState, env: Setting, n: nat)
    requires ReaderOk(d, st, env.capacity) && Anchored(d, st, env) && PickHeader(d) == Ok((st.header, st.slot))
    requires st.header.logVersion == 0 && LogClear(env.rt, st.header)
    requires st.batOffset + |st.bat| * ENTRY_BYTES <= |d| && BatOf(d, st) == st.bat
    requires st.geometry.blockSize > 0 && st.geometry.ratio > 0 && Layout(st, env.m, |d|)
    requires Pending(d, st.header).Ok? && Landed(d, st, Pending(d, st.header).value)
    requires st.header.logLength > 0 ==>
      st.header.logOffset + st.header.logLength <= |d| && RoomFor(LogRegion(d, st.header), st.header, n)
    ensures WellFormed(d, st, env, n)
  {
  }

  lemma MakesRecoverable(e: Buf, t: ReaderState, env: Setting)
    requires ReaderOk(e, t, env.capacity) && Anchored(e, t, env) && PickHeader(e) == Ok((t.header, t.slot))
    requires t.header.logVersion == 0 && LogClear(env.rt, t.header)
    requires t.header.logLength > 0 ==> t.header.sequence < TWO64 - 1
    requires t.geometry.blockSize > 0 && t.geometry.ratio > 0 && Layout(t, env.m, |e|)
    requires t.batOffset + |t.bat| * ENTRY_BYTES <= |e|
    requires Pending(e, t.header).Ok?
    requires Pending(e, t.header).value == [] ==> BatOf(e, t) == t.bat
    requires Pending(e, t.header).value != [] ==>
      OneSector(Pending(e, t.header).value, t, |e|)
      && var x := Pending(e, t.header).value[0].descriptors[0];
         x.fileOffset + SECTOR <= |e| && BatOf(Splice(e, x.fileOffset, x.sector), t) == t.bat
    ensures Recoverable(e, t, env)
  {
  }

  /** A write into a present block leaves every control structure as it was. */
  lemma WellFormedFrame(d: Buf, e: Buf, st: ReaderState, env: Setting, n: nat)
    requires WellFormed(d, st, env, n) && |e| == |d| >= ONE_MIB && e[..ONE_MIB] == d[..ONE_MIB]
    requires env.m.offset + env.m.length <= |d|
      && e[env.m.offset..env.m.offset + env.m.length] == d[env.m.offset..env.m.offset + env.m.length]
    requires st.batOffset <= BatEnd(st) <= |d| && e[st.batOffset..BatEnd(st)] == d[st.batOffset..BatEnd(st)]
    requires st.header.logLength > 0 ==>
      st.header.logOffset + st.header.logLength <= |d| && LogRegion(e, st.header) == LogRegion(d, st.header)
    ensures WellFormed(e, st, env, n)
  {
    WellFormedParts(d, st, env, n);
    hide WellFormed, Anchored, PickHeader, LogClear, Layout, Landed, ControlLayout, BlocksClear, BlocksApart,
      ReaderOk, RoomFor, BatOf, BatEnd, LogRegionValid;
    LowSlices(d, e);
    AnchoredFrame(d, e, st, env);
    PickHeaderFrame(d, e);
    BatSlices(d, e, st);
    LandedFrame(d, e, st, Pending(d, st.header).value);
    PendingFrame(d, e, st.header);
    ReaderOkMoves(d, st, e, st, env.capacity);
    MakesWellFormed(e, st, env, n);
  }

  lemma LowSlices(d: Buf, e: Buf)
    requires |e| >= ONE_MIB && |d| >= ONE_MIB && e[..ONE_MIB] == d[..ONE_MIB]
    ensures e[..8] == d[..8] && e[TABLE1..TABLES_END] == d[TABLE1..TABLES_END]
    ensures e[0x1_0000..0x1_1000] == d[0x1_0000..0x1_1000] && e[0x2_0000..0x2_1000] == d[0x2_0000..0x2_1000]
  {
    SubSlice(d, 0, ONE_MIB, 0, 8);
    SubSlice(e, 0, ONE_MIB, 0, 8);
    SubSlice(d, 0, ONE_MIB, TABLE1, TABLES_END);
    SubSlice(e, 0, ONE_MIB, TABLE1, TABLES_END);
    SubSlice(d, 0, ONE_MIB, 0x1_0000, 0x1_1000);
    SubSlice(e, 0, ONE_MIB, 0x1_0000, 0x1_1000);
    SubSlice(d, 0, ONE_MIB, 0x2_0000, 0x2_1000);
    SubSlice(e, 0, ONE_MIB, 0x2_0000, 0x2_1000);
  }

  /** Equal BAT sectors hold equal tables. */
  lemma BatSlices(d: Buf, e: Buf, st: ReaderState)
    requires st.batOffset <= BatEnd(st) <= |d| && BatEnd(st) <= |e|
    requires e[st.batOffset..BatEnd(st)] == d[st.batOffset..BatEnd(st)]
    ensures st.batOffset + |st.bat| * ENTRY_BYTES <= |d| && st.batOffset + |st.bat| * ENTRY_BYTES <= |e|
    ensures BatOf(e, st) == BatOf(d, st)
  {
    var n := |st.bat| * ENTRY_BYTES;
    SubSlice(d, st.batOffset, BatEnd(st), 0, n);
    SubSlice(e, st.batOffset, BatEnd(st), 0, n);
    BatOfFrame(d, e, st, st);
  }

  lemma LandedFrame(d: Buf, e: Buf, st: ReaderState, chain: seq<LogEntry>)
    requires st.batOffset <= BatEnd(st) <= |d| <= |e| && Landed(d, st, chain)
    requires e[st.batOffset..BatEnd(st)] == d[st.batOffset..BatEnd(st)]
    ensures Landed(e, st, chain)
  {
    if chain != [] {
      var x := chain[0].descriptors[0];
      var lo := x.fileOffset - st.batOffset;
      SubSlice(d, st.batOffset, BatEnd(st), lo, lo + SECTOR);
      SubSlice(e, st.batOffset, BatEnd(st), lo, lo + SECTOR);
    }
  }

  lemma PendingFrame(d: Buf, e: Buf, h: Header)
    requires |d| <= |e|
    requires h.logLength > 0 ==> h.logOffset + h.logLength <= |d| && LogRegion(e, h) == LogRegion(d, h)
    ensures Pending(e, h) == Pending(d, h)
  {
    hide Collect;
  }

  /** A well-formed image is recoverable as it stands. */
  lemma WellFormedRecovers(d: Buf, st: ReaderState, env: Setting, n: nat)
    requires WellFormed(d, st, env, n)
    ensures Recoverable(d, st, env)
  {
    hide WellFormed, Anchored, PickHeader, LogClear, Layout, ControlLayout, BlocksClear, BlocksApart, ReaderOk,
      RoomFor, BatOf, LogRegionValid, Pending, Landed, OneSector, LogRegion, Splice, LegalGeometry;
    WellFormedParts(d, st, env, n);
    LandedSplices(d, st, st, Pending(d, st.header).value);
    MakesRecoverable(d, st, env);
  }

  // ---- A write into a block that is present ----

  lemma BlockApartFrom(st: ReaderState, m: Region, size: nat, off: nat, inBlock: nat, x: Buf)
    requires BlockClear(st, m, size, off) && inBlock + |x| <= st.geometry.blockSize
    requires ControlLayout(st, m, size)
    ensures ONE_MIB <= off + inBlock && off + inBlock + |x| <= size
    ensures Apart(off + inBlock, off + inBlock + |x|, st.header.logOffset, st.header.logOffset + st.header.logLength)
    ensures Apart(off + inBlock, off + inBlock + |x|, st.batOffset, BatEnd(st)) && st.batOffset <= BatEnd(st) <= size
    ensures Apart(off + inBlock, off + inBlock + |x|, m.offset, m.offset + m.length) && m.offset + m.length <= size
  {
    hide RoundUpSector;
  }

  lemma SpliceApart(d: Buf, off: nat, x: Buf, lo: nat, hi: nat)
    requires off + |x| <= |d| && lo <= hi <= |d| && Apart(off, off + |x|, lo, hi)
    ensures Splice(d, off, x)[lo..hi] == d[lo..hi]
  {
    if lo < hi {
      SpliceOutside(d, off, x, lo, hi);
    }
  }

  lemma PresentKeeps(d: Buf, st: ReaderState, env: Setting, n: nat,
                     b: nat, inBlock: nat, x: Buf)
    requires WellFormed(d, st, env, n) && st.geometry.blockSize > 0 && st.geometry.ratio > 0
    requires InDisk(st.geometry, b) && Present(st.geometry, st.bat, b) && inBlock + |x| <= st.geometry.blockSize
    requires At(st.geometry, b, inBlock) + |x| <= st.geometry.virtualSize
    ensures var off := Host(st.geometry, st.bat, b) + inBlock;
      off + |x| <= |d|
      && WellFormed(Splice(d, off, x), st, env, n)
      && Disk(Splice(d, off, x), st.geometry, st.bat)
         == Splice(Disk(d, st.geometry, st.bat), At(st.geometry, b, inBlock), x)
  {
    hide WellFormed, ControlLayout, BlocksApart, BlocksClear, Splice, Disk, InDisk, At, BlockClear, BatEnd,
      DataBatIndex, Zeros;
    PresentBlock(d, st, env, n, b);
    var host := Host(st.geometry, st.bat, b);
    var off := host + inBlock;
    BlockApartFrom(st, env.m, |d|, host, inBlock, x);
    SpliceApart(d, off, x, 0, ONE_MIB);
    SpliceApart(d, off, x, env.m.offset, env.m.offset + env.m.length);
    SpliceApart(d, off, x, st.batOffset, BatEnd(st));
    if st.header.logLength > 0 {
      SpliceApart(d, off, x, st.header.logOffset, st.header.logOffset + st.header.logLength);
    }
    assert Splice(d, off, x)[..ONE_MIB] == Splice(d, off, x)[0..ONE_MIB] && d[..ONE_MIB] == d[0..ONE_MIB];
    WellFormedFrame(d, Splice(d, off, x), st, env, n);
    PresentWrite(d, st, env.m, b, inBlock, x);
  }

  lemma PresentBlock(d: Buf, st: ReaderState, env: Setting, n: nat, b: nat)
    requires st.geometry.blockSize > 0 && st.geometry.ratio > 0 && InDisk(st.geometry, b)
      && Present(st.geometry, st.bat, b)
    requires WellFormed(d, st, env, n)
    ensures BlockClear(st, env.m, |d|, Host(st.geometry, st.bat, b)) && ControlLayout(st, env.m, |d|) && |d| >= ONE_MIB
    ensures BlocksClear(st, env.m, |d|) && BlocksApart(st.geometry, st.bat)
    ensures st.header.logLength > 0 ==> st.header.logOffset + st.header.logLength <= |d|
  {
    hide InDisk, DataBatIndex, BatOf, Anchored, LogClear, PickHeader, Pending, Landed, RoomFor, BatEnd;
  }

  // ---- The devices an allocation passes through ----

  /** What an allocation on a well-formed image starts from. */
  ghost predicate Allocating(d: Buf, st: ReaderState, env: Setting, n: nat, b: nat, p: Plan) {
    WellFormed(d, st, env, n) && st.geometry.blockSize > 0 && st.geometry.ratio > 0
    && InDisk(st.geometry, b) && DataBatIndex(b, st.geometry.ratio) < |st.bat| && !Present(st.geometry, st.bat, b)
    && NewSize(st) <= env.capacity && InSector(st.batOffset, DataBatIndex(b, st.geometry.ratio))
    && p == PlanFor(d, st, env.capacity, DataBatIndex(b, st.geometry.ratio))
  }

  lemma AllocatingPlan(d: Buf, st: ReaderState, env: Setting, n: nat, b: nat, p: Plan)
    requires Allocating(d, st, env, n, b, p)
    ensures var index := DataBatIndex(b, st.geometry.ratio);
      |d| == st.devSize <= p.at && p.size == p.at + st.geometry.blockSize
        && p.size <= env.capacity < 0x8000_0000_0000_0000
      && p.at % ONE_MIB == 0 && p.at < TWO64 - ONE_MIB && p.off + SECTOR <= p.at && LogRegionValid(p.size, st.header)
      && st.batOffset <= p.off && p.off + SECTOR <= BatEnd(st)
      && p.off <= st.batOffset + index * ENTRY_BYTES && st.batOffset + index * ENTRY_BYTES + 8 <= p.off + SECTOR
      && p.sector == Splice((d + Zeros(p.size - |d|))[p.off..p.off + SECTOR],
         st.batOffset + index * ENTRY_BYTES - p.off,
                            Le(PresentAt(p.at), 8))
  {
    hide WellFormed, Anchored, PickHeader, LogClear, Layout, ControlLayout, BlocksApart, BlocksClear, ReaderOk,
      RoomFor, BatOf, LogRegionValid, Pending, Landed, Splice, InDisk, NewSize, PlanFor, PresentAt, Le, DataBatIndex,
      Present, LogRegion;
    var index := DataBatIndex(b, st.geometry.ratio);
    WellFormedParts(d, st, env, n);
    LayoutParts(st, env.m, |d|);
    PlanFacts(d, st, env.capacity, index);
    PlanSector(d, st, env.capacity, index);
    SectorBounds(st.batOffset, |st.bat|, index, p.off);
  }

  /** The sector of an entry lies within the sectors of the table. */
  lemma SectorBounds(start: nat, n: nat, index: nat, off: nat)
    requires start % SECTOR == 0 && index < n && off % SECTOR == 0
    requires off <= start + index * ENTRY_BYTES && start + index * ENTRY_BYTES + 8 <= off + SECTOR
    ensures start <= off && off + SECTOR <= RoundUpSector(start + n * ENTRY_BYTES)
  {
    var end := RoundUpSector(start + n * ENTRY_BYTES);
    assert off + SECTOR < end + SECTOR + 1;
  }

  /** Up to the header's rotation the image is still the old one, and the log holds
      nothing that has not landed. */
  lemma RecoverOld(d: Buf, e: Buf, st: ReaderState, env: Setting, n: nat)
    requires WellFormed(d, st, env, n) && st.header.logLength > 0
    requires Near(d, e, st) && |e| <= env.capacity && PickHeader(e) == Ok((st.header, st.slot))
    requires st.batOffset <= BatEnd(st) <= |d| && e[st.batOffset..BatEnd(st)] == d[st.batOffset..BatEnd(st)]
    requires st.header.logOffset + st.header.logLength <= |d| && st.header.logLength >= ENTRY_SIZE
    requires LogRegion(e, st.header)[ENTRY_SIZE..] == LogRegion(d, st.header)[ENTRY_SIZE..]
    requires Pending(e, st.header) == Ok([]) || Pending(e, st.header) == Pending(d, st.header)
    ensures Recoverable(e, st.(devSize := |e|), env)
    ensures RoomFor(LogRegion(e, st.header), st.header, n)
    ensures st.geometry.blockSize > 0 && st.geometry.ratio > 0
    ensures Disk(e, st.geometry, st.bat) == Disk(d, st.geometry, st.bat)
  {
    hide WellFormed, Anchored, PickHeader, LogClear, Layout, ControlLayout, BlocksApart, ReaderOk, RoomFor, BatOf,
      LogRegionValid, Pending, Splice, BatEnd, Near, BlocksClear, Landed, Disk;
    WellFormedParts(d, st, env, n);
    var t := st.(devSize := |e|);
    NearSize(d, e, st);
    NearAnchored(d, e, st, env);
    AnchoredSame(e, st, t, env);
    ReaderOkMoves(d, st, e, t, env.capacity);
    LayoutGrows(st, env.m, |d|, t, |e|);
    BatSlices(d, e, st);
    BatOfSame(e, st, t);
    LandedFrame(d, e, st, Pending(d, st.header).value);
    LandedSplices(e, st, t, Pending(e, st.header).value);
    RoomForFrame(LogRegion(d, st.header), LogRegion(e, st.header), st.header, n);
    NearDisk(d, e, st, env.m);
    MakesRecoverable(e, t, env);
  }

  /** A landed sector is a no-op to replay. */
  lemma LandedSplices(e: Buf, st: ReaderState, t: ReaderState, chain: seq<LogEntry>)
    requires Landed(e, st, chain) && SamePlaces(st, t)
    ensures chain != [] ==>
      OneSector(chain, t, |e|)
      && var x := chain[0].descriptors[0];
         x.fileOffset + SECTOR <= |e| && Splice(e, x.fileOffset, x.sector) == e
  {
    if chain != [] {
      SpliceSame(e, chain[0].descriptors[0].fileOffset, chain[0].descriptors[0].sector);
    }
  }

  /** The image an allocation makes. */
  function Allocated(st: ReaderState, p: Plan, b: nat): ReaderState
    requires st.geometry.ratio > 0 && DataBatIndex(b, st.geometry.ratio) < |st.bat|
  {
    st.(devSize := p.size, header := JournalledHeader(st.header), slot := st.slot.Other(),
        bat := WithBlock(st.geometry, st.bat, b, p.at))
  }

  lemma JournalledFields(h: Header)
    requires h.sequence < TWO64 - 1
    ensures var next := JournalledHeader(h);
      next.sequence == h.sequence + 1 && next.logOffset == h.logOffset && next.logLength == h.logLength
      && next.logVersion == h.logVersion && next.version == h.version && !IsZeroGuid(next.logGuid)
         && next.logGuid != h.logGuid
  {
    hide Stir;
    StirFresh(h.logGuid, h.sequence + 1);
  }

  lemma SameLogClear(rt: RegionTable, h: Header, k: Header)
    requires k.logOffset == h.logOffset && k.logLength == h.logLength && LogClear(rt, h)
    ensures LogClear(rt, k)
  {
    assert forall r :: r in rt ==> LogClearOf(r, k) == LogClearOf(r, h);
  }

  /** The entry an allocation journals, read back. */
  function PlanParsed(st: ReaderState, p: Plan): LogEntry {
    var next := JournalledHeader(st.header);
    OwnParsed(next.sequence, next.logGuid, p.size, PendingWrite(p.off, p.sector))
  }

  lemma PlanPending(e: Buf, st: ReaderState, p: Plan)
    requires st.header.sequence < TWO64 - 1 && st.header.logLength > ENTRY_SIZE && st.header.logOffset > 0
    requires st.header.logOffset + st.header.logLength <= |e|
    requires LogRegion(e, st.header)[..ENTRY_SIZE] == JournalEntry(st.(devSize := p.size), p.off, p.sector)
    requires RestClear(LogRegion(e, st.header), JournalledHeader(st.header).logGuid)
    ensures Pending(e, JournalledHeader(st.header)) == Ok([PlanParsed(st, p)])
  {
    hide Collect, EncodedEntry, JournalledHeader, RestClear, Stir;
    var next := JournalledHeader(st.header);
    JournalledFields(st.header);
    assert LogRegion(e, next) == LogRegion(e, st.header);
    assert JournalEntry(st.(devSize := p.size), p.off, p.sector)
        == OwnEntry(next.sequence, next.logGuid, p.size, PendingWrite(p.off, p.sector));
    OwnCollect(LogRegion(e, next), next.sequence, next.logGuid, p.size, PendingWrite(p.off, p.sector));
  }

  /** The header has rotated, and the log holds the entry; the BAT sector in place and
      everything past the old end are whatever they are. */
  ghost predicate Rotated(d: Buf, e: Buf, st: ReaderState, p: Plan) {
    st.header.logOffset + st.header.logLength <= |d| <= |e| == p.size && st.header.logLength > ENTRY_SIZE
    && st.batOffset + |st.bat| * ENTRY_BYTES <= |d|
    && LogRegion(e, st.header)[ENTRY_SIZE..] == LogRegion(d, st.header)[ENTRY_SIZE..]
    && (forall i :: st.batOffset <= i < st.batOffset + |st.bat| * ENTRY_BYTES && !(p.off <= i < p.off + SECTOR) ==>
       e[i] == d[i])
    && Near(d, e, st) && PickHeader(e) == Ok((JournalledHeader(st.header), st.slot.Other()))
    && LogRegion(e, st.header)[..ENTRY_SIZE] == JournalEntry(st.(devSize := p.size), p.off, p.sector)
  }

  /** From the header's rotation on, the image is the new one: the log carries the BAT
      sector whatever became of it in place. */
  lemma RecoverNew(d: Buf, e: Buf, st: ReaderState, env: Setting, n: nat, b: nat, p: Plan)
    requires st.geometry.ratio > 0 && DataBatIndex(b, st.geometry.ratio) < |st.bat| && n > 0
    requires st.header.logOffset + st.header.logLength <= |e|
    requires Rotated(d, e, st, p)
    requires Allocating(d, st, env, n, b, p)
    ensures Recoverable(e, Allocated(st, p, b), env)
    ensures RoomFor(LogRegion(e, st.header), JournalledHeader(st.header), n - 1)
  {
    hide WellFormed, Anchored, PickHeader, LogClear, Layout, ControlLayout, BlocksApart, ReaderOk, BatOf,
      LogRegionValid, Pending, Splice, Near, BlocksClear, Landed, InDisk, JournalledHeader, JournalEntry, PlanFor,
      NewSize, RestClear, PresentAt, Le;
    WellFormedParts(d, st, env, n);
    AllocatingPlan(d, st, env, n, b, p);
    var g, t, next := st.geometry, Allocated(st, p, b), JournalledHeader(st.header);
    var log, log' := LogRegion(d, st.header), LogRegion(e, st.header);
    JournalledFields(st.header);
    RoomForFrame(log, log', next, n - 1);
    PlanPending(e, st, p);
    NearAnchored(d, e, st, env);
    AnchoredSame(e, st, t, env);
    ReaderOkMoves(d, st, e, t, env.capacity);
    LayoutWithBlock(st, env.m, |d|, b, p.at, t);
    SameLogClear(env.rt, st.header, next);
    var wide := d + Zeros(p.size - |d|);
    BatPublished(d, wide, e, st, p.off, DataBatIndex(b, g.ratio), p.at, p.sector);
    BatOfSame(Splice(e, p.off, p.sector), st, t);
    MakesRecoverable(e, t, env);
  }

  // ---- Stage by stage ----

  /** The bounds every stage of an allocation rests on. */
  predicate StageBounds(d: Buf, st: ReaderState, p: Plan) {
    2 * ONE_MIB <= |d| <= p.at && p.size == p.at + st.geometry.blockSize && p.off + SECTOR <= |d|
    && ONE_MIB <= st.header.logOffset && st.header.logOffset + st.header.logLength <= |d|
       && st.header.logLength > ENTRY_SIZE
    && ONE_MIB <= st.batOffset <= p.off && p.off + SECTOR <= BatEnd(st) <= |d|
    && st.batOffset + |st.bat| * ENTRY_BYTES <= BatEnd(st)
    && Apart(st.batOffset, BatEnd(st), st.header.logOffset, st.header.logOffset + st.header.logLength)
  }

  lemma AllocatingBounds(d: Buf, st: ReaderState, env: Setting, n: nat, b: nat, p: Plan)
    requires Allocating(d, st, env, n, b, p) && st.header.logLength > 0
    ensures StageBounds(d, st, p) && p.size <= env.capacity < 0x8000_0000_0000_0000
  {
    hide WellFormed, InDisk, DataBatIndex, Splice, Le, PresentAt, BatEnd, PlanFor, LogRegionValid, LogClear, Layout,
      Anchored, PickHeader, Pending, Landed, RoomFor, ReaderOk, BlocksClear, BlocksApart, ControlLayout, BatOf;
    WellFormedParts(d, st, env, n);
    AllocatingPlan(d, st, env, n, b, p);
    LayoutParts(st, env.m, |d|);
  }

  /** The image is still the old one as far as its control structures go. */
  ghost predicate StillOld(d: Buf, e: Buf, st: ReaderState) {
    |d| <= |e| && Near(d, e, st) && PickHeader(e) == PickHeader(d)
    && st.batOffset <= BatEnd(st) <= |d| && e[st.batOffset..BatEnd(st)] == d[st.batOffset..BatEnd(st)]
    && st.header.logOffset + st.header.logLength <= |d| && st.header.logLength > ENTRY_SIZE
    && LogRegion(e, st.header)[ENTRY_SIZE..] == LogRegion(d, st.header)[ENTRY_SIZE..]
  }

  lemma PrefixSlice(d: Buf, y: Buf, lo: nat, hi: nat)
    requires lo <= hi <= |d|
    ensures (d + y)[lo..hi] == d[lo..hi]
  {
  }

  /** Bytes past the old end change nothing. */
  lemma OldTail(d: Buf, y: Buf, st: ReaderState, p: Plan)
    requires StageBounds(d, st, p)
    ensures StillOld(d, d + y, st) && LogRegion(d + y, st.header) == LogRegion(d, st.header)
  {
    hide PickHeader, Near, BatEnd;
    NearWide(d, y, st);
    PrefixSlice(d, y, 0x1_0000, 0x1_1000);
    PrefixSlice(d, y, 0x2_0000, 0x2_1000);
    PickHeaderFrame(d, d + y);
    PrefixSlice(d, y, st.batOffset, BatEnd(st));
    PrefixSlice(d, y, st.header.logOffset, st.header.logOffset + st.header.logLength);
  }

  /** Nor do the writer's two log sectors. */
  lemma OldLogged(d: Buf, e: Buf, st: ReaderState, p: Plan, x: Buf)
    requires StageBounds(d, st, p) && StillOld(d, e, st) && |x| == ENTRY_SIZE
    ensures st.header.logOffset + ENTRY_SIZE <= |e|
    ensures var f := Splice(e, st.header.logOffset, x);
      StillOld(d, f, st) && LogRegion(f, st.header)[..ENTRY_SIZE] == x
  {
    var lo, hi := st.header.logOffset, st.header.logOffset + st.header.logLength;
    hide PickHeader, Near, BatEnd, Splice;
    var f := Splice(e, lo, x);
    NearSplice(d, e, st, lo, x);
    SpliceOutside(e, lo, x, 0x1_0000, 0x1_1000);
    SpliceOutside(e, lo, x, 0x2_0000, 0x2_1000);
    PickHeaderFrame(f, e);
    SpliceApart(e, lo, x, st.batOffset, BatEnd(st));
    LogHalves(e, lo, hi, x);
  }

  lemma LogHalves(e: Buf, lo: nat, hi: nat, x: Buf)
    requires lo + ENTRY_SIZE <= hi <= |e| && |x| == ENTRY_SIZE
    ensures var f := Splice(e, lo, x);
      f[lo..hi][..ENTRY_SIZE] == x && f[lo..hi][ENTRY_SIZE..] == e[lo..hi][ENTRY_SIZE..]
  {
    var f := Splice(e, lo, x);
    SpliceInside(e, lo, x);
    SpliceOutside(e, lo, x, lo + ENTRY_SIZE, hi);
    hide Splice;
    SubSlice(f, lo, hi, 0, ENTRY_SIZE);
    SubSlice(f, lo, hi, ENTRY_SIZE, hi - lo);
    SubSlice(e, lo, hi, ENTRY_SIZE, hi - lo);
    assert f[lo..hi][..ENTRY_SIZE] == f[lo..hi][0..ENTRY_SIZE];
    assert f[lo..hi][ENTRY_SIZE..] == f[lo..hi][ENTRY_SIZE..hi - lo]
      && e[lo..hi][ENTRY_SIZE..] == e[lo..hi][ENTRY_SIZE..hi - lo];
  }

  /** Writing a header slot touches neither the table nor the log. */
  lemma SlotFrame(e: Buf, st: ReaderState, p: Plan, d: Buf, x: Buf)
    requires StageBounds(d, st, p) && |d| <= |e| && |x| == HEADER_SIZE
    ensures var f := Splice(e, st.slot.Other().Offset(), x);
      f[st.batOffset..BatEnd(st)] == e[st.batOffset..BatEnd(st)] && LogRegion(f, st.header) == LogRegion(e, st.header)
      && (Near(d, e, st) ==> Near(d, f, st))
  {
    hide Near, BatEnd, Splice;
    var off := st.slot.Other().Offset();
    SpliceOutside(e, off, x, st.batOffset, BatEnd(st));
    SpliceOutside(e, off, x, st.header.logOffset, st.header.logOffset + st.header.logLength);
    if Near(d, e, st) {
      NearSplice(d, e, st, off, x);
    }
  }

  /** A torn header leaves the old one current. */
  lemma OldTornHeader(d: Buf, e: Buf, st: ReaderState, p: Plan, x: Buf)
    requires StageBounds(d, st, p) && StillOld(d, e, st) && PickHeader(d) == Ok((st.header, st.slot))
    requires |x| == HEADER_SIZE && ParseHeader(x).Err?
    ensures StillOld(d, Splice(e, st.slot.Other().Offset(), x), st)
    ensures LogRegion(Splice(e, st.slot.Other().Offset(), x), st.header) == LogRegion(e, st.header)
  {
    hide PickHeader, Near, BatEnd, Splice, ParseHeader;
    RotationTorn(e, st.header, st.slot, x);
    SlotFrame(e, st, p, d, x);
  }

  /** A complete one is the new current header. */
  lemma NewTurned(d: Buf, e: Buf, st: ReaderState, p: Plan)
    requires StageBounds(d, st, p) && StillOld(d, e, st) && PickHeader(d) == Ok((st.header, st.slot)) && |e| == p.size
    requires st.header.sequence < TWO64 - 1 && st.header.version == 1
    requires LogRegion(e, st.header)[..ENTRY_SIZE] == JournalEntry(st.(devSize := p.size), p.off, p.sector)
    ensures Rotated(d, Splice(e, st.slot.Other().Offset(), EncodedHeader(JournalledHeader(st.header))), st, p)
  {
    hide PickHeader, Near, Splice, EncodedHeader, JournalEntry, JournalledHeader;
    var next := JournalledHeader(st.header);
    JournalledFields(st.header);
    RotationTakes(e, st.header, st.slot, next);
    SlotFrame(e, st, p, d, EncodedHeader(next));
    var f := Splice(e, st.slot.Other().Offset(), EncodedHeader(next));
    SliceByte(d, f, st);
  }

  lemma SliceByte(d: Buf, f: Buf, st: ReaderState)
    requires st.batOffset <= BatEnd(st) <= |d| <= |f| && f[st.batOffset..BatEnd(st)] == d[st.batOffset..BatEnd(st)]
    ensures forall i :: st.batOffset <= i < BatEnd(st) ==> f[i] == d[i]
  {
    hide BatEnd;
    forall i | st.batOffset <= i < BatEnd(st)
      ensures f[i] == d[i]
    {
      assert f[i] == f[st.batOffset..BatEnd(st)][i - st.batOffset];
      assert d[i] == d[st.batOffset..BatEnd(st)][i - st.batOffset];
    }
  }

  lemma TableAround(d: Buf, e: Buf, st: ReaderState, p: Plan, off: nat, x: Buf)
    requires st.batOffset + |st.bat| * ENTRY_BYTES <= |d| <= |e| && off + |x| <= |e|
    requires (p.off <= off && off + |x| <= p.off + SECTOR) || |d| <= off
    requires forall i :: st.batOffset <= i < st.batOffset + |st.bat| * ENTRY_BYTES && !(p.off <= i < p.off + SECTOR) ==>
      e[i] == d[i]
    ensures forall i :: st.batOffset <= i < st.batOffset + |st.bat| * ENTRY_BYTES && !(p.off <= i < p.off + SECTOR) ==>
      Splice(e, off, x)[i] == d[i]
  {
    hide Splice;
    forall i | st.batOffset <= i < st.batOffset + |st.bat| * ENTRY_BYTES && !(p.off <= i < p.off + SECTOR)
      ensures Splice(e, off, x)[i] == d[i]
    {
      SpliceAt(e, off, x, i);
    }
  }

  /** The log and the headers do not see a write to the BAT sector or the new block. */
  lemma ControlAround(d: Buf, e: Buf, st: ReaderState, p: Plan, off: nat, x: Buf)
    requires StageBounds(d, st, p) && |d| <= |e| && off + |x| <= |e|
    requires (p.off <= off && off + |x| <= p.off + SECTOR) || p.at <= off
    ensures PickHeader(Splice(e, off, x)) == PickHeader(e)
      && LogRegion(Splice(e, off, x), st.header) == LogRegion(e, st.header)
  {
    hide PickHeader, Splice, BatEnd;
    SpliceOutside(e, off, x, 0x1_0000, 0x1_1000);
    SpliceOutside(e, off, x, 0x2_0000, 0x2_1000);
    PickHeaderFrame(Splice(e, off, x), e);
    SpliceApart(e, off, x, st.header.logOffset, st.header.logOffset + st.header.logLength);
  }

  lemma NearAround(d: Buf, e: Buf, st: ReaderState, p: Plan, off: nat, x: Buf)
    requires StageBounds(d, st, p) && off + |x| <= |e| && Near(d, e, st)
    requires (p.off <= off && off + |x| <= p.off + SECTOR) || p.at <= off
    ensures Near(d, Splice(e, off, x), st)
  {
    hide Splice, BatEnd, Near;
    NearSplice(d, e, st, off, x);
  }

  /** Neither the BAT sector in place nor the new block undoes the rotation. */
  lemma RotatedSplice(d: Buf, e: Buf, st: ReaderState, p: Plan, off: nat, x: Buf)
    requires StageBounds(d, st, p) && Rotated(d, e, st, p) && off + |x| <= |e|
    requires (p.off <= off && off + |x| <= p.off + SECTOR) || p.at <= off
    ensures Rotated(d, Splice(e, off, x), st, p)
  {
    hide PickHeader, Near, Splice, JournalEntry, JournalledHeader, BatEnd, LogRegion;
    ControlAround(d, e, st, p, off, x);
    NearAround(d, e, st, p, off, x);
    TableAround(d, e, st, p, off, x);
  }

  // ---- What reopening finds, stage by stage ----

  /** The device holds an image whose disk is `disk`: a replay-capable open succeeds,
      exposes that disk, and leaves an image that is well formed again. */
  ghost predicate Recovers(e: Buf, env: Setting, w: bool, n: nat, disk: Buf) {
    |e| < TWO64
    && var o := OpenRun(e, env.capacity, w, true, env.dec);
       o.result.Ok? && o.result.value.geometry.blockSize > 0 && o.result.value.geometry.ratio > 0
       && Disk(RunOps(e, o.ops), o.result.value.geometry, o.result.value.bat) == disk
       && WellFormed(RunOps(e, o.ops), o.result.value, env, n)
       && exists t :: Held(e, t, env, n, disk)
  }

  lemma HeldRecovers(e: Buf, t: ReaderState, env: Setting, w: bool, n: nat, disk: Buf)
    requires Held(e, t, env, n, disk) && |e| < TWO64
    ensures Recovers(e, env, w, n, disk)
  {
    hide Recoverable, OpenRun, WellFormed, Disk, Room;
    ReopenRecovers(e, t, env, w, n);
  }

  lemma RecoverableRecovers(e: Buf, t: ReaderState, env: Setting, w: bool, n: nat)
    requires Recoverable(e, t, env) && |e| < TWO64
    requires t.header.logLength > 0 ==>
      t.header.logOffset + t.header.logLength <= |e| && RoomFor(LogRegion(e, t.header), t.header, n + 1)
    requires t.geometry.blockSize > 0 && t.geometry.ratio > 0
    ensures Recovers(e, env, w, n, Disk(e, t.geometry, t.bat))
  {
    hide Recoverable, OpenRun, WellFormed, Disk, RoomFor, Room, Recovers;
    RoomOfMore(e, t, n);
    HeldRecovers(e, t, env, w, n, Disk(e, t.geometry, t.bat));
  }

  lemma OldRecovers(d: Buf, e: Buf, st: ReaderState, env: Setting, n: nat, w: bool)
    requires st.geometry.blockSize > 0 && st.geometry.ratio > 0 && st.header.logLength > 0
    requires StillOld(d, e, st) && |e| <= env.capacity
    requires Pending(e, st.header) == Ok([]) || Pending(e, st.header) == Pending(d, st.header)
    requires WellFormed(d, st, env, n + 1)
    ensures Recovers(e, env, w, n, Disk(d, st.geometry, st.bat))
  {
    hide WellFormed, PickHeader, Near, BatEnd, Pending, RoomFor, Disk, Recoverable, Recovers;
    HeaderOfWellFormed(d, st, env, n + 1);
    RecoverOld(d, e, st, env, n + 1);
    RecoverableRecovers(e, st.(devSize := |e|), env, w, n);
  }

  lemma HeaderOfWellFormed(d: Buf, st: ReaderState, env: Setting, n: nat)
    requires WellFormed(d, st, env, n)
    ensures PickHeader(d) == Ok((st.header, st.slot)) && env.capacity < TWO64 && st.header.version == 1
    ensures st.header.logLength > 0 ==>
      st.header.logOffset + st.header.logLength <= |d| && st.header.sequence + n < TWO64 - 1
      && (IsZeroGuid(st.header.logGuid) || RestClear(LogRegion(d, st.header), st.header.logGuid))
  {
    hide PickHeader, Anchored, Layout, Pending, Landed, LogClear, RestClear, BatOf;
  }

  lemma NewRecovers(d: Buf, e: Buf, st: ReaderState, env: Setting, n: nat, b: nat, p: Plan, w: bool)
    requires st.geometry.blockSize > 0 && st.geometry.ratio > 0 && DataBatIndex(b, st.geometry.ratio) < |st.bat|
    requires Rotated(d, e, st, p) && st.header.logLength > 0 && env.capacity < TWO64
    requires Allocating(d, st, env, n + 2, b, p)
    ensures Recovers(e, env, w, n, Disk(e, st.geometry, WithBlock(st.geometry, st.bat, b, p.at)))
  {
    hide WellFormed, PickHeader, Near, BatEnd, Pending, RoomFor, Disk, Recoverable, Recovers, Allocating,
      JournalledHeader, JournalEntry, DataBatIndex, WithBlock;
    SequenceOfAllocating(d, st, env, n + 2, b, p);
    JournalledFields(st.header);
    RecoverNew(d, e, st, env, n + 2, b, p);
    var t := Allocated(st, p, b);
    assert LogRegion(e, t.header) == LogRegion(e, st.header);
    RecoverableRecovers(e, t, env, w, n);
  }

  lemma SequenceOfAllocating(d: Buf, st: ReaderState, env: Setting, n: nat, b: nat, p: Plan)
    requires st.header.logLength > 0
    requires Allocating(d, st, env, n, b, p)
    ensures st.header.sequence < TWO64 - 1 && WellFormed(d, st, env, n)
  {
    hide WellFormed, InDisk, DataBatIndex, PlanFor, NewSize;
    HeaderOfWellFormed(d, st, env, n);
  }

  /** While the new block is zero, the new image exposes the old disk. */
  lemma NewDiskIsOld(d: Buf, e: Buf, st: ReaderState, env: Setting, n: nat, b: nat, p: Plan)
    requires st.geometry.blockSize > 0 && st.geometry.ratio > 0 && DataBatIndex(b, st.geometry.ratio) < |st.bat|
    requires Near(d, e, st) && p.at + st.geometry.blockSize <= |e|
      && e[p.at..p.at + st.geometry.blockSize] == Zeros(st.geometry.blockSize)
    requires Allocating(d, st, env, n, b, p)
    ensures Disk(e, st.geometry, WithBlock(st.geometry, st.bat, b, p.at)) == Disk(d, st.geometry, st.bat)
  {
    hide Near, Disk, DataBatIndex, WithBlock, InDisk, PlanFor, NewSize, Zeros;
    BlocksOfWellFormed(d, st, env, n);
    AllocatedDisk(d, e, st, env.m, b, p.at);
  }

  lemma BlocksOfWellFormed(d: Buf, st: ReaderState, env: Setting, n: nat)
    requires st.geometry.blockSize > 0 && st.geometry.ratio > 0
    requires WellFormed(d, st, env, n)
    ensures BlocksClear(st, env.m, |d|)
  {
    hide PickHeader, Anchored, BlocksClear, BlocksApart, ControlLayout, Pending, Landed, LogClear, RoomFor, BatOf;
  }

  /** The new image once its BAT sector is in place is well formed. */
  lemma PublishedIsWellFormed(d: Buf, e: Buf, st: ReaderState, env: Setting, n: nat, b: nat, p: Plan)
    requires st.geometry.blockSize > 0 && st.geometry.ratio > 0 && DataBatIndex(b, st.geometry.ratio) < |st.bat|
    requires Rotated(d, e, st, p) && StageBounds(d, st, p) && e[p.off..p.off + SECTOR] == p.sector
      && st.header.logLength > 0
    requires Allocating(d, st, env, n + 1, b, p)
    ensures WellFormed(e, Allocated(st, p, b), env, n)
  {
    hide WellFormed, PickHeader, Near, BatEnd, Pending, RoomFor, Disk, Allocating, JournalledHeader, JournalEntry,
      DataBatIndex, WithBlock, Recoverable, RestClear;
    var t := Allocated(st, p, b);
    SequenceOfAllocating(d, st, env, n + 1, b, p);
    JournalledFields(st.header);
    RecoverNew(d, e, st, env, n + 1, b, p);
    assert LogRegion(e, t.header) == LogRegion(e, st.header);
    RestOfRoom(LogRegion(e, st.header), t.header, n);
    PlanPending(e, st, p);
    SpliceSame(e, p.off, p.sector);
    RecoveredIsWellFormed(e, t, env, n);
  }

  lemma RestOfRoom(log: Buf, h: Header, n: nat)
    requires RoomFor(log, h, n) && !IsZeroGuid(h.logGuid)
    ensures RestClear(log, h.logGuid)
  {
  }

  lemma RecoveredIsWellFormed(e: Buf, t: ReaderState, env: Setting, n: nat)
    requires Recoverable(e, t, env) && Pending(e, t.header).Ok? && Pending(e, t.header).value != []
    requires var x := Pending(e, t.header).value[0].descriptors[0];
      x.fileOffset + SECTOR <= |e| && e[x.fileOffset..x.fileOffset + SECTOR] == x.sector
    requires t.header.logLength > 0 ==>
      t.header.logOffset + t.header.logLength <= |e| && RoomFor(LogRegion(e, t.header), t.header, n)
    ensures WellFormed(e, t, env, n)
  {
    hide PickHeader, Anchored, Layout, LogClear, RoomFor, BatOf, Splice, Pending, BatEnd;
    var x := Pending(e, t.header).value[0].descriptors[0];
    SpliceSame(e, x.fileOffset, x.sector);
  }
}
