/** The reopen after a reopen that was cut in its erase, on a device: how it ends for
    whatever is collected from what is left of the log. */
module CutErase {
  import opened Bytes
  import opened LogFormat
  import opened LogScan
  import opened LogChain
  import opened LogReplay
  import opened Devices
  import opened Headers
  import opened Bat
  import opened Open
  import opened Image
  import opened Recovery
  import opened CrashSafety
  import opened ReopenCrash
  import opened Sessions
  import opened InterruptedErase

  /** An open that replays a chain and succeeds: `d1` is the device once the chain, none
      of it below the region tables, has been applied. */
  ghost predicate Erasing(d: Buf, capacity: nat, w: bool, dec: Decoders, g: Gate, d1: Buf) {
    |d| <= capacity < 0x8000_0000_0000_0000
    && OpenRun(d, capacity, w, true, dec).result.Ok? && OpenRun(d, capacity, w, true, dec).ops != []
    && Gates(d, true, dec) == Ok(g) && d1 == RunOps(d, Replay(|d|, capacity, g.chain).ops)
    && StaysAboveHeaders(g.chain)
  }

  /** The device after the replay and `p` bytes of the erase. */
  function ErasedTo(d1: Buf, h: Header, p: nat): (f: Buf)
    requires p <= h.logLength && h.logOffset + h.logLength <= |d1|
    ensures |f| == |d1|
  {
    Splice(d1, h.logOffset, Zeros(p))
  }

  /** What is collected from the log then. */
  function CollectedAfter(d1: Buf, h: Header, p: nat): Result<seq<LogEntry>>
    requires p <= h.logLength && h.logOffset + h.logLength <= |d1|
  {
    Collect(Wiped(LogRegion(d1, h), p), h.logGuid)
  }

  /** The open that was not cut leaves this device, and this reader. */
  lemma ErasingEnds(d: Buf, capacity: nat, w: bool, dec: Decoders, g: Gate, d1: Buf)
    requires Erasing(d, capacity, w, dec, g, d1)
    ensures OpenRun(d, capacity, w, true, dec).ops == Replay(|d|, capacity, g.chain).ops + ClearOps(g.header, g.slot)
    ensures Settle(d1, g.header, dec).Ok? && 2 * ONE_MIB <= |d| <= |d1| <= capacity < 0x8000_0000_0000_0000
    ensures LogRegionValid(|d|, g.header) && g.header.logLength > 0 && g.header.logLength % ONE_MIB == 0
    ensures g.header.logOffset >= ONE_MIB && g.header.logOffset + g.header.logLength <= |d1|
    ensures d[..8] == IDENTIFIER && PickHeader(d) == Ok((g.header, g.slot)) && g.header.logVersion == 0 && g.chain != []
    ensures !IsZeroGuid(g.header.logGuid) && OpenRun(d, capacity, w, true, dec).result.Ok?
    ensures Replay(|d|, capacity, g.chain).result.Ok? && d1 == RunOps(d, Replay(|d|, capacity, g.chain).ops)
    ensures RunOps(d, OpenRun(d, capacity, w, true, dec).ops) == Cleared(d1, g.header, g.slot)
    ensures OpenRun(d, capacity, w, true, dec).result
      == Load(Cleared(d1, g.header, g.slot), ClearedHeader(g.header), g.slot.Other(),
        Settle(d1, g.header, dec).value, w, dec)
  {
    OpenedDevice(d, capacity, w, dec);
    GateFacts(d, true, dec);
    hide Gates, Settle, Load, PickHeader, LogClear, Replay, RunOps, Pending, StaysAboveHeaders, ClearOps, Cleared;
    LogRegionMeansMegabytes(|d|, g.header);
  }

  // ---- The cut ----

  lemma ClearRest(h: Header, slot: Slot) returns (rest: seq<DevOp>)
    ensures ClearOps(h, slot) == ZeroOps(h.logOffset, h.logLength) + rest
  {
    hide ZeroOps, EncodedHeader;
    var z, w := ZeroOps(h.logOffset, h.logLength),
      [Write(slot.Other().Offset(), EncodedHeader(ClearedHeader(h))), Flush];
    rest := [Flush] + w;
    assert z + [Flush] + w == z + ([Flush] + w);
  }

  lemma CutInside(d: Buf, a: seq<DevOp>, z: seq<DevOp>, rest: seq<DevOp>, j: nat)
    requires j <= |z|
    ensures CrashOf(a + (z + rest), Cut(|a| + j))
    ensures CrashState(d, a + (z + rest), Cut(|a| + j)) == RunOps(RunOps(d, a), z[..j])
  {
    hide RunOps;
    assert (a + (z + rest))[..|a| + j] == a + z[..j];
    RunConcat(d, a, z[..j]);
  }

  /** Those devices are what a cut in the erase leaves. */
  lemma ErasedIsCrash(d: Buf, capacity: nat, w: bool, dec: Decoders, g: Gate, d1: Buf, j: nat)
    requires Erasing(d, capacity, w, dec, g, d1) && j <= |ZeroOps(g.header.logOffset, g.header.logLength)|
    requires g.header.logOffset + g.header.logLength <= |d1|
    ensures var ops, c := OpenRun(d, capacity, w, true, dec).ops, Cut(|Replay(|d|, capacity, g.chain).ops| + j);
      CrashOf(ops, c) && CrashState(d, ops, c) == ErasedTo(d1, g.header, Erased(g.header.logLength, j))
  {
    hide OpenRun, Gates, Settle, PickHeader, Replay, RunOps, ZeroOps, Splice, Erased, ClearOps, Erasing, CrashState,
      CrashOf, LogRegionValid, Load, Cleared;
    ErasingEnds(d, capacity, w, dec, g, d1);
    var lo, len, done := g.header.logOffset, g.header.logLength, Replay(|d|, capacity, g.chain).ops;
    var z := ZeroOps(lo, len);
    var rest := ClearRest(g.header, g.slot);
    CutInside(d, done, z, rest, j);
    ErasePrefix(lo, len, j);
    ZeroRun(d1, lo, Erased(len, j));
  }

  /** What the gates read on the cut device. */
  lemma ErasedTables(d: Buf, d1: Buf, h: Header, slot: Slot, dec: Decoders, p: nat)
    requires 2 * ONE_MIB <= |d| <= |d1| && d1[..TABLE1] == d[..TABLE1] && PickHeader(d) == Ok((h, slot))
      && d[..8] == IDENTIFIER
    requires ONE_MIB <= h.logOffset && h.logOffset + h.logLength <= |d1| && p <= h.logLength
    ensures d1[..8] == IDENTIFIER
    ensures var f := ErasedTo(d1, h, p);
      f[..8] == IDENTIFIER && PickHeader(f) == Ok((h, slot)) && PickTable(f, dec) == PickTable(d1, dec)
      && LogRegion(f, h) == Wiped(LogRegion(d1, h), p)
  {
    hide PickHeader, Splice, PickTable;
    var f, lo, len := ErasedTo(d1, h, p), h.logOffset, h.logLength;
    ReplayedHeader(d, d1, h, slot);
    HeaderBelow(d1, lo, Zeros(p));
    SpliceOutside(d1, lo, Zeros(p), 0, 8);
    SpliceOutside(d1, lo, Zeros(p), TABLE1, TABLES_END);
    assert f[..8] == f[0..8] && d1[..8] == d1[0..8];
    PickTableFrame(f, d1, dec);
    WipedIsSplice(d1, lo, len, p);
    SpliceInside(d1, lo, Wiped(d1[lo..lo + len], p));
  }

  lemma GatesAfter(f: Buf, h: Header, slot: Slot, dec: Decoders)
    requires |f| >= 8 && f[..8] == IDENTIFIER && PickHeader(f) == Ok((h, slot)) && h.logVersion == 0
      && LogRegionValid(|f|, h)
    requires PickTable(f, dec).Ok? && LogClear(PickTable(f, dec).value, h)
    ensures Gates(f, true, dec) == match Pending(f, h)
                                   case Err(e) => Err(e)
                                   case Ok(chain) => Ok(Gate(h, slot, chain))
  {
    hide PickHeader, PickTable, LogClear, LogRegionValid, Pending;
  }

  lemma SettledClear(d1: Buf, h: Header, dec: Decoders)
    requires Settle(d1, h, dec).Ok?
    ensures PickTable(d1, dec).Ok? && LogClear(PickTable(d1, dec).value, h)
  {
    hide PickTable, LogClear;
  }

  lemma SameSettle(d1: Buf, f: Buf, h: Header, dec: Decoders)
    requires PickTable(f, dec) == PickTable(d1, dec)
    ensures Settle(f, h, dec) == Settle(d1, h, dec)
  {
    hide PickTable, LogClear;
  }

  lemma LogGrows(size: nat, more: nat, h: Header)
    requires LogRegionValid(size, h) && size <= more
    ensures LogRegionValid(more, h)
  {
  }

  /** Past the gates with whatever is collected. */
  lemma CutGates(d: Buf, capacity: nat, w: bool, dec: Decoders, g: Gate, d1: Buf, p: nat)
    requires Erasing(d, capacity, w, dec, g, d1) && g.header.logOffset + g.header.logLength <= |d1|
      && p <= g.header.logLength
    ensures var f, h := ErasedTo(d1, g.header, p), g.header;
      |f| < TWO64 && f[..8] == IDENTIFIER && Settle(f, h, dec) == Settle(d1, h, dec)
      && PickTable(f, dec) == PickTable(d1, dec)
      && Gates(f, true, dec) == match CollectedAfter(d1, h, p)
                                case Err(e) => Err(e)
                                case Ok(chain) => Ok(Gate(h, g.slot, chain))
  {
    hide OpenRun, Gates, Settle, Load, PickHeader, LogClear, Replay, RunOps, Pending, StaysAboveHeaders, Splice,
      Cleared, PickTable, ClearOps, Wiped, Collect, LogRegionValid, LogRegion;
    ErasingEnds(d, capacity, w, dec, g, d1);
    var h, f := g.header, ErasedTo(d1, g.header, p);
    ReplayKeepsHeaders(d, capacity, g.chain);
    ErasedTables(d, d1, h, g.slot, dec, p);
    SettledClear(d1, h, dec);
    SameSettle(d1, f, h, dec);
    LogGrows(|d|, |f|, h);
    GatesAfter(f, h, g.slot, dec);
    PendingFrom(f, h);
  }

  // ---- Nothing, or a refusal ----

  lemma RefusedOpen(f: Buf, capacity: nat, w: bool, dec: Decoders, e: Error)
    requires |f| < TWO64 && Gates(f, true, dec) == Err(e)
    ensures OpenRun(f, capacity, w, true, dec) == Opened([], Err(e))
  {
    hide Gates;
  }

  /** If what is left cannot be assembled or costs too much, every open is refused, and
      writes nothing. */
  lemma CutRefused(d: Buf, capacity: nat, w: bool, dec: Decoders, g: Gate, d1: Buf, p: nat, again: bool)
    requires Erasing(d, capacity, w, dec, g, d1) && g.header.logOffset + g.header.logLength <= |d1|
      && p <= g.header.logLength
    requires CollectedAfter(d1, g.header, p).Err?
    ensures |d1| < TWO64
    ensures OpenRun(ErasedTo(d1, g.header, p), capacity, again, true, dec)
      == Opened([], Err(CollectedAfter(d1, g.header, p).error))
  {
    hide OpenRun, Gates, Settle, Erasing, ErasedTo, CollectedAfter, PickTable;
    CutGates(d, capacity, w, dec, g, d1, p);
    RefusedOpen(ErasedTo(d1, g.header, p), capacity, again, dec,
                CollectedAfter(d1, g.header, p).error);
  }

  /** Off the log and the header slots the cut device is the one the open would have
      left. */
  lemma CutIsNear(d1: Buf, st: ReaderState, h: Header, slot: Slot, p: nat)
    requires h.logOffset >= ONE_MIB && h.logOffset + h.logLength <= |d1| && |d1| >= 2 * ONE_MIB && p <= h.logLength
    requires st.header == ClearedHeader(h)
    ensures Near(Cleared(d1, h, slot), ErasedTo(d1, h, p), st)
  {
    hide Splice, EncodedHeader, Zeros;
    var e, f, lo := Cleared(d1, h, slot), ErasedTo(d1, h, p), h.logOffset;
    var e1, off, enc := Splice(d1, lo, Zeros(h.logLength)), slot.Other().Offset(), EncodedHeader(ClearedHeader(h));
    forall i | 0 <= i < |e| && !Control(st, i)
      ensures f[i] == e[i]
    {
      SpliceAt(d1, lo, Zeros(p), i);
      SpliceAt(d1, lo, Zeros(h.logLength), i);
      SpliceAt(e1, off, enc, i);
    }
  }

  lemma CutTable(d1: Buf, st: ReaderState, h: Header, slot: Slot, p: nat)
    requires h.logOffset >= ONE_MIB && h.logOffset + h.logLength <= |d1| && |d1| >= 2 * ONE_MIB && p <= h.logLength
    requires h.logLength > 0 && st.batOffset >= ONE_MIB && st.batOffset <= BatEnd(st) <= |d1|
      && st.batOffset + |st.bat| * ENTRY_BYTES <= BatEnd(st)
    requires Apart(st.batOffset, BatEnd(st), h.logOffset, h.logOffset + h.logLength)
    ensures BatOf(ErasedTo(d1, h, p), st) == BatOf(Cleared(d1, h, slot), st)
  {
    hide Splice, EncodedHeader, Zeros, BatEnd, BatOf;
    var e, f, lo, hi := Cleared(d1, h, slot), ErasedTo(d1, h, p), st.batOffset, BatEnd(st);
    var e1, off, enc := Splice(d1, h.logOffset, Zeros(h.logLength)), slot.Other().Offset(),
      EncodedHeader(ClearedHeader(h));
    SpliceApart(d1, h.logOffset, Zeros(p), lo, hi);
    SpliceApart(d1, h.logOffset, Zeros(h.logLength), lo, hi);
    SpliceApart(e1, off, enc, lo, hi);
    BatSlices(e, f, st);
  }

  /** If nothing is left to collect, the reopen has nothing to do and goes on with the
      old header, the same geometry and table, and the same disk: for an image laid out
      as it should be. */
  lemma CutQuiet(d: Buf, capacity: nat, w: bool, dec: Decoders, g: Gate, d1: Buf, p: nat, again: bool)
    requires Erasing(d, capacity, w, dec, g, d1) && g.header.logOffset + g.header.logLength <= |d1|
      && p <= g.header.logLength
    requires CollectedAfter(d1, g.header, p) == Ok([])
    requires var st := OpenRun(d, capacity, w, true, dec).result.value;
      Settle(d1, g.header, dec).Ok? && Find(Settle(d1, g.header, dec).value, MetadataRegion).Some?
      && st.geometry.blockSize > 0 && st.geometry.ratio > 0
      && Layout(st, Find(Settle(d1, g.header, dec).value, MetadataRegion).value, |d1|)
    ensures var f, e, st := ErasedTo(d1, g.header, p), RunOps(d, OpenRun(d, capacity, w, true, dec).ops),
                            OpenRun(d, capacity, w, true, dec).result.value;
      |f| < TWO64
      && OpenRun(f, capacity, again, true, dec)
         == Opened([], Ok(st.(header := g.header, slot := g.slot, writable := again)))
      && Disk(f, st.geometry, st.bat) == Disk(e, st.geometry, st.bat)
  {
    hide OpenRun, Gates, Settle, Erasing, ErasedTo, CollectedAfter, PickTable, Load, Layout, Cleared, RunOps, ClearOps,
      Replay, PickHeader, LogRegionValid, Near, Anchored, ControlLayout, BlocksClear, BlocksApart, Disk, BatOf, BatEnd;
    ErasingEnds(d, capacity, w, dec, g, d1);
    CutGates(d, capacity, w, dec, g, d1, p);
    var h, rt := g.header, Settle(d1, g.header, dec).value;
    var f, e, st, m := ErasedTo(d1, h, p), Cleared(d1, h, g.slot), OpenRun(d, capacity, w, true, dec).result.value,
                       Find(rt, MetadataRegion).value;
    OpenedTables(d, capacity, w, dec, g, d1);
    LayoutParts(st, m, |e|);
    CutIsNear(d1, st, h, g.slot, p);
    NearAnchored(e, f, st, Setting(capacity, rt, m, dec));
    QuietOpen(f, capacity, again, dec, h, g.slot, rt);
    AnchoredLoads(f, st, Setting(capacity, rt, m, dec), h, g.slot, again);
    CutTable(d1, st, h, g.slot, p);
    NearDisk(e, f, st, m);
  }

  /** The open that was not cut has its table and its header as loaded. */
  lemma OpenedTables(d: Buf, capacity: nat, w: bool, dec: Decoders, g: Gate, d1: Buf)
    requires Erasing(d, capacity, w, dec, g, d1)
    requires Settle(d1, g.header, dec).Ok? && Find(Settle(d1, g.header, dec).value, MetadataRegion).Some?
    ensures g.header.logOffset + g.header.logLength <= |d1| && |d1| >= 2 * ONE_MIB
    ensures var rt, st := Settle(d1, g.header, dec).value, OpenRun(d, capacity, w, true, dec).result.value;
      var e := Cleared(d1, g.header, g.slot);
      Anchored(e, st, Setting(capacity, rt, Find(rt, MetadataRegion).value, dec))
      && st.batOffset + |st.bat| * ENTRY_BYTES <= |e| && BatOf(e, st) == st.bat
      && st.header == ClearedHeader(g.header) && st.slot == g.slot.Other() && st.devSize == |e|
  {
    hide OpenRun, Gates, Settle, PickTable, Load, Cleared, RunOps, ClearOps, Replay, PickHeader, LogRegionValid,
      Anchored, BatOf, StaysAboveHeaders;
    ErasingEnds(d, capacity, w, dec, g, d1);
    ReplayKeepsHeaders(d, capacity, g.chain);
    ReplayedHeader(d, d1, g.header, g.slot);
    var h, rt := g.header, Settle(d1, g.header, dec).value;
    var e, st := Cleared(d1, h, g.slot), OpenRun(d, capacity, w, true, dec).result.value;
    LoadKeepsHeader(e, ClearedHeader(h), g.slot.Other(), rt, w, dec);
    LoadCovers(e, st, ClearedHeader(h), g.slot.Other(), rt, w, dec);
    ClearedSettles(d1, h, g.slot, dec);
    ClearedFrame(d1, h, g.slot, 0, 8);
    assert e[..8] == e[0..8] && d1[..8] == d1[0..8];
    LoadedAnchored(e, st, capacity, rt, w, dec);
  }

  // ---- The whole chain again ----

  /** Writing the same things over two devices that agree outside the log keeps them in
      agreement there. */
  lemma AgreeOutside(a: Buf, b: Buf, ops: seq<DevOp>, lo: nat, hi: nat, i: nat)
    requires |a| == |b| && Inside(ops, |a|) && i < |a| && !(lo <= i < hi)
    requires forall k :: 0 <= k < |a| && !(lo <= k < hi) ==> a[k] == b[k]
    ensures |RunOps(a, ops)| == |RunOps(b, ops)| == |a| && RunOps(a, ops)[i] == RunOps(b, ops)[i]
  {
    RunByte(a, b, ops, i);
  }

  /** Devices that agree outside the log are the same once it is cleared. */
  lemma ClearedAlike(a: Buf, b: Buf, h: Header, slot: Slot)
    requires |a| == |b| && h.logOffset >= ONE_MIB && h.logOffset + h.logLength <= |a| && |a| >= 2 * ONE_MIB
    requires forall k :: 0 <= k < |a| && !(h.logOffset <= k < h.logOffset + h.logLength) ==> a[k] == b[k]
    ensures Cleared(a, h, slot) == Cleared(b, h, slot)
  {
    hide Splice, EncodedHeader, Zeros;
    var x, y := Splice(a, h.logOffset, Zeros(h.logLength)), Splice(b, h.logOffset, Zeros(h.logLength));
    forall i | 0 <= i < |a|
      ensures x[i] == y[i]
    {
      SpliceAt(a, h.logOffset, Zeros(h.logLength), i);
      SpliceAt(b, h.logOffset, Zeros(h.logLength), i);
    }
    assert x == y;
  }

  lemma SplicePadded(d: Buf, z: Buf, off: nat, b: Buf)
    requires off + |b| <= |d|
    ensures Splice(d + z, off, b) == Splice(d, off, b) + z
  {
    assert (d + z)[..off] == d[..off] && (d + z)[off + |b|..] == d[off + |b|..] + z;
  }

  lemma ClearedPadded(d: Buf, z: Buf, h: Header, slot: Slot)
    requires h.logOffset + h.logLength <= |d| && |d| >= 0x2_1000
    ensures Cleared(d + z, h, slot) == Cleared(d, h, slot) + z
  {
    hide Splice, EncodedHeader, Zeros;
    SplicePadded(d, z, h.logOffset, Zeros(h.logLength));
    SplicePadded(Splice(d, h.logOffset, Zeros(h.logLength)), z, slot.Other().Offset(), EncodedHeader(ClearedHeader(h)));
  }

  lemma GeometryPadded(d: Buf, z: Buf, rt: RegionTable, dec: Decoders)
    requires LoadGeometry(d, rt, dec).Ok?
    ensures LoadGeometry(d + z, rt, dec) == LoadGeometry(d, rt, dec) && LegalGeometry(LoadGeometry(d, rt, dec).value)
  {
    hide CheckGeometry, LegalGeometry, Find;
    GeometryIsLegal(d, rt, dec);
    var m := Find(rt, MetadataRegion).value;
    assert (d + z)[m.offset..m.offset + m.length] == d[m.offset..m.offset + m.length];
  }

  /** Zeros past the end of the device change neither what it loads as nor its disk. */
  lemma LoadPadded(d: Buf, z: Buf, h: Header, slot: Slot, rt: RegionTable, w: bool, again: bool, dec: Decoders)
    requires Load(d, h, slot, rt, w, dec).Ok?
    ensures Load(d + z, h, slot, rt, again, dec)
      == Ok(Load(d, h, slot, rt, w, dec).value.(devSize := |d + z|, writable := again))
  {
    hide LoadGeometry, RequiredEntries, DecodeBat, LegalGeometry, Find;
    var g, r := LoadGeometry(d, rt, dec).value, Find(rt, BatRegion).value;
    GeometryPadded(d, z, rt, dec);
    LegalSizesPositive(g);
    CoverageIsTight(r.length, g.virtualSize, g.blockSize, g.ratio);
    var n := RequiredEntries(r.length, g.virtualSize, g.blockSize, g.ratio).value;
    assert (d + z)[r.offset..r.offset + n * ENTRY_BYTES] == d[r.offset..r.offset + n * ENTRY_BYTES];
  }

  lemma LegalSizesPositive(g: Geometry)
    requires LegalGeometry(g)
    ensures g.blockSize > 0 && g.ratio > 0
  {
  }

  lemma DiskPadded(d: Buf, k: nat, g: Geometry, bat: seq<BatEntry>)
    requires g.blockSize > 0 && g.ratio > 0
    ensures Disk(d + Zeros(k), g, bat) == Disk(d, g, bat)
  {
    hide DataBatIndex, BlockOf, InBlock;
    var x, y := Disk(d + Zeros(k), g, bat), Disk(d, g, bat);
    forall v | 0 <= v < g.virtualSize
      ensures x[v] == y[v]
    {
    }
  }

  /** Applying the chain again to a device that has lost some of its log: outside the log
      it is as it was, and longer by zeros. */
  lemma AgainRuns(d: Buf, capacity: nat, chain: seq<LogEntry>, d1: Buf, f: Buf, lo: nat, hi: nat)
    requires |d| <= capacity < 0x8000_0000_0000_0000
    requires Replay(|d|, capacity, chain).result.Ok? && d1 == RunOps(d, Replay(|d|, capacity, chain).ops)
    requires |f| == |d1| && forall k :: 0 <= k < |f| && !(lo <= k < hi) ==> f[k] == d1[k]
    ensures |d1| <= capacity
    ensures Replay(|d1|, capacity, chain).result.Ok? <==> AllowedExtent(|d1|, chain) <= capacity
    ensures Replay(|d1|, capacity, chain).result.Ok? ==>
      var x, extent := RunOps(f, Replay(|d1|, capacity, chain).ops), AllowedExtent(|d1|, chain);
      |x| == extent >= |d1| && forall i :: 0 <= i < extent && !(lo <= i < hi) ==> x[i] == (d1 + Zeros(extent - |d1|))[i]
  {
    hide AllowedExtent, ChainOps, AllFit, Flatten, RunOps, Replay, Inside, CrashState, LastLanding;
    WholeCrash(d, Replay(|d|, capacity, chain).ops);
    ReplaySurvivesCrash(d, capacity, chain, Cut(|Replay(|d|, capacity, chain).ops|));
    ReplayMeaning(d, capacity, chain);
    var extent := AllowedExtent(|d1|, chain);
    if Replay(|d1|, capacity, chain).result.Ok? {
      ReplayedIsRun(d1, capacity, chain);
      ReplayedIsRun(f, capacity, chain);
      ReplayGoes(|d1|, capacity, chain);
      ExtentIsLarger(|d1|, chain);
      ChainInside(chain, extent);
      var z := Zeros(extent - |d1|);
      RunLength(f + z, ChainOps(chain));
      forall i | 0 <= i < extent && !(lo <= i < hi)
        ensures RunOps(f + z, ChainOps(chain))[i] == RunOps(d1 + z, ChainOps(chain))[i]
      {
        AgreeOutside(f + z, d1 + z, ChainOps(chain), lo, hi, i);
      }
    }
  }

  lemma WholeCrash(d: Buf, ops: seq<DevOp>)
    ensures CrashOf(ops, Cut(|ops|)) && CrashState(d, ops, Cut(|ops|)) == RunOps(d, ops)
  {
    assert ops[..|ops|] == ops;
  }

  lemma CutAgrees(d1: Buf, h: Header, p: nat)
    requires p <= h.logLength && h.logOffset + h.logLength <= |d1|
    ensures var f := ErasedTo(d1, h, p);
      forall k :: 0 <= k < |f| && !(h.logOffset <= k < h.logOffset + h.logLength) ==> f[k] == d1[k]
  {
    hide Splice, Zeros;
    forall k | 0 <= k < |d1| && !(h.logOffset <= k < h.logOffset + h.logLength)
      ensures Splice(d1, h.logOffset, Zeros(p))[k] == d1[k]
    {
      SpliceAt(d1, h.logOffset, Zeros(p), k);
    }
  }

  lemma ReplayingOpen(f: Buf, capacity: nat, w: bool, dec: Decoders, g: Gate)
    requires |f| < TWO64 && Gates(f, true, dec) == Ok(g) && g.chain != []
    ensures var done := Replay(|f|, capacity, g.chain);
      var x := RunOps(f, done.ops);
      (done.result.Err? ==> OpenRun(f, capacity, w, true, dec) == Opened([], Err(LogReplay)))
      && (done.result.Ok? && Settle(x, g.header, dec).Ok? ==>
            OpenRun(f, capacity, w, true, dec)
            == Opened(done.ops + ClearOps(g.header, g.slot),
                      Load(RunOps(x, ClearOps(g.header, g.slot)), ClearedHeader(g.header), g.slot.Other(),
                           Settle(x, g.header, dec).value, w, dec)))
  {
    hide Gates, Settle, Load, Replay, RunOps, ClearOps;
  }

  /** Agreeing below the log means agreeing on the region table. */
  lemma TablesAgree(x: Buf, d1: Buf, dec: Decoders, lo: nat, hi: nat)
    requires ONE_MIB <= |d1| <= |x| && ONE_MIB <= lo
    requires forall i :: 0 <= i < |x| && !(lo <= i < hi) ==> x[i] == (d1 + Zeros(|x| - |d1|))[i]
    ensures PickTable(x, dec) == PickTable(d1, dec)
  {
    hide PickTable;
    forall i | TABLE1 <= i < TABLES_END
      ensures x[i] == d1[i]
    {
    }
    assert x[TABLE1..TABLES_END] == d1[TABLE1..TABLES_END];
    PickTableFrame(x, d1, dec);
  }

  /** What the reopen of a cut device comes to when the whole chain is collected again. */
  lemma AgainOpens(d: Buf, capacity: nat, w: bool, dec: Decoders, g: Gate, d1: Buf, f: Buf, again: bool)
    requires Erasing(d, capacity, w, dec, g, d1) && g.header.logOffset + g.header.logLength <= |d1|
      && |f| == |d1| < TWO64
    requires forall k :: 0 <= k < |f| && !(g.header.logOffset <= k < g.header.logOffset + g.header.logLength) ==>
      f[k] == d1[k]
    requires Gates(f, true, dec) == Ok(g) && AllowedExtent(|d1|, g.chain) <= capacity
    ensures var e, k := RunOps(d, OpenRun(d, capacity, w, true, dec).ops), AllowedExtent(|d1|, g.chain) - |d1|;
      k >= 0 && var o := OpenRun(f, capacity, again, true, dec);
      RunOps(f, o.ops) == e + Zeros(k)
      && o.result == Ok(OpenRun(d, capacity, w, true, dec).result.value.(devSize := |e| + k, writable := again))
  {
    hide OpenRun, Gates, Settle, Erasing, PickTable, Load, Cleared, RunOps, ClearOps, Replay, PickHeader,
      LogRegionValid, AllowedExtent, Zeros;
    ErasingEnds(d, capacity, w, dec, g, d1);
    var h, chain := g.header, g.chain;
    var lo, hi, extent := h.logOffset, h.logOffset + h.logLength, AllowedExtent(|d1|, chain);
    var done := Replay(|f|, capacity, chain);
    ExtentIsLarger(|d1|, chain);
    var x, y := RunOps(f, done.ops), d1 + Zeros(extent - |d1|);
    AgainRuns(d, capacity, chain, d1, f, lo, hi);
    TablesAgree(x, d1, dec, lo, hi);
    SameSettle(d1, x, h, dec);
    ReplayingOpen(f, capacity, again, dec, g);
    RunConcat(f, done.ops, ClearOps(h, g.slot));
    ClearRun(x, h, g.slot);
    ClearedAlike(x, y, h, g.slot);
    ClearedPadded(d1, Zeros(extent - |d1|), h, g.slot);
    LoadPadded(Cleared(d1, h, g.slot), Zeros(extent - |d1|), ClearedHeader(h), g.slot.Other(),
      Settle(d1, h, dec).value, w, again, dec);
  }

  /** If the whole chain is collected again, the reopen applies it again and ends where
      the open that was cut would have, on a device longer at most by zeros: exactly when
      the device can still grow by what the chain may then ask for. Otherwise it is
      refused, and so is every open after it. */
  lemma CutReplays(d: Buf, capacity: nat, w: bool, dec: Decoders, g: Gate, d1: Buf, p: nat, again: bool)
    requires Erasing(d, capacity, w, dec, g, d1) && g.header.logOffset + g.header.logLength <= |d1|
      && p <= g.header.logLength
    requires CollectedAfter(d1, g.header, p) == Ok(g.chain)
    ensures |d1| < TWO64
    ensures var f, e, k := ErasedTo(d1, g.header, p), RunOps(d, OpenRun(d, capacity, w, true, dec).ops),
                           AllowedExtent(|d1|, g.chain) - |d1|;
      var o, st := OpenRun(f, capacity, again, true, dec), OpenRun(d, capacity, w, true, dec).result.value;
      k >= 0 && st.geometry.blockSize > 0 && st.geometry.ratio > 0
      && (AllowedExtent(|d1|, g.chain) <= capacity ==>
            RunOps(f, o.ops) == e + Zeros(k) && o.result == Ok(st.(devSize := |e| + k, writable := again))
            && Disk(RunOps(f, o.ops), st.geometry, st.bat) == Disk(e, st.geometry, st.bat))
      && (AllowedExtent(|d1|, g.chain) > capacity ==> o == Opened([], Err(LogReplay)))
  {
    hide OpenRun, Gates, Settle, Erasing, PickTable, Load, Cleared, RunOps, ClearOps, Replay, PickHeader,
      LogRegionValid, AllowedExtent, Zeros, ErasedTo, CollectedAfter, Disk;
    ErasingEnds(d, capacity, w, dec, g, d1);
    CutGates(d, capacity, w, dec, g, d1, p);
    assert g == Gate(g.header, g.slot, g.chain);
    var f := ErasedTo(d1, g.header, p);
    CutAgrees(d1, g.header, p);
    AgainRuns(d, capacity, g.chain, d1, f, g.header.logOffset, g.header.logOffset + g.header.logLength);
    ExtentIsLarger(|d1|, g.chain);
    OpenedGeometry(d, capacity, w, dec);
    if AllowedExtent(|d1|, g.chain) <= capacity {
      AgainOpens(d, capacity, w, dec, g, d1, f, again);
      var st := OpenRun(d, capacity, w, true, dec).result.value;
      DiskPadded(RunOps(d, OpenRun(d, capacity, w, true, dec).ops), AllowedExtent(|d1|, g.chain) - |d1|, st.geometry,
        st.bat);
    } else {
      ReplayingOpen(f, capacity, again, dec, g);
    }
  }

  lemma OpenedGeometry(d: Buf, capacity: nat, w: bool, dec: Decoders)
    requires |d| < TWO64 && OpenRun(d, capacity, w, true, dec).result.Ok?
    ensures var st := OpenRun(d, capacity, w, true, dec).result.value;
      st.geometry.blockSize > 0 && st.geometry.ratio > 0
  {
    hide OpenRun, LegalGeometry, Covers;
    OpenCovers(d, capacity, w, true, dec, 0, 0);
    LegalSizesPositive(OpenRun(d, capacity, w, true, dec).result.value.geometry);
  }

  /** There is never more room to ask for if the chain's largest last-file-offset was
      within the growth ceiling of the device it was first applied to. */
  lemma NoMoreRoom(d: Buf, capacity: nat, w: bool, dec: Decoders, g: Gate, d1: Buf)
    requires Erasing(d, capacity, w, dec, g, d1)
    ensures |d1| <= capacity
    ensures AllowedExtent(|d1|, g.chain) == |d1|
      <==> MaxLast(g.chain) <= Ceiling(|d|, g.chain) || DescriptorCount(g.chain) == 0
  {
    hide OpenRun, Gates, Settle, Erasing, Load, Cleared, RunOps, ClearOps, Replay, PickHeader, LogRegionValid,
      AllowedExtent, MaxLast, DescriptorCount, Ceiling, LastLanding, AllFit, Flatten;
    WithinBounds(d, capacity, w, dec, g, d1);
    ErasingEnds(d, capacity, w, dec, g, d1);
    ReplayMeaning(d, capacity, g.chain);
    ExtentAgain(d, g.chain);
  }

  /** A reopen of `f` succeeds, with the geometry, the table and the disk of the image
      `e`, `st`. */
  ghost predicate EndsAs(f: Buf, capacity: nat, w: bool, dec: Decoders, e: Buf, st: ReaderState) {
    |f| < TWO64 && st.geometry.blockSize > 0 && st.geometry.ratio > 0
    && var o := OpenRun(f, capacity, w, true, dec);
       o.result.Ok? && o.result.value.geometry == st.geometry && o.result.value.bat == st.bat
       && Disk(RunOps(f, o.ops), st.geometry, st.bat) == Disk(e, st.geometry, st.bat)
  }

  /** The image a replaying open leaves is laid out as it should be. */
  ghost predicate LaidOut(d1: Buf, st: ReaderState, h: Header, dec: Decoders) {
    Settle(d1, h, dec).Ok? && Find(Settle(d1, h, dec).value, MetadataRegion).Some?
    && st.geometry.blockSize > 0 && st.geometry.ratio > 0
    && Layout(st, Find(Settle(d1, h, dec).value, MetadataRegion).value, |d1|)
  }

  /** With none or all of the chain left in the log, and room for the growth it may ask
      for again, a cut in the erase is harmless. */
  lemma CutHarmless(d: Buf, capacity: nat, w: bool, dec: Decoders, g: Gate, d1: Buf, p: nat, again: bool)
    requires Erasing(d, capacity, w, dec, g, d1) && g.header.logOffset + g.header.logLength <= |d1|
      && p <= g.header.logLength
    requires var log, guid := LogRegion(d1, g.header), g.header.logGuid;
      p % SECTOR == 0 && !IsZeroGuid(guid) && WrapsDetected(log, guid, p) && NothingHidden(log, guid, p)
      && Collect(log, guid) == Ok(g.chain) && g.chain != [] && ScanCost(Wiped(log, p), guid) <= PASSES * |log|
      && Scan(log, guid, 0) != [] && Head(Scan(log, guid, 0)) in g.chain
      && ((forall e :: e in Scan(log, guid, 0) ==> !Left(log, e, p)) || forall e :: e in g.chain ==> Left(log, e, p))
    requires |d1| < TWO64 && AllowedExtent(|d1|, g.chain) <= capacity
    requires LaidOut(d1, OpenRun(d, capacity, w, true, dec).result.value, g.header, dec)
    ensures EndsAs(ErasedTo(d1, g.header, p), capacity, again, dec,
                   RunOps(d, OpenRun(d, capacity, w, true, dec).ops), OpenRun(d, capacity, w, true, dec).result.value)
  {
    hide OpenRun, Erasing, ErasedTo, WrapsDetected, NothingHidden, Collect, ScanCost, Scan, Left, Wiped, Head,
      AllowedExtent, Layout, Settle, RunOps, Disk, LogRegion, Zeros;
    var h := g.header;
    LogRegionSize(d1, h);
    NoneOrAll(LogRegion(d1, h), h.logGuid, g.chain, p);
    if CollectedAfter(d1, h, p) == Ok([]) {
      CutQuiet(d, capacity, w, dec, g, d1, p, again);
      RunNothing(ErasedTo(d1, h, p), []);
    } else {
      CutReplays(d, capacity, w, dec, g, d1, p, again);
    }
  }

  /** There may be: one descriptor and a last file offset of 1 GiB take a file of 4 MiB to
      260 MiB, and ask for more when applied again. */
  lemma GrowthRunsOut(chain: seq<LogEntry>)
    requires DescriptorCount(chain) == 1 && MaxLast(chain) == 1024 * ONE_MIB
    ensures AllowedExtent(4 * ONE_MIB, chain) == 260 * ONE_MIB && AllowedExtent(260 * ONE_MIB, chain) > 260 * ONE_MIB
  {
  }

  lemma WithinBounds(d: Buf, capacity: nat, w: bool, dec: Decoders, g: Gate, d1: Buf)
    requires Erasing(d, capacity, w, dec, g, d1)
    ensures |d| <= capacity < 0x8000_0000_0000_0000
  {
  }
}
