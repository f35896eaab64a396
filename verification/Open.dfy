/** Opening an image (`open_inner` in src/reader.rs): the gates before a write, the
    replay, the erase and the header that marks the log consumed, and the load. */
module Open {
  import opened Bytes
  import opened LogFormat
  import opened LogChain
  import opened LogReplay
  import opened Devices
  import opened Headers
  import opened Bat

  const IDENTIFIER: Buf := [0x76, 0x68, 0x64, 0x78, 0x66, 0x69, 0x6C, 0x65]
  const TABLE1: nat := 0x3_0000
  const TABLE2: nat := 0x4_0000
  const TABLE_SIZE: nat := 0x1_0000

  datatype RegionKind = BatRegion | MetadataRegion | OtherRegion
  datatype Region = Region(kind: RegionKind, offset: u64, length: u32, required: bool)
  type RegionTable = seq<Region>

  datatype Metadata = Metadata(blockSize: u32, virtualSize: u64, sectorSize: u32, hasParent: bool,
    unknownRequired: bool)

  /** How the bytes of a region table and of the metadata region are decoded: any
      functions of those bytes. */
  datatype Decoders = Decoders(table: Buf -> Option<RegionTable>, metadata: Buf -> Option<Metadata>)

  datatype Geometry = Geometry(blockSize: u32, sectorSize: u32, virtualSize: u64, ratio: nat)

  datatype ReaderState = ReaderState(
    devSize: nat, header: Header, slot: Slot, geometry: Geometry, batOffset: u64, bat: seq<BatEntry>, writable: bool)

  function Find(rt: RegionTable, kind: RegionKind): (r: Option<Region>)
    ensures r.Some? ==> r.value in rt && r.value.kind == kind
  {
    if rt == [] then None else if rt[0].kind == kind then Some(rt[0]) else Find(rt[1..], kind)
  }

  predicate UnknownRequired(rt: RegionTable) {
    exists r :: r in rt && r.required && r.kind.OtherRegion?
  }

  // ---- The gates ----

  predicate LogRegionValid(size: nat, h: Header) {
    h.logLength == 0
    || (h.logOffset % ONE_MIB == 0 && h.logLength % ONE_MIB == 0
        && h.logOffset >= ONE_MIB && h.logOffset + h.logLength <= size)
  }

  predicate LogClearOf(r: Region, h: Header) {
    var start, end := r.offset, SaturatingAdd(r.offset, r.length);
    var logEnd := SaturatingAdd(h.logOffset, h.logLength);
    !(h.logOffset < end && start < logEnd)
  }

  predicate LogClear(rt: RegionTable, h: Header) {
    h.logLength == 0 || forall r :: r in rt ==> LogClearOf(r, h)
  }

  function ProbeTable(d: Buf, off: nat, dec: Decoders): Option<RegionTable> {
    if |d| < off + TABLE_SIZE then None else dec.table(d[off..off + TABLE_SIZE])
  }

  function PickTable(d: Buf, dec: Decoders): Result<RegionTable> {
    match ProbeTable(d, TABLE1, dec)
    case Some(t) => Ok(t)
    case None =>
      match ProbeTable(d, TABLE2, dec)
      case Some(t) => Ok(t)
      case None => Err(NoValidRegionTable)
  }

  function LogRegion(d: Buf, h: Header): Buf
    requires h.logOffset + h.logLength <= |d|
  {
    d[h.logOffset..h.logOffset + h.logLength]
  }

  /** The chain waiting in the log. */
  function Pending(d: Buf, h: Header): Result<seq<LogEntry>> {
    if IsZeroGuid(h.logGuid) || h.logLength == 0 || h.logOffset == 0 then Ok([])
    else if h.logOffset + h.logLength > |d| then Err(Corrupt)
    else Collect(LogRegion(d, h), h.logGuid)
  }

  datatype Gate = Gate(header: Header, slot: Slot, chain: seq<LogEntry>)

  /** Everything `open_inner` settles before it may write. */
  function Gates(d: Buf, replayCapable: bool, dec: Decoders): Result<Gate> {
    if |d| < 8 then Err(Io)
    else if d[..8] != IDENTIFIER then Err(NotVhdx)
    else
      var (h, slot) :- PickHeader(d);
      var _ :- Need(h.logVersion == 0, Unsupported);
      var _ :- Need(LogRegionValid(|d|, h), Corrupt);
      var rt :- PickTable(d, dec);
      var _ :- Need(LogClear(rt, h), Corrupt);
      var chain :- Pending(d, h);
      var _ :- Need(chain == [] || replayCapable, LogNeedsReplay);
      Ok(Gate(h, slot, chain))
  }

  /** The region table as it stands after replay, and what it must allow. */
  function Settle(d: Buf, h: Header, dec: Decoders): Result<RegionTable> {
    var rt :- PickTable(d, dec);
    var _ :- Need(!UnknownRequired(rt), Unsupported);
    var _ :- Need(LogClear(rt, h), Corrupt);
    Ok(rt)
  }

  // ---- Loading ----

  function LoadGeometry(d: Buf, rt: RegionTable, dec: Decoders): Result<Geometry> {
    match Find(rt, MetadataRegion)
    case None => Err(Corrupt)
    case Some(r) =>
      if r.offset + r.length > |d| then Err(Corrupt)
      else
        match dec.metadata(d[r.offset..r.offset + r.length])
        case None => Err(BadMetadata)
        case Some(m) => CheckGeometry(m)
  }

  function CheckGeometry(m: Metadata): (r: Result<Geometry>)
    ensures r.Ok? ==> LegalGeometry(r.value)
  {
    if !IsPowerOfTwo(m.blockSize) || m.blockSize < ONE_MIB || m.blockSize > 256 * ONE_MIB then Err(Corrupt)
    else if !LegalSectorSize(m.sectorSize) then Err(Corrupt)
    else if m.hasParent || m.unknownRequired then Err(Unsupported)
    else
      LegalSizes(m.blockSize);
      ChunkRatioBounds(m.blockSize, m.sectorSize);
      Ok(Geometry(m.blockSize, m.sectorSize, m.virtualSize, ChunkRatio(m.blockSize, m.sectorSize)))
  }

  predicate LegalGeometry(g: Geometry) {
    LegalBlockSize(g.blockSize) && LegalSectorSize(g.sectorSize)
    && g.ratio == ChunkRatio(g.blockSize, g.sectorSize) && 16 <= g.ratio <= 32768
  }

  function DecodeBat(bytes: Buf, n: nat): (bat: seq<BatEntry>)
    requires n * ENTRY_BYTES <= |bytes|
    ensures |bat| == n && forall i :: 0 <= i < n ==> bat[i] == FromU64(ReadU64(bytes, i * ENTRY_BYTES))
  {
    seq(n, i requires 0 <= i < n => FromU64(ReadU64(bytes, i * ENTRY_BYTES)))
  }

  function Load(d: Buf, h: Header, slot: Slot, rt: RegionTable, writable: bool, dec: Decoders): Result<ReaderState> {
    var g :- LoadGeometry(d, rt, dec);
    match Find(rt, BatRegion)
    case None => Err(Corrupt)
    case Some(r) =>
      if r.offset + r.length > |d| then Err(Corrupt)
      else
        var n :- RequiredEntries(r.length, g.virtualSize, g.blockSize, g.ratio);
        Ok(ReaderState(|d|, h, slot, g, r.offset, LoadBat(d, r, g, n), writable))
  }

  function LoadBat(d: Buf, r: Region, g: Geometry, n: nat): seq<BatEntry>
    requires r.offset + r.length <= |d| && LegalGeometry(g)
    requires RequiredEntries(r.length, g.virtualSize, g.blockSize, g.ratio) == Ok(n)
  {
    CoverageIsTight(r.length, g.virtualSize, g.blockSize, g.ratio);
    DecodeBat(d[r.offset..r.offset + n * ENTRY_BYTES], n)
  }

  // ---- The whole of open ----

  /** Marks a replayed chain consumed. */
  function ClearedHeader(h: Header): Header {
    h.(sequence := (h.sequence + 1) % TWO64, logGuid := Zeros(16))
  }

  function EraseOps(h: Header): seq<DevOp> { ZeroOps(h.logOffset, h.logLength) + [Flush] }

  function ClearOps(h: Header, slot: Slot): seq<DevOp> {
    EraseOps(h) + [Write(slot.Other().Offset(), EncodedHeader(ClearedHeader(h))), Flush]
  }

  datatype Opened = Opened(ops: seq<DevOp>, result: Result<ReaderState>)

  function OpenWithout(d: Buf, g: Gate, writable: bool, dec: Decoders): Result<ReaderState> {
    var rt :- Settle(d, g.header, dec);
    Load(d, g.header, g.slot, rt, writable, dec)
  }

  /** `open_inner` on the bytes `d`: the operations it carries out, and its result. */
  function OpenRun(d: Buf, capacity: nat, writable: bool, replayCapable: bool, dec: Decoders): Opened
    requires |d| < TWO64
  {
    match Gates(d, replayCapable, dec)
    case Err(e) => Opened([], Err(e))
    case Ok(g) =>
      if g.chain == [] then Opened([], OpenWithout(d, g, writable, dec))
      else
        var done := Replay(|d|, capacity, g.chain);
        if done.result.Err? then Opened([], Err(LogReplay))
        else
          var rest := AfterReplay(RunOps(d, done.ops), g, writable, dec);
          Opened(done.ops + rest.ops, rest.result)
  }

  /** The region table again, the erase and the cleared header, and the load. */
  function AfterReplay(d1: Buf, g: Gate, writable: bool, dec: Decoders): Opened {
    match Settle(d1, g.header, dec)
    case Err(e) => Opened([], Err(e))
    case Ok(rt) =>
      var clear := ClearOps(g.header, g.slot);
      Opened(clear, Load(RunOps(d1, clear), ClearedHeader(g.header), g.slot.Other(), rt, writable, dec))
  }

  // ---- What open promises ----

  /** Every error before the first write. */
  predicate BeforeAnyWrite(e: Error) { e in {NotVhdx, NoValidHeader, LogUnassembled, LogNeedsReplay} }

  lemma LateErrors(d: Buf, h: Header, slot: Slot, rt: RegionTable, writable: bool, dec: Decoders)
    ensures Settle(d, h, dec).Err? ==> !BeforeAnyWrite(Settle(d, h, dec).error)
    ensures Load(d, h, slot, rt, writable, dec).Err? ==> !BeforeAnyWrite(Load(d, h, slot, rt, writable, dec).error)
  {
  }

  /** A device operation is made only past every gate, and only by an opener that
      may replay; the errors that say nothing was written are right. */
  lemma OpenWritesOnlyPastGates(d: Buf, capacity: nat, writable: bool, replayCapable: bool, dec: Decoders)
    requires |d| <= capacity < 0x8000_0000_0000_0000
    ensures var o := OpenRun(d, capacity, writable, replayCapable, dec);
      (o.ops != [] ==>
        replayCapable && |d| >= 8 && d[..8] == IDENTIFIER && PickHeader(d).Ok?
        && var h := PickHeader(d).value.0;
           h.logVersion == 0 && LogRegionValid(|d|, h) && PickTable(d, dec).Ok? && LogClear(PickTable(d, dec).value, h)
           && Pending(d, h).Ok? && Pending(d, h).value != []
           && var chain := Pending(d, h).value;
              AllFit(Flatten(chain), AllowedExtent(|d|, chain)) && AllowedExtent(|d|, chain) <= capacity)
      && (o.result.Err? && BeforeAnyWrite(o.result.error) ==> o.ops == [])
  {
    hide PickHeader, Pending, LogRegionValid, LogClear, AllFit, AllowedExtent, RunOps;
    match Gates(d, replayCapable, dec)
    case Err(e) =>
    case Ok(g) =>
      if g.chain != [] {
        var done := Replay(|d|, capacity, g.chain);
        ExtentIsLength(d, g.chain);
        var d1 := RunOps(d, done.ops);
        if done.result.Ok? {
          LateErrors(d1, g.header, g.slot, [], writable, dec);
          match Settle(d1, g.header, dec)
          case Err(_) =>
          case Ok(rt) =>
            LateErrors(RunOps(d1, ClearOps(g.header, g.slot)), ClearedHeader(g.header), g.slot.Other(), rt, writable,
              dec);
        }
      }
  }

  /** The span erased after a replay lies inside the file, past its first megabyte,
      and clear of every region the table declares once the chain has been applied. */
  lemma EraseConfined(d: Buf, capacity: nat, replayCapable: bool, dec: Decoders)
    requires |d| <= capacity < 0x8000_0000_0000_0000
    requires Gates(d, replayCapable, dec).Ok?
    ensures var g := Gates(d, replayCapable, dec).value;
      var done := Replay(|d|, capacity, g.chain);
      g.chain != [] && done.result.Ok? && Settle(RunOps(d, done.ops), g.header, dec).Ok? ==>
        var h, d1 := g.header, RunOps(d, done.ops);
        ONE_MIB <= h.logOffset && h.logOffset + h.logLength <= |d1|
        && forall r :: r in PickTable(d1, dec).value ==>
             h.logOffset + h.logLength <= r.offset || r.offset + r.length <= h.logOffset
  {
    GateFacts(d, replayCapable, dec);
    hide Gates, Replay, RunOps, PickHeader, Settle, LogClear, LogRegionValid, Pending;
    var g := Gates(d, replayCapable, dec).value;
    var done := Replay(|d|, capacity, g.chain);
    if g.chain != [] && done.result.Ok? && Settle(RunOps(d, done.ops), g.header, dec).Ok? {
      ReplayMeaning(d, capacity, g.chain);
      ExtentIsLength(d, g.chain);
      EraseSpan(RunOps(d, done.ops), |d|, g.header, dec);
    }
  }

  lemma EraseSpan(d1: Buf, size: nat, h: Header, dec: Decoders)
    requires LogRegionValid(size, h) && h.logLength > 0 && size <= |d1| < 0x8000_0000_0000_0000
    requires Settle(d1, h, dec).Ok?
    ensures ONE_MIB <= h.logOffset && h.logOffset + h.logLength <= |d1| && PickTable(d1, dec).Ok?
    ensures forall r :: r in PickTable(d1, dec).value ==>
      h.logOffset + h.logLength <= r.offset || r.offset + r.length <= h.logOffset
  {
    forall r | r in PickTable(d1, dec).value
      ensures h.logOffset + h.logLength <= r.offset || r.offset + r.length <= h.logOffset
    {
      assert LogClearOf(r, h);
    }
  }

  /** What passing the gates says of the header. */
  lemma GateFacts(d: Buf, replayCapable: bool, dec: Decoders)
    requires Gates(d, replayCapable, dec).Ok?
    ensures var g := Gates(d, replayCapable, dec).value;
      |d| >= 8 && d[..8] == IDENTIFIER && PickHeader(d) == Ok((g.header, g.slot)) && g.header.logVersion == 0
      && LogRegionValid(|d|, g.header) && PickTable(d, dec).Ok? && LogClear(PickTable(d, dec).value, g.header)
      && Pending(d, g.header) == Ok(g.chain) && (g.chain != [] ==> replayCapable)
      && (g.chain != [] ==> g.header.logLength > 0 && !IsZeroGuid(g.header.logGuid))
  {
    hide PickHeader, LogRegionValid, LogClear, Collect;
    var p := PickHeader(d).value;
    assert p == (p.0, p.1);
  }

  // ---- What open leaves behind ----

  const TABLES_END: nat := 0x5_0000

  lemma PickTableFrame(d: Buf, e: Buf, dec: Decoders)
    requires |d| >= TABLES_END && |e| >= TABLES_END && d[TABLE1..TABLES_END] == e[TABLE1..TABLES_END]
    ensures PickTable(d, dec) == PickTable(e, dec)
  {
    SubSlice(d, TABLE1, TABLES_END, 0, TABLE_SIZE);
    SubSlice(e, TABLE1, TABLES_END, 0, TABLE_SIZE);
    SubSlice(d, TABLE1, TABLES_END, TABLE_SIZE, 2 * TABLE_SIZE);
    SubSlice(e, TABLE1, TABLES_END, TABLE_SIZE, 2 * TABLE_SIZE);
  }

  lemma ZeroRun(d: Buf, off: nat, len: nat)
    requires off + len <= |d|
    ensures RunOps(d, ZeroOps(off, len)) == Splice(d, off, Zeros(len))
  {
    ZeroInside(off, len, |d|);
    RunLength(d, ZeroOps(off, len));
    var a, b := RunOps(d, ZeroOps(off, len)), Splice(d, off, Zeros(len));
    hide RunOps, Splice;
    forall i | 0 <= i < |d|
      ensures a[i] == b[i]
    {
      ZeroRunByte(d, off, len, i);
      SpliceAt(d, off, Zeros(len), i);
    }
  }

  /** The device once the log is erased and the cleared header is in its slot. */
  function Cleared(d: Buf, h: Header, slot: Slot): (e: Buf)
    requires h.logOffset + h.logLength <= |d| && |d| >= 0x2_1000
    ensures |e| == |d|
  {
    Splice(Splice(d, h.logOffset, Zeros(h.logLength)), slot.Other().Offset(), EncodedHeader(ClearedHeader(h)))
  }

  lemma ClearRun(d: Buf, h: Header, slot: Slot)
    requires h.logOffset + h.logLength <= |d| && |d| >= 0x2_1000
    ensures RunOps(d, ClearOps(h, slot)) == Cleared(d, h, slot)
  {
    hide RunOps, RunOp, ZeroOps, EncodedHeader, Splice;
    var zero, enc := ZeroOps(h.logOffset, h.logLength), EncodedHeader(ClearedHeader(h));
    var w, d1 := Write(slot.Other().Offset(), enc), RunOps(d, zero);
    ZeroRun(d, h.logOffset, h.logLength);
    RunConcat(d, zero + [Flush], [w, Flush]);
    RunConcat(d, zero, [Flush]);
    RunFlush(d1);
    WriteThenFlush(d1, w.off, enc);
  }

  lemma WriteThenFlush(d: Buf, off: nat, b: Buf)
    requires off + |b| <= |d|
    ensures RunOps(d, [Write(off, b), Flush]) == Splice(d, off, b)
  {
    hide RunOps;
    assert [Write(off, b), Flush] == [Write(off, b)] + [Flush];
    RunConcat(d, [Write(off, b)], [Flush]);
    RunOne(d, Write(off, b));
    RunFlush(RunOps(d, [Write(off, b)]));
  }

  /** What clearing does not touch. */
  lemma ClearedFrame(d: Buf, h: Header, slot: Slot, lo: nat, hi: nat)
    requires h.logOffset >= ONE_MIB && h.logOffset + h.logLength <= |d| && |d| >= 0x2_1000
    requires lo <= hi <= |d| && (hi <= h.logOffset || h.logOffset + h.logLength <= lo)
    requires hi <= 0x1_0000 || lo >= 0x2_1000
    ensures Cleared(d, h, slot)[lo..hi] == d[lo..hi]
  {
    hide EncodedHeader, Splice;
    var d1 := Splice(d, h.logOffset, Zeros(h.logLength));
    SpliceOutside(d, h.logOffset, Zeros(h.logLength), lo, hi);
    SpliceOutside(d1, slot.Other().Offset(), EncodedHeader(ClearedHeader(h)), lo, hi);
  }

  /** The cleared header is the current one, unless its number wrapped. */
  lemma ClearedPicks(d: Buf, h: Header, slot: Slot)
    requires h.logOffset >= ONE_MIB && h.logOffset + h.logLength <= |d| && |d| >= 0x2_1000
    requires PickHeader(d) == Ok((h, slot)) && h.sequence < TWO64 - 1
    ensures PickHeader(Cleared(d, h, slot)) == Ok((ClearedHeader(h), slot.Other()))
  {
    PickedIsVersionOne(d);
    hide EncodedHeader, Splice, PickHeader;
    var d1 := Splice(d, h.logOffset, Zeros(h.logLength));
    SpliceOutside(d, h.logOffset, Zeros(h.logLength), 0x1_0000, 0x1_1000);
    SpliceOutside(d, h.logOffset, Zeros(h.logLength), 0x2_0000, 0x2_1000);
    PickHeaderFrame(d, d1);
    RotationTakes(d1, h, slot, ClearedHeader(h));
  }

  /** None of the chain's writes lands below the region tables. */
  predicate StaysAboveHeaders(chain: seq<LogEntry>) {
    forall x :: x in Flatten(chain) ==> x.Length() == 0 || x.fileOffset >= TABLE1
  }

  lemma ReplayKeepsHeaders(d: Buf, capacity: nat, chain: seq<LogEntry>)
    requires TABLE1 <= |d| <= capacity < 0x8000_0000_0000_0000 && StaysAboveHeaders(chain)
    requires Replay(|d|, capacity, chain).result.Ok?
    ensures var d1 := RunOps(d, Replay(|d|, capacity, chain).ops);
      |d| <= |d1| <= capacity && d1[..TABLE1] == d[..TABLE1]
  {
    hide RunOps, Replay, Flatten, ReplayedExtent, AllowedExtent, AllFit, StaysAboveHeaders, LastLanding;
    ReplayMeaning(d, capacity, chain);
    ExtentIsLength(d, chain);
    var d1 := RunOps(d, Replay(|d|, capacity, chain).ops);
    forall i | 0 <= i < TABLE1
      ensures d1[i] == d[i]
    {
      LandsAbove(chain, i, d[i], d1[i]);
    }
  }

  lemma LandsAbove(chain: seq<LogEntry>, i: nat, before: byte, after: byte)
    requires StaysAboveHeaders(chain) && i < TABLE1 && LastLanding(Flatten(chain), i, before, after)
    ensures after == before
  {
    hide Flatten;
    var ds := Flatten(chain);
    assert forall k :: 0 <= k < |ds| ==> ds[k] in ds && !Lands(ds[k], i);
  }

  /** A device as a replaying open leaves it: the chain applied, then cleared. */
  lemma OpenedDevice(d: Buf, capacity: nat, writable: bool, dec: Decoders)
    requires |d| <= capacity < 0x8000_0000_0000_0000
    requires OpenRun(d, capacity, writable, true, dec).result.Ok? && OpenRun(d, capacity, writable, true, dec).ops != []
    ensures var o := OpenRun(d, capacity, writable, true, dec);
      Gates(d, true, dec).Ok?
      && var g := Gates(d, true, dec).value;
         var done := Replay(|d|, capacity, g.chain);
         g.chain != [] && done.result.Ok?
         && var d1 := RunOps(d, done.ops);
            Settle(d1, g.header, dec).Ok? && 2 * ONE_MIB <= |d| <= |d1| <= capacity
            && g.header.logLength > 0 && LogRegionValid(|d|, g.header)
            && RunOps(d, o.ops) == Cleared(d1, g.header, g.slot)
            && o.result == Load(Cleared(d1, g.header, g.slot), ClearedHeader(g.header), g.slot.Other(),
                                Settle(d1, g.header, dec).value, writable, dec)
  {
    var g := Gates(d, true, dec).value;
    GateFacts(d, true, dec);
    var done := Replay(|d|, capacity, g.chain);
    ReplayMeaning(d, capacity, g.chain);
    ExtentIsLength(d, g.chain);
    hide Gates, Replay, Settle, Load, PickHeader, Pending, LogClear, PickTable, Cleared, ClearOps, RunOps,
      AllowedExtent, ReplayedExtent;
    var d1, clear := RunOps(d, done.ops), ClearOps(g.header, g.slot);
    LogRegionMeansMegabytes(|d|, g.header);
    RunConcat(d, done.ops, clear);
    ClearRun(d1, g.header, g.slot);
  }

  lemma LogRegionMeansMegabytes(size: nat, h: Header)
    requires LogRegionValid(size, h) && h.logLength > 0
    ensures h.logOffset >= ONE_MIB && h.logLength >= ONE_MIB && size >= 2 * ONE_MIB && h.logOffset + h.logLength <= size
  {
  }

  /** Opening twice is opening once. When the chain stays above the headers and the
      sequence number does not wrap, a replaying open leaves a current header that
      is the reader's own and names no log, and any further open carries out no
      operation and gives the same reader. */
  lemma OpenIdempotent(d: Buf, capacity: nat, writable: bool, dec: Decoders, again: bool, capable: bool)
    requires |d| <= capacity < 0x8000_0000_0000_0000
    requires OpenRun(d, capacity, writable, true, dec).result.Ok? && OpenRun(d, capacity, writable, true, dec).ops != []
    requires Gates(d, true, dec).Ok? && StaysAboveHeaders(Gates(d, true, dec).value.chain)
    requires Gates(d, true, dec).value.header.sequence < TWO64 - 1
    ensures var o := OpenRun(d, capacity, writable, true, dec);
      var e, st := RunOps(d, o.ops), o.result.value;
      |e| <= capacity && PickHeader(e) == Ok((st.header, st.slot)) && IsZeroGuid(st.header.logGuid)
      && OpenRun(e, capacity, again, capable, dec) == Opened([], Ok(st.(writable := again)))
  {
    OpenedDevice(d, capacity, writable, dec);
    GateFacts(d, true, dec);
    var g := Gates(d, true, dec).value;
    var done := Replay(|d|, capacity, g.chain);
    ReplayKeepsHeaders(d, capacity, g.chain);
    var d1 := RunOps(d, done.ops);
    ReplayedHeader(d, d1, g.header, g.slot);
    hide Gates, Replay, RunOps, OpenRun, PickHeader, StaysAboveHeaders, Pending, LogClear;
    LogRegionMeansMegabytes(|d|, g.header);
    Reopens(d1, g.header, g.slot, writable, dec, again, capable, capacity);
  }

  lemma ReplayedHeader(d: Buf, d1: Buf, h: Header, slot: Slot)
    requires 2 * ONE_MIB <= |d| <= |d1| && d1[..TABLE1] == d[..TABLE1] && PickHeader(d) == Ok((h, slot))
    requires d[..8] == IDENTIFIER
    ensures PickHeader(d1) == Ok((h, slot)) && d1[..8] == IDENTIFIER
  {
    hide PickHeader;
    SubSlice(d, 0, TABLE1, 0, 8);
    SubSlice(d1, 0, TABLE1, 0, 8);
    SubSlice(d, 0, TABLE1, 0x1_0000, 0x1_1000);
    SubSlice(d1, 0, TABLE1, 0x1_0000, 0x1_1000);
    SubSlice(d, 0, TABLE1, 0x2_0000, 0x2_1000);
    SubSlice(d1, 0, TABLE1, 0x2_0000, 0x2_1000);
    PickHeaderFrame(d, d1);
  }

  /** A cleared device passes the gates with nothing pending, and loads as it did. */
  lemma Reopens(d1: Buf, h: Header, slot: Slot, writable: bool, dec: Decoders, again: bool, capable: bool,
                capacity: nat)
    requires LogRegionValid(|d1|, h) && h.logLength > 0 && 2 * ONE_MIB <= |d1| < TWO64
    requires h.logOffset >= ONE_MIB && h.logOffset + h.logLength <= |d1|
    requires PickHeader(d1) == Ok((h, slot)) && d1[..8] == IDENTIFIER && h.logVersion == 0 && h.sequence < TWO64 - 1
    requires Settle(d1, h, dec).Ok?
    requires Load(Cleared(d1, h, slot), ClearedHeader(h), slot.Other(), Settle(d1, h, dec).value, writable, dec).Ok?
    ensures var e := Cleared(d1, h, slot);
      var st := Load(e, ClearedHeader(h), slot.Other(), Settle(d1, h, dec).value, writable, dec).value;
      st.header == ClearedHeader(h) && st.slot == slot.Other() && PickHeader(e) == Ok((st.header, st.slot))
      && OpenRun(e, capacity, again, capable, dec) == Opened([], Ok(st.(writable := again)))
  {
    hide Cleared, PickHeader, LogClear, LoadGeometry, LoadBat;
    var e, rt := Cleared(d1, h, slot), Settle(d1, h, dec).value;
    ClearedPicks(d1, h, slot);
    ClearedFrame(d1, h, slot, 0, 8);
    ClearedFrame(d1, h, slot, TABLE1, TABLES_END);
    assert e[..8] == e[0..8] && d1[..8] == d1[0..8];
    PickTableFrame(d1, e, dec);
    ClearSameLog(rt, h);
    assert Pending(e, ClearedHeader(h)) == Ok([]);
  }

  lemma ClearSameLog(rt: RegionTable, h: Header)
    ensures LogClear(rt, ClearedHeader(h)) == LogClear(rt, h)
  {
    assert forall r :: r in rt ==> LogClearOf(r, ClearedHeader(h)) == LogClearOf(r, h);
  }

  // ---- The steps, on a device ----

  method PickTableOn(dev: Device, dec: Decoders) returns (r: Result<RegionTable>)
    ensures r == PickTable(dev.data, dec)
  {
    var offs := [TABLE1, TABLE2];
    var i := 0;
    while i < 2
      invariant 0 <= i <= 2
      invariant i > 0 ==> ProbeTable(dev.data, TABLE1, dec).None?
      invariant i > 1 ==> ProbeTable(dev.data, TABLE2, dec).None?
    {
      if |dev.data| >= offs[i] + TABLE_SIZE {
        var b := dev.ReadAt(offs[i], TABLE_SIZE);
        var t := dec.table(b.value);
        if t.Some? {
          return Ok(t.value);
        }
      }
      i := i + 1;
    }
    return Err(NoValidRegionTable);
  }

  method LogClearOn(rt: RegionTable, h: Header) returns (ok: bool)
    ensures ok <==> LogClear(rt, h)
  {
    if h.logLength == 0 {
      return true;
    }
    var i := 0;
    while i < |rt|
      invariant 0 <= i <= |rt| && forall k :: 0 <= k < i ==> LogClearOf(rt[k], h)
    {
      if !LogClearOf(rt[i], h) {
        return false;
      }
      i := i + 1;
    }
    return true;
  }

  /** Steps 1 to 3, up to the first write. */
  method CheckGates(dev: Device, replayCapable: bool, dec: Decoders) returns (r: Result<Gate>)
    ensures r == Gates(dev.data, replayCapable, dec)
  {
    hide PickHeader, Collect, LogClear, PickTable, ReadU64, ReadU32;
    var sig := dev.ReadAt(0, 8);
    if sig.Err? {
      return Err(Io);
    }
    if sig.value != IDENTIFIER {
      return Err(NotVhdx);
    }
    var picked := PickHeaderOn(dev);
    if picked.Err? {
      return Err(picked.error);
    }
    var h, slot := picked.value.0, picked.value.1;
    if h.logVersion != 0 {
      return Err(Unsupported);
    }
    if !LogRegionValid(|dev.data|, h) {
      return Err(Corrupt);
    }
    var rt := PickTableOn(dev, dec);
    if rt.Err? {
      return Err(rt.error);
    }
    var clear := LogClearOn(rt.value, h);
    if !clear {
      return Err(Corrupt);
    }
    var chain := PendingOn(dev, h);
    if chain.Err? {
      return Err(chain.error);
    }
    if chain.value != [] && !replayCapable {
      return Err(LogNeedsReplay);
    }
    return Ok(Gate(h, slot, chain.value));
  }

  method PendingOn(dev: Device, h: Header) returns (r: Result<seq<LogEntry>>)
    ensures r == Pending(dev.data, h)
  {
    if h.logGuid == Zeros(16) || h.logLength == 0 || h.logOffset == 0 {
      return Ok([]);
    }
    if h.logOffset + h.logLength > |dev.data| {
      return Err(Corrupt);
    }
    var log := dev.ReadAt(h.logOffset, h.logLength);
    r := CollectReplayChain(log.value, h.logGuid);
  }

  method SettleOn(dev: Device, h: Header, dec: Decoders) returns (r: Result<RegionTable>)
    ensures r == Settle(dev.data, h, dec)
  {
    hide LogClear, PickTable;
    var rt := PickTableOn(dev, dec);
    if rt.Err? {
      return Err(rt.error);
    }
    if UnknownRequired(rt.value) {
      return Err(Unsupported);
    }
    var clear := LogClearOn(rt.value, h);
    if !clear {
      return Err(Corrupt);
    }
    return rt;
  }

  /** The BAT, entry by entry. */
  method ReadBat(bytes: Buf, n: nat) returns (bat: seq<BatEntry>)
    requires n * ENTRY_BYTES <= |bytes|
    ensures bat == DecodeBat(bytes, n)
  {
    bat := [];
    var i := 0;
    while i < n
      invariant 0 <= i <= n && |bat| == i
      invariant forall k :: 0 <= k < i ==> bat[k] == FromU64(ReadU64(bytes, k * ENTRY_BYTES))
    {
      bat := bat + [FromU64(ReadU64(bytes, i * ENTRY_BYTES))];
      i := i + 1;
    }
  }

  /** Steps 5 and 6. `size` is the length the reader believes the device has. */
  method LoadOn(dev: Device, size: nat, h: Header, slot: Slot, rt: RegionTable, writable: bool, dec: Decoders)
    returns (r: Result<ReaderState>)
    requires size == |dev.data|
    ensures r == Load(dev.data, h, slot, rt, writable, dec)
  {
    hide DecodeBat, CheckGeometry, RequiredEntries, ReadU64, FromU64;
    var metadata := Find(rt, MetadataRegion);
    if metadata.None? || metadata.value.offset + metadata.value.length > size {
      return Err(Corrupt);
    }
    var bytes := dev.ReadAt(metadata.value.offset, metadata.value.length);
    var m := dec.metadata(bytes.value);
    if m.None? {
      return Err(BadMetadata);
    }
    var g := CheckGeometry(m.value);
    if g.Err? {
      return Err(g.error);
    }
    r := LoadBatOn(dev, size, h, slot, rt, g.value, writable);
  }

  method LoadBatOn(dev: Device, size: nat, h: Header, slot: Slot, rt: RegionTable, g: Geometry, writable: bool)
    returns (r: Result<ReaderState>)
    requires size == |dev.data| && LegalGeometry(g)
    ensures match Find(rt, BatRegion)
      case None => r == Err(Corrupt)
      case Some(b) =>
        if b.offset + b.length > |dev.data| then r == Err(Corrupt)
        else
          match RequiredEntries(b.length, g.virtualSize, g.blockSize, g.ratio)
          case Err(e) => r == Err(e)
          case Ok(n) => r == Ok(ReaderState(|dev.data|, h, slot, g, b.offset, LoadBat(dev.data, b, g, n), writable))
  {
    hide DecodeBat, RequiredEntries, ReadU64, FromU64;
    var found := Find(rt, BatRegion);
    if found.None? || found.value.offset + found.value.length > size {
      return Err(Corrupt);
    }
    var b := found.value;
    var n := RequiredEntries(b.length, g.virtualSize, g.blockSize, g.ratio);
    if n.Err? {
      return Err(n.error);
    }
    CoverageIsTight(b.length, g.virtualSize, g.blockSize, g.ratio);
    var bytes := dev.ReadAt(b.offset, n.value * ENTRY_BYTES);
    var bat := ReadBat(bytes.value, n.value);
    return Ok(ReaderState(size, h, slot, g, b.offset, bat, writable));
  }

  /** `zero_log_region` and `rewrite_header_clear_log`. */
  method MarkConsumed(dev: Device, h: Header, slot: Slot) returns (next: Header)
    requires dev.Valid() && h.logOffset + h.logLength <= |dev.data| && |dev.data| >= 0x2_1000
    modifies dev
    ensures dev.Valid() && |dev.data| == |old(dev.data)| && next == ClearedHeader(h)
    ensures dev.trace == old(dev.trace) + ClearOps(h, slot) && dev.data == RunOps(old(dev.data), ClearOps(h, slot))
  {
    hide RunOps, RunOp, EncodedHeader, ZeroOps, Granted, Inside;
    ZeroInside(h.logOffset, h.logLength, |dev.data|);
    AllGranted(ZeroOps(h.logOffset, h.logLength), |dev.data|);
    ghost var zero, d0, t0 := ZeroOps(h.logOffset, h.logLength), dev.data, dev.trace;
    var _ := WriteZeros(dev, h.logOffset, h.logLength);
    dev.FlushAll();
    next := h.(sequence := (h.sequence + 1) % TWO64, logGuid := Zeros(16));
    var bytes := EncodeHeader(next);
    ghost var w := Write(slot.Other().Offset(), bytes);
    var _ := dev.WriteAt(slot.Other().Offset(), bytes);
    dev.FlushAll();
    ClearSteps(d0, zero, w);
    assert t0 + (zero + [Flush] + [w, Flush]) == ((t0 + zero) + [Flush] + [w]) + [Flush];
  }

  lemma ClearSteps(d: Buf, zero: seq<DevOp>, w: DevOp)
    ensures RunOps(d, zero + [Flush] + [w, Flush]) == RunOp(RunOps(d, zero), w)
  {
    hide RunOps, RunOp;
    RunConcat(d, zero + [Flush], [w, Flush]);
    RunConcat(d, zero, [Flush]);
    RunFlush(RunOps(d, zero));
    assert [w, Flush] == [w] + [Flush];
    RunConcat(RunOps(d, zero), [w], [Flush]);
    RunOne(RunOps(d, zero), w);
    RunFlush(RunOp(RunOps(d, zero), w));
  }

  method OpenInner(dev: Device, writable: bool, replayCapable: bool, dec: Decoders) returns (r: Result<ReaderState>)
    requires dev.Valid()
    modifies dev
    ensures dev.Valid()
    ensures var o := OpenRun(old(dev.data), dev.capacity, writable, replayCapable, dec);
      r == o.result && dev.trace == old(dev.trace) + o.ops && dev.data == RunOps(old(dev.data), o.ops)
  {
    hide Gates, Settle, Load, Replay, RunOps, ClearOps;
    RunNothing(dev.data, dev.trace);
    var gate := CheckGates(dev, replayCapable, dec);
    if gate.Err? {
      return Err(gate.error);
    }
    var g := gate.value;
    var size := |dev.data|;
    if g.chain == [] {
      var rt := SettleOn(dev, g.header, dec);
      if rt.Err? {
        return Err(rt.error);
      }
      r := LoadOn(dev, size, g.header, g.slot, rt.value, writable, dec);
      return;
    }
    r := OpenReplaying(dev, g, writable, replayCapable, dec);
  }

  method OpenReplaying(dev: Device, g: Gate, writable: bool, replayCapable: bool, dec: Decoders)
    returns (r: Result<ReaderState>)
    requires dev.Valid() && Gates(dev.data, replayCapable, dec) == Ok(g) && g.chain != []
    modifies dev
    ensures dev.Valid()
    ensures var o := OpenRun(old(dev.data), dev.capacity, writable, replayCapable, dec);
      r == o.result && dev.trace == old(dev.trace) + o.ops && dev.data == RunOps(old(dev.data), o.ops)
  {
    hide Gates, Settle, Load, Replay, RunOps, ClearOps, ReplayedExtent, AfterReplay, PickHeader, Pending, LogClear,
      PickTable, LogRegionValid;
    GateFacts(dev.data, replayCapable, dec);
    LogRegionMeansMegabytes(|dev.data|, g.header);
    ghost var d, t := dev.data, dev.trace;
    ghost var done := Replay(|d|, dev.capacity, g.chain);
    ReplayLengths(d, dev.capacity, g.chain);
    RunNothing(d, t);
    var size := |dev.data|;
    var applied := ApplyChain(dev, g.chain);
    if applied.Err? {
      return Err(LogReplay);
    }
    size := ReplayedExtent(size, g.chain);
    ghost var rest := AfterReplay(dev.data, g, writable, dec).ops;
    RunConcat(d, done.ops, rest);
    assert t + (done.ops + rest) == (t + done.ops) + rest;
    r := FinishReplay(dev, size, g, writable, dec);
  }

  method FinishReplay(dev: Device, size: nat, g: Gate, writable: bool, dec: Decoders) returns (r: Result<ReaderState>)
    requires dev.Valid() && size == |dev.data| && g.header.logOffset + g.header.logLength <= size && size >= 0x2_1000
    modifies dev
    ensures dev.Valid()
    ensures var o := AfterReplay(old(dev.data), g, writable, dec);
      r == o.result && dev.trace == old(dev.trace) + o.ops && dev.data == RunOps(old(dev.data), o.ops)
  {
    hide Settle, Load, RunOps, ClearOps;
    RunNothing(dev.data, dev.trace);
    var rt := SettleOn(dev, g.header, dec);
    if rt.Err? {
      return Err(rt.error);
    }
    var next := MarkConsumed(dev, g.header, g.slot);
    r := LoadOn(dev, size, next, g.slot.Other(), rt.value, writable, dec);
  }
}
