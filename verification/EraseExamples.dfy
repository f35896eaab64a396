/** Two images on which an open cut in its erase is not harmless: one is refused from
    then on, the other loses what the open had recovered. */
module EraseExamples {
  import opened Bytes
  import opened LogFormat
  import opened LogScan
  import opened LogChain
  import opened LogReplay
  import opened LogState
  import opened Devices
  import opened Headers
  import opened Bat
  import opened Open
  import opened Tables
  import opened Reader
  import opened Image
  import opened Recovery
  import opened ReopenCrash
  import opened CutErase
  import opened FreshImage
  import opened Refinement

  // ---- Scanning a log that is zeros but for a few entries ----

  ghost predicate ZeroIn(log: Buf, lo: nat, hi: nat)
    requires hi <= |log|
  {
    forall i :: lo <= i < hi ==> log[i] == 0
  }

  lemma NoSignatureAtZero(log: Buf, pos: nat)
    requires pos < |log| && log[pos] == 0
    ensures !HasSignature(log, pos)
  {
    if pos + SECTOR <= |log| {
      assert log[pos..pos + 4][0] != LOGE[0];
    }
  }

  lemma {:induction false} NothingBetween(log: Buf, guid: Guid, lo: nat, hi: nat)
    requires lo <= hi <= |log| && lo % SECTOR == 0 && hi % SECTOR == 0 && ZeroIn(log, lo, hi)
    ensures Scan(log, guid, lo) == Scan(log, guid, hi) && RefusedCost(log, guid, lo) == RefusedCost(log, guid, hi)
    decreases hi - lo
  {
    hide Decode, LengthUsable, DeclaredGuid, DeclaredLength, Circular, HasSignature;
    if lo < hi {
      NoSignatureAtZero(log, lo);
      assert !Candidate(log, lo, guid) && Examine(log, lo, guid).Refused?;
      hide Candidate, Examine;
      NothingBetween(log, guid, lo + SECTOR, hi);
    }
  }

  lemma OneEntry(log: Buf, guid: Guid, pos: nat, e: LogEntry)
    requires Examine(log, pos, guid) == Entry(e) && e.header.entryLength == ENTRY_SIZE && pos + ENTRY_SIZE <= |log|
    ensures Scan(log, guid, pos) == [e] + Scan(log, guid, pos + ENTRY_SIZE)
    ensures RefusedCost(log, guid, pos) == RefusedCost(log, guid, pos + ENTRY_SIZE)
  {
    hide Examine, Candidate, DeclaredLength;
  }

  lemma AtEnd(log: Buf, guid: Guid)
    ensures Scan(log, guid, |log|) == [] && RefusedCost(log, guid, |log|) == 0
  {
  }

  /** What is found when one entry is there. */
  lemma OneFound(log: Buf, guid: Guid, p: nat, e: LogEntry)
    requires |log| == LOG_SIZE && p % SECTOR == 0 && p + ENTRY_SIZE <= LOG_SIZE
    requires ZeroIn(log, 0, p) && ZeroIn(log, p + ENTRY_SIZE, LOG_SIZE)
    requires Examine(log, p, guid) == Entry(e) && e.header.entryLength == ENTRY_SIZE && !IsZeroGuid(guid)
    ensures Collect(log, guid) == Select(LOG_SIZE, [e])
  {
    hide Examine, Scan, RefusedCost, AcceptedCost, Select;
    NothingBetween(log, guid, 0, p);
    OneEntry(log, guid, p, e);
    NothingBetween(log, guid, p + ENTRY_SIZE, LOG_SIZE);
    AtEnd(log, guid);
    BudgetAdequate(log, guid);
    assert [e] + [] == [e];
  }

  /** And when two are. */
  lemma TwoFound(log: Buf, guid: Guid, p: nat, a: LogEntry, q: nat, b: LogEntry)
    requires |log| == LOG_SIZE && p % SECTOR == 0 && q % SECTOR == 0 && p + ENTRY_SIZE <= q
      && q + ENTRY_SIZE <= LOG_SIZE
    requires ZeroIn(log, 0, p) && ZeroIn(log, p + ENTRY_SIZE, q) && ZeroIn(log, q + ENTRY_SIZE, LOG_SIZE)
    requires Examine(log, p, guid) == Entry(a) && a.header.entryLength == ENTRY_SIZE && !IsZeroGuid(guid)
    requires Examine(log, q, guid) == Entry(b) && b.header.entryLength == ENTRY_SIZE
    ensures Collect(log, guid) == Select(LOG_SIZE, [a, b])
  {
    hide Examine, Scan, RefusedCost, AcceptedCost, Select;
    NothingBetween(log, guid, 0, p);
    OneEntry(log, guid, p, a);
    NothingBetween(log, guid, p + ENTRY_SIZE, q);
    OneEntry(log, guid, q, b);
    NothingBetween(log, guid, q + ENTRY_SIZE, LOG_SIZE);
    AtEnd(log, guid);
    BudgetAdequate(log, guid);
    assert [b] + [] == [b];
    assert [a] + [b] == [a, b];
  }

  // ---- The entries ----

  /** An entry of one sector, written to the start of the BAT. */
  function TableEntry(guid: Guid, sequence: u64, tail: u32, x: Sector): (e: Buf)
    ensures |e| == ENTRY_SIZE
  {
    assert RoundUpSector(ENTRY_HEADER + 1 * DESCRIPTOR) == SECTOR;
    EncodedEntry(sequence, tail, guid, 0, 0, [PendingWrite(BAT_AT, x)])
  }

  function TableParsed(guid: Guid, sequence: u64, tail: u32, x: Sector, pos: nat): LogEntry {
    LogEntry(LogEntryHeader(ENTRY_SIZE, tail, sequence, 1, guid, 0, 0),
      [SentDescriptor(PendingWrite(BAT_AT, x), sequence)], pos)
  }

  lemma TableExamined(log: Buf, pos: nat, guid: Guid, sequence: u64, tail: u32, x: Sector)
    requires pos + ENTRY_SIZE <= |log| && log[pos..pos + ENTRY_SIZE] == TableEntry(guid, sequence, tail, x)
    ensures Examine(log, pos, guid) == Entry(TableParsed(guid, sequence, tail, x, pos))
  {
    hide EncodedEntry, Examine, DescBytes;
    var w := PendingWrite(BAT_AT, x);
    assert RoundUpSector(ENTRY_HEADER + 1 * DESCRIPTOR) == SECTOR;
    assert Circular(log, pos, ENTRY_SIZE) == log[pos..pos + ENTRY_SIZE];
    RegionHoldsEntry(log, pos, sequence, tail, guid, 0, 0, [w]);
    assert SentDescriptors([w], sequence) == [SentDescriptor(w, sequence)];
  }

  /** A log with two entries. */
  function TwoEntries(p: nat, x: Buf, q: nat, y: Buf): (log: Buf)
    requires |x| == |y| == ENTRY_SIZE && p + ENTRY_SIZE <= LOG_SIZE && q + ENTRY_SIZE <= LOG_SIZE
    ensures |log| == LOG_SIZE
  {
    Splice(Splice(Zeros(LOG_SIZE), p, x), q, y)
  }

  lemma TwoEntriesLie(p: nat, x: Buf, q: nat, y: Buf)
    requires |x| == |y| == ENTRY_SIZE && p + ENTRY_SIZE <= LOG_SIZE && q + ENTRY_SIZE <= LOG_SIZE
    requires p + ENTRY_SIZE <= q || q + ENTRY_SIZE <= p
    ensures var log := TwoEntries(p, x, q, y);
      log[p..p + ENTRY_SIZE] == x && log[q..q + ENTRY_SIZE] == y
      && forall i :: 0 <= i < LOG_SIZE && !(p <= i < p + ENTRY_SIZE) && !(q <= i < q + ENTRY_SIZE) ==> log[i] == 0
  {
    hide Splice;
    var z := Zeros(LOG_SIZE);
    var one := Splice(z, p, x);
    var log := Splice(one, q, y);
    SpliceInside(z, p, x);
    SpliceOutside(one, q, y, p, p + ENTRY_SIZE);
    SpliceInside(one, q, y);
    forall i | 0 <= i < LOG_SIZE && !(p <= i < p + ENTRY_SIZE) && !(q <= i < q + ENTRY_SIZE)
      ensures log[i] == 0
    {
      SpliceAt(z, p, x, i);
      SpliceAt(one, q, y, i);
    }
  }

  /** Erased up to `p`, a log keeps an entry past it. */
  lemma WipedKeeps(log: Buf, p: nat, q: nat)
    requires p <= q && q + ENTRY_SIZE <= |log|
      && (forall i :: p <= i < |log| && !(q <= i < q + ENTRY_SIZE) ==> log[i] == 0)
    ensures var after := Wiped(log, p);
      after[q..q + ENTRY_SIZE] == log[q..q + ENTRY_SIZE] && ZeroIn(after, 0, q) && ZeroIn(after, q + ENTRY_SIZE, |log|)
  {
  }

  // ---- The two logs ----

  const FIRST: nat := 0xF_E000
  const SECOND: nat := 0x10_0000
  const LAST: nat := 0x1F_E000

  /** One entry ends on the first megabyte of the log, the next begins there. */
  function SplitLog(guid: Guid, sequence: u64, x: Sector, y: Sector): (log: Buf)
    requires sequence < TWO64 - 1
    ensures |log| == LOG_SIZE
  {
    hide TwoEntries, TableEntry;
    TwoEntries(FIRST, TableEntry(guid, sequence, FIRST, x), SECOND, TableEntry(guid, sequence + 1, FIRST, y))
  }

  function SplitChain(guid: Guid, sequence: u64, x: Sector, y: Sector): seq<LogEntry>
    requires sequence < TWO64 - 1
  {
    [TableParsed(guid, sequence, FIRST, x, FIRST), TableParsed(guid, sequence + 1, FIRST, y, SECOND)]
  }

  /** One entry ends where the log does, the next goes on at its start. */
  function RoundLog(guid: Guid, sequence: u64, x: Sector, y: Sector): (log: Buf)
    requires sequence < TWO64 - 1
    ensures |log| == LOG_SIZE
  {
    hide TwoEntries, TableEntry;
    TwoEntries(LAST, TableEntry(guid, sequence, LAST, x), 0, TableEntry(guid, sequence + 1, LAST, y))
  }

  function RoundChain(guid: Guid, sequence: u64, x: Sector, y: Sector): seq<LogEntry>
    requires sequence < TWO64 - 1
  {
    [TableParsed(guid, sequence, LAST, x, LAST), TableParsed(guid, sequence + 1, LAST, y, 0)]
  }

  lemma SelectSplit(a: LogEntry, b: LogEntry)
    requires a.pos == FIRST && b.pos == SECOND && a.header.entryLength == b.header.entryLength == ENTRY_SIZE
    requires b.header.sequence == a.header.sequence + 1 && b.header.tail == FIRST
    ensures Select(LOG_SIZE, [a, b]) == Ok([a, b]) && Select(LOG_SIZE, [b]) == Err(LogUnassembled)
  {
    assert [a, b][1..] == [b] && [b][1..] == [];
    assert Walk(LOG_SIZE, [a, b], b) == [b];
    assert [a] + [b] == [a, b];
  }

  lemma SelectRound(a: LogEntry, b: LogEntry)
    requires a.pos == LAST && b.pos == 0 && a.header.entryLength == b.header.entryLength == ENTRY_SIZE
    requires b.header.sequence == a.header.sequence + 1 && a.header.tail == b.header.tail == LAST
    ensures Select(LOG_SIZE, [b, a]) == Ok([a, b]) && Select(LOG_SIZE, [a]) == Ok([a])
  {
    assert [b, a][1..] == [a] && [a][1..] == [];
    assert Walk(LOG_SIZE, [b, a], b) == [b];
    assert [a] + [b] == [a, b];
  }

  /** Both entries are collected; with the first megabyte erased the second alone is
      found, and names a beginning that is gone. */
  lemma SplitCollect(guid: Guid, sequence: u64, x: Sector, y: Sector)
    requires sequence < TWO64 - 1 && !IsZeroGuid(guid)
    ensures var log := SplitLog(guid, sequence, x, y);
      Collect(log, guid) == Ok(SplitChain(guid, sequence, x, y))
        && Collect(Wiped(log, ONE_MIB), guid) == Err(LogUnassembled)
  {
    hide TwoEntries, TableEntry, Examine, Collect, Select, Wiped;
    var log, after := SplitLog(guid, sequence, x, y), Wiped(SplitLog(guid, sequence, x, y), ONE_MIB);
    var a, b := TableParsed(guid, sequence, FIRST, x, FIRST), TableParsed(guid, sequence + 1, FIRST, y, SECOND);
    TwoEntriesLie(FIRST, TableEntry(guid, sequence, FIRST, x), SECOND, TableEntry(guid, sequence + 1, FIRST, y));
    TableExamined(log, FIRST, guid, sequence, FIRST, x);
    TableExamined(log, SECOND, guid, sequence + 1, FIRST, y);
    TwoFound(log, guid, FIRST, a, SECOND, b);
    SelectSplit(a, b);
    WipedKeeps(log, ONE_MIB, SECOND);
    TableExamined(after, SECOND, guid, sequence + 1, FIRST, y);
    OneFound(after, guid, SECOND, b);
  }

  /** Both are collected; with the first megabyte erased the first one alone is. */
  lemma RoundCollect(guid: Guid, sequence: u64, x: Sector, y: Sector)
    requires sequence < TWO64 - 1 && !IsZeroGuid(guid)
    ensures var log, chain := RoundLog(guid, sequence, x, y), RoundChain(guid, sequence, x, y);
      Collect(log, guid) == Ok(chain) && Collect(Wiped(log, ONE_MIB), guid) == Ok([chain[0]])
  {
    hide TwoEntries, TableEntry, Examine, Collect, Select, Wiped;
    var log, after := RoundLog(guid, sequence, x, y), Wiped(RoundLog(guid, sequence, x, y), ONE_MIB);
    var a, b := TableParsed(guid, sequence, LAST, x, LAST), TableParsed(guid, sequence + 1, LAST, y, 0);
    TwoEntriesLie(LAST, TableEntry(guid, sequence, LAST, x), 0, TableEntry(guid, sequence + 1, LAST, y));
    TableExamined(log, LAST, guid, sequence, LAST, x);
    TableExamined(log, 0, guid, sequence + 1, LAST, y);
    TwoFound(log, guid, 0, b, LAST, a);
    SelectRound(a, b);
    WipedKeeps(log, ONE_MIB, LAST);
    TableExamined(after, LAST, guid, sequence, LAST, x);
    OneFound(after, guid, LAST, a);
  }

  // ---- Opening an image whose log rewrites one BAT sector ----

  /** Entries of one sector each, all at `off`, none asking for a longer file; the last
      one holds `x`. */
  predicate TableChain(chain: seq<LogEntry>, off: nat, x: Sector) {
    chain != [] && |chain[0].descriptors| == 1 && chain[0].header.lastFileOffset == 0
    && chain[0].descriptors[0].DataDesc? && chain[0].descriptors[0].fileOffset == off
    && if |chain| == 1 then chain[0].descriptors[0].sector == x else TableChain(chain[1..], off, x)
  }

  lemma {:induction false} TableChainRuns(d: Buf, chain: seq<LogEntry>, off: nat, x: Sector)
    requires TableChain(chain, off, x) && off + SECTOR <= |d|
    ensures RunOps(d, ChainOps(chain)) == Splice(d, off, x)
    decreases |chain|
  {
    hide RunOps, Splice, RunOp, ChainOps;
    var s := chain[0].descriptors[0];
    var rest := chain[1..];
    OneSectorOps([chain[0]], s);
    WriteThenFlush(d, off, s.sector);
    if rest == [] {
      assert [chain[0]] == chain;
    } else {
      ChainStep(chain, s);
      RunConcat(d, [Write(off, s.sector), Flush], ChainOps(rest));
      TableChainRuns(Splice(d, off, s.sector), rest, off, x);
      SpliceOver(d, off, s.sector, x);
    }
  }

  lemma {:induction false} ChainStep(chain: seq<LogEntry>, s: Descriptor)
    requires chain != [] && chain[0].descriptors == [s] && s.DataDesc?
    ensures ChainOps(chain) == [Write(s.fileOffset, s.sector), Flush] + ChainOps(chain[1..])
  {
    assert [s][1..] == [];
    assert AllDescOps([s]) == [Write(s.fileOffset, s.sector)] + [];
    assert [Write(s.fileOffset, s.sector)] + [Flush] == [Write(s.fileOffset, s.sector), Flush];
  }

  lemma {:induction false} TableChainFits(chain: seq<LogEntry>, off: nat, x: Sector, size: nat)
    requires TableChain(chain, off, x) && off + SECTOR <= size < TWO64
    ensures AllFit(Flatten(chain), size) && MaxLast(chain) == 0
    ensures off >= TABLE1 ==> StaysAboveHeaders(chain)
    decreases |chain|
  {
    var rest := chain[1..];
    if rest != [] {
      TableChainFits(rest, off, x, size);
    }
  }

  lemma TableReplay(e: Buf, capacity: nat, chain: seq<LogEntry>, off: nat, x: Sector)
    requires TableChain(chain, off, x) && TABLE1 <= off && off + SECTOR <= |e| < TWO64
    ensures StaysAboveHeaders(chain)
    ensures Replay(|e|, capacity, chain).result.Ok? && RunOps(e, Replay(|e|, capacity, chain).ops) == Splice(e, off, x)
  {
    hide TableChain, RunOps, Splice, ChainOps, Flatten, AllFit, StaysAboveHeaders;
    TableChainFits(chain, off, x, |e|);
    TableChainRuns(e, chain, off, x);
    assert AllowedExtent(|e|, chain) == |e|;
    assert [] + ChainOps(chain) == ChainOps(chain);
  }

  /** What the lemmas about such an open start from. */
  ghost predicate TablePending(e: Buf, t: ReaderState, env: Setting, chain: seq<LogEntry>, off: nat, x: Sector) {
    ReaderOk(e, t, env.capacity) && Anchored(e, t, env) && PickHeader(e) == Ok((t.header, t.slot))
    && t.header.logVersion == 0 && LogClear(env.rt, t.header) && Layout(t, env.m, |e|)
    && Pending(e, t.header) == Ok(chain) && TableChain(chain, off, x) && t.batOffset <= off && off + SECTOR <= BatEnd(t)
    && BatOf(Splice(e, off, x), t) == t.bat
  }

  /** It applies the chain, erases the log and loads the table the last entry holds. */
  lemma TableOpens(e: Buf, t: ReaderState, env: Setting, chain: seq<LogEntry>, off: nat, x: Sector, w: bool)
    requires TablePending(e, t, env, chain, off, x)
    ensures |e| < TWO64 && off + SECTOR <= |e| && t.header.logOffset + t.header.logLength <= |e| && |e| >= 2 * ONE_MIB
    ensures StaysAboveHeaders(chain) && Gates(e, true, env.dec) == Ok(Gate(t.header, t.slot, chain))
    ensures var e1 := Splice(e, off, x);
      var o := OpenRun(e, env.capacity, w, true, env.dec);
      RunOps(e, Replay(|e|, env.capacity, chain).ops) == e1
      && o.ops != [] && RunOps(e, o.ops) == Cleared(e1, t.header, t.slot)
      && o.result == Ok(t.(header := ClearedHeader(t.header), slot := t.slot.Other(), writable := w))
  {
    hide ReaderOk, Anchored, PickHeader, LogClear, Layout, Pending, TableChain, BatOf, Splice, Cleared, ControlLayout,
      Near, Gates, Settle, Load, LogRegionValid, BatEnd, Replay, RunOps, ClearOps, LegalGeometry, BlocksClear,
      BlocksApart, StaysAboveHeaders;
    OkParts(e, t, env.capacity);
    LayoutParts(t, env.m, |e|);
    var h, e1 := t.header, Splice(e, off, x);
    GatesPass(e, t, env);
    SomeChain(chain, off, x);
    PendingMeansLog(e, h);
    ReopenNear(e, t, env.m, off, x);
    NearAnchored(e, e1, t, env);
    NearAnchored(e, Cleared(e1, h, t.slot), t, env);
    ClearedKeepsBat(e1, t, env.m);
    TableReplay(e, env.capacity, chain, off, x);
    SettleSame(e, e1, t, env);
    ClearRun(e1, h, t.slot);
    RunConcat(e, Replay(|e|, env.capacity, chain).ops, ClearOps(h, t.slot));
    ReplayingOpen(e, env.capacity, w, env.dec, Gate(h, t.slot, chain));
    AnchoredLoads(Cleared(e1, h, t.slot), t, env, ClearedHeader(h), t.slot.Other(), w);
    ClearsSomething(h, t.slot);
  }

  lemma SomeChain(chain: seq<LogEntry>, off: nat, x: Sector)
    requires TableChain(chain, off, x)
    ensures chain != []
  {
  }

  lemma ClearsSomething(h: Header, slot: Slot)
    ensures ClearOps(h, slot) != []
  {
  }

  // ---- The devices ----

  function Marked(guid: Guid): Header { FreshHeader(true).(logGuid := guid) }

  /** A fresh image with that log, and one byte where block 0 could lie. */
  function Pended(guid: Guid, log: Buf, spot: byte): (d: Buf)
    requires |log| == LOG_SIZE
    ensures |d| == SIZE
  {
    Built(Marked(guid), log, spot)
  }

  /** The table with block 0 present, and its sector. */
  function OneBlock(): (bat: seq<BatEntry>)
    ensures |bat| == 4
  {
    EmptyTable()[0 := BatEntry(FullyPresent, BLOCK_AT)]
  }

  function OneBlockSector(): Sector { Splice(Zeros(SECTOR), 0, Le(PresentAt(BLOCK_AT), 8)) }

  lemma PendedTable(guid: Guid, log: Buf, spot: byte)
    requires |log| == LOG_SIZE
    ensures var d, st := Pended(guid, log, spot), BuiltState(Marked(guid), EmptyTable());
      BatOf(d, st) == EmptyTable() && d[BAT_AT..BAT_AT + SECTOR] == Zeros(SECTOR) && d[BLOCK_AT] == spot
      && LogRegion(d, Marked(guid)) == log
  {
    hide EncodedHeader, EncodedTable, FreshMetadata, BatOf;
    BuiltHigh(Marked(guid), log, spot);
    EmptyBat(Pended(guid, log, spot), BuiltState(Marked(guid), EmptyTable()));
  }

  lemma EmptySector(d: Buf, st: ReaderState)
    requires st.batOffset == BAT_AT && |st.bat| == 4 && |d| == SIZE
    ensures BatOf(Splice(d, BAT_AT, Zeros(SECTOR)), st) == EmptyTable()
  {
    hide Splice, BatOf;
    var e := Splice(d, BAT_AT, Zeros(SECTOR));
    SpliceInside(d, BAT_AT, Zeros(SECTOR));
    SubSlice(e, BAT_AT, BAT_AT + SECTOR, 0, 32);
    assert Zeros(SECTOR)[0..32] == Zeros(32);
    EmptyBat(e, st);
  }

  lemma NamedSector(d: Buf, st: ReaderState, t: ReaderState)
    requires st.batOffset == t.batOffset == BAT_AT && st.bat == EmptyTable() && |t.bat| == 4 && |d| == SIZE
    requires BatOf(d, st) == EmptyTable() && d[BAT_AT..BAT_AT + SECTOR] == Zeros(SECTOR)
    ensures BatOf(Splice(d, BAT_AT, OneBlockSector()), t) == OneBlock()
  {
    hide Splice, BatOf, PresentAt, Le;
    assert d[..|d|] == d;
    BatPublished(d, d, d, st, BAT_AT, 0, BLOCK_AT, OneBlockSector());
    BatOfSame(Splice(d, BAT_AT, OneBlockSector()), st, t);
  }

  lemma EmptyLayout(h: Header)
    requires h.logOffset == LOG_AT && h.logLength == LOG_SIZE
    ensures Layout(BuiltState(h, EmptyTable()), METADATA, SIZE)
  {
    hide DataBatIndex, InDisk;
  }

  lemma OneLayout(h: Header)
    requires h.logOffset == LOG_AT && h.logLength == LOG_SIZE
    ensures Layout(BuiltState(h, OneBlock()), METADATA, SIZE)
  {
    hide InDisk, DataBatIndex;
    var g, bat := FreshGeometry(), OneBlock();
    forall a: nat, b: nat | Present(g, bat, a) && Present(g, bat, b)
      ensures a == b && Host(g, bat, a) == BLOCK_AT
    {
      assert DataBatIndex(a, g.ratio) == 0 && DataBatIndex(b, g.ratio) == 0;
      IndexInjective(a, b, g.ratio);
    }
  }

  /** Either table may be what is pending. */
  predicate Tabled(bat: seq<BatEntry>, x: Sector) {
    (bat == EmptyTable() && x == Zeros(SECTOR)) || (bat == OneBlock() && x == OneBlockSector())
  }

  lemma PendedIs(guid: Guid, log: Buf, spot: byte, capacity: nat, chain: seq<LogEntry>, bat: seq<BatEntry>, x: Sector)
    requires |log| == LOG_SIZE && SIZE <= capacity < 0x8000_0000_0000_0000 && !IsZeroGuid(guid)
    requires Collect(log, guid) == Ok(chain) && TableChain(chain, BAT_AT, x) && Tabled(bat, x) && |bat| == 4
    ensures TablePending(Pended(guid, log, spot), BuiltState(Marked(guid), bat), FreshSetting(capacity), chain,
      BAT_AT, x)
  {
    hide Built, Anchored, PickHeader, Layout, Collect, TableChain, BatOf, Splice, CrateDecoders, LegalGeometry,
      EmptyTable, OneBlock, OneBlockSector, Zeros, LogRegion;
    var d, h, st, t := Pended(guid, log, spot), Marked(guid), BuiltState(Marked(guid), EmptyTable()),
      BuiltState(Marked(guid), bat);
    BuiltAnchored(h, log, spot, bat, capacity);
    BuiltPick(h, log, spot);
    PendedTable(guid, log, spot);
    FreshRatio();
    PendingFrom(d, h);
    if x == Zeros(SECTOR) && bat == EmptyTable() {
      EmptySector(d, t);
      EmptyLayout(h);
    } else {
      NamedSector(d, st, t);
      OneLayout(h);
    }
  }

  /** A cut somewhere in the open of `e` leaves `f`. */
  ghost predicate LeftByCut(e: Buf, env: Setting, w: bool, f: Buf) {
    |e| < TWO64
    && var ops := OpenRun(e, env.capacity, w, true, env.dec).ops;
       exists k :: CrashOf(ops, Cut(k)) && CrashState(e, ops, Cut(k)) == f
  }

  /** An open that applies that chain and is then cut after a megabyte of the erase. */
  lemma PendedErasing(e: Buf, t: ReaderState, env: Setting, chain: seq<LogEntry>, off: nat, x: Sector, w: bool)
    requires TablePending(e, t, env, chain, off, x) && t.header.logLength == LOG_SIZE
    ensures off + SECTOR <= |e| && t.header.logOffset + t.header.logLength <= |e| < TWO64
    ensures var g, d1 := Gate(t.header, t.slot, chain), Splice(e, off, x);
      Erasing(e, env.capacity, w, env.dec, g, d1) && LeftByCut(e, env, w, ErasedTo(d1, t.header, ONE_MIB))
  {
    hide Anchored, PickHeader, LogClear, Layout, Pending, TableChain, BatOf, Splice, Cleared, Gates, OpenRun, Replay,
      RunOps, ClearOps, StaysAboveHeaders, LegalGeometry, LogRegionValid, BatEnd, CrashState, CrashOf;
    TableOpens(e, t, env, chain, off, x, w);
    OneChunkErased(t.header.logOffset);
    ErasedIsCrash(e, env.capacity, w, env.dec, Gate(t.header, t.slot, chain), Splice(e, off, x), 1);
  }

  lemma OneChunkErased(off: nat)
    ensures |ZeroOps(off, LOG_SIZE)| >= 1 && Erased(LOG_SIZE, 1) == ONE_MIB
  {
    assert Erased(ONE_MIB, 0) == 0;
  }

  // ---- The split log ----

  lemma SplitIsTable(guid: Guid, sequence: u64, x: Sector, y: Sector)
    requires sequence < TWO64 - 1
    ensures TableChain(SplitChain(guid, sequence, x, y), BAT_AT, y)
  {
    var chain := SplitChain(guid, sequence, x, y);
    assert chain[1..] == [chain[1]];
  }

  function SplitImage(guid: Guid, sequence: u64, x: Sector, spot: byte): (d: Buf)
    requires sequence < TWO64 - 1
    ensures |d| == SIZE
  {
    Pended(guid, SplitLog(guid, sequence, x, OneBlockSector()), spot)
  }

  /** An image once its table is that of block 0 and the first megabyte of its log is
      erased. */
  function HalfErased(d: Buf, guid: Guid): (f: Buf)
    requires |d| == SIZE
    ensures |f| == SIZE
  {
    ErasedTo(Splice(d, BAT_AT, OneBlockSector()), Marked(guid), ONE_MIB)
  }

  lemma LogBesideTable(guid: Guid, log: Buf, spot: byte, y: Sector)
    requires |log| == LOG_SIZE
    ensures LogRegion(Splice(Pended(guid, log, spot), BAT_AT, y), Marked(guid)) == log
  {
    hide Pended, Splice;
    PendedTable(guid, log, spot);
    SpliceOutside(Pended(guid, log, spot), BAT_AT, y, LOG_AT, BAT_AT);
  }

  /** Opening the image with the split log succeeds; cut after a megabyte of the erase,
      the image is refused from then on. */
  lemma SplitImageRefused(guid: Guid, sequence: u64, x: Sector, spot: byte, capacity: nat, w: bool, again: bool)
    requires sequence < TWO64 - 1 && !IsZeroGuid(guid) && SIZE <= capacity < 0x8000_0000_0000_0000
    ensures var d, env := SplitImage(guid, sequence, x, spot), FreshSetting(capacity);
      OpenRun(d, capacity, w, true, env.dec).result.Ok? && LeftByCut(d, env, w, HalfErased(d, guid))
      && OpenRun(HalfErased(d, guid), capacity, again, true, env.dec) == Opened([], Err(LogUnassembled))
  {
    hide OpenRun, LeftByCut, TableChain, TablePending, SplitLog, SplitChain, OneBlockSector, Pended, Splice, Collect,
      CrateDecoders, Wiped, OneBlock;
    var y := OneBlockSector();
    var log, chain := SplitLog(guid, sequence, x, y), SplitChain(guid, sequence, x, y);
    var d, t, env := Pended(guid, log, spot), BuiltState(Marked(guid), OneBlock()), FreshSetting(capacity);
    SplitCollect(guid, sequence, x, y);
    SplitIsTable(guid, sequence, x, y);
    PendedIs(guid, log, spot, capacity, chain, OneBlock(), y);
    PendedErasing(d, t, env, chain, BAT_AT, y, w);
    TableOpens(d, t, env, chain, BAT_AT, y, w);
    LogBesideTable(guid, log, spot, y);
    CutRefused(d, capacity, w, env.dec, Gate(t.header, t.slot, chain), Splice(d, BAT_AT, y), ONE_MIB, again);
  }

  // ---- The log that goes round ----

  function RoundImage(guid: Guid, sequence: u64, spot: byte): (d: Buf)
    requires sequence < TWO64 - 1
    ensures |d| == SIZE
  {
    Pended(guid, RoundLog(guid, sequence, Zeros(SECTOR), OneBlockSector()), spot)
  }

  function RoundEntries(guid: Guid, sequence: u64): (chain: seq<LogEntry>)
    requires sequence < TWO64 - 1
    ensures |chain| == 2
  {
    RoundChain(guid, sequence, Zeros(SECTOR), OneBlockSector())
  }

  lemma RoundIsTable(guid: Guid, sequence: u64)
    requires sequence < TWO64 - 1
    ensures var chain := RoundEntries(guid, sequence);
      TableChain(chain, BAT_AT, OneBlockSector()) && TableChain([chain[0]], BAT_AT, Zeros(SECTOR))
  {
    hide OneBlockSector, Zeros;
    var chain := RoundEntries(guid, sequence);
    assert chain[1..] == [chain[1]];
  }

  /** The first byte of the disk. */
  function First(d: Buf, bat: seq<BatEntry>): byte { Disk(d, FreshGeometry(), bat)[0] }

  /** Opening succeeds, and the disk then begins with `b`. */
  ghost predicate OpensShowing(e: Buf, capacity: nat, w: bool, b: byte) {
    |e| < TWO64
    && var o := OpenRun(e, capacity, w, true, CrateDecoders());
       o.result.Ok? && o.result.value.geometry == FreshGeometry()
       && First(RunOps(e, o.ops), o.result.value.bat) == b
  }

  lemma FirstByte(d: Buf, bat: seq<BatEntry>)
    requires |bat| == 4 && |d| == SIZE
    ensures First(d, bat) == BlockByte(d, bat[0], 0)
  {
    hide Disk, DataBatIndex, BlockByte, At;
    FirstIndex();
    DiskSlice(d, FreshGeometry(), bat, 0, 0, 1, 0);
  }

  lemma FirstIndex()
    ensures DataBatIndex(0, 4096) == 0 && At(FreshGeometry(), 0, 0) == 0
  {
  }

  lemma FirstEntries(d: Buf)
    requires |d| == SIZE
    ensures BlockByte(d, EmptyTable()[0], 0) == 0 && BlockByte(d, OneBlock()[0], 0) == d[BLOCK_AT]
  {
  }

  lemma BlockSurvives(e: Buf, h: Header, x: Sector)
    requires |e| == SIZE && h.logOffset == LOG_AT && h.logLength == LOG_SIZE
    ensures Cleared(Splice(e, BAT_AT, x), h, One)[BLOCK_AT] == e[BLOCK_AT]
  {
    hide Splice, EncodedHeader, Zeros;
    var e1 := Splice(e, BAT_AT, x);
    SpliceAt(e, BAT_AT, x, BLOCK_AT);
    SpliceAt(e1, LOG_AT, Zeros(LOG_SIZE), BLOCK_AT);
    SpliceAt(Splice(e1, LOG_AT, Zeros(LOG_SIZE)), Two.Offset(), EncodedHeader(ClearedHeader(h)), BLOCK_AT);
  }

  lemma Shown(e: Buf, capacity: nat, w: bool, e2: Buf, s: ReaderState)
    requires |e| < TWO64 && s.geometry == FreshGeometry()
    requires var o := OpenRun(e, capacity, w, true, CrateDecoders()); o.result == Ok(s) && RunOps(e, o.ops) == e2
    ensures OpensShowing(e, capacity, w, First(e2, s.bat))
  {
    hide OpenRun, RunOps, First, CrateDecoders;
  }

  lemma OpensWithTable(e: Buf, t: ReaderState, capacity: nat, chain: seq<LogEntry>, off: nat, x: Sector, w: bool)
    requires TablePending(e, t, FreshSetting(capacity), chain, off, x) && t.geometry == FreshGeometry()
    ensures off + SECTOR <= |e| && t.header.logOffset + t.header.logLength <= |e| && |e| >= 2 * ONE_MIB
    ensures OpensShowing(e, capacity, w, First(Cleared(Splice(e, off, x), t.header, t.slot), t.bat))
  {
    hide OpenRun, TablePending, RunOps, First, Splice, CrateDecoders, Replay, Gates, Cleared, StaysAboveHeaders,
      OpensShowing;
    TableOpens(e, t, FreshSetting(capacity), chain, off, x, w);
    Shown(e, capacity, w, Cleared(Splice(e, off, x), t.header, t.slot),
          t.(header := ClearedHeader(t.header), slot := t.slot.Other(), writable := w));
  }

  lemma FirstShows(e: Buf, e2: Buf, bat: seq<BatEntry>)
    requires |e2| == SIZE && |bat| == 4 && |e| == SIZE && e2[BLOCK_AT] == e[BLOCK_AT]
    ensures bat == EmptyTable() ==> First(e2, bat) == 0
    ensures bat == OneBlock() ==> First(e2, bat) == e[BLOCK_AT]
  {
    hide EmptyTable, OneBlock, BlockByte, First;
    FirstByte(e2, bat);
    FirstEntries(e2);
  }

  lemma TableShows(e: Buf, guid: Guid, capacity: nat, chain: seq<LogEntry>, bat: seq<BatEntry>, x: Sector, w: bool)
    requires |e| == SIZE && |bat| == 4
    requires TablePending(e, BuiltState(Marked(guid), bat), FreshSetting(capacity), chain, BAT_AT, x)
    ensures bat == EmptyTable() ==> OpensShowing(e, capacity, w, 0)
    ensures bat == OneBlock() ==> OpensShowing(e, capacity, w, e[BLOCK_AT])
  {
    hide OpensShowing, TablePending, Splice, EmptyTable, OneBlock, Cleared, First;
    OpensWithTable(e, BuiltState(Marked(guid), bat), capacity, chain, BAT_AT, x, w);
    BlockSurvives(e, Marked(guid), x);
    FirstShows(e, Cleared(Splice(e, BAT_AT, x), Marked(guid), One), bat);
  }

  lemma HalfErasedNear(d: Buf, guid: Guid, t: ReaderState)
    requires |d| == SIZE && t == BuiltState(Marked(guid), EmptyTable())
    ensures Near(d, HalfErased(d, guid), t)
  {
    hide Splice, Zeros, Near, OneBlockSector;
    NearRefl(d, t);
    NearSplice(d, d, t, BAT_AT, OneBlockSector());
    NearSplice(d, Splice(d, BAT_AT, OneBlockSector()), t, LOG_AT, Zeros(ONE_MIB));
  }

  /** What the cut device still has of the control structures. */
  lemma HalfErasedControl(guid: Guid, log: Buf, spot: byte, capacity: nat)
    requires |log| == LOG_SIZE
    ensures var d, h := Pended(guid, log, spot), Marked(guid);
      var f := HalfErased(d, guid);
      Anchored(f, BuiltState(h, EmptyTable()), FreshSetting(capacity)) && PickHeader(f) == Ok((h, One))
      && LogRegion(f, h) == Wiped(log, ONE_MIB)
  {
    hide Built, OneBlockSector, Splice, CrateDecoders, Wiped, Zeros, Anchored, PickHeader, Layout, ControlLayout,
      Near, Control, LegalGeometry, EmptyTable, PickTable, LogRegion, ErasedTo;
    var d, h, t, env := Pended(guid, log, spot), Marked(guid), BuiltState(Marked(guid), EmptyTable()),
      FreshSetting(capacity);
    var d1 := Splice(d, BAT_AT, OneBlockSector());
    LogBesideTable(guid, log, spot, OneBlockSector());
    BuiltAnchored(h, log, spot, EmptyTable(), capacity);
    BuiltPick(h, log, spot);
    BuiltLow(h, log, spot);
    EmptyLayout(h);
    LayoutParts(t, METADATA, SIZE);
    HalfErasedNear(d, guid, t);
    NearAnchored(d, HalfErased(d, guid), t, env);
    SpliceOutside(d, BAT_AT, OneBlockSector(), 0, TABLE1);
    assert d1[..TABLE1] == d1[0..TABLE1] && d[..TABLE1] == d[0..TABLE1];
    ErasedTables(d, d1, h, One, env.dec, ONE_MIB);
  }

  /** What is pending on the image with the log that goes round its end, once the open
      has been cut. */
  lemma RoundPending(guid: Guid, sequence: u64, spot: byte, capacity: nat)
    requires sequence < TWO64 - 1 && !IsZeroGuid(guid) && SIZE <= capacity < 0x8000_0000_0000_0000
    ensures TablePending(HalfErased(RoundImage(guid, sequence, spot), guid), BuiltState(Marked(guid), EmptyTable()),
                         FreshSetting(capacity), [RoundEntries(guid, sequence)[0]], BAT_AT, Zeros(SECTOR))
  {
    hide TableChain, RoundLog, RoundChain, OneBlockSector, Pended, HalfErased, Collect, CrateDecoders, Wiped, Zeros,
      Anchored, PickHeader, Layout, BatOf, LegalGeometry, EmptyTable, LogRegion, Splice;
    var log := RoundLog(guid, sequence, Zeros(SECTOR), OneBlockSector());
    var f, h, t := HalfErased(RoundImage(guid, sequence, spot), guid), Marked(guid),
      BuiltState(Marked(guid), EmptyTable());
    RoundCollect(guid, sequence, Zeros(SECTOR), OneBlockSector());
    RoundIsTable(guid, sequence);
    HalfErasedControl(guid, log, spot, capacity);
    FreshRatio();
    EmptyLayout(h);
    PendingFrom(f, h);
    EmptySector(f, t);
  }

  /** Opening the image whose chain goes round the end of its log shows block 0; cut after
      a megabyte of the erase, it opens again, and block 0 is gone. */
  lemma RoundImageUndone(guid: Guid, sequence: u64, spot: byte, capacity: nat, w: bool, again: bool)
    requires sequence < TWO64 - 1 && !IsZeroGuid(guid) && SIZE <= capacity < 0x8000_0000_0000_0000
    ensures var d := RoundImage(guid, sequence, spot);
      OpensShowing(d, capacity, w, spot) && LeftByCut(d, FreshSetting(capacity), w, HalfErased(d, guid))
      && OpensShowing(HalfErased(d, guid), capacity, again, 0)
  {
    hide OpenRun, LeftByCut, TableChain, TablePending, RoundLog, RoundChain, OneBlockSector, Pended, Splice, Collect,
      CrateDecoders, Zeros, OpensShowing, EmptyTable, OneBlock;
    var log, chain := RoundLog(guid, sequence, Zeros(SECTOR), OneBlockSector()), RoundEntries(guid, sequence);
    var d, y := Pended(guid, log, spot), OneBlockSector();
    RoundCollect(guid, sequence, Zeros(SECTOR), y);
    RoundIsTable(guid, sequence);
    PendedTable(guid, log, spot);
    PendedIs(guid, log, spot, capacity, chain, OneBlock(), y);
    PendedErasing(d, BuiltState(Marked(guid), OneBlock()), FreshSetting(capacity), chain, BAT_AT, y, w);
    TableShows(d, guid, capacity, chain, OneBlock(), y, w);
    RoundPending(guid, sequence, spot, capacity);
    TableShows(HalfErased(d, guid), guid, capacity, [chain[0]], EmptyTable(), Zeros(SECTOR), again);
  }
}
