/** What a journalled write leaves in the headers and in the log, and the headers a run of
    calls goes through. */
module Rotations {
  import opened Bytes
  import opened LogFormat
  import opened LogState
  import opened EntryLayout
  import opened Layouts
  import opened Devices
  import opened Guids
  import opened Headers
  import opened Bat
  import opened Open
  import opened Reader
  import opened Image
  import opened Recovery
  import opened CrashSafety
  import opened Atomicity
  import opened Refinement
  import opened Sessions

  /** A GUID another reader can tell from the one it saw. */
  predicate Renewed(before: Guid, after: Guid) { after != before && after != Zeros(16) }

  /** The header a rotation puts after `a`. */
  predicate NextHeader(a: Header, b: Header) {
    b.sequence == a.sequence + 1
    && Renewed(a.fileWriteGuid, b.fileWriteGuid) && Renewed(a.dataWriteGuid, b.dataWriteGuid)
    && Renewed(a.logGuid, b.logGuid)
    && b.logVersion == a.logVersion && b.version == a.version && b.logLength == a.logLength
       && b.logOffset == a.logOffset
  }

  lemma JournalledIsNext(h: Header)
    requires h.sequence < TWO64 - 1
    ensures NextHeader(h, JournalledHeader(h))
  {
    hide Stir;
    StirFresh(h.fileWriteGuid, h.sequence + 1);
    StirFresh(h.dataWriteGuid, h.sequence + 1);
    StirFresh(h.logGuid, h.sequence + 1);
  }

  // ---- One piece ----

  /** The log holds one entry of the header's GUID, with its number: a sector that is
      already in place, on a file of the length it has. */
  ghost predicate Journalled(e: Buf, h: Header) {
    Pending(e, h).Ok?
    && var chain := Pending(e, h).value;
       |chain| == 1 && chain[0].header.sequence == h.sequence && chain[0].header.guid == h.logGuid
       && chain[0].header.tail == 0 && chain[0].pos == 0
       && chain[0].header.flushedFileOffset == chain[0].header.lastFileOffset == |e|
       && |chain[0].descriptors| == 1
       && var x := chain[0].descriptors[0];
          x.DataDesc? && x.fileOffset + SECTOR <= |e| && e[x.fileOffset..x.fileOffset + SECTOR] == x.sector
  }

  lemma RotatedPending(d: Buf, e: Buf, st: ReaderState, p: Plan, env: Setting, n: nat, b: nat)
    requires st.geometry.ratio > 0 && DataBatIndex(b, st.geometry.ratio) < |st.bat| && n > 0
    requires Rotated(d, e, st, p) && Allocating(d, st, env, n, b, p) && st.header.logLength > 0
    requires p.off + SECTOR <= |e| && e[p.off..p.off + SECTOR] == p.sector && st.header.logOffset > 0
    ensures Journalled(e, JournalledHeader(st.header))
  {
    hide WellFormed, Allocating, PickHeader, Near, BatEnd, RoomFor, JournalEntry, JournalledHeader, RestClear,
      DataBatIndex, Recoverable, Pending;
    SequenceOfAllocating(d, st, env, n, b, p);
    JournalledFields(st.header);
    RecoverNew(d, e, st, env, n, b, p);
    RestOfRoom(LogRegion(e, st.header), JournalledHeader(st.header), n - 1);
    PlanPending(e, st, p);
  }

  /** A piece that allocates on an image with a log: the device's current header is then
      the next one, in the other slot, all three of its GUIDs renewed, and the log holds the
      one sector the piece wrote to the BAT. */
  lemma PieceRotates(d: Buf, st: ReaderState, env: Setting, n: nat, v: nat, end: nat, pos: nat, src: Buf)
    requires st.header.logLength > 0 && st.geometry.blockSize > 0 && st.geometry.ratio > 0
    requires v < end <= st.geometry.virtualSize && ReaderOk(d, st, env.capacity)
    requires var c := ChunkAt(st.geometry, v, end, pos);
      |src| == c.len && c.batIndex < |st.bat| && st.bat[c.batIndex].state.ZeroFill() && NewSize(st) <= env.capacity
    requires WellFormed(d, st, env, n + 1)
    ensures var w := WritePiece(d, st, env.capacity, ChunkAt(st.geometry, v, end, pos), src);
      var e := RunOps(d, w.ops);
      PickHeader(d) == Ok((st.header, st.slot)) && PickHeader(e) == Ok((w.st.header, st.slot.Other()))
      && NextHeader(st.header, w.st.header) && Journalled(e, w.st.header)
  {
    hide WellFormed, InDisk, DataBatIndex, PlanFor, NewSize, ReaderOk, WritePiece, PieceOps, RunOps, StageBounds,
      Allocating, Splice, At, BlockOf, InBlock, JournalledHeader, Published, LegalGeometry, BatEnd, Journalled, Disk,
      NextHeader, Rotated, PickHeader, InSector;
    var g, c, b := st.geometry, ChunkAt(st.geometry, v, end, pos), BlockOf(st.geometry, v);
    ChunkFacts(g, v, end, pos);
    PieceAllocates(d, st, env, n + 1, v, end, pos);
    var p := PlanFor(d, st, env.capacity, c.batIndex);
    hide ChunkAt;
    AllocatingBounds(d, st, env, n + 1, b, p);
    SequenceOfAllocating(d, st, env, n + 1, b, p);
    PieceOpsOfWrite(d, st, env.capacity, c, src);
    PayloadKeeps(d, st, p, c.inBlock, src, env, n, b);
    LastStage(d, st, p, c.inBlock, src);
    StageSize(d, st, p);
    var e := Splice(Published(d, st, p), p.at + c.inBlock, src);
    HeaderOfWellFormed(d, st, env, n + 1);
    HeaderOfWellFormed(e, Allocated(st, p, b), env, n);
    JournalledIsNext(st.header);
    SectorInPlace(d, st, p, c.inBlock, src);
    RotatedPending(d, e, st, p, env, n + 1, b);
  }

  lemma SectorInPlace(d: Buf, st: ReaderState, p: Plan, inBlock: nat, src: Buf)
    requires StageBounds(d, st, p) && inBlock + |src| <= st.geometry.blockSize
    ensures var e := Splice(Published(d, st, p), p.at + inBlock, src);
      p.off + SECTOR <= |e| && e[p.off..p.off + SECTOR] == p.sector && st.header.logOffset > 0
  {
    hide Splice, Turned, BatEnd;
    PublishedIs(d, st, p);
    StageSize(d, st, p);
    SpliceInside(Turned(d, st, p), p.off, p.sector);
    SpliceOutside(Published(d, st, p), p.at + inBlock, src, p.off, p.off + SECTOR);
  }

  /** What is written, byte by byte, and when the device is flushed: the entry, then the
      next header over the other slot. Nothing is, without eight kilobytes of log. */
  lemma JournalSteps(st: ReaderState, off: u64, sector: Sector) returns (entry: Buf, x: LogEntry, bytes: Buf)
    requires st.devSize < TWO64 && st.header.sequence < TWO64 - 1 && st.header.version == 1
    ensures var j, h, next := Journal(st, off, sector), st.header, JournalledHeader(st.header);
      if h.logLength < 8192 || h.logOffset == 0 then j == Step([], st, Ok(()))
      else
        j == Step([Write(h.logOffset, entry), Flush, Write(if st.slot.One? then 0x2_0000 else 0x1_0000, bytes), Flush],
                  st.(header := next, slot := if st.slot.One? then Two else One), Ok(()))
        && |entry| == 8192 && EntryBytes(entry, x) && |bytes| == 4096 && HeaderBytes(bytes, next)
        && NextHeader(h, next) && Carries(x, next, st.devSize, off, sector)
  {
    hide JournalledHeader, EncodedHeader, Stir, EncodedEntry, EntryBytes, HeaderBytes, NextHeader, ParseHeader;
    var next := JournalledHeader(st.header);
    JournalledIsNext(st.header);
    JournalledFields(st.header);
    entry, bytes := JournalEntry(st, off, sector), EncodedHeader(next);
    x := OwnParsed(next.sequence, next.logGuid, st.devSize, PendingWrite(off, sector));
    HeaderRoundTrip(next);
    HeaderExactly(bytes, next);
    OwnLaid(entry, next.sequence, next.logGuid, st.devSize, PendingWrite(off, sector));
  }

  /** The entry of that header's GUID and number for one sector of a file of `size` bytes. */
  predicate Carries(x: LogEntry, h: Header, size: nat, off: u64, sector: Sector) {
    x.header.sequence == h.sequence && x.header.guid == h.logGuid && x.header.tail == 0
    && x.header.flushedFileOffset == x.header.lastFileOffset == size
    && |x.descriptors| == 1 && x.descriptors[0].DataDesc?
    && x.descriptors[0].fileOffset == off && x.descriptors[0].sector == sector
  }

  lemma OwnLaid(entry: Buf, sequence: u64, guid: Guid, size: u64, w: PendingWrite)
    requires entry == OwnEntry(sequence, guid, size, w)
    ensures EntryBytes(entry, OwnParsed(sequence, guid, size, w))
  {
    hide OwnEntry, EntryBytes, Examine, Around;
    assert entry[..ENTRY_SIZE] == entry;
    OwnExamined(entry, sequence, guid, size, w);
    ParsesExactly(entry, 0, guid, OwnParsed(sequence, guid, size, w));
    AroundWhole(entry);
  }

  lemma AroundWhole(b: Buf)
    requires b != []
    ensures Around(b, 0, |b|) == b
  {
  }

  // ---- A run ----

  /** Headers each of which a rotation puts after the one before. */
  ghost predicate Succession(hs: seq<Header>, a: Header, b: Header) {
    hs != [] && hs[0] == a && hs[|hs| - 1] == b && forall i :: 0 < i < |hs| ==> NextHeader(hs[i - 1], hs[i])
  }

  lemma {:induction false} NthSucceeds(h: Header, k: nat) returns (hs: seq<Header>)
    requires h.sequence + k < TWO64
    ensures NthHeader(h, k).sequence == h.sequence + k && |hs| == k + 1 && Succession(hs, h, NthHeader(h, k))
    decreases k
  {
    hide JournalledHeader, NextHeader;
    if k == 0 {
      hs := [h];
    } else {
      var before := NthSucceeds(h, k - 1);
      JournalledIsNext(NthHeader(h, k - 1));
      NextSequence(NthHeader(h, k - 1));
      hs := before + [NthHeader(h, k)];
    }
  }

  lemma NextSequence(h: Header)
    requires h.sequence < TWO64 - 1
    ensures JournalledHeader(h).sequence == h.sequence + 1
  {
    hide Stir;
  }

  /** Over any run of calls the headers the device goes by follow one another, one for
      each rotation: the file, data and log GUIDs are renewed at every one. */
  lemma RunRotates(d: Buf, st: ReaderState, env: Setting, n: nat, calls: seq<Call>) returns (hs: seq<Header>)
    requires st.geometry.blockSize > 0 && st.geometry.ratio > 0 && ReaderOk(d, st, env.capacity)
    requires WellFormed(d, st, env, n + Cost(st.geometry, calls))
    ensures var s := Serve(d, st, env.capacity, calls);
      PickHeader(d) == Ok((st.header, st.slot)) && PickHeader(s.d) == Ok((s.st.header, s.st.slot))
      && Succession(hs, st.header, s.st.header)
      && s.st.slot == if |hs| % 2 == 1 then st.slot else st.slot.Other()
  {
    hide WellFormed, ReaderOk, Disk, FlatRun, Pieces, Cost, Serve, NthHeader, Succession, PickHeader;
    RunRefines(d, st, env, n, false, calls);
    var s := Serve(d, st, env.capacity, calls);
    HeaderOfWellFormed(d, st, env, n + Cost(st.geometry, calls));
    HeaderOfWellFormed(s.d, s.st, env, n);
    hs := NthSucceeds(st.header, s.st.header.sequence - st.header.sequence);
  }
}
