/** A write cut or torn anywhere, reopened: each block piece of it is there or not. */
module Atomicity {
  import opened Bytes
  import opened LogFormat
  import opened LogChain
  import opened LogReplay
  import opened LogState
  import opened Devices
  import opened Headers
  import opened Bat
  import opened Open
  import opened Reader
  import opened Image
  import opened Recovery
  import opened CrashSafety

  /** The ten operations of a journalled piece that allocates. */
  function PieceOps(st: ReaderState, p: Plan, inBlock: nat, src: Buf): (ops: seq<DevOp>)
    ensures |ops| == 10
  {
    [SetLen(p.size), Write(p.at, Zeros(st.geometry.blockSize)), Flush,
     Write(st.header.logOffset, JournalEntry(st.(devSize := p.size), p.off, p.sector)), Flush,
     Write(st.slot.Other().Offset(), EncodedHeader(JournalledHeader(st.header))), Flush,
     Write(p.off, p.sector), Flush,
     Write(p.at + inBlock, src)]
  }

  function Wide(d: Buf, p: Plan): Buf
    requires |d| <= p.size
  {
    d + Zeros(p.size - |d|)
  }

  function Logged(d: Buf, st: ReaderState, p: Plan): (e: Buf)
    requires StageBounds(d, st, p)
    ensures |e| == p.size
  {
    Splice(Wide(d, p), st.header.logOffset, JournalEntry(st.(devSize := p.size), p.off, p.sector))
  }

  function Turned(d: Buf, st: ReaderState, p: Plan): (e: Buf)
    requires StageBounds(d, st, p)
    ensures |e| == p.size
  {
    Splice(Logged(d, st, p), st.slot.Other().Offset(), EncodedHeader(JournalledHeader(st.header)))
  }

  function Published(d: Buf, st: ReaderState, p: Plan): (e: Buf)
    requires StageBounds(d, st, p)
    ensures |e| == p.size
  {
    Splice(Turned(d, st, p), p.off, p.sector)
  }

  /** The device after `k` of those operations. */
  function Stage(d: Buf, st: ReaderState, p: Plan, inBlock: nat, src: Buf, k: nat): Buf
    requires StageBounds(d, st, p) && inBlock + |src| <= st.geometry.blockSize
  {
    if k == 0 then d
    else if k <= 3 then Wide(d, p)
    else if k <= 5 then Logged(d, st, p)
    else if k <= 7 then Turned(d, st, p)
    else if k <= 9 then Published(d, st, p)
    else Splice(Published(d, st, p), p.at + inBlock, src)
  }

  lemma StageStep(d: Buf, st: ReaderState, p: Plan, inBlock: nat, src: Buf, k: nat)
    requires StageBounds(d, st, p) && inBlock + |src| <= st.geometry.blockSize && k < 10
    ensures RunOp(Stage(d, st, p, inBlock, src, k), PieceOps(st, p, inBlock, src)[k])
      == Stage(d, st, p, inBlock, src, k + 1)
  {
    hide Splice, JournalEntry, EncodedHeader, JournalledHeader, BatEnd, Zeros;
    if k == 1 {
      ZeroesAgain(d, p, st.geometry.blockSize);
    }
  }

  lemma ZeroesAgain(d: Buf, p: Plan, blockSize: nat)
    requires |d| <= p.at && p.size == p.at + blockSize
    ensures Splice(Wide(d, p), p.at, Zeros(blockSize)) == Wide(d, p)
  {
    assert Wide(d, p)[p.at..p.at + blockSize] == Zeros(blockSize);
    SpliceSame(Wide(d, p), p.at, Zeros(blockSize));
  }

  lemma {:induction false} StageRun(d: Buf, st: ReaderState, p: Plan, inBlock: nat, src: Buf, k: nat)
    requires StageBounds(d, st, p) && inBlock + |src| <= st.geometry.blockSize && k <= 10
    ensures RunOps(d, PieceOps(st, p, inBlock, src)[..k]) == Stage(d, st, p, inBlock, src, k)
  {
    var ops := PieceOps(st, p, inBlock, src);
    hide RunOps, RunOp, PieceOps, StageBounds, Stage;
    if k == 0 {
      RunNothing(d, []);
      StageZero(d, st, p, inBlock, src);
      assert ops[..0] == [];
    } else {
      StageRun(d, st, p, inBlock, src, k - 1);
      RunPrefix(d, ops, k - 1);
      StageStep(d, st, p, inBlock, src, k - 1);
    }
  }

  lemma StageZero(d: Buf, st: ReaderState, p: Plan, inBlock: nat, src: Buf)
    requires StageBounds(d, st, p) && inBlock + |src| <= st.geometry.blockSize
    ensures Stage(d, st, p, inBlock, src, 0) == d
  {
  }

  /** These are the operations `write_at` carries out for such a piece. */
  lemma PieceOpsOfWrite(d: Buf, st: ReaderState, capacity: nat, c: BlockChunk, src: Buf)
    requires ReaderOk(d, st, capacity) && c.batIndex < |st.bat| && st.bat[c.batIndex].state.ZeroFill()
    requires NewSize(st) <= capacity && c.inBlock + |src| <= st.geometry.blockSize && st.header.logLength > 0
    requires InSector(st.batOffset, c.batIndex)
    ensures var p, w := PlanFor(d, st, capacity, c.batIndex), WritePiece(d, st, capacity, c, src);
      w.result.Ok? && w.ops == PieceOps(st, p, c.inBlock, src)
      && p.at < TWO64 - ONE_MIB && p.at % ONE_MIB == 0
      && w.st == st.(devSize := p.size, header := JournalledHeader(st.header), slot := st.slot.Other(),
                     bat := st.bat[c.batIndex := BatEntry(FullyPresent, p.at)])
  {
    hide AlignUp, PublishedSector, JournalEntry, EncodedHeader, JournalledHeader, LegalGeometry, LogRegionValid,
      FromU64, PresentAt;
    var p := PlanFor(d, st, capacity, c.batIndex);
    PlanFacts(d, st, capacity, c.batIndex);
    JournalRunsOps(p.size, st.(devSize := p.size), p.off, p.sector);
    PresentRoundTrip(p.at);
  }

  lemma JournalRunsOps(size: nat, st: ReaderState, off: u64, sector: Sector)
    requires size == st.devSize < TWO64 && LogRegionValid(size, st.header) && st.header.logLength > 0
    ensures Journal(st, off, sector)
      == Step([Write(st.header.logOffset, JournalEntry(st, off, sector)), Flush,
               Write(st.slot.Other().Offset(), EncodedHeader(JournalledHeader(st.header))), Flush],
              st.(header := JournalledHeader(st.header), slot := st.slot.Other()), Ok(()))
  {
    hide JournalEntry, EncodedHeader, JournalledHeader;
    LogRegionMeansMegabytes(size, st.header);
  }

  // ---- Torn writes ----

  /** A torn header does not pass its checksum; a torn log entry does not either, so
      neither of the writer's two slots holds an entry of the current chain. */
  ghost predicate Detected(before: Buf, off: nat, torn: Buf) {
    ((off == One.Offset() || off == Two.Offset()) ==> ParseHeader(torn).Err?)
    && (PickHeader(before).Ok? ==>
          var h := PickHeader(before).value.0;
          off == h.logOffset && h.logLength > 0 && h.logOffset + h.logLength <= |before| && !IsZeroGuid(h.logGuid)
          && off + |torn| <= |before| ==>
            var log := LogRegion(Splice(before, off, torn), h);
            Examine(log, 0, h.logGuid).Refused? && Examine(log, SECTOR, h.logGuid).Refused?)
  }

  predicate InTable(st: ReaderState, i: nat) { st.batOffset <= i < BatEnd(st) }

  /** The torn bytes are the new ones after all, or still the old ones, or detectable. Of
      the BAT they may be anything if there is a log to restore it from. */
  ghost predicate TornDetected(d: Buf, st: ReaderState, ops: seq<DevOp>, c: Crash)
    requires CrashOf(ops, c)
  {
    c.Torn? ==>
      var before, off := RunOps(d, ops[..c.k]), ops[c.k].off;
      c.bytes == ops[c.k].bytes
      || (off + |c.bytes| <= |before| && c.bytes == before[off..off + |c.bytes|])
      || (if InTable(st, off) then st.header.logLength > 0 else Detected(before, off, c.bytes))
  }

  /** The bytes a crash left of a payload, if it was a payload that tore: a write that
      does not start in a header slot, the log or the BAT, and is not the zeroing that
      follows an extension. */
  function TornPayload(st: ReaderState, ops: seq<DevOp>, c: Crash): Option<Buf>
    requires CrashOf(ops, c)
  {
    if c.Torn? && !Control(st, ops[c.k].off) && !(c.k > 0 && ops[c.k - 1].SetLen?) then Some(c.bytes) else None
  }

  /** A reopen exposes the whole piece of `src` at `v`, or none of it, or, if its payload
      tore, what is left of that. */
  ghost predicate PieceOutcome(e: Buf, env: Setting, w: bool, n: nat,
                               old': Buf, v: nat, src: Buf, whole: bool, torn: Option<Buf>)
    requires v + |src| <= |old'|
  {
    (torn.Some? ==> |torn.value| == |src|)
    && Recovers(e, env, w, n,
                if torn.Some? then Splice(old', v, torn.value) else if whole then Splice(old', v, src) else old')
  }

  // ---- Reopening each stage ----

  lemma OldPending(d: Buf, e: Buf, st: ReaderState, env: Setting, n: nat)
    requires StillOld(d, e, st) && st.header.logLength > 0
    requires WellFormed(d, st, env, n)
    requires IsZeroGuid(st.header.logGuid)
      || (Examine(LogRegion(e, st.header), 0, st.header.logGuid).Refused?
          && Examine(LogRegion(e, st.header), SECTOR, st.header.logGuid).Refused?)
    ensures Pending(e, st.header) == Ok([])
  {
    hide Examine, Collect, WellFormed, PickHeader, Near, BatEnd, RestClear;
    HeaderOfWellFormed(d, st, env, n);
    if !IsZeroGuid(st.header.logGuid) {
      RestFrame(LogRegion(d, st.header), LogRegion(e, st.header), st.header.logGuid);
      QuietCollect(LogRegion(e, st.header), st.header.logGuid);
    }
  }

  /** The new entry is nothing to the old header. */
  lemma OldPendingEntry(d: Buf, e: Buf, st: ReaderState, p: Plan, env: Setting, n: nat)
    requires StillOld(d, e, st) && st.header.logLength > 0 && st.header.sequence < TWO64 - 1
    requires LogRegion(e, st.header)[..ENTRY_SIZE] == JournalEntry(st.(devSize := p.size), p.off, p.sector)
    requires WellFormed(d, st, env, n)
    ensures Pending(e, st.header) == Ok([])
  {
    hide Examine, Collect, WellFormed, PickHeader, Near, BatEnd, RestClear, EncodedEntry, JournalledHeader;
    var next := JournalledHeader(st.header);
    JournalledFields(st.header);
    assert JournalEntry(st.(devSize := p.size), p.off, p.sector)
        == OwnEntry(next.sequence, next.logGuid, p.size, PendingWrite(p.off, p.sector));
    OwnForeign(LogRegion(e, st.header), next.sequence, next.logGuid, p.size, PendingWrite(p.off, p.sector),
      st.header.logGuid);
    OldPending(d, e, st, env, n);
  }

  lemma OldTailRecovers(d: Buf, y: Buf, st: ReaderState, p: Plan, env: Setting, n: nat, w: bool)
    requires st.geometry.blockSize > 0 && st.geometry.ratio > 0 && st.header.logLength > 0
    requires StageBounds(d, st, p) && |d + y| <= env.capacity
    requires WellFormed(d, st, env, n + 1)
    ensures Recovers(d + y, env, w, n, Disk(d, st.geometry, st.bat))
  {
    hide WellFormed, StageBounds, Recovers, Disk, Collect, PickHeader, BatEnd, Near;
    OldTail(d, y, st, p);
    PendingFrame(d, d + y, st.header);
    OldRecovers(d, d + y, st, env, n, w);
  }

  /** The zeros of the new block, written in part. */
  lemma TornZeros(d: Buf, p: Plan, x: Buf)
    requires |d| <= p.at && p.at + |x| == p.size
    ensures Splice(Wide(d, p), p.at, x) == d + (Zeros(p.at - |d|) + x)
  {
    assert Wide(d, p)[..p.at] == d + Zeros(p.at - |d|);
    assert Wide(d, p)[p.at + |x|..] == [];
  }

  lemma StillOldLogged(d: Buf, st: ReaderState, p: Plan, x: Buf)
    requires StageBounds(d, st, p) && |x| == ENTRY_SIZE
    ensures var e := Splice(Wide(d, p), st.header.logOffset, x);
      StillOld(d, e, st) && LogRegion(e, st.header)[..ENTRY_SIZE] == x
  {
    hide StillOld, Splice, Zeros;
    OldTail(d, Zeros(p.size - |d|), st, p);
    OldLogged(d, Wide(d, p), st, p, x);
  }

  lemma LoggedRecovers(d: Buf, st: ReaderState, p: Plan, env: Setting, n: nat, w: bool)
    requires st.geometry.blockSize > 0 && st.geometry.ratio > 0 && st.header.logLength > 0
    requires StageBounds(d, st, p) && p.size <= env.capacity
    requires WellFormed(d, st, env, n + 1)
    ensures Recovers(Logged(d, st, p), env, w, n, Disk(d, st.geometry, st.bat))
  {
    hide WellFormed, StageBounds, StillOld, Recovers, Disk, JournalEntry, Pending, PickHeader, Splice, RestClear;
    HeaderOfWellFormed(d, st, env, n + 1);
    StillOldLogged(d, st, p, JournalEntry(st.(devSize := p.size), p.off, p.sector));
    OldPendingEntry(d, Logged(d, st, p), st, p, env, n + 1);
    OldRecovers(d, Logged(d, st, p), st, env, n, w);
  }

  lemma TornEntryRecovers(d: Buf, st: ReaderState, p: Plan, x: Buf, env: Setting, n: nat, w: bool)
    requires st.geometry.blockSize > 0 && st.geometry.ratio > 0 && st.header.logLength > 0 && |x| == ENTRY_SIZE
    requires StageBounds(d, st, p) && p.size <= env.capacity && Detected(Wide(d, p), st.header.logOffset, x)
    requires WellFormed(d, st, env, n + 1)
    ensures Recovers(Splice(Wide(d, p), st.header.logOffset, x), env, w, n, Disk(d, st.geometry, st.bat))
  {
    hide WellFormed, StillOld, Recovers, Disk, JournalEntry, Pending, PickHeader, Splice, Zeros, Examine, ParseHeader,
      BatEnd, RestClear;
    var e := Splice(Wide(d, p), st.header.logOffset, x);
    HeaderOfWellFormed(d, st, env, n + 1);
    OldTail(d, Zeros(p.size - |d|), st, p);
    StillOldHeader(d, Wide(d, p), st);
    StillOldLogged(d, st, p, x);
    OldPending(d, e, st, env, n + 1);
    OldRecovers(d, e, st, env, n, w);
  }

  lemma StillOldHeader(d: Buf, e: Buf, st: ReaderState)
    requires StillOld(d, e, st)
    ensures PickHeader(e) == PickHeader(d)
  {
    hide PickHeader;
  }

  /** The device with `x` in place of the rotated header. */
  function HeaderTorn(d: Buf, st: ReaderState, p: Plan, x: Buf): (e: Buf)
    requires StageBounds(d, st, p) && |x| == HEADER_SIZE
    ensures |e| == p.size
  {
    hide JournalEntry;
    Splice(Logged(d, st, p), st.slot.Other().Offset(), x)
  }

  lemma TornHeaderRecovers(d: Buf, st: ReaderState, p: Plan, x: Buf, env: Setting, n: nat, w: bool)
    requires st.geometry.blockSize > 0 && st.geometry.ratio > 0 && st.header.logLength > 0 && |x| == HEADER_SIZE
    requires StageBounds(d, st, p) && p.size <= env.capacity && ParseHeader(x).Err?
    requires WellFormed(d, st, env, n + 1)
    ensures Recovers(HeaderTorn(d, st, p, x), env, w, n, Disk(d, st.geometry, st.bat))
  {
    hide WellFormed, BatEnd, StillOld, Recovers, Disk, JournalEntry, Pending, PickHeader, Splice, ParseHeader,
      RestClear;
    var e := HeaderTorn(d, st, p, x);
    HeaderOfWellFormed(d, st, env, n + 1);
    StillOldLogged(d, st, p, JournalEntry(st.(devSize := p.size), p.off, p.sector));
    OldTornHeader(d, Logged(d, st, p), st, p, x);
    OldPendingEntry(d, e, st, p, env, n + 1);
    OldRecovers(d, e, st, env, n, w);
  }

  lemma TurnedIsRotated(d: Buf, st: ReaderState, p: Plan, env: Setting, n: nat)
    requires StageBounds(d, st, p) && st.header.logLength > 0
    requires WellFormed(d, st, env, n)
    ensures Rotated(d, Turned(d, st, p), st, p)
  {
    hide WellFormed, StageBounds, StillOld, Rotated, JournalEntry, PickHeader, Splice, RestClear;
    HeaderOfWellFormed(d, st, env, n);
    StillOldLogged(d, st, p, JournalEntry(st.(devSize := p.size), p.off, p.sector));
    NewTurned(d, Logged(d, st, p), st, p);
  }

  lemma TurnedTail(d: Buf, st: ReaderState, p: Plan)
    requires StageBounds(d, st, p)
    ensures Turned(d, st, p)[p.at..p.size] == Zeros(st.geometry.blockSize)
  {
    hide Splice, JournalEntry, EncodedHeader, BatEnd;
    SpliceOutside(Wide(d, p), st.header.logOffset, JournalEntry(st.(devSize := p.size), p.off, p.sector), p.at, p.size);
    SpliceOutside(Logged(d, st, p), st.slot.Other().Offset(), EncodedHeader(JournalledHeader(st.header)), p.at, p.size);
    assert Wide(d, p)[p.at..p.size] == Zeros(st.geometry.blockSize);
  }

  /** From the rotation until the payload: the BAT sector in place may be anything. */
  lemma SectorStage(d: Buf, st: ReaderState, p: Plan, x: Sector, env: Setting, n: nat, b: nat)
    requires st.geometry.blockSize > 0 && st.geometry.ratio > 0 && st.header.logLength > 0
    requires DataBatIndex(b, st.geometry.ratio) < |st.bat| && StageBounds(d, st, p)
    requires Allocating(d, st, env, n, b, p)
    ensures var e := Splice(Turned(d, st, p), p.off, x);
      Rotated(d, e, st, p)
      && Disk(e, st.geometry, WithBlock(st.geometry, st.bat, b, p.at)) == Disk(d, st.geometry, st.bat)
  {
    hide WellFormed, Rotated, Allocating, Disk, Splice, DataBatIndex, WithBlock, Near, BatEnd, Turned, Zeros;
    var e := Splice(Turned(d, st, p), p.off, x);
    SequenceOfAllocating(d, st, env, n, b, p);
    TurnedIsRotated(d, st, p, env, n);
    RotatedSplice(d, Turned(d, st, p), st, p, p.off, x);
    TurnedTail(d, st, p);
    SpliceOutside(Turned(d, st, p), p.off, x, p.at, p.size);
    RotatedNear(d, e, st, p);
    NewDiskIsOld(d, e, st, env, n, b, p);
  }

  lemma SectorRecovers(d: Buf, st: ReaderState, p: Plan, x: Sector, env: Setting, n: nat, b: nat, w: bool)
    requires st.geometry.blockSize > 0 && st.geometry.ratio > 0 && st.header.logLength > 0
    requires DataBatIndex(b, st.geometry.ratio) < |st.bat| && StageBounds(d, st, p)
    requires Allocating(d, st, env, n + 2, b, p)
    ensures Recovers(Splice(Turned(d, st, p), p.off, x), env, w, n, Disk(d, st.geometry, st.bat))
  {
    hide WellFormed, Rotated, Allocating, Recovers, Disk, Splice, DataBatIndex, WithBlock, BatEnd, Turned;
    AllocatingBounds(d, st, env, n + 2, b, p);
    SectorStage(d, st, p, x, env, n + 2, b);
    NewRecovers(d, Splice(Turned(d, st, p), p.off, x), st, env, n, b, p, w);
  }

  lemma RotatedNear(d: Buf, e: Buf, st: ReaderState, p: Plan)
    requires Rotated(d, e, st, p)
    ensures Near(d, e, st)
  {
    hide Near, JournalEntry, JournalledHeader, PickHeader;
  }

  /** Turned, with the sector it already has. */
  lemma TurnedRecovers(d: Buf, st: ReaderState, p: Plan, env: Setting, n: nat, b: nat, w: bool)
    requires st.geometry.blockSize > 0 && st.geometry.ratio > 0 && st.header.logLength > 0
    requires DataBatIndex(b, st.geometry.ratio) < |st.bat| && StageBounds(d, st, p)
    requires Allocating(d, st, env, n + 2, b, p)
    ensures Recovers(Turned(d, st, p), env, w, n, Disk(d, st.geometry, st.bat))
  {
    hide Allocating, Recovers, Disk, Splice, DataBatIndex, Turned, Rotated, WithBlock, BatEnd;
    var x: Sector := Turned(d, st, p)[p.off..p.off + SECTOR];
    SpliceSame(Turned(d, st, p), p.off, x);
    SectorRecovers(d, st, p, x, env, n, b, w);
  }

  /** Whatever is written over the new block shows as itself, in a well-formed image. */
  lemma PayloadKeeps(d: Buf, st: ReaderState, p: Plan, inBlock: nat, x: Buf, env: Setting,
                     n: nat, b: nat)
    requires st.geometry.blockSize > 0 && st.geometry.ratio > 0 && st.header.logLength > 0
    requires DataBatIndex(b, st.geometry.ratio) < |st.bat| && StageBounds(d, st, p)
      && inBlock + |x| <= st.geometry.blockSize
    requires At(st.geometry, b, inBlock) + |x| <= st.geometry.virtualSize && InDisk(st.geometry, b)
    requires Allocating(d, st, env, n + 1, b, p)
    ensures var e := Splice(Published(d, st, p), p.at + inBlock, x);
      Rotated(d, e, st, p) && WellFormed(e, Allocated(st, p, b), env, n)
      && Disk(e, st.geometry, WithBlock(st.geometry, st.bat, b, p.at))
         == Splice(Disk(d, st.geometry, st.bat), At(st.geometry, b, inBlock), x)
  {
    hide WellFormed, Rotated, Allocating, Disk, Splice, DataBatIndex, WithBlock, BatEnd, Turned, InDisk, At,
      JournalledHeader;
    var g, t, f := st.geometry, Allocated(st, p, b), Published(d, st, p);
    SectorStage(d, st, p, p.sector, env, n + 1, b);
    SpliceInside(Turned(d, st, p), p.off, p.sector);
    PublishedIsWellFormed(d, f, st, env, n, b, p);
    WithBlockEntries(g, st.bat, b, p.at, b);
    PresentKeeps(f, t, env, n, b, inBlock, x);
    RotatedSplice(d, f, st, p, p.at + inBlock, x);
  }

  lemma PayloadRecovers(d: Buf, st: ReaderState, p: Plan, inBlock: nat, x: Buf, env: Setting,
                        n: nat, b: nat, w: bool)
    requires st.geometry.blockSize > 0 && st.geometry.ratio > 0 && st.header.logLength > 0
    requires DataBatIndex(b, st.geometry.ratio) < |st.bat| && StageBounds(d, st, p)
      && inBlock + |x| <= st.geometry.blockSize
    requires At(st.geometry, b, inBlock) + |x| <= st.geometry.virtualSize && InDisk(st.geometry, b)
    requires Allocating(d, st, env, n + 2, b, p)
    ensures Recovers(Splice(Published(d, st, p), p.at + inBlock, x), env, w, n,
                     Splice(Disk(d, st.geometry, st.bat), At(st.geometry, b, inBlock), x))
  {
    hide WellFormed, Rotated, Allocating, Recovers, Disk, Splice, DataBatIndex, WithBlock, BatEnd, Turned, InDisk, At,
      JournalledHeader;
    AllocatingBounds(d, st, env, n + 2, b, p);
    PayloadKeeps(d, st, p, inBlock, x, env, n + 1, b);
    NewRecovers(d, Splice(Published(d, st, p), p.at + inBlock, x), st, env, n, b, p, w);
  }

  // ---- A piece that allocates ----

  /** What the piece theorems share. */
  ghost predicate PieceSetting(d: Buf, st: ReaderState, env: Setting, n: nat, b: nat, p: Plan,
                               inBlock: nat, src: Buf) {
    st.geometry.blockSize > 0 && st.geometry.ratio > 0 && st.header.logLength > 0
      && DataBatIndex(b, st.geometry.ratio) < |st.bat|
    && StageBounds(d, st, p) && p.size <= env.capacity < TWO64 && inBlock + |src| <= st.geometry.blockSize
    && At(st.geometry, b, inBlock) + |src| <= st.geometry.virtualSize && InDisk(st.geometry, b)
    && Allocating(d, st, env, n + 2, b, p) && WellFormed(d, st, env, n + 1)
  }

  lemma CutRecovers(d: Buf, st: ReaderState, env: Setting, n: nat, b: nat, p: Plan,
                    inBlock: nat, src: Buf, k: nat, w: bool)
    requires PieceSetting(d, st, env, n, b, p, inBlock, src) && k <= 10
    ensures PieceOutcome(Stage(d, st, p, inBlock, src, k), env, w, n, Disk(d, st.geometry, st.bat),
                         At(st.geometry, b, inBlock), src, k == 10, None)
  {
    hide WellFormed, StageBounds, Allocating, Recovers, Disk, Splice, DataBatIndex, Turned, Published, Logged, InDisk,
      At, Rotated, Zeros, WithBlock;
    if k == 0 {
      assert d + [] == d;
      StageSize(d, st, p);
      OldTailRecovers(d, [], st, p, env, n, w);
    } else if k <= 3 {
      StageSize(d, st, p);
      OldTailRecovers(d, Zeros(p.size - |d|), st, p, env, n, w);
    } else if k <= 5 {
      LoggedRecovers(d, st, p, env, n, w);
    } else if k <= 7 {
      TurnedRecovers(d, st, p, env, n, b, w);
    } else if k <= 9 {
      PublishedIs(d, st, p);
      SectorRecovers(d, st, p, p.sector, env, n, b, w);
    } else {
      PayloadRecovers(d, st, p, inBlock, src, env, n, b, w);
    }
  }

  lemma StageSize(d: Buf, st: ReaderState, p: Plan)
    requires StageBounds(d, st, p)
    ensures |d| <= p.at <= p.size && p.size == p.at + st.geometry.blockSize && |d| >= 2 * ONE_MIB
      && p.off + SECTOR <= |d|
    ensures st.header.logOffset + st.header.logLength <= |d| && st.header.logLength > ENTRY_SIZE
      && st.header.logOffset >= ONE_MIB
  {
  }

  lemma PublishedIs(d: Buf, st: ReaderState, p: Plan)
    requires StageBounds(d, st, p)
    ensures p.off + SECTOR <= |Turned(d, st, p)| && Published(d, st, p) == Splice(Turned(d, st, p), p.off, p.sector)
  {
    hide Turned, Splice;
  }

  /** The last operation is the payload's, and no other is. */
  lemma PayloadTorn(d: Buf, st: ReaderState, p: Plan, inBlock: nat, src: Buf, c: Crash)
    requires StageBounds(d, st, p) && CrashOf(PieceOps(st, p, inBlock, src), c)
    ensures TornPayload(st, PieceOps(st, p, inBlock, src), c) == if c.Torn? && c.k == 9 then Some(c.bytes) else None
  {
    hide BatEnd, JournalEntry, EncodedHeader, JournalledHeader, Zeros;
  }

  /** The only operation that writes to the table is the eighth. */
  lemma OneInTable(st: ReaderState, p: Plan, inBlock: nat, src: Buf, d: Buf, k: nat)
    requires StageBounds(d, st, p) && k < 9 && PieceOps(st, p, inBlock, src)[k].Write?
    ensures InTable(st, PieceOps(st, p, inBlock, src)[k].off) <==> k == 7
  {
    hide BatEnd, JournalEntry, EncodedHeader, JournalledHeader, Zeros;
  }

  lemma TornRecovers(d: Buf, st: ReaderState, env: Setting, n: nat, b: nat, p: Plan,
                     inBlock: nat, src: Buf, k: nat, op: DevOp, x: Buf, w: bool)
    requires PieceSetting(d, st, env, n, b, p, inBlock, src) && k < 9 && op == PieceOps(st, p, inBlock, src)[k]
    requires op.Write? && |x| == |op.bytes| && (k == 7 || Detected(Stage(d, st, p, inBlock, src, k), op.off, x))
    ensures Recovers(RunOp(Stage(d, st, p, inBlock, src, k), Write(op.off, x)), env, w, n,
                     Disk(d, st.geometry, st.bat))
  {
    hide WellFormed, StageBounds, Allocating, Recovers, Disk, Splice, DataBatIndex, Turned, Published, Logged, InDisk,
      At, Rotated, Zeros, WithBlock, JournalEntry, EncodedHeader, JournalledHeader, Examine, PickHeader, ParseHeader;
    StageSize(d, st, p);
    if k == 1 {
      TornZeros(d, p, x);
      OldTailRecovers(d, Zeros(p.at - |d|) + x, st, p, env, n, w);
    } else if k == 3 {
      TornEntryRecovers(d, st, p, x, env, n, w);
    } else if k == 5 {
      TornHeaderRecovers(d, st, p, x, env, n, w);
    } else {
      assert k == 7;
      SectorRecovers(d, st, p, x, env, n, b, w);
    }
  }

  /** A torn payload shows as itself. */
  lemma TornPayloadRecovers(d: Buf, st: ReaderState, env: Setting, n: nat, b: nat, p: Plan,
                            inBlock: nat, src: Buf, x: Buf, w: bool)
    requires PieceSetting(d, st, env, n, b, p, inBlock, src) && |x| == |src|
    ensures Recovers(RunOp(Stage(d, st, p, inBlock, src, 9), Write(p.at + inBlock, x)), env, w, n,
                     Splice(Disk(d, st.geometry, st.bat), At(st.geometry, b, inBlock), x))
  {
    hide WellFormed, StageBounds, Allocating, Recovers, Disk, Splice, DataBatIndex, Published, InDisk, At, Rotated,
      WithBlock;
    StageSize(d, st, p);
    PayloadRecovers(d, st, p, inBlock, x, env, n, b, w);
  }

  /** A journalled piece, cut after any of its operations or torn in any of its
      writes: the piece is there once all of them are done, and until then is not. */
  lemma AllocatingPieceCrash(d: Buf, st: ReaderState, env: Setting, n: nat, b: nat, p: Plan,
                             inBlock: nat, src: Buf, c: Crash, w: bool)
    requires PieceSetting(d, st, env, n, b, p, inBlock, src)
    requires CrashOf(PieceOps(st, p, inBlock, src), c) && TornDetected(d, st, PieceOps(st, p, inBlock, src), c)
    ensures PieceOutcome(CrashState(d, PieceOps(st, p, inBlock, src), c), env, w, n,
                         Disk(d, st.geometry, st.bat), At(st.geometry, b, inBlock), src, c.k == 10,
                         TornPayload(st, PieceOps(st, p, inBlock, src), c))
  {
    hide WellFormed, StageBounds, Allocating, Recovers, Disk, Splice, DataBatIndex, Stage, InDisk, At, PieceOps,
      RunOp, RunOps, Detected, TornPayload, InTable;
    var ops := PieceOps(st, p, inBlock, src);
    StageRun(d, st, p, inBlock, src, c.k);
    PayloadTorn(d, st, p, inBlock, src, c);
    if c.Cut? {
      CutRecovers(d, st, env, n, b, p, inBlock, src, c.k, w);
    } else if c.k == 9 {
      LastOp(st, p, inBlock, src);
      TornPayloadRecovers(d, st, env, n, b, p, inBlock, src, c.bytes, w);
    } else {
      var before, off := Stage(d, st, p, inBlock, src, c.k), ops[c.k].off;
      if c.bytes == ops[c.k].bytes {
        StageStep(d, st, p, inBlock, src, c.k);
        CutRecovers(d, st, env, n, b, p, inBlock, src, c.k + 1, w);
      } else if off + |c.bytes| <= |before| && c.bytes == before[off..off + |c.bytes|] {
        WriteSame(before, off, c.bytes);
        CutRecovers(d, st, env, n, b, p, inBlock, src, c.k, w);
      } else {
        OneInTable(st, p, inBlock, src, d, c.k);
        TornRecovers(d, st, env, n, b, p, inBlock, src, c.k, ops[c.k], c.bytes, w);
      }
    }
  }

  lemma LastOp(st: ReaderState, p: Plan, inBlock: nat, src: Buf)
    ensures PieceOps(st, p, inBlock, src)[9] == Write(p.at + inBlock, src)
  {
    hide JournalEntry, EncodedHeader, JournalledHeader, Zeros;
  }

  lemma WriteSame(d: Buf, off: nat, x: Buf)
    requires off + |x| <= |d| && x == d[off..off + |x|]
    ensures RunOp(d, Write(off, x)) == d
  {
    SpliceSame(d, off, x);
  }
}
