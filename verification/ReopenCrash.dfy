/** Recovery that is itself cut or torn: reopening an image this writer left is safe to
    interrupt, as often as it may happen. */
module ReopenCrash {
  import opened Bytes
  import opened LogFormat
  import opened LogChain
  import opened LogReplay
  import opened LogState
  import opened Devices
  import opened Headers
  import opened Bat
  import opened Open
  import opened Reader
  import opened Image
  import opened Recovery
  import opened CrashSafety

  // ---- Erasing, chunk by chunk ----

  /** How much of `len` bytes the first `j` chunks erase. */
  function Erased(len: nat, j: nat): (p: nat)
    ensures p <= len
    decreases j
  {
    if j == 0 || len == 0 then 0 else Min(len, ZERO_CHUNK) + Erased(len - Min(len, ZERO_CHUNK), j - 1)
  }

  lemma {:induction false} ErasePrefix(off: nat, len: nat, j: nat)
    requires j <= |ZeroOps(off, len)|
    ensures ZeroOps(off, len)[..j] == ZeroOps(off, Erased(len, j))
    ensures j < |ZeroOps(off, len)| ==>
      var op := ZeroOps(off, len)[j];
      op.Write? && op.off == off + Erased(len, j) && |op.bytes| > 0 && op.off + |op.bytes| <= off + len
    ensures j == |ZeroOps(off, len)| ==> Erased(len, j) == len
    ensures len % ZERO_CHUNK == 0 ==> Erased(len, j) % ZERO_CHUNK == 0
    decreases len
  {
    if len > 0 && j > 0 {
      hide Zeros;
      var n := Min(len, ZERO_CHUNK);
      var op, rest := Write(off, Zeros(n)), ZeroOps(off + n, len - n);
      var all := [op] + rest;
      ErasePrefix(off + n, len - n, j - 1);
      assert all[..j] == [op] + rest[..j - 1];
      if j < |all| {
        assert all[j] == rest[j - 1];
      }
      ErasedSteps(off, len, j);
    }
  }

  lemma ErasedSteps(off: nat, len: nat, j: nat)
    requires len > 0 && j > 0
    ensures var n := Min(len, ZERO_CHUNK);
      ZeroOps(off, Erased(len, j)) == [Write(off, Zeros(n))] + ZeroOps(off + n, Erased(len - n, j - 1))
  {
    hide Zeros;
    var n := Min(len, ZERO_CHUNK);
    var p := Erased(len - n, j - 1);
    if n < ZERO_CHUNK {
      assert p == 0;
    }
  }

  /** What may become of a log: the chain is still what it was, or neither of the
      writer's slots parses; and no slot past them carries the current GUID or one
      about to be used, if none did. */
  ghost predicate Faded(log: Buf, after: Buf, h: Header, n: nat) {
    |after| == |log|
    && (Collect(after, h.logGuid) == Collect(log, h.logGuid)
        || (Examine(after, 0, h.logGuid).Refused? && Examine(after, SECTOR, h.logGuid).Refused?))
    && (RoomFor(log, h, n) ==> RoomFor(after, h, n))
  }

  function Wiped(log: Buf, p: nat): (r: Buf)
    requires p <= |log|
    ensures |r| == |log|
  {
    Zeros(p) + log[p..]
  }

  lemma WipedSlot(log: Buf, p: nat, pos: nat)
    requires p <= |log| && p % SECTOR == 0 && pos % SECTOR == 0
    ensures pos < p ==> !HasSignature(Wiped(log, p), pos)
    ensures pos >= p ==> (HasSignature(Wiped(log, p), pos) <==> HasSignature(log, pos))
    ensures pos >= p && HasSignature(log, pos) ==> DeclaredGuid(Wiped(log, p), pos) == DeclaredGuid(log, pos)
  {
    var after := Wiped(log, p);
    if pos < p {
      assert after[pos] == 0;
      if pos + SECTOR <= |after| {
        assert after[pos..pos + 4][0] == 0 != LOGE[0];
      }
    } else if pos + SECTOR <= |log| {
      assert after[pos..pos + 4] == log[pos..pos + 4];
      assert after[pos + 32..pos + 48] == log[pos + 32..pos + 48];
    }
  }

  lemma WipedRest(log: Buf, p: nat, g: Guid)
    requires p <= |log| && p % SECTOR == 0 && RestClear(log, g)
    ensures RestClear(Wiped(log, p), g)
  {
    var after := Wiped(log, p);
    hide Wiped, HasSignature, DeclaredGuid;
    forall pos | ENTRY_SIZE <= pos && pos % SECTOR == 0 && HasSignature(after, pos)
      ensures DeclaredGuid(after, pos) != g
    {
      WipedSlot(log, p, pos);
    }
  }

  lemma {:induction false} WipedRoom(log: Buf, p: nat, h: Header, n: nat)
    requires p <= |log| && p % SECTOR == 0 && RoomFor(log, h, n)
    ensures RoomFor(Wiped(log, p), h, n)
    decreases n
  {
    hide RestClear, JournalledHeader, Wiped;
    if !IsZeroGuid(h.logGuid) {
      WipedRest(log, p, h.logGuid);
    }
    if n > 0 {
      WipedRoom(log, p, JournalledHeader(h), n - 1);
    }
  }

  /** Whole chunks erased from the front fade a log. */
  lemma WipedFades(log: Buf, p: nat, h: Header, n: nat)
    requires p <= |log| && p % SECTOR == 0 && (p == 0 || p >= ENTRY_SIZE)
    ensures Faded(log, Wiped(log, p), h, n)
  {
    var after := Wiped(log, p);
    if p == 0 {
      assert after == log;
    } else {
      WipedSlot(log, p, 0);
      WipedSlot(log, p, SECTOR);
      NoSignatureRefused(after, 0, h.logGuid);
      NoSignatureRefused(after, SECTOR, h.logGuid);
    }
    hide Wiped, HasSignature, DeclaredGuid, Collect, Examine, RoomFor;
    if RoomFor(log, h, n) {
      WipedRoom(log, p, h, n);
    }
  }

  lemma NoSignatureRefused(log: Buf, pos: nat, guid: Guid)
    requires !HasSignature(log, pos)
    ensures Examine(log, pos, guid).Refused?
  {
    hide Decode;
  }

  lemma FadedCollect(log: Buf, after: Buf, h: Header, n: nat)
    requires Faded(log, after, h, n) && RoomFor(log, h, n) && !IsZeroGuid(h.logGuid) && |log| >= ENTRY_SIZE
    ensures Collect(after, h.logGuid) == Collect(log, h.logGuid) || Collect(after, h.logGuid) == Ok([])
    ensures RoomFor(after, h, n)
  {
    hide Collect, Examine, RestClear, RoomFor;
    RoomRest(after, h, n);
    if Collect(after, h.logGuid) != Collect(log, h.logGuid) {
      QuietCollect(after, h.logGuid);
    }
  }

  // ---- What is still held ----

  /** The bounds of a device with a sector pending. */
  ghost predicate PendingBounds(e: Buf, t: ReaderState, m: Region, x: Descriptor) {
    t.geometry.blockSize > 0 && t.geometry.ratio > 0 && x.DataDesc? && |e| >= 2 * ONE_MIB
    && t.header.logLength >= ONE_MIB && t.header.logLength % ONE_MIB == 0 && t.header.logOffset >= ONE_MIB
    && t.header.logOffset + t.header.logLength <= |e|
    && ONE_MIB <= t.batOffset <= x.fileOffset && x.fileOffset + SECTOR <= BatEnd(t) <= |e|
    && t.batOffset + |t.bat| * ENTRY_BYTES <= BatEnd(t)
    && Apart(t.batOffset, BatEnd(t), t.header.logOffset, t.header.logOffset + t.header.logLength)
    && !IsZeroGuid(t.header.logGuid) && PickHeader(e) == Ok((t.header, t.slot)) && Layout(t, m, |e|) && |e| < TWO64
  }

  ghost function PendingSector(e: Buf, t: ReaderState): Descriptor
    requires Pending(e, t.header).Ok? && Pending(e, t.header).value != []
      && Pending(e, t.header).value[0].descriptors != []
  {
    Pending(e, t.header).value[0].descriptors[0]
  }

  lemma PendingHas(e: Buf, t: ReaderState, env: Setting)
    requires Recoverable(e, t, env) && Pending(e, t.header).value != []
    ensures Pending(e, t.header).value[0].descriptors != [] && PendingBounds(e, t, env.m, PendingSector(e, t))
    ensures OneSector(Pending(e, t.header).value, t, |e|)
    ensures BatOf(Splice(e, PendingSector(e, t).fileOffset, PendingSector(e, t).sector), t) == t.bat
    ensures Pending(e, t.header) == Collect(LogRegion(e, t.header), t.header.logGuid)
  {
    OkParts(e, t, env.capacity);
    LayoutParts(t, env.m, |e|);
    PendingIsCollect(e, t.header);
    hide Anchored, PickHeader, LogClear, Layout, Collect, BatOf, ReaderOk, BatEnd, LegalGeometry, Splice;
    LogRegionMeansMegabytes(|e|, t.header);
  }

  lemma PendingIsCollect(e: Buf, h: Header)
    requires Pending(e, h).Ok? && Pending(e, h).value != []
    ensures !IsZeroGuid(h.logGuid) && h.logLength > 0 && h.logOffset + h.logLength <= |e|
      && Pending(e, h) == Collect(LogRegion(e, h), h.logGuid)
  {
    hide Collect;
  }

  lemma PendingFrom(f: Buf, h: Header)
    requires !IsZeroGuid(h.logGuid) && h.logLength > 0 && h.logOffset > 0 && h.logOffset + h.logLength <= |f|
    ensures Pending(f, h) == Collect(LogRegion(f, h), h.logGuid)
  {
    hide Collect;
  }

  lemma RoomRest(log: Buf, h: Header, n: nat)
    requires RoomFor(log, h, n) && !IsZeroGuid(h.logGuid)
    ensures RestClear(log, h.logGuid)
  {
    hide RestClear;
  }

  /** A device near the one it came from, with the same header, a table that is the one
      it should be, and a log that has faded, still holds the image. */
  lemma StillHeld(e: Buf, f: Buf, t: ReaderState, env: Setting, n: nat, disk: Buf)
    requires Held(e, t, env, n, disk) && Pending(e, t.header).Ok? && Pending(e, t.header).value != []
    requires |f| == |e| && Near(e, f, t) && PickHeader(f) == PickHeader(e)
    requires t.header.logOffset + t.header.logLength <= |e|
    requires Faded(LogRegion(e, t.header), LogRegion(f, t.header), t.header, n + 1)
    requires Pending(e, t.header).value[0].descriptors != []
    requires var x := Pending(e, t.header).value[0].descriptors[0];
      x.DataDesc? && t.batOffset + |t.bat| * ENTRY_BYTES <= |f| && x.fileOffset + SECTOR <= |f|
      && BatOf(Splice(f, x.fileOffset, x.sector), t) == t.bat
      && (Pending(f, t.header) == Ok([]) ==> BatOf(f, t) == t.bat)
    ensures Held(f, t, env, n, disk)
  {
    hide Recoverable, Anchored, PickHeader, LogClear, Layout, Collect, BatOf, ReaderOk, BatEnd, LegalGeometry, Splice,
      Near, Disk, RoomFor, Faded, LogRegion, Pending, ControlLayout, BlocksClear, BlocksApart;
    PendingHas(e, t, env);
    HeldParts(e, t, env, n);
    var h := t.header;
    var log, after := LogRegion(e, h), LogRegion(f, h);
    LayoutParts(t, env.m, |e|);
    PendingFrom(f, h);
    LogRegionSize(e, h);
    FadedCollect(log, after, h, n + 1);
    NearAnchored(e, f, t, env);
    ReaderOkMoves(e, t, f, t, env.capacity);
    MakesRecoverable(f, t, env);
    RoomOfMore(f, t, n);
    NearDisk(e, f, t, env.m);
  }

  lemma LogRegionSize(e: Buf, h: Header)
    requires h.logOffset + h.logLength <= |e|
    ensures |LogRegion(e, h)| == h.logLength
  {
  }

  lemma HeldParts(e: Buf, t: ReaderState, env: Setting, n: nat)
    requires Recoverable(e, t, env) && Room(e, t, n) && Pending(e, t.header).value != []
    ensures ReaderOk(e, t, env.capacity) && Anchored(e, t, env) && LogClear(env.rt, t.header)
      && t.header.logVersion == 0
    ensures t.header.logLength > 0 && t.header.sequence < TWO64 - 1 && t.header.version == 1
      && t.devSize == |e| <= env.capacity
    ensures t.header.logOffset + t.header.logLength <= |e| && RoomFor(LogRegion(e, t.header), t.header, n + 1)
  {
    PendingIsCollect(e, t.header);
    OkParts(e, t, env.capacity);
    hide Anchored, PickHeader, LogClear, Layout, BatOf, RoomFor, LogRegion, LegalGeometry, LogRegionValid;
  }

  // ---- The devices a reopen passes through ----

  /** What the device lemmas start from: a device that holds an image with a sector
      pending. */
  ghost predicate Waiting(e: Buf, t: ReaderState, env: Setting, n: nat, disk: Buf, x: Descriptor) {
    Held(e, t, env, n, disk)
    && Pending(e, t.header).Ok? && Pending(e, t.header).value != [] && Pending(e, t.header).value[0].descriptors != []
    && x == PendingSector(e, t) && PendingBounds(e, t, env.m, x)
    && BatOf(Splice(e, x.fileOffset, x.sector), t) == t.bat
  }

  lemma WaitingBounds(e: Buf, t: ReaderState, env: Setting, n: nat, disk: Buf, x: Descriptor)
    requires Waiting(e, t, env, n, disk, x)
    ensures PendingBounds(e, t, env.m, x) && t.header.logOffset + t.header.logLength <= |e|
      && x.fileOffset + SECTOR <= |e|
    ensures PickHeader(e) == Ok((t.header, t.slot)) && t.batOffset + |t.bat| * ENTRY_BYTES <= |e|
    ensures BatOf(Splice(e, x.fileOffset, x.sector), t) == t.bat
  {
    hide Held, BatOf, Splice, Pending, PickHeader, Layout, BatEnd;
  }

  lemma HeaderBelow(e: Buf, off: nat, b: Buf)
    requires ONE_MIB <= off && off + |b| <= |e|
    ensures PickHeader(Splice(e, off, b)) == PickHeader(e)
  {
    hide PickHeader, Splice;
    SpliceOutside(e, off, b, 0x1_0000, 0x1_1000);
    SpliceOutside(e, off, b, 0x2_0000, 0x2_1000);
    PickHeaderFrame(Splice(e, off, b), e);
  }

  lemma FadedSame(log: Buf, h: Header, n: nat)
    ensures Faded(log, log, h, n)
  {
    hide Collect, Examine, RoomFor;
  }

  lemma SpliceOver(d: Buf, off: nat, a: Buf, b: Buf)
    requires off + |a| <= |d| && |a| == |b|
    ensures Splice(Splice(d, off, a), off, b) == Splice(d, off, b)
  {
  }

  /** The sector in place may be anything while the log still has it. */
  lemma SectorHeld(e: Buf, t: ReaderState, env: Setting, n: nat, disk: Buf, x: Descriptor, y: Sector)
    requires Waiting(e, t, env, n, disk, x) && x.DataDesc? && x.fileOffset + SECTOR <= |e|
    ensures Held(Splice(e, x.fileOffset, y), t, env, n, disk)
  {
    hide Held, BatOf, Splice, Pending, PickHeader, Layout, BatEnd, Near, Faded;
    WaitingBounds(e, t, env, n, disk, x);
    var f, h := Splice(e, x.fileOffset, y), t.header;
    NearRefl(e, t);
    NearSplice(e, e, t, x.fileOffset, y);
    HeaderBelow(e, x.fileOffset, y);
    SpliceApart(e, x.fileOffset, y, h.logOffset, h.logOffset + h.logLength);
    FadedSame(LogRegion(e, h), h, n + 1);
    PendingFrame(e, f, h);
    SpliceOver(e, x.fileOffset, y, x.sector);
    StillHeld(e, f, t, env, n, disk);
  }

  /** The sector landed, and something in place of the log. */
  function Landing(e: Buf, t: ReaderState, x: Descriptor, y: Buf): (f: Buf)
    requires x.DataDesc? && x.fileOffset + SECTOR <= |e| && t.header.logOffset + |y| <= |e|
    ensures |f| == |e|
  {
    Splice(Splice(e, x.fileOffset, x.sector), t.header.logOffset, y)
  }

  lemma LandingFacts(e: Buf, t: ReaderState, m: Region, x: Descriptor, y: Buf)
    requires PendingBounds(e, t, m, x) && |y| == t.header.logLength
    requires BatOf(Splice(e, x.fileOffset, x.sector), t) == t.bat
    ensures var f := Landing(e, t, x, y);
      Near(e, f, t) && PickHeader(f) == PickHeader(e) && LogRegion(f, t.header) == y
      && f[x.fileOffset..x.fileOffset + SECTOR] == x.sector && BatOf(f, t) == t.bat
  {
    hide BatOf, Splice, PickHeader, Layout, BatEnd, Near;
    var e1, lo := Splice(e, x.fileOffset, x.sector), t.header.logOffset;
    var f := Landing(e, t, x, y);
    NearRefl(e, t);
    NearSplice(e, e, t, x.fileOffset, x.sector);
    NearSplice(e, e1, t, lo, y);
    HeaderBelow(e, x.fileOffset, x.sector);
    HeaderBelow(e1, lo, y);
    SpliceInside(e1, lo, y);
    SpliceInside(e, x.fileOffset, x.sector);
    SpliceApart(e1, lo, y, x.fileOffset, x.fileOffset + SECTOR);
    SpliceApart(e1, lo, y, t.batOffset, BatEnd(t));
    BatSlices(e1, f, t);
  }

  lemma LandingHeld(e: Buf, t: ReaderState, env: Setting, n: nat, disk: Buf, x: Descriptor, y: Buf)
    requires Waiting(e, t, env, n, disk, x) && x.DataDesc? && x.fileOffset + SECTOR <= |e|
    requires t.header.logOffset + t.header.logLength <= |e| && |y| == t.header.logLength
    requires Faded(LogRegion(e, t.header), y, t.header, n + 1)
    ensures Held(Landing(e, t, x, y), t, env, n, disk)
  {
    hide Held, BatOf, Splice, Pending, PickHeader, Layout, BatEnd, Near, Faded, Landing, LogRegion;
    WaitingBounds(e, t, env, n, disk, x);
    LandingFacts(e, t, env.m, x, y);
    SpliceSame(Landing(e, t, x, y), x.fileOffset, x.sector);
    StillHeld(e, Landing(e, t, x, y), t, env, n, disk);
  }

  /** A header that tore over an erased log. */
  lemma HeaderHeld(e: Buf, t: ReaderState, env: Setting, n: nat, disk: Buf, x: Descriptor, torn: Buf)
    requires Waiting(e, t, env, n, disk, x) && x.DataDesc? && x.fileOffset + SECTOR <= |e| && |e| >= 2 * ONE_MIB
    requires t.header.logOffset + t.header.logLength <= |e| && |torn| == HEADER_SIZE && ParseHeader(torn).Err?
    ensures Held(Splice(Landing(e, t, x, Zeros(t.header.logLength)), t.slot.Other().Offset(), torn), t, env, n, disk)
  {
    hide Held, BatOf, Splice, Pending, PickHeader, Layout, BatEnd, Near, Faded, Landing, LogRegion, Zeros, ParseHeader;
    WaitingBounds(e, t, env, n, disk, x);
    var h, off := t.header, t.slot.Other().Offset();
    var g := Landing(e, t, x, Zeros(h.logLength));
    var f := Splice(g, off, torn);
    LandingFacts(e, t, env.m, x, Zeros(h.logLength));
    RotationTorn(g, h, t.slot, torn);
    NearSplice(e, g, t, off, torn);
    SlotUntouched(g, t, env.m, x, torn);
    SpliceSame(f, x.fileOffset, x.sector);
    ZerosFade(e, t, env.m, x, n + 1);
    StillHeld(e, f, t, env, n, disk);
  }

  lemma SlotUntouched(g: Buf, t: ReaderState, m: Region, x: Descriptor, torn: Buf)
    requires |g| >= 2 * ONE_MIB && t.header.logOffset >= ONE_MIB && t.header.logOffset + t.header.logLength <= |g|
      && |torn| == HEADER_SIZE
    requires x.DataDesc? && ONE_MIB <= t.batOffset <= x.fileOffset && x.fileOffset + SECTOR <= BatEnd(t) <= |g|
    requires g[x.fileOffset..x.fileOffset + SECTOR] == x.sector
    ensures var f := Splice(g, t.slot.Other().Offset(), torn);
      LogRegion(f, t.header) == LogRegion(g, t.header) && f[x.fileOffset..x.fileOffset + SECTOR] == x.sector
      && t.batOffset + |t.bat| * ENTRY_BYTES <= |g| && BatOf(f, t) == BatOf(g, t)
  {
    hide Splice, BatOf;
    var off := t.slot.Other().Offset();
    SpliceOutside(g, off, torn, t.header.logOffset, t.header.logOffset + t.header.logLength);
    SpliceOutside(g, off, torn, x.fileOffset, x.fileOffset + SECTOR);
    SpliceOutside(g, off, torn, t.batOffset, BatEnd(t));
    BatSlices(g, Splice(g, off, torn), t);
  }

  lemma ZerosFade(e: Buf, t: ReaderState, m: Region, x: Descriptor, n: nat)
    requires PendingBounds(e, t, m, x)
    ensures t.header.logOffset + t.header.logLength <= |e|
    ensures Faded(LogRegion(e, t.header), Zeros(t.header.logLength), t.header, n)
  {
    hide Faded, Layout, PickHeader, BatEnd;
    var log, len := LogRegion(e, t.header), t.header.logLength;
    WholeMegabytes(len);
    WipedFades(log, len, t.header, n);
    assert Wiped(log, len) == Zeros(len);
  }

  lemma WholeMegabytes(len: nat)
    requires len % ONE_MIB == 0
    ensures len % SECTOR == 0 && (len == 0 || len >= ENTRY_SIZE)
  {
    MultipleOfMultiple(len, ONE_MIB, SECTOR);
  }

  /** Once the cleared header is in place the image is the one reopening was making. */
  lemma ClearedHeld(e: Buf, t: ReaderState, env: Setting, n: nat, disk: Buf, x: Descriptor)
    requires Waiting(e, t, env, n, disk, x) && x.DataDesc? && x.fileOffset + SECTOR <= |e| && |e| >= 2 * ONE_MIB
    requires t.header.logOffset + t.header.logLength <= |e|
    ensures Held(Cleared(Splice(e, x.fileOffset, x.sector), t.header, t.slot),
      t.(header := ClearedHeader(t.header), slot := t.slot.Other()),
                 env, n, disk)
  {
    hide Recoverable, BatOf, Splice, Pending, PickHeader, Layout, BatEnd, Near, RoomFor, Disk, Cleared, WellFormed,
      LogRegion, OpenRun, RunOps, Anchored, ReaderOk, LogClear, ControlLayout, BlocksClear, BlocksApart,
      LogRegionValid, Landed;
    HeldParts(e, t, env, n);
    SequenceRoom(LogRegion(e, t.header), t.header, n + 1);
    ClearedIsWellFormed(e, t, env, t.writable, n);
    ReopenReplays(e, t, env, t.writable);
    var e2, s := Cleared(Splice(e, x.fileOffset, x.sector), t.header, t.slot),
      t.(header := ClearedHeader(t.header), slot := t.slot.Other());
    WellFormedParts(e2, s, env, n);
    WellFormedRecovers(e2, s, env, n);
    ClearedQuiet(e2, t.header);
    LayoutParts(t, env.m, |e|);
    NearDisk(e, e2, t, env.m);
  }

  lemma ClearedQuiet(e: Buf, h: Header)
    ensures Pending(e, ClearedHeader(h)) == Ok([])
  {
    hide Collect;
  }

  lemma SequenceRoom(log: Buf, h: Header, n: nat)
    requires RoomFor(log, h, n)
    ensures h.sequence + n < TWO64 - 1
  {
    hide RestClear;
  }

  // ---- The operations of a reopen ----

  /** The sector, and its flush. */
  function LandOps(x: Descriptor): seq<DevOp>
    requires x.DataDesc?
  {
    [Write(x.fileOffset, x.sector), Flush]
  }

  /** The cleared header. */
  function MarkOps(t: ReaderState): seq<DevOp> {
    [Flush, Write(t.slot.Other().Offset(), EncodedHeader(ClearedHeader(t.header))), Flush]
  }

  function ReopenOps(t: ReaderState, x: Descriptor): seq<DevOp>
    requires x.DataDesc?
  {
    LandOps(x) + (ZeroOps(t.header.logOffset, t.header.logLength) + MarkOps(t))
  }

  lemma ClearOpsAre(t: ReaderState)
    ensures ClearOps(t.header, t.slot) == ZeroOps(t.header.logOffset, t.header.logLength) + MarkOps(t)
  {
    hide ZeroOps, EncodedHeader;
    var z, w := ZeroOps(t.header.logOffset, t.header.logLength),
      Write(t.slot.Other().Offset(), EncodedHeader(ClearedHeader(t.header)));
    assert z + [Flush] + [w, Flush] == z + [Flush, w, Flush];
  }

  lemma ReplayOps(e: Buf, chain: seq<LogEntry>, t: ReaderState, capacity: nat)
    requires |e| <= capacity < 0x8000_0000_0000_0000 && OneSector(chain, t, |e|) && BatEnd(t) <= |e|
    ensures var done := Replay(|e|, capacity, chain);
      done.result.Ok? && done.ops == LandOps(chain[0].descriptors[0])
  {
    var x := chain[0].descriptors[0];
    hide BatEnd;
    assert chain[1..] == [];
    assert Flatten(chain) == [x];
    assert MaxLast(chain) == chain[0].header.lastFileOffset by { assert MaxLast(chain[1..]) == 0; }
    assert AllowedExtent(|e|, chain) == |e|;
    assert AllFit([x], |e|);
    OneSectorOps(chain, x);
    assert [] + ChainOps(chain) == ChainOps(chain);
  }

  lemma OpenOps(e: Buf, t: ReaderState, env: Setting, w: bool, x: Descriptor)
    requires Recoverable(e, t, env) && Pending(e, t.header).value != [] && |e| < TWO64
    requires Pending(e, t.header).value[0].descriptors != [] && x == PendingSector(e, t) && x.DataDesc?
    ensures OpenRun(e, env.capacity, w, true, env.dec).ops == ReopenOps(t, x)
  {
    PendingHas(e, t, env);
    OkParts(e, t, env.capacity);
    LayoutParts(t, env.m, |e|);
    GatesPass(e, t, env);
    hide Recoverable, ReaderOk, Anchored, Layout, Pending, PickHeader, LogClear, Gates, Settle, Load, LogRegionValid,
      BatEnd, Splice, ControlLayout, Replay, RunOps, Near, BatOf, ClearOps, LegalGeometry, Collect, ZeroOps,
      PendingBounds;
    var chain := Pending(e, t.header).value;
    ReplayOps(e, chain, t, env.capacity);
    ReplayOneSector(e, chain, t, env.capacity);
    var e1 := Splice(e, x.fileOffset, x.sector);
    BoundsOf(e, t, env.m, x);
    ReopenNear(e, t, env.m, x.fileOffset, x.sector);
    AnchoredOf(e, t, env);
    NearAnchored(e, e1, t, env);
    SettleSame(e, e1, t, env);
    ClearOpsAre(t);
  }

  lemma BoundsOf(e: Buf, t: ReaderState, m: Region, x: Descriptor)
    requires PendingBounds(e, t, m, x)
    ensures t.header.logLength > 0 && t.batOffset <= x.fileOffset && x.fileOffset + SECTOR <= BatEnd(t)
  {
    hide Layout, PickHeader, BatEnd;
  }

  lemma AnchoredOf(e: Buf, t: ReaderState, env: Setting)
    requires Recoverable(e, t, env)
    ensures Anchored(e, t, env)
  {
    hide Anchored, ReaderOk, PickHeader, LogClear, Layout, Pending, BatOf;
  }

  // ---- Crashes ----

  /** A torn header fails its checks or did not change, and a torn erase fades the log. */
  ghost predicate TearsFade(e: Buf, h: Header, n: nat, ops: seq<DevOp>, c: Crash)
    requires CrashOf(ops, c)
  {
    c.Torn? ==>
      var op, f := ops[c.k], CrashState(e, ops, c);
      ((op.off == One.Offset() || op.off == Two.Offset()) ==>
         ParseHeader(c.bytes).Err? || c.bytes == op.bytes || f == RunOps(e, ops[..c.k]))
      && (h.logOffset <= op.off < h.logOffset + h.logLength <= |e| && |f| == |e| ==>
            Faded(LogRegion(e, h), LogRegion(f, h), h, n + 1))
  }

  /** The image is held, by the header it had or by the cleared one. */
  ghost predicate StillHolds(f: Buf, t: ReaderState, env: Setting, n: nat, disk: Buf) {
    Held(f, t, env, n, disk)
    || Held(f, t.(header := ClearedHeader(t.header), slot := t.slot.Other()), env, n, disk)
  }

  lemma LandCrash(e: Buf, t: ReaderState, env: Setting, n: nat, disk: Buf, x: Descriptor, c: Crash)
    requires Waiting(e, t, env, n, disk, x) && x.DataDesc? && x.fileOffset + SECTOR <= |e|
    requires CrashOf(LandOps(x), c)
    ensures Held(CrashState(e, LandOps(x), c), t, env, n, disk)
  {
    hide Held, BatOf, Splice, Pending, PickHeader, Layout, BatEnd, Near, Faded, RunOps;
    var ops := LandOps(x);
    RunNothing(e, []);
    assert ops[..0] == [] && ops[..2] == ops && ops[..1] == [Write(x.fileOffset, x.sector)];
    RunOne(e, Write(x.fileOffset, x.sector));
    WriteThenFlush(e, x.fileOffset, x.sector);
    if c.Torn? {
      SectorHeld(e, t, env, n, disk, x, c.bytes);
    } else if c.k > 0 {
      SectorHeld(e, t, env, n, disk, x, x.sector);
    }
  }

  /** After `p` bytes of the erase. */
  lemma EraseHeld(e: Buf, t: ReaderState, env: Setting, n: nat, disk: Buf, x: Descriptor, p: nat)
    requires Waiting(e, t, env, n, disk, x) && x.DataDesc? && x.fileOffset + SECTOR <= |e|
    requires t.header.logOffset + t.header.logLength <= |e| && p <= t.header.logLength && p % ONE_MIB == 0
    ensures Held(Landing(e, t, x, Zeros(p)), t, env, n, disk)
  {
    hide Held, BatOf, Splice, Pending, PickHeader, Layout, BatEnd, Near, Faded;
    WaitingBounds(e, t, env, n, disk, x);
    var h := t.header;
    var log, e1, lo := LogRegion(e, h), Splice(e, x.fileOffset, x.sector), h.logOffset;
    WholeMegabytes(p);
    WipedFades(log, p, h, n + 1);
    LandingHeld(e, t, env, n, disk, x, Wiped(log, p));
    SpliceApart(e, x.fileOffset, x.sector, lo, lo + h.logLength);
    WipedIsSplice(e1, lo, h.logLength, p);
  }

  lemma WipedIsSplice(d: Buf, lo: nat, len: nat, p: nat)
    requires p <= len && lo + len <= |d|
    ensures Splice(d, lo, Zeros(p)) == Splice(d, lo, Wiped(d[lo..lo + len], p))
  {
    hide Splice;
    var a, b := Splice(d, lo, Zeros(p)), Splice(d, lo, Wiped(d[lo..lo + len], p));
    forall i | 0 <= i < |d|
      ensures a[i] == b[i]
    {
      SpliceAt(d, lo, Zeros(p), i);
      SpliceAt(d, lo, Wiped(d[lo..lo + len], p), i);
    }
  }

  lemma EraseCrash(e: Buf, t: ReaderState, env: Setting, n: nat, disk: Buf, x: Descriptor, c: Crash)
    requires Waiting(e, t, env, n, disk, x) && x.DataDesc? && x.fileOffset + SECTOR <= |e|
    requires t.header.logOffset + t.header.logLength <= |e|
    requires var z, e1 := ZeroOps(t.header.logOffset, t.header.logLength), Splice(e, x.fileOffset, x.sector);
      CrashOf(z, c)
      && (c.Torn? ==>
            |CrashState(e1, z, c)| == |e| ==>
              Faded(LogRegion(e, t.header), LogRegion(CrashState(e1, z, c), t.header), t.header, n + 1))
    ensures Held(CrashState(Splice(e, x.fileOffset, x.sector), ZeroOps(t.header.logOffset, t.header.logLength), c),
      t, env, n, disk)
  {
    hide Held, BatOf, Splice, Pending, PickHeader, Layout, BatEnd, Near, Faded, RunOps, ZeroOps, Waiting, Erased;
    WaitingBounds(e, t, env, n, disk, x);
    var lo, len, e1 := t.header.logOffset, t.header.logLength, Splice(e, x.fileOffset, x.sector);
    var z, p := ZeroOps(lo, len), Erased(len, c.k);
    ErasePrefix(lo, len, c.k);
    ZeroRun(e1, lo, p);
    EraseHeld(e, t, env, n, disk, x, p);
    if c.Torn? {
      TornErase(e1, lo, len, p, z[c.k].off, c.bytes);
      LandingHeld(e, t, env, n, disk, x, LogRegion(CrashState(e1, z, c), t.header));
    }
  }

  lemma TornErase(d: Buf, lo: nat, len: nat, p: nat, off: nat, b: Buf)
    requires lo + len <= |d| && p <= len && off == lo + p && off + |b| <= lo + len
    ensures var f := RunOp(Splice(d, lo, Zeros(p)), Write(off, b));
      |f| == |d| && f == Splice(d, lo, f[lo..lo + len])
  {
    hide Splice;
    var g := Splice(d, lo, Zeros(p));
    var f := Splice(g, off, b);
    var r := Splice(d, lo, f[lo..lo + len]);
    forall i | 0 <= i < |d|
      ensures f[i] == r[i]
    {
      SpliceAt(d, lo, Zeros(p), i);
      SpliceAt(g, off, b, i);
      SpliceAt(d, lo, f[lo..lo + len], i);
    }
  }

  lemma MarkCrash(e: Buf, t: ReaderState, env: Setting, n: nat, disk: Buf, x: Descriptor, c: Crash)
    requires Waiting(e, t, env, n, disk, x) && x.DataDesc? && x.fileOffset + SECTOR <= |e| && |e| >= 2 * ONE_MIB
    requires t.header.logOffset + t.header.logLength <= |e|
    requires var g := Landing(e, t, x, Zeros(t.header.logLength));
      CrashOf(MarkOps(t), c)
      && (c.Torn? ==>
            ParseHeader(c.bytes).Err? || c.bytes == MarkOps(t)[c.k].bytes
            || CrashState(g, MarkOps(t), c) == RunOps(g, MarkOps(t)[..c.k]))
    ensures StillHolds(CrashState(Landing(e, t, x, Zeros(t.header.logLength)), MarkOps(t), c), t, env, n, disk)
  {
    hide Held, BatOf, Splice, Pending, PickHeader, Layout, BatEnd, Near, Faded, RunOps, RunOp, Waiting, EncodedHeader,
      Zeros, ParseHeader;
    WaitingBounds(e, t, env, n, disk, x);
    var g, ops := Landing(e, t, x, Zeros(t.header.logLength)), MarkOps(t);
    var w := Write(t.slot.Other().Offset(), EncodedHeader(ClearedHeader(t.header)));
    EraseHeld(e, t, env, n, disk, x, t.header.logLength);
    ClearedHeld(e, t, env, n, disk, x);
    MarkSteps(g, w);
    assert ops == [Flush, w, Flush];
    WriteInside(g, w.off, w.bytes);
    if c.Torn? {
      WriteInside(g, w.off, c.bytes);
      if ParseHeader(c.bytes).Err? {
        HeaderHeld(e, t, env, n, disk, x, c.bytes);
      }
    }
  }

  lemma MarkSteps(d: Buf, w: DevOp)
    ensures var ops := [Flush, w, Flush];
      RunOps(d, ops[..0]) == d && RunOps(d, ops[..1]) == d && RunOps(d, ops[..2]) == RunOp(d, w)
        && RunOps(d, ops[..3]) == RunOp(d, w)
  {
    hide RunOps, RunOp;
    var ops := [Flush, w, Flush];
    RunNothing(d, []);
    assert ops[..0] == [];
    RunPrefix(d, ops, 0);
    RunPrefix(d, ops, 1);
    RunPrefix(d, ops, 2);
    FlushNothing(d);
    FlushNothing(RunOp(d, w));
  }

  lemma FlushNothing(d: Buf)
    ensures RunOp(d, Flush) == d
  {
  }

  lemma WaitingNow(e: Buf, t: ReaderState, env: Setting, n: nat, disk: Buf) returns (x: Descriptor)
    requires Held(e, t, env, n, disk) && Pending(e, t.header).Ok? && Pending(e, t.header).value != []
    ensures Waiting(e, t, env, n, disk, x) && x.DataDesc? && x.fileOffset + SECTOR <= |e| && |e| >= 2 * ONE_MIB
    ensures t.header.logOffset + t.header.logLength <= |e| < TWO64
    ensures Pending(e, t.header).value[0].descriptors != [] && x == PendingSector(e, t) && Recoverable(e, t, env)
  {
    hide Recoverable, BatOf, Splice, Pending, PickHeader, Layout, Room, Disk, Collect, LogRegion, BatEnd;
    PendingHas(e, t, env);
    x := PendingSector(e, t);
  }

  /** After the sector has landed. */
  lemma LaterCrash(e: Buf, t: ReaderState, env: Setting, n: nat, disk: Buf, x: Descriptor, c: Crash)
    requires Waiting(e, t, env, n, disk, x) && x.DataDesc? && x.fileOffset + SECTOR <= |e| && |e| >= 2 * ONE_MIB
    requires t.header.logOffset + t.header.logLength <= |e|
    requires var rest, e1 := ZeroOps(t.header.logOffset, t.header.logLength) + MarkOps(t),
      Splice(e, x.fileOffset, x.sector);
      CrashOf(rest, c)
      && (c.Torn? ==>
            var op, f := rest[c.k], CrashState(e1, rest, c);
            ((op.off == One.Offset() || op.off == Two.Offset()) ==>
               ParseHeader(c.bytes).Err? || c.bytes == op.bytes || f == RunOps(e1, rest[..c.k]))
            && (t.header.logOffset <= op.off < t.header.logOffset + t.header.logLength && |f| == |e| ==>
                  Faded(LogRegion(e, t.header), LogRegion(f, t.header), t.header, n + 1)))
    ensures StillHolds(CrashState(Splice(e, x.fileOffset, x.sector),
      ZeroOps(t.header.logOffset, t.header.logLength) + MarkOps(t), c),
                       t, env, n, disk)
  {
    hide Held, BatOf, Splice, Pending, PickHeader, Layout, BatEnd, Near, Faded, RunOps, RunOp, ZeroOps, Waiting,
      EncodedHeader, ParseHeader, CrashState, LogRegion, Zeros;
    var lo, len, e1 := t.header.logOffset, t.header.logLength, Splice(e, x.fileOffset, x.sector);
    var z, k := ZeroOps(lo, len), MarkOps(t);
    if c.k < |z| {
      CrashSooner(e1, z, k, c);
      ErasePrefix(lo, len, c.k);
      EraseCrash(e, t, env, n, disk, x, c);
    } else {
      CrashLater(e1, z, k, c);
      ZeroRun(e1, lo, len);
      MarkCrash(e, t, env, n, disk, x, Shifted(c, |z|));
    }
  }

  /** A reopen cut after any of its operations, or torn in any of its writes, leaves a
      device that holds the same disk. */
  lemma ReopenSurvivesCrash(e: Buf, t: ReaderState, env: Setting, n: nat, disk: Buf, w: bool, c: Crash)
    requires Held(e, t, env, n, disk) && |e| < TWO64
    requires CrashOf(OpenRun(e, env.capacity, w, true, env.dec).ops, c)
    requires TearsFade(e, t.header, n, OpenRun(e, env.capacity, w, true, env.dec).ops, c)
    ensures StillHolds(CrashState(e, OpenRun(e, env.capacity, w, true, env.dec).ops, c), t, env, n, disk)
  {
    hide Recoverable, Room, Disk, OpenRun, CrashState, RunOps, RunOp, Faded, LogRegion, Pending, ParseHeader, Waiting,
      ZeroOps, MarkOps, Splice;
    PendingIsOk(e, t, env);
    if Pending(e, t.header).value == [] {
      ReopenQuiet(e, t, env, w);
      NoOps(e, c);
    } else {
      var x := WaitingNow(e, t, env, n, disk);
      OpenOps(e, t, env, w, x);
      var a, rest := LandOps(x), ZeroOps(t.header.logOffset, t.header.logLength) + MarkOps(t);
      if c.k < |a| {
        CrashSooner(e, a, rest, c);
        LandCrash(e, t, env, n, disk, x, c);
      } else {
        CrashLater(e, a, rest, c);
        WriteThenFlush(e, x.fileOffset, x.sector);
        LaterCrash(e, t, env, n, disk, x, Shifted(c, |a|));
      }
    }
  }

  lemma PendingIsOk(e: Buf, t: ReaderState, env: Setting)
    requires Recoverable(e, t, env)
    ensures Pending(e, t.header).Ok?
  {
    hide Pending;
  }

  lemma NoOps(e: Buf, c: Crash)
    requires CrashOf([], c)
    ensures CrashState(e, [], c) == e
  {
    var none: seq<DevOp> := [];
    assert none[..0] == none;
    RunNothing(e, []);
  }

  /** From `e`, a number of reopens that were all cut or torn left `f`. */
  ghost predicate CrashedReopens(e: Buf, capacity: nat, dec: Decoders, n: nat, tries: seq<(bool, Crash)>, f: Buf)
    decreases |tries|
  {
    if tries == [] then f == e
    else
      |e| < TWO64 && PickHeader(e).Ok?
      && var ops, c := OpenRun(e, capacity, tries[0].0, true, dec).ops, tries[0].1;
         CrashOf(ops, c) && TearsFade(e, PickHeader(e).value.0, n, ops, c)
         && CrashedReopens(CrashState(e, ops, c), capacity, dec, n, tries[1..], f)
  }

  lemma HeldHeader(e: Buf, t: ReaderState, env: Setting, n: nat, disk: Buf)
    requires Held(e, t, env, n, disk)
    ensures PickHeader(e) == Ok((t.header, t.slot)) && |e| < TWO64
  {
    OkParts(e, t, env.capacity);
    hide ReaderOk, Anchored, PickHeader, LogClear, Layout, Pending, BatOf, Room, Disk;
  }

  lemma {:induction false} HeldThrough(e: Buf, t: ReaderState, env: Setting, n: nat, disk: Buf,
                                       tries: seq<(bool, Crash)>, f: Buf) returns (s: ReaderState)
    requires Held(e, t, env, n, disk) && CrashedReopens(e, env.capacity, env.dec, n, tries, f)
    ensures Held(f, s, env, n, disk)
    decreases |tries|
  {
    hide Held, OpenRun, CrashState, TearsFade, PickHeader, CrashOf;
    s := t;
    if tries != [] {
      HeldHeader(e, t, env, n, disk);
      var ops, c := OpenRun(e, env.capacity, tries[0].0, true, env.dec).ops, tries[0].1;
      ReopenSurvivesCrash(e, t, env, n, disk, tries[0].0, c);
      var t' := if Held(CrashState(e, ops, c), t, env, n, disk) then t
                else t.(header := ClearedHeader(t.header), slot := t.slot.Other());
      s := HeldThrough(CrashState(e, ops, c), t', env, n, disk, tries[1..], f);
    }
  }

  /** Any number of crashed reopens converge: whatever a device recovers as, it still
      recovers as after them. */
  lemma ReopensConverge(e: Buf, env: Setting, w: bool, n: nat, disk: Buf,
                        tries: seq<(bool, Crash)>, f: Buf, again: bool)
    requires Recovers(e, env, w, n, disk) && CrashedReopens(e, env.capacity, env.dec, n, tries, f)
    ensures Recovers(f, env, again, n, disk)
  {
    var t := HolderOf(e, env, w, n, disk);
    hide Recovers, Held, CrashedReopens;
    var s := HeldThrough(e, t, env, n, disk, tries, f);
    HeldHeader(f, s, env, n, disk);
    HeldRecovers(f, s, env, again, n, disk);
  }

  lemma HolderOf(e: Buf, env: Setting, w: bool, n: nat, disk: Buf) returns (t: ReaderState)
    requires Recovers(e, env, w, n, disk)
    ensures Held(e, t, env, n, disk)
  {
    hide Held, OpenRun, WellFormed, Disk, RunOps;
    t :| Held(e, t, env, n, disk);
  }
}
