/** Well-formed images with their log, and what reopening makes of a device a writer
    left in the middle of something. */
module Recovery {
  import opened Bytes
  import opened LogFormat
  import opened LogChain
  import opened LogReplay
  import opened LogState
  import opened Devices
  import opened Guids
  import opened Headers
  import opened Bat
  import opened Open
  import opened Reader
  import opened Image

  /** The header's sequence number and GUID leave room for `n` journalled writes: the
      number does not reach its end, and no old slot of the log carries a GUID that
      will be used. */
  ghost predicate RoomFor(log: Buf, h: Header, n: nat)
    decreases n
  {
    h.sequence + n < TWO64 - 1
    && (IsZeroGuid(h.logGuid) || RestClear(log, h.logGuid))
    && (n > 0 ==> RoomFor(log, JournalledHeader(h), n - 1))
  }

  /** A chain of one BAT sector that does not make the file longer. */
  predicate OneSector(chain: seq<LogEntry>, st: ReaderState, size: nat) {
    |chain| == 1 && |chain[0].descriptors| == 1 && chain[0].descriptors[0].DataDesc?
    && st.batOffset <= chain[0].descriptors[0].fileOffset
    && chain[0].descriptors[0].fileOffset + SECTOR <= BatEnd(st)
    && chain[0].header.lastFileOffset <= size
  }

  /** Nothing is pending that has not already landed. */
  predicate Landed(d: Buf, st: ReaderState, chain: seq<LogEntry>) {
    chain == []
    || (OneSector(chain, st, |d|)
        && var x := chain[0].descriptors[0];
           x.fileOffset + SECTOR <= |d| && d[x.fileOffset..x.fileOffset + SECTOR] == x.sector)
  }

  /** An image the write path can be trusted with: what the code checks at open, and
      what it does not. */
  ghost predicate WellFormed(d: Buf, st: ReaderState, env: Setting, n: nat) {
    ReaderOk(d, st, env.capacity) && Anchored(d, st, env) && BatOf(d, st) == st.bat
    && PickHeader(d) == Ok((st.header, st.slot)) && st.header.logVersion == 0 && LogClear(env.rt, st.header)
    && Layout(st, env.m, |d|)
    && Pending(d, st.header).Ok? && Landed(d, st, Pending(d, st.header).value)
    && (st.header.logLength > 0 ==> RoomFor(LogRegion(d, st.header), st.header, n))
  }

  /** A device from which reopening should find the image `t`, whose table may still
      be in the log. */
  ghost predicate Recoverable(e: Buf, t: ReaderState, env: Setting) {
    ReaderOk(e, t, env.capacity) && Anchored(e, t, env)
    && PickHeader(e) == Ok((t.header, t.slot)) && t.header.logVersion == 0 && LogClear(env.rt, t.header)
    && (t.header.logLength > 0 ==> t.header.sequence < TWO64 - 1) && Layout(t, env.m, |e|)
    && Pending(e, t.header).Ok?
    && var chain := Pending(e, t.header).value;
       (chain == [] ==> BatOf(e, t) == t.bat)
       && (chain != [] ==>
             OneSector(chain, t, |e|)
             && var x := chain[0].descriptors[0];
                BatOf(Splice(e, x.fileOffset, x.sector), t) == t.bat)
  }

  /** Room in the log for `n` journalled writes once what is pending has been dealt
      with. */
  ghost predicate Room(e: Buf, t: ReaderState, n: nat) {
    t.header.logLength > 0 ==>
      t.header.logOffset + t.header.logLength <= |e|
      && RoomFor(LogRegion(e, t.header), t.header, if Pending(e, t.header) == Ok([]) then n else n + 1)
  }

  /** The device holds the image `t`, whose disk is `disk`, come what may of it. */
  ghost predicate Held(e: Buf, t: ReaderState, env: Setting, n: nat, disk: Buf) {
    t.geometry.blockSize > 0 && t.geometry.ratio > 0
    && Recoverable(e, t, env) && Room(e, t, n) && Disk(e, t.geometry, t.bat) == disk
  }

  // ---- Small facts ----

  lemma RoomOfMore(e: Buf, t: ReaderState, n: nat)
    requires t.header.logLength > 0 ==>
      t.header.logOffset + t.header.logLength <= |e| && RoomFor(LogRegion(e, t.header), t.header, n + 1)
    ensures Room(e, t, n)
  {
    hide RoomFor, Pending;
    if t.header.logLength > 0 {
      RoomForFewer(LogRegion(e, t.header), t.header, n + 1, n);
    }
  }

  lemma {:induction false} RoomForFewer(log: Buf, h: Header, n: nat, k: nat)
    requires RoomFor(log, h, n) && k <= n
    ensures RoomFor(log, h, k)
    decreases k
  {
    hide RestClear, JournalledHeader;
    if k > 0 {
      RoomForFewer(log, JournalledHeader(h), n - 1, k - 1);
    }
  }

  lemma {:induction false} RoomForFrame(log: Buf, after: Buf, h: Header, n: nat)
    requires |log| == |after| >= ENTRY_SIZE && after[ENTRY_SIZE..] == log[ENTRY_SIZE..] && RoomFor(log, h, n)
    ensures RoomFor(after, h, n)
    decreases n
  {
    if !IsZeroGuid(h.logGuid) {
      RestFrame(log, after, h.logGuid);
    }
    hide RestClear, JournalledHeader;
    if n > 0 {
      RoomForFrame(log, after, JournalledHeader(h), n - 1);
    }
  }

  lemma {:induction false} RoomInZeros(len: nat, h: Header, n: nat)
    requires h.sequence + n < TWO64 - 1
    ensures RoomFor(Zeros(len), h, n)
    decreases n
  {
    forall pos: nat
      ensures !HasSignature(Zeros(len), pos)
    {
      NoSignatureInZeros(len, pos);
    }
    if n > 0 {
      RoomInZeros(len, JournalledHeader(h), n - 1);
    }
  }

  /** No slot past the writer's own carries a GUID with this first half. */
  ghost predicate HalfFree(log: Buf, half: Buf) {
    forall pos :: ENTRY_SIZE <= pos && pos % SECTOR == 0 && HasSignature(log, pos) ==>
      DeclaredGuid(log, pos)[..8] != half
  }

  ghost predicate HalfClear(log: Buf, g: Guid) {
    HalfFree(log, g[..8]) && (g[..8] == Zeros(8) ==> HalfFree(log, GUARDED))
  }

  /** Stirring never leaves the first half of a GUID, so if no old slot shares that
      half there is room for as long as the sequence number lasts. */
  lemma {:induction false} RoomByHalf(log: Buf, h: Header, n: nat)
    requires h.sequence + n < TWO64 - 1 && HalfClear(log, h.logGuid)
    ensures RoomFor(log, h, n)
    decreases n
  {
    if n > 0 {
      var next := JournalledHeader(h);
      StirKeepsHalf(h.logGuid, next.sequence);
      hide Stir;
      assert GUARDED[0] != Zeros(8)[0];
      RoomByHalf(log, next, n - 1);
    }
  }

  lemma NoSignatureInZeros(len: nat, pos: nat)
    ensures !HasSignature(Zeros(len), pos)
  {
    if pos + SECTOR <= len {
      assert Zeros(len)[pos..pos + 4][0] != LOGE[0];
    }
  }

  lemma AnchoredSame(d: Buf, s: ReaderState, t: ReaderState, env: Setting)
    requires Anchored(d, s, env) && s.geometry == t.geometry && s.batOffset == t.batOffset && |s.bat| == |t.bat|
    ensures Anchored(d, t, env)
  {
  }

  lemma LayoutParts(st: ReaderState, m: Region, size: nat)
    requires st.geometry.blockSize > 0 && st.geometry.ratio > 0 && Layout(st, m, size)
    ensures ControlLayout(st, m, size) && BlocksClear(st, m, size) && BlocksApart(st.geometry, st.bat)
    ensures st.batOffset >= ONE_MIB && st.batOffset % SECTOR == 0 && BatEnd(st) <= size
    ensures st.batOffset + |st.bat| * ENTRY_BYTES <= BatEnd(st)
    ensures Apart(st.batOffset, BatEnd(st), st.header.logOffset, st.header.logOffset + st.header.logLength)
  {
  }

  lemma OkParts(d: Buf, st: ReaderState, capacity: nat)
    requires ReaderOk(d, st, capacity)
    ensures |d| == st.devSize <= capacity < 0x8000_0000_0000_0000 && LogRegionValid(|d|, st.header)
    ensures st.geometry.blockSize >= ONE_MIB && st.geometry.ratio >= 16 && LegalGeometry(st.geometry)
    ensures st.batOffset + |st.bat| * ENTRY_BYTES <= |d| && st.header.version == 1
  {
  }

  // ---- Reopening ----

  lemma GatesPass(e: Buf, t: ReaderState, env: Setting)
    requires ReaderOk(e, t, env.capacity) && Anchored(e, t, env) && PickHeader(e) == Ok((t.header, t.slot))
    requires t.header.logVersion == 0 && LogClear(env.rt, t.header) && Pending(e, t.header).Ok?
    ensures Gates(e, true, env.dec) == Ok(Gate(t.header, t.slot, Pending(e, t.header).value))
    ensures Settle(e, t.header, env.dec) == Ok(env.rt)
  {
    hide LogClear, Pending, PickHeader, PickTable, LoadGeometry, RequiredEntries, LegalGeometry, LogRegionValid;
  }

  /** Nothing pending: the open carries out no operation and loads the image. */
  lemma ReopenQuiet(e: Buf, t: ReaderState, env: Setting, w: bool)
    requires Recoverable(e, t, env) && Pending(e, t.header) == Ok([])
    ensures OpenRun(e, env.capacity, w, true, env.dec) == Opened([], Ok(t.(writable := w)))
  {
    GatesPass(e, t, env);
    AnchoredLoads(e, t, env, t.header, t.slot, w);
    OkParts(e, t, env.capacity);
    hide Gates, Settle, Load, Anchored, Layout, ReaderOk, PickHeader, LogClear;
  }

  lemma QuietOpen(f: Buf, capacity: nat, w: bool, dec: Decoders, h: Header, slot: Slot, rt: RegionTable)
    requires |f| < TWO64 && Gates(f, true, dec) == Ok(Gate(h, slot, [])) && Settle(f, h, dec) == Ok(rt)
    ensures OpenRun(f, capacity, w, true, dec) == Opened([], Load(f, h, slot, rt, w, dec))
  {
    hide Gates, Settle, Load;
  }

  lemma ReplayOneSector(e: Buf, chain: seq<LogEntry>, t: ReaderState, capacity: nat)
    requires |e| <= capacity < 0x8000_0000_0000_0000 && OneSector(chain, t, |e|) && BatEnd(t) <= |e|
    ensures var x, done := chain[0].descriptors[0], Replay(|e|, capacity, chain);
      x.fileOffset + SECTOR <= |e| && done.result.Ok? && RunOps(e, done.ops) == Splice(e, x.fileOffset, x.sector)
  {
    var x := chain[0].descriptors[0];
    hide BatEnd, Splice, RunOps;
    assert chain[1..] == [];
    assert Flatten(chain) == [x];
    assert MaxLast(chain) == chain[0].header.lastFileOffset by { assert MaxLast(chain[1..]) == 0; }
    assert AllowedExtent(|e|, chain) == |e|;
    assert AllFit([x], |e|);
    OneSectorOps(chain, x);
    assert [] + ChainOps(chain) == ChainOps(chain);
    WriteThenFlush(e, x.fileOffset, x.sector);
  }

  lemma {:induction false} OneSectorOps(chain: seq<LogEntry>, x: Descriptor)
    requires |chain| == 1 && chain[0].descriptors == [x] && x.DataDesc?
    ensures ChainOps(chain) == [Write(x.fileOffset, x.sector), Flush]
  {
    assert chain[1..] == [] && [x][1..] == [];
    assert AllDescOps([x]) == [Write(x.fileOffset, x.sector)] + [];
  }

  /** The devices a replaying reopen passes through stay near the one it found. */
  lemma ReopenNear(e: Buf, t: ReaderState, m: Region, off: nat, sector: Sector)
    requires t.geometry.blockSize > 0 && t.geometry.ratio > 0 && Layout(t, m, |e|)
    requires LogRegionValid(|e|, t.header) && t.header.logLength > 0
    requires t.batOffset <= off && off + SECTOR <= BatEnd(t)
    ensures |e| >= 2 * ONE_MIB && off + SECTOR <= |e| && t.header.logOffset + t.header.logLength <= |e|
    ensures var e1 := Splice(e, off, sector);
      Near(e, e1, t) && Near(e, Cleared(e1, t.header, t.slot), t)
  {
    LayoutParts(t, m, |e|);
    LogRegionMeansMegabytes(|e|, t.header);
    hide Splice, Near, Layout, EncodedHeader, LogRegionValid, ControlLayout;
    var h, e1 := t.header, Splice(e, off, sector);
    NearRefl(e, t);
    NearSplice(e, e, t, off, sector);
    NearSplice(e, e1, t, h.logOffset, Zeros(h.logLength));
    NearSplice(e, Splice(e1, h.logOffset, Zeros(h.logLength)), t, t.slot.Other().Offset(),
      EncodedHeader(ClearedHeader(h)));
  }

  lemma HeaderBelowBat(e: Buf, t: ReaderState, off: nat, sector: Sector)
    requires ONE_MIB <= off && off + SECTOR <= |e| && |e| >= 2 * ONE_MIB
    ensures PickHeader(Splice(e, off, sector)) == PickHeader(e)
  {
    hide PickHeader, Splice;
    SpliceOutside(e, off, sector, 0x1_0000, 0x1_1000);
    SpliceOutside(e, off, sector, 0x2_0000, 0x2_1000);
    PickHeaderFrame(Splice(e, off, sector), e);
  }

  lemma ClearedKeepsBat(e1: Buf, t: ReaderState, m: Region)
    requires t.geometry.blockSize > 0 && t.geometry.ratio > 0 && Layout(t, m, |e1|)
    requires LogRegionValid(|e1|, t.header) && t.header.logLength > 0
    ensures |e1| >= 2 * ONE_MIB && t.header.logOffset + t.header.logLength <= |e1|
    ensures t.batOffset + |t.bat| * ENTRY_BYTES <= |e1|
    ensures BatOf(Cleared(e1, t.header, t.slot), t) == BatOf(e1, t)
  {
    LayoutParts(t, m, |e1|);
    LogRegionMeansMegabytes(|e1|, t.header);
    hide Cleared, Layout, ControlLayout, LogRegionValid, BatEnd;
    if |t.bat| > 0 {
      ClearedFrame(e1, t.header, t.slot, t.batOffset, t.batOffset + |t.bat| * ENTRY_BYTES);
    }
    BatOfFrame(e1, Cleared(e1, t.header, t.slot), t, t);
  }

  lemma PendingMeansLog(e: Buf, h: Header)
    requires Pending(e, h).Ok? && Pending(e, h).value != []
    ensures h.logLength > 0
  {
  }

  /** With the pending sector in place, and then the log erased and the header cleared,
      the device is still that of the image. */
  lemma ReplayedImage(e: Buf, t: ReaderState, env: Setting, x: Descriptor)
    requires Recoverable(e, t, env) && Pending(e, t.header).value != []
      && x == Pending(e, t.header).value[0].descriptors[0]
    ensures |e| >= 2 * ONE_MIB && x.fileOffset + SECTOR <= |e| && t.header.logOffset + t.header.logLength <= |e|
    ensures var e1 := Splice(e, x.fileOffset, x.sector);
      var e2 := Cleared(e1, t.header, t.slot);
      Anchored(e, t, env) && Anchored(e1, t, env) && Anchored(e2, t, env) && Near(e, e2, t)
      && PickHeader(e2) == Ok((ClearedHeader(t.header), t.slot.Other())) && BatOf(e2, t) == t.bat
  {
    OkParts(e, t, env.capacity);
    LayoutParts(t, env.m, |e|);
    PendingMeansLog(e, t.header);
    hide ReaderOk, Anchored, Layout, Pending, PickHeader, LogClear, LogRegionValid, BatEnd, Cleared, Splice,
      ControlLayout, Near, BatOf, LegalGeometry;
    var e1, h := Splice(e, x.fileOffset, x.sector), t.header;
    ReopenNear(e, t, env.m, x.fileOffset, x.sector);
    NearAnchored(e, e1, t, env);
    NearAnchored(e, Cleared(e1, h, t.slot), t, env);
    HeaderBelowBat(e, t, x.fileOffset, x.sector);
    LogRegionMeansMegabytes(|e|, h);
    ClearedPicks(e1, h, t.slot);
    ClearedKeepsBat(e1, t, env.m);
  }

  /** A sector pending: the open applies it, erases the log and loads the image. */
  lemma ReopenReplays(e: Buf, t: ReaderState, env: Setting, w: bool)
    requires Recoverable(e, t, env) && Pending(e, t.header).value != []
    ensures var x := Pending(e, t.header).value[0].descriptors[0];
      |e| >= 2 * ONE_MIB && x.fileOffset + SECTOR <= |e| && t.header.logOffset + t.header.logLength <= |e|
      && var e2 := Cleared(Splice(e, x.fileOffset, x.sector), t.header, t.slot);
         var o := OpenRun(e, env.capacity, w, true, env.dec);
         RunOps(e, o.ops) == e2 && Near(e, e2, t)
         && o.result == Ok(t.(header := ClearedHeader(t.header), slot := t.slot.Other(), writable := w))
         && PickHeader(e2) == Ok((ClearedHeader(t.header), t.slot.Other()))
         && Anchored(e2, t, env) && BatOf(e2, t) == t.bat
  {
    var chain, h := Pending(e, t.header).value, t.header;
    var x := chain[0].descriptors[0];
    OkParts(e, t, env.capacity);
    LayoutParts(t, env.m, |e|);
    GatesPass(e, t, env);
    ReplayedImage(e, t, env, x);
    LogClearOfRecoverable(e, t, env);
    hide Recoverable, ReaderOk, Anchored, Layout, Pending, PickHeader, LogClear, Gates, Settle, Load, LogRegionValid,
      BatEnd, Cleared, Splice, ControlLayout, Replay, RunOps, Near, BatOf, ClearOps, LegalGeometry, BlocksClear,
      BlocksApart;
    var e1 := Splice(e, x.fileOffset, x.sector);
    ReplayOneSector(e, chain, t, env.capacity);
    ClearRun(e1, h, t.slot);
    RunConcat(e, Replay(|e|, env.capacity, chain).ops, ClearOps(h, t.slot));
    SettleSame(e, e1, t, env);
    AnchoredLoads(Cleared(e1, h, t.slot), t, env, ClearedHeader(h), t.slot.Other(), w);
  }

  lemma SettleSame(e: Buf, e1: Buf, t: ReaderState, env: Setting)
    requires Anchored(e, t, env) && Anchored(e1, t, env) && Settle(e, t.header, env.dec) == Ok(env.rt)
    ensures Settle(e1, t.header, env.dec) == Ok(env.rt)
  {
    hide LogClear, PickTable, LoadGeometry, RequiredEntries, LegalGeometry;
  }

  lemma ClearedLogIsZeros(e: Buf, h: Header, slot: Slot)
    requires h.logOffset >= ONE_MIB && h.logOffset + h.logLength <= |e| && |e| >= 0x2_1000
    ensures LogRegion(Cleared(e, h, slot), ClearedHeader(h)) == Zeros(h.logLength)
  {
    hide Splice, EncodedHeader;
    var e1, lo, hi := Splice(e, h.logOffset, Zeros(h.logLength)), h.logOffset, h.logOffset + h.logLength;
    SpliceInside(e, lo, Zeros(h.logLength));
    SpliceOutside(e1, slot.Other().Offset(), EncodedHeader(ClearedHeader(h)), lo, hi);
  }

  lemma QuietIsWellFormed(e: Buf, t: ReaderState, env: Setting, w: bool, n: nat)
    requires Recoverable(e, t, env) && Pending(e, t.header) == Ok([])
    requires t.header.logLength > 0 ==>
      t.header.logOffset + t.header.logLength <= |e| && RoomFor(LogRegion(e, t.header), t.header, n)
    ensures WellFormed(e, t.(writable := w), env, n)
  {
    hide Anchored, Layout, PickHeader, LogClear, RoomFor, Pending, ReaderOk, BatOf, OneSector, LogRegion;
    var s := t.(writable := w);
    OkParts(e, t, env.capacity);
    AnchoredSame(e, t, s, env);
    LayoutGrows(t, env.m, |e|, s, |e|);
    ReaderOkMoves(e, t, e, s, env.capacity);
    BatOfSame(e, t, s);
  }

  lemma ClearedIsWellFormed(e: Buf, t: ReaderState, env: Setting, w: bool, n: nat)
    requires Recoverable(e, t, env) && Pending(e, t.header).value != []
    requires t.header.sequence + n + 1 < TWO64 - 1
    ensures var x := Pending(e, t.header).value[0].descriptors[0];
      |e| >= 2 * ONE_MIB && x.fileOffset + SECTOR <= |e| && t.header.logOffset + t.header.logLength <= |e|
      && WellFormed(Cleared(Splice(e, x.fileOffset, x.sector), t.header, t.slot),
                    t.(header := ClearedHeader(t.header), slot := t.slot.Other(), writable := w), env, n)
  {
    hide Recoverable, Anchored, Layout, PickHeader, LogClear, RoomFor, LegalGeometry, Cleared, OpenRun, Splice, Near,
      LogRegionValid, ReaderOk, BatOf, Disk, Collect, LogRegion, RunOps;
    LogClearOfRecoverable(e, t, env);
    OkParts(e, t, env.capacity);
    PendingMeansLog(e, t.header);
    ReopenReplays(e, t, env, w);
    LogRegionMeansMegabytes(|e|, t.header);
    var x, h := Pending(e, t.header).value[0].descriptors[0], t.header;
    var s := t.(header := ClearedHeader(h), slot := t.slot.Other(), writable := w);
    var e1 := Splice(e, x.fileOffset, x.sector);
    var e2 := Cleared(e1, h, t.slot);
    LayoutGrows(t, env.m, |e|, s, |e|);
    ClearedLogIsZeros(e1, h, t.slot);
    RoomInZeros(h.logLength, ClearedHeader(h), n);
    ClearSameLog(env.rt, h);
    AnchoredSame(e2, t, s, env);
    ReaderOkMoves(e, t, e2, s, env.capacity);
    BatOfSame(e2, t, s);
  }

  lemma LogClearOfRecoverable(e: Buf, t: ReaderState, env: Setting)
    requires Recoverable(e, t, env)
    ensures ReaderOk(e, t, env.capacity) && LogClear(env.rt, t.header) && t.header.logVersion == 0
    ensures t.geometry.blockSize > 0 && t.geometry.ratio > 0 && Layout(t, env.m, |e|) && Pending(e, t.header).Ok?
    ensures Pending(e, t.header).value != [] ==> OneSector(Pending(e, t.header).value, t, |e|)
  {
  }

  lemma BatOfSame(d: Buf, s: ReaderState, t: ReaderState)
    requires s.batOffset + |s.bat| * ENTRY_BYTES <= |d| && s.batOffset == t.batOffset && |s.bat| == |t.bat|
    ensures BatOf(d, s) == BatOf(d, t)
  {
  }

  lemma ReaderOkMoves(d: Buf, s: ReaderState, e: Buf, t: ReaderState, capacity: nat)
    requires ReaderOk(d, s, capacity) && SamePlaces(s, t) && |d| <= |e| == t.devSize <= capacity
      && t.header.version == 1
    ensures ReaderOk(e, t, capacity)
  {
  }

  /** Reopening a recoverable device succeeds, finds the image it should, exposes the
      disk that image has, and leaves it well formed. */
  lemma ReopenRecovers(e: Buf, t: ReaderState, env: Setting, w: bool, n: nat)
    requires Recoverable(e, t, env) && Room(e, t, n)
    ensures var o := OpenRun(e, env.capacity, w, true, env.dec);
      o.result.Ok?
      && var e2, s := RunOps(e, o.ops), o.result.value;
         s.geometry == t.geometry && s.bat == t.bat && s.writable == w && t.geometry.blockSize > 0
           && t.geometry.ratio > 0
         && Disk(e2, s.geometry, s.bat) == Disk(e, t.geometry, t.bat)
         && WellFormed(e2, s, env, n)
  {
    OkParts(e, t, env.capacity);
    LayoutParts(t, env.m, |e|);
    if Pending(e, t.header).value == [] {
      ReopenQuiet(e, t, env, w);
      RunNothing(e, []);
      QuietIsWellFormed(e, t, env, w, n);
    } else {
      PendingMeansLog(e, t.header);
      ReopenReplays(e, t, env, w);
      ClearedIsWellFormed(e, t, env, w, n);
      var x := Pending(e, t.header).value[0].descriptors[0];
      var e2 := Cleared(Splice(e, x.fileOffset, x.sector), t.header, t.slot);
      hide Anchored, Layout, PickHeader, LogClear, Pending, LegalGeometry, Cleared, OpenRun, Splice, WellFormed, Near,
        Disk;
      NearDisk(e, e2, t, env.m);
    }
  }
}
