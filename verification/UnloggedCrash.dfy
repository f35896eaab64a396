/** A write on an image that has no log, cut or torn anywhere but in the BAT. */
module UnloggedCrash {
  import opened Bytes
  import opened LogFormat
  import opened LogReplay
  import opened Devices
  import opened Headers
  import opened Bat
  import opened Open
  import opened Reader
  import opened Image
  import opened Recovery
  import opened CrashSafety
  import opened Atomicity
  import opened Refinement

  /** A well-formed image reopens as itself. */
  lemma WellFormedReopens(d: Buf, st: ReaderState, env: Setting, n: nat, w: bool)
    requires st.geometry.blockSize > 0 && st.geometry.ratio > 0
    requires WellFormed(d, st, env, n + 1)
    ensures Recovers(d, env, w, n, Disk(d, st.geometry, st.bat))
  {
    hide WellFormed, Recoverable, RoomFor, Disk, Recovers, ReaderOk, Anchored, PickHeader, LogClear, LogRegionValid,
      BatOf, Layout, ControlLayout, BlocksClear, BlocksApart, Pending, Landed;
    WellFormedRecovers(d, st, env, n + 1);
    WellFormedParts(d, st, env, n + 1);
    RecoverableRecovers(d, st, env, w, n);
  }

  // ---- The devices it passes through ----

  lemma WidenedTable(d: Buf, y: Buf, st: ReaderState)
    requires st.batOffset + |st.bat| * ENTRY_BYTES <= |d|
    ensures BatOf(d + y, st) == BatOf(d, st)
  {
    PrefixSlice(d, y, st.batOffset, st.batOffset + |st.bat| * ENTRY_BYTES);
    BatOfFrame(d, d + y, st, st);
  }

  lemma WidenedHeader(d: Buf, y: Buf)
    requires |d| >= ONE_MIB
    ensures PickHeader(d + y) == PickHeader(d)
  {
    hide PickHeader;
    PrefixSlice(d, y, 0x1_0000, 0x1_1000);
    PrefixSlice(d, y, 0x2_0000, 0x2_1000);
    PickHeaderFrame(d + y, d);
  }

  /** Bytes past the end of the file do not matter. */
  lemma WidenedIsWellFormed(d: Buf, y: Buf, st: ReaderState, env: Setting, n: nat)
    requires st.header.logLength == 0 && |d + y| <= env.capacity
    requires WellFormed(d, st, env, n)
    ensures WellFormed(d + y, st.(devSize := |d + y|), env, n)
  {
    hide WellFormed, Anchored, PickHeader, LogClear, Layout, ControlLayout, BlocksApart, ReaderOk, BatOf,
      LogRegionValid, Near, BlocksClear, BatEnd;
    var e, t := d + y, st.(devSize := |d + y|);
    WellFormedParts(d, st, env, n);
    LayoutParts(st, env.m, |d|);
    NearWide(d, y, st);
    NearAnchored(d, e, st, env);
    AnchoredSame(e, st, t, env);
    ReaderOkMoves(d, st, e, t, env.capacity);
    LayoutGrows(st, env.m, |d|, t, |e|);
    WidenedTable(d, y, st);
    BatOfSame(e, st, t);
    WidenedHeader(d, y);
    MakesWellFormed(e, t, env, n);
  }

  lemma WidenedRecovers(d: Buf, y: Buf, st: ReaderState, env: Setting, n: nat, w: bool)
    requires st.header.logLength == 0 && st.geometry.blockSize > 0 && st.geometry.ratio > 0 && |d + y| <= env.capacity
    requires WellFormed(d, st, env, n + 1)
    ensures Recovers(d + y, env, w, n, Disk(d, st.geometry, st.bat))
  {
    hide WellFormed, Disk, Recovers, Near, BlocksClear;
    WidenedIsWellFormed(d, y, st, env, n + 1);
    WellFormedReopens(d + y, st.(devSize := |d + y|), env, n, w);
    NearWide(d, y, st);
    BlocksOfWellFormed(d, st, env, n + 1);
    NearDisk(d, d + y, st, env.m);
  }

  /** The six operations of a piece that allocates without a log. */
  function BareOps(st: ReaderState, p: Plan, inBlock: nat, src: Buf): (ops: seq<DevOp>)
    ensures |ops| == 6
  {
    [SetLen(p.size), Write(p.at, Zeros(st.geometry.blockSize)), Flush, Write(p.off, p.sector), Flush,
      Write(p.at + inBlock, src)]
  }

  lemma BareOpsOfWrite(d: Buf, st: ReaderState, capacity: nat, c: BlockChunk, src: Buf)
    requires ReaderOk(d, st, capacity) && c.batIndex < |st.bat| && st.bat[c.batIndex].state.ZeroFill()
    requires NewSize(st) <= capacity && c.inBlock + |src| <= st.geometry.blockSize && st.header.logLength == 0
    requires InSector(st.batOffset, c.batIndex)
    ensures WritePiece(d, st, capacity, c, src).ops == BareOps(st, PlanFor(d, st, capacity, c.batIndex), c.inBlock, src)
  {
    hide ReaderOk, PlanFor, WritePiece, Zeros, JournalEntry, NewSize;
    UnloggedOps(d, st, capacity, c, src);
    var p := PlanFor(d, st, capacity, c.batIndex);
    assert Journal(st.(devSize := p.size), p.off, p.sector).ops == [];
  }

  /** What the stages rest on. */
  predicate BareBounds(d: Buf, st: ReaderState, p: Plan) {
    ONE_MIB <= |d| <= p.at && p.size == p.at + st.geometry.blockSize && p.off + SECTOR <= |d|
    && st.batOffset <= p.off && p.off + SECTOR <= BatEnd(st) <= |d| && st.header.logLength == 0
  }

  function Bare(d: Buf, st: ReaderState, p: Plan): (e: Buf)
    requires BareBounds(d, st, p)
    ensures |e| == p.size
  {
    Splice(Wide(d, p), p.off, p.sector)
  }

  function BareStage(d: Buf, st: ReaderState, p: Plan, inBlock: nat, src: Buf, k: nat): Buf
    requires BareBounds(d, st, p) && inBlock + |src| <= st.geometry.blockSize
  {
    if k == 0 then d
    else if k <= 3 then Wide(d, p)
    else if k <= 5 then Bare(d, st, p)
    else Splice(Bare(d, st, p), p.at + inBlock, src)
  }

  lemma BareStep(d: Buf, st: ReaderState, p: Plan, inBlock: nat, src: Buf, k: nat)
    requires BareBounds(d, st, p) && inBlock + |src| <= st.geometry.blockSize && k < 6
    ensures RunOp(BareStage(d, st, p, inBlock, src, k), BareOps(st, p, inBlock, src)[k])
      == BareStage(d, st, p, inBlock, src, k + 1)
  {
    hide Splice, BatEnd, Zeros;
    if k == 1 {
      ZeroesAgain(d, p, st.geometry.blockSize);
    }
  }

  lemma {:induction false} BareRun(d: Buf, st: ReaderState, p: Plan, inBlock: nat, src: Buf, k: nat)
    requires BareBounds(d, st, p) && inBlock + |src| <= st.geometry.blockSize && k <= 6
    ensures RunOps(d, BareOps(st, p, inBlock, src)[..k]) == BareStage(d, st, p, inBlock, src, k)
  {
    var ops := BareOps(st, p, inBlock, src);
    hide RunOps, RunOp, BareOps, BareBounds, Bare, Wide, Splice;
    if k == 0 {
      RunNothing(d, []);
      assert ops[..0] == [];
    } else {
      BareRun(d, st, p, inBlock, src, k - 1);
      RunPrefix(d, ops, k - 1);
      BareStep(d, st, p, inBlock, src, k - 1);
    }
  }

  // ---- Crashes ----

  ghost predicate BareSetting(d: Buf, st: ReaderState, env: Setting, n: nat, b: nat, p: Plan,
                              inBlock: nat, src: Buf) {
    st.geometry.blockSize > 0 && st.geometry.ratio > 0 && DataBatIndex(b, st.geometry.ratio) < |st.bat|
    && BareBounds(d, st, p) && p.size <= env.capacity < TWO64 && inBlock + |src| <= st.geometry.blockSize
    && At(st.geometry, b, inBlock) + |src| <= st.geometry.virtualSize && InDisk(st.geometry, b)
    && Allocating(d, st, env, n + 1, b, p) && WellFormed(d, st, env, n + 1)
  }

  lemma BareWide(d: Buf, st: ReaderState, p: Plan)
    requires BareBounds(d, st, p)
    ensures |d| <= p.at <= p.size && p.size == p.at + st.geometry.blockSize && p.off + SECTOR <= p.at
      && st.header.logLength == 0
    ensures !Control(st, p.at) && Control(st, p.off)
  {
    hide BatEnd;
  }

  /** Once the BAT sector is in place, the payload shows as itself. */
  lemma BarePayloadRecovers(d: Buf, st: ReaderState, env: Setting, n: nat, b: nat, p: Plan,
                            inBlock: nat, src: Buf, x: Buf, w: bool)
    requires BareSetting(d, st, env, n, b, p, inBlock, src) && inBlock + |x| <= st.geometry.blockSize
    requires At(st.geometry, b, inBlock) + |x| <= st.geometry.virtualSize
    ensures Recovers(Splice(Bare(d, st, p), p.at + inBlock, x), env, w, n,
                     Splice(Disk(d, st.geometry, st.bat), At(st.geometry, b, inBlock), x))
  {
    hide WellFormed, Allocating, Disk, Splice, DataBatIndex, WithBlock, BareBounds, InDisk, At, Recovers;
    BareWide(d, st, p);
    UnloggedPayload(d, st, p, inBlock, x, env, n + 1, b);
    WellFormedReopens(Splice(Bare(d, st, p), p.at + inBlock, x), Unlogged(st, p, b), env, n, w);
  }

  lemma BareRecovers(d: Buf, st: ReaderState, env: Setting, n: nat, b: nat, p: Plan,
                     inBlock: nat, src: Buf, w: bool)
    requires BareSetting(d, st, env, n, b, p, inBlock, src)
    ensures Recovers(Bare(d, st, p), env, w, n, Disk(d, st.geometry, st.bat))
  {
    hide WellFormed, Allocating, Disk, Splice, DataBatIndex, BareBounds, InDisk, At, Recovers;
    BareWide(d, st, p);
    var v := At(st.geometry, b, inBlock);
    BarePayloadRecovers(d, st, env, n, b, p, inBlock, src, [], w);
    SpliceEmpty(Bare(d, st, p), p.at + inBlock);
    SpliceEmpty(Disk(d, st.geometry, st.bat), v);
  }

  lemma BareCutRecovers(d: Buf, st: ReaderState, env: Setting, n: nat, b: nat, p: Plan,
                        inBlock: nat, src: Buf, k: nat, w: bool)
    requires BareSetting(d, st, env, n, b, p, inBlock, src) && k <= 6
    ensures PieceOutcome(BareStage(d, st, p, inBlock, src, k), env, w, n, Disk(d, st.geometry, st.bat),
                         At(st.geometry, b, inBlock), src, k == 6, None)
  {
    hide WellFormed, Allocating, Disk, Splice, DataBatIndex, BareBounds, InDisk, At, Recovers, Bare, Zeros;
    BareWide(d, st, p);
    if k == 0 {
      assert d + [] == d;
      WidenedRecovers(d, [], st, env, n, w);
    } else if k <= 3 {
      WidenedRecovers(d, Zeros(p.size - |d|), st, env, n, w);
    } else if k <= 5 {
      BareRecovers(d, st, env, n, b, p, inBlock, src, w);
    } else {
      BarePayloadRecovers(d, st, env, n, b, p, inBlock, src, src, w);
    }
  }

  lemma BarePayloadTorn(d: Buf, st: ReaderState, p: Plan, inBlock: nat, src: Buf, c: Crash)
    requires BareBounds(d, st, p) && CrashOf(BareOps(st, p, inBlock, src), c)
    ensures TornPayload(st, BareOps(st, p, inBlock, src), c) == if c.Torn? && c.k == 5 then Some(c.bytes) else None
    ensures c.Torn? ==> c.k == 1 || c.k == 3 || c.k == 5
    ensures c.Torn? && c.k == 1 ==> BareOps(st, p, inBlock, src)[1] == Write(p.at, Zeros(st.geometry.blockSize))
    ensures c.Torn? && c.k == 3 ==> st.batOffset <= BareOps(st, p, inBlock, src)[3].off < BatEnd(st)
    ensures BareOps(st, p, inBlock, src)[5] == Write(p.at + inBlock, src)
  {
    hide BatEnd, Zeros;
  }

  lemma BareTornPayload(d: Buf, st: ReaderState, env: Setting, n: nat, b: nat, p: Plan,
                        inBlock: nat, src: Buf, x: Buf, w: bool)
    requires BareSetting(d, st, env, n, b, p, inBlock, src) && |x| == |src|
    ensures Recovers(RunOp(BareStage(d, st, p, inBlock, src, 5), Write(p.at + inBlock, x)), env, w, n,
                     Splice(Disk(d, st.geometry, st.bat), At(st.geometry, b, inBlock), x))
  {
    hide WellFormed, Allocating, Disk, Splice, DataBatIndex, BareBounds, InDisk, At, Recovers, Bare;
    BareWide(d, st, p);
    BarePayloadRecovers(d, st, env, n, b, p, inBlock, src, x, w);
  }

  lemma BareTornZeros(d: Buf, st: ReaderState, env: Setting, n: nat, b: nat, p: Plan,
                      inBlock: nat, src: Buf, x: Buf, w: bool)
    requires BareSetting(d, st, env, n, b, p, inBlock, src) && |x| == st.geometry.blockSize
    ensures Recovers(RunOp(BareStage(d, st, p, inBlock, src, 1), Write(p.at, x)), env, w, n,
      Disk(d, st.geometry, st.bat))
  {
    hide WellFormed, Allocating, Disk, Splice, DataBatIndex, BareBounds, InDisk, At, Recovers, Zeros;
    BareWide(d, st, p);
    TornZeros(d, p, x);
    WidenedRecovers(d, Zeros(p.at - |d|) + x, st, env, n, w);
  }

  /** A piece that allocates without a log, cut after any of its operations or torn in
      any of its writes but that of the BAT sector. */
  lemma BarePieceCrash(d: Buf, st: ReaderState, env: Setting, n: nat, b: nat, p: Plan,
                       inBlock: nat, src: Buf, c: Crash, w: bool)
    requires BareSetting(d, st, env, n, b, p, inBlock, src)
    requires CrashOf(BareOps(st, p, inBlock, src), c) && TornDetected(d, st, BareOps(st, p, inBlock, src), c)
    ensures PieceOutcome(CrashState(d, BareOps(st, p, inBlock, src), c), env, w, n,
                         Disk(d, st.geometry, st.bat), At(st.geometry, b, inBlock), src, c.k == 6,
                         TornPayload(st, BareOps(st, p, inBlock, src), c))
  {
    hide WellFormed, Allocating, Recovers, Disk, Splice, DataBatIndex, BareStage, InDisk, At, BareOps, RunOp, RunOps,
      Detected, TornPayload, BareBounds, Zeros, BatEnd;
    var ops := BareOps(st, p, inBlock, src);
    BareRun(d, st, p, inBlock, src, c.k);
    BarePayloadTorn(d, st, p, inBlock, src, c);
    BareWide(d, st, p);
    if c.Cut? {
      BareCutRecovers(d, st, env, n, b, p, inBlock, src, c.k, w);
    } else if c.k == 5 {
      BareTornPayload(d, st, env, n, b, p, inBlock, src, c.bytes, w);
    } else if c.k == 1 {
      BareTornZeros(d, st, env, n, b, p, inBlock, src, c.bytes, w);
    } else {
      var before, off := BareStage(d, st, p, inBlock, src, c.k), ops[c.k].off;
      if c.bytes == ops[c.k].bytes {
        BareStep(d, st, p, inBlock, src, c.k);
        BareCutRecovers(d, st, env, n, b, p, inBlock, src, c.k + 1, w);
      } else {
        WriteSame(before, off, c.bytes);
        BareCutRecovers(d, st, env, n, b, p, inBlock, src, c.k, w);
      }
    }
  }
}
