/** A whole write, cut or torn anywhere, then reopened. */
module WriteCrash {
  import opened Bytes
  import opened LogReplay
  import opened Devices
  import opened Headers
  import opened Bat
  import opened Open
  import opened Reader
  import opened Image
  import opened Recovery
  import opened CrashSafety
  import opened Atomicity
  import opened UnloggedCrash
  import opened Refinement
  import opened Provisioning
  import opened Sessions

  // ---- One piece of any kind ----

  lemma DoneReopens(d: Buf, st: ReaderState, e: Buf, t: ReaderState, env: Setting, n: nat,
                    v: nat, x: Buf, w: bool)
    requires st.geometry.blockSize > 0 && st.geometry.ratio > 0 && v + |x| <= st.geometry.virtualSize
    requires PieceDone(d, st, e, t, env, n + 1, v, x)
    ensures Recovers(e, env, w, n, Splice(Disk(d, st.geometry, st.bat), v, x))
  {
    hide WellFormed, Disk, Recovers, Splice;
    WellFormedReopens(e, t, env, n, w);
  }

  lemma PresentPieceCrash(d: Buf, st: ReaderState, env: Setting, n: nat,
                          v: nat, end: nat, pos: nat, src: Buf, c: Crash, w: bool)
    requires st.geometry.blockSize > 0 && st.geometry.ratio > 0 && v < end <= st.geometry.virtualSize
    requires ReaderOk(d, st, env.capacity) && |d| == st.devSize
    requires var k := ChunkAt(st.geometry, v, end, pos);
      |src| == k.len && k.batIndex < |st.bat| && st.bat[k.batIndex].state.FullyPresent?
    requires CrashOf(WritePiece(d, st, env.capacity, ChunkAt(st.geometry, v, end, pos), src).ops, c)
    requires WellFormed(d, st, env, n + 1)
    ensures v + |src| <= end
    ensures var ops := WritePiece(d, st, env.capacity, ChunkAt(st.geometry, v, end, pos), src).ops;
      PieceOutcome(CrashState(d, ops, c), env, w, n, Disk(d, st.geometry, st.bat), v, src, c.k == |ops|,
                   TornPayload(st, ops, c))
  {
    hide WellFormed, ReaderOk, WritePiece, Disk, Recovers, Splice, PieceDone, ChunkAt, RunOps;
    var k := ChunkAt(st.geometry, v, end, pos);
    PresentPiece(d, st, env, n + 1, v, end, pos, src);
    var host := st.bat[k.batIndex].fileOffset + k.inBlock;
    var ops := [Write(host, src)];
    assert ops[..0] == [] && ops[..1] == ops;
    RunNothing(d, []);
    RunOne(d, Write(host, src));
    if c == Cut(0) {
      WellFormedReopens(d, st, env, n, w);
    } else {
      var x := if c.Cut? then src else c.bytes;
      PresentIsFree(d, st, env, n + 1, v, end, pos);
      DoneReopens(d, st, Splice(d, host, x), st, env, n, v, x, w);
    }
  }

  lemma PresentIsFree(d: Buf, st: ReaderState, env: Setting, n: nat, v: nat, end: nat, pos: nat)
    requires st.geometry.blockSize > 0 && st.geometry.ratio > 0 && v < end <= st.geometry.virtualSize
    requires var k := ChunkAt(st.geometry, v, end, pos);
      k.batIndex < |st.bat| && st.bat[k.batIndex].state.FullyPresent?
    requires WellFormed(d, st, env, n)
    ensures var k := ChunkAt(st.geometry, v, end, pos);
      !Control(st, st.bat[k.batIndex].fileOffset + k.inBlock)
  {
    hide WellFormed, InDisk, At, BlockOf, InBlock, DataBatIndex, Control, BlockClear, ControlLayout, BlocksClear,
      BlocksApart;
    var k, b := ChunkAt(st.geometry, v, end, pos), BlockOf(st.geometry, v);
    ChunkFacts(st.geometry, v, end, pos);
    hide ChunkAt;
    PresentBlock(d, st, env, n, b);
    BlockBytesFree(st, env.m, |d|, Host(st.geometry, st.bat, b), k.inBlock);
  }

  lemma LoggedCrash(d: Buf, st: ReaderState, env: Setting, n: nat,
                    v: nat, end: nat, pos: nat, src: Buf, c: Crash, w: bool)
    requires st.header.logLength > 0 && st.geometry.blockSize > 0 && st.geometry.ratio > 0
      && v < end <= st.geometry.virtualSize
    requires ReaderOk(d, st, env.capacity)
    requires var k := ChunkAt(st.geometry, v, end, pos);
      |src| == k.len && k.batIndex < |st.bat| && st.bat[k.batIndex].state.ZeroFill() && NewSize(st) <= env.capacity
    requires var ops := WritePiece(d, st, env.capacity, ChunkAt(st.geometry, v, end, pos), src).ops;
      CrashOf(ops, c) && TornDetected(d, st, ops, c)
    requires WellFormed(d, st, env, n + 2)
    ensures v + |src| <= end
    ensures var ops := WritePiece(d, st, env.capacity, ChunkAt(st.geometry, v, end, pos), src).ops;
      PieceOutcome(CrashState(d, ops, c), env, w, n, Disk(d, st.geometry, st.bat), v, src, c.k == |ops|,
                   TornPayload(st, ops, c))
  {
    hide WellFormed, ReaderOk, WritePiece, Disk, Recovers, Splice, RunOps, InDisk, DataBatIndex, PlanFor, NewSize,
      PieceOps, StageBounds, Allocating, At, BlockOf, InBlock, TornDetected, CrashState, PieceOutcome, TornPayload;
    var g, k, b := st.geometry, ChunkAt(st.geometry, v, end, pos), BlockOf(st.geometry, v);
    ChunkFacts(g, v, end, pos);
    PieceAllocates(d, st, env, n + 2, v, end, pos);
    var p := PlanFor(d, st, env.capacity, k.batIndex);
    hide ChunkAt;
    AllocatingBounds(d, st, env, n + 2, b, p);
    PieceOpsOfWrite(d, st, env.capacity, k, src);
    FewerWellFormed(d, st, env, n + 2, n + 1);
    AllocatingPieceCrash(d, st, env, n, b, p, k.inBlock, src, c, w);
  }

  lemma BareBoundsOf(d: Buf, st: ReaderState, env: Setting, n: nat, b: nat, p: Plan)
    requires Allocating(d, st, env, n, b, p) && st.header.logLength == 0
    ensures BareBounds(d, st, p) && p.size <= env.capacity < TWO64
  {
    hide WellFormed, Anchored, PickHeader, LogClear, Layout, ControlLayout, BlocksApart, ReaderOk, BatOf,
      LogRegionValid, Splice, BlocksClear, InDisk, PlanFor, NewSize, PresentAt, Le, BatEnd, Zeros, DataBatIndex,
      Allocating;
    AllocatingIs(d, st, env, n, b, p);
    WellFormedParts(d, st, env, n);
    LayoutParts(st, env.m, |d|);
    AllocatingPlan(d, st, env, n, b, p);
  }

  lemma BareCrash(d: Buf, st: ReaderState, env: Setting, n: nat,
                  v: nat, end: nat, pos: nat, src: Buf, c: Crash, w: bool)
    requires st.header.logLength == 0 && st.geometry.blockSize > 0 && st.geometry.ratio > 0
      && v < end <= st.geometry.virtualSize
    requires ReaderOk(d, st, env.capacity)
    requires var k := ChunkAt(st.geometry, v, end, pos);
      |src| == k.len && k.batIndex < |st.bat| && st.bat[k.batIndex].state.ZeroFill() && NewSize(st) <= env.capacity
    requires var ops := WritePiece(d, st, env.capacity, ChunkAt(st.geometry, v, end, pos), src).ops;
      CrashOf(ops, c) && TornDetected(d, st, ops, c)
    requires WellFormed(d, st, env, n + 1)
    ensures v + |src| <= end
    ensures var ops := WritePiece(d, st, env.capacity, ChunkAt(st.geometry, v, end, pos), src).ops;
      PieceOutcome(CrashState(d, ops, c), env, w, n, Disk(d, st.geometry, st.bat), v, src, c.k == |ops|,
                   TornPayload(st, ops, c))
  {
    hide WellFormed, ReaderOk, WritePiece, Disk, Recovers, Splice, RunOps, InDisk, DataBatIndex, PlanFor, NewSize,
      BareOps, BareBounds, Allocating, At, BlockOf, InBlock, TornDetected, CrashState, PieceOutcome, TornPayload;
    var g, k, b := st.geometry, ChunkAt(st.geometry, v, end, pos), BlockOf(st.geometry, v);
    ChunkFacts(g, v, end, pos);
    PieceAllocates(d, st, env, n + 1, v, end, pos);
    var p := PlanFor(d, st, env.capacity, k.batIndex);
    hide ChunkAt;
    BareBoundsOf(d, st, env, n + 1, b, p);
    BareOpsOfWrite(d, st, env.capacity, k, src);
    BarePieceCrash(d, st, env, n, b, p, k.inBlock, src, c, w);
  }

  /** Any one piece of a write, cut or torn anywhere: it is there once all its
      operations are done, and until then is not, but for what a torn payload left. */
  lemma PieceCrash(d: Buf, st: ReaderState, env: Setting, n: nat,
                   v: nat, end: nat, pos: nat, src: Buf, c: Crash, w: bool)
    requires st.geometry.blockSize > 0 && st.geometry.ratio > 0 && v < end <= st.geometry.virtualSize
    requires ReaderOk(d, st, env.capacity) && |src| == ChunkAt(st.geometry, v, end, pos).len
    requires PieceFits(st, env.capacity, ChunkAt(st.geometry, v, end, pos))
    requires var ops := WritePiece(d, st, env.capacity, ChunkAt(st.geometry, v, end, pos), src).ops;
      CrashOf(ops, c) && TornDetected(d, st, ops, c)
    requires WellFormed(d, st, env, n + 2)
    ensures v + |src| <= end
    ensures var ops := WritePiece(d, st, env.capacity, ChunkAt(st.geometry, v, end, pos), src).ops;
      PieceOutcome(CrashState(d, ops, c), env, w, n, Disk(d, st.geometry, st.bat), v, src, c.k == |ops|,
                   TornPayload(st, ops, c))
  {
    hide WellFormed, ReaderOk, WritePiece, Disk, RunOps, NewSize, TornDetected, ChunkAt, CrashState, PieceOutcome,
      CrashOf, TornPayload;
    var k := ChunkAt(st.geometry, v, end, pos);
    FewerWellFormed(d, st, env, n + 2, n + 1);
    Sized(d, st, env.capacity);
    if st.bat[k.batIndex].state.FullyPresent? {
      PresentPieceCrash(d, st, env, n, v, end, pos, src, c, w);
    } else if st.header.logLength > 0 {
      LoggedCrash(d, st, env, n, v, end, pos, src, c, w);
    } else {
      BareCrash(d, st, env, n, v, end, pos, src, c, w);
    }
  }

  // ---- Crashes of one list of operations after another ----

  lemma CrashFirst(d: Buf, st: ReaderState, a: seq<DevOp>, b: seq<DevOp>, c: Crash)
    requires CrashOf(a + b, c) && CrashOf(a, c)
    ensures CrashState(d, a + b, c) == CrashState(d, a, c)
    ensures TornDetected(d, st, a + b, c) ==> TornDetected(d, st, a, c)
    ensures TornPayload(st, a + b, c) == TornPayload(st, a, c)
  {
    hide RunOps, RunOp, Detected, Control;
    assert (a + b)[..c.k] == a[..c.k];
  }

  lemma ControlSame(st: ReaderState, t: ReaderState)
    requires SamePlaces(st, t)
    ensures BatEnd(st) == BatEnd(t) && forall i: nat :: Control(st, i) <==> Control(t, i)
  {
  }

  lemma ShiftedPayload(st: ReaderState, t: ReaderState, a: seq<DevOp>, b: seq<DevOp>, c: Crash)
    requires SamePlaces(st, t) && CrashOf(a + b, c) && c.k >= |a| && (a != [] ==> !a[|a| - 1].SetLen?)
    requires CrashOf(b, Shifted(c, |a|))
    ensures TornPayload(st, a + b, c) == TornPayload(t, b, Shifted(c, |a|))
  {
    hide Control;
    ControlSame(st, t);
  }

  lemma CrashSecond(d: Buf, st: ReaderState, t: ReaderState, a: seq<DevOp>, b: seq<DevOp>, c: Crash)
    requires SamePlaces(st, t) && CrashOf(a + b, c) && c.k >= |a| && (a != [] ==> !a[|a| - 1].SetLen?)
    ensures CrashOf(b, Shifted(c, |a|))
    ensures CrashState(d, a + b, c) == CrashState(RunOps(d, a), b, Shifted(c, |a|))
    ensures TornDetected(d, st, a + b, c) ==> TornDetected(RunOps(d, a), t, b, Shifted(c, |a|))
    ensures TornPayload(st, a + b, c) == TornPayload(t, b, Shifted(c, |a|))
  {
    hide RunOps, RunOp, Detected, Control, BatEnd, TornPayload, CrashOf;
    ControlSame(st, t);
    CrashLater(d, a, b, c);
    ShiftedPayload(st, t, a, b, c);
  }

  // ---- All the pieces ----

  /** The disk with the first `j` pieces of `buf[pos..]` at `v..end`. */
  function Applied(disk: Buf, g: Geometry, v: nat, end: nat, pos: nat, buf: Buf, j: nat): Buf
    requires g.blockSize > 0 && g.ratio > 0 && v <= end <= |disk| && pos + (end - v) <= |buf|
  {
    Splice(disk, v, buf[pos..pos + (Reach(g, v, end, j) - v)])
  }

  lemma AppliedNone(disk: Buf, g: Geometry, v: nat, end: nat, pos: nat, buf: Buf)
    requires g.blockSize > 0 && g.ratio > 0 && v <= end <= |disk| && pos + (end - v) <= |buf|
    ensures Applied(disk, g, v, end, pos, buf, 0) == disk && Reach(g, v, end, 0) == v
  {
    assert buf[pos..pos] == [];
    SpliceEmpty(disk, v);
  }

  lemma AppliedMore(disk: Buf, g: Geometry, v: nat, end: nat, pos: nat, buf: Buf, j: nat)
    requires g.blockSize > 0 && g.ratio > 0 && v < end <= |disk| && pos + (end - v) <= |buf|
    ensures var len := ChunkAt(g, v, end, pos).len;
      Reach(g, v, end, j + 1) == Reach(g, v + len, end, j)
      && Applied(disk, g, v, end, pos, buf, j + 1)
         == Applied(Splice(disk, v, buf[pos..pos + len]), g, v + len, end, pos + len, buf, j)
  {
    hide Splice, Reach, ChunkAt;
    var len := ChunkAt(g, v, end, pos).len;
    ReachMore(g, v, end, pos, j);
    var r := Reach(g, v + len, end, j);
    assert buf[pos..pos + (r - v)] == buf[pos..pos + len] + buf[pos + len..pos + len + (r - (v + len))];
    SpliceTwice(disk, v, buf[pos..pos + len], buf[pos + len..pos + len + (r - (v + len))]);
  }

  /** A reopen exposes the first `j` pieces, over them what a torn payload left of the
      next one, and nothing else. */
  ghost predicate OutcomeAt(e: Buf, env: Setting, w: bool, n: nat,
                            disk: Buf, g: Geometry, v: nat, end: nat, pos: nat, buf: Buf, torn: Option<Buf>, j: nat)
    requires g.blockSize > 0 && g.ratio > 0 && v <= end <= |disk| && pos + (end - v) <= |buf|
  {
    var r, done := Reach(g, v, end, j), Applied(disk, g, v, end, pos, buf, j);
    (torn.Some? ==> r < end && |torn.value| == ChunkAt(g, r, end, 0).len)
    && Recovers(e, env, w, n, if torn.Some? then Splice(done, r, torn.value) else done)
  }

  lemma OutcomeOfPiece(e: Buf, env: Setting, w: bool, n: nat,
                       disk: Buf, g: Geometry, v: nat, end: nat, pos: nat, buf: Buf, torn: Option<Buf>)
    requires g.blockSize > 0 && g.ratio > 0 && v < end <= |disk| && pos + (end - v) <= |buf|
    requires var len := ChunkAt(g, v, end, pos).len;
      PieceOutcome(e, env, w, n, disk, v, buf[pos..pos + len], false, torn)
    ensures OutcomeAt(e, env, w, n, disk, g, v, end, pos, buf, torn, 0)
  {
    hide Recovers, Splice, Applied, DataBatIndex, Reach;
    assert ChunkAt(g, v, end, 0).len == ChunkAt(g, v, end, pos).len;
    hide ChunkAt;
    AppliedNone(disk, g, v, end, pos, buf);
  }

  lemma OutcomeOfRest(e: Buf, env: Setting, w: bool, n: nat,
                      disk: Buf, g: Geometry, v: nat, end: nat, pos: nat, buf: Buf, torn: Option<Buf>, j: nat)
    requires g.blockSize > 0 && g.ratio > 0 && v < end <= |disk| && pos + (end - v) <= |buf|
    requires var len := ChunkAt(g, v, end, pos).len;
      OutcomeAt(e, env, w, n, Splice(disk, v, buf[pos..pos + len]), g, v + len, end, pos + len, buf, torn, j)
    ensures OutcomeAt(e, env, w, n, disk, g, v, end, pos, buf, torn, j + 1)
  {
    hide Recovers, Splice, Applied, Reach, ChunkAt;
    AppliedMore(disk, g, v, end, pos, buf, j);
  }

  /** How many pieces have all their operations among the first `k`. */
  function Finished(d: Buf, st: ReaderState, capacity: nat, cs: seq<BlockChunk>, buf: Buf, k: nat): (j: nat)
    requires ReaderOk(d, st, capacity) && ChunksWithin(cs, |buf|)
    ensures j <= |cs|
    decreases |cs|
  {
    if cs == [] then 0
    else
      var p := WritePiece(d, st, capacity, cs[0], Source(buf, cs[0]));
      if p.result.Err? || k < |p.ops| then 0
      else
        PieceKeepsOk(d, st, capacity, cs[0], Source(buf, cs[0]));
        1 + Finished(RunOps(d, p.ops), p.st, capacity, cs[1..], buf, k - |p.ops|)
  }

  lemma FinishedFirst(d: Buf, st: ReaderState, capacity: nat, c: BlockChunk, rest: seq<BlockChunk>, buf: Buf, k: nat)
    requires ReaderOk(d, st, capacity) && ChunksWithin([c] + rest, |buf|)
    ensures c.bufPos + c.len <= |buf| && ChunksWithin(rest, |buf|)
    ensures var p := WritePiece(d, st, capacity, c, buf[c.bufPos..c.bufPos + c.len]);
      ReaderOk(RunOps(d, p.ops), p.st, capacity)
      && Finished(d, st, capacity, [c] + rest, buf, k)
         == if p.result.Err? || k < |p.ops| then 0
           else 1 + Finished(RunOps(d, p.ops), p.st, capacity, rest, buf, k - |p.ops|)
  {
    hide ReaderOk, RunOps, WritePiece;
    var cs := [c] + rest;
    assert cs[0] == c && cs[1..] == rest;
    PieceKeepsOk(d, st, capacity, c, buf[c.bufPos..c.bufPos + c.len]);
  }

  /** A piece that goes through ends with its payload. */
  lemma EndsWithPayload(d: Buf, st: ReaderState, capacity: nat, c: BlockChunk, src: Buf)
    requires ReaderOk(d, st, capacity)
    ensures var p := WritePiece(d, st, capacity, c, src);
      p.result.Ok? ==> p.ops != [] && p.ops[|p.ops| - 1].Write?
  {
    hide ReaderOk, Allocate, AlignUp;
  }

  /** The pieces of a write, cut or torn anywhere. */
  lemma {:induction false} ChunksCrash(d: Buf, st: ReaderState, env: Setting, n: nat,
                                       v: nat, end: nat, pos: nat, buf: Buf, c: Crash, w: bool)
    requires st.geometry.blockSize > 0 && st.geometry.ratio > 0
    requires v <= end <= st.geometry.virtualSize && pos + (end - v) <= |buf|
    requires ReaderOk(d, st, env.capacity) && ChunksWithin(Chunks(st.geometry, v, end, pos), |buf|)
    requires var ops := WriteChunks(d, st, env.capacity, Chunks(st.geometry, v, end, pos), buf).ops;
      CrashOf(ops, c) && TornDetected(d, st, ops, c)
    requires WellFormed(d, st, env, n + 2 + |Chunks(st.geometry, v, end, pos)|)
    ensures var cs := Chunks(st.geometry, v, end, pos);
      var ops := WriteChunks(d, st, env.capacity, cs, buf).ops;
      OutcomeAt(CrashState(d, ops, c), env, w, n, Disk(d, st.geometry, st.bat), st.geometry, v, end, pos, buf,
                TornPayload(st, ops, c), Finished(d, st, env.capacity, cs, buf, c.k))
    decreases end - v
  {
    hide WellFormed, ReaderOk, Disk, RunOps, WritePiece, PieceOutcome, OutcomeAt, PieceFits, Splice, CrashState,
      TornDetected, PieceDone, ChunkAt, TornPayload, WriteChunks, Chunks, ChunksWithin, Finished;
    var g, cs := st.geometry, Chunks(st.geometry, v, end, pos);
    var ops := WriteChunks(d, st, env.capacity, cs, buf).ops;
    if v == end {
      NoChunks(d, st, env.capacity, v, pos, buf);
      NothingCrash(d, st, env, n, v, end, pos, buf, c, w);
      FinishedNone(d, st, env.capacity, buf, c.k);
    } else {
      var k := ChunkAt(g, v, end, pos);
      var rest, src := Chunks(g, v + k.len, end, pos + k.len), buf[pos..pos + k.len];
      ChunkFacts(g, v, end, pos);
      ChunksCons(g, v, end, pos);
      FirstChunk(d, st, env.capacity, k, rest, buf);
      FinishedFirst(d, st, env.capacity, k, rest, buf, c.k);
      var p := WritePiece(d, st, env.capacity, k, src);
      var d1 := RunOps(d, p.ops);
      PieceRefines(d, st, env, n + 2 + |rest|, v, end, pos, src);
      FewerWellFormed(d, st, env, n + 2 + |cs|, n + 2);
      if p.result.Err? {
        NothingCrash(d, st, env, n, v, end, pos, buf, c, w);
      } else {
        var after := WriteChunks(d1, p.st, env.capacity, rest, buf).ops;
        if c.k < |p.ops| {
          CrashSooner(d, p.ops, after, c);
          CrashFirst(d, st, p.ops, after, c);
          PieceCrash(d, st, env, n, v, end, pos, src, c, w);
          OutcomeOfPiece(CrashState(d, ops, c), env, w, n, Disk(d, g, st.bat), g, v, end, pos, buf,
                         TornPayload(st, ops, c));
        } else {
          PieceDoneIs(d, st, d1, p.st, env, n + 2 + |rest|, v, src);
          EndsWithPayload(d, st, env.capacity, k, src);
          CrashSecond(d, st, p.st, p.ops, after, c);
          PieceDoneDisk(d, st, d1, p.st, env, n + 2 + |rest|, v, src);
          ChunksCrash(d1, p.st, env, n, v + k.len, end, pos + k.len, buf, Shifted(c, |p.ops|), w);
          OutcomeOfRest(CrashState(d, ops, c), env, w, n, Disk(d, g, st.bat), g, v, end, pos, buf,
            TornPayload(st, ops, c),
                        Finished(d1, p.st, env.capacity, rest, buf, c.k - |p.ops|));
        }
      }
    }
  }

  lemma FinishedNone(d: Buf, st: ReaderState, capacity: nat, buf: Buf, k: nat)
    requires ReaderOk(d, st, capacity)
    ensures ChunksWithin([], |buf|) && Finished(d, st, capacity, [], buf, k) == 0
  {
    hide ReaderOk;
  }

  lemma NothingCrash(d: Buf, st: ReaderState, env: Setting, n: nat,
                     v: nat, end: nat, pos: nat, buf: Buf, c: Crash, w: bool)
    requires st.geometry.blockSize > 0 && st.geometry.ratio > 0 && v <= end <= st.geometry.virtualSize
      && pos + (end - v) <= |buf|
    requires CrashOf([], c)
    requires WellFormed(d, st, env, n + 2)
    ensures OutcomeAt(CrashState(d, [], c), env, w, n, Disk(d, st.geometry, st.bat), st.geometry, v, end, pos, buf,
                      TornPayload(st, [], c), 0)
  {
    hide WellFormed, Disk, Recovers, RunOps, Applied, Reach;
    NothingReopens(d, st, env, n, c, w);
    AppliedNone(Disk(d, st.geometry, st.bat), st.geometry, v, end, pos, buf);
  }

  lemma PieceDoneDisk(d: Buf, st: ReaderState, e: Buf, t: ReaderState, env: Setting, n: nat,
                      v: nat, src: Buf)
    requires st.geometry.blockSize > 0 && st.geometry.ratio > 0 && v + |src| <= st.geometry.virtualSize
    requires PieceDone(d, st, e, t, env, n, v, src)
    ensures t.geometry == st.geometry && Disk(e, st.geometry, t.bat) == Splice(Disk(d, st.geometry, st.bat), v, src)
  {
    hide WellFormed, Disk, Splice;
  }

  lemma NothingReopens(d: Buf, st: ReaderState, env: Setting, n: nat, c: Crash, w: bool)
    requires st.geometry.blockSize > 0 && st.geometry.ratio > 0 && CrashOf([], c)
    requires WellFormed(d, st, env, n + 2)
    ensures Recovers(CrashState(d, [], c), env, w, n, Disk(d, st.geometry, st.bat))
  {
    hide WellFormed, Disk, Recovers, RunOps;
    var none: seq<DevOp> := [];
    assert none[..0] == none;
    RunNothing(d, []);
    FewerWellFormed(d, st, env, n + 2, n + 1);
    WellFormedReopens(d, st, env, n, w);
  }

  // ---- The whole write ----

  /** How many pieces of a write have all their operations among the first `k`. */
  function FinishedOf(d: Buf, st: ReaderState, capacity: nat, offset: u64, buf: Buf, k: nat): nat
    requires ReaderOk(d, st, capacity) && st.geometry.blockSize > 0 && st.geometry.ratio > 0
  {
    if !st.writable || offset + |buf| > st.geometry.virtualSize then 0
    else
      ChunksFit(st.geometry, offset, offset + |buf|, 0);
      Finished(d, st, capacity, Chunks(st.geometry, offset, offset + |buf|, 0), buf, k)
  }

  /** What reopening finds after a crash of a write of `buf` at `offset`, when `j` of its
      pieces were finished. */
  ghost predicate WriteOutcome(e: Buf, env: Setting, w: bool, n: nat,
                               disk: Buf, g: Geometry, offset: nat, buf: Buf, torn: Option<Buf>, j: nat)
    requires g.blockSize > 0 && g.ratio > 0
  {
    if offset + |buf| <= |disk| then
      OutcomeAt(e, env, w, n, disk, g, offset, offset + |buf|, 0, buf, torn, j)
    else
      Recovers(e, env, w, n, disk)
  }

  /** A write, cut after any of its device operations or torn in any of its writes: a
      replay-capable reopen succeeds, leaves a well-formed image, and exposes the old
      disk with exactly the pieces whose operations were all done. If it was a payload
      that tore, what is left of it shows over the next piece, and nothing else does. */
  lemma WriteIsAtomic(d: Buf, st: ReaderState, env: Setting, n: nat,
                      offset: u64, buf: Buf, c: Crash, w: bool)
    requires st.geometry.blockSize > 0 && st.geometry.ratio > 0 && ReaderOk(d, st, env.capacity)
    requires var ops := WriteRun(d, st, env.capacity, offset, buf).ops;
      CrashOf(ops, c) && TornDetected(d, st, ops, c)
    requires WellFormed(d, st, env, n + 2 + Pieces(st.geometry, offset, |buf|))
    ensures var ops := WriteRun(d, st, env.capacity, offset, buf).ops;
      WriteOutcome(CrashState(d, ops, c), env, w, n, Disk(d, st.geometry, st.bat), st.geometry, offset, buf,
                   TornPayload(st, ops, c), FinishedOf(d, st, env.capacity, offset, buf, c.k))
  {
    hide WellFormed, ReaderOk, Disk, RunOps, WriteChunks, WriteRun, CrashState, TornDetected, Recovers, OutcomeAt,
      Chunks, ChunksWithin, TornPayload, Finished;
    var g, cs := st.geometry, Chunks(st.geometry, offset, offset + |buf|, 0);
    var run := WriteRun(d, st, env.capacity, offset, buf);
    ChunksFit(g, offset, offset + |buf|, 0);
    if st.writable && buf != [] && offset + |buf| <= g.virtualSize {
      WriteRunIs(d, st, env.capacity, offset, buf);
      var ops := WriteChunks(d, st, env.capacity, cs, buf).ops;
      var b := WithoutFlush(d, st, ops, run.ops, c);
      ChunksCrash(d, st, env, n, offset, offset + |buf|, 0, buf, b, w);
      FinishedCapped(d, st, env.capacity, cs, buf, c.k);
    } else {
      WriteNothing(d, st, env.capacity, offset, buf);
      FewerWellFormed(d, st, env, n + 2 + |cs|, n + 2);
      NothingReopens(d, st, env, n, c, w);
      if offset + |buf| <= g.virtualSize {
        NothingCrash(d, st, env, n, offset, offset + |buf|, 0, buf, c, w);
        if buf == [] {
          NoChunks(d, st, env.capacity, offset, 0, buf);
          FinishedNone(d, st, env.capacity, buf, c.k);
        }
      }
    }
  }

  /** Past the last operation of the pieces there is nothing more to finish. */
  lemma {:induction false} FinishedCapped(d: Buf, st: ReaderState, capacity: nat, cs: seq<BlockChunk>, buf: Buf, k: nat)
    requires ReaderOk(d, st, capacity) && ChunksWithin(cs, |buf|)
    ensures var m := |WriteChunks(d, st, capacity, cs, buf).ops|;
      k > m ==> Finished(d, st, capacity, cs, buf, k) == Finished(d, st, capacity, cs, buf, m)
    decreases |cs|
  {
    hide ReaderOk, RunOps, WritePiece;
    if cs != [] {
      var p := WritePiece(d, st, capacity, cs[0], Source(buf, cs[0]));
      PieceKeepsOk(d, st, capacity, cs[0], Source(buf, cs[0]));
      if p.result.Ok? && k >= |p.ops| {
        FinishedCapped(RunOps(d, p.ops), p.st, capacity, cs[1..], buf, k - |p.ops|);
      }
    }
  }

  /** After any run of reads and writes, a write that crashes: what the run left is a
      flat array the calls account for, and the reopen exposes it with exactly the
      finished pieces of the write. */
  lemma RunThenCrash(d: Buf, st: ReaderState, env: Setting, n: nat, live: bool, calls: seq<Call>,
                     offset: u64, buf: Buf, c: Crash, w: bool)
    requires st.geometry.blockSize > 0 && st.geometry.ratio > 0 && ReaderOk(d, st, env.capacity)
      && (live ==> Provisioned(st, env.capacity))
    requires WellFormed(d, st, env, n + 2 + Pieces(st.geometry, offset, |buf|) + Cost(st.geometry, calls))
    ensures var s, g := Serve(d, st, env.capacity, calls), st.geometry;
      ReaderOk(s.d, s.st, env.capacity) && s.st.geometry == g
      && var ops, disk := WriteRun(s.d, s.st, env.capacity, offset, buf).ops, Disk(s.d, g, s.st.bat);
         FlatRun(g, live, Disk(d, g, st.bat), calls, s.replies, disk)
         && (CrashOf(ops, c) && TornDetected(s.d, s.st, ops, c) ==>
               WriteOutcome(CrashState(s.d, ops, c), env, w, n, disk, g, offset, buf, TornPayload(s.st, ops, c),
                            FinishedOf(s.d, s.st, env.capacity, offset, buf, c.k)))
  {
    hide WellFormed, ReaderOk, Disk, Serve, FlatRun, WriteRun, WriteOutcome, CrashOf, CrashState, TornDetected,
      TornPayload, Pieces, Cost, FinishedOf, Provisioned;
    RunRefines(d, st, env, n + 2 + Pieces(st.geometry, offset, |buf|), live, calls);
    var s := Serve(d, st, env.capacity, calls);
    OkOfWellFormed(s.d, s.st, env, n + 2 + Pieces(st.geometry, offset, |buf|));
    var ops := WriteRun(s.d, s.st, env.capacity, offset, buf).ops;
    if CrashOf(ops, c) && TornDetected(s.d, s.st, ops, c) {
      WriteIsAtomic(s.d, s.st, env, n, offset, buf, c, w);
    }
  }

  lemma OkOfWellFormed(d: Buf, st: ReaderState, env: Setting, n: nat)
    requires WellFormed(d, st, env, n)
    ensures ReaderOk(d, st, env.capacity)
  {
    hide ReaderOk, Anchored, BatOf, PickHeader, LogClear, Layout, Pending, Landed, RoomFor;
  }

  /** The closing flush changes nothing. */
  lemma WithoutFlush(d: Buf, st: ReaderState, ops: seq<DevOp>, all: seq<DevOp>, c: Crash) returns (b: Crash)
    requires (all == ops || all == ops + [Flush]) && CrashOf(all, c) && TornDetected(d, st, all, c)
    ensures CrashOf(ops, b) && CrashState(d, all, c) == CrashState(d, ops, b) && TornDetected(d, st, ops, b)
    ensures TornPayload(st, ops, b) == TornPayload(st, all, c)
    ensures b.k == Min(c.k, |ops|)
  {
    hide TornDetected, RunOps, Control;
    b := c;
    if all == ops + [Flush] {
      if c.k <= |ops| && CrashOf(ops, c) {
        CrashFirst(d, st, ops, [Flush], c);
      } else {
        b := Cut(|ops|);
        assert c == Cut(|ops| + 1);
        assert all[..|ops| + 1] == ops + [Flush] && ops[..|ops|] == ops;
        RunConcat(d, ops, [Flush]);
        RunFlush(RunOps(d, ops));
        CutDetected(d, st, ops, b);
      }
    }
  }

  lemma CutDetected(d: Buf, st: ReaderState, ops: seq<DevOp>, c: Crash)
    requires CrashOf(ops, c) && c.Cut?
    ensures TornDetected(d, st, ops, c)
  {
  }
}
