/** Applying a chain to the device (src/log.rs): the growth bound, the check of
    every descriptor before the first write, and replay interrupted and repeated. */
module LogReplay {
  import opened Bytes
  import opened LogFormat
  import opened Devices

  const MAX_BLOCK: nat := 0x1000_0000
  const ZERO_CHUNK: nat := 0x10_0000

  // ---- Extents ----

  function DescriptorCount(chain: seq<LogEntry>): nat {
    if chain == [] then 0 else |chain[0].descriptors| + DescriptorCount(chain[1..])
  }

  function MaxLast(chain: seq<LogEntry>): (m: u64)
    ensures forall e :: e in chain ==> e.header.lastFileOffset <= m
    ensures m == 0 || exists e :: e in chain && e.header.lastFileOffset == m
  {
    if chain == [] then 0 else Max(chain[0].header.lastFileOffset, MaxLast(chain[1..]))
  }

  /** The furthest a chain may grow a file of `current` bytes: a block a descriptor. */
  function Ceiling(current: u64, chain: seq<LogEntry>): u64 {
    SaturatingAdd(current, Min(DescriptorCount(chain) * MAX_BLOCK, TWO64 - 1))
  }

  function AllowedExtent(current: u64, chain: seq<LogEntry>): u64 {
    Max(current, Min(MaxLast(chain), Ceiling(current, chain)))
  }

  function Flatten(chain: seq<LogEntry>): seq<Descriptor> {
    if chain == [] then [] else chain[0].descriptors + Flatten(chain[1..])
  }

  function MaxEnd(ds: seq<Descriptor>): u64 {
    if ds == [] then 0 else Max(SaturatingAdd(ds[0].fileOffset, ds[0].Length()), MaxEnd(ds[1..]))
  }

  /** `replayed_extent`: what the reader is told the file's length became. */
  function ReplayedExtent(current: u64, chain: seq<LogEntry>): u64 {
    Max(AllowedExtent(current, chain), MaxEnd(Flatten(chain)))
  }

  predicate Fits(d: Descriptor, size: u64) {
    d.fileOffset + d.Length() < TWO64 && d.fileOffset + d.Length() <= size
  }

  predicate AllFit(ds: seq<Descriptor>, size: u64) {
    forall d :: d in ds ==> Fits(d, size)
  }

  // ---- What is done to the device ----

  /** `write_zeros`: at most a megabyte a write. */
  function ZeroOps(off: nat, len: nat): (ops: seq<DevOp>)
    decreases len
  {
    if len == 0 then []
    else
      var n := Min(len, ZERO_CHUNK);
      [Write(off, Zeros(n))] + ZeroOps(off + n, len - n)
  }

  function DescOps(d: Descriptor): seq<DevOp> {
    if d.ZeroDesc? then ZeroOps(d.fileOffset, d.zeroLength) else [Write(d.fileOffset, d.sector)]
  }

  function AllDescOps(ds: seq<Descriptor>): seq<DevOp> {
    if ds == [] then [] else DescOps(ds[0]) + AllDescOps(ds[1..])
  }

  function ChainOps(chain: seq<LogEntry>): seq<DevOp> {
    if chain == [] then [] else AllDescOps(chain[0].descriptors) + [Flush] + ChainOps(chain[1..])
  }

  datatype Done = Done(ops: seq<DevOp>, result: Result<()>)

  /** `apply_chain` on a device of `size` bytes that can grow to `capacity`. */
  function Replay(size: u64, capacity: nat, chain: seq<LogEntry>): Done {
    var extent := AllowedExtent(size, chain);
    if !AllFit(Flatten(chain), extent) then Done([], Err(LogReplay))
    else if extent > size && extent > capacity then Done([], Err(LogReplay))
    else Done((if extent > size then [SetLen(extent)] else []) + ChainOps(chain), Ok(()))
  }

  /** The device after a replay that went through. */
  function Replayed(d: Buf, chain: seq<LogEntry>): Buf
    requires |d| < TWO64
  {
    var extent := AllowedExtent(|d|, chain);
    RunOps(d + Zeros(extent - |d|), ChainOps(chain))
  }

  lemma ReplayedIsRun(d: Buf, capacity: nat, chain: seq<LogEntry>)
    requires |d| < TWO64 && Replay(|d|, capacity, chain).result.Ok?
    ensures RunOps(d, Replay(|d|, capacity, chain).ops) == Replayed(d, chain)
  {
    hide AllowedExtent, ChainOps, AllFit, RunOps, Flatten, Zeros;
    ExtentIsLength(d, chain);
    var extent, ops := AllowedExtent(|d|, chain), ChainOps(chain);
    if extent > |d| {
      RunConcat(d, [SetLen(extent)], ops);
      RunOne(d, SetLen(extent));
    } else {
      assert d + Zeros(0) == d && [] + ops == ops;
    }
  }

  // ---- The loops ----

  /** The operations of a list up to the first that a device of `size` bytes refuses. */
  function Granted(ops: seq<DevOp>, size: nat): seq<DevOp>
    decreases |ops|
  {
    if ops == [] || (ops[0].Write? && ops[0].off + |ops[0].bytes| > size) then []
      else [ops[0]] + Granted(ops[1..], size)
  }

  lemma {:induction false} AllGranted(ops: seq<DevOp>, size: nat)
    requires Inside(ops, size)
    ensures Granted(ops, size) == ops
    decreases |ops|
  {
    if ops != [] {
      InsideTail(ops, size);
      AllGranted(ops[1..], size);
    }
  }

  /** `write_zeros`: chunk by chunk, up to one that ends past the device. */
  method WriteZeros(dev: Device, off: nat, len: nat) returns (r: Result<()>)
    requires dev.Valid()
    modifies dev
    ensures dev.Valid() && |dev.data| == |old(dev.data)|
    ensures r == if len == 0 || off + len <= |old(dev.data)| then Ok(()) else Err(Io)
    ensures dev.trace == old(dev.trace) + Granted(ZeroOps(off, len), |old(dev.data)|)
    ensures dev.data == RunOps(old(dev.data), Granted(ZeroOps(off, len), |old(dev.data)|))
  {
    hide RunOps, RunOp, Granted, ZeroOps, Zeros;
    var remaining, cur := len, off;
    ghost var size, done, all := |dev.data|, [], Granted(ZeroOps(off, len), |dev.data|);
    RunNothing(dev.data, dev.trace);
    assert [] + all == all;
    while remaining > 0
      invariant dev.Valid() && |dev.data| == size && remaining >= 0 && cur + remaining == off + len
      invariant remaining == len || cur <= size
      invariant done + Granted(ZeroOps(cur, remaining), size) == all
      invariant dev.trace == old(dev.trace) + done && dev.data == RunOps(old(dev.data), done)
    {
      var n := Min(remaining, ZERO_CHUNK);
      ghost var op := Write(cur, Zeros(n));
      ghost var tail := ZeroOps(cur + n, remaining - n);
      GrantedZeros(cur, remaining, size);
      var w := dev.WriteAt(cur, Zeros(n));
      if w.Err? {
        assert done + [] == done;
        return w;
      }
      Regroup(old(dev.trace), done, op, Granted(tail, size));
      RunMore(old(dev.data), done, op);
      done := done + [op];
      cur, remaining := cur + n, remaining - n;
    }
    GrantedNone(cur, size);
    assert done + [] == done;
    return Ok(());
  }

  lemma Regroup(trace: seq<DevOp>, done: seq<DevOp>, op: DevOp, rest: seq<DevOp>)
    ensures done + ([op] + rest) == (done + [op]) + rest && trace + (done + [op]) == (trace + done) + [op]
  {
  }

  lemma RunMore(d: Buf, ops: seq<DevOp>, op: DevOp)
    ensures RunOps(d, ops + [op]) == RunOp(RunOps(d, ops), op)
  {
    hide RunOps, RunOp;
    RunConcat(d, ops, [op]);
    RunOne(RunOps(d, ops), op);
  }

  lemma GrantedNone(cur: nat, size: nat)
    ensures Granted(ZeroOps(cur, 0), size) == []
  {
  }

  lemma GrantedZeros(cur: nat, remaining: nat, size: nat)
    requires remaining > 0
    ensures var n := Min(remaining, ZERO_CHUNK);
      Granted(ZeroOps(cur, remaining), size)
      == if cur + n > size then [] else [Write(cur, Zeros(n))] + Granted(ZeroOps(cur + n, remaining - n), size)
  {
    var n := Min(remaining, ZERO_CHUNK);
    var op, tail := Write(cur, Zeros(n)), ZeroOps(cur + n, remaining - n);
    assert ([op] + tail)[0] == op && ([op] + tail)[1..] == tail;
  }

  /** Whether every descriptor of the chain lands inside `size`. */
  method CheckFits(chain: seq<LogEntry>, size: u64) returns (ok: bool)
    ensures ok <==> AllFit(Flatten(chain), size)
  {
    var i := 0;
    ghost var ds := Flatten(chain);
    assert chain[0..] == chain;
    while i < |chain|
      invariant 0 <= i <= |chain|
      invariant AllFit(Flatten(chain), size) <==> AllFit(Flatten(chain[i..]), size)
    {
      assert chain[i..][1..] == chain[i + 1..];
      var es := chain[i].descriptors;
      var j := 0;
      while j < |es|
        invariant 0 <= j <= |es|
        invariant forall k :: 0 <= k < j ==> Fits(es[k], size)
      {
        if !(es[j].fileOffset + es[j].Length() < TWO64) || es[j].fileOffset + es[j].Length() > size {
          assert es[j] in Flatten(chain[i..]);
          return false;
        }
        j := j + 1;
      }
      AllFitConcat(es, Flatten(chain[i + 1..]), size);
      i := i + 1;
    }
    return true;
  }

  lemma AllFitConcat(a: seq<Descriptor>, b: seq<Descriptor>, size: u64)
    ensures AllFit(a + b, size) <==> AllFit(a, size) && AllFit(b, size)
  {
    if AllFit(a + b, size) {
      assert forall d :: d in a ==> d in a + b;
      assert forall d :: d in b ==> d in a + b;
    }
  }

  method ApplyDescriptor(dev: Device, d: Descriptor)
    requires dev.Valid() && Fits(d, |dev.data|)
    modifies dev
    ensures dev.Valid() && |dev.data| == |old(dev.data)|
    ensures dev.data == RunOps(old(dev.data), DescOps(d))
    ensures dev.trace == old(dev.trace) + DescOps(d)
  {
    if d.ZeroDesc? {
      ZeroInside(d.fileOffset, d.zeroLength, |dev.data|);
      AllGranted(ZeroOps(d.fileOffset, d.zeroLength), |dev.data|);
      var _ := WriteZeros(dev, d.fileOffset, d.zeroLength);
    } else {
      RunOne(dev.data, Write(d.fileOffset, d.sector));
      var _ := dev.WriteAt(d.fileOffset, d.sector);
    }
  }

  method ApplyDescriptors(dev: Device, ds: seq<Descriptor>) returns (r: Result<()>)
    requires dev.Valid() && AllFit(ds, |dev.data|)
    modifies dev
    ensures dev.Valid() && |dev.data| == |old(dev.data)| && r.Ok?
    ensures dev.data == RunOps(old(dev.data), AllDescOps(ds))
    ensures dev.trace == old(dev.trace) + AllDescOps(ds)
  {
    hide RunOp, RunOps, DescOps, Fits;
    var i := 0;
    assert ds[0..] == ds;
    while i < |ds|
      invariant 0 <= i <= |ds| && dev.Valid() && |dev.data| == |old(dev.data)|
      invariant RunOps(dev.data, AllDescOps(ds[i..])) == RunOps(old(dev.data), AllDescOps(ds))
      invariant dev.trace + AllDescOps(ds[i..]) == old(dev.trace) + AllDescOps(ds)
    {
      ghost var tail := AllDescOps(ds[i + 1..]);
      assert ds[i..][1..] == ds[i + 1..] && Fits(ds[i], |dev.data|);
      RunConcat(dev.data, DescOps(ds[i]), tail);
      assert dev.trace + (DescOps(ds[i]) + tail) == (dev.trace + DescOps(ds[i])) + tail;
      ApplyDescriptor(dev, ds[i]);
      i := i + 1;
    }
    RunNothing(dev.data, dev.trace);
    return Ok(());
  }

  lemma RunNothing(d: Buf, trace: seq<DevOp>)
    ensures RunOps(d, []) == d && trace + [] == trace
  {
  }

  lemma ExtentIsLength(d: Buf, chain: seq<LogEntry>)
    requires |d| < TWO64
    ensures AllowedExtent(|d|, chain) >= |d|
    ensures |RunOp(d, SetLen(AllowedExtent(|d|, chain)))| == AllowedExtent(|d|, chain)
  {
  }

  /** `apply_chain`: all of it, or none of it. */
  method ApplyChain(dev: Device, chain: seq<LogEntry>) returns (r: Result<()>)
    requires dev.Valid()
    modifies dev
    ensures dev.Valid()
    ensures var done := Replay(|old(dev.data)|, dev.capacity, chain);
      r == done.result && dev.trace == old(dev.trace) + done.ops && dev.data == RunOps(old(dev.data), done.ops)
  {
    hide AllowedExtent, ChainOps, AllFit, RunOps, RunOp, Flatten;
    var size := AllowedExtent(|dev.data|, chain);
    ExtentIsLength(dev.data, chain);
    var fits := CheckFits(chain, size);
    RunNothing(dev.data, dev.trace);
    if !fits {
      return Err(LogReplay);
    }
    ghost var first := [];
    if size > |dev.data| {
      var grown := dev.Extend(size);
      if grown.Err? {
        return Err(LogReplay);
      }
      first := [SetLen(size)];
      RunOne(old(dev.data), SetLen(size));
    }
    RunConcat(old(dev.data), first, ChainOps(chain));
    assert old(dev.trace) + (first + ChainOps(chain)) == (old(dev.trace) + first) + ChainOps(chain);
    ApplyEntries(dev, chain);
    return Ok(());
  }

  method ApplyEntries(dev: Device, chain: seq<LogEntry>)
    requires dev.Valid() && AllFit(Flatten(chain), |dev.data|)
    modifies dev
    ensures dev.Valid() && |dev.data| == |old(dev.data)|
    ensures dev.data == RunOps(old(dev.data), ChainOps(chain))
    ensures dev.trace == old(dev.trace) + ChainOps(chain)
  {
    var i := 0;
    assert chain[0..] == chain;
    while i < |chain|
      invariant 0 <= i <= |chain| && dev.Valid() && |dev.data| == |old(dev.data)|
      invariant AllFit(Flatten(chain[i..]), |dev.data|)
      invariant RunOps(dev.data, ChainOps(chain[i..])) == RunOps(old(dev.data), ChainOps(chain))
      invariant dev.trace + ChainOps(chain[i..]) == old(dev.trace) + ChainOps(chain)
    {
      var ds := chain[i].descriptors;
      ghost var tail := ChainOps(chain[i + 1..]);
      assert chain[i..][1..] == chain[i + 1..];
      AllFitConcat(ds, Flatten(chain[i + 1..]), |dev.data|);
      RunConcat(dev.data, AllDescOps(ds) + [Flush], tail);
      RunConcat(dev.data, AllDescOps(ds), [Flush]);
      RunOne(RunOps(dev.data, AllDescOps(ds)), Flush);
      assert dev.trace + (AllDescOps(ds) + [Flush] + tail) == (dev.trace + AllDescOps(ds)) + [Flush] + tail;
      var _ := ApplyDescriptors(dev, ds);
      dev.FlushAll();
      i := i + 1;
    }
    assert dev.trace + [] == dev.trace;
  }

  // ---- What a replay amounts to ----

  lemma InsideConcat(a: seq<DevOp>, b: seq<DevOp>, n: nat)
    requires Inside(a, n) && Inside(b, n)
    ensures Inside(a + b, n)
  {
  }

  lemma {:induction false} ZeroInside(off: nat, len: nat, n: nat)
    requires off + len <= n
    ensures Inside(ZeroOps(off, len), n)
    decreases len
  {
    if len > 0 {
      var k := Min(len, ZERO_CHUNK);
      ZeroInside(off + k, len - k, n);
      InsideConcat([Write(off, Zeros(k))], ZeroOps(off + k, len - k), n);
    }
  }

  lemma {:induction false} DescsInside(ds: seq<Descriptor>, n: u64)
    requires AllFit(ds, n)
    ensures Inside(AllDescOps(ds), n)
  {
    if ds != [] {
      assert Fits(ds[0], n);
      if ds[0].ZeroDesc? {
        ZeroInside(ds[0].fileOffset, ds[0].zeroLength, n);
      }
      DescsInside(ds[1..], n);
      InsideConcat(DescOps(ds[0]), AllDescOps(ds[1..]), n);
    }
  }

  lemma {:induction false} ChainInside(chain: seq<LogEntry>, n: u64)
    requires AllFit(Flatten(chain), n)
    ensures Inside(ChainOps(chain), n)
  {
    if chain != [] {
      AllFitConcat(chain[0].descriptors, Flatten(chain[1..]), n);
      hide AllFit, Inside, AllDescOps;
      DescsInside(chain[0].descriptors, n);
      ChainInside(chain[1..], n);
      FlushInside(n);
      InsideConcat(AllDescOps(chain[0].descriptors), [Flush], n);
      InsideConcat(AllDescOps(chain[0].descriptors) + [Flush], ChainOps(chain[1..]), n);
    }
  }

  lemma FlushInside(n: nat)
    ensures Inside([Flush], n)
  {
  }

  predicate Lands(d: Descriptor, i: nat) { d.fileOffset <= i < d.fileOffset + d.Length() }

  function LandedByte(d: Descriptor, i: nat): byte
    requires Lands(d, i)
  {
    if d.ZeroDesc? then 0 else d.sector[i - d.fileOffset]
  }

  lemma {:induction false} ZeroRunByte(d: Buf, off: nat, len: nat, i: nat)
    requires off + len <= |d| && i < |d|
    ensures |RunOps(d, ZeroOps(off, len))| == |d|
    ensures RunOps(d, ZeroOps(off, len))[i] == if off <= i < off + len then 0 else d[i]
    decreases len
  {
    if len > 0 {
      var k := Min(len, ZERO_CHUNK);
      var op, rest := Write(off, Zeros(k)), ZeroOps(off + k, len - k);
      assert ([op] + rest)[1..] == rest;
      RunOpByte(d, op, i);
      hide RunOp;
      ZeroRunByte(RunOp(d, op), off + k, len - k, i);
    }
  }

  lemma DescRunByte(d: Buf, x: Descriptor, i: nat)
    requires |d| < TWO64 && Fits(x, |d|) && i < |d|
    ensures |RunOps(d, DescOps(x))| == |d|
    ensures RunOps(d, DescOps(x))[i] == if Lands(x, i) then LandedByte(x, i) else d[i]
  {
    if x.ZeroDesc? {
      ZeroRunByte(d, x.fileOffset, x.zeroLength, i);
    } else {
      RunOne(d, Write(x.fileOffset, x.sector));
      RunOpByte(d, Write(x.fileOffset, x.sector), i);
    }
  }

  /** Byte `i` is what the last descriptor landing on it left, or what it was. */
  ghost predicate LastLanding(ds: seq<Descriptor>, i: nat, before: byte, after: byte) {
    (forall k :: 0 <= k < |ds| && Lands(ds[k], i) && (forall j :: k < j < |ds| ==> !Lands(ds[j], i)) ==>
      after == LandedByte(ds[k], i))
    && ((forall k :: 0 <= k < |ds| ==> !Lands(ds[k], i)) ==> after == before)
  }

  lemma LastLandingStep(ds: seq<Descriptor>, i: nat, before: byte, after: byte)
    requires ds != []
    requires LastLanding(ds[1..], i, if Lands(ds[0], i) then LandedByte(ds[0], i) else before, after)
    ensures LastLanding(ds, i, before, after)
  {
    var t := ds[1..];
    hide Lands, LandedByte;
    forall k | 0 <= k < |ds| && Lands(ds[k], i) && (forall j :: k < j < |ds| ==> !Lands(ds[j], i))
      ensures after == LandedByte(ds[k], i)
    {
      if k == 0 {
        assert forall j :: 0 <= j < |t| ==> t[j] == ds[j + 1];
      } else {
        assert t[k - 1] == ds[k] && forall j :: k - 1 < j < |t| ==> t[j] == ds[j + 1];
      }
    }
    if forall k :: 0 <= k < |ds| ==> !Lands(ds[k], i) {
      assert forall j :: 0 <= j < |t| ==> t[j] == ds[j + 1];
    }
  }

  lemma {:induction false} DescsRunByte(d: Buf, ds: seq<Descriptor>, i: nat)
    requires |d| < TWO64 && AllFit(ds, |d|) && i < |d|
    ensures |RunOps(d, AllDescOps(ds))| == |d|
    ensures LastLanding(ds, i, d[i], RunOps(d, AllDescOps(ds))[i])
    decreases |ds|
  {
    if ds != [] {
      RunConcat(d, DescOps(ds[0]), AllDescOps(ds[1..]));
      DescRunByte(d, ds[0], i);
      var next := RunOps(d, DescOps(ds[0]));
      assert AllFit(ds[1..], |next|);
      hide RunOps, DescOps, LastLanding, AllFit, Fits;
      DescsRunByte(next, ds[1..], i);
      LastLandingStep(ds, i, d[i], RunOps(d, AllDescOps(ds))[i]);
    }
  }

  /** The flushes between entries aside, a chain is its descriptors in order. */
  lemma {:induction false} ChainIsDescriptors(d: Buf, chain: seq<LogEntry>)
    ensures RunOps(d, ChainOps(chain)) == RunOps(d, AllDescOps(Flatten(chain)))
    decreases |chain|
  {
    if chain != [] {
      var ds, rest := chain[0].descriptors, chain[1..];
      hide RunOp, AllDescOps;
      AllDescConcat(ds, Flatten(rest));
      RunConcat(d, AllDescOps(ds), AllDescOps(Flatten(rest)));
      RunConcat(d, AllDescOps(ds) + [Flush], ChainOps(rest));
      RunConcat(d, AllDescOps(ds), [Flush]);
      RunFlush(RunOps(d, AllDescOps(ds)));
      ChainIsDescriptors(RunOps(d, AllDescOps(ds)), rest);
    }
  }

  lemma RunFlush(d: Buf)
    ensures RunOps(d, [Flush]) == d
  {
    RunOne(d, Flush);
  }

  lemma {:induction false} AllDescConcat(a: seq<Descriptor>, b: seq<Descriptor>)
    ensures AllDescOps(a + b) == AllDescOps(a) + AllDescOps(b)
    decreases |a|
  {
    hide DescOps;
    if a == [] {
      assert a + b == b;
    } else {
      assert (a + b)[1..] == a[1..] + b;
      AllDescConcat(a[1..], b);
    }
  }

  lemma {:induction false} MaxEndFits(ds: seq<Descriptor>, n: u64)
    requires AllFit(ds, n)
    ensures MaxEnd(ds) <= n
  {
    if ds != [] {
      assert Fits(ds[0], n);
      MaxEndFits(ds[1..], n);
    }
  }

  /** All or nothing. A refusal leaves the device as it was; otherwise every byte of
      the zero-extended device is what the last descriptor landing on it left, or
      what it was, and its length is the one the reader goes on with. */
  lemma ReplayMeaning(d: Buf, capacity: nat, chain: seq<LogEntry>)
    requires |d| <= capacity < 0x8000_0000_0000_0000
    ensures var done, extent := Replay(|d|, capacity, chain), AllowedExtent(|d|, chain);
      var after := RunOps(d, done.ops);
      (done.result.Err? ==> after == d)
      && (done.result.Err? <==> !AllFit(Flatten(chain), extent) || extent > capacity)
      && (done.result.Ok? ==>
        |after| == extent == ReplayedExtent(|d|, chain)
        && forall i :: 0 <= i < extent ==> LastLanding(Flatten(chain), i, if i < |d| then d[i] else 0, after[i]))
  {
    hide AllFit, RunOps, LastLanding, AllDescOps, ChainOps, Flatten, AllowedExtent, Replay;
    var done, extent := Replay(|d|, capacity, chain), AllowedExtent(|d|, chain);
    ReplayGoes(|d|, capacity, chain);
    RunNothing(d, []);
    if done.result.Ok? {
      ExtentIsLarger(|d|, chain);
      var wide := d + Zeros(extent - |d|);
      MaxEndFits(Flatten(chain), extent);
      ReplayedIsRun(d, capacity, chain);
      ChainIsDescriptors(wide, chain);
      WholeLength(wide, Flatten(chain));
      forall i | 0 <= i < extent
        ensures LastLanding(Flatten(chain), i, if i < |d| then d[i] else 0, RunOps(d, done.ops)[i])
      {
        DescsRunByte(wide, Flatten(chain), i);
      }
    }
  }

  lemma WholeLength(d: Buf, ds: seq<Descriptor>)
    requires |d| < TWO64 && AllFit(ds, |d|)
    ensures |RunOps(d, AllDescOps(ds))| == |d|
  {
    DescsInside(ds, |d|);
    RunLength(d, AllDescOps(ds));
  }

  // ---- Replay interrupted, and repeated ----

  lemma {:induction false} RunPadded(d: Buf, z: Buf, ops: seq<DevOp>)
    requires Inside(ops, |d|)
    ensures RunOps(d + z, ops) == RunOps(d, ops) + z
    decreases |ops|
  {
    if ops != [] {
      InsideTail(ops, |d|);
      RunOpLength(d, ops[0]);
      PaddedOp(d, z, ops[0]);
      hide RunOp, Inside;
      RunPadded(RunOp(d, ops[0]), z, ops[1..]);
    }
  }

  lemma PaddedOp(d: Buf, z: Buf, op: DevOp)
    requires op.Flush? || (op.Write? && op.off + |op.bytes| <= |d|)
    ensures RunOp(d + z, op) == RunOp(d, op) + z
  {
    if op.Write? {
      var k := op.off + |op.bytes|;
      assert (d + z)[..op.off] == d[..op.off] && (d + z)[k..] == d[k..] + z;
    }
  }

  /** A crash during a replay is a crash before it, or one among its writes on the
      device it has already extended. */
  lemma ReplayCrash(d: Buf, capacity: nat, chain: seq<LogEntry>, c: Crash) returns (inner: Crash)
    requires |d| <= capacity < 0x8000_0000_0000_0000
    requires Replay(|d|, capacity, chain).result.Ok? && CrashOf(Replay(|d|, capacity, chain).ops, c)
    ensures var wide := d + Zeros(AllowedExtent(|d|, chain) - |d|);
      var e := CrashState(d, Replay(|d|, capacity, chain).ops, c);
      e == d || (CrashOf(ChainOps(chain), inner) && e == CrashState(wide, ChainOps(chain), inner))
  {
    hide AllowedExtent, ChainOps, AllFit, Flatten, RunOp, RunOps;
    ExtentIsLength(d, chain);
    var extent, ops := AllowedExtent(|d|, chain), ChainOps(chain);
    inner := c;
    if extent == |d| {
      assert [] + ops == ops && d + Zeros(0) == d;
    } else if c.k > 0 {
      inner := if c.Cut? then Cut(c.k - 1) else Torn(c.k - 1, c.bytes);
      var all := [SetLen(extent)] + ops;
      assert all[..c.k] == [SetLen(extent)] + ops[..c.k - 1];
      RunConcat(d, [SetLen(extent)], ops[..c.k - 1]);
      RunOne(d, SetLen(extent));
      Grown(d, extent);
    } else {
      RunNothing(d, []);
      assert ([SetLen(extent)] + ops)[..0] == [];
    }
  }

  lemma Grown(d: Buf, n: nat)
    requires n >= |d|
    ensures RunOp(d, SetLen(n)) == d + Zeros(n - |d|)
  {
  }

  lemma ExtentAgain(d: Buf, chain: seq<LogEntry>)
    requires |d| < 0x8000_0000_0000_0000 && AllowedExtent(|d|, chain) < 0x8000_0000_0000_0000
    ensures var extent := AllowedExtent(|d|, chain);
      extent <= AllowedExtent(extent, chain)
      && (AllowedExtent(extent, chain) == extent
          <==> MaxLast(chain) <= Ceiling(|d|, chain) || DescriptorCount(chain) == 0)
  {
    hide MaxLast, DescriptorCount;
  }

  lemma AllFitMore(ds: seq<Descriptor>, n: u64, m: u64)
    requires AllFit(ds, n) && n <= m
    ensures AllFit(ds, m)
  {
  }

  /** Replay survives a crash during replay. Whatever the crash left, applying the
      whole chain again, if the device still grants the room, gives the contents of
      one uninterrupted application, followed at most by zeros. */
  lemma ReplaySurvivesCrash(d: Buf, capacity: nat, chain: seq<LogEntry>, c: Crash)
    requires |d| <= capacity < 0x8000_0000_0000_0000
    requires Replay(|d|, capacity, chain).result.Ok? && CrashOf(Replay(|d|, capacity, chain).ops, c)
    ensures var done := Replay(|d|, capacity, chain);
      var e := CrashState(d, done.ops, c);
      |e| <= capacity
      && var again := Replay(|e|, capacity, chain);
         (e == d || |e| == AllowedExtent(|d|, chain))
         && (again.result.Ok? ==>
              RunOps(e, again.ops) == RunOps(d,
                done.ops) + Zeros(AllowedExtent(|e|, chain) - AllowedExtent(|d|, chain)))
         && (again.result.Ok? <==> AllowedExtent(|e|, chain) <= capacity)
  {
    hide AllowedExtent, ChainOps, AllFit, Flatten, RunOps, RunOp, CrashState, Replay, Inside;
    var done := Replay(|d|, capacity, chain);
    var e := CrashState(d, done.ops, c);
    var inner := ReplayCrash(d, capacity, chain, c);
    var extent, ops := AllowedExtent(|d|, chain), ChainOps(chain);
    ReplayedIsRun(d, capacity, chain);
    ReplayGoes(|d|, capacity, chain);
    ReplayGoes(extent, capacity, chain);
    if e == d {
      assert RunOps(d, done.ops) + Zeros(0) == RunOps(d, done.ops);
    } else {
      var wide := d + Zeros(extent - |d|);
      ChainInside(chain, extent);
      RunAgain(wide, ops, inner);
      ExtentAgain(d, chain);
      var extent2 := AllowedExtent(extent, chain);
      AllFitMore(Flatten(chain), extent, extent2);
      RunPadded(e, Zeros(extent2 - extent), ops);
      if Replay(|e|, capacity, chain).result.Ok? {
        ReplayedIsRun(e, capacity, chain);
      }
    }
  }

  lemma ReplayGoes(size: u64, capacity: nat, chain: seq<LogEntry>)
    requires size <= capacity
    ensures Replay(size, capacity, chain).result.Ok?
      <==> AllFit(Flatten(chain), AllowedExtent(size, chain)) && AllowedExtent(size, chain) <= capacity
    ensures Replay(size, capacity, chain).result.Err? ==> Replay(size, capacity, chain).ops == []
  {
    hide AllFit, Flatten, ChainOps, AllowedExtent;
    ExtentIsLarger(size, chain);
  }

  lemma ExtentIsLarger(size: u64, chain: seq<LogEntry>)
    ensures size <= AllowedExtent(size, chain)
  {
    hide MaxLast, DescriptorCount;
  }

  /** And the same length too, exactly when the chain's largest last-file-offset is
      within the growth ceiling, or there was nothing to write. */
  lemma ReplayAgainSameLength(d: Buf, capacity: nat, chain: seq<LogEntry>, c: Crash)
    requires |d| <= capacity < 0x8000_0000_0000_0000
    requires Replay(|d|, capacity, chain).result.Ok? && CrashOf(Replay(|d|, capacity, chain).ops, c)
    ensures var done := Replay(|d|, capacity, chain);
      var e := CrashState(d, done.ops, c);
      |e| <= capacity
      && var again := Replay(|e|, capacity, chain);
         (MaxLast(chain) <= Ceiling(|d|, chain) || DescriptorCount(chain) == 0 || e == d
          ==> again.result.Ok? && RunOps(e, again.ops) == RunOps(d, done.ops))
         && (MaxLast(chain) > Ceiling(|d|, chain) && DescriptorCount(chain) > 0 && e != d
             ==> again.result.Err? || |RunOps(e, again.ops)| > |RunOps(d, done.ops)|)
  {
    var done := Replay(|d|, capacity, chain);
    var e := CrashState(d, done.ops, c);
    ReplaySurvivesCrash(d, capacity, chain, c);
    ReplayMeaning(d, capacity, chain);
    ExtentAgain(d, chain);
    hide AllowedExtent, RunOps, Replay, CrashState, Ceiling;
    assert RunOps(d, done.ops) + Zeros(0) == RunOps(d, done.ops);
  }

  lemma ReplayLengths(d: Buf, capacity: nat, chain: seq<LogEntry>)
    requires |d| <= capacity < 0x8000_0000_0000_0000
    ensures var done := Replay(|d|, capacity, chain);
      (done.result.Err? ==> done == Done([], Err(LogReplay)))
      && (done.result.Ok? ==> |d| <= |RunOps(d, done.ops)| == ReplayedExtent(|d|, chain) <= capacity)
  {
    ReplayMeaning(d, capacity, chain);
    ExtentIsLength(d, chain);
    hide AllowedExtent, ReplayedExtent, AllFit, RunOps;
  }
}
