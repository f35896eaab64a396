/** The block device under an image: bytes that can be read and written inside its
    length and grown on request, and what a crash leaves of a list of operations. */
module Devices {
  import opened Bytes

  datatype DevOp = SetLen(n: nat) | Write(off: nat, bytes: Buf) | Flush

  /** One operation. A write that ends past the device is refused; growth reads as
      zeros. */
  function RunOp(d: Buf, op: DevOp): Buf {
    match op
    case SetLen(n) => if n >= |d| then d + Zeros(n - |d|) else d[..n]
    case Write(off, b) => if off + |b| <= |d| then Splice(d, off, b) else d
    case Flush => d
  }

  function RunOps(d: Buf, ops: seq<DevOp>): Buf
    decreases |ops|
  {
    if ops == [] then d else RunOps(RunOp(d, ops[0]), ops[1..])
  }

  lemma {:induction false} RunConcat(d: Buf, a: seq<DevOp>, b: seq<DevOp>)
    ensures RunOps(d, a + b) == RunOps(RunOps(d, a), b)
    decreases |a|
  {
    hide RunOp;
    if a == [] {
      assert a + b == b;
    } else {
      assert (a + b)[1..] == a[1..] + b;
      RunConcat(RunOp(d, a[0]), a[1..], b);
    }
  }

  lemma RunOne(d: Buf, op: DevOp)
    ensures RunOps(d, [op]) == RunOp(d, op)
  {
    hide RunOp;
    assert [op][1..] == [];
    assert RunOps(RunOp(d, op), []) == RunOp(d, op);
  }

  lemma RunPrefix(d: Buf, ops: seq<DevOp>, k: nat)
    requires k < |ops|
    ensures RunOps(d, ops[..k + 1]) == RunOp(RunOps(d, ops[..k]), ops[k])
  {
    hide RunOps, RunOp;
    assert ops[..k + 1] == ops[..k] + [ops[k]];
    RunConcat(d, ops[..k], [ops[k]]);
    RunOne(RunOps(d, ops[..k]), ops[k]);
  }

  /** Writes and flushes that stay inside `n` bytes. */
  ghost predicate Inside(ops: seq<DevOp>, n: nat) {
    forall i :: 0 <= i < |ops| ==> ops[i].Flush? || (ops[i].Write? && ops[i].off + |ops[i].bytes| <= n)
  }

  predicate Touches(op: DevOp, i: nat) {
    op.Write? && op.off <= i < op.off + |op.bytes|
  }

  ghost predicate Covered(ops: seq<DevOp>, i: nat) {
    exists k :: 0 <= k < |ops| && Touches(ops[k], i)
  }

  lemma RunOpByte(d: Buf, op: DevOp, i: nat)
    requires i < |d| && (op.Flush? || (op.Write? && op.off + |op.bytes| <= |d|))
    ensures |RunOp(d, op)| == |d|
    ensures RunOp(d, op)[i] == if Touches(op, i) then op.bytes[i - op.off] else d[i]
  {
    if op.Write? {
      SpliceAt(d, op.off, op.bytes, i);
    }
  }

  lemma RunOpLength(d: Buf, op: DevOp)
    requires op.Flush? || (op.Write? && op.off + |op.bytes| <= |d|)
    ensures |RunOp(d, op)| == |d|
  {
  }

  lemma InsideTail(ops: seq<DevOp>, n: nat)
    requires Inside(ops, n) && ops != []
    ensures Inside(ops[1..], n) && (ops[0].Flush? || (ops[0].Write? && ops[0].off + |ops[0].bytes| <= n))
  {
  }

  lemma CoveredTail(ops: seq<DevOp>, i: nat)
    requires ops != []
    ensures Covered(ops, i) <==> Touches(ops[0], i) || Covered(ops[1..], i)
  {
    if Covered(ops[1..], i) {
      var k :| 0 <= k < |ops| - 1 && Touches(ops[1..][k], i);
      assert ops[k + 1] == ops[1..][k];
    }
    if Covered(ops, i) && !Touches(ops[0], i) {
      var k :| 0 <= k < |ops| && Touches(ops[k], i);
      assert ops[1..][k - 1] == ops[k];
    }
  }

  lemma {:induction false} RunLength(d: Buf, ops: seq<DevOp>)
    requires Inside(ops, |d|)
    ensures |RunOps(d, ops)| == |d|
    decreases |ops|
  {
    if ops != [] {
      InsideTail(ops, |d|);
      RunOpLength(d, ops[0]);
      hide RunOp;
      RunLength(RunOp(d, ops[0]), ops[1..]);
    }
  }

  /** Two devices that differ only where the operations write end up the same, and
      nothing else is touched. */
  lemma {:induction false} RunByte(d: Buf, e: Buf, ops: seq<DevOp>, i: nat)
    requires |d| == |e| && i < |d| && Inside(ops, |d|)
    requires Covered(ops, i) || d[i] == e[i]
    ensures |RunOps(d, ops)| == |RunOps(e, ops)| == |d|
    ensures RunOps(d, ops)[i] == RunOps(e, ops)[i]
    ensures !Covered(ops, i) ==> RunOps(d, ops)[i] == d[i]
    decreases |ops|
  {
    RunLength(d, ops);
    RunLength(e, ops);
    if ops != [] {
      InsideTail(ops, |d|);
      CoveredTail(ops, i);
      RunOpByte(d, ops[0], i);
      RunOpByte(e, ops[0], i);
      hide RunOp, Inside, Covered;
      RunByte(RunOp(d, ops[0]), RunOp(e, ops[0]), ops[1..], i);
    }
  }

  // ---- Crashes ----

  /** The power goes after `k` operations, or during operation `k`, a write whose
      bytes are then anything. */
  datatype Crash = Cut(k: nat) | Torn(k: nat, bytes: Buf)

  predicate CrashOf(ops: seq<DevOp>, c: Crash) {
    c.k <= |ops| && (c.Torn? ==> c.k < |ops| && ops[c.k].Write? && |ops[c.k].bytes| == |c.bytes|)
  }

  function CrashState(d: Buf, ops: seq<DevOp>, c: Crash): Buf
    requires CrashOf(ops, c)
  {
    var before := RunOps(d, ops[..c.k]);
    if c.Cut? then before else RunOp(before, Write(ops[c.k].off, c.bytes))
  }

  lemma {:induction false} InsidePrefix(ops: seq<DevOp>, n: nat, k: nat)
    requires Inside(ops, n) && k <= |ops|
    ensures Inside(ops[..k], n)
  {
  }

  /** From whatever a crash left of a list of writes, running the whole list again
      gives what one uninterrupted run gives. */
  lemma RunAgain(d: Buf, ops: seq<DevOp>, c: Crash)
    requires Inside(ops, |d|) && CrashOf(ops, c)
    ensures |CrashState(d, ops, c)| == |d|
    ensures RunOps(CrashState(d, ops, c), ops) == RunOps(d, ops)
  {
    var before, e := RunOps(d, ops[..c.k]), CrashState(d, ops, c);
    InsidePrefix(ops, |d|, c.k);
    RunLength(d, ops[..c.k]);
    assert |e| == |d|;
    RunLength(d, ops);
    RunLength(e, ops);
    forall i | 0 <= i < |d|
      ensures RunOps(e, ops)[i] == RunOps(d, ops)[i]
    {
      if !Covered(ops, i) {
        CrashByte(d, ops, c, i);
      }
      RunByte(e, d, ops, i);
    }
  }

  lemma CrashByte(d: Buf, ops: seq<DevOp>, c: Crash, i: nat)
    requires Inside(ops, |d|) && CrashOf(ops, c) && i < |d| && !Covered(ops, i)
    ensures |CrashState(d, ops, c)| == |d| && CrashState(d, ops, c)[i] == d[i]
  {
    var before := RunOps(d, ops[..c.k]);
    InsidePrefix(ops, |d|, c.k);
    RunLength(d, ops[..c.k]);
    assert !Covered(ops[..c.k], i) by {
      assert forall k :: 0 <= k < c.k ==> !Touches(ops[..c.k][k], i);
    }
    RunByte(d, d, ops[..c.k], i);
    if c.Torn? {
      assert !Touches(ops[c.k], i);
      RunOpByte(before, Write(ops[c.k].off, c.bytes), i);
    }
  }

  // ---- Crashes of one list of operations after another ----

  function Shifted(c: Crash, n: nat): Crash
    requires c.k >= n
  {
    if c.Cut? then Cut(c.k - n) else Torn(c.k - n, c.bytes)
  }

  /** A crash in the first list. */
  lemma CrashSooner(d: Buf, a: seq<DevOp>, b: seq<DevOp>, c: Crash)
    requires CrashOf(a + b, c) && c.k < |a|
    ensures CrashOf(a, c) && CrashState(d, a + b, c) == CrashState(d, a, c)
    ensures RunOps(d, (a + b)[..c.k]) == RunOps(d, a[..c.k]) && (a + b)[c.k] == a[c.k]
  {
    hide RunOps, RunOp;
    assert (a + b)[..c.k] == a[..c.k];
  }

  /** A crash in the second. */
  lemma CrashLater(d: Buf, a: seq<DevOp>, b: seq<DevOp>, c: Crash)
    requires CrashOf(a + b, c) && c.k >= |a|
    ensures CrashOf(b, Shifted(c, |a|)) && CrashState(d, a + b, c) == CrashState(RunOps(d, a), b, Shifted(c, |a|))
    ensures RunOps(d, (a + b)[..c.k]) == RunOps(RunOps(d, a), b[..c.k - |a|])
    ensures c.Torn? ==> (a + b)[c.k] == b[c.k - |a|]
  {
    hide RunOps, RunOp;
    assert (a + b)[..c.k] == a + b[..c.k - |a|];
    RunConcat(d, a, b[..c.k - |a|]);
  }

  /** A device of at most `capacity` bytes, below 2^63 as a file's length is. The
      ghost trace is every operation it has carried out. */
  class Device {
    var data: Buf
    const capacity: nat
    ghost var trace: seq<DevOp>

    ghost predicate Valid()
      reads this
    {
      |data| <= capacity < 0x8000_0000_0000_0000
    }

    constructor (data: Buf, capacity: nat)
      requires |data| <= capacity < 0x8000_0000_0000_0000
      ensures Valid() && this.data == data && this.capacity == capacity && trace == []
    {
      this.data, this.capacity, this.trace := data, capacity, [];
    }

    method ReadAt(off: nat, n: nat) returns (r: Result<Buf>)
      ensures r.Ok? <==> off + n <= |data|
      ensures r.Ok? ==> r.value == data[off..off + n]
      ensures r.Err? ==> r.error == Io
    {
      if off + n > |data| {
        return Err(Io);
      }
      return Ok(data[off..off + n]);
    }

    method WriteAt(off: nat, b: Buf) returns (r: Result<()>)
      requires Valid()
      modifies this
      ensures Valid() && data == RunOp(old(data), Write(off, b)) && |data| == |old(data)|
      ensures r == if off + |b| <= |old(data)| then Ok(()) else Err(Io)
      ensures trace == old(trace) + if r.Ok? then [Write(off, b)] else []
      ensures r.Err? ==> data == old(data)
    {
      if off + |b| > |data| {
        return Err(Io);
      }
      data := Splice(data, off, b);
      trace := trace + [Write(off, b)];
      return Ok(());
    }

    method Extend(n: nat) returns (r: Result<()>)
      requires Valid() && n >= |data|
      modifies this
      ensures Valid()
      ensures r == if n <= capacity then Ok(()) else Err(Io)
      ensures r.Ok? ==> data == RunOp(old(data), SetLen(n)) && trace == old(trace) + [SetLen(n)]
      ensures r.Err? ==> data == old(data) && trace == old(trace)
    {
      if n > capacity {
        return Err(Io);
      }
      data := data + Zeros(n - |data|);
      trace := trace + [SetLen(n)];
      return Ok(());
    }

    method FlushAll()
      requires Valid()
      modifies this
      ensures Valid() && data == old(data) && trace == old(trace) + [Flush]
    {
      trace := trace + [Flush];
    }
  }
}
