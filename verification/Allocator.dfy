/** Tail allocation by any number of writers at once: the steps `allocate_block_for`
    takes under the `dev_size` lock, interleaved in any order. */
module Allocator {
  import opened Bytes
  import opened Bat
  import opened Open
  import opened Reader

  /** Where a writer is between taking the lock and giving it back. */
  datatype Phase = Holding | Chosen(at: nat) | Grown(at: nat) | Raised(at: nat)

  /** The device's length, the bound the lock protects, who holds the lock, where each
      writer inside stands, and the blocks handed out so far. */
  datatype Shared = Shared(
    blockSize: nat, initial: nat, devLen: nat, devSize: nat, lock: Option<nat>, inside: map<nat, Phase>,
    handed: seq<nat>)

  datatype Event =
    | Acquire(w: nat)
    | Choose(w: nat)
    | Extend(w: nat, granted: bool)
    | Raise(w: nat)
    | Release(w: nat)

  function Start(blockSize: nat, size: nat): Shared {
    Shared(blockSize, size, size, size, None, map[], [])
  }

  predicate Enabled(s: Shared, e: Event) {
    match e
    case Acquire(w) => s.lock.None? && w !in s.inside
    case Choose(w) => w in s.inside && s.inside[w].Holding?
    case Extend(w, _) => w in s.inside && s.inside[w].Chosen?
    case Raise(w) => w in s.inside && s.inside[w].Grown?
    case Release(w) => w in s.inside && s.inside[w].Raised?
  }

  /** A refused extension gives the lock back and leaves both lengths alone. */
  function Apply(s: Shared, e: Event): Shared
    requires s.blockSize > 0 && Enabled(s, e)
  {
    match e
    case Acquire(w) => s.(lock := Some(w), inside := s.inside[w := Holding])
    case Choose(w) => s.(inside := s.inside[w := Chosen(AlignUp(s.devSize, s.blockSize))])
    case Extend(w, granted) =>
      var at := s.inside[w].at;
      if granted then s.(devLen := at + s.blockSize, inside := s.inside[w := Grown(at)])
      else s.(lock := None, inside := s.inside - {w})
    case Raise(w) =>
      var at := s.inside[w].at;
      s.(devSize := at + s.blockSize, inside := s.inside[w := Raised(at)])
    case Release(w) =>
      s.(lock := None, inside := s.inside - {w}, handed := s.handed + [s.inside[w].at])
  }

  lemma ApplyKeeps(s: Shared, e: Event)
    requires s.blockSize > 0 && Enabled(s, e)
    ensures Apply(s, e).blockSize == s.blockSize && Apply(s, e).initial == s.initial
  {
  }

  /** The events happen in this order, from `s` to `t`. */
  ghost predicate Run(s: Shared, es: seq<Event>, t: Shared)
    requires s.blockSize > 0
    decreases |es|
  {
    if es == [] then s == t
    else Enabled(s, es[0]) && Run(Apply(s, es[0]), es[1..], t)
  }

  /** The `k`th block a single writer would be given. */
  function Nth(size: nat, blockSize: nat, k: nat): nat
    requires blockSize > 0
  {
    if k == 0 then AlignUp(size, blockSize) else Nth(size, blockSize, k - 1) + blockSize
  }

  /** The bound once `k` blocks have been given out. */
  function BoundAfter(size: nat, blockSize: nat, k: nat): nat
    requires blockSize > 0
  {
    if k == 0 then size else Nth(size, blockSize, k - 1) + blockSize
  }

  lemma {:induction false} NthFacts(size: nat, blockSize: nat, k: nat)
    requires LegalBlockSize(blockSize) && blockSize > 0
    ensures Nth(size, blockSize, k) >= size && Nth(size, blockSize, k) % blockSize == 0
    ensures AlignUp(BoundAfter(size, blockSize, k), blockSize) == Nth(size, blockSize, k)
    ensures size <= BoundAfter(size, blockSize, k) <= Nth(size, blockSize, k)
    decreases k
  {
    hide AlignUp, LegalBlockSize;
    if k == 0 {
      AlignedUp(size, blockSize);
    } else {
      NthFacts(size, blockSize, k - 1);
      var r := Nth(size, blockSize, k - 1);
      assert (r + blockSize) % blockSize == 0 by { Wraps(r, blockSize); }
      AlignedFixed(r + blockSize, blockSize);
    }
  }

  lemma Wraps(r: nat, blockSize: nat)
    requires blockSize > 0 && r % blockSize == 0
    ensures (r + blockSize) % blockSize == 0
  {
    DivModUnique(r + blockSize, blockSize, r / blockSize + 1, 0);
  }

  lemma AlignedFixed(r: nat, blockSize: nat)
    requires blockSize > 0 && r % blockSize == 0
    ensures AlignUp(r, blockSize) == r
  {
    DivModUnique(r + (blockSize - 1), blockSize, r / blockSize, blockSize - 1);
  }

  /** How many blocks the bound accounts for. */
  function Counted(s: Shared): nat {
    if s.lock.Some? && s.lock.value in s.inside && s.inside[s.lock.value].Raised? then |s.handed| + 1 else |s.handed|
  }

  /** Only the holder is inside; the bound never names bytes the device lacks, and
      equals its length unless the holder is between growing and raising; and what has
      been handed out is what one writer alone would have been given. */
  ghost predicate Safe(s: Shared) {
    LegalBlockSize(s.blockSize)
    && (forall w :: w in s.inside <==> s.lock == Some(w))
    && s.devSize == BoundAfter(s.initial, s.blockSize, Counted(s))
    && (forall i :: 0 <= i < |s.handed| ==> s.handed[i] == Nth(s.initial, s.blockSize, i))
    && (s.lock.None? ==> s.devLen == s.devSize)
    && (s.lock.Some? ==>
          var p, next := s.inside[s.lock.value], Nth(s.initial, s.blockSize, |s.handed|);
          (p.Holding? ==> s.devLen == s.devSize)
          && (p.Chosen? ==> p.at == next && s.devLen == s.devSize)
          && (p.Grown? ==> p.at == next && s.devLen == next + s.blockSize)
          && (p.Raised? ==> p.at == next && s.devLen == s.devSize))
  }

  lemma StartSafe(blockSize: nat, size: nat)
    requires LegalBlockSize(blockSize)
    ensures Safe(Start(blockSize, size))
  {
    hide LegalBlockSize, Nth;
  }

  lemma StepSafe(s: Shared, e: Event)
    requires Safe(s) && s.blockSize > 0 && Enabled(s, e)
    ensures Safe(Apply(s, e))
  {
    hide AlignUp, LegalBlockSize;
    NthFacts(s.initial, s.blockSize, |s.handed|);
    hide Nth;
    var t := Apply(s, e);
    if e.Release? {
      assert t.handed[..|s.handed|] == s.handed;
    }
  }

  lemma {:induction false} RunSafe(s: Shared, es: seq<Event>, t: Shared)
    requires Safe(s) && s.blockSize > 0 && Run(s, es, t)
    ensures Safe(t) && t.blockSize == s.blockSize && t.initial == s.initial
    decreases |es|
  {
    hide Safe, Apply, Enabled;
    if es != [] {
      StepSafe(s, es[0]);
      ApplyKeeps(s, es[0]);
      RunSafe(Apply(s, es[0]), es[1..], t);
    }
  }

  lemma {:induction false} NthIncreases(size: nat, blockSize: nat, i: nat, j: nat)
    requires blockSize > 0 && i < j
    ensures Nth(size, blockSize, i) + blockSize <= Nth(size, blockSize, j)
    decreases j
  {
    if i + 1 < j {
      NthIncreases(size, blockSize, i, j - 1);
    }
  }

  lemma NthBelowBound(s: Shared, i: nat)
    requires Safe(s) && s.blockSize > 0 && i < |s.handed|
    ensures Nth(s.initial, s.blockSize, i) + s.blockSize <= s.devSize
  {
    hide LegalBlockSize;
    var last := Counted(s) - 1;
    assert s.devSize == Nth(s.initial, s.blockSize, last) + s.blockSize;
    if i < last {
      NthIncreases(s.initial, s.blockSize, i, last);
    }
  }

  /** Whatever the interleaving: the blocks handed out are aligned, past the size at
      open, inside the device and pairwise apart; while the lock is free the bound is
      the device's length, and it is never more than that. */
  lemma AllocationIsSafe(blockSize: nat, size: nat, es: seq<Event>, t: Shared)
    requires LegalBlockSize(blockSize) && blockSize > 0 && Run(Start(blockSize, size), es, t)
    ensures forall i :: 0 <= i < |t.handed| ==>
      t.handed[i] % blockSize == 0 && size <= t.handed[i] && t.handed[i] + blockSize <= t.devSize
    ensures forall i, j :: 0 <= i < |t.handed| && 0 <= j < |t.handed| && i != j ==>
      t.handed[i] + blockSize <= t.handed[j] || t.handed[j] + blockSize <= t.handed[i]
    ensures t.devSize <= t.devLen && (t.lock.None? ==> t.devSize == t.devLen)
  {
    hide LegalBlockSize, Run, AlignUp;
    StartSafe(blockSize, size);
    RunSafe(Start(blockSize, size), es, t);
    forall i | 0 <= i < |t.handed|
      ensures t.handed[i] % blockSize == 0 && size <= t.handed[i] && t.handed[i] + blockSize <= t.devSize
    {
      NthFacts(size, blockSize, i);
      NthBelowBound(t, i);
    }
    forall i, j | 0 <= i < j < |t.handed|
      ensures t.handed[i] + blockSize <= t.handed[j]
    {
      NthIncreases(size, blockSize, i, j);
    }
    NthFacts(size, blockSize, |t.handed|);
  }

  /** The blocks handed out do not depend on the interleaving, only on how many there
      were. */
  lemma InterleavingIsSerial(blockSize: nat, size: nat, es: seq<Event>, t: Shared, fs: seq<Event>, u: Shared)
    requires LegalBlockSize(blockSize) && blockSize > 0
    requires Run(Start(blockSize, size), es, t) && Run(Start(blockSize, size), fs, u) && |t.handed| <= |u.handed|
    ensures t.handed == u.handed[..|t.handed|]
  {
    hide LegalBlockSize, Run, Nth;
    StartSafe(blockSize, size);
    RunSafe(Start(blockSize, size), es, t);
    RunSafe(Start(blockSize, size), fs, u);
  }

  /** A refused extension changes neither length and lets the next writer in. */
  lemma RefusalChangesNothing(s: Shared, w: nat)
    requires Safe(s) && s.blockSize > 0 && Enabled(s, Extend(w, false))
    ensures var t := Apply(s, Extend(w, false));
      t.devLen == s.devLen && t.devSize == s.devSize && t.devLen == t.devSize && t.handed == s.handed
      && forall v :: Enabled(t, Acquire(v))
  {
    hide LegalBlockSize, Nth;
  }

  /** A writer alone is given the block, and leaves the bound, that the reader's own
      allocation does. */
  lemma AloneIsAllocate(st: ReaderState, w: nat, t: Shared)
    requires st.geometry.blockSize > 0
    requires Run(Start(st.geometry.blockSize, st.devSize),
      [Acquire(w), Choose(w), Extend(w, true), Raise(w), Release(w)], t)
    ensures t.handed == [AlignUp(st.devSize, st.geometry.blockSize)] && t.devSize == t.devLen == NewSize(st)
  {
    hide AlignUp, Run, Apply, Enabled;
    var s := Start(st.geometry.blockSize, st.devSize);
    var a := RunFirst(s, [Acquire(w), Choose(w), Extend(w, true), Raise(w), Release(w)], t);
    var b := RunFirst(a, [Choose(w), Extend(w, true), Raise(w), Release(w)], t);
    var c := RunFirst(b, [Extend(w, true), Raise(w), Release(w)], t);
    var d := RunFirst(c, [Raise(w), Release(w)], t);
    var e := RunFirst(d, [Release(w)], t);
    AloneSteps(s, w, a, b, c, d, e);
    assert [Release(w)][1..] == [];
    RunOver(e, t);
  }

  lemma RunFirst(s: Shared, es: seq<Event>, t: Shared) returns (next: Shared)
    requires s.blockSize > 0 && es != [] && Run(s, es, t)
    ensures Enabled(s, es[0]) && next == Apply(s, es[0]) && next.blockSize == s.blockSize && Run(next, es[1..], t)
  {
    hide Apply, Enabled;
    ApplyKeeps(s, es[0]);
    next := Apply(s, es[0]);
  }

  lemma RunOver(s: Shared, t: Shared)
    requires s.blockSize > 0 && Run(s, [], t)
    ensures s == t
  {
  }

  lemma AloneSteps(s: Shared, w: nat, a: Shared, b: Shared, c: Shared, d: Shared, e: Shared)
    requires s.blockSize > 0 && Enabled(s, Acquire(w)) && a == Apply(s, Acquire(w))
    requires a.blockSize > 0 && Enabled(a, Choose(w)) && b == Apply(a, Choose(w))
    requires b.blockSize > 0 && Enabled(b, Extend(w, true)) && c == Apply(b, Extend(w, true))
    requires c.blockSize > 0 && Enabled(c, Raise(w)) && d == Apply(c, Raise(w))
    requires d.blockSize > 0 && Enabled(d, Release(w)) && e == Apply(d, Release(w))
    ensures var at := AlignUp(s.devSize, s.blockSize);
      e.handed == s.handed + [at] && e.devSize == e.devLen == at + s.blockSize
  {
    hide AlignUp;
  }
}
