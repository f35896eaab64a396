/** Selecting the active chain (src/log.rs; sections 2.3.2 and 2.3.3 of MS-VHDX)
    among the entries discovery found. */
module LogChain {
  import opened Bytes
  import opened LogFormat
  import opened LogScan

  predicate IsZeroGuid(g: Guid) { g == Zeros(16) }

  /** `b` begins where `a` ended, counted round the end of the region, and carries
      the next sequence number. */
  predicate Follows(size: nat, a: LogEntry, b: LogEntry) {
    var end := a.pos + a.header.entryLength;
    b.pos < size && (b.pos == end || b.pos + size == end) && b.header.sequence == a.header.sequence + 1
  }

  /** A run of entries among `found`, beginning at `start`. */
  ghost predicate IsRun(size: nat, found: seq<LogEntry>, start: nat, c: seq<LogEntry>) {
    c != [] && c[0].pos == start
    && (forall i :: 0 <= i < |c| ==> c[i] in found)
    && forall i :: 0 < i < |c| ==> Follows(size, c[i - 1], c[i])
  }

  /** The index of the highest sequence number among the first `n`, and on a tie
      of the lowest offset. */
  function HeadIndex(found: seq<LogEntry>, n: nat): (k: nat)
    requires 0 < n <= |found|
    ensures k < n
    ensures forall j :: 0 <= j < k ==> found[j].header.sequence < found[k].header.sequence
    ensures forall j :: k <= j < n ==> found[j].header.sequence <= found[k].header.sequence
  {
    if n == 1 then 0
    else
      var k := HeadIndex(found, n - 1);
      if found[n - 1].header.sequence > found[k].header.sequence then n - 1 else k
  }

  function Head(found: seq<LogEntry>): LogEntry
    requires found != []
  {
    found[HeadIndex(found, |found|)]
  }

  function EntryAt(found: seq<LogEntry>, pos: nat): (r: Option<LogEntry>)
    ensures r.Some? ==> r.value in found && r.value.pos == pos
    ensures r.None? ==> forall e :: e in found ==> e.pos != pos
  {
    if found == [] then None
    else if found[0].pos == pos then Some(found[0])
    else EntryAt(found[1..], pos)
  }

  /** The position after `e`, counted round the end of the region. */
  function After(size: nat, e: LogEntry): nat {
    var p := e.pos + e.header.entryLength;
    if p >= size then p - size else p
  }

  function Walk(size: nat, found: seq<LogEntry>, e: LogEntry): seq<LogEntry>
    decreases TWO64 - e.header.sequence
  {
    var next := EntryAt(found, After(size, e));
    if next.Some? && next.value.header.sequence == e.header.sequence + 1
    then [e] + Walk(size, found, next.value)
    else [e]
  }

  /** The active chain, or why there is none. */
  function Select(size: nat, found: seq<LogEntry>): Result<seq<LogEntry>> {
    if found == [] then Ok([])
    else
      match EntryAt(found, Head(found).header.tail)
      case None => Err(LogUnassembled)
      case Some(first) => Ok(Walk(size, found, first))
  }

  method SelectChain(size: nat, found: seq<LogEntry>) returns (r: Result<seq<LogEntry>>)
    ensures r == Select(size, found)
  {
    if found == [] {
      return Ok(found);
    }
    var head := found[0];
    var k := 1;
    while k < |found|
      invariant 1 <= k <= |found|
      invariant head == found[HeadIndex(found, k)]
    {
      if found[k].header.sequence > head.header.sequence {
        head := found[k];
      }
      k := k + 1;
    }
    var first := EntryAt(found, head.header.tail);
    if first.None? {
      return Err(LogUnassembled);
    }
    var chain := Follow(size, found, first.value);
    return Ok(chain);
  }

  /** The walk, and the stop. */
  method Follow(size: nat, found: seq<LogEntry>, first: LogEntry) returns (chain: seq<LogEntry>)
    requires EntryAt(found, first.pos) == Some(first)
    ensures chain == Walk(size, found, first)
  {
    chain := [];
    var pos, wanted := first.pos, None;
    ghost var stopped := false;
    var next := EntryAt(found, pos);
    while next.Some?
      invariant wanted.None? ==> next == Some(first) && chain == []
      invariant wanted.Some? ==> next == EntryAt(found, pos)
      invariant wanted.Some? ==>
        Walk(size, found, first)
        == if next.Some? && next.value.header.sequence == wanted.value then chain + Walk(size, found, next.value)
          else chain
      decreases if wanted.None? then TWO64 + 1 else TWO64 - wanted.value
    {
      var entry := next.value;
      if wanted.Some? && entry.header.sequence != wanted.value {
        break;
      }
      pos := After(size, entry);
      next := EntryAt(found, pos);
      ghost var before := chain;
      chain := chain + [entry];
      assert next.Some? ==> before + ([entry] + Walk(size, found, next.value)) == chain + Walk(size, found, next.value);
      if entry.header.sequence + 1 == TWO64 {
        break;
      }
      wanted := Some(entry.header.sequence + 1);
    }
  }

  // ---- What the selection is ----

  lemma OneEntryPerPosition(found: seq<LogEntry>, size: nat, a: LogEntry, b: LogEntry)
    requires WellPlaced(found, size) && a in found && b in found && a.pos == b.pos
    ensures a == b
  {
    var i :| 0 <= i < |found| && found[i] == a;
    var j :| 0 <= j < |found| && found[j] == b;
  }

  lemma AfterFollows(size: nat, found: seq<LogEntry>, e: LogEntry, b: LogEntry)
    requires WellPlaced(found, size) && e in found && b in found
    ensures Follows(size, e, b) <==> b.pos == After(size, e) && b.header.sequence == e.header.sequence + 1
  {
    var i :| 0 <= i < |found| && found[i] == e;
    var j :| 0 <= j < |found| && found[j] == b;
  }

  lemma {:induction false} WalkIsRun(size: nat, found: seq<LogEntry>, e: LogEntry)
    requires WellPlaced(found, size) && e in found
    ensures IsRun(size, found, e.pos, Walk(size, found, e)) && Walk(size, found, e)[0] == e
    decreases TWO64 - e.header.sequence
  {
    hide WellPlaced, After, Follows;
    var next := EntryAt(found, After(size, e));
    if next.Some? && next.value.header.sequence == e.header.sequence + 1 {
      WalkIsRun(size, found, next.value);
      AfterFollows(size, found, e, next.value);
    }
  }

  /** Every run from the entry the walk starts at is a prefix of the walk. */
  lemma {:induction false} RunIsPrefix(size: nat, found: seq<LogEntry>, e: LogEntry, r: seq<LogEntry>)
    requires WellPlaced(found, size) && e in found && IsRun(size, found, e.pos, r)
    ensures r <= Walk(size, found, e)
    decreases |r|
  {
    hide WellPlaced, After, Follows;
    OneEntryPerPosition(found, size, r[0], e);
    if |r| > 1 {
      AfterFollows(size, found, r[0], r[1]);
      var next := EntryAt(found, After(size, e));
      OneEntryPerPosition(found, size, r[1], next.value);
      RunTail(size, found, e.pos, r);
      RunIsPrefix(size, found, r[1], r[1..]);
      assert r == [e] + r[1..];
    }
  }

  lemma RunTail(size: nat, found: seq<LogEntry>, start: nat, r: seq<LogEntry>)
    requires IsRun(size, found, start, r) && |r| > 1
    ensures IsRun(size, found, r[1].pos, r[1..])
  {
    hide Follows;
    assert forall i :: 0 < i < |r| - 1 ==> r[1..][i - 1] == r[i] && r[1..][i] == r[i + 1];
  }

  lemma {:induction false} RunAscends(size: nat, found: seq<LogEntry>, start: nat, c: seq<LogEntry>, i: nat, j: nat)
    requires IsRun(size, found, start, c) && i <= j < |c|
    ensures c[j].header.sequence == c[i].header.sequence + (j - i)
    decreases j
  {
    if i < j {
      RunAscends(size, found, start, c, i, j - 1);
      assert Follows(size, c[j - 1], c[j]);
    }
  }

  /** Selection among what discovery found: empty exactly when nothing was found;
      refused exactly when no found entry starts at the head's tail; otherwise the
      one run from there that every other run is a prefix of, visiting no entry
      twice. */
  lemma SelectedChain(size: nat, found: seq<LogEntry>)
    requires WellPlaced(found, size)
    ensures Select(size, found) == Ok([]) <==> found == []
    ensures Select(size, found).Err? <==> found != [] && forall e :: e in found ==> e.pos != Head(found).header.tail
    ensures Select(size, found).Err? ==> Select(size, found).error == LogUnassembled
    ensures found != [] && Select(size, found).Ok? ==>
      var c := Select(size, found).value;
         IsRun(size, found, Head(found).header.tail, c)
         && (forall r :: IsRun(size, found, Head(found).header.tail, r) ==> r <= c)
         && forall i, j :: 0 <= i < j < |c| ==> c[i] != c[j]
  {
    if found != [] {
      var tail := Head(found).header.tail;
      var first := EntryAt(found, tail);
      if first.Some? {
        hide WellPlaced, Follows;
        WalkIsRun(size, found, first.value);
        var c := Walk(size, found, first.value);
        forall r | IsRun(size, found, tail, r)
          ensures r <= c
        {
          RunIsPrefix(size, found, first.value, r);
        }
        forall i, j | 0 <= i < j < |c|
          ensures c[i] != c[j]
        {
          RunAscends(size, found, tail, c, i, j);
        }
      }
    }
  }

  /** The replay chain of a region, or a refusal; never a part of it. */
  function Collect(log: Buf, guid: Guid): Result<seq<LogEntry>> {
    if IsZeroGuid(guid) then Ok([])
    else if ScanCost(log, guid) > PASSES * |log| then Err(Corrupt)
    else Select(|log|, Scan(log, guid, 0))
  }

  method CollectReplayChain(log: Buf, guid: Guid) returns (r: Result<seq<LogEntry>>)
    ensures r == Collect(log, guid)
  {
    if guid == Zeros(16) {
      return Ok([]);
    }
    var found, _, exhausted := Discover(log, guid);
    if exhausted {
      return Err(Corrupt);
    }
    r := SelectChain(|log|, found);
  }

  /** What a region gives, slot by slot: a refusal when checking every slot would cost
      more than the budget; nothing exactly when no slot of it holds a valid entry;
      otherwise valid entries only, or a refusal when the chain has no beginning. */
  lemma CollectedChain(log: Buf, guid: Guid)
    requires !IsZeroGuid(guid)
    ensures Collect(log, guid) == Err(Corrupt) <==> ScanCost(log, guid) > 4 * |log|
    ensures ScanCost(log, guid) <= 4 * |log| ==>
      (Collect(log, guid) == Ok([]) <==> forall p: nat :: p % SECTOR == 0 ==> Examine(log, p, guid).Refused?)
    ensures Collect(log, guid).Ok? ==> forall e :: e in Collect(log, guid).value ==>
      Examine(log, e.pos, guid) == Entry(e)
    ensures Collect(log, guid).Err? && Collect(log, guid).error != Corrupt ==>
      Collect(log, guid).error == LogUnassembled
  {
    hide Examine, ScanCost, WellPlaced, Select, IsRun;
    var found := Scan(log, guid, 0);
    ScanPlaces(log, guid, 0);
    SelectedChain(|log|, found);
    forall p: nat | p % SECTOR == 0 && Examine(log, p, guid).Entry?
      ensures found != []
    {
      ScanComplete(log, guid, 0, p);
    }
    if found != [] {
      assert found[0] in found;
      if Select(|log|, found).Ok? {
        RunFound(|log|, found, Head(found).header.tail, Select(|log|, found).value);
      }
    }
  }

  lemma RunFound(size: nat, found: seq<LogEntry>, start: nat, c: seq<LogEntry>)
    requires IsRun(size, found, start, c)
    ensures forall e :: e in c ==> e in found
  {
  }
}
