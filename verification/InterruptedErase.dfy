/** Recovery cut in its erase, whoever wrote the log: the erase goes through it a megabyte
    at a time from its start. What is then collected, and when the reopen still ends
    where the one that was cut would have. */
module InterruptedErase {
  import opened Bytes
  import opened LogFormat
  import opened LogScan
  import opened LogChain
  import opened ReopenCrash

  // ---- What a scan finds in a log that has lost its first `p` bytes ----

  /** A slot's entry goes round the end of the log. */
  predicate Wraps(log: Buf, pos: nat, guid: Guid) {
    Candidate(log, pos, guid) && pos + DeclaredLength(log, pos) > |log|
  }

  /** Where a scan that takes no entry going round the end probes after `pos`. */
  function NextWhole(log: Buf, guid: Guid, pos: nat): (n: nat)
    ensures n >= pos + SECTOR
  {
    if Wraps(log, pos, guid) then pos + SECTOR else Next(log, guid, pos)
  }

  /** What such a scan finds from `pos` on. */
  function ScanWhole(log: Buf, guid: Guid, pos: nat): seq<LogEntry>
    decreases |log| - pos
  {
    if pos + SECTOR > |log| then []
    else
      var rest := ScanWhole(log, guid, NextWhole(log, guid, pos));
      match Examine(log, pos, guid)
      case Entry(e) => if Wraps(log, pos, guid) then rest else [e] + rest
      case Refused(_) => rest
  }

  /** An entry going round the end does not pass its checks once its other part is
      erased. */
  ghost predicate WrapsDetected(log: Buf, guid: Guid, p: nat)
    requires p <= |log|
  {
    forall pos :: p <= pos && pos % SECTOR == 0 && Wraps(log, pos, guid) ==> Examine(Wiped(log, p), pos, guid).Refused?
  }

  /** A slot past what has been erased is what it was, if its entry does not wrap. */
  lemma ExamineWiped(log: Buf, guid: Guid, p: nat, pos: nat)
    requires p <= pos && p <= |log| && !Wraps(log, pos, guid)
    ensures Examine(Wiped(log, p), pos, guid) == Examine(log, pos, guid)
  {
    hide Decode, LeNat;
    var after := Wiped(log, p);
    if pos + SECTOR <= |log| {
      assert after[pos..pos + 4] == log[pos..pos + 4];
      assert after[pos + 8..pos + 12] == log[pos + 8..pos + 12];
      assert after[pos + 32..pos + 48] == log[pos + 32..pos + 48];
      if Candidate(log, pos, guid) {
        var n := DeclaredLength(log, pos);
        assert after[pos..pos + n] == log[pos..pos + n];
      }
    }
  }

  lemma NextMultipleBelow(a: nat, p: nat)
    requires a % SECTOR == 0 && p % SECTOR == 0 && a < p
    ensures a + SECTOR <= p
  {
  }

  lemma BeyondEnd(log: Buf, guid: Guid, p: nat)
    requires p + SECTOR > |log|
    ensures ScanWhole(log, guid, p) == []
  {
  }

  /** A scan of what is left is a scan of what was there, from the first byte left on,
      that takes no entry going round the end. */
  lemma {:induction false} ScanWiped(log: Buf, guid: Guid, p: nat, pos: nat)
    requires p <= |log| && p % SECTOR == 0 && pos % SECTOR == 0 && WrapsDetected(log, guid, p)
    ensures Scan(Wiped(log, p), guid, pos) == ScanWhole(log, guid, if pos < p then p else pos)
    decreases |log| - pos
  {
    hide Examine, Candidate, DeclaredLength, Wiped, HasSignature, Wraps;
    var after := Wiped(log, p);
    if pos + SECTOR <= |log| {
      AcceptedWhole(after, pos, guid);
      ScanWiped(log, guid, p, Next(after, guid, pos));
      if pos < p {
        WipedSlot(log, p, pos);
        NoSignatureRefused(after, pos, guid);
        NextMultipleBelow(pos, p);
      } else if !Wraps(log, pos, guid) {
        ExamineWiped(log, guid, p, pos);
      }
    } else if pos < p {
      NextMultipleBelow(pos, p);
      BeyondEnd(log, guid, p);
    }
  }

  /** What is collected from a log whose first `p` bytes are erased, for any log: a
      refusal if checking what is left costs too much, and otherwise what is selected
      from the entries left whole. */
  lemma CollectWiped(log: Buf, guid: Guid, p: nat)
    requires p <= |log| && p % SECTOR == 0 && WrapsDetected(log, guid, p) && !IsZeroGuid(guid)
    ensures Collect(Wiped(log, p), guid)
      == if ScanCost(Wiped(log, p), guid) > PASSES * |log| then Err(Corrupt) else Select(|log|, ScanWhole(log, guid, p))
  {
    hide Examine, Candidate, DeclaredLength, Wiped, Select, Scan, ScanWhole, ScanCost, WrapsDetected;
    ScanWiped(log, guid, p, 0);
  }

  // ---- When the whole chain is found again ----

  /** Every slot that is left whole was found before: none lay inside another entry. */
  ghost predicate NothingHidden(log: Buf, guid: Guid, p: nat) {
    forall e :: e in ScanWhole(log, guid, p) ==> e in Scan(log, guid, 0)
  }

  /** An entry lies past what has been erased, and in one stretch. */
  predicate Left(log: Buf, e: LogEntry, p: nat) { e.pos >= p && e.pos + e.header.entryLength <= |log| }

  lemma {:induction false} ScanWholeEach(log: Buf, guid: Guid, pos: nat, e: LogEntry)
    requires e in ScanWhole(log, guid, pos)
    ensures Left(log, e, pos) && e.pos % SECTOR == pos % SECTOR && Examine(log, e.pos, guid) == Entry(e)
    ensures e.pos + SECTOR <= |log| && SECTOR <= e.header.entryLength <= |log|
    decreases |log| - pos
  {
    hide Examine, Candidate, DeclaredLength;
    AcceptedIsCandidate(log, pos, guid);
    AcceptedWhole(log, pos, guid);
    if !(Examine(log, pos, guid).Entry? && !Wraps(log, pos, guid) && e == Examine(log, pos, guid).entry) {
      ScanWholeEach(log, guid, NextWhole(log, guid, pos), e);
    }
  }

  lemma {:induction false} ScanWholePlaces(log: Buf, guid: Guid, pos: nat)
    ensures var s := ScanWhole(log, guid, pos);
      WellPlaced(s, |log|)
      && forall e :: e in s ==>
           Left(log, e, pos) && e.pos % SECTOR == pos % SECTOR && Examine(log, e.pos, guid) == Entry(e)
    decreases |log| - pos
  {
    hide Examine, Candidate, DeclaredLength, Wraps;
    forall e | e in ScanWhole(log, guid, pos)
      ensures Left(log, e, pos) && e.pos % SECTOR == pos % SECTOR && Examine(log, e.pos, guid) == Entry(e)
      ensures e.pos + SECTOR <= |log| && SECTOR <= e.header.entryLength <= |log|
    {
      ScanWholeEach(log, guid, pos, e);
    }
    if pos + SECTOR <= |log| {
      AcceptedIsCandidate(log, pos, guid);
      ScanWholePlaces(log, guid, NextWhole(log, guid, pos));
    }
  }

  lemma {:induction false} ScanWholeComplete(log: Buf, guid: Guid, pos: nat, q: nat)
    requires q >= pos && q % SECTOR == pos % SECTOR && Examine(log, q, guid).Entry? && !Wraps(log, q, guid)
    ensures exists e :: e in ScanWhole(log, guid, pos) && e.pos <= q < e.pos + e.header.entryLength
    decreases |log| - pos
  {
    hide Examine, Candidate, DeclaredLength, Wraps;
    AcceptedIsCandidate(log, q, guid);
    AcceptedIsCandidate(log, pos, guid);
    AcceptedFits(log, q, guid);
    AcceptedWhole(log, pos, guid);
    var next := NextWhole(log, guid, pos);
    if q >= next {
      ScanWholeComplete(log, guid, next, q);
      var e :| e in ScanWhole(log, guid, next) && e.pos <= q < e.pos + e.header.entryLength;
      assert e in ScanWhole(log, guid, pos);
    } else {
      NextMultipleAt(pos, q);
      var r := Examine(log, pos, guid);
      assert r.Entry? && r.entry in ScanWhole(log, guid, pos);
    }
  }

  lemma NextMultipleAt(pos: nat, q: nat)
    requires pos <= q && q % SECTOR == pos % SECTOR
    ensures q == pos || q >= pos + SECTOR
  {
  }

  /** With nothing hidden, what is left whole of what was found is what is found. */
  lemma LeftIsFound(log: Buf, guid: Guid, p: nat, e: LogEntry)
    requires p % SECTOR == 0 && NothingHidden(log, guid, p)
    ensures e in ScanWhole(log, guid, p) <==> e in Scan(log, guid, 0) && Left(log, e, p)
  {
    hide Examine, WellPlaced;
    ScanPlaces(log, guid, 0);
    ScanWholePlaces(log, guid, p);
    if e in Scan(log, guid, 0) && Left(log, e, p) {
      AcceptedEntry(log, e.pos, guid);
      hide Candidate, DeclaredLength;
      ScanWholeComplete(log, guid, p, e.pos);
      var other :| other in ScanWhole(log, guid, p) && other.pos <= e.pos < other.pos + other.header.entryLength;
      NoOverlap(Scan(log, guid, 0), |log|, other, e);
    }
  }

  lemma NoOverlap(found: seq<LogEntry>, size: nat, a: LogEntry, b: LogEntry)
    requires WellPlaced(found, size) && a in found && b in found && a.pos <= b.pos < a.pos + a.header.entryLength
    ensures a == b
  {
    var i :| 0 <= i < |found| && found[i] == a;
    var j :| 0 <= j < |found| && found[j] == b;
  }

  /** A chain is selected from some entries exactly when it is the maximal run among
      them from where their highest-numbered one says. */
  lemma SelectsExactly(size: nat, found: seq<LogEntry>, c: seq<LogEntry>)
    requires WellPlaced(found, size) && found != [] && c != []
    ensures Select(size, found) == Ok(c)
      <==> IsRun(size, found, Head(found).header.tail, c)
           && forall r :: IsRun(size, found, Head(found).header.tail, r) ==> r <= c
  {
    hide Select, WellPlaced, Head, IsRun;
    SelectedChain(size, found);
    var tail := Head(found).header.tail;
    if IsRun(size, found, tail, c) && forall r :: IsRun(size, found, tail, r) ==> r <= c {
      RunStarts(size, found, tail, c);
      assert c[0] in c && c[0] in found;
      var other := Select(size, found).value;
      assert other <= c && c <= other;
      assert other == c[..|other|] == c;
      assert Select(size, found) == Ok(other);
    }
  }

  lemma RunAmong(size: nat, found: seq<LogEntry>, more: seq<LogEntry>, start: nat, c: seq<LogEntry>)
    requires IsRun(size, found, start, c) && forall e :: e in c ==> e in more
    ensures IsRun(size, more, start, c)
  {
    hide Follows;
  }

  /** From fewer entries the same chain is selected exactly when all of it is among them
      and their highest-numbered one names its beginning. */
  lemma SelectsSame(size: nat, found: seq<LogEntry>, fewer: seq<LogEntry>, chain: seq<LogEntry>)
    requires WellPlaced(found, size) && WellPlaced(fewer, size) && (forall e :: e in fewer ==> e in found)
    requires Select(size, found) == Ok(chain) && chain != []
    ensures Select(size, fewer) == Ok(chain)
      <==> fewer != [] && (forall e :: e in chain ==> e in fewer) && Head(fewer).header.tail == chain[0].pos
  {
    SelectedChain(size, found);
    SelectedChain(size, fewer);
    hide Select, WellPlaced, Head;
    if found != [] && fewer != [] {
      SelectsExactly(size, found, chain);
      SelectsExactly(size, fewer, chain);
      var tail := chain[0].pos;
      assert Head(found).header.tail == tail by { RunStarts(size, found, Head(found).header.tail, chain); }
      if Select(size, fewer) == Ok(chain) {
        RunStarts(size, fewer, Head(fewer).header.tail, chain);
      }
      if (forall e :: e in chain ==> e in fewer) && Head(fewer).header.tail == tail {
        RunAmong(size, found, fewer, tail, chain);
        forall r | IsRun(size, fewer, tail, r)
          ensures r <= chain
        {
          RunStarts(size, fewer, tail, r);
          RunAmong(size, fewer, found, tail, r);
        }
      }
    }
  }

  lemma RunStarts(size: nat, found: seq<LogEntry>, start: nat, c: seq<LogEntry>)
    requires IsRun(size, found, start, c)
    ensures c != [] && c[0].pos == start && forall e :: e in c ==> e in found
  {
    hide Follows;
  }

  /** Whatever of the chain's GUID the log held: after the cut nothing is collected
      exactly when no entry found is left whole, and the chain exactly when all of it
      is and the highest-numbered entry left still names its beginning. */
  lemma ChainSurvives(log: Buf, guid: Guid, chain: seq<LogEntry>, p: nat)
    requires p <= |log| && p % SECTOR == 0 && WrapsDetected(log, guid, p) && NothingHidden(log, guid, p)
      && !IsZeroGuid(guid)
    requires Collect(log, guid) == Ok(chain) && chain != [] && ScanCost(Wiped(log, p), guid) <= PASSES * |log|
    ensures Collect(Wiped(log, p), guid) == Ok([]) <==> forall e :: e in Scan(log, guid, 0) ==> !Left(log, e, p)
    ensures Collect(Wiped(log, p), guid) == Ok(chain)
      <==> (forall e :: e in chain ==> Left(log, e, p))
           && ScanWhole(log, guid, p) != [] && Head(ScanWhole(log, guid, p)).header.tail == chain[0].pos
  {
    hide Examine, Scan, ScanWhole, ScanCost, WrapsDetected, NothingHidden, Left, Wiped, WellPlaced, Select;
    var found, fewer := Scan(log, guid, 0), ScanWhole(log, guid, p);
    CollectWiped(log, guid, p);
    ScanPlaces(log, guid, 0);
    ScanWholePlaces(log, guid, p);
    forall e | e in fewer
      ensures e in found
    {
      LeftIsFound(log, guid, p, e);
    }
    SelectsSame(|log|, found, fewer, chain);
    SelectedChain(|log|, found);
    SelectedChain(|log|, fewer);
    RunStarts(|log|, found, Head(found).header.tail, chain);
    forall e | e in found
      ensures e in fewer <==> Left(log, e, p)
    {
      LeftIsFound(log, guid, p, e);
    }
    if fewer != [] {
      assert fewer[0] in fewer;
    }
  }

  /** The highest-numbered entry, on a tie the first, is so among fewer if it is one of
      them. */
  lemma HeadAmong(size: nat, found: seq<LogEntry>, fewer: seq<LogEntry>)
    requires WellPlaced(found, size) && WellPlaced(fewer, size) && found != []
      && (forall e :: e in fewer ==> e in found)
    requires Head(found) in fewer
    ensures fewer != [] && Head(fewer) == Head(found)
  {
    var i, j := HeadIndex(found, |found|), HeadIndex(fewer, |fewer|);
    var k :| 0 <= k < |fewer| && fewer[k] == found[i];
    assert fewer[j] in fewer;
    var l :| 0 <= l < |found| && found[l] == fewer[j];
    if l != i {
      assert found[l].header.sequence == found[i].header.sequence;
    }
  }

  lemma HeadStays(log: Buf, guid: Guid, chain: seq<LogEntry>, p: nat)
    requires p % SECTOR == 0 && NothingHidden(log, guid, p) && Collect(log, guid) == Ok(chain) && chain != []
    requires Scan(log, guid, 0) != [] && Head(Scan(log, guid, 0)) in chain && !IsZeroGuid(guid)
    requires forall e :: e in chain ==> Left(log, e, p)
    ensures ScanWhole(log, guid, p) != [] && Head(ScanWhole(log, guid, p)).header.tail == chain[0].pos
  {
    hide Examine, Scan, ScanWhole, ScanCost, NothingHidden, Left, WellPlaced, Select, Head;
    var found, fewer := Scan(log, guid, 0), ScanWhole(log, guid, p);
    ScanPlaces(log, guid, 0);
    ScanWholePlaces(log, guid, p);
    SelectedChain(|log|, found);
    RunStarts(|log|, found, Head(found).header.tail, chain);
    forall e | e in fewer
      ensures e in found
    {
      LeftIsFound(log, guid, p, e);
    }
    LeftIsFound(log, guid, p, Head(found));
    HeadAmong(|log|, found, fewer);
  }

  /** When the chain runs up to the highest-numbered entry of the log, as it does if the
      log holds nothing newer, the cut is harmless exactly when none or all of it is
      left. */
  lemma NoneOrAll(log: Buf, guid: Guid, chain: seq<LogEntry>, p: nat)
    requires p <= |log| && p % SECTOR == 0 && WrapsDetected(log, guid, p) && NothingHidden(log, guid, p)
      && !IsZeroGuid(guid)
    requires Collect(log, guid) == Ok(chain) && chain != [] && ScanCost(Wiped(log, p), guid) <= PASSES * |log|
    requires Scan(log, guid, 0) != [] && Head(Scan(log, guid, 0)) in chain
    ensures Collect(Wiped(log, p), guid) in {Ok([]), Ok(chain)}
      <==> (forall e :: e in Scan(log, guid, 0) ==> !Left(log, e, p)) || (forall e :: e in chain ==> Left(log, e, p))
  {
    hide Examine, Scan, ScanWhole, ScanCost, WrapsDetected, NothingHidden, Left, Wiped, WellPlaced, Select, Head,
      Collect;
    ChainSurvives(log, guid, chain, p);
    if forall e :: e in chain ==> Left(log, e, p) {
      HeadStays(log, guid, chain, p);
    }
  }
}
