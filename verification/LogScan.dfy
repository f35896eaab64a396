/** Discovery (src/log.rs): probing every slot of the log region under a checksum
    budget, against a scan that has none. */
module LogScan {
  import opened Bytes
  import opened LogFormat

  const PASSES: nat := 4

  /** Where the scan probes after `pos`. */
  function Next(log: Buf, guid: Guid, pos: nat): (n: nat)
    ensures n >= pos + SECTOR
  {
    match Examine(log, pos, guid)
    case Entry(e) => AcceptedEntry(log, pos, guid); pos + e.header.entryLength
    case Refused(_) => pos + SECTOR
  }

  /** What a scan with no budget finds from `pos` on. */
  function Scan(log: Buf, guid: Guid, pos: nat): seq<LogEntry>
    decreases |log| - pos
  {
    if pos + SECTOR > |log| then []
    else
      var rest := Scan(log, guid, Next(log, guid, pos));
      match Examine(log, pos, guid)
      case Entry(e) => [e] + rest
      case Refused(_) => rest
  }

  /** The bytes such a scan checksums in slots it accepts. */
  function AcceptedCost(log: Buf, guid: Guid, pos: nat): nat
    decreases |log| - pos
  {
    if pos + SECTOR > |log| then 0
    else
      (if Examine(log, pos, guid).Entry? then DeclaredLength(log, pos) else 0)
      + AcceptedCost(log, guid, Next(log, guid, pos))
  }

  /** The bytes it checksums in slots of this chain that it then refuses. */
  function RefusedCost(log: Buf, guid: Guid, pos: nat): nat
    decreases |log| - pos
  {
    if pos + SECTOR > |log| then 0
    else
      (if Candidate(log, pos, guid) && Examine(log, pos, guid).Refused? then DeclaredLength(log, pos) else 0)
      + RefusedCost(log, guid, Next(log, guid, pos))
  }

  function ScanCost(log: Buf, guid: Guid): nat {
    AcceptedCost(log, guid, 0) + RefusedCost(log, guid, 0)
  }

  /** The budgeted scan finds exactly what the unbudgeted one does, or says that
      it ran out; and it runs out exactly when the unbudgeted scan costs more than
      four times the region. */
  method Discover(log: Buf, guid: Guid) returns (found: seq<LogEntry>, checksummed: nat, exhausted: bool)
    ensures checksummed <= 4 * |log|
    ensures exhausted <==> ScanCost(log, guid) > 4 * |log|
    ensures !exhausted ==> found == Scan(log, guid, 0) && checksummed == ScanCost(log, guid)
    ensures forall e :: e in found ==> Examine(log, e.pos, guid) == Entry(e)
  {
    hide Examine, Candidate, DeclaredLength;
    var allowance := |log| * PASSES;
    var budget := allowance;
    exhausted := false;
    found := [];
    var pos := 0;
    while pos + SECTOR <= |log|
      invariant 0 <= budget <= allowance
      invariant exhausted ==> ScanCost(log, guid) > allowance
      invariant !exhausted ==> found + Scan(log, guid, pos) == Scan(log, guid, 0)
      invariant !exhausted ==>
        allowance - budget + AcceptedCost(log, guid, pos) + RefusedCost(log, guid, pos) == ScanCost(log, guid)
      invariant forall e :: e in found ==> Examine(log, e.pos, guid) == Entry(e)
      decreases |log| - pos
    {
      var r;
      AcceptedIsCandidate(log, pos, guid);
      r, budget, exhausted := ParseLogEntry(log, pos, guid, budget, exhausted);
      match r {
        case Entry(e) =>
          pos := pos + e.header.entryLength;
          found := found + [e];
        case Refused(_) =>
          pos := pos + SECTOR;
      }
    }
    checksummed := allowance - budget;
  }

  lemma AcceptedIsCandidate(log: Buf, pos: nat, guid: Guid)
    ensures Examine(log, pos, guid).Entry? ==>
      Candidate(log, pos, guid)
      && var e := Examine(log, pos, guid).entry;
         e.pos == pos && e.header.entryLength == DeclaredLength(log, pos) && SECTOR <= e.header.entryLength <= |log|
         && e.header.entryLength % SECTOR == 0
  {
    if Examine(log, pos, guid).Entry? {
      AcceptedEntry(log, pos, guid);
    }
  }

  /** Entries as discovery leaves them: inside the region, in ascending order, no
      two overlapping short of the wrap. */
  ghost predicate WellPlaced(found: seq<LogEntry>, size: nat) {
    (forall i :: 0 <= i < |found| ==>
      found[i].pos + SECTOR <= size && SECTOR <= found[i].header.entryLength <= size)
    && forall i, j :: 0 <= i < j < |found| ==> found[i].pos + found[i].header.entryLength <= found[j].pos
  }

  lemma {:induction false} ScanPlaces(log: Buf, guid: Guid, pos: nat)
    ensures var s := Scan(log, guid, pos);
      WellPlaced(s, |log|)
      && forall e :: e in s ==> e.pos >= pos && e.pos % SECTOR == pos % SECTOR && Examine(log, e.pos, guid) == Entry(e)
    decreases |log| - pos
  {
    hide Examine, Candidate, DeclaredLength;
    if pos + SECTOR <= |log| {
      AcceptedIsCandidate(log, pos, guid);
      AcceptedWhole(log, pos, guid);
      ScanPlaces(log, guid, Next(log, guid, pos));
    }
  }

  lemma AcceptedWhole(log: Buf, pos: nat, guid: Guid)
    ensures Next(log, guid, pos) % SECTOR == pos % SECTOR
  {
    hide Examine, Candidate, DeclaredLength;
    AcceptedIsCandidate(log, pos, guid);
  }

  /** A valid entry on the scan's grid is missed only if it begins inside an entry
      that was accepted before it. */
  lemma {:induction false} ScanComplete(log: Buf, guid: Guid, pos: nat, p: nat)
    requires p >= pos && p % SECTOR == pos % SECTOR && Examine(log, p, guid).Entry?
    ensures exists e :: e in Scan(log, guid, pos) && e.pos <= p < e.pos + e.header.entryLength
    decreases |log| - pos
  {
    hide Examine, Candidate, DeclaredLength;
    AcceptedIsCandidate(log, p, guid);
    AcceptedIsCandidate(log, pos, guid);
    AcceptedFits(log, p, guid);
    AcceptedWhole(log, pos, guid);
    var next := Next(log, guid, pos);
    if p >= next {
      ScanComplete(log, guid, next, p);
      var e :| e in Scan(log, guid, next) && e.pos <= p < e.pos + e.header.entryLength;
      assert e in Scan(log, guid, pos);
    } else {
      var r := Examine(log, pos, guid);
      assert r.Entry? && r.entry in Scan(log, guid, pos);
    }
  }

  lemma AcceptedFits(log: Buf, pos: nat, guid: Guid)
    requires Examine(log, pos, guid).Entry?
    ensures pos + SECTOR <= |log|
  {
  }

  /** The entries accepted cost less than twice the region, even when the last one
      wraps. */
  lemma {:induction false} AcceptedBound(log: Buf, guid: Guid, pos: nat)
    ensures AcceptedCost(log, guid, pos) <= if pos + SECTOR > |log| then 0 else 2 * |log| - pos - SECTOR
    decreases |log| - pos
  {
    hide Examine, Candidate, DeclaredLength;
    if pos + SECTOR <= |log| {
      AcceptedIsCandidate(log, pos, guid);
      AcceptedBound(log, guid, Next(log, guid, pos));
    }
  }

  /** So the budget is adequate whenever the refused slots of this chain declare at
      most twice the region between them. */
  lemma BudgetAdequate(log: Buf, guid: Guid)
    requires RefusedCost(log, guid, 0) <= 2 * |log|
    ensures ScanCost(log, guid) <= 4 * |log|
  {
    AcceptedBound(log, guid, 0);
  }
}
