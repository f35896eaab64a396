/** What a replay makes of a log this writer has been using: every entry it writes is
    two sectors at the start of the region, under a GUID of its own. */
module LogState {
  import opened Bytes
  import opened LogFormat
  import opened LogScan
  import opened LogChain

  const ENTRY_SIZE: nat := 8192

  /** No slot past the writer's own two sectors claims to belong to `guid`. */
  ghost predicate RestClear(log: Buf, guid: Guid) {
    forall pos :: ENTRY_SIZE <= pos && pos % SECTOR == 0 && HasSignature(log, pos) ==> DeclaredGuid(log, pos) != guid
  }

  lemma RestRefused(log: Buf, guid: Guid, pos: nat)
    requires RestClear(log, guid) && pos >= ENTRY_SIZE && pos % SECTOR == 0
    ensures Examine(log, pos, guid).Refused? && !Candidate(log, pos, guid)
  {
    hide Decode;
  }

  lemma {:induction false} RestScan(log: Buf, guid: Guid, pos: nat)
    requires RestClear(log, guid) && pos >= ENTRY_SIZE && pos % SECTOR == 0
    ensures Scan(log, guid, pos) == [] && AcceptedCost(log, guid, pos) == 0 && RefusedCost(log, guid, pos) == 0
    decreases |log| - pos
  {
    if pos + SECTOR <= |log| {
      RestRefused(log, guid, pos);
      hide Examine, Candidate, RestClear;
      RestScan(log, guid, pos + SECTOR);
    }
  }

  lemma CostAtMost(log: Buf, guid: Guid, pos: nat)
    requires Candidate(log, pos, guid)
    ensures DeclaredLength(log, pos) <= |log|
  {
  }

  /** If neither of the writer's sectors holds an entry of this chain, nothing is
      pending. */
  lemma QuietCollect(log: Buf, guid: Guid)
    requires |log| >= ENTRY_SIZE && RestClear(log, guid)
    requires Examine(log, 0, guid).Refused? && Examine(log, SECTOR, guid).Refused?
    ensures Collect(log, guid) == Ok([])
  {
    hide Examine, RestClear;
    RestScan(log, guid, ENTRY_SIZE);
    if Candidate(log, 0, guid) {
      CostAtMost(log, guid, 0);
    }
    if Candidate(log, SECTOR, guid) {
      CostAtMost(log, guid, SECTOR);
    }
    hide Candidate;
    assert Next(log, guid, 0) == SECTOR && Next(log, guid, SECTOR) == ENTRY_SIZE;
    TwoSlots(log, guid);
  }

  lemma TwoSlots(log: Buf, guid: Guid)
    requires |log| >= ENTRY_SIZE && Examine(log, 0, guid).Refused? && Examine(log, SECTOR, guid).Refused?
    ensures Scan(log, guid, 0) == Scan(log, guid, ENTRY_SIZE)
    ensures AcceptedCost(log, guid, 0) == AcceptedCost(log, guid, ENTRY_SIZE)
    ensures RefusedCost(log, guid, 0) == RefusedCost(log, guid, ENTRY_SIZE)
      + (if Candidate(log, 0, guid) then DeclaredLength(log, 0) else 0)
      + (if Candidate(log, SECTOR, guid) then DeclaredLength(log, SECTOR) else 0)
  {
    hide Examine, Candidate;
    assert Next(log, guid, 0) == SECTOR && Next(log, guid, SECTOR) == ENTRY_SIZE;
    assert Scan(log, guid, SECTOR) == Scan(log, guid, ENTRY_SIZE);
    assert AcceptedCost(log, guid, SECTOR) == AcceptedCost(log, guid, ENTRY_SIZE);
  }

  /** The one entry this writer leaves in the log. */
  function OwnEntry(sequence: u64, guid: Guid, size: u64, w: PendingWrite): (b: Buf)
    ensures |b| == ENTRY_SIZE
  {
    assert RoundUpSector(ENTRY_HEADER + 1 * DESCRIPTOR) == SECTOR;
    EncodedEntry(sequence, 0, guid, size, size, [w])
  }

  function OwnParsed(sequence: u64, guid: Guid, size: u64, w: PendingWrite): LogEntry {
    LogEntry(LogEntryHeader(ENTRY_SIZE, 0, sequence, 1, guid, size, size), [SentDescriptor(w, sequence)], 0)
  }

  lemma OwnExamined(log: Buf, sequence: u64, guid: Guid, size: u64, w: PendingWrite)
    requires |log| >= ENTRY_SIZE && log[..ENTRY_SIZE] == OwnEntry(sequence, guid, size, w)
    ensures Examine(log, 0, guid) == Entry(OwnParsed(sequence, guid, size, w))
  {
    hide EncodedEntry, Examine;
    assert RoundUpSector(ENTRY_HEADER + 1 * DESCRIPTOR) == SECTOR;
    assert Circular(log, 0, ENTRY_SIZE) == log[..ENTRY_SIZE];
    RegionHoldsEntry(log, 0, sequence, 0, guid, size, size, [w]);
    assert SentDescriptors([w], sequence) == [SentDescriptor(w, sequence)];
  }

  /** With its GUID in the header, that entry is the whole chain. */
  lemma OwnCollect(log: Buf, sequence: u64, guid: Guid, size: u64, w: PendingWrite)
    requires |log| > ENTRY_SIZE && log[..ENTRY_SIZE] == OwnEntry(sequence, guid, size, w)
    requires RestClear(log, guid) && !IsZeroGuid(guid)
    ensures Collect(log, guid) == Ok([OwnParsed(sequence, guid, size, w)])
  {
    hide Examine, RestClear, OwnEntry;
    var e := OwnParsed(sequence, guid, size, w);
    OwnExamined(log, sequence, guid, size, w);
    AcceptedIsCandidate(log, 0, guid);
    RestScan(log, guid, ENTRY_SIZE);
    hide Candidate, DeclaredLength;
    assert Next(log, guid, 0) == ENTRY_SIZE;
    assert Scan(log, guid, 0) == [e];
    assert ScanCost(log, guid) == ENTRY_SIZE;
    OneEntryChain(|log|, e);
  }

  lemma OneEntryChain(size: nat, e: LogEntry)
    requires e.pos == 0 && e.header.tail == 0 && 0 < e.header.entryLength < size
    ensures Select(size, [e]) == Ok([e])
  {
    assert EntryAt([e], 0) == Some(e);
    assert EntryAt([e], After(size, e)) == None;
  }

  /** Under any other GUID it is nothing. */
  lemma OwnForeign(log: Buf, sequence: u64, guid: Guid, size: u64, w: PendingWrite, other: Guid)
    requires |log| >= ENTRY_SIZE && log[..ENTRY_SIZE] == OwnEntry(sequence, guid, size, w) && other != guid
    ensures Examine(log, 0, other).Refused? && Examine(log, SECTOR, other).Refused?
  {
    hide EncodedEntry, Decode, DescBytes;
    var e := OwnEntry(sequence, guid, size, w);
    assert RoundUpSector(ENTRY_HEADER + 1 * DESCRIPTOR) == SECTOR;
    EncodedFields(sequence, 0, guid, size, size, [w]);
    SubSlice(log, 0, ENTRY_SIZE, 32, 48);
    EncodedPair(sequence, 0, guid, size, size, [w], 0);
    SubSlice(e, SECTOR, ENTRY_SIZE, 0, 4);
    SubSlice(log, 0, ENTRY_SIZE, SECTOR, SECTOR + 4);
    assert DataSector(w, sequence)[0..4] == DATA;
    assert log[SECTOR..SECTOR + 4] == DATA;
    assert DATA[1] != LOGE[1];
  }

  lemma RestFrame(log: Buf, after: Buf, guid: Guid)
    requires |log| == |after| >= ENTRY_SIZE && after[ENTRY_SIZE..] == log[ENTRY_SIZE..] && RestClear(log, guid)
    ensures RestClear(after, guid)
  {
    forall pos | ENTRY_SIZE <= pos && pos % SECTOR == 0 && HasSignature(after, pos)
      ensures DeclaredGuid(after, pos) != guid
    {
      var k := pos - ENTRY_SIZE;
      assert log[ENTRY_SIZE..] == log[ENTRY_SIZE..|log|] && after[ENTRY_SIZE..] == after[ENTRY_SIZE..|log|];
      SubSlice(log, ENTRY_SIZE, |log|, k, k + 4);
      SubSlice(after, ENTRY_SIZE, |log|, k, k + 4);
      SubSlice(log, ENTRY_SIZE, |log|, k + 32, k + 48);
      SubSlice(after, ENTRY_SIZE, |log|, k + 32, k + 48);
      assert HasSignature(log, pos);
    }
  }
}
