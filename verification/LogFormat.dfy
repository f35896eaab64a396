/** Log entries (src/log.rs): the byte layout of section 2.3.1 of MS-VHDX, the
    decoder with its checksum budget, and the in-place encoder. */
module LogFormat {
  import opened Bytes
  import opened Crc32c

  const SECTOR: nat := 4096
  const ENTRY_HEADER: nat := 64
  const DESCRIPTOR: nat := 32
  const LOGE: Buf := [0x6C, 0x6F, 0x67, 0x65]
  const ZERO: Buf := [0x7A, 0x65, 0x72, 0x6F]
  const DESC: Buf := [0x64, 0x65, 0x73, 0x63]
  const DATA: Buf := [0x64, 0x61, 0x74, 0x61]

  type Guid = g: Buf | |g| == 16 witness Zeros(16)
  type Sector = s: Buf | |s| == SECTOR witness Zeros(SECTOR)

  datatype EntryReject = Empty | BadEntry | ForeignChain | Malformed

  datatype LogEntryHeader = LogEntryHeader(
    entryLength: u32, tail: u32, sequence: u64, descriptorCount: u32,
    guid: Guid, flushedFileOffset: u64, lastFileOffset: u64)

  datatype Descriptor =
    | ZeroDesc(zeroLength: u64, fileOffset: u64, sequence: u64)
    | DataDesc(trailing: u32, leading: u64, fileOffset: u64, sequence: u64, sector: Sector)
  {
    function Length(): u64 { if ZeroDesc? then zeroLength else SECTOR }
  }

  datatype LogEntry = LogEntry(header: LogEntryHeader, descriptors: seq<Descriptor>, pos: nat)

  datatype Parsed = Entry(entry: LogEntry) | Refused(why: EntryReject)

  datatype PendingWrite = PendingWrite(fileOffset: u64, sector: Sector)

  /** `(n + 4095) & !4095`. */
  function RoundUpSector(n: nat): (r: nat)
    ensures n <= r < n + SECTOR && r % SECTOR == 0
  {
    (n + SECTOR - 1) / SECTOR * SECTOR
  }

  /** The checksum of an entry whose checksum field reads as zero, in the three
      pieces the source feeds. */
  function EntryCrc(b: Buf): u32
    requires |b| >= 8
  {
    Append(Append(Crc(b[0..4]), Zeros(4)), b[8..])
  }

  lemma EntryCrcWhole(b: Buf)
    requires |b| >= 8
    ensures EntryCrc(b) == Crc(b[0..4] + Zeros(4) + b[8..])
  {
    AppendConcat(0, b[0..4], Zeros(4));
    AppendConcat(0, b[0..4] + Zeros(4), b[8..]);
  }

  /** A wrapped entry is checksummed half by half. */
  lemma WrappedCrc(first: Buf, second: Buf)
    requires |first| >= 8
    ensures Append(EntryCrc(first), second) == EntryCrc(first + second)
  {
    AppendConcat(Append(Crc(first[0..4]), Zeros(4)), first[8..], second);
    assert (first + second)[8..] == first[8..] + second;
    assert (first + second)[0..4] == first[0..4];
  }

  // ---- Decoding ----

  /** `len` bytes of the circular region from `pos`, going round its end. */
  function Circular(log: Buf, pos: nat, len: nat): (b: Buf)
    requires pos <= |log| && len <= |log|
    ensures |b| == len
  {
    if pos + len <= |log| then log[pos..pos + len]
    else log[pos..] + log[..pos + len - |log|]
  }

  predicate HasSignature(log: Buf, pos: nat) {
    pos + SECTOR <= |log| && log[pos..pos + 4] == LOGE
  }

  function DeclaredLength(log: Buf, pos: nat): u32
    requires pos + SECTOR <= |log|
  {
    ReadU32(log, pos + 8)
  }

  predicate LengthUsable(log: Buf, pos: nat)
    requires pos + SECTOR <= |log|
  {
    var n := DeclaredLength(log, pos);
    SECTOR <= n <= |log| && n % SECTOR == 0
  }

  function DeclaredGuid(log: Buf, pos: nat): Guid
    requires pos + SECTOR <= |log|
  {
    log[pos + 32..pos + 48]
  }

  /** A slot that is charged to the checksum budget. */
  predicate Candidate(log: Buf, pos: nat, guid: Guid) {
    HasSignature(log, pos) && LengthUsable(log, pos) && DeclaredGuid(log, pos) == guid
  }

  /** What a slot holds, with no limit on the checksumming. */
  function Examine(log: Buf, pos: nat, guid: Guid): Parsed {
    if !HasSignature(log, pos) then Refused(Empty)
    else if !LengthUsable(log, pos) then Refused(BadEntry)
    else if DeclaredGuid(log, pos) != guid then Refused(ForeignChain)
    else Decode(Circular(log, pos, DeclaredLength(log, pos)), pos, guid)
  }

  /** The entry in `bytes`, contiguous. */
  function Decode(bytes: Buf, pos: nat, guid: Guid): Parsed
    requires SECTOR <= |bytes| < TWO32
  {
    if ReadU32(bytes, 4) != EntryCrc(bytes) then Refused(BadEntry)
    else DecodeFields(bytes, pos, guid)
  }

  function DecodeFields(bytes: Buf, pos: nat, guid: Guid): Parsed
    requires SECTOR <= |bytes| < TWO32
  {
    var count := ReadU32(bytes, 24);
    var end := ENTRY_HEADER + count * DESCRIPTOR;
    if end > |bytes| then Refused(Malformed)
    else
      match Descriptors(bytes, ReadU64(bytes, 16), 0, count, RoundUpSector(end))
      case None => Refused(Malformed)
      case Some(ds) => Entry(LogEntry(HeaderFields(bytes, guid), ds, pos))
  }

  function HeaderFields(bytes: Buf, guid: Guid): LogEntryHeader
    requires SECTOR <= |bytes| < TWO32
  {
    LogEntryHeader(|bytes|, ReadU32(bytes, 12), ReadU64(bytes, 16), ReadU32(bytes, 24), guid,
                   ReadU64(bytes, 48), ReadU64(bytes, 56))
  }

  /** Descriptors `i..count`, the next data sector at `base`. */
  function Descriptors(bytes: Buf, sequence: u64, i: nat, count: nat, base: nat): (r: Option<seq<Descriptor>>)
    requires i <= count && ENTRY_HEADER + count * DESCRIPTOR <= |bytes|
    ensures r.Some? ==> |r.value| == count - i
    decreases count - i
  {
    if i == count then Some([])
    else
      match DescriptorAt(bytes, sequence, i, base)
      case None => None
      case Some(d) =>
        match Descriptors(bytes, sequence, i + 1, count, if d.DataDesc? then base + SECTOR else base)
        case None => None
        case Some(rest) => Some([d] + rest)
  }

  function DescriptorAt(bytes: Buf, sequence: u64, i: nat, base: nat): Option<Descriptor>
    requires ENTRY_HEADER + (i + 1) * DESCRIPTOR <= |bytes|
  {
    var off := ENTRY_HEADER + i * DESCRIPTOR;
    var sig := bytes[off..off + 4];
    var stamp := ReadU64(bytes, off + 24);
    if stamp != sequence then None
    else if sig == ZERO then
      Some(ZeroDesc(ReadU64(bytes, off + 8), ReadU64(bytes, off + 16), stamp))
    else if sig == DESC then
      if base + SECTOR > |bytes| then None
      else
        var sector := bytes[base..base + SECTOR];
        var trailing, leading := ReadU32(bytes, off + 4), ReadU64(bytes, off + 8);
        if !StampedWith(sector, sequence) then None
        else Some(DataDesc(trailing, leading, ReadU64(bytes, off + 16), stamp,
                           Unstamp(sector, leading, trailing)))
    else None
  }

  predicate StampedWith(sector: Sector, sequence: u64) {
    sector[0..4] == DATA
    && ReadU32(sector, 4) * TWO32 + ReadU32(sector, SECTOR - 4) == sequence
  }

  function Unstamp(sector: Sector, leading: u64, trailing: u32): Sector {
    Splice(Splice(sector, 0, Le(leading, 8)), SECTOR - 4, Le(trailing, 4))
  }

  /** Probes one slot. `budget` and `exhausted` are the source's two in-out
      arguments. */
  method ParseLogEntry(log: Buf, pos: nat, guid: Guid, budget: nat, exhausted: bool)
    returns (r: Parsed, budget': nat, exhausted': bool)
    ensures !Candidate(log, pos, guid) ==>
      r == Examine(log, pos, guid) && r.Refused? && budget' == budget && exhausted' == exhausted
    ensures Candidate(log, pos, guid) && budget < DeclaredLength(log, pos) ==>
      r == Refused(BadEntry) && budget' == budget && exhausted'
    ensures Candidate(log, pos, guid) && budget >= DeclaredLength(log, pos) ==>
      r == Examine(log, pos, guid) && budget' == budget - DeclaredLength(log, pos) && exhausted' == exhausted
  {
    budget', exhausted' := budget, exhausted;
    if pos + SECTOR > |log| {
      return Refused(Empty), budget', exhausted';
    }
    var head := log[pos..pos + SECTOR];
    SubSlice(log, pos, pos + SECTOR, 0, 4);
    SubSlice(log, pos, pos + SECTOR, 8, 12);
    SubSlice(log, pos, pos + SECTOR, 32, 48);
    if head[0..4] != LOGE {
      return Refused(Empty), budget', exhausted';
    }
    var entryLength := ReadU32(head, 8);
    if entryLength < SECTOR || entryLength % SECTOR != 0 || entryLength > |log| {
      return Refused(BadEntry), budget', exhausted';
    }
    if head[32..48] != guid {
      return Refused(ForeignChain), budget', exhausted';
    }
    if budget < entryLength {
      exhausted' := true;
      return Refused(BadEntry), budget', exhausted';
    }
    budget' := budget - entryLength;
    r := CheckEntry(log, pos, entryLength, guid);
  }

  lemma HalvesAgree(log: Buf, pos: nat, len: nat, first: Buf, second: Buf)
    requires pos + SECTOR <= |log| && SECTOR <= len <= |log|
    requires var tail := Max(0, pos + len - |log|); first == log[pos..pos + len - tail] && second == log[..tail]
    ensures first + second == Circular(log, pos, len) && (second == [] ==> first == first + second)
    ensures ReadU32(first, 4) == ReadU32(Circular(log, pos, len), 4)
  {
    assert first + second == Circular(log, pos, len);
    assert first[4..8] == (first + second)[4..8];
  }

  /** The checksum and everything after it. */
  method CheckEntry(log: Buf, pos: nat, entryLength: nat, guid: Guid) returns (r: Parsed)
    requires pos + SECTOR <= |log| && SECTOR <= entryLength <= |log| && entryLength < TWO32
    ensures r == Decode(Circular(log, pos, entryLength), pos, guid)
  {
    var tailLen := Max(0, pos + entryLength - |log|);
    var first, second := log[pos..pos + entryLength - tailLen], log[..tailLen];
    var stored, computed := ReadU32(first, 4), Append(EntryCrc(first), second);
    var bytes := if tailLen == 0 then first else first + second;
    HalvesAgree(log, pos, entryLength, first, second);
    WrappedCrc(first, second);
    if stored != computed {
      return Refused(BadEntry);
    }
    r := ReadEntry(bytes, pos, guid);
  }

  /** The fields and the descriptors of an entry that passed its checksum. */
  method ReadEntry(bytes: Buf, pos: nat, guid: Guid) returns (r: Parsed)
    requires SECTOR <= |bytes| < TWO32
    ensures r == DecodeFields(bytes, pos, guid)
  {
    var sequence, count := ReadU64(bytes, 16), ReadU32(bytes, 24);
    var descriptorsEnd := ENTRY_HEADER + count * DESCRIPTOR;
    if descriptorsEnd > |bytes| {
      return Refused(Malformed);
    }
    var ds := CollectDescriptors(bytes, sequence, count);
    match ds {
      case None => r := Refused(Malformed);
      case Some(ds) => r := Entry(LogEntry(HeaderFields(bytes, guid), ds, pos));
    }
  }

  /** The descriptor loop of `parse_log_entry`. */
  method CollectDescriptors(bytes: Buf, sequence: u64, count: nat) returns (r: Option<seq<Descriptor>>)
    requires ENTRY_HEADER + count * DESCRIPTOR <= |bytes|
    ensures r == Descriptors(bytes, sequence, 0, count, RoundUpSector(ENTRY_HEADER + count * DESCRIPTOR))
  {
    hide DescriptorAt, RoundUpSector;
    var base: nat := RoundUpSector(ENTRY_HEADER + count * DESCRIPTOR);
    ghost var all := Descriptors(bytes, sequence, 0, count, base);
    var ds: seq<Descriptor> := [];
    var i := 0;
    assert all.Some? ==> [] + all.value == all.value;
    while i < count
      invariant 0 <= i <= count && |ds| == i
      invariant all == match Descriptors(bytes, sequence, i, count, base)
                       case None => None
                       case Some(rest) => Some(ds + rest)
    {
      var d := DescriptorAt(bytes, sequence, i, base);
      if d.None? {
        return None;
      }
      ghost var rest := Descriptors(bytes, sequence, i + 1, count, if d.value.DataDesc? then base + SECTOR else base);
      assert rest.Some? ==> ds + ([d.value] + rest.value) == (ds + [d.value]) + rest.value;
      ds := ds + [d.value];
      if d.value.DataDesc? {
        base := base + SECTOR;
      }
      i := i + 1;
    }
    assert ds + [] == ds;
    return Some(ds);
  }

  /** An accepted entry declares the length it was checksummed over, and starts
      where it was probed. */
  lemma AcceptedEntry(log: Buf, pos: nat, guid: Guid)
    requires Examine(log, pos, guid).Entry?
    ensures Candidate(log, pos, guid)
    ensures var e := Examine(log, pos, guid).entry;
      e.pos == pos && e.header.guid == guid && e.header.entryLength == DeclaredLength(log, pos)
      && |e.descriptors| == e.header.descriptorCount
  {
  }

  function DataCount(ds: seq<Descriptor>): nat {
    if ds == [] then 0 else (if ds[0].DataDesc? then 1 else 0) + DataCount(ds[1..])
  }

  lemma DescriptorPlace(bytes: Buf, sequence: u64, i: nat, base: nat)
    requires ENTRY_HEADER + (i + 1) * DESCRIPTOR <= |bytes|
    ensures var d := DescriptorAt(bytes, sequence, i, base);
      d.Some? ==> d.value.sequence == sequence && (d.value.DataDesc? ==> base + SECTOR <= |bytes|)
  {
    hide Unstamp, StampedWith, ReadU64, ReadU32;
  }

  lemma {:induction false} DescriptorsFit(bytes: Buf, sequence: u64, i: nat, count: nat, base: nat)
    requires i <= count && ENTRY_HEADER + count * DESCRIPTOR <= |bytes|
    requires Descriptors(bytes, sequence, i, count, base).Some?
    ensures var ds := Descriptors(bytes, sequence, i, count, base).value;
      (base <= |bytes| || DataCount(ds) > 0 ==> base + SECTOR * DataCount(ds) <= |bytes|)
      && forall d :: d in ds ==> d.sequence == sequence
    decreases count - i
  {
    if i < count {
      DescriptorPlace(bytes, sequence, i, base);
      hide DescriptorAt;
      var d := DescriptorAt(bytes, sequence, i, base).value;
      var base' := if d.DataDesc? then base + SECTOR else base;
      DescriptorsFit(bytes, sequence, i + 1, count, base');
      var rest := Descriptors(bytes, sequence, i + 1, count, base').value;
      assert ([d] + rest)[1..] == rest;
    }
  }

  // ---- Encoding ----

  function DescBytes(w: PendingWrite, sequence: u64): (b: Buf)
    ensures |b| == DESCRIPTOR
  {
    DESC + w.sector[SECTOR - 4..] + w.sector[..8] + Le(w.fileOffset, 8) + Le(sequence, 8)
  }

  function DataSector(w: PendingWrite, sequence: u64): (b: Sector) {
    DATA + Le(sequence / TWO32, 4) + w.sector[8..SECTOR - 4] + Le(sequence % TWO32, 4)
  }

  function DescTable(ws: seq<PendingWrite>, sequence: u64): (t: seq<Buf>)
    ensures |t| == |ws| && forall p :: p in t ==> |p| == DESCRIPTOR
    ensures forall i :: 0 <= i < |ws| ==> t[i] == DescBytes(ws[i], sequence)
  {
    seq(|ws|, i requires 0 <= i < |ws| => DescBytes(ws[i], sequence))
  }

  function DataSectors(ws: seq<PendingWrite>, sequence: u64): (t: seq<Buf>)
    ensures |t| == |ws| && forall p :: p in t ==> |p| == SECTOR
    ensures forall i :: 0 <= i < |ws| ==> t[i] == DataSector(ws[i], sequence)
  {
    seq(|ws|, i requires 0 <= i < |ws| => DataSector(ws[i], sequence))
  }

  function DataBase(n: nat): (r: nat)
    ensures ENTRY_HEADER + DESCRIPTOR * n <= r
  {
    RoundUpSector(ENTRY_HEADER + n * DESCRIPTOR)
  }

  function EncodedLength(n: nat): nat { DataBase(n) + n * SECTOR }

  /** The 64-byte header in four 16-byte rows, its checksum field zero. */
  function EntryHeaderBytes(length: nat, sequence: u64, tail: u32, guid: Guid, flushed: u64, last: u64, n: nat)
    : (b: Buf)
    ensures |b| == ENTRY_HEADER
  {
    Row0(length, tail) + Row1(sequence, n) + guid + Row3(flushed, last)
  }

  function Row0(length: nat, tail: u32): (b: Buf)
    ensures |b| == 16
  {
    LOGE + Zeros(4) + Le(length % TWO32, 4) + Le(tail, 4)
  }

  function Row1(sequence: u64, n: nat): (b: Buf)
    ensures |b| == 16
  {
    Le(sequence, 8) + Le(n, 4) + Zeros(4)
  }

  function Row3(flushed: u64, last: u64): (b: Buf)
    ensures |b| == 16
  {
    Le(flushed, 8) + Le(last, 8)
  }

  /** The entry before its checksum is filled in. */
  function EntryBody(sequence: u64, tail: u32, guid: Guid, flushed: u64, last: u64, ws: seq<PendingWrite>): (b: Buf)
    ensures |b| == EncodedLength(|ws|)
  {
    JoinLength(DescTable(ws, sequence), DESCRIPTOR);
    JoinLength(DataSectors(ws, sequence), SECTOR);
    EntryHeaderBytes(EncodedLength(|ws|), sequence, tail, guid, flushed, last, |ws|)
    + Join(DescTable(ws, sequence))
    + Zeros(DataBase(|ws|) - ENTRY_HEADER - DESCRIPTOR * |ws|)
    + Join(DataSectors(ws, sequence))
  }

  /** One log entry that replays `ws`: the layout the format asks for. */
  function EncodedEntry(sequence: u64, tail: u32, guid: Guid, flushed: u64, last: u64, ws: seq<PendingWrite>): (b: Buf)
    ensures |b| == EncodedLength(|ws|)
  {
    var body := EntryBody(sequence, tail, guid, flushed, last, ws);
    Splice(body, 4, Le(EntryCrc(body), 4))
  }

  /** Filling in the checksum does not change what the checksum covers. */
  lemma CrcIgnoresItsField(b: Buf, field: Buf)
    requires |b| >= 8 && |field| == 4
    ensures EntryCrc(Splice(b, 4, field)) == EntryCrc(b)
  {
    assert Splice(b, 4, field)[0..4] == b[0..4] && Splice(b, 4, field)[8..] == b[8..];
  }

  lemma FourParts(a: Buf, b: Buf, c: Buf, d: Buf)
    ensures var x := a + b + c + d;
      x[..|a|] == a && x[|a|..|a| + |b|] == b && x[|a| + |b|..|a| + |b| + |c|] == c && x[|a| + |b| + |c|..] == d
  {
  }

  lemma BodyParts(sequence: u64, tail: u32, guid: Guid, flushed: u64, last: u64, ws: seq<PendingWrite>)
    ensures var body, n := EntryBody(sequence, tail, guid, flushed, last, ws), |ws|;
      body[..ENTRY_HEADER] == EntryHeaderBytes(EncodedLength(n), sequence, tail, guid, flushed, last, n)
      && body[ENTRY_HEADER..ENTRY_HEADER + DESCRIPTOR * n] == Join(DescTable(ws, sequence))
      && body[DataBase(n)..] == Join(DataSectors(ws, sequence))
  {
    hide EntryHeaderBytes, Join, DescTable, DataSectors;
    var n := |ws|;
    var h := EntryHeaderBytes(EncodedLength(n), sequence, tail, guid, flushed, last, n);
    JoinLength(DescTable(ws, sequence), DESCRIPTOR);
    FourParts(h, Join(DescTable(ws, sequence)), Zeros(DataBase(n) - ENTRY_HEADER - DESCRIPTOR * n),
              Join(DataSectors(ws, sequence)));
  }

  lemma HeaderRows(length: nat, sequence: u64, tail: u32, guid: Guid, flushed: u64, last: u64, n: nat)
    ensures var h := EntryHeaderBytes(length, sequence, tail, guid, flushed, last, n);
      var row0 := Row0(length, tail);
      h[0..4] == row0[0..4] && h[8..16] == row0[8..16] && h[16..32] == Row1(sequence, n)
      && h[32..48] == guid && h[48..64] == Row3(flushed, last)
  {
    hide Row0, Row1, Row3;
    var h := EntryHeaderBytes(length, sequence, tail, guid, flushed, last, n);
    FourParts(Row0(length, tail), Row1(sequence, n), guid, Row3(flushed, last));
    SubSlice(h, 0, 16, 0, 4);
    SubSlice(h, 0, 16, 8, 16);
  }

  /** The checksum is filled in between the signature and the rest of the header. */
  lemma AroundChecksum(body: Buf, crc: Buf)
    requires |body| >= ENTRY_HEADER && |crc| == 4
    ensures var e := Splice(body, 4, crc);
      e[0..4] == body[0..4] && e[8..16] == body[8..16] && e[16..32] == body[16..32] && e[32..48] == body[32..48]
        && e[48..64] == body[48..64]
  {
    hide Splice;
    SpliceOutside(body, 4, crc, 0, 4);
    SpliceOutside(body, 4, crc, 8, 16);
    SpliceOutside(body, 4, crc, 16, 32);
    SpliceOutside(body, 4, crc, 32, 48);
    SpliceOutside(body, 4, crc, 48, 64);
  }

  /** The rows, the descriptor table and the data sectors of an encoded entry,
      the checksum field apart. */
  lemma EncodedHeaderParts(sequence: u64, tail: u32, guid: Guid, flushed: u64, last: u64, ws: seq<PendingWrite>)
    ensures var e := EncodedEntry(sequence, tail, guid, flushed, last, ws);
      var row0, n := Row0(EncodedLength(|ws|), tail), |ws|;
      e[0..4] == row0[0..4] && e[8..16] == row0[8..16] && e[16..32] == Row1(sequence, n)
      && e[32..48] == guid && e[48..64] == Row3(flushed, last)
  {
    hide EntryBody, EntryHeaderBytes, Row0, Row1, Row3, Join, DescTable, DataSectors, EntryCrc, Splice, Le, DataBase;
    var body, n := EntryBody(sequence, tail, guid, flushed, last, ws), |ws|;
    AroundChecksum(body, Le(EntryCrc(body), 4));
    BodyParts(sequence, tail, guid, flushed, last, ws);
    HeaderRows(EncodedLength(n), sequence, tail, guid, flushed, last, n);
    SubSlice(body, 0, 64, 0, 4);
    SubSlice(body, 0, 64, 8, 16);
    SubSlice(body, 0, 64, 16, 32);
    SubSlice(body, 0, 64, 32, 48);
    SubSlice(body, 0, 64, 48, 64);
  }

  lemma EncodedParts(sequence: u64, tail: u32, guid: Guid, flushed: u64, last: u64, ws: seq<PendingWrite>)
    ensures var e := EncodedEntry(sequence, tail, guid, flushed, last, ws);
      var row0, n := Row0(EncodedLength(|ws|), tail), |ws|;
      e[0..4] == row0[0..4] && e[8..16] == row0[8..16] && e[16..32] == Row1(sequence, n)
      && e[32..48] == guid && e[48..64] == Row3(flushed, last)
      && e[ENTRY_HEADER..ENTRY_HEADER + DESCRIPTOR * n] == Join(DescTable(ws, sequence))
      && e[DataBase(n)..] == Join(DataSectors(ws, sequence))
  {
    hide EntryBody, EntryHeaderBytes, Row0, Row1, Row3, Join, DescTable, DataSectors, EntryCrc, Splice, Le, DataBase;
    var body, n := EntryBody(sequence, tail, guid, flushed, last, ws), |ws|;
    var crc := Le(EntryCrc(body), 4);
    EncodedHeaderParts(sequence, tail, guid, flushed, last, ws);
    BodyParts(sequence, tail, guid, flushed, last, ws);
    SpliceOutside(body, 4, crc, ENTRY_HEADER, ENTRY_HEADER + DESCRIPTOR * n);
    TailAround(body, crc, DataBase(n));
  }

  lemma TailAround(body: Buf, crc: Buf, lo: nat)
    requires 8 <= lo <= |body| && |crc| == 4
    ensures Splice(body, 4, crc)[lo..] == body[lo..]
  {
    hide Splice;
    SpliceOutside(body, 4, crc, lo, |body|);
    assert Splice(body, 4, crc)[lo..] == Splice(body, 4, crc)[lo..|body|];
  }

  /** What the format leaves reserved, and what lies between the descriptors and the first
      data sector, is zero. */
  lemma EntryReserved(sequence: u64, tail: u32, guid: Guid, flushed: u64, last: u64, ws: seq<PendingWrite>)
    ensures var e, n := EncodedEntry(sequence, tail, guid, flushed, last, ws), |ws|;
      e[28..32] == [0, 0, 0, 0] && forall i :: 64 + 32 * n <= i < DataBase(n) ==> e[i] == 0
  {
    hide EntryBody, EntryHeaderBytes, Row0, Row3, Join, DescTable, DataSectors, EntryCrc, Splice, Le, DataBase;
    var e, body, n := EncodedEntry(sequence, tail, guid, flushed, last, ws),
      EntryBody(sequence, tail, guid, flushed, last, ws), |ws|;
    EncodedHeaderParts(sequence, tail, guid, flushed, last, ws);
    FourParts(Le(sequence, 8), Le(n, 4), Zeros(4), []);
    assert Row1(sequence, n) == Row1(sequence, n) + [];
    SubSlice(e, 16, 32, 12, 16);
    forall i | 64 + 32 * n <= i < DataBase(n)
      ensures e[i] == 0
    {
      SpliceAt(body, 4, Le(EntryCrc(body), 4), i);
      PaddingIsZero(sequence, tail, guid, flushed, last, ws, i);
    }
  }

  lemma PaddingIsZero(sequence: u64, tail: u32, guid: Guid, flushed: u64, last: u64, ws: seq<PendingWrite>, i: nat)
    requires 64 + 32 * |ws| <= i < DataBase(|ws|)
    ensures EntryBody(sequence, tail, guid, flushed, last, ws)[i] == 0
  {
    hide EntryHeaderBytes, Join, DescTable, DataSectors, DataBase;
    var n := |ws|;
    JoinLength(DescTable(ws, sequence), DESCRIPTOR);
    var h, t := EntryHeaderBytes(EncodedLength(n), sequence, tail, guid, flushed, last, n),
      Join(DescTable(ws, sequence));
    var z := Zeros(DataBase(n) - ENTRY_HEADER - DESCRIPTOR * n);
    assert (h + t + z + Join(DataSectors(ws, sequence)))[i] == z[i - 64 - 32 * n];
  }

  lemma Row0Fields(e: Buf, length: nat, tail: u32)
    requires |e| >= 64
    requires e[0..4] == Row0(length, tail)[0..4] && e[8..16] == Row0(length, tail)[8..16]
    ensures e[0..4] == LOGE && ReadU32(e, 8) == length % TWO32 && ReadU32(e, 12) == tail
  {
    var row0 := Row0(length, tail);
    FourParts(LOGE, Zeros(4), Le(length % TWO32, 4), Le(tail, 4));
    SubSlice(e, 8, 16, 0, 4);
    SubSlice(e, 8, 16, 4, 8);
    SubSlice(row0, 8, 16, 0, 4);
    SubSlice(row0, 8, 16, 4, 8);
    ReadsLe32(e, 8, length % TWO32);
    ReadsLe32(e, 12, tail);
  }

  lemma Row1Fields(e: Buf, sequence: u64, n: u32)
    requires |e| >= 64 && e[16..32] == Row1(sequence, n)
    ensures ReadU64(e, 16) == sequence && ReadU32(e, 24) == n
  {
    FourParts(Le(sequence, 8), Le(n, 4), Zeros(4), []);
    assert Row1(sequence, n) == Row1(sequence, n) + [];
    SubSlice(e, 16, 32, 0, 8);
    SubSlice(e, 16, 32, 8, 12);
    ReadsLe64(e, 16, sequence);
    ReadsLe32(e, 24, n);
  }

  lemma Row3Fields(e: Buf, flushed: u64, last: u64)
    requires |e| >= 64 && e[48..64] == Row3(flushed, last)
    ensures ReadU64(e, 48) == flushed && ReadU64(e, 56) == last
  {
    assert e[48..56] == e[48..64][0..8] == Le(flushed, 8);
    ReadsLe64(e, 48, flushed);
    assert e[56..64] == e[48..64][8..16] == Le(last, 8);
    ReadsLe64(e, 56, last);
  }

  /** Every header field of an encoded entry, at its offset. */
  lemma EncodedFields(sequence: u64, tail: u32, guid: Guid, flushed: u64, last: u64, ws: seq<PendingWrite>)
    requires |ws| < TWO32
    ensures var e := EncodedEntry(sequence, tail, guid, flushed, last, ws);
      e[0..4] == LOGE && ReadU32(e, 8) == |e| % TWO32 && ReadU32(e, 12) == tail
      && ReadU64(e, 16) == sequence && ReadU32(e, 24) == |ws| && e[32..48] == guid
      && ReadU64(e, 48) == flushed && ReadU64(e, 56) == last
  {
    hide EncodedEntry;
    var e := EncodedEntry(sequence, tail, guid, flushed, last, ws);
    EncodedParts(sequence, tail, guid, flushed, last, ws);
    Row0Fields(e, EncodedLength(|ws|), tail);
    Row1Fields(e, sequence, |ws|);
    Row3Fields(e, flushed, last);
  }

  /** The checksum an encoded entry stores is the one its bytes have. */
  lemma EncodedChecksum(sequence: u64, tail: u32, guid: Guid, flushed: u64, last: u64, ws: seq<PendingWrite>)
    ensures var e := EncodedEntry(sequence, tail, guid, flushed, last, ws);
      ReadU32(e, 4) == EntryCrc(e)
  {
    var body := EntryBody(sequence, tail, guid, flushed, last, ws);
    var crc := EntryCrc(body);
    CrcIgnoresItsField(body, Le(crc, 4));
    SpliceInside(body, 4, Le(crc, 4));
    ReadsLe32(EncodedEntry(sequence, tail, guid, flushed, last, ws), 4, crc);
  }

  /** Descriptor `i` and data sector `i` of an encoded entry. */
  lemma EncodedPair(sequence: u64, tail: u32, guid: Guid, flushed: u64, last: u64, ws: seq<PendingWrite>, i: nat)
    requires i < |ws|
    ensures var e := EncodedEntry(sequence, tail, guid, flushed, last, ws);
      var off, base := ENTRY_HEADER + i * DESCRIPTOR, DataBase(|ws|) + i * SECTOR;
      off + DESCRIPTOR <= DataBase(|ws|) && base + SECTOR <= |e|
      && e[off..off + DESCRIPTOR] == DescBytes(ws[i], sequence)
      && e[base..base + SECTOR] == DataSector(ws[i], sequence)
  {
    hide EncodedEntry, DescTable, DataSectors, Join, Row0, Row1, Row3, DescBytes, DataSector, Splice;
    var e := EncodedEntry(sequence, tail, guid, flushed, last, ws);
    var table, sectors, n := DescTable(ws, sequence), DataSectors(ws, sequence), |ws|;
    EncodedParts(sequence, tail, guid, flushed, last, ws);
    JoinAt(table, DESCRIPTOR, i);
    JoinAt(sectors, SECTOR, i);
    JoinLength(table, DESCRIPTOR);
    SubSlice(e, ENTRY_HEADER, ENTRY_HEADER + DESCRIPTOR * n, DESCRIPTOR * i, DESCRIPTOR * i + DESCRIPTOR);
    SubSlice(e, DataBase(n), |e|, SECTOR * i, SECTOR * i + SECTOR);
  }

  function SentDescriptor(w: PendingWrite, sequence: u64): Descriptor {
    DataDesc(ReadU32(w.sector, SECTOR - 4), ReadU64(w.sector, 0), w.fileOffset, sequence, w.sector)
  }

  function SentDescriptors(ws: seq<PendingWrite>, sequence: u64): (ds: seq<Descriptor>)
    ensures |ds| == |ws| && forall i :: 0 <= i < |ws| ==> ds[i] == SentDescriptor(ws[i], sequence)
  {
    seq(|ws|, i requires 0 <= i < |ws| => SentDescriptor(ws[i], sequence))
  }

  lemma StampRoundTrip(w: PendingWrite, sequence: u64)
    ensures StampedWith(DataSector(w, sequence), sequence)
    ensures Unstamp(DataSector(w, sequence), ReadU64(w.sector, 0), ReadU32(w.sector, SECTOR - 4)) == w.sector
  {
    var s := DataSector(w, sequence);
    var hi, lo, mid := Le(sequence / TWO32, 4), Le(sequence % TWO32, 4), w.sector[8..SECTOR - 4];
    FourParts(DATA, hi, mid, lo);
    ReadsLe32(s, 4, sequence / TWO32);
    ReadsLe32(s, SECTOR - 4, sequence % TWO32);
    LeOfLeNat(w.sector[0..8]);
    LeOfLeNat(w.sector[SECTOR - 4..SECTOR]);
    assert Unstamp(s, ReadU64(w.sector, 0), ReadU32(w.sector, SECTOR - 4))
      == w.sector[0..8] + mid + w.sector[SECTOR - 4..];
  }

  lemma DescFields(e: Buf, off: nat, w: PendingWrite, sequence: u64)
    requires off + DESCRIPTOR <= |e| && e[off..off + DESCRIPTOR] == DescBytes(w, sequence)
    ensures e[off..off + 4] == DESC
    ensures ReadU32(e, off + 4) == ReadU32(w.sector, SECTOR - 4) && ReadU64(e, off + 8) == ReadU64(w.sector, 0)
    ensures ReadU64(e, off + 16) == w.fileOffset && ReadU64(e, off + 24) == sequence
  {
    var front := DESC + w.sector[SECTOR - 4..] + w.sector[..8];
    assert w.sector[SECTOR - 4..] == w.sector[SECTOR - 4..SECTOR - 4 + 4] && w.sector[..8] == w.sector[0..0 + 8];
    FourParts(front, Le(w.fileOffset, 8), Le(sequence, 8), []);
    assert DescBytes(w, sequence) == DescBytes(w, sequence) + [];
    FourParts(DESC, w.sector[SECTOR - 4..], w.sector[..8], []);
    assert front == front + [];
    SubSlice(DescBytes(w, sequence), 0, 16, 0, 4);
    SubSlice(DescBytes(w, sequence), 0, 16, 4, 8);
    SubSlice(DescBytes(w, sequence), 0, 16, 8, 16);
    SubSlice(e, off, off + DESCRIPTOR, 0, 4);
    SubSlice(e, off, off + DESCRIPTOR, 4, 8);
    SubSlice(e, off, off + DESCRIPTOR, 8, 16);
    SubSlice(e, off, off + DESCRIPTOR, 16, 24);
    SubSlice(e, off, off + DESCRIPTOR, 24, 32);
    ReadsLe64(e, off + 16, w.fileOffset);
    ReadsLe64(e, off + 24, sequence);
  }

  lemma EncodedDescriptor(sequence: u64, tail: u32, guid: Guid, flushed: u64, last: u64, ws: seq<PendingWrite>, i: nat)
    requires i < |ws|
    ensures var e := EncodedEntry(sequence, tail, guid, flushed, last, ws);
      ENTRY_HEADER + (i + 1) * DESCRIPTOR <= |e|
      && DescriptorAt(e, sequence, i, DataBase(|ws|) + i * SECTOR) == Some(SentDescriptor(ws[i], sequence))
  {
    hide EncodedEntry, DescBytes, DataSector, StampedWith, Unstamp, ReadU64, ReadU32, RoundUpSector;
    var e := EncodedEntry(sequence, tail, guid, flushed, last, ws);
    EncodedPair(sequence, tail, guid, flushed, last, ws, i);
    DescFields(e, ENTRY_HEADER + i * DESCRIPTOR, ws[i], sequence);
    StampRoundTrip(ws[i], sequence);
  }

  lemma {:induction false} EncodedDescriptors(sequence: u64, tail: u32, guid: Guid, flushed: u64, last: u64,
                                              ws: seq<PendingWrite>, i: nat)
    requires i <= |ws|
    ensures var e := EncodedEntry(sequence, tail, guid, flushed, last, ws);
      ENTRY_HEADER + |ws| * DESCRIPTOR <= |e|
      && Descriptors(e, sequence, i, |ws|, DataBase(|ws|) + i * SECTOR) == Some(SentDescriptors(ws, sequence)[i..])
    decreases |ws| - i
  {
    hide EncodedEntry, DescriptorAt;
    var sent := SentDescriptors(ws, sequence);
    if i < |ws| {
      EncodedDescriptor(sequence, tail, guid, flushed, last, ws, i);
      EncodedDescriptors(sequence, tail, guid, flushed, last, ws, i + 1);
      assert sent[i..] == [sent[i]] + sent[i + 1..];
    } else {
      assert sent[i..] == [];
    }
  }

  /** What a decoder should make of an encoded entry. */
  function SentEntry(sequence: u64, tail: u32, guid: Guid, flushed: u64, last: u64, ws: seq<PendingWrite>, pos: nat)
    : LogEntry
    requires EncodedLength(|ws|) < TWO32
  {
    LogEntry(LogEntryHeader(EncodedLength(|ws|), tail, sequence, |ws|, guid, flushed, last),
             SentDescriptors(ws, sequence), pos)
  }

  lemma DecodesEncoded(sequence: u64, tail: u32, guid: Guid, flushed: u64, last: u64, ws: seq<PendingWrite>, pos: nat)
    requires EncodedLength(|ws|) < TWO32
    ensures var e := EncodedEntry(sequence, tail, guid, flushed, last, ws);
      SECTOR <= |e| && Decode(e, pos, guid) == Entry(SentEntry(sequence, tail, guid, flushed, last, ws, pos))
  {
    hide EncodedEntry, EntryCrc, Descriptors, SentDescriptors;
    EncodedFields(sequence, tail, guid, flushed, last, ws);
    EncodedChecksum(sequence, tail, guid, flushed, last, ws);
    EncodedDescriptors(sequence, tail, guid, flushed, last, ws, 0);
  }

  /** `e` laid into the circular region at `pos`, going round its end. */
  function LayAt(log: Buf, pos: nat, e: Buf): (r: Buf)
    requires pos <= |log| && |e| <= |log|
    ensures |r| == |log|
  {
    if pos + |e| <= |log| then Splice(log, pos, e)
    else Splice(Splice(log, pos, e[..|log| - pos]), 0, e[|log| - pos..])
  }

  lemma LaidReadsBack(log: Buf, pos: nat, e: Buf)
    requires pos <= |log| && |e| <= |log|
    ensures Circular(LayAt(log, pos, e), pos, |e|) == e
  {
    hide Splice;
    var k := |log| - pos;
    if pos + |e| <= |log| {
      SpliceInside(log, pos, e);
    } else {
      var once := Splice(log, pos, e[..k]);
      SpliceInside(log, pos, e[..k]);
      SpliceOutside(once, 0, e[k..], pos, |log|);
      SpliceInside(once, 0, e[k..]);
      var r := LayAt(log, pos, e);
      assert r[pos..] == r[pos..|log|] == e[..k] && r[..|e| - k] == r[0..|e| - k] == e[k..];
    }
  }

  lemma CircularPrefix(log: Buf, pos: nat, len: nat, lo: nat, hi: nat)
    requires pos + SECTOR <= |log| && SECTOR <= len <= |log| && lo <= hi <= SECTOR
    ensures Circular(log, pos, len)[lo..hi] == log[pos + lo..pos + hi]
  {
    if pos + len <= |log| {
      SubSlice(log, pos, pos + len, lo, hi);
    } else {
      SubSlice(log, pos, |log|, lo, hi);
      assert Circular(log, pos, len)[lo..hi] == log[pos..][lo..hi];
    }
  }

  /** An entry laid anywhere in a region that can hold it, wrapped or not, is
      read back with the same header fields and the original sectors in order. */
  lemma EntryRoundTrip(log: Buf, pos: nat, sequence: u64, tail: u32, guid: Guid, flushed: u64, last: u64,
                       ws: seq<PendingWrite>)
    requires pos + SECTOR <= |log| && EncodedLength(|ws|) <= |log| && EncodedLength(|ws|) < TWO32
    ensures Examine(LayAt(log, pos, EncodedEntry(sequence, tail, guid, flushed, last, ws)), pos, guid)
      == Entry(SentEntry(sequence, tail, guid, flushed, last, ws, pos))
  {
    var e := EncodedEntry(sequence, tail, guid, flushed, last, ws);
    LaidReadsBack(log, pos, e);
    RegionHoldsEntry(LayAt(log, pos, e), pos, sequence, tail, guid, flushed, last, ws);
  }

  lemma RegionHoldsEntry(log: Buf, pos: nat, sequence: u64, tail: u32, guid: Guid, flushed: u64, last: u64,
                         ws: seq<PendingWrite>)
    requires pos + SECTOR <= |log| && EncodedLength(|ws|) <= |log| && EncodedLength(|ws|) < TWO32
    requires Circular(log, pos, EncodedLength(|ws|)) == EncodedEntry(sequence, tail, guid, flushed, last, ws)
    ensures Examine(log, pos, guid) == Entry(SentEntry(sequence, tail, guid, flushed, last, ws, pos))
  {
    hide EncodedEntry, Decode, SentEntry, Circular, Le, LeNat, ReadU32, Examine;
    var e := EncodedEntry(sequence, tail, guid, flushed, last, ws);
    EncodedFront(sequence, tail, guid, flushed, last, ws);
    DecodesEncoded(sequence, tail, guid, flushed, last, ws, pos);
    hide EncodedLength;
    SlotDecodes(log, pos, guid, e);
  }

  lemma EncodedFront(sequence: u64, tail: u32, guid: Guid, flushed: u64, last: u64, ws: seq<PendingWrite>)
    requires EncodedLength(|ws|) < TWO32
    ensures var e := EncodedEntry(sequence, tail, guid, flushed, last, ws);
      SECTOR <= |e| < TWO32 && |e| % SECTOR == 0 && e[0..4] == LOGE && ReadU32(e, 8) == |e| && e[32..48] == guid
  {
    LengthIsSectors(|ws|);
    hide EncodedEntry, Le, LeNat, ReadU32, EncodedLength, DataBase, RoundUpSector;
    EncodedFields(sequence, tail, guid, flushed, last, ws);
    Below(|EncodedEntry(sequence, tail, guid, flushed, last, ws)|, TWO32);
  }

  lemma Below(x: nat, m: nat)
    requires x < m
    ensures x % m == x
  {
  }

  lemma LengthIsSectors(n: nat)
    ensures EncodedLength(n) >= SECTOR && EncodedLength(n) % SECTOR == 0 && n <= EncodedLength(n)
  {
  }

  lemma SlotDecodes(log: Buf, pos: nat, guid: Guid, e: Buf)
    requires pos + SECTOR <= |log| && SECTOR <= |e| <= |log| && |e| < TWO32 && |e| % SECTOR == 0
    requires Circular(log, pos, |e|) == e && e[0..4] == LOGE && ReadU32(e, 8) == |e| && e[32..48] == guid
    ensures Examine(log, pos, guid) == Decode(e, pos, guid)
  {
    hide Decode, Circular, LeNat;
    CircularPrefix(log, pos, |e|, 0, 4);
    CircularPrefix(log, pos, |e|, 8, 12);
    CircularPrefix(log, pos, |e|, 32, 48);
  }

  /** Past 4 GiB the length field is truncated, and then no region gives the
      sectors back: the bound above is exact. */
  lemma EntryPastFourGiB(log: Buf, pos: nat, guid: Guid, ws: seq<PendingWrite>, sequence: u64)
    requires EncodedLength(|ws|) >= TWO32
    ensures Examine(log, pos, guid).Entry? ==>
      Examine(log, pos, guid).entry.descriptors != SentDescriptors(ws, sequence)
  {
    hide Descriptors, DescriptorAt;
    var r := Examine(log, pos, guid);
    if r.Entry? && r.entry.descriptors == SentDescriptors(ws, sequence) {
      var bytes := Circular(log, pos, DeclaredLength(log, pos));
      var count := ReadU32(bytes, 24);
      assert count == |ws|;
      DescriptorsFit(bytes, ReadU64(bytes, 16), 0, count, DataBase(count));
      AllData(SentDescriptors(ws, sequence));
      assert false;
    }
  }

  lemma {:induction false} AllData(ds: seq<Descriptor>)
    requires forall d :: d in ds ==> d.DataDesc?
    ensures DataCount(ds) == |ds|
  {
    if ds != [] {
      AllData(ds[1..]);
    }
  }

  // ---- The encoder, filling its buffer in place ----

  lemma FillZeros(a: Buf, k: nat, b: Buf, x: Buf)
    requires |x| <= k
    ensures Splice(a + Zeros(k) + b, |a|, x) == a + x + Zeros(k - |x|) + b
  {
  }

  lemma FillPair(h: Buf, ds: Buf, k: nat, ss: Buf, rest: nat, d: Buf, x: Buf)
    requires |d| <= k && |x| <= rest
    ensures var b := h + ds + Zeros(k) + (ss + Zeros(rest));
      Splice(Splice(b, |h| + |ds|, d), |h| + |ds| + k + |ss|, x)
      == h + (ds + d) + Zeros(k - |d|) + ((ss + x) + Zeros(rest - |x|))
  {
    FillZeros(h + ds, k, ss + Zeros(rest), d);
    var front := h + ds + d + Zeros(k - |d|) + ss;
    assert h + ds + d + Zeros(k - |d|) + (ss + Zeros(rest)) == front + Zeros(rest) + [];
    FillZeros(front, rest, [], x);
    assert front + x + Zeros(rest - |x|) + [] == h + (ds + d) + Zeros(k - |d|) + ((ss + x) + Zeros(rest - |x|));
  }

  /** The buffer with `i` of the writes in it. */
  ghost function Filled(h: Buf, ws: seq<PendingWrite>, sequence: u64, i: nat): (b: Buf)
    requires |h| == ENTRY_HEADER && i <= |ws|
    ensures |b| == EncodedLength(|ws|)
  {
    JoinLength(DescTable(ws[..i], sequence), DESCRIPTOR);
    JoinLength(DataSectors(ws[..i], sequence), SECTOR);
    h + Join(DescTable(ws[..i], sequence)) + Zeros(DataBase(|ws|) - ENTRY_HEADER - DESCRIPTOR * i)
    + (Join(DataSectors(ws[..i], sequence)) + Zeros(SECTOR * (|ws| - i)))
  }

  lemma JoinSnoc(parts: seq<Buf>, more: seq<Buf>)
    requires |more| == |parts| + 1 && more[..|parts|] == parts
    ensures Join(more) == Join(parts) + more[|parts|]
  {
  }

  lemma JoinedStep(ws: seq<PendingWrite>, sequence: u64, i: nat)
    requires i < |ws|
    ensures Join(DescTable(ws[..i + 1], sequence)) == Join(DescTable(ws[..i], sequence)) + DescBytes(ws[i], sequence)
    ensures Join(DataSectors(ws[..i + 1], sequence))
      == Join(DataSectors(ws[..i], sequence)) + DataSector(ws[i], sequence)
    ensures |Join(DescTable(ws[..i], sequence))| == DESCRIPTOR * i
    ensures |Join(DataSectors(ws[..i], sequence))| == SECTOR * i
  {
    var d0, d1 := DescTable(ws[..i], sequence), DescTable(ws[..i + 1], sequence);
    var s0, s1 := DataSectors(ws[..i], sequence), DataSectors(ws[..i + 1], sequence);
    hide DescBytes, DataSector;
    assert d1[..i] == d0 && s1[..i] == s0;
    JoinSnoc(d0, d1);
    JoinSnoc(s0, s1);
    JoinLength(d0, DESCRIPTOR);
    JoinLength(s0, SECTOR);
  }

  lemma FilledStep(h: Buf, ws: seq<PendingWrite>, sequence: u64, i: nat)
    requires |h| == ENTRY_HEADER && i < |ws|
    ensures var off, base := ENTRY_HEADER + i * DESCRIPTOR, DataBase(|ws|) + i * SECTOR;
      off + DESCRIPTOR <= |Filled(h, ws, sequence, i)| && base + SECTOR <= |Filled(h, ws, sequence, i)|
      && Splice(Splice(Filled(h, ws, sequence, i), off, DescBytes(ws[i], sequence)), base, DataSector(ws[i], sequence))
         == Filled(h, ws, sequence, i + 1)
  {
    hide Join, DescTable, DataSectors, DescBytes, DataSector, RoundUpSector, Splice, Zeros;
    var d0, s0 := Join(DescTable(ws[..i], sequence)), Join(DataSectors(ws[..i], sequence));
    JoinedStep(ws, sequence, i);
    FillPair(h, d0, DataBase(|ws|) - ENTRY_HEADER - DESCRIPTOR * i, s0, SECTOR * (|ws| - i),
             DescBytes(ws[i], sequence), DataSector(ws[i], sequence));
  }

  lemma FilledEnds(h: Buf, sequence: u64, ws: seq<PendingWrite>, zeros: Buf)
    requires |h| == ENTRY_HEADER && zeros == h + Zeros(EncodedLength(|ws|) - ENTRY_HEADER)
    ensures Filled(h, ws, sequence, 0) == zeros
    ensures Filled(h, ws, sequence, |ws|)
      == h + Join(DescTable(ws, sequence)) + Zeros(DataBase(|ws|) - ENTRY_HEADER - DESCRIPTOR * |ws|)
         + Join(DataSectors(ws, sequence))
  {
    var n := |ws|;
    assert ws[..n] == ws && ws[..0] == [];
    assert Join(DescTable(ws[..0], sequence)) == [] && Join(DataSectors(ws[..0], sequence)) == [];
    hide Join, DescTable, DataSectors;
    assert h + [] == h && [] + Zeros(SECTOR * n) == Zeros(SECTOR * n);
    assert Zeros(DataBase(n) - ENTRY_HEADER) + Zeros(SECTOR * n) == Zeros(EncodedLength(n) - ENTRY_HEADER);
    assert h + Zeros(DataBase(n) - ENTRY_HEADER) + Zeros(SECTOR * n) == h + Zeros(EncodedLength(n) - ENTRY_HEADER);
    assert Join(DataSectors(ws, sequence)) + Zeros(0) == Join(DataSectors(ws, sequence));
  }

  lemma FilledIsBody(sequence: u64, tail: u32, guid: Guid, flushed: u64, last: u64, ws: seq<PendingWrite>, zeros: Buf)
    requires zeros == EntryHeaderBytes(EncodedLength(|ws|), sequence, tail, guid, flushed, last, |ws|)
                      + Zeros(EncodedLength(|ws|) - ENTRY_HEADER)
    ensures var h := EntryHeaderBytes(EncodedLength(|ws|), sequence, tail, guid, flushed, last, |ws|);
      Filled(h, ws, sequence, 0) == zeros
      && Filled(h, ws, sequence, |ws|) == EntryBody(sequence, tail, guid, flushed, last, ws)
  {
    hide Filled, EntryHeaderBytes, Join, DescTable, DataSectors;
    FilledEnds(EntryHeaderBytes(EncodedLength(|ws|), sequence, tail, guid, flushed, last, |ws|), sequence, ws, zeros);
  }

  method PutHeader(buf: array<byte>, length: nat, sequence: u64, tail: u32, guid: Guid, flushed: u64, last: u64, n: nat)
    requires buf.Length >= ENTRY_HEADER && buf[..] == Zeros(buf.Length)
    modifies buf
    ensures buf[..] == EntryHeaderBytes(length, sequence, tail, guid, flushed, last,
      n) + Zeros(buf.Length - ENTRY_HEADER)
  {
    hide Le, Row0, Row1, Row3;
    PutRow0(buf, length, tail);
    PutRow1(buf, sequence, n);
    Put(buf, 32, guid);
    PutRow3(buf, flushed, last);
    EntryRows(buf[..], length, sequence, tail, guid, flushed, last, n);
  }

  /** Four rows and zeros make an entry's header. */
  lemma EntryRows(b: Buf, length: nat, sequence: u64, tail: u32, guid: Guid, flushed: u64, last: u64, n: nat)
    requires |b| >= ENTRY_HEADER && b[..16] == Row0(length, tail) && b[16..32] == Row1(sequence, n) && b[32..48] == guid
    requires b[48..64] == Row3(flushed, last) && forall i :: ENTRY_HEADER <= i < |b| ==> b[i] == 0
    ensures b == EntryHeaderBytes(length, sequence, tail, guid, flushed, last, n) + Zeros(|b| - ENTRY_HEADER)
  {
    hide Row0, Row1, Row3;
    assert b == b[..16] + b[16..32] + b[32..48] + b[48..64] + b[64..];
    assert b[64..] == Zeros(|b| - ENTRY_HEADER);
  }

  method PutRow0(buf: array<byte>, length: nat, tail: u32)
    requires buf.Length >= ENTRY_HEADER && buf[..] == Zeros(buf.Length)
    modifies buf
    ensures buf[..16] == Row0(length, tail) && forall i :: 16 <= i < buf.Length ==> buf[i] == 0
  {
    hide Le;
    assert forall i :: 0 <= i < buf.Length ==> buf[i] == buf[..][i];
    Put(buf, 0, LOGE);
    Put(buf, 8, Le(length % TWO32, 4));
    Put(buf, 12, Le(tail, 4));
  }

  method PutRow1(buf: array<byte>, sequence: u64, n: nat)
    requires buf.Length >= ENTRY_HEADER && forall i :: 16 <= i < 32 ==> buf[i] == 0
    modifies buf
    ensures buf[16..32] == Row1(sequence, n)
    ensures forall i :: 0 <= i < buf.Length && !(16 <= i < 32) ==> buf[i] == old(buf[i])
  {
    hide Le;
    Put(buf, 16, Le(sequence, 8));
    Put(buf, 24, Le(n, 4));
  }

  method PutRow3(buf: array<byte>, flushed: u64, last: u64)
    requires buf.Length >= ENTRY_HEADER
    modifies buf
    ensures buf[48..64] == Row3(flushed, last)
    ensures forall i :: 0 <= i < buf.Length && !(48 <= i < 64) ==> buf[i] == old(buf[i])
  {
    hide Le;
    Put(buf, 48, Le(flushed, 8));
    Put(buf, 56, Le(last, 8));
  }

  method EncodeEntry(sequence: u64, tail: u32, guid: Guid, flushed: u64, last: u64, ws: seq<PendingWrite>)
    returns (r: Buf)
    ensures r == EncodedEntry(sequence, tail, guid, flushed, last, ws)
  {
    var n := |ws|;
    var base := RoundUpSector(ENTRY_HEADER + n * DESCRIPTOR);
    var length := base + n * SECTOR;
    var buf := new byte[length](_ => 0);
    PutHeader(buf, length, sequence, tail, guid, flushed, last, n);
    FillWrites(buf, sequence, tail, guid, flushed, last, ws);
    var crc := EntryCrc(buf[..]);
    Put(buf, 4, Le(crc, 4));
    return buf[..];
  }

  /** The loop over the writes. */
  method FillWrites(buf: array<byte>, sequence: u64, tail: u32, guid: Guid, flushed: u64, last: u64,
                    ws: seq<PendingWrite>)
    requires buf.Length == EncodedLength(|ws|)
    requires buf[..] == EntryHeaderBytes(buf.Length, sequence, tail, guid, flushed, last,
      |ws|) + Zeros(buf.Length - ENTRY_HEADER)
    modifies buf
    ensures buf[..] == EntryBody(sequence, tail, guid, flushed, last, ws)
  {
    ghost var h := EntryHeaderBytes(buf.Length, sequence, tail, guid, flushed, last, |ws|);
    hide Filled, EntryHeaderBytes, EntryBody, DescBytes, DataSector, Splice, Zeros, RoundUpSector;
    FilledIsBody(sequence, tail, guid, flushed, last, ws, buf[..]);
    var base := DataBase(|ws|);
    var i := 0;
    while i < |ws|
      invariant 0 <= i <= |ws|
      invariant buf[..] == Filled(h, ws, sequence, i)
    {
      PutWrite(buf, base, ws, sequence, i, h);
      i := i + 1;
    }
  }

  /** One descriptor and its data sector. */
  method PutWrite(buf: array<byte>, base: nat, ws: seq<PendingWrite>, sequence: u64, i: nat, ghost h: Buf)
    requires |h| == ENTRY_HEADER && i < |ws| && base == DataBase(|ws|) && buf[..] == Filled(h, ws, sequence, i)
    modifies buf
    ensures buf[..] == Filled(h, ws, sequence, i + 1)
  {
    hide Filled, DescBytes, DataSector, Splice, RoundUpSector;
    FilledStep(h, ws, sequence, i);
    Put(buf, ENTRY_HEADER + i * DESCRIPTOR, DescBytes(ws[i], sequence));
    Put(buf, base + i * SECTOR, DataSector(ws[i], sequence));
  }
}
