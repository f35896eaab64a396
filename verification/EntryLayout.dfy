/** Exactly which bytes are a log entry (section 2.3.1 of MS-VHDX), field by field, and
    what the spans its "zero" descriptors name come to. */
module EntryLayout {
  import opened Bytes
  import opened Crc32c
  import opened LogFormat
  import opened LogReplay
  import opened Devices
  import opened Layouts

  /** `len` bytes from `pos` on, counted round the end of the region. */
  function Around(log: Buf, pos: nat, len: nat): (b: Buf)
    requires log != []
    ensures |b| == len
  {
    seq(len, i requires 0 <= i => log[(pos + i) % |log|])
  }

  // ---- The layout ----

  predicate FrontLaid(b: Buf, h: LogEntryHeader)
    requires |b| >= SECTOR
  {
    |b| == h.entryLength && b[0..4] == Ascii("loge")
    && b[4..8] == Le(Crc(b[0..4] + [0, 0, 0, 0] + b[8..]), 4)
    && b[8..12] == Le(h.entryLength, 4) && b[12..16] == Le(h.tail, 4)
    && b[16..24] == Le(h.sequence, 8) && b[24..28] == Le(h.descriptorCount, 4)
    && b[32..48] == h.guid
    && b[48..56] == Le(h.flushedFileOffset, 8) && b[56..64] == Le(h.lastFileOffset, 8)
  }

  /** The sector that goes with a data descriptor: its ends are kept in the descriptor,
      and carry the stamp in their place. */
  predicate SectorLaid(s: Sector, leading: u64, trailing: u32, sequence: u64, sector: Sector) {
    s[0..4] == Ascii("data") && s[4..8] == Le(sequence / TWO32, 4) && s[4092..4096] == Le(sequence % TWO32, 4)
    && sector[0..8] == Le(leading, 8) && sector[8..4092] == s[8..4092] && sector[4092..4096] == Le(trailing, 4)
  }

  predicate DescLaid(b: Buf, off: nat, base: nat, sequence: u64, x: Descriptor)
    requires off + 32 <= |b|
  {
    x.sequence == sequence && b[off + 24..off + 32] == Le(sequence, 8) && b[off + 16..off + 24] == Le(x.fileOffset, 8)
    && match x
       case ZeroDesc(zeroLength, _, _) =>
         b[off..off + 4] == Ascii("zero") && b[off + 8..off + 16] == Le(zeroLength, 8)
       case DataDesc(trailing, leading, _, _, sector) =>
         b[off..off + 4] == Ascii("desc") && b[off + 4..off + 8] == Le(trailing, 4)
         && b[off + 8..off + 16] == Le(leading, 8)
         && base + 4096 <= |b| && SectorLaid(b[base..base + 4096], leading, trailing, sequence, sector)
  }

  /** How many of the first `i` descriptors have a data sector. */
  function DataBefore(ds: seq<Descriptor>, i: nat): nat
    requires i <= |ds|
  {
    if i == 0 then 0 else DataBefore(ds, i - 1) + if ds[i - 1].DataDesc? then 1 else 0
  }

  /** Where the data sector of descriptor `i` lies, if it has one. */
  function BaseOf(ds: seq<Descriptor>, i: nat): nat
    requires i <= |ds|
  {
    RoundUpSector(64 + 32 * |ds|) + 4096 * DataBefore(ds, i)
  }

  /** The bytes of an entry: header, descriptors, data sectors in the order of their
      descriptors. What the format leaves reserved may be anything. */
  ghost predicate EntryBytes(b: Buf, e: LogEntry)
    requires |b| >= SECTOR
  {
    FrontLaid(b, e.header) && |e.descriptors| == e.header.descriptorCount && 64 + 32 * |e.descriptors| <= |b|
    && forall i :: 0 <= i < |e.descriptors| ==>
         DescLaid(b, 64 + 32 * i, BaseOf(e.descriptors, i), e.header.sequence, e.descriptors[i])
  }

  lemma Signatures()
    ensures LOGE == Ascii("loge") && ZERO == Ascii("zero") && DESC == Ascii("desc") && DATA == Ascii("data")
    ensures ZERO != DESC
  {
    assert ZERO[0] != DESC[0];
  }

  // ---- One descriptor ----

  lemma Halves(hi: u32, lo: u32, sequence: u64)
    ensures hi * TWO32 + lo == sequence <==> hi == sequence / TWO32 && lo == sequence % TWO32
  {
  }

  lemma StampExactly(s: Sector, sequence: u64)
    ensures StampedWith(s, sequence)
      <==> s[0..4] == Ascii("data") && s[4..8] == Le(sequence / TWO32, 4) && s[4092..4096] == Le(sequence % TWO32, 4)
  {
    hide Le, LeNat, Ascii;
    Signatures();
    Field32(s, 4, sequence / TWO32);
    Field32(s, 4092, sequence % TWO32);
    Halves(ReadU32(s, 4), ReadU32(s, 4092), sequence);
  }

  lemma UnstampExactly(s: Sector, leading: u64, trailing: u32, sector: Sector)
    ensures Unstamp(s, leading, trailing) == sector
      <==> sector[0..8] == Le(leading, 8) && sector[8..4092] == s[8..4092] && sector[4092..4096] == Le(trailing, 4)
  {
    hide Le;
    var u := Unstamp(s, leading, trailing);
    assert u[0..8] == Le(leading, 8) && u[8..4092] == s[8..4092] && u[4092..4096] == Le(trailing, 4);
    hide Unstamp;
    ThreeParts(u);
    ThreeParts(sector);
  }

  lemma ThreeParts(s: Sector)
    ensures s == s[0..8] + s[8..4092] + s[4092..4096]
  {
  }

  lemma DescriptorExactly(b: Buf, sequence: u64, i: nat, base: nat, x: Descriptor)
    requires ENTRY_HEADER + (i + 1) * DESCRIPTOR <= |b|
    ensures DescriptorAt(b, sequence, i, base) == Some(x) <==> DescLaid(b, 64 + 32 * i, base, sequence, x)
  {
    hide Le, LeNat, Ascii, StampedWith, Unstamp, ReadU64, ReadU32;
    var off := 64 + 32 * i;
    Signatures();
    Field64(b, off + 24, sequence);
    Field64(b, off + 16, x.fileOffset);
    match x
    case ZeroDesc(zeroLength, _, _) =>
      Field64(b, off + 8, zeroLength);
    case DataDesc(trailing, leading, _, _, sector) =>
      Field64(b, off + 8, leading);
      Field32(b, off + 4, trailing);
      if base + 4096 <= |b| {
        StampExactly(b[base..base + 4096], sequence);
        UnstampExactly(b[base..base + 4096], leading, trailing, sector);
      }
  }

  // ---- All of them ----

  ghost predicate DescsLaid(b: Buf, sequence: u64, ds: seq<Descriptor>, i: nat)
    requires i <= |ds| && 64 + 32 * |ds| <= |b|
  {
    forall j :: i <= j < |ds| ==> DescLaid(b, 64 + 32 * j, BaseOf(ds, j), sequence, ds[j])
  }

  lemma BaseNext(ds: seq<Descriptor>, i: nat)
    requires i < |ds|
    ensures BaseOf(ds, i + 1) == if ds[i].DataDesc? then BaseOf(ds, i) + SECTOR else BaseOf(ds, i)
  {
  }

  lemma {:induction false} DescriptorsExactly(b: Buf, sequence: u64, ds: seq<Descriptor>, i: nat)
    requires i <= |ds| && 64 + 32 * |ds| <= |b|
    ensures Descriptors(b, sequence, i, |ds|, BaseOf(ds, i)) == Some(ds[i..]) <==> DescsLaid(b, sequence, ds, i)
    decreases |ds| - i
  {
    hide DescriptorAt, DescLaid, BaseOf;
    if i < |ds| {
      DescriptorExactly(b, sequence, i, BaseOf(ds, i), ds[i]);
      DescriptorsExactly(b, sequence, ds, i + 1);
      BaseNext(ds, i);
      assert ds[i..] == [ds[i]] + ds[i + 1..] && ds[i..][1..] == ds[i + 1..];
      var d := DescriptorAt(b, sequence, i, BaseOf(ds, i));
      if Descriptors(b, sequence, i, |ds|, BaseOf(ds, i)) == Some(ds[i..]) {
        var rest := Descriptors(b, sequence, i + 1, |ds|,
          if d.value.DataDesc? then BaseOf(ds, i) + SECTOR else BaseOf(ds, i));
        assert ([d.value] + rest.value)[0] == ds[i..][0] && ([d.value] + rest.value)[1..] == rest.value;
      }
    } else {
      assert ds[i..] == [];
    }
  }

  // ---- The entry ----

  lemma FrontExactly(b: Buf, guid: Guid, h: LogEntryHeader)
    requires SECTOR <= |b| < TWO32 && b[0..4] == LOGE && ReadU32(b, 8) == |b| && b[32..48] == guid
    ensures ReadU32(b, 4) == EntryCrc(b) && HeaderFields(b, guid) == h <==> FrontLaid(b, h)
  {
    hide Le, LeNat, Ascii, ReadU32, ReadU64, EntryCrc, Crc, Append;
    Signatures();
    EntryCrcWhole(b);
    assert Zeros(4) == [0, 0, 0, 0];
    Field32(b, 4, EntryCrc(b));
    Field32(b, 8, h.entryLength);
    Field32(b, 12, h.tail);
    Field64(b, 16, h.sequence);
    Field32(b, 24, h.descriptorCount);
    Field64(b, 48, h.flushedFileOffset);
    Field64(b, 56, h.lastFileOffset);
  }

  lemma FieldsExactly(b: Buf, pos: nat, guid: Guid, e: LogEntry)
    requires SECTOR <= |b| < TWO32
    ensures DecodeFields(b, pos, guid) == Entry(e)
      <==> e.pos == pos && HeaderFields(b, guid) == e.header && |e.descriptors| == e.header.descriptorCount
           && 64 + 32 * |e.descriptors| <= |b| && DescsLaid(b, e.header.sequence, e.descriptors, 0)
  {
    hide Le, LeNat, ReadU32, ReadU64, DescsLaid, RoundUpSector;
    var ds := e.descriptors;
    if 64 + 32 * |ds| <= |b| {
      DescriptorsExactly(b, e.header.sequence, ds, 0);
      assert ds[0..] == ds && BaseOf(ds, 0) == RoundUpSector(ENTRY_HEADER + |ds| * DESCRIPTOR);
    }
  }

  lemma DecodeExactly(b: Buf, pos: nat, guid: Guid, e: LogEntry)
    requires SECTOR <= |b| < TWO32 && b[0..4] == LOGE && ReadU32(b, 8) == |b| && b[32..48] == guid
    ensures Decode(b, pos, guid) == Entry(e) <==> e.pos == pos && EntryBytes(b, e)
  {
    hide Le, LeNat, ReadU32, ReadU64, EntryCrc, FrontLaid, DescLaid, DecodeFields, HeaderFields;
    FrontExactly(b, guid, e.header);
    FieldsExactly(b, pos, guid, e);
  }

  lemma CircularIsAround(log: Buf, pos: nat, len: nat)
    requires pos < |log| && len <= |log|
    ensures Circular(log, pos, len) == Around(log, pos, len)
  {
    forall i | 0 <= i < len
      ensures Circular(log, pos, len)[i] == Around(log, pos, len)[i]
    {
      RoundOnce(pos + i, |log|);
    }
  }

  lemma RoundOnce(x: nat, n: nat)
    requires n > 0 && x < 2 * n
    ensures x % n == if x < n then x else x - n
  {
  }

  /** A slot parses to an entry exactly when the bytes from it on, as many as it
      declares and counted round the end of the region, are laid out as that entry: the
      checksum is the one the bytes have with its field zero, every descriptor carries
      the entry's number, and every data sector its stamp. */
  lemma ParsesExactly(log: Buf, pos: nat, guid: Guid, e: LogEntry)
    ensures Examine(log, pos, guid) == Entry(e)
      <==> pos + 4096 <= |log| && e.pos == pos && e.header.guid == guid
           && 4096 <= e.header.entryLength <= |log| && e.header.entryLength % 4096 == 0
           && EntryBytes(Around(log, pos, e.header.entryLength), e)
  {
    hide Decode, Circular, EntryBytes, Around, ReadU32;
    if pos + SECTOR <= |log| {
      var len := e.header.entryLength;
      SlotFields(log, pos);
      if Examine(log, pos, guid) == Entry(e) {
        AcceptedEntry(log, pos, guid);
        CircularIsAround(log, pos, len);
        CircularPrefix(log, pos, len, 0, 4);
        CircularPrefix(log, pos, len, 8, 12);
        CircularPrefix(log, pos, len, 32, 48);
        SameField(log, pos + 8, Circular(log, pos, len), 8);
        DecodeExactly(Circular(log, pos, len), pos, guid, e);
      }
      if e.pos == pos && e.header.guid == guid && 4096 <= len <= |log| && len % 4096 == 0
        && EntryBytes(Around(log, pos, len), e) {
        CircularIsAround(log, pos, len);
        CircularPrefix(log, pos, len, 0, 4);
        CircularPrefix(log, pos, len, 8, 12);
        CircularPrefix(log, pos, len, 32, 48);
        BytesFront(Around(log, pos, len), e);
        SameField(log, pos + 8, Circular(log, pos, len), 8);
        DecodeExactly(Circular(log, pos, len), pos, guid, e);
      }
    }
  }

  lemma SlotFields(log: Buf, pos: nat)
    requires pos + SECTOR <= |log|
    ensures HasSignature(log, pos) <==> log[pos..pos + 4] == LOGE
    ensures DeclaredLength(log, pos) == ReadU32(log, pos + 8) && DeclaredGuid(log, pos) == log[pos + 32..pos + 48]
  {
  }

  lemma SameField(a: Buf, i: nat, b: Buf, j: nat)
    requires i + 4 <= |a| && j + 4 <= |b| && a[i..i + 4] == b[j..j + 4]
    ensures ReadU32(a, i) == ReadU32(b, j)
  {
  }

  lemma BytesFront(b: Buf, e: LogEntry)
    requires |b| >= SECTOR && EntryBytes(b, e)
    ensures b[0..4] == LOGE && ReadU32(b, 8) == |b| && b[32..48] == e.header.guid
  {
    hide Le, LeNat, ReadU32, Ascii, Crc;
    Signatures();
    Field32(b, 8, e.header.entryLength);
  }

  // ---- What a "zero" descriptor does ----

  /** Replaying an entry with one span to zero leaves zeros exactly there, and nothing else
      of the file changed. */
  lemma WipesExactly(d: Buf, capacity: nat, e: LogEntry, zeroLength: u64, fileOffset: u64)
    requires |d| <= capacity < 0x8000_0000_0000_0000 && Replay(|d|, capacity, [e]).result.Ok?
    requires e.descriptors == [ZeroDesc(zeroLength, fileOffset, e.header.sequence)]
    ensures var after := RunOps(d, Replay(|d|, capacity, [e]).ops);
      |d| <= |after| && fileOffset + zeroLength <= |after|
      && forall i :: 0 <= i < |after| ==>
           after[i] == if fileOffset <= i < fileOffset + zeroLength then 0 else if i < |d| then d[i] else 0
  {
    hide RunOps, Replay, AllowedExtent;
    var x := ZeroDesc(zeroLength, fileOffset, e.header.sequence);
    ReplayMeaning(d, capacity, [e]);
    ExtentIsLength(d, [e]);
    assert [e][1..] == [];
    assert Flatten([e]) == [x] + [] == [x];
    assert x in Flatten([e]) && Fits(x, AllowedExtent(|d|, [e]));
    var after := RunOps(d, Replay(|d|, capacity, [e]).ops);
    forall i | 0 <= i < |after|
      ensures after[i] == if fileOffset <= i < fileOffset + zeroLength then 0 else if i < |d| then d[i] else 0
    {
      OneLanding(x, i, if i < |d| then d[i] else 0, after[i]);
    }
  }

  lemma OneLanding(x: Descriptor, i: nat, before: byte, after: byte)
    requires x.ZeroDesc? && LastLanding([x], i, before, after)
    ensures after == if x.fileOffset <= i < x.fileOffset + x.zeroLength then 0 else before
  {
    assert [x][0] == x;
  }

  // ---- The steps of a chain ----

  /** Entry by entry, with a flush after each; descriptor by descriptor within one. */
  lemma {:induction false} ChainByEntry(chain: seq<LogEntry>, e: LogEntry)
    ensures ChainOps(chain + [e]) == ChainOps(chain) + DescsOps(e.descriptors, |e.descriptors|) + [Flush]
    decreases |chain|
  {
    hide AllDescOps;
    ByDescriptor(e.descriptors, |e.descriptors|);
    assert e.descriptors[..|e.descriptors|] == e.descriptors;
    if chain == [] {
      assert (chain + [e])[1..] == [];
      assert AllDescOps(e.descriptors) + [Flush] + [] == [] + AllDescOps(e.descriptors) + [Flush];
    } else {
      ChainByEntry(chain[1..], e);
      assert (chain + [e])[1..] == chain[1..] + [e];
      var a, b, c := AllDescOps(chain[0].descriptors) + [Flush], ChainOps(chain[1..]), AllDescOps(e.descriptors);
      assert a + (b + c + [Flush]) == (a + b) + c + [Flush];
    }
  }

  /** The operations of the first `n` descriptors: a span is zeroed a megabyte at a time, a
      sector is written whole. */
  function DescsOps(ds: seq<Descriptor>, n: nat): seq<DevOp>
    requires n <= |ds|
  {
    if n == 0 then []
    else
      DescsOps(ds, n - 1)
      + match ds[n - 1]
        case ZeroDesc(zeroLength, fileOffset, _) => Megabytes(fileOffset, zeroLength)
        case DataDesc(_, _, fileOffset, _, sector) => [Write(fileOffset, sector)]
  }

  function Megabytes(off: nat, len: nat): seq<DevOp>
    decreases len
  {
    if len == 0 then [] else if len <= 0x10_0000 then [Write(off, Zeros(len))]
    else [Write(off, Zeros(0x10_0000))] + Megabytes(off + 0x10_0000, len - 0x10_0000)
  }

  lemma {:induction false} ZeroIsMegabytes(off: nat, len: nat)
    ensures ZeroOps(off, len) == Megabytes(off, len)
    decreases len
  {
    hide Zeros;
    if len > 0x10_0000 {
      ZeroIsMegabytes(off + 0x10_0000, len - 0x10_0000);
    } else if len > 0 {
      assert ZeroOps(off + len, 0) == [];
    }
  }

  lemma {:induction false} ByDescriptor(ds: seq<Descriptor>, n: nat)
    requires n <= |ds|
    ensures AllDescOps(ds[..n]) == DescsOps(ds, n)
    decreases n
  {
    hide Megabytes, ZeroOps;
    if n > 0 {
      ByDescriptor(ds, n - 1);
      var x := ds[n - 1];
      assert ds[..n] == ds[..n - 1] + [x] && [x][1..] == [];
      AllDescConcat(ds[..n - 1], [x]);
      assert AllDescOps([x]) == DescOps(x) + [];
      if x.ZeroDesc? {
        ZeroIsMegabytes(x.fileOffset, x.zeroLength);
      }
    }
  }

  // ---- How far a chain may take the file ----

  lemma {:induction false} CountIsFlat(chain: seq<LogEntry>)
    ensures DescriptorCount(chain) == |Flatten(chain)|
  {
    if chain != [] {
      CountIsFlat(chain[1..]);
    }
  }

  /** A file of `current` bytes may come to be `x` bytes or more exactly if it is already,
      or if an entry claims that much and it is no more than 256 MiB a descriptor away. */
  lemma ExtentExactly(current: u64, chain: seq<LogEntry>, x: u64)
    ensures AllowedExtent(current, chain) >= x
      <==> x <= current
           || ((exists e :: e in chain && e.header.lastFileOffset >= x)
              && x <= current + 256 * 0x10_0000 * |Flatten(chain)|)
  {
    CountIsFlat(chain);
    hide Flatten;
    var m := MaxLast(chain);
    if x > current && m >= x {
      var e :| e in chain && e.header.lastFileOffset == m;
    }
  }
}
