/** Exactly which bytes are a header, a region table or a metadata region (sections 2.2.2,
    2.2.3 and 2.6 of MS-VHDX), field by field. */
module Layouts {
  import opened Bytes
  import opened Crc32c
  import opened LogFormat
  import opened Headers
  import opened Open
  import opened Tables

  /** A signature as its letters. */
  function Ascii(s: string): Buf
    requires forall i :: 0 <= i < |s| ==> s[i] as int < 128
  {
    seq(|s|, i requires 0 <= i < |s| => s[i] as int)
  }

  // ---- Fields ----

  lemma Field16(b: Buf, off: nat, x: u16)
    requires off + 2 <= |b|
    ensures ReadU16(b, off) == x <==> b[off..off + 2] == Le(x, 2)
  {
    hide Le, LeNat;
    LeOfLeNat(b[off..off + 2]);
    if b[off..off + 2] == Le(x, 2) {
      ReadsLe16(b, off, x);
    }
  }

  lemma Field32(b: Buf, off: nat, x: u32)
    requires off + 4 <= |b|
    ensures ReadU32(b, off) == x <==> b[off..off + 4] == Le(x, 4)
  {
    hide Le, LeNat;
    LeOfLeNat(b[off..off + 4]);
    if b[off..off + 4] == Le(x, 4) {
      ReadsLe32(b, off, x);
    }
  }

  lemma Field64(b: Buf, off: nat, x: u64)
    requires off + 8 <= |b|
    ensures ReadU64(b, off) == x <==> b[off..off + 8] == Le(x, 8)
  {
    hide Le, LeNat;
    LeOfLeNat(b[off..off + 8]);
    if b[off..off + 8] == Le(x, 8) {
      ReadsLe64(b, off, x);
    }
  }

  // ---- Headers ----

  /** The 4 KiB of a header. What the format leaves reserved may be anything. */
  predicate HeaderBytes(b: Buf, h: Header) {
    |b| >= 4096 && b[0..4] == Ascii("head") && b[4..8] == Le(Crc(b[0..4] + [0, 0, 0, 0] + b[8..4096]), 4)
    && b[8..16] == Le(h.sequence, 8)
    && b[16..32] == h.fileWriteGuid && b[32..48] == h.dataWriteGuid && b[48..64] == h.logGuid
    && b[64..66] == Le(h.logVersion, 2) && b[66..68] == Le(1, 2) && h.version == 1
    && b[68..72] == Le(h.logLength, 4) && b[72..80] == Le(h.logOffset, 8)
  }

  lemma HeaderSum(b: Buf)
    requires |b| >= 4096
    ensures HeaderCrc(b) == Crc(b[0..4] + [0, 0, 0, 0] + b[8..4096])
  {
    hide Crc;
    assert Splice(b[..HEADER_SIZE], 4, Zeros(4)) == b[0..4] + [0, 0, 0, 0] + b[8..4096];
  }

  /** Bytes parse to a header exactly when they are laid out as it, version 1. */
  lemma HeaderExactly(b: Buf, h: Header)
    ensures ParseHeader(b) == Ok(h) <==> HeaderBytes(b, h)
  {
    hide Le, LeNat, Ascii, HeaderCrc, Crc, ReadU16, ReadU32, ReadU64;
    HeadLetters();
    if |b| >= 4096 {
      HeaderSum(b);
      Field32(b, 4, HeaderCrc(b));
      Field64(b, 8, h.sequence);
      Field16(b, 64, h.logVersion);
      Field16(b, 66, h.version);
      Field16(b, 66, 1);
      Field32(b, 68, h.logLength);
      Field64(b, 72, h.logOffset);
    }
  }

  lemma HeadLetters()
    ensures HEAD == Ascii("head")
  {
  }

  /** The slot holds a header. */
  ghost predicate SlotHolds(d: Buf, off: nat, h: Header) {
    off + 4096 <= |d| && HeaderBytes(d[off..off + 4096], h)
  }

  /** `h` is in that slot, at 64 or 128 KiB, and the other holds none with a higher number,
      nor, if it is the first, with the same. */
  ghost predicate Current(d: Buf, h: Header, slot: Slot) {
    match slot
    case One => SlotHolds(d, 0x1_0000, h) && forall k :: SlotHolds(d, 0x2_0000, k) ==> k.sequence <= h.sequence
    case Two => SlotHolds(d, 0x2_0000, h) && forall k :: SlotHolds(d, 0x1_0000, k) ==> k.sequence < h.sequence
  }

  lemma SlotExactly(d: Buf, slot: Slot, h: Header)
    ensures Probe(d, slot) == Ok(h) <==> SlotHolds(d, slot.Offset(), h)
  {
    hide ParseHeader, HeaderBytes;
    if slot.Offset() + 4096 <= |d| {
      HeaderExactly(d[slot.Offset()..slot.Offset() + 4096], h);
    }
  }

  /** It is the header picked; and none is picked exactly when neither slot holds one. */
  lemma PickExactly(d: Buf, h: Header, slot: Slot)
    ensures PickHeader(d) == Ok((h, slot)) <==> Current(d, h, slot)
    ensures PickHeader(d) == Err(NoValidHeader)
      <==> forall k :: !SlotHolds(d, 0x1_0000, k) && !SlotHolds(d, 0x2_0000, k)
  {
    hide Probe, SlotHolds;
    forall k
      ensures Probe(d, One) == Ok(k) <==> SlotHolds(d, 0x1_0000, k)
      ensures Probe(d, Two) == Ok(k) <==> SlotHolds(d, 0x2_0000, k)
    {
      SlotExactly(d, One, k);
      SlotExactly(d, Two, k);
    }
    if Probe(d, One).Ok? {
      assert SlotHolds(d, 0x1_0000, Probe(d, One).value);
    }
    if Probe(d, Two).Ok? {
      assert SlotHolds(d, 0x2_0000, Probe(d, Two).value);
    }
  }

  // ---- The region table ----

  function ByteOf(g: Guid, i: nat): int
    requires i < 16
  {
    g[i]
  }

  /** A GUID as it is printed, group by group: the first three are stored little-endian. */
  predicate Printed(g: Guid, a: int, b: int, c: int, d: int, e: int) {
    a == ByteOf(g, 0) + 0x100 * ByteOf(g, 1) + 0x1_0000 * ByteOf(g, 2) + 0x100_0000 * ByteOf(g, 3)
    && b == ByteOf(g, 4) + 0x100 * ByteOf(g, 5) && c == ByteOf(g, 6) + 0x100 * ByteOf(g, 7)
    && d == 0x100 * ByteOf(g, 8) + ByteOf(g, 9)
    && e == 0x100_0000_0000 * ByteOf(g, 10) + 0x1_0000_0000 * ByteOf(g, 11) + 0x100_0000 * ByteOf(g, 12)
            + 0x1_0000 * ByteOf(g, 13) + 0x100 * ByteOf(g, 14) + ByteOf(g, 15)
  }

  /** The GUIDs the format gives the two regions and the five items. */
  lemma GuidsAsPrinted()
    ensures Printed(BAT_GUID, 0x2DC2_7766, 0xF623, 0x4200, 0x9D64, 0x115E_9BFD_4A08)
    ensures Printed(METADATA_GUID, 0x8B7C_A206, 0x4790, 0x4B9A, 0xB8FE, 0x575F_050F_886E)
    ensures Printed(FILE_PARAMETERS, 0xCAA1_6737, 0xFA36, 0x4D43, 0xB3B6, 0x33F0_AA44_E76B)
    ensures Printed(VIRTUAL_DISK_SIZE, 0x2FA5_4224, 0xCD1B, 0x4876, 0xB211, 0x5DBE_D83B_F4B8)
    ensures Printed(LOGICAL_SECTOR_SIZE, 0x8141_BF1D, 0xA96F, 0x4709, 0xBA47, 0xF233_A8FA_AB5F)
    ensures Printed(PAGE_83_DATA, 0xBECA_12AB, 0xB2E6, 0x4523, 0x93EF, 0xC309_E000_C746)
    ensures Printed(PHYSICAL_SECTOR_SIZE, 0xCDA3_48C7, 0x445D, 0x4471, 0x9CC9, 0xE988_5251_C556)
  {
  }

  predicate RegionBytes(b: Buf, r: Region)
    requires |b| == 32
  {
    (r.kind.BatRegion? <==> b[0..16] == BAT_GUID) && (r.kind.MetadataRegion? <==> b[0..16] == METADATA_GUID)
    && b[16..24] == Le(r.offset, 8) && b[24..28] == Le(r.length, 4) && (r.required <==> b[28] % 2 == 1)
  }

  /** The 64 KiB of a region table. */
  predicate TableBytes(b: Buf, rt: RegionTable) {
    |b| >= 0x1_0000 && b[0..4] == Ascii("regi") && b[4..8] == Le(Crc(b[0..4] + [0, 0, 0, 0] + b[8..0x1_0000]), 4)
    && |rt| <= 2047 && b[8..12] == Le(|rt|, 4)
    && forall i :: 0 <= i < |rt| ==> RegionBytes(b[16 + 32 * i..16 + 32 * i + 32], rt[i])
  }

  lemma TableSum(b: Buf)
    requires |b| >= 0x1_0000
    ensures TableCrc(b) == Crc(b[0..4] + [0, 0, 0, 0] + b[8..0x1_0000])
  {
    hide Crc;
    assert Splice(b[..TABLE_SIZE], 4, Zeros(4)) == b[0..4] + [0, 0, 0, 0] + b[8..0x1_0000];
  }

  lemma LowBit(b: Buf, off: nat)
    requires off + 4 <= |b|
    ensures ReadU32(b, off) % 2 == b[off] % 2
  {
    var s := b[off..off + 4];
    var rest := LeNat(s[1..]);
    assert ReadU32(b, off) == s[0] + 256 * rest;
  }

  lemma KindsDiffer()
    ensures BAT_GUID != METADATA_GUID
  {
    assert BAT_GUID[0] != METADATA_GUID[0];
  }

  lemma RegionExactly(b: Buf, off: nat, r: Region)
    requires off + 32 <= |b|
    ensures RegionAt(b, off) == r <==> RegionBytes(b[off..off + 32], r)
  {
    hide Le, LeNat, ReadU64, ReadU32;
    KindsDiffer();
    LowBit(b, off + 28);
    Field64(b, off + 16, r.offset);
    Field32(b, off + 24, r.length);
    SubSlice(b, off, off + 32, 0, 16);
    SubSlice(b, off, off + 32, 16, 24);
    SubSlice(b, off, off + 32, 24, 28);
    assert b[off..off + 32][28] == b[off + 28];
  }

  /** Bytes parse to a region table exactly when they are laid out as it. */
  lemma TableExactly(b: Buf, rt: RegionTable)
    ensures ParseTable(b) == Some(rt) <==> TableBytes(b, rt)
  {
    hide Le, LeNat, Ascii, TableCrc, Crc, ReadU32, RegionAt, RegionBytes;
    RegiLetters();
    if |b| >= 0x1_0000 {
      TableSum(b);
      Field32(b, 4, TableCrc(b));
      if |rt| <= 2047 {
        Field32(b, 8, |rt|);
        forall i | 0 <= i < |rt|
          ensures RegionAt(b, 16 + i * ROW) == rt[i] <==> RegionBytes(b[16 + 32 * i..16 + 32 * i + 32], rt[i])
        {
          RegionExactly(b, 16 + 32 * i, rt[i]);
        }
        if TableBytes(b, rt) {
          assert Regions(b, |rt|) == rt;
        }
      }
    }
  }

  lemma RegiLetters()
    ensures REGI == Ascii("regi") && METADATA_SIGNATURE == Ascii("metadata")
  {
  }

  // ---- The metadata region ----

  predicate ItemBytes(b: Buf, e: Item)
    requires |b| == 32
  {
    b[0..16] == e.id && b[16..20] == Le(e.offset, 4) && b[20..24] == Le(e.length, 4) && b[24..28] == Le(e.flags, 4)
  }

  predicate ItemTable(b: Buf, items: seq<Item>) {
    |b| >= 32 + 32 * |items| && b[0..8] == Ascii("metadata") && |items| <= 2047 && b[10..12] == Le(|items|, 2)
    && forall i :: 0 <= i < |items| ==> ItemBytes(b[32 + 32 * i..32 + 32 * i + 32], items[i])
  }

  lemma ItemExactly(b: Buf, off: nat, e: Item)
    requires off + 32 <= |b|
    ensures ItemAt(b, off) == e <==> ItemBytes(b[off..off + 32], e)
  {
    hide Le, LeNat, ReadU32;
    Field32(b, off + 16, e.offset);
    Field32(b, off + 20, e.length);
    Field32(b, off + 24, e.flags);
    SubSlice(b, off, off + 32, 0, 16);
    SubSlice(b, off, off + 32, 16, 20);
    SubSlice(b, off, off + 32, 20, 24);
    SubSlice(b, off, off + 32, 24, 28);
  }

  lemma ItemsExactly(b: Buf, items: seq<Item>)
    ensures ParseItems(b) == Some(items) <==> ItemTable(b, items)
  {
    hide Le, LeNat, Ascii, ReadU16, ItemAt, ItemBytes;
    RegiLetters();
    if |b| >= 32 && |items| <= 2047 {
      Field16(b, 10, |items|);
      if |b| >= 32 + 32 * |items| {
        forall i | 0 <= i < |items|
          ensures ItemAt(b, 32 + i * ROW) == items[i] <==> ItemBytes(b[32 + 32 * i..32 + 32 * i + 32], items[i])
        {
          ItemExactly(b, 32 + 32 * i, items[i]);
        }
        if ItemTable(b, items) {
          assert Items(b, |items|) == items;
        }
      }
    }
  }

  /** `x` is what the first item of that name names, and that lies in the region. */
  ghost predicate Names(b: Buf, items: seq<Item>, id: Guid, x: Buf) {
    exists i ::
      0 <= i < |items| && items[i].id == id && (forall j :: 0 <= j < i ==> items[j].id != id)
      && items[i].offset + items[i].length <= |b| && x == b[items[i].offset..items[i].offset + items[i].length]
  }

  lemma {:induction false} FindIsFirst(items: seq<Item>, id: Guid, i: nat)
    requires i < |items| && items[i].id == id && forall j :: 0 <= j < i ==> items[j].id != id
    ensures FindItem(items, id) == Some(items[i])
  {
    if i > 0 {
      assert items[0].id != id;
      FindIsFirst(items[1..], id, i - 1);
    }
  }

  lemma {:induction false} FoundIsFirst(items: seq<Item>, id: Guid) returns (i: nat)
    requires FindItem(items, id).Some?
    ensures i < |items| && items[i].id == id && FindItem(items, id) == Some(items[i])
    ensures forall j :: 0 <= j < i ==> items[j].id != id
  {
    if items[0].id == id {
      i := 0;
    } else {
      var k := FoundIsFirst(items[1..], id);
      i := k + 1;
      assert forall j :: 0 < j < i ==> items[j] == items[1..][j - 1];
    }
  }

  lemma DataExactly(b: Buf, items: seq<Item>, id: Guid, x: Buf)
    ensures ItemData(b, items, id) == Some(x) <==> Names(b, items, id, x)
  {
    if FindItem(items, id).Some? {
      var i := FoundIsFirst(items, id);
    }
    if Names(b, items, id, x) {
      var i :| 0 <= i < |items| && items[i].id == id && (forall j :: 0 <= j < i ==> items[j].id != id)
        && items[i].offset + items[i].length <= |b| && x == b[items[i].offset..items[i].offset + items[i].length];
      FindIsFirst(items, id, i);
    }
  }

  /** What the items the reader needs say of the disk. */
  predicate SaysOfDisk(file: Buf, size: Buf, sector: Buf, m: Metadata) {
    |file| >= 8 && |size| >= 8 && |sector| >= 4
    && file[0..4] == Le(m.blockSize, 4) && (m.hasParent <==> file[4] / 2 % 2 == 1)
    && size[0..8] == Le(m.virtualSize, 8) && sector[0..4] == Le(m.sectorSize, 4)
  }

  /** An item is marked required, and is none of the five. */
  ghost predicate UnknownItem(items: seq<Item>) {
    exists e :: e in items && e.flags / 4 % 2 == 1
      && e.id !in {FILE_PARAMETERS, VIRTUAL_DISK_SIZE, LOGICAL_SECTOR_SIZE, PAGE_83_DATA, PHYSICAL_SECTOR_SIZE}
  }

  ghost predicate MetadataBytes(b: Buf, m: Metadata) {
    exists items, file, size, sector ::
      ItemTable(b, items) && (m.unknownRequired <==> UnknownItem(items))
      && Names(b, items, FILE_PARAMETERS, file) && Names(b, items, VIRTUAL_DISK_SIZE, size)
      && Names(b, items, LOGICAL_SECTOR_SIZE, sector) && SaysOfDisk(file, size, sector, m)
  }

  lemma SecondBit(b: Buf, off: nat)
    requires off + 4 <= |b|
    ensures ReadU32(b, off) / 2 % 2 == b[off] / 2 % 2
  {
    var s := b[off..off + 4];
    var rest := LeNat(s[1..]);
    assert ReadU32(b, off) == s[0] + 256 * rest;
  }

  lemma SaysExactly(file: Buf, size: Buf, sector: Buf, unknown: bool, m: Metadata)
    requires |file| >= 8 && |size| >= 8 && |sector| >= 4
    ensures m == Metadata(ReadU32(file, 0), ReadU64(size, 0), ReadU32(sector, 0), ReadU32(file, 4) / 2 % 2 == 1,
      unknown)
      <==> SaysOfDisk(file, size, sector, m) && m.unknownRequired == unknown
  {
    hide Le, LeNat, ReadU32, ReadU64;
    SecondBit(file, 4);
    Field32(file, 0, m.blockSize);
    Field64(size, 0, m.virtualSize);
    Field32(sector, 0, m.sectorSize);
  }

  lemma UnknownExactly(items: seq<Item>)
    ensures (exists e :: e in items && ItemRequired(e) && !Recognised(e.id)) <==> UnknownItem(items)
  {
  }

  /** Bytes parse to metadata exactly when they hold a table of items, the three the reader
      needs among them, that say so. */
  lemma MetadataExactly(b: Buf, m: Metadata)
    ensures ParseMetadata(b) == Some(m) <==> MetadataBytes(b, m)
  {
    hide ParseItems, ItemTable, ItemData, Names, SaysOfDisk, Recognised, ItemRequired, UnknownItem, ReadU32, ReadU64;
    forall items
      ensures ParseItems(b) == Some(items) <==> ItemTable(b, items)
    {
      ItemsExactly(b, items);
    }
    forall items: seq<Item>, id: Guid, x: Buf
      ensures ItemData(b, items, id) == Some(x) <==> Names(b, items, id, x)
    {
      DataExactly(b, items, id, x);
    }
    forall items: seq<Item>
      ensures (exists e :: e in items && ItemRequired(e) && !Recognised(e.id)) <==> UnknownItem(items)
    {
      UnknownExactly(items);
    }
    if MetadataBytes(b, m) {
      var items, file, size, sector :| ItemTable(b, items) && (m.unknownRequired <==> UnknownItem(items))
        && Names(b, items, FILE_PARAMETERS, file) && Names(b, items, VIRTUAL_DISK_SIZE, size)
        && Names(b, items, LOGICAL_SECTOR_SIZE, sector) && SaysOfDisk(file, size, sector, m);
      SaysLengths(file, size, sector, m);
      SaysExactly(file, size, sector, UnknownItem(items), m);
      assert ReadItems(b, items) == Some(m);
    }
    if ParseMetadata(b) == Some(m) {
      var items := ParseItems(b).value;
      var file, size, sector := ItemData(b, items, FILE_PARAMETERS).value, ItemData(b, items, VIRTUAL_DISK_SIZE).value,
                                ItemData(b, items, LOGICAL_SECTOR_SIZE).value;
      SaysExactly(file, size, sector, UnknownItem(items), m);
    }
  }

  lemma SaysLengths(file: Buf, size: Buf, sector: Buf, m: Metadata)
    requires SaysOfDisk(file, size, sector, m)
    ensures |file| >= 8 && |size| >= 8 && |sector| >= 4
  {
  }
}
