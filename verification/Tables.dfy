/** The region table and the metadata region as bytes (src/region_table.rs and
    src/metadata.rs; sections 2.2.3 and 2.6 of MS-VHDX): the decoders the crate opens an
    image with, and encoders they undo. */
module Tables {
  import opened Bytes
  import opened Crc32c
  import opened LogFormat
  import opened Headers
  import opened Open

  const REGI: Buf := [0x72, 0x65, 0x67, 0x69]
  const METADATA_SIGNATURE: Buf := [0x6D, 0x65, 0x74, 0x61, 0x64, 0x61, 0x74, 0x61]

  /** The most entries either table may declare, and the size of one. */
  const MAX_ROWS: nat := 2047
  const ROW: nat := 32

  const BAT_GUID: Guid :=
    [0x66, 0x77, 0xC2, 0x2D, 0x23, 0xF6, 0x00, 0x42, 0x9D, 0x64, 0x11, 0x5E, 0x9B, 0xFD, 0x4A, 0x08]
  const METADATA_GUID: Guid :=
    [0x06, 0xA2, 0x7C, 0x8B, 0x90, 0x47, 0x9A, 0x4B, 0xB8, 0xFE, 0x57, 0x5F, 0x05, 0x0F, 0x88, 0x6E]

  const FILE_PARAMETERS: Guid :=
    [0x37, 0x67, 0xA1, 0xCA, 0x36, 0xFA, 0x43, 0x4D, 0xB3, 0xB6, 0x33, 0xF0, 0xAA, 0x44, 0xE7, 0x6B]
  const VIRTUAL_DISK_SIZE: Guid :=
    [0x24, 0x42, 0xA5, 0x2F, 0x1B, 0xCD, 0x76, 0x48, 0xB2, 0x11, 0x5D, 0xBE, 0xD8, 0x3B, 0xF4, 0xB8]
  const LOGICAL_SECTOR_SIZE: Guid :=
    [0x1D, 0xBF, 0x41, 0x81, 0x6F, 0xA9, 0x09, 0x47, 0xBA, 0x47, 0xF2, 0x33, 0xA8, 0xFA, 0xAB, 0x5F]
  const PAGE_83_DATA: Guid :=
    [0xAB, 0x12, 0xCA, 0xBE, 0xE6, 0xB2, 0x23, 0x45, 0x93, 0xEF, 0xC3, 0x09, 0xE0, 0x00, 0xC7, 0x46]
  const PHYSICAL_SECTOR_SIZE: Guid :=
    [0xC7, 0x48, 0xA3, 0xCD, 0x5D, 0x44, 0x71, 0x44, 0x9C, 0xC9, 0xE9, 0x88, 0x52, 0x51, 0xC5, 0x56]

  // ---- The region table ----

  function KindOf(g: Guid): RegionKind {
    if g == BAT_GUID then BatRegion else if g == METADATA_GUID then MetadataRegion else OtherRegion
  }

  /** The entry at `off`. */
  function RegionAt(b: Buf, off: nat): Region
    requires off + ROW <= |b|
  {
    Region(KindOf(b[off..off + 16]), ReadU64(b, off + 16), ReadU32(b, off + 24), ReadU32(b, off + 28) % 2 == 1)
  }

  /** The checksum of the 64 KiB with the checksum field zeroed. */
  function TableCrc(b: Buf): u32
    requires |b| >= TABLE_SIZE
  {
    Crc(Splice(b[..TABLE_SIZE], 4, Zeros(4)))
  }

  function Regions(b: Buf, n: nat): (rt: RegionTable)
    requires n <= MAX_ROWS && |b| >= TABLE_SIZE
    ensures |rt| == n && forall i :: 0 <= i < n ==> rt[i] == RegionAt(b, 16 + i * ROW)
  {
    seq(n, i requires 0 <= i < n => RegionAt(b, 16 + i * ROW))
  }

  function ParseTable(b: Buf): Option<RegionTable> {
    if |b| < TABLE_SIZE || b[0..4] != REGI || ReadU32(b, 4) != TableCrc(b) || ReadU32(b, 8) > MAX_ROWS then None
    else Some(Regions(b, ReadU32(b, 8)))
  }

  /** `RegionTable::parse`, entry by entry. */
  method ParseRegionTable(b: Buf) returns (r: Option<RegionTable>)
    ensures r == ParseTable(b)
  {
    hide RegionAt, TableCrc;
    if |b| < TABLE_SIZE || b[0..4] != REGI {
      return None;
    }
    if ReadU32(b, 4) != TableCrc(b) {
      return None;
    }
    var count := ReadU32(b, 8);
    if count > MAX_ROWS {
      return None;
    }
    var entries: RegionTable := [];
    for i := 0 to count
      invariant |entries| == i && forall k :: 0 <= k < i ==> entries[k] == RegionAt(b, 16 + k * ROW)
    {
      entries := entries + [RegionAt(b, 16 + i * ROW)];
    }
    assert entries == Regions(b, count);
    return Some(entries);
  }

  // ---- The metadata region ----

  datatype Item = Item(id: Guid, offset: u32, length: u32, flags: u32)

  function ItemAt(b: Buf, off: nat): Item
    requires off + ROW <= |b|
  {
    Item(b[off..off + 16], ReadU32(b, off + 16), ReadU32(b, off + 20), ReadU32(b, off + 24))
  }

  function Items(b: Buf, n: nat): (items: seq<Item>)
    requires 32 + n * ROW <= |b|
    ensures |items| == n && forall i :: 0 <= i < n ==> items[i] == ItemAt(b, 32 + i * ROW)
  {
    seq(n, i requires 0 <= i < n => ItemAt(b, 32 + i * ROW))
  }

  function FindItem(items: seq<Item>, id: Guid): (r: Option<Item>)
    ensures r.Some? ==> r.value in items && r.value.id == id
    ensures r.None? ==> forall e :: e in items ==> e.id != id
  {
    if items == [] then None else if items[0].id == id then Some(items[0]) else FindItem(items[1..], id)
  }

  /** The bytes of the first item of that name, if they lie inside the region. */
  function ItemData(b: Buf, items: seq<Item>, id: Guid): Option<Buf> {
    match FindItem(items, id)
    case None => None
    case Some(e) => if e.offset + e.length > |b| then None else Some(b[e.offset..e.offset + e.length])
  }

  predicate Recognised(id: Guid) {
    id in {FILE_PARAMETERS, VIRTUAL_DISK_SIZE, PAGE_83_DATA, LOGICAL_SECTOR_SIZE, PHYSICAL_SECTOR_SIZE}
  }

  predicate ItemRequired(e: Item) { e.flags / 4 % 2 == 1 }

  function ParseItems(b: Buf): Option<seq<Item>> {
    if |b| < 32 || b[0..8] != METADATA_SIGNATURE || ReadU16(b, 10) > MAX_ROWS || |b| < 32 + ReadU16(b, 10) * ROW
      then None
    else Some(Items(b, ReadU16(b, 10)))
  }

  /** What the three items the reader needs say. */
  function ReadItems(b: Buf, items: seq<Item>): Option<Metadata> {
    match (ItemData(b, items, FILE_PARAMETERS), ItemData(b, items, VIRTUAL_DISK_SIZE),
      ItemData(b, items, LOGICAL_SECTOR_SIZE))
    case (Some(file), Some(size), Some(sector)) =>
      if |file| < 8 || |size| < 8 || |sector| < 4 then None
      else
        Some(Metadata(ReadU32(file, 0), ReadU64(size, 0), ReadU32(sector, 0), ReadU32(file, 4) / 2 % 2 == 1,
                      exists e :: e in items && ItemRequired(e) && !Recognised(e.id)))
    case _ => None
  }

  function ParseMetadata(b: Buf): Option<Metadata> {
    match ParseItems(b)
    case None => None
    case Some(items) => ReadItems(b, items)
  }

  /** `MetadataTable::parse`, entry by entry. */
  method ParseMetadataTable(b: Buf) returns (r: Option<seq<Item>>)
    ensures r == ParseItems(b)
  {
    hide ItemAt;
    if |b| < 32 || b[0..8] != METADATA_SIGNATURE {
      return None;
    }
    var count := ReadU16(b, 10);
    if count > MAX_ROWS || |b| < 32 + count * ROW {
      return None;
    }
    var items: seq<Item> := [];
    for i := 0 to count
      invariant |items| == i && forall k :: 0 <= k < i ==> items[k] == ItemAt(b, 32 + k * ROW)
    {
      items := items + [ItemAt(b, 32 + i * ROW)];
    }
    assert items == Items(b, count);
    return Some(items);
  }

  /** The crate's decoders. */
  function CrateDecoders(): Decoders { Decoders(ParseTable, ParseMetadata) }

  // ---- A table and its bytes ----

  datatype RegionRow = RegionRow(guid: Guid, offset: u64, length: u32, required: bool)

  function RegionOf(r: RegionRow): Region { Region(KindOf(r.guid), r.offset, r.length, r.required) }

  function RowBytes(r: RegionRow): (b: Buf)
    ensures |b| == ROW
  {
    r.guid + Le(r.offset, 8) + Le(r.length, 4) + Le(if r.required then 1 else 0, 4)
  }

  function RowTable(rows: seq<RegionRow>): (t: seq<Buf>)
    ensures |t| == |rows| && forall p :: p in t ==> |p| == ROW
    ensures forall i :: 0 <= i < |rows| ==> t[i] == RowBytes(rows[i])
  {
    seq(|rows|, i requires 0 <= i < |rows| => RowBytes(rows[i]))
  }

  function TableHead(n: nat): (b: Buf)
    ensures |b| == 16
  {
    REGI + Zeros(4) + Le(n, 4) + Zeros(4)
  }

  function TableBody(rows: seq<RegionRow>): (b: Buf)
    requires |rows| <= MAX_ROWS
    ensures |b| == TABLE_SIZE
  {
    JoinLength(RowTable(rows), ROW);
    TableHead(|rows|) + Join(RowTable(rows)) + Zeros(TABLE_SIZE - 16 - ROW * |rows|)
  }

  /** A region table that declares `rows`. */
  function EncodedTable(rows: seq<RegionRow>): (b: Buf)
    requires |rows| <= MAX_ROWS
    ensures |b| == TABLE_SIZE
  {
    Splice(TableBody(rows), 4, Le(TableCrc(TableBody(rows)), 4))
  }

  /** The checksum does not depend on the stored checksum. */
  lemma TableCrcIgnoresItsField(b: Buf, field: Buf)
    requires |b| >= TABLE_SIZE && |field| == 4
    ensures TableCrc(Splice(b, 4, field)) == TableCrc(b)
  {
    assert Splice(b, 4, field)[..TABLE_SIZE] == Splice(b[..TABLE_SIZE], 4, field);
    assert Splice(Splice(b[..TABLE_SIZE], 4, field), 4, Zeros(4)) == Splice(b[..TABLE_SIZE], 4, Zeros(4));
  }

  lemma RowFields(b: Buf, off: nat, r: RegionRow)
    requires off + ROW <= |b| && b[off..off + ROW] == RowBytes(r)
    ensures RegionAt(b, off) == RegionOf(r)
  {
    hide Le, KindOf;
    FourParts(r.guid, Le(r.offset, 8), Le(r.length, 4), Le(if r.required then 1 else 0, 4));
    SubSlice(b, off, off + ROW, 0, 16);
    SubSlice(b, off, off + ROW, 16, 24);
    SubSlice(b, off, off + ROW, 24, 28);
    SubSlice(b, off, off + ROW, 28, 32);
    ReadsLe64(b, off + 16, r.offset);
    ReadsLe32(b, off + 24, r.length);
    ReadsLe32(b, off + 28, if r.required then 1 else 0);
  }

  lemma MiddleOf(a: Buf, b: Buf, c: Buf, lo: nat, hi: nat)
    requires lo <= hi <= |b|
    ensures (a + b + c)[|a| + lo..|a| + hi] == b[lo..hi]
  {
  }

  lemma TableRow(rows: seq<RegionRow>, i: nat)
    requires i < |rows| <= MAX_ROWS
    ensures EncodedTable(rows)[16 + i * ROW..16 + i * ROW + ROW] == RowBytes(rows[i])
  {
    hide RowBytes, TableCrc, Splice, TableHead;
    var t := RowTable(rows);
    JoinLength(t, ROW);
    JoinAt(t, ROW, i);
    var body, lo := TableBody(rows), 16 + i * ROW;
    MiddleOf(TableHead(|rows|), Join(t), Zeros(TABLE_SIZE - 16 - ROW * |rows|), ROW * i, ROW * i + ROW);
    SpliceOutside(body, 4, Le(TableCrc(body), 4), lo, lo + ROW);
  }

  lemma TableHeadFields(rows: seq<RegionRow>)
    requires |rows| <= MAX_ROWS
    ensures var b := EncodedTable(rows);
      b[0..4] == REGI && ReadU32(b, 8) == |rows| && ReadU32(b, 4) == TableCrc(b)
  {
    hide RowBytes, TableCrc, Splice, Join, Le;
    var body, b := TableBody(rows), EncodedTable(rows);
    var head, crc := TableHead(|rows|), Le(TableCrc(body), 4);
    FourParts(REGI, Zeros(4), Le(|rows|, 4), Zeros(4));
    HeadOf(head, body[16..], 0, 4);
    HeadOf(head, body[16..], 8, 12);
    assert body == head + body[16..];
    hide TableBody, TableHead;
    TableCrcIgnoresItsField(body, crc);
    SpliceInside(body, 4, crc);
    SpliceOutside(body, 4, crc, 0, 4);
    SpliceOutside(body, 4, crc, 8, 12);
    ReadsLe32(b, 4, TableCrc(body));
    ReadsLe32(b, 8, |rows|);
  }

  /** Any table that fits comes back from its bytes, entry for entry and in order. */
  lemma TableRoundTrip(rows: seq<RegionRow>)
    requires |rows| <= MAX_ROWS
    ensures ParseTable(EncodedTable(rows)) == Some(seq(|rows|, i requires 0 <= i < |rows| => RegionOf(rows[i])))
  {
    hide EncodedTable, RegionAt, RegionOf, RowBytes, TableCrc;
    var b := EncodedTable(rows);
    TableHeadFields(rows);
    forall i | 0 <= i < |rows|
      ensures RegionAt(b, 16 + i * ROW) == RegionOf(rows[i])
    {
      TableRow(rows, i);
      RowFields(b, 16 + i * ROW, rows[i]);
    }
    assert Regions(b, |rows|) == seq(|rows|, i requires 0 <= i < |rows| => RegionOf(rows[i]));
  }

  // ---- Metadata and its bytes ----

  function ItemBytes(e: Item): (b: Buf)
    ensures |b| == ROW
  {
    e.id + (Le(e.offset, 4) + Le(e.length, 4) + Le(e.flags, 4) + Zeros(4))
  }

  /** The three items the reader needs, their data after the entries. */
  const FILE_ITEM: Item := Item(FILE_PARAMETERS, 128, 8, 4)
  const SIZE_ITEM: Item := Item(VIRTUAL_DISK_SIZE, 136, 8, 4)
  const SECTOR_ITEM: Item := Item(LOGICAL_SECTOR_SIZE, 144, 4, 4)

  function MetadataHead(): (b: Buf)
    ensures |b| == 32
  {
    METADATA_SIGNATURE + Zeros(2) + Le(3, 2) + Zeros(20)
  }

  function MetadataRows(): (b: Buf)
    ensures |b| == 128
  {
    MetadataHead() + ItemBytes(FILE_ITEM) + ItemBytes(SIZE_ITEM) + ItemBytes(SECTOR_ITEM)
  }

  function MetadataData(blockSize: u32, virtualSize: u64, sectorSize: u32, hasParent: bool): (b: Buf)
    ensures |b| == 20
  {
    Le(blockSize, 4) + Le(if hasParent then 2 else 0, 4) + Le(virtualSize, 8) + Le(sectorSize, 4)
  }

  /** A metadata region of `n` bytes with those three items. */
  function EncodedMetadata(n: nat, blockSize: u32, virtualSize: u64, sectorSize: u32, hasParent: bool): (b: Buf)
    requires n >= 148
    ensures |b| == n
  {
    MetadataRows() + MetadataData(blockSize, virtualSize, sectorSize, hasParent) + Zeros(n - 148)
  }

  lemma ItemFields(b: Buf, off: nat, e: Item)
    requires off + ROW <= |b| && b[off..off + ROW] == ItemBytes(e)
    ensures ItemAt(b, off) == e
  {
    hide Le;
    FourParts(Le(e.offset, 4), Le(e.length, 4), Le(e.flags, 4), Zeros(4));
    SubSlice(b, off, off + ROW, 0, 16);
    var r := ItemBytes(e)[16..];
    SubSlice(b, off, off + ROW, 16, 20);
    SubSlice(b, off, off + ROW, 20, 24);
    SubSlice(b, off, off + ROW, 24, 28);
    assert r == Le(e.offset, 4) + Le(e.length, 4) + Le(e.flags, 4) + Zeros(4);
    SubSlice(ItemBytes(e), 16, ROW, 0, 4);
    SubSlice(ItemBytes(e), 16, ROW, 4, 8);
    SubSlice(ItemBytes(e), 16, ROW, 8, 12);
    ReadsLe32(b, off + 16, e.offset);
    ReadsLe32(b, off + 20, e.length);
    ReadsLe32(b, off + 24, e.flags);
  }

  lemma MetadataEntries()
    ensures var r := MetadataRows();
      r[0..8] == METADATA_SIGNATURE && r[10..12] == Le(3, 2)
      && r[32..64] == ItemBytes(FILE_ITEM) && r[64..96] == ItemBytes(SIZE_ITEM) && r[96..128] == ItemBytes(SECTOR_ITEM)
  {
    hide Le, ItemBytes;
    FourParts(METADATA_SIGNATURE, Zeros(2), Le(3, 2), Zeros(20));
    FourParts(MetadataHead(), ItemBytes(FILE_ITEM), ItemBytes(SIZE_ITEM), ItemBytes(SECTOR_ITEM));
    var h := MetadataHead();
    hide MetadataHead;
    var r := MetadataRows();
    SubSlice(r, 0, 32, 0, 8);
    SubSlice(r, 0, 32, 10, 12);
  }

  lemma MetadataItems(b: Buf)
    requires |b| >= 128 && b[0..128] == MetadataRows()
    ensures ParseItems(b) == Some([FILE_ITEM, SIZE_ITEM, SECTOR_ITEM])
  {
    hide Le, ItemBytes, MetadataRows, ItemAt;
    MetadataEntries();
    SubSlice(b, 0, 128, 0, 8);
    SubSlice(b, 0, 128, 10, 12);
    SubSlice(b, 0, 128, 32, 64);
    SubSlice(b, 0, 128, 64, 96);
    SubSlice(b, 0, 128, 96, 128);
    ReadsLe16(b, 10, 3);
    ItemFields(b, 32, FILE_ITEM);
    ItemFields(b, 64, SIZE_ITEM);
    ItemFields(b, 96, SECTOR_ITEM);
    assert Items(b, 3) == [FILE_ITEM, SIZE_ITEM, SECTOR_ITEM];
  }

  lemma NamesDiffer()
    ensures FILE_PARAMETERS != VIRTUAL_DISK_SIZE && FILE_PARAMETERS != LOGICAL_SECTOR_SIZE
      && VIRTUAL_DISK_SIZE != LOGICAL_SECTOR_SIZE
  {
    assert FILE_PARAMETERS[0] != VIRTUAL_DISK_SIZE[0] && FILE_PARAMETERS[0] != LOGICAL_SECTOR_SIZE[0];
    assert VIRTUAL_DISK_SIZE[0] != LOGICAL_SECTOR_SIZE[0];
  }

  lemma FindThree()
    ensures var items := [FILE_ITEM, SIZE_ITEM, SECTOR_ITEM];
      FindItem(items, FILE_PARAMETERS) == Some(FILE_ITEM) && FindItem(items, VIRTUAL_DISK_SIZE) == Some(SIZE_ITEM)
      && FindItem(items, LOGICAL_SECTOR_SIZE) == Some(SECTOR_ITEM)
  {
    NamesDiffer();
    var items := [FILE_ITEM, SIZE_ITEM, SECTOR_ITEM];
    assert items[1..] == [SIZE_ITEM, SECTOR_ITEM] && items[1..][1..] == [SECTOR_ITEM];
  }

  lemma NoneUnknown(items: seq<Item>)
    requires items == [FILE_ITEM, SIZE_ITEM, SECTOR_ITEM]
    ensures !exists e :: e in items && ItemRequired(e) && !Recognised(e.id)
  {
  }

  lemma DataFields(b: Buf, blockSize: u32, virtualSize: u64, sectorSize: u32, hasParent: bool)
    requires |b| >= 148 && b[128..148] == MetadataData(blockSize, virtualSize, sectorSize, hasParent)
    ensures ReadU32(b[128..136], 0) == blockSize && ReadU32(b[128..136], 4) == if hasParent then 2 else 0
    ensures ReadU64(b[136..144], 0) == virtualSize && ReadU32(b[144..148], 0) == sectorSize
  {
    var flags := if hasParent then 2 else 0;
    FourParts(Le(blockSize, 4), Le(flags, 4), Le(virtualSize, 8), Le(sectorSize, 4));
    hide Le;
    SubSlice(b, 128, 148, 0, 4);
    SubSlice(b, 128, 148, 4, 8);
    SubSlice(b, 128, 148, 8, 16);
    SubSlice(b, 128, 148, 16, 20);
    SubSlice(b, 128, 136, 0, 4);
    SubSlice(b, 128, 136, 4, 8);
    SubSlice(b, 136, 144, 0, 8);
    SubSlice(b, 144, 148, 0, 4);
    ReadsLe32(b[128..136], 0, blockSize);
    ReadsLe32(b[128..136], 4, flags);
    ReadsLe64(b[136..144], 0, virtualSize);
    ReadsLe32(b[144..148], 0, sectorSize);
  }

  /** Any geometry comes back from its metadata. */
  lemma MetadataRoundTrip(n: nat, blockSize: u32, virtualSize: u64, sectorSize: u32, hasParent: bool)
    requires n >= 148
    ensures ParseMetadata(EncodedMetadata(n, blockSize, virtualSize, sectorSize, hasParent))
      == Some(Metadata(blockSize, virtualSize, sectorSize, hasParent, false))
  {
    hide MetadataRows, MetadataData, ParseItems, Recognised, ItemRequired, FindItem;
    var b := EncodedMetadata(n, blockSize, virtualSize, sectorSize, hasParent);
    var rows, data := MetadataRows(), MetadataData(blockSize, virtualSize, sectorSize, hasParent);
    MiddleOf(rows, data, Zeros(n - 148), 0, 20);
    assert b[0..128] == rows;
    hide EncodedMetadata;
    MetadataItems(b);
    FindThree();
    NoneUnknown([FILE_ITEM, SIZE_ITEM, SECTOR_ITEM]);
    DataFields(b, blockSize, virtualSize, sectorSize, hasParent);
  }
}
