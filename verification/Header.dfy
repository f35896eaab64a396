/** The two header slots (src/header.rs, and `encode_header` and `pick_header` in
    src/reader.rs; section 2.2.2 of MS-VHDX). */
module Headers {
  import opened Bytes
  import opened Crc32c
  import opened LogFormat
  import opened Devices

  const HEADER_SIZE: nat := 4096
  const HEAD: Buf := [0x68, 0x65, 0x61, 0x64]

  datatype Header = Header(
    sequence: u64, fileWriteGuid: Guid, dataWriteGuid: Guid, logGuid: Guid,
    logVersion: u16, version: u16, logLength: u32, logOffset: u64)

  datatype Slot = One | Two {
    function Offset(): nat { if One? then 0x1_0000 else 0x2_0000 }
    function Other(): Slot { if One? then Two else One }
  }

  // ---- Encoding and parsing ----

  /** The checksum of the first 4 KiB with the checksum field zeroed. */
  function HeaderCrc(b: Buf): u32
    requires |b| >= HEADER_SIZE
  {
    Crc(Splice(b[..HEADER_SIZE], 4, Zeros(4)))
  }

  function HeaderRow0(sequence: u64): (b: Buf)
    ensures |b| == 16
  {
    HEAD + Zeros(4) + Le(sequence, 8)
  }

  function HeaderRow4(h: Header): (b: Buf)
    ensures |b| == 16
  {
    Le(h.logVersion, 2) + Le(h.version, 2) + Le(h.logLength, 4) + Le(h.logOffset, 8)
  }

  function HeaderRows(h: Header): (b: Buf)
    ensures |b| == 80
  {
    HeaderRow0(h.sequence) + h.fileWriteGuid + h.dataWriteGuid + h.logGuid + HeaderRow4(h)
  }

  function HeaderBody(h: Header): (b: Buf)
    ensures |b| == HEADER_SIZE
  {
    HeaderRows(h) + Zeros(HEADER_SIZE - 80)
  }

  function EncodedHeader(h: Header): (b: Buf)
    ensures |b| == HEADER_SIZE
  {
    Splice(HeaderBody(h), 4, Le(HeaderCrc(HeaderBody(h)), 4))
  }

  function ParseHeader(b: Buf): Result<Header> {
    if |b| < HEADER_SIZE then Err(Corrupt)
    else if b[0..4] != HEAD then Err(Corrupt)
    else if ReadU32(b, 4) != HeaderCrc(b) then Err(BadChecksum)
    else if ReadU16(b, 66) != 1 then Err(Corrupt)
    else Ok(HeaderFields(b))
  }

  function HeaderFields(b: Buf): Header
    requires |b| >= HEADER_SIZE
  {
    Header(ReadU64(b, 8), b[16..32], b[32..48], b[48..64], ReadU16(b, 64), ReadU16(b, 66), ReadU32(b, 68),
      ReadU64(b, 72))
  }

  /** The checksum does not depend on the stored checksum. */
  lemma HeaderCrcIgnoresItsField(b: Buf, field: Buf)
    requires |b| >= HEADER_SIZE && |field| == 4
    ensures HeaderCrc(Splice(b, 4, field)) == HeaderCrc(b)
  {
    assert Splice(b, 4, field)[..HEADER_SIZE] == Splice(b[..HEADER_SIZE], 4, field);
    assert Splice(Splice(b[..HEADER_SIZE], 4, field), 4, Zeros(4)) == Splice(b[..HEADER_SIZE], 4, Zeros(4));
  }

  lemma FiveParts(a: Buf, b: Buf, c: Buf, d: Buf, e: Buf)
    requires |a| == |b| == |c| == |d| == |e| == 16
    ensures var x := a + b + c + d + e;
      x[0..16] == a && x[16..32] == b && x[32..48] == c && x[48..64] == d && x[64..80] == e
  {
  }

  lemma EncodedRows(h: Header)
    ensures var b := EncodedHeader(h);
      b[0..4] == HEAD && b[8..16] == Le(h.sequence, 8) && b[16..32] == h.fileWriteGuid && b[32..48] == h.dataWriteGuid
      && b[48..64] == h.logGuid && b[64..80] == HeaderRow4(h)
  {
    hide HeaderCrc, HeaderRow4;
    var rows, body, crc := HeaderRows(h), HeaderBody(h), Le(HeaderCrc(HeaderBody(h)), 4);
    FiveParts(HeaderRow0(h.sequence), h.fileWriteGuid, h.dataWriteGuid, h.logGuid, HeaderRow4(h));
    FourParts(HEAD, Zeros(4), Le(h.sequence, 8), []);
    assert HeaderRow0(h.sequence) + [] == HeaderRow0(h.sequence);
    hide HeaderRows, HeaderRow0;
    SubSlice(rows, 0, 16, 0, 4);
    SubSlice(rows, 0, 16, 8, 16);
    HeadOf(rows, Zeros(HEADER_SIZE - 80), 0, 4);
    HeadOf(rows, Zeros(HEADER_SIZE - 80), 8, 16);
    HeadOf(rows, Zeros(HEADER_SIZE - 80), 16, 32);
    HeadOf(rows, Zeros(HEADER_SIZE - 80), 32, 48);
    HeadOf(rows, Zeros(HEADER_SIZE - 80), 48, 64);
    HeadOf(rows, Zeros(HEADER_SIZE - 80), 64, 80);
    hide HeaderBody;
    SpliceOutside(body, 4, crc, 0, 4);
    SpliceOutside(body, 4, crc, 8, 16);
    SpliceOutside(body, 4, crc, 16, 32);
    SpliceOutside(body, 4, crc, 32, 48);
    SpliceOutside(body, 4, crc, 48, 64);
    SpliceOutside(body, 4, crc, 64, 80);
  }

  lemma HeadOf(a: Buf, b: Buf, lo: nat, hi: nat)
    requires lo <= hi <= |a|
    ensures (a + b)[lo..hi] == a[lo..hi]
  {
  }

  lemma Row4Fields(b: Buf, h: Header)
    requires |b| >= 80 && b[64..80] == HeaderRow4(h)
    ensures ReadU16(b, 64) == h.logVersion && ReadU16(b, 66) == h.version
    ensures ReadU32(b, 68) == h.logLength && ReadU64(b, 72) == h.logOffset
  {
    FourParts(Le(h.logVersion, 2), Le(h.version, 2), Le(h.logLength, 4), Le(h.logOffset, 8));
    SubSlice(b, 64, 80, 0, 2);
    SubSlice(b, 64, 80, 2, 4);
    SubSlice(b, 64, 80, 4, 8);
    SubSlice(b, 64, 80, 8, 16);
    ReadsLe16(b, 64, h.logVersion);
    ReadsLe16(b, 66, h.version);
    ReadsLe32(b, 68, h.logLength);
    ReadsLe64(b, 72, h.logOffset);
  }

  lemma EncodedHeaderChecksum(h: Header)
    ensures ReadU32(EncodedHeader(h), 4) == HeaderCrc(EncodedHeader(h))
  {
    var body := HeaderBody(h);
    HeaderCrcIgnoresItsField(body, Le(HeaderCrc(body), 4));
    SpliceInside(body, 4, Le(HeaderCrc(body), 4));
    ReadsLe32(EncodedHeader(h), 4, HeaderCrc(body));
  }

  /** A header survives the trip exactly when it is a version 1 header, an unknown
      log version included. */
  lemma HeaderRoundTrip(h: Header)
    ensures ParseHeader(EncodedHeader(h)) == if h.version == 1 then Ok(h) else Err(Corrupt)
  {
    hide EncodedHeader, HeaderCrc, HeaderRow4, Le;
    var b := EncodedHeader(h);
    EncodedRows(h);
    EncodedHeaderChecksum(h);
    ReadsLe64(b, 8, h.sequence);
    Row4Fields(b, h);
  }

  /** What the format leaves reserved is zero. */
  lemma ReservedIsZero(h: Header)
    ensures forall i :: 80 <= i < 4096 ==> EncodedHeader(h)[i] == 0
  {
    hide HeaderRows, HeaderCrc, Splice;
    var body := HeaderBody(h);
    forall i | 80 <= i < 4096
      ensures EncodedHeader(h)[i] == 0
    {
      SpliceAt(body, 4, Le(HeaderCrc(body), 4), i);
    }
  }

  /** The encoder, filling its buffer in place. */
  method EncodeHeader(h: Header) returns (r: Buf)
    ensures r == EncodedHeader(h)
  {
    var buf := new byte[HEADER_SIZE](_ => 0);
    PutBody(buf, h);
    hide HeaderBody, HeaderCrc;
    var crc := HeaderCrc(buf[..]);
    Put(buf, 4, Le(crc, 4));
    return buf[..];
  }

  method PutBody(buf: array<byte>, h: Header)
    requires buf.Length == HEADER_SIZE && forall i :: 0 <= i < buf.Length ==> buf[i] == 0
    modifies buf
    ensures buf[..] == HeaderBody(h)
  {
    PutRow0(buf, h);
    hide Le, HeaderRow0, HeaderRow4;
    Put(buf, 16, h.fileWriteGuid);
    Put(buf, 32, h.dataWriteGuid);
    Put(buf, 48, h.logGuid);
    PutRow4(buf, h);
    Rows(buf[..], h);
  }

  /** Six rows make a header. */
  lemma Rows(b: Buf, h: Header)
    requires |b| == HEADER_SIZE && b[0..16] == HeaderRow0(h.sequence) && b[16..32] == h.fileWriteGuid
      && b[32..48] == h.dataWriteGuid
    requires b[48..64] == h.logGuid && b[64..80] == HeaderRow4(h) && forall i :: 80 <= i < HEADER_SIZE ==> b[i] == 0
    ensures b == HeaderBody(h)
  {
    hide HeaderRow0, HeaderRow4;
    assert b == b[0..16] + b[16..32] + b[32..48] + b[48..64] + b[64..80] + b[80..];
    assert b[80..] == Zeros(HEADER_SIZE - 80);
  }

  method PutRow0(buf: array<byte>, h: Header)
    requires buf.Length == HEADER_SIZE && forall i :: 0 <= i < buf.Length ==> buf[i] == 0
    modifies buf
    ensures buf[0..16] == HeaderRow0(h.sequence)
    ensures forall i :: 16 <= i < buf.Length ==> buf[i] == 0
  {
    hide Le;
    Put(buf, 0, HEAD);
    Put(buf, 8, Le(h.sequence, 8));
  }

  method PutRow4(buf: array<byte>, h: Header)
    requires buf.Length == HEADER_SIZE
    modifies buf
    ensures buf[64..80] == HeaderRow4(h)
    ensures forall i :: 0 <= i < buf.Length && !(64 <= i < 80) ==> buf[i] == old(buf[i])
  {
    Put(buf, 64, Le(h.logVersion, 2));
    Put(buf, 66, Le(h.version, 2));
    Put(buf, 68, Le(h.logLength, 4));
    Put(buf, 72, Le(h.logOffset, 8));
  }

  // ---- Picking the current header ----

  function Probe(d: Buf, slot: Slot): Result<Header> {
    if |d| < slot.Offset() + HEADER_SIZE then Err(Corrupt)
    else ParseHeader(d[slot.Offset()..slot.Offset() + HEADER_SIZE])
  }

  /** The valid copy with the higher sequence number; on a tie, slot one. */
  function PickHeader(d: Buf): Result<(Header, Slot)> {
    match (Probe(d, One), Probe(d, Two))
    case (Ok(a), Ok(b)) => if a.sequence >= b.sequence then Ok((a, One)) else Ok((b, Two))
    case (Ok(a), Err(_)) => Ok((a, One))
    case (Err(_), Ok(b)) => Ok((b, Two))
    case (Err(_), Err(_)) => Err(NoValidHeader)
  }

  method PickHeaderOn(dev: Device) returns (r: Result<(Header, Slot)>)
    ensures r == PickHeader(dev.data)
  {
    hide ParseHeader;
    var h1 := ProbeAt(dev, One);
    var h2 := ProbeAt(dev, Two);
    match (h1, h2) {
      case (Ok(a), Ok(b)) =>
        if a.sequence >= b.sequence {
          return Ok((a, One));
        }
        return Ok((b, Two));
      case (Ok(a), Err(_)) => return Ok((a, One));
      case (Err(_), Ok(b)) => return Ok((b, Two));
      case (Err(_), Err(_)) => return Err(NoValidHeader);
    }
  }

  method ProbeAt(dev: Device, slot: Slot) returns (r: Result<Header>)
    ensures r == Probe(dev.data, slot)
  {
    if |dev.data| < slot.Offset() + HEADER_SIZE {
      return Err(Corrupt);
    }
    var b := dev.ReadAt(slot.Offset(), HEADER_SIZE);
    return ParseHeader(b.value);
  }

  // ---- Rotation ----

  /** Writing 4 KiB over the slot not in use leaves the slot in use as it was. */
  lemma ProbeOther(d: Buf, slot: Slot, bytes: Buf)
    requires |bytes| == HEADER_SIZE && |d| >= 0x2_0000 + HEADER_SIZE
    ensures var e := Splice(d, slot.Other().Offset(), bytes);
      Probe(e, slot) == Probe(d, slot) && Probe(e, slot.Other()) == ParseHeader(bytes)
  {
    var e, off := Splice(d, slot.Other().Offset(), bytes), slot.Other().Offset();
    SpliceOutside(d, off, bytes, slot.Offset(), slot.Offset() + HEADER_SIZE);
    SpliceInside(d, off, bytes);
  }

  /** A rewrite of the other slot with the next sequence number becomes the current
      header exactly when the number did not wrap. */
  lemma RotationTakes(d: Buf, h: Header, slot: Slot, next: Header)
    requires PickHeader(d) == Ok((h, slot)) && |d| >= 0x2_0000 + HEADER_SIZE
    requires next.version == 1 && next.sequence == (h.sequence + 1) % TWO64
    ensures PickHeader(Splice(d, slot.Other().Offset(), EncodedHeader(next))) == Ok((next, slot.Other()))
      <==> h.sequence < TWO64 - 1
  {
    hide ParseHeader, EncodedHeader;
    ProbeOther(d, slot, EncodedHeader(next));
    HeaderRoundTrip(next);
  }

  /** A rewrite that tore, and so does not pass its checksum, leaves the header that
      was current. */
  lemma RotationTorn(d: Buf, h: Header, slot: Slot, torn: Buf)
    requires PickHeader(d) == Ok((h, slot)) && |d| >= 0x2_0000 + HEADER_SIZE
    requires |torn| == HEADER_SIZE && ParseHeader(torn).Err?
    ensures PickHeader(Splice(d, slot.Other().Offset(), torn)) == Ok((h, slot))
  {
    hide ParseHeader;
    ProbeOther(d, slot, torn);
  }

  /** The choice of header depends on the two slots only. */
  lemma PickHeaderFrame(d: Buf, e: Buf)
    requires |d| >= 0x2_1000 && |e| >= 0x2_1000 && d[0x1_0000..0x1_1000] == e[0x1_0000..0x1_1000]
    requires d[0x2_0000..0x2_1000] == e[0x2_0000..0x2_1000]
    ensures PickHeader(d) == PickHeader(e)
  {
    hide ParseHeader;
  }

  lemma PickedIsVersionOne(d: Buf)
    requires PickHeader(d).Ok?
    ensures PickHeader(d).value.0.version == 1
  {
  }
}
