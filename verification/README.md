# A model of the VHDX log, writer and overlay

VHDX images are disks kept in a file. This project models the part of the
`img-vhdx` crate that has to be right when the power goes: the write-ahead log and
its replay (`src/log.rs`), the reader and writer that allocate blocks through it
(`src/reader.rs`, `src/bat.rs`, `src/header.rs`), and the copy-on-write overlay the
read-only commands look through (`src/cli/vhdx/overlay.rs`). `dafny verify
dfyconfig.toml` checks all of it.

## How it is laid out

Each step the source takes on a device is a list of operations (`DevOp`: grow,
write, flush). A function such as `OpenRun` or `WriteRun` gives the operations a call
carries out, the reader it leaves and its result; the imperative code — the `Device`,
`VhdxReader` and `Overlay` classes and the loops of the log — is proved to carry out
exactly those operations; and the theorems are about the lists, so they can speak of
a run that stops after any operation, or in the middle of any write.

| file | what it holds |
|---|---|
| `Bytes`, `Crc32c`, `Guids` | little-endian fields, splices, the checksum as a fold of an arbitrary byte step, GUID stirring |
| `LogFormat`, `LogScan`, `LogChain`, `LogReplay` | the entry codec, budgeted discovery, chain selection, replay |
| `Device` | the device, its operations, and what a crash leaves of them |
| `Header`, `Bat`, `Open` | the two header slots, the interleaved BAT, and the whole of open |
| `Tables` | the bytes of the region table and of the metadata |
| `Layouts`, `EntryLayout` | exactly which bytes are a header, a table, the metadata or a log entry, field by field |
| `OpenMeaning` | when open succeeds and what its reader is, said of the bytes of the file; and every refusal |
| `Translation` | where a byte of the disk is, and what a read or a write does there, said of the number in its entry on the device |
| `Rotations` | what a journalled write leaves in headers and log, and the headers a run goes through |
| `Reader` | reads, writes, allocation and journalling, as specification and as class |
| `Image`, `LogState`, `Recovery` | the virtual disk, well-formed images, and what reopening makes of a device |
| `Refinement`, `Provisioning`, `Session` | every run of reads and writes is a run on one flat array, and when none of them fails |
| `Crash`, `Atomicity`, `UnloggedCrash`, `WriteCrash` | a write cut or torn anywhere, with a log and without |
| `ReopenCrash` | recovery cut or torn in its turn, over the logs this writer leaves |
| `InterruptedErase`, `CutErase`, `EraseExamples` | recovery cut in its erase over any log: what is collected then, how the reopen ends, and two images on which it is not harmless |
| `FreshImage` | a concrete well-formed image, byte by byte |
| `TornBat` | a torn BAT sector: when it is tolerated, and what it shows when it is not |
| `Allocator` | allocation by interleaved writers |
| `Overlay` | the overlay as a growable array |

## Main results

- **Atomic writes.** `WriteCrash.WriteIsAtomic`: on a well-formed image, cut a write
  after any prefix of its device operations or tear the operation in flight. A
  replay-capable reopen succeeds, leaves a well-formed image, and exposes the old disk
  with exactly the block pieces whose operations were all done: the result is stated as
  an equation, not as one of several. If what tore was a payload, what is left of it
  shows over the next piece; a torn log entry, header, BAT sector or zeroing never
  shows. Without a log a torn BAT sector is excepted, and
  `TornBat.TearsToleratedExactly` says that the exception is exact: every tear of the
  BAT during a write is tolerated if and only if there is a log or no piece of the write
  allocates. `TornSectorShows` is what goes wrong otherwise: some tear makes a reopen
  succeed and expose the start of the file where a block read as zeros, and
  `WholeEntriesRecover` adds that no tear that keeps each eight-byte entry whole does.
- **Recovery that crashes.** `ReopenCrash.ReopensConverge`: whatever a device recovers as,
  it still recovers as after any number of reopens that were themselves cut or torn.
  That is for what this writer leaves. For any log, whoever wrote it,
  `InterruptedErase.CollectWiped` says what is collected once some of it is erased, and
  `ChainSurvives` and `NoneOrAll` when that is nothing or the whole chain again. How the
  reopen then ends is said device by device: refused (`CutErase.CutRefused`), with nothing
  to do (`CutQuiet`), or with the chain applied again, which succeeds exactly when there is
  still room for the growth it may ask for (`CutReplays`). `CutHarmless` puts these
  together, and `EraseExamples` shows one image on which a cut in the erase is refused for
  good and one on which it silently undoes what had been recovered.
- **What the bytes mean.** The layouts are stated twice over: as the decoders the code
  has, and field by field as the format has them, with an equivalence between the two
  (`EntryLayout.ParsesExactly`, and `HeaderExactly`, `TableExactly` and `MetadataExactly` in
  `Layouts`). On those rest `OpenMeaning.OpensExactly` and `ReplaysExactly`, which say for
  every file exactly when open succeeds and which reader it then gives; `GateRefusals` and
  `LoadRefusals`, which error it ends with otherwise; `Translation.ReadMeans`, `WriteMeans`
  and `WritePieceMeans`, what a read or a write does in terms of the number in a block's
  entry on the device; and `Rotations.PieceRotates` and `RunRotates`, that every rotation
  renews all three GUIDs of the header.
- **A flat array.** `Sessions.RunRefines`: any sequence of reads and writes, failing ones
  included, behaves as on one array of `virtual_size` bytes; a failing write stops
  between two pieces, and on an image with no block the code refuses and room for those
  not there yet, no call in range fails. Every step keeps the image well formed, which
  includes that the BAT in memory is the decoding of the BAT on the device and that
  `pick_header` finds the reader's own header and slot; the header moves to the other
  slot once for every step of its sequence number.
- **Replay.** `LogReplay.ReplayMeaning` says what a replay is, byte by byte and all or
  nothing; `ReplaySurvivesCrash` that repeating an interrupted one gives the same
  contents; `ReplayAgainSameLength` exactly when it gives the same length.
- **The log.** `LogFormat.EntryRoundTrip` over any list of sectors at any slot, wrapped
  or not; `LogScan.Discover` against a scan with no budget; `LogChain.SelectedChain`
  and `CollectedChain` for what the selection is.
- **Open.** What it may write and when, that its erase is confined, that opening twice
  is opening once, and (`Sessions.OpenedIsWellFormed`) exactly what it leaves unchecked,
  after a replay or without one.
- **Allocation.** `Allocator.AllocationIsSafe` and `InterleavingIsSerial` for any number
  of writers in any order.
- **The overlay.** `Overlays.ViewIsDevice` and `OpenThroughOverlay`.

`WellFormed` (in `Recovery.dfy`) is the hypothesis of the write and read theorems: what open checks,
and what it does not — blocks inside the file, apart from each other and from the
control structures; a sector-aligned BAT; a log holding nothing that has not landed;
and `RoomFor`, that the sequence number will not reach its end and that no old slot
past the writer's own two sectors carries a GUID about to be used. An erased log has
that room for as long as the sequence number lasts (`Recovery.RoomInZeros`), and so has
one whose old slots do not share the first half of the header's log GUID
(`Recovery.RoomByHalf`). The theorems hold for any decoding of the region table
and the metadata; `Tables.CrateDecoders` are the crate's own, and with them
`FreshImage.FreshIsWellFormed` gives an image that meets the whole of `WellFormed`, and
`FreshImage.FreshRuns` what the results say from there.

## Where the code and its documentation differ

The model follows the code.

- The comment on `write_at` (src/reader.rs:864-870) has the header rewritten after the
  BAT entry, and a crash between the log commit and the header recovered by replay. The
  code writes the log entry, then the header, then the BAT sector, then the payload;
  and until the header has rotated the entry carries a GUID no header names, so a crash
  there recovers the old disk (`Atomicity.LoggedRecovers`).
- The repository's README says a log that needs replaying is refused as `ReadOnly` on a
  device that cannot be written; `open_inner` returns `LogNeedsReplay`.
- A comment in `parse_log_entry` has every slot after an exhausted budget refused too. A
  later slot that declares a shorter length can still be afforded; the exhausted flag,
  which stays set, is what makes the result a refusal.
- Encoding is promised for any list of writes. The length field is 32 bits, so an entry of
  4 GiB or more does not come back: `EntryRoundTrip` holds below that length and
  `EntryPastFourGiB` shows that no region gives such a list back.
- The comment on `apply_chain` (src/log.rs:553-556) has a crash mid-replay picked up from
  the next valid sequence number. The code applies the whole chain again, to the same
  effect (`LogReplay.ReplaySurvivesCrash`). A crash in the erase that follows is another
  matter: it goes through the log a megabyte at a time from its start, and what is left
  is collected by the next open as a log of its own. If no boundary the erase has reached
  lies inside the chain, nothing or all of it is left and the cut is harmless, as long as
  the device has room for the growth the chain may ask for a second time
  (`InterruptedErase.NoneOrAll`, `CutErase.CutHarmless`, `CutErase.GrowthRunsOut`). If the
  last entries are left and the first are not, no entry starts where the last one says the
  chain begins, and every open from then on is refused with `LogUnassembled`
  (`EraseExamples.SplitImageRefused`). If the chain goes round the end of the log, it is its
  last entries that are erased first; the next open then applies the first ones alone, over
  what the last ones had put in their place (`EraseExamples.RoundImageUndone`). This
  crate's own chains are one entry at the start of the log and are never split.
- A region table whose BAT offset is not a multiple of eight is accepted. An entry that
  straddles two sectors then makes the splice in `allocate_block_for` run off its
  buffer, after the block has been added. The model ends such an allocation with
  `Panic`; `Reader.EntriesInSectors` says when it can come to that.
- The comment on `journal_sector_write` has each write name a GUID of its own. Over a run
  it does not: a GUID returns exactly when the sequence numbers stirred in between cancel
  by exclusive or: after a multiple of four stirs if the first number is even, and if it is
  1 after three stirs more than such a multiple (`Guids.StirsReturn`, the guard against zero
  aside).
- Both header rewrites add one with wrap-around. `Headers.RotationTakes` shows that the
  new header takes exactly when the number did not wrap.

## Model

| member | source | states |
|---|---|---|
| `WriteCrash.WriteIsAtomic` | src/reader.rs:877-1125 | for every well-formed image, every write, every cut and every tolerated tear: reopening succeeds, leaves a well-formed image, and exposes the old disk with exactly the finished pieces, and over them what a torn payload left |
| `WriteCrash.RunThenCrash` | src/reader.rs:785-1125 | any run of reads and writes and then a write that crashes: the run is a run on a flat array, and the reopen exposes its result with exactly the finished pieces |
| `WriteCrash.ChunksCrash` | src/reader.rs:877-932 | the same over the pieces of the write, the number of finished ones computed from where the crash falls |
| `WriteCrash.PieceCrash` | src/reader.rs:885-928 | one piece, into a present block or a new one, with a log or without, is there once all its operations are done and until then is not, but for what a torn payload left |
| `UnloggedCrash.WellFormedReopens` | src/reader.rs:334-504 | a well-formed image reopens as itself, its landed entry replayed or not |
| `Atomicity.AllocatingPieceCrash` | src/reader.rs:944-1125 | the ten operations of a journalled piece, cut or torn at each: the old disk until the last is done, and a torn zeroing, entry, header or sector never shows |
| `Atomicity.PieceOpsOfWrite` | src/reader.rs:944-1125 | the operations are extend, zero, log entry, header, BAT sector, payload, flushed in that order, and the reader that results |
| `Atomicity.LoggedRecovers` | src/reader.rs:1085-1107 | with the log entry written and the header not yet, reopening finds the old disk |
| `Atomicity.TornEntryRecovers` | src/reader.rs:1085-1107 | a torn log entry that fails its checks leaves the old disk |
| `Atomicity.TornHeaderRecovers` | src/reader.rs:1108-1123 | a torn header that fails its checks leaves the old disk |
| `Atomicity.SectorRecovers` | src/reader.rs:994-1005 | once the header has rotated, whatever the BAT sector holds in place, reopening restores it from the log and exposes the old disk |
| `Atomicity.PayloadKeeps` | src/reader.rs:924-927 | after the BAT sector, the payload shows as exactly its own bytes of the disk, in a well-formed image |
| `UnloggedCrash.BarePieceCrash` | src/reader.rs:944-1063 | the six operations of a piece without a log, cut at each or torn in any but the BAT sector: the old disk until the last is done |
| `UnloggedCrash.WidenedIsWellFormed` | src/reader.rs:944-979 | bytes past the end of the file leave an image without a log well formed |
| `TornBat.TearsToleratedExactly` | src/reader.rs:877-1125 | for every well-formed image and every write: whatever a tear of the BAT leaves, reopening exposes the old disk with exactly the finished pieces, if and only if there is a log or no piece of the write allocates |
| `TornBat.TornSectorShows` | src/reader.rs:994-1013 | without a log, for every piece that allocates and every absent block with its entry in the same sector: some tear of that sector makes a reopen succeed and show the file's identifier where that block read as zeros |
| `TornBat.WholeEntriesRecover` | src/reader.rs:994-1013 | a tear of that sector that leaves each aligned eight bytes old or new exposes the old disk, log or none |
| `TornBat.WholeFieldsTear` | src/reader.rs:994-1005 | the published sector differs from the old one in one entry, so such a tear left the one or the other |
| `TornBat.FreshTears` | src/reader.rs:994-1005 | an input: one byte written to the fresh image without a log |
| `ReopenCrash.ReopensConverge` | src/reader.rs:402-504 | whatever a device recovers as, it recovers as after any number of reopens that were cut or torn |
| `ReopenCrash.ReopenSurvivesCrash` | src/reader.rs:402-504 | a reopen cut after any operation or torn in any write leaves a device that holds the same disk |
| `ReopenCrash.OpenOps` | src/reader.rs:444-504 | the operations of a replaying reopen: the sector, the erase in chunks, the cleared header |
| `ReopenCrash.EraseHeld` | src/reader.rs:1264-1288 | after any whole number of erased chunks the image is still held, its sector having landed |
| `InterruptedErase.CollectWiped` | src/log.rs:389-548 | for any log with its first bytes erased: a refusal if checking what is left costs too much, and otherwise what is selected from the entries left whole |
| `InterruptedErase.ChainSurvives` | src/log.rs:443-548 | nothing is collected exactly when no entry is left whole, and the whole chain exactly when all of it is and the highest-numbered entry left names its beginning |
| `InterruptedErase.NoneOrAll` | src/log.rs:443-548 | if the chain runs up to the log's highest-numbered entry, one of the two happens exactly when none of the entries or all of the chain is left |
| `CutErase.ErasedIsCrash` | src/reader.rs:494-504 | the devices the next five members speak of are what a cut in the erase leaves of an open |
| `CutErase.CutRefused` | src/reader.rs:402-442 | if what is left cannot be collected, every open of them is refused with that error and writes nothing |
| `CutErase.CutQuiet` | src/reader.rs:402-660 | if nothing is collected, the reopen does nothing, goes on with the old header, and has the geometry, table and disk of the open that was not cut |
| `CutErase.CutReplays` | src/reader.rs:402-660 | if the whole chain is collected, the reopen ends where the open that was not cut did, followed at most by zeros, exactly when the device has room for the extent the chain then allows; otherwise it is refused |
| `CutErase.NoMoreRoom` | src/log.rs:566-579 | that extent is the length already there exactly when the chain's largest last-file-offset was within the growth ceiling, or it has no descriptor |
| `CutErase.CutHarmless` | src/reader.rs:402-660 | with none or all of the chain left, and that room, the reopen succeeds with the same geometry, table and disk |
| `CutErase.GrowthRunsOut` | src/log.rs:566-579 | lengths for which one descriptor takes a file to its ceiling and then asks for more |
| `EraseExamples.SplitImageRefused` | src/reader.rs:402-504 | an image whose open succeeds, and which a cut in the erase leaves refused with `LogUnassembled` |
| `EraseExamples.RoundImageUndone` | src/reader.rs:402-504 | an image whose open shows a block, and which a cut in the erase leaves opening without it |
| `CrashSafety.RecoverOld` | src/reader.rs:402-504 | a device that differs from a well-formed one only in control bytes its header does not reach recovers as it |
| `CrashSafety.RecoverNew` | src/reader.rs:402-504 | a device whose header has rotated onto a logged BAT sector recovers as the image with the new block |
| `CrashSafety.PresentKeeps` | src/reader.rs:893-927 | a write into a present block is a splice of the disk and keeps the image well formed |
| `CrashSafety.PublishedIsWellFormed` | src/reader.rs:994-1013 | the image with the new block published is well formed, one journalled write nearer its limit |
| `Recovery.ReopenRecovers` | src/reader.rs:334-660 | reopening a recoverable device succeeds, gives the image it should with that image's disk, and leaves it well formed |
| `Recovery.ReopenReplays` | src/reader.rs:402-504 | with a sector pending, open applies it, erases the log and rotates the header, and changes nothing else it will read |
| `Recovery.RoomInZeros` | src/reader.rs:1281-1288 | an erased log has room for as many journalled writes as the sequence number allows |
| `Recovery.RoomByHalf` | src/reader.rs:1089-1097 | so has any log none of whose old slots shares the first half of the header's log GUID |
| `LogState.OwnCollect` | src/log.rs:443-548 | the writer's entry at the start of a log with no other entry of its GUID is the whole chain |
| `LogState.OwnForeign` | src/log.rs:168-352 | under any other GUID neither of the entry's two sectors is an entry |
| `LogState.QuietCollect` | src/log.rs:443-460 | if neither of the writer's sectors parses, nothing is pending |
| `Tables.ParseRegionTable` | src/region_table.rs:66-103 | the loop over the entries computes `ParseTable`, with its refusals |
| `Tables.TableRoundTrip` | src/region_table.rs:66-103 | every table of at most 2047 regions comes back from its bytes, region by region and in order |
| `Layouts.TableExactly` | src/region_table.rs:66-143 | bytes parse to a region table if and only if they are laid out as it |
| `Layouts.MetadataExactly` | src/metadata.rs:106-200 | bytes parse to metadata if and only if they hold a table of items whose first of each needed name lies in the region and says so, a required item being unknown if it is none of the five |
| `Layouts.GuidsAsPrinted` | src/metadata.rs:36-62 | the two region GUIDs and the five item GUIDs are the printed ones in their stored form |
| `Tables.TableCrcIgnoresItsField` | src/region_table.rs:135-143 | the checksum does not depend on the stored one |
| `Tables.ParseMetadataTable` | src/metadata.rs:106-140 | the loop over the entries computes `ParseItems`, with its refusals |
| `Tables.MetadataRoundTrip` | src/metadata.rs:106-200 | every block size, disk size, sector size and parent flag comes back from the bytes of its metadata |
| `FreshImage.BuiltTables` | src/reader.rs:444-531 | from the bytes of the image the crate's decoders give its regions and its geometry |
| `FreshImage.FreshIsWellFormed` | src/reader.rs:334-660 | a concrete image, with a log or without, that meets every condition of a well-formed one under the crate's decoders |
| `FreshImage.FreshIsProvisioned` | src/reader.rs:944-973 | with ten megabytes to grow into, every block it lacks has room |
| `FreshImage.FreshRuns` | src/reader.rs:334-1125 | from that image, with no condition but room and the length of the run, calls are calls on an array of zeros, none in range fails, and a crash leaves exactly the finished pieces |
| `Sessions.RunRefines` | src/reader.rs:785-932 | any run of reads and writes is a run on one flat array on which a failing write stops between pieces and, if the image is provisioned, no call in range fails; it keeps the image well formed and rotates the header slot by slot |
| `Sessions.CallSucceeds` | src/reader.rs:807-932 | on a provisioned image every call in range succeeds and leaves it provisioned |
| `Provisioning.ChunksSucceed` | src/reader.rs:877-932 | a write in range of a provisioned image goes through |
| `Provisioning.ProvisionedFits` | src/reader.rs:893-926 | every piece of one fits |
| `Provisioning.TableKeepsProvision` | src/reader.rs:944-1013 | an allocation uses up exactly the room of the block it adds |
| `Sessions.WriteRefines` | src/reader.rs:877-932 | a write splices all of its buffer, or the pieces before one that does not fit, or nothing if out of range or read only |
| `Refinement.ReadRefines` | src/reader.rs:807-849 | a read in range succeeds exactly when every block it touches is readable, and returns the flat array's bytes |
| `Refinement.PieceRefines` | src/reader.rs:885-928 | a piece goes through exactly when its block is present or can be allocated, and is then a splice of the disk; otherwise nothing happens |
| `Refinement.ChunksRefine` | src/reader.rs:877-932 | the pieces go on the disk in order, up to one that, as the image then stands, does not fit |
| `Refinement.UnloggedPayload` | src/reader.rs:1058-1063 | without a log an allocation still publishes the block and keeps the image well formed |
| `Sessions.OpenedIsWellFormed` | src/reader.rs:334-660 | after any successful open, with a replay or without, the image is well formed if and only if the header is the one on the device, the layout is in order and the log has room |
| `Sessions.OpenedIsCurrent` | src/reader.rs:402-504 | the header is the one on the device after an open that replayed nothing, or replayed above the headers without wrapping; after a replay the log has room as long as the sequence number lasts |
| `Sessions.OpenCovers` | src/reader.rs:605-646 | after any successful open every piece of every transfer in range has its BAT entry, and no shorter table would do |
| `Sessions.WriteRunIs` | src/reader.rs:877-932 | a write in range is its pieces, and a flush if they all went through |
| `OpenMeaning.OpensExactly` | src/reader.rs:334-660 | an open with nothing to replay succeeds if and only if the identifier, a current header of log version 0, its log's place, a region table apart from it with no unknown required region, supported metadata and a table that covers the disk are there; and then gives exactly their reader |
| `OpenMeaning.ReplaysExactly` | src/reader.rs:402-660 | an open with a chain to replay succeeds if and only if the chain goes on and the file it leaves, its log cleared, has such tables and metadata; and then gives exactly their reader |
| `OpenMeaning.GatesExactly` | src/reader.rs:334-444 | an open comes past its gates with a chain exactly when the file is such up to its log, and the chain is empty or may be replayed |
| `OpenMeaning.LoadExactly` | src/reader.rs:505-660 | loading gives a reader exactly when its sizes are those of the first metadata region, which has no parent and no unknown required item, its chunk is 2^23 sectors, and its entries are what the numbers in the first BAT region say |
| `OpenMeaning.GeometryExactly` | src/reader.rs:541-620 | metadata is accepted exactly if its block is 1 to 256 MiB and a power of two, its sectors 512 or 4096 bytes, and it has no parent and no unknown required item |
| `OpenMeaning.TablePicked` | src/reader.rs:1233-1240 | the first region table if it decodes, the second if only it does, `NoValidRegionTable` exactly when neither does |
| `OpenMeaning.GateRefusals` | src/reader.rs:334-462 | the error of each thing that can be wrong up to the log, in order, with nothing written |
| `OpenMeaning.LoadRefusals` | src/reader.rs:505-646 | the error of each thing that can be wrong with the metadata and the BAT |
| `OpenMeaning.ClearedMeans` | src/reader.rs:1281-1312 | marking a log consumed zeroes it, puts a header with the next number and no log GUID in the other slot, and changes nothing else |
| `OpenMeaning.ConsumedSteps` | src/reader.rs:1264-1312 | by a write for each megabyte, a flush, the bytes of that header, a flush |
| `Translation.ReadMeans` | src/reader.rs:807-849 | for a reader whose table is the device's: nothing for an empty read, an error for one out of range, and otherwise, by the raw number in each byte's entry, zeros for states 0 to 3, the block's byte for 6, or the error of the first byte that is neither or lies past the file |
| `Translation.WriteMeans` | src/reader.rs:877-932 | the errors before anything is done, and `Unsupported` with nothing done if the first entry's state is 4, 5 or 7 |
| `Translation.WritePieceMeans` | src/reader.rs:885-1013 | the steps of a piece, by the raw number in its entry: one write for state 6, none for 4, 5 and 7, and for 0 to 3 the block at the least multiple of its size past the end, zeroed, its entry journalled and written, then the bytes |
| `Translation.PieceFitsExactly` | src/reader.rs:893-926 | which pieces go through, by that number and the room left |
| `Translation.IndexOfByte` | src/bat.rs:110-130 | a byte's entry has one before it for every block, and one for every 2^23 sectors |
| `Translation.OpenedInMemory` | src/reader.rs:620-660 | after any successful open the table in memory is the device's, and a chunk holds exactly 2^23 sectors |
| `Translation.WellFormedInMemory` | src/reader.rs:807-932 | and so it is on every well-formed image, anywhere in a run |
| `Rotations.PieceRotates` | src/reader.rs:1052-1125 | after a piece that allocates, the device's current header is the next one: file, data and log GUIDs each changed and not zero, the number one more, the rest the same; and the log holds one entry of it, for a sector already in place |
| `Rotations.RunRotates` | src/reader.rs:877-1125 | over any run the headers the device goes by follow one another so, one for each rotation |
| `Rotations.JournalSteps` | src/reader.rs:1052-1125 | the two writes and two flushes of the journal, the bytes of each laid out field by field; nothing without 8 KiB of log |
| `Image.NearDisk` | src/reader.rs:807-849 | devices that differ only in control structures expose the same disk |
| `Image.AllocatedDisk` | src/reader.rs:975-1013 | a zeroed block in place of an absent one exposes the same disk |
| `Image.BatPublished` | src/reader.rs:994-1013 | the spliced BAT sector, written over the rest of the table, decodes to the old table with one entry changed |
| `Image.LayoutWithBlock` | src/reader.rs:944-973 | a block past the end of the file is apart from everything in it |
| `Reader.BlockChunks` | src/reader.rs:785-805 | the loop splits a transfer where it crosses blocks |
| `Reader.VhdxReader.OpenOn` | src/reader.rs:334-660 | carries out exactly the operations of `OpenRun` and hands out the reader it loads |
| `Reader.VhdxReader.ReadAt` | src/reader.rs:807-849 | returns `ReadRun` of the device and the reader |
| `Reader.VhdxReader.WriteAt` | src/reader.rs:877-932 | carries out exactly the operations of `WriteRun` and ends in its reader |
| `Reader.VhdxReader.AllocateBlockFor` | src/reader.rs:944-1014 | extends, zeroes, journals and publishes as `Allocate` says, refuses with nothing changed, or panics with the block added |
| `Reader.VhdxReader.JournalSectorWrite` | src/reader.rs:1052-1125 | writes the entry and the rotated header as `Journal` says, or nothing when there is no room for an entry |
| `Reader.AllocateKeepsOk` | src/reader.rs:944-1014 | an allocation succeeds exactly when there is room and the entry lies in one sector; the bound stays the device's length, and a refused extension changes neither |
| `Reader.EntriesInSectors` | src/reader.rs:987-999 | no entry straddles two sectors if the table starts on a multiple of eight, and of any 512 in a row one does if it does not |
| `Reader.JournalRuns` | src/reader.rs:1052-1125 | for a log region open accepts, the journal is written exactly when there is a log |
| `Allocator.AllocationIsSafe` | src/reader.rs:944-973 | over every interleaving: blocks aligned, past the size at open, inside the device, pairwise apart; the bound is the length whenever the lock is free, and never more |
| `Allocator.InterleavingIsSerial` | src/reader.rs:944-973 | the blocks handed out do not depend on the interleaving |
| `Allocator.RefusalChangesNothing` | src/reader.rs:966-973 | a refused extension changes neither length and lets the next writer in |
| `Allocator.AloneIsAllocate` | src/reader.rs:944-973 | one writer alone gets the block and the bound the reader's own allocation gives |
| `Open.OpenInner` | src/reader.rs:334-660 | carries out exactly the operations of `OpenRun` |
| `Open.CheckGates` | src/reader.rs:334-442 | the gates in their order, with their errors, and no write |
| `Open.OpenWritesOnlyPastGates` | src/reader.rs:334-444 | any operation of open comes past every gate and from a replay-capable opener; the four early errors mean an unchanged device |
| `Open.EraseConfined` | src/reader.rs:238-292 | the span erased lies in the file, past its first megabyte and clear of every region declared after replay |
| `Open.OpenIdempotent` | src/reader.rs:402-504 | after a replaying open whose chain stays above 192 KiB the header is current and names no log, and a second open does nothing and gives the same reader |
| `Open.ReplayKeepsHeaders` | src/log.rs:618-746 | such a chain leaves the identifier and both headers as they were |
| `Open.MarkConsumed` | src/reader.rs:1281-1312 | erases the log and writes the cleared header to the other slot |
| `LogReplay.ApplyChain` | src/log.rs:618-746 | carries out exactly the operations of `Replay` |
| `LogReplay.CheckFits` | src/log.rs:655-682 | the bound check over the whole chain, before anything is written |
| `EntryLayout.ChainByEntry` | src/log.rs:706-727 | the writes of a chain, descriptor by descriptor and a megabyte of zeros at a time, with a flush after each entry |
| `LogReplay.WriteZeros` | src/reader.rs:1264-1279 | zeroes chunk by chunk up to one that ends past the device, and fails exactly then |
| `LogReplay.ReplayMeaning` | src/log.rs:566-746 | a refusal exactly on an ill-fitting descriptor or a refused extension, with nothing changed; otherwise each byte is what the last descriptor landing on it left, and the length is `replayed_extent` |
| `EntryLayout.WipesExactly` | src/log.rs:706-727 | a "zero" descriptor zeroes exactly the bytes from its offset for its length |
| `EntryLayout.ExtentExactly` | src/log.rs:566-579 | how far a chain may take the file: what an entry claims, no more than 256 MiB a descriptor away |
| `LogReplay.ReplaySurvivesCrash` | src/log.rs:618-746 | from any partial application, applying the chain again gives the contents of one application, followed at most by zeros |
| `LogReplay.ReplayAgainSameLength` | src/log.rs:566-579 | and the same length exactly when the largest last-file-offset is within the growth ceiling, or nothing had changed |
| `LogReplay.ReplayLengths` | src/log.rs:591-616 | the length after replay is the one the reader goes on with |
| `LogChain.SelectChain` | src/log.rs:467-548 | the loops compute `Select` |
| `LogChain.SelectedChain` | src/log.rs:467-548 | empty iff nothing found, refused iff no entry starts at the head's tail, otherwise the one maximal run from there, with no entry twice |
| `LogChain.RunIsPrefix` | src/log.rs:505-548 | every run from the tail is a prefix of the one selected |
| `LogChain.CollectReplayChain` | src/log.rs:443-460 | computes `Collect` |
| `LogChain.CollectedChain` | src/log.rs:443-460 | refused when the budget does not cover the region; nothing iff no slot holds a valid entry; valid entries only |
| `LogScan.Discover` | src/log.rs:389-419 | never checksums more than four times the region; exhausted exactly when an unbudgeted scan would; otherwise finds exactly what that scan finds |
| `LogScan.ScanComplete` | src/log.rs:389-419 | a valid entry is missed only if it begins inside one accepted before it |
| `LogScan.ScanPlaces` | src/log.rs:389-419 | what is found lies on the sector grid, in order, without overlap |
| `LogScan.AcceptedBound` | src/log.rs:380-419 | accepted entries cost less than twice the region, even if the last wraps |
| `LogScan.BudgetAdequate` | src/log.rs:380-419 | refused candidates of at most twice the region never exhaust the budget |
| `LogFormat.ParseLogEntry` | src/log.rs:168-352 | what a slot parses as, what it costs, and when it exhausts the budget |
| `LogFormat.CollectDescriptors` | src/log.rs:274-337 | the loop over descriptors decodes them all or refuses |
| `LogFormat.EntryRoundTrip` | src/log.rs:765-828 | an encoded entry laid at any slot, wrapped or not, parses back to its fields and its sectors in order |
| `EntryLayout.ParsesExactly` | src/log.rs:168-352 | a slot parses to an entry if and only if the bytes from it on, counted round the end of the region, are laid out as that entry: its checksum, its fields, every zero or data descriptor with its number, every data sector with its stamp |
| `LogFormat.EntryPastFourGiB` | src/log.rs:765-828 | past the reach of the length field no region gives the sectors back |
| `LogFormat.StampRoundTrip` | src/log.rs:765-828 | a stamped data sector passes its check and is restored exactly |
| `LogFormat.WrappedCrc` | src/log.rs:232-250 | checksumming a wrapped entry half by half is checksumming it whole |
| `LogFormat.CrcIgnoresItsField` | src/log.rs:157-161 | the checksum does not depend on the stored one |
| `LogFormat.EntryCrcWhole` | src/log.rs:157-161 | the checksum fed in three parts is that of the entry with its checksum field zero |
| `Crc32c.AppendByte` | src/log.rs:157-161 | a checksum extended by nothing is itself, and by a byte goes through the register complemented, whatever the polynomial |
| `LogFormat.EntryReserved` | src/log.rs:765-828 | the encoder leaves reserved bytes and padding zero |
| `LogFormat.EncodeEntry` | src/log.rs:765-828 | the encoder, filling its buffer in place, produces `EncodedEntry` |
| `Headers.HeaderRoundTrip` | src/reader.rs:1383-1404 | a header comes back from its bytes if and only if it is version 1, an unknown log version included |
| `Layouts.HeaderExactly` | src/header.rs:52-115 | bytes parse to a header if and only if they are laid out as it, with the checksum they have and version 1 |
| `Layouts.PickExactly` | src/reader.rs:1211-1231 | the header picked is the one in a slot whose number the other slot's does not exceed, nor, for the second slot, reach; none exactly when neither slot holds one |
| `Headers.HeaderCrcIgnoresItsField` | src/header.rs:107-115 | the checksum does not depend on the stored one |
| `Headers.EncodeHeader` | src/reader.rs:1383-1404 | the encoder, filling its buffer in place, produces `EncodedHeader` |
| `Headers.ReservedIsZero` | src/reader.rs:1383-1404 | and leaves the reserved bytes zero |
| `Headers.RotationTakes` | src/reader.rs:1108-1123 | the rewritten slot becomes current if and only if the sequence number did not wrap |
| `Headers.RotationTorn` | src/reader.rs:1211-1231 | a rewrite that fails its checks leaves the previous header and slot current |
| `Headers.PickHeaderOn` | src/reader.rs:1211-1231 | the two probes pick the higher sequence number, slot one on a tie |
| `Guids.StirFresh` | src/reader.rs:1176-1183 | a stirred GUID is never zero, changes for a non-zero sequence number, and differs between sequence numbers |
| `Guids.StirExactly` | src/reader.rs:1176-1183 | bit by bit, the number is laid over the second half, least significant byte first; the first half is kept unless nothing would be left |
| `Guids.StirSequenceIntoGuid` | src/reader.rs:1176-1183 | the loop over the bytes computes `Stir` in place |
| `Guids.StirKeepsHalf` | src/reader.rs:1176-1183 | stirring leaves the first half of a GUID alone, but for the guard against zero |
| `Guids.StirsReturn` | src/reader.rs:1176-1183 | stirs by consecutive numbers give the GUID back if and only if the numbers cancel by exclusive or, which is a condition on the first number and the count alone; for a GUID whose first half is not zero |
| `Guids.Stirred` | src/reader.rs:1112-1116 | a copy of a GUID, stirred in place |
| `Bat.PresentRoundTrip` | src/bat.rs:98-106 | the entry published for a block decodes to that block, present |
| `Bat.RawEntry` | src/bat.rs:55-106 | what each of the eight states and the rest of a raw entry mean |
| `Bat.ChunkIsSectors` | src/bat.rs:110-112 | a chunk of blocks holds exactly 2^23 sectors, for every legal size of both |
| `Bat.IndexIncreases` | src/bat.rs:126-130 | the index is strictly increasing |
| `Bat.IndexHitsPayloadPositions` | src/bat.rs:126-130 | it hits exactly the positions that are not bitmap entries |
| `Bat.IndexFits` | src/bat.rs:126-130 | it cannot overflow, whatever the offset |
| `Bat.LegalSizes` | src/reader.rs:541-546 | the powers of two from 1 to 256 MiB are nine sizes |
| `Bat.ChunkRatioBounds` | src/bat.rs:110-112 | for legal geometries the ratio lies between 16 and 32768 |
| `Bat.CoverageIsTight` | src/reader.rs:1350-1376 | the table demanded holds every entry the disk needs, and its last one is needed |
| `Bytes.ReadsLe64` | src/endian.rs:43-45 | reading a little-endian field gives what was encoded there |
| `Bytes.LeDigit` | src/endian.rs:33-45 | byte `i` of a field is its digit of 256 to the `i` |
| `Devices.RunAgain` | src/log.rs:618-746 | running a list of writes again, from whatever a crash left of it, gives what one run gives |
| `Overlays.ViewIsDevice` | src/cli/vhdx/overlay.rs:102-167 | over any run of writes and growths the overlay's bytes are those of a plain device, and the base is unchanged |
| `Overlays.WriteIsSplice` | src/cli/vhdx/overlay.rs:122-138 | a write of pages is a splice of the bytes, or refused whole |
| `Overlays.GrowthIsZeros` | src/cli/vhdx/overlay.rs:151-162 | growth exposes zeros, and a shrink changes nothing |
| `Overlays.OpenThroughOverlay` | src/cli/vhdx/overlay.rs:1-18 | opening through the overlay exposes what opening in place would leave, and writes exactly when the log had a chain |
| `Overlays.Pieces` | src/cli/vhdx/overlay.rs:85-99 | the cursor splits a span where it crosses pages |
| `Overlays.Overlay.ReadBase` | src/cli/vhdx/overlay.rs:62-69 | fills a buffer from the base, with zeros past its end |
| `Overlays.Overlay.ReadAt` | src/cli/vhdx/overlay.rs:103-114 | fills the buffer with the overlay's bytes, or refuses and leaves it alone |
| `Overlays.Overlay.WriteAt` | src/cli/vhdx/overlay.rs:122-138 | the overlay's bytes become the splice, `written` is set on success only |
| `Overlays.Overlay.SetLen` | src/cli/vhdx/overlay.rs:151-162 | growth appends zeros and sets `written`; a shrink is refused |

## Left out

- Which of the crate's errors a malformed region table or metadata region gives: a decoder refuses, and open then goes on to the other table or ends with `BadMetadata`, as the source does.
- The CRC-32C polynomial: the checksum folds an arbitrary byte step. That a torn log entry or header fails its checks is the hypothesis `TornDetected`, not a theorem.
- Reordering of writes between two flushes: operations reach the device in the order they are issued, and a crash tears at most one.
- I/O errors other than the device's own bounds and a refused extension.
- A BAT that does not start on a sector: reading and allocating are modelled for any offset, but `WellFormed`, and so the refinement and crash theorems, take the alignment MS-VHDX requires and open does not check.
- A torn erase or header during recovery: that a tear leaves the chain as it was or unreadable, and no old slot with a GUID in use, is the hypothesis `TearsFade`, as `TornDetected` is for writes.
- `InterruptedErase.ChainSurvives`: that an entry going round the end of the log fails its checks once its other part is erased (`WrapsDetected`), and that no entry of the same GUID lay hidden inside another (`NothingHidden`), are hypotheses; `CollectWiped` needs the first only.
- GUID freshness over long runs: XORed sequence numbers can return to an earlier GUID, so `RoomFor` assumes that no old slot past the writer's own carries one about to be used; `Recovery.RoomByHalf` gives a condition on the log as it stands that is enough.
- Devices of 2^63 bytes or more.
- Concurrent whole writes: the lock covers allocation only, so interleavings are modelled for allocation and everything else is one writer.
- Read buffers of the reader are returned as values where the source fills the caller's slice; the overlay's are filled in place.
- Locks, except as the `dev_size` lock in `Allocator`.
- Differencing images and partially present blocks, beyond their being refused.
- The C interface, the command line, and message texts.
