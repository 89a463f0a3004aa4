# Region container and level projection of `src/world/mod.rs`

This project models the core of the world-file code in `src/world/mod.rs`:

- **The region container (`Region`).** It has an 8192-byte header made of two tables, then a data area:
  - a 4096-byte location table;
  - a 4096-byte timestamp table;
  - a data area addressed in 4096-byte sectors.
- **The per-chunk record.** It is stored inside the data area:
  - a 4-byte big-endian length;
  - a compression-scheme byte;
  - the payload.
- **The typed projection of a chunk's `Level` tag map.** This is `Level::from_hashmap`, `Level::from_value` and `Level::default`.

Files and modules:

- `bits.dfy`, module `Bits`: the machine arithmetic the code relies on, stated on unbounded naturals with every wrap-around written out:
  - `isize`, and `as usize` as reduction modulo 2^64;
  - `<<` that drops bits past bit 63;
  - bitwise `|` and `&`;
  - big-endian integers.
- `outcomes.dfy`, module `Outcomes`: how an operation ends:
  - with a value;
  - with an error passed up by `?`;
  - with a panic at one of the out-of-range slices. A panic is an explicit outcome, so every input has a defined result.
- `nbt.dfy`, module `Nbt`: the generic tag value (`fastnbt::Value`) as a datatype.
- `record.dfy`, module `WorldRecord`: the record framing that `set_chunk` writes and `get_chunk` reads, and the scheme dispatch of `get_chunk`.
- `region.dfy`, module `WorldRegion`:
  - value-level specifications of the layout, slot addressing, reading and writing;
  - the class `Region`. Its `locations` and `timestamps` are fixed-size arrays and its `data` is a sequence that `SetChunk` replaces in place. Its methods are proved against the value-level functions.
- `level.dfy`, module `WorldLevel`: `Level`, its default (`DefaultLevel`, for `Level::default`), the key-to-field match (`FieldOf` for the key names, `Assign` for one arm, `Apply` for one iteration), and the imperative loop of `from_hashmap`.

Some functions only compute a value and have no row of their own in the table below. Their meaning is stated by the lemmas and methods about them:

- `Join` (the concatenation of `encode`): `JoinSplit`, `SplitJoin`, `Region.Encode`.
- `LocalCoord` and `SlotIndex` (the arithmetic meaning of `x as usize & 31` and of the shifted sum): `LocalCoordAsCoded`, `SlotIndexAsCoded`.
- `ParseSlot` (the 3-byte offset and the count byte): `SlotAt`, `ParseWrittenSlot`, `OrOfShiftedBytes`.
- `PackChunk` (serialise, compress, frame): `WriteChunkEffect`, `ReadAfterWrite`.
- `DefaultLevel`, `FieldOf`, `Assign` and `Apply`: `FromHashmap`, `AssignChangesOneField`, `AliasesAgree`, `UnnamedFieldKeepsDefault`.

Where the code departs from the usual region format, the model follows the code and states the departure as a lemma:

- The slot index adds the two local coordinates: `SlotIndexIsColumnZero`, `SlotIndexCollides`, `CollidingCoordinatesShareRecord`.
- The length field counts the payload only: `Frame`, `UnframeFrame`.
- A slot whose count is 0 panics on read: `UnallocatedSlotPanics`.
- `set_chunk` splices the record without padding it and updates neither table: `SetChunk`, `WriteChunkEffect`, `ReadAfterWrite`.

The usual region format indexes slots by `4 * ((z & 31) * 32 + (x & 31))`, counts the scheme byte in the record length, reports an empty slot as absent, pads records to whole sectors, and updates both tables on a write. This code does none of these, and the model follows the code (`StandardSlotIndex` is the usual index, given for comparison).

Foreign calls are fields of parameter records and return `Produced(value)` or `Rejected(message)`. There are three such records:

- `Decoders`: gzip and zlib decompression.
- `Collaborators`: those decoders, plus the fast zlib encoder and `fastnbt::from_bytes` / `to_bytes` at type `Chunk`.
- `Conversions`: `fastnbt::value::from_value` at each field type of `Level`.

## Model

| member | source | states |
|---|---|---|
| WorldRegion.Split | src/world/mod.rs:132-143 | no parts exactly when the buffer is shorter than 8192 bytes; otherwise both tables are 4096 bytes long |
| WorldRegion.JoinSplit | src/world/mod.rs:137-152 | re-joining the three parts of a buffer of at least 8192 bytes gives the buffer back |
| WorldRegion.SplitJoin | src/world/mod.rs:137-152 | cutting the encoding of any parts with 4096-byte tables gives the same parts back, and the encoding is 8192 bytes plus the data |
| WorldRegion.Region.constructor | src/world/mod.rs:137-143 | the new region holds fresh table arrays with the given contents, the data and the coordinates |
| WorldRegion.Region.Decode | src/world/mod.rs:132-144 | `None` iff fewer than 8192 bytes; otherwise fresh arrays holding bytes 0..4096 and 4096..8192, data is the rest, x and z as given, and encoding the result gives the input back |
| WorldRegion.Region.Encode | src/world/mod.rs:146-153 | the tables then the data; its length is 8192 plus the data; cutting it again gives the region's own parts |
| WorldRegion.LocalCoordAsCoded | src/world/mod.rs:156-157 | `c as usize & 31` equals `c mod 32` for every `isize`, negative ones included |
| WorldRegion.SlotIndexAsCoded | src/world/mod.rs:156-158 | the coded `((x & 31) + (z & 31)) << 5 << 2` shifts out no bit and equals `(x mod 32 + z mod 32) * 128` |
| WorldRegion.SlotAt | src/world/mod.rs:158-167 | the slot read panics iff `x mod 32 + z mod 32 >= 32`, with the slot-slice panic; otherwise the offset is below 2^24 and the count below 256 |
| WorldRegion.SlotIndexSymmetric | src/world/mod.rs:156-158 | the index is symmetric in x and z |
| WorldRegion.SlotIndexCollides | src/world/mod.rs:158 | (1, 0) and (0, 1) address the same slot |
| WorldRegion.SlotIndexIsColumnZero | src/world/mod.rs:158 | the coded index is the usual index of local coordinates (0, x mod 32 + z mod 32), a multiple of 128 and of 4 |
| WorldRegion.StandardSlotIndexInjective | src/world/mod.rs:158 | the usual layout `4 * (32 z + x)`, given for comparison, is injective on 32 x 32 local coordinates and stays inside the table |
| WorldRegion.SlotRoundTrip | src/world/mod.rs:160-167 | writing a 3-byte big-endian offset and a count byte at the coded index makes the slot read return exactly that offset and count |
| WorldRegion.ParseWrittenSlot | src/world/mod.rs:162-167 | a slot holding the 3-byte big-endian encoding of an offset below 2^24 and a count parses back to that offset and count |
| WorldRegion.OrOfShiftedBytes | src/world/mod.rs:162-165 | the three `|=` of shifted bytes equal the big-endian value of the first three slot bytes |
| WorldRegion.Region.GetChunkLocation | src/world/mod.rs:155-168 | the bit-level computation returns exactly the value-level slot read, panic included; it changes nothing |
| WorldRegion.SpanAt | src/world/mod.rs:173 | the sector span is in range iff `4096 * (offset + count)` is within the data; it is `4096 * count` bytes long; otherwise the sector-slice panic |
| WorldRecord.Unframe | src/world/mod.rs:174-175 | succeeds iff the span has 4 length bytes and at least `5 + length` bytes; the payload is bytes `5..5 + length` and the scheme is byte 4 |
| WorldRecord.Decompress | src/world/mod.rs:177-189 | scheme 1 goes to the gzip decoder and scheme 2 to the zlib decoder; any other byte passes the payload through unchanged with no error; the only errors are decoder errors |
| WorldRegion.ChunkFromSpan | src/world/mod.rs:174-195 | a chunk read from a span carries the requested x and z, whatever the payload says |
| WorldRegion.ReadChunk | src/world/mod.rs:170-196 | a chunk read carries the requested coordinates; out-of-table slots give the slot-slice panic |
| WorldRegion.Region.GetChunk | src/world/mod.rs:170-196 | the method returns exactly the value-level read of its table and data, and stamps the requested coordinates |
| WorldRegion.UnallocatedSlotPanics | src/world/mod.rs:173-174 | reading a slot whose count is 0 always panics, at the sector slice or at `data[0..4]` |
| WorldRegion.CollidingCoordinatesShareRecord | src/world/mod.rs:156-193 | two coordinate pairs with the same sum of local coordinates read the same record, and the results differ only in the stamped coordinates |
| WorldRecord.Frame | src/world/mod.rs:208-211 | the record is 5 bytes longer than the payload, its first 4 bytes are the payload length modulo 2^32 in big-endian order, byte 4 is 2, and the rest is the payload |
| WorldRecord.UnframeFrame | src/world/mod.rs:174-175 | a record built for a payload shorter than 2^32 bytes reads back as scheme 2 with exactly that payload, whatever follows it |
| WorldRecord.UnframeFrameWraps | src/world/mod.rs:208 | for a payload of 2^32 bytes or more the length wraps, and the read returns only the first `length mod 2^32` bytes |
| WorldRecord.RecordRoundTrip | src/world/mod.rs:174-187 | when the zlib decoder inverts the encoded payload, reading the record gives back the original bytes |
| WorldRegion.Splice | src/world/mod.rs:213 | panics iff `hi` is past the end; otherwise the bytes before `lo` are unchanged, the record follows, then the bytes from `hi`, and the length changes by the size difference |
| WorldRegion.WriteChunk | src/world/mod.rs:198-214 | out-of-table slots give the slot-slice panic before anything is serialised |
| WorldRegion.SectorShiftIsScale | src/world/mod.rs:213 | `offset << 12` is `4096 * offset` for every offset and end a slot can give, so the spliced span is the span `get_chunk` reads |
| WorldRegion.WriteChunkEffect | src/world/mod.rs:198-214 | after a successful write, `data' = data[..lo] + record + data[hi..]` with `hi <= |data|`, and `|data'| = |data| - (hi - lo) + |record|` |
| WorldRegion.ReadAfterWrite | src/world/mod.rs:170-214 | with inverse collaborators and the table unchanged, the written chunk reads back iff the record fits the old span and the data still reaches the span's end; when it reads back, it is the written chunk |
| WorldRegion.ReadIsSpanRead | src/world/mod.rs:171-173 | with the slot in range, a read is the read of the slot's sector span, or the sector-slice panic when the span runs past the data |
| WorldRegion.SplicedSpan | src/world/mod.rs:213 | after the splice, the old span holds the record followed by the bytes that came after the old span, or only a prefix of the record when the record is longer |
| WorldRegion.WholeRecordReadsBack | src/world/mod.rs:174-195 | a span starting with a whole written record reads back as the written chunk when the collaborators invert each other |
| WorldRegion.CutRecordFails | src/world/mod.rs:174-175 | a span holding only a strict prefix of a record cannot be read: the length bytes or the payload run past its end |
| WorldRegion.ReadSplicedRecord | src/world/mod.rs:170-214 | the read-after-write statement on the spliced data area written out: success iff `5 + |packed| <= hi - lo <= |data| - hi + 5 + |packed|`, and then the written chunk |
| WorldRegion.Region.SetChunk | src/world/mod.rs:198-214 | the data becomes the value-level write, or stays unchanged on an error or panic; the table arrays, their contents and the region's coordinates are unchanged |
| WorldLevel.FoldEntries | src/world/mod.rs:57-76 | the loop fails only with a conversion error |
| WorldLevel.FromHashmap | src/world/mod.rs:54-77 | the loop computes the fold from `Level::default()`; an empty map gives exactly the default; on success the unrecognised entries are printed in order, and on failure those of some prefix of the entries |
| WorldLevel.FromValue | src/world/mod.rs:79-85 | fails with "must be compound value" iff the value is not a compound; an empty compound gives the default |
| WorldLevel.AssignChangesOneField | src/world/mod.rs:59-71 | an arm fails iff its conversion fails, and otherwise sets its own field to the converted value and leaves every other field unchanged |
| WorldLevel.AliasesAgree | src/world/mod.rs:60-61 | `TileEntities` and `BlockEntities` select the same arm, the one for `block_entities` |
| WorldLevel.FailsIffSomeConversionFails | src/world/mod.rs:57-76 | the projection fails iff some recognised entry's conversion fails |
| WorldLevel.LastEntryWins | src/world/mod.rs:57-74 | each field ends holding the conversion of the last entry that names it, under either alias, or keeps its old value when no entry names it |
| WorldLevel.UnnamedFieldKeepsDefault | src/world/mod.rs:88-105 | starting from `Level::default()`, a field no entry names keeps its default value |
| WorldLevel.UnrecognisedKeysIgnored | src/world/mod.rs:72 | entries with unrecognised keys change no field and cause no error; dropping them gives the same outcome |
| Bits.AndLowMask | src/world/mod.rs:156-157 | masking with `2^k - 1` keeps the value modulo `2^k` |
| Bits.OrDisjoint | src/world/mod.rs:163-165 | or-ing into bits that are all zero is addition |
| Bits.BigEndianOfToBigEndian | src/world/mod.rs:208 | reading back the big-endian encoding of a number that fits the width gives the number |
| Bits.ToBigEndianOfBigEndian | src/world/mod.rs:174 | encoding the big-endian value of a byte string at its own width gives the string back |

## Left out

- Compression: gzip and zlib (de)compression through `flate2` are parameters (`Decoders`, `Collaborators.zlibEncodeFast`). Their formats are not modelled. The ignored results of `write_all` are not modelled; only the result of `finish()?` is.
- Serialisation: NBT parsing and printing (`fastnbt::from_bytes`, `to_bytes`, `value::from_value`) are parameters. What they accept is not modelled. This includes how the `#[serde(skip)]` coordinates of `Chunk` are dropped by `to_bytes`. `ReadAfterWrite` therefore only asks the decoded chunk to agree on `level` and `data_version`.
- Serde derive and rename attributes on `Section`, `HeightMap`, `Level` and `Chunk` are not modelled. They are library-driven.
- The `println!` of unknown keys is console output. It is recorded as a ghost log in `FromHashmap` only. `FromValue` is a function over the same fold, so it keeps no log of what `from_value` prints.
- `HashMap` iteration order is unspecified. The map is a sequence of entries in some order. The lemmas hold for every order, and for repeated keys too.
- ReadAfterWrite: the decoded chunk's `level` must equal the written one as a sequence of entries. This assumes the NBT round trip keeps the map's entry order, which a `HashMap` does not promise.
- Float and Double tag values are kept as 32- and 64-bit patterns. No floating-point arithmetic is modelled.
- The `blocks` submodule is not part of this model.
- `isize` and `usize` are taken to be 64 bits wide.
- The integer overflow checks of debug builds are not modelled. No addition or multiplication in the core can overflow 64 bits here.
- The timestamp table is read and written back by `decode` and `encode`. No operation interprets it.
- WorldRegion.ReadAfterWrite: requires the compressed payload to be shorter than 2^32 bytes. For longer payloads the length field wraps, and what the decoder makes of the truncated payload is not constrained. `UnframeFrameWraps` states what is read then.
- WorldRegion.Region.Decode: the round-trip `decode(encode(r)) == r` is stated on the region's parts (`Encode` ensures `Split(Encode()) == Some(Parts())`, and `Decode` ensures its result's parts are `Split(bytes)`), not as equality of objects, because `decode` builds a new object.
