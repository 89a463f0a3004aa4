/** The region container of src/world/mod.rs: an 8192-byte header made of a
    4096-byte location table and a 4096-byte timestamp table, followed by a
    data area addressed in 4096-byte sectors. The model follows the code as
    written, including where it departs from the usual region layout: the
    slot index adds the two local coordinates, the length field excludes the
    scheme byte, and `set_chunk` splices a record into the old sector span
    without padding it or updating either table. */
module WorldRegion {
  import opened Bits
  import opened Outcomes
  import opened Nbt
  import opened WorldRecord

  const TABLE_SIZE: nat := 4096
  const HEADER_SIZE: nat := 8192

  /** `Chunk`: the raw `Level` tag map, the optional data version, and the
      absolute chunk coordinates, which the serialised form skips. */
  datatype Chunk = Chunk(level: TagMap, dataVersion: Option<i32>, x: isize, z: isize)

  /** The foreign calls `get_chunk` and `set_chunk` make: the decompressors,
      `ZlibEncoder` at `Compression::fast()`, and `fastnbt::from_bytes` and
      `to_bytes` at type `Chunk`. */
  datatype Collaborators = Collaborators(
    decoders: Decoders,
    zlibEncodeFast: seq<byte> -> Foreign<seq<byte>>,
    chunkFromBytes: seq<byte> -> Foreign<Chunk>,
    chunkToBytes: Chunk -> Foreign<seq<byte>>)

  /** A location slot: sector offset and sector count. */
  datatype Location = Location(offset: nat, count: nat)

  // ---------------------------------------------------------------------
  // Byte layout of a region file

  /** The three parts of a region file, as values. */
  datatype Image = Image(locations: seq<byte>, timestamps: seq<byte>, data: seq<byte>)

  /** How `decode` cuts a buffer: `None` below 8192 bytes, otherwise the
      two 4096-byte tables and the rest. */
  function Split(bytes: seq<byte>): (r: Option<Image>)
    ensures r.None? <==> |bytes| < HEADER_SIZE
    ensures r.Some? ==> |r.value.locations| == TABLE_SIZE && |r.value.timestamps| == TABLE_SIZE
  {
    if |bytes| < HEADER_SIZE then None
    else Some(Image(bytes[..TABLE_SIZE], bytes[TABLE_SIZE..HEADER_SIZE], bytes[HEADER_SIZE..]))
  }

  /** How `encode` lays the parts out: tables first, data last. */
  function Join(image: Image): seq<byte>
  {
    image.locations + image.timestamps + image.data
  }

  /** Joining the parts of a long enough buffer gives the buffer back. */
  lemma JoinSplit(bytes: seq<byte>)
    requires |bytes| >= HEADER_SIZE
    ensures Join(Split(bytes).value) == bytes
  {
    assert bytes[..TABLE_SIZE] + bytes[TABLE_SIZE..HEADER_SIZE] + bytes[HEADER_SIZE..] == bytes;
  }

  /** Cutting an encoded image gives the image back, whatever its data. */
  lemma SplitJoin(image: Image)
    requires |image.locations| == TABLE_SIZE && |image.timestamps| == TABLE_SIZE
    ensures |Join(image)| == HEADER_SIZE + |image.data|
    ensures Split(Join(image)) == Some(image)
  {
    var b := Join(image);
    assert b[..TABLE_SIZE] == image.locations;
    assert b[TABLE_SIZE..HEADER_SIZE] == image.timestamps;
    assert b[HEADER_SIZE..] == image.data;
  }

  // ---------------------------------------------------------------------
  // Location-slot addressing

  /** The region-local coordinate of a chunk coordinate, as a value in 0..32. */
  function LocalCoord(c: isize): nat
  {
    c % 32
  }

  /** The byte index of the slot that `get_chunk_location` reads: the sum
      of the two local coordinates, times 128. */
  function SlotIndex(x: isize, z: isize): nat
  {
    (LocalCoord(x) + LocalCoord(z)) * 128
  }

  /** `c as usize & 31` is the local coordinate, negative `c` included. */
  lemma LocalCoordAsCoded(c: isize)
    ensures And(AsUsize(c), 31) == LocalCoord(c)
  {
    Pow2Values();
    AndLowMask(AsUsize(c), 5);
    ModOfMultipleModulus(c, 32, USIZE_MODULUS / 32);
  }

  /** `((x as usize & 31) + (z as usize & 31)) << 5 << 2` is the slot index;
      no bit is shifted out. */
  lemma SlotIndexAsCoded(x: isize, z: isize)
    ensures Shl(Shl(And(AsUsize(x), 31) + And(AsUsize(z), 31), 5), 2) == SlotIndex(x, z)
  {
    LocalCoordAsCoded(x);
    LocalCoordAsCoded(z);
    Pow2Values();
    var s := LocalCoord(x) + LocalCoord(z);
    ShlNoWrap(s, 5);
    ShlNoWrap(s * 32, 2);
  }

  /** The byte index of local coordinates in the usual region layout,
      `4 * ((z_local << 5) + x_local)`, given for comparison. */
  function StandardSlotIndex(xLocal: nat, zLocal: nat): nat
  {
    4 * (zLocal * 32 + xLocal)
  }

  /** A 4-byte slot: a 3-byte big-endian sector offset, then a sector count. */
  function ParseSlot(slot: seq<byte>): (loc: Location)
    requires |slot| == 4
    ensures loc.offset < 0x100_0000 && loc.count < 256
  {
    BigEndianBound(slot[..3]);
    Pow2Values();
    Location(BigEndian(slot[..3]), slot[3])
  }

  /** What `get_chunk_location` returns for a location table: the parsed slot,
      or a panic when the slice `meta_offset..meta_offset + 4` runs past the table. */
  function SlotAt(table: seq<byte>, x: isize, z: isize): (r: Result<Location>)
    requires |table| == TABLE_SIZE
    ensures r.Err? <==> x % 32 + z % 32 >= 32
    ensures r.Err? ==> r == Err(Panicked(SlotSlice))
    ensures r.Ok? ==> r.value.offset < 0x100_0000 && r.value.count < 256
  {
    var i := SlotIndex(x, z);
    if i + 4 > |table| then Err(Panicked(SlotSlice))
    else Ok(ParseSlot(table[i..i + 4]))
  }

  /** The index is symmetric in x and z. */
  lemma SlotIndexSymmetric(x: isize, z: isize)
    ensures SlotIndex(x, z) == SlotIndex(z, x)
  {
  }

  /** The coordinates (1, 0) and (0, 1) address the same slot. */
  lemma SlotIndexCollides()
    ensures SlotIndex(1, 0) == SlotIndex(0, 1)
  {
  }

  /** The coded index is always the standard index of the local coordinates
      `(0, x mod 32 + z mod 32)`: every read lands on a slot of local column 0,
      so at most 32 of the 1024 slots are ever addressed, and the index is a
      multiple of 4. */
  lemma SlotIndexIsColumnZero(x: isize, z: isize)
    ensures SlotIndex(x, z) == StandardSlotIndex(0, x % 32 + z % 32)
    ensures SlotIndex(x, z) % 128 == 0 && SlotIndex(x, z) % 4 == 0
  {
    var s := x % 32 + z % 32;
    DivModUnique(s * 128, 128, s, 0);
    DivModUnique(s * 128, 4, s * 32, 0);
  }

  /** The usual layout maps the 32 x 32 local coordinates one-to-one onto the
      1024 four-byte slots. */
  lemma StandardSlotIndexInjective(x1: nat, z1: nat, x2: nat, z2: nat)
    requires x1 < 32 && z1 < 32 && x2 < 32 && z2 < 32
    requires StandardSlotIndex(x1, z1) == StandardSlotIndex(x2, z2)
    ensures x1 == x2 && z1 == z2
    ensures StandardSlotIndex(x1, z1) + 4 <= TABLE_SIZE
  {
  }

  /** A slot written as a 3-byte big-endian offset and a count byte at the
      index the code derives is read back as that offset and count; the rest
      of the table does not matter. */
  lemma {:induction false} SlotRoundTrip(table: seq<byte>, x: isize, z: isize, offset: nat, count: byte)
    requires |table| == TABLE_SIZE
    requires x % 32 + z % 32 < 32
    requires offset < 0x100_0000
    ensures var i := SlotIndex(x, z);
      SlotAt(table[..i] + ToBigEndian(offset, 3) + [count] + table[i + 4..], x, z) == Ok(Location(offset, count))
  {
    var i := SlotIndex(x, z);
    var slot := ToBigEndian(offset, 3) + [count];
    var t := table[..i] + ToBigEndian(offset, 3) + [count] + table[i + 4..];
    assert t[i..i + 4] == slot;
    ParseWrittenSlot(offset, count);
  }

  lemma ParseWrittenSlot(offset: nat, count: byte)
    requires offset < 0x100_0000
    ensures ParseSlot(ToBigEndian(offset, 3) + [count]) == Location(offset, count)
  {
    var slot := ToBigEndian(offset, 3) + [count];
    assert slot[..3] == ToBigEndian(offset, 3);
    Pow2Values();
    BigEndianOfToBigEndian(offset, 3);
  }

  /** The three `|=` of `get_chunk_location` assemble the big-endian value
      of the first three slot bytes. */
  lemma OrOfShiftedBytes(b: seq<byte>)
    requires |b| == 3
    ensures Or(Or(Or(0, Shl(b[0], 16)), Shl(b[1], 8)), b[2]) == BigEndian(b)
  {
    var b0: nat, b1: nat, b2: nat := b[0], b[1], b[2];
    Pow2Values();
    ShlNoWrap(b0, 16);
    ShlNoWrap(b1, 8);
    assert Or(0, Shl(b0, 16)) == b0 * 0x1_0000;
    OrDisjoint(b0, b1 * 256, 16);
    assert b0 * 0x1_0000 + b1 * 256 == (b0 * 256 + b1) * 256;
    OrDisjoint(b0 * 256 + b1, b2, 8);
    assert b[..2][..1] == [b0] && [b0][..0] == [];
    assert BigEndian([b0]) == b0;
    assert BigEndian(b[..2]) == b0 * 256 + b1;
    assert BigEndian(b) == (b0 * 256 + b1) * 256 + b2;
  }

  // ---------------------------------------------------------------------
  // Reading a chunk

  /** `&self.data[4096 * offset..4096 * (offset + count)]`. */
  function SpanAt(data: seq<byte>, loc: Location): (r: Result<seq<byte>>)
    ensures r.Ok? <==> 4096 * (loc.offset + loc.count) <= |data|
    ensures r.Ok? ==> |r.value| == 4096 * loc.count
    ensures r.Err? ==> r == Err(Panicked(SectorSlice))
  {
    var lo := 4096 * loc.offset;
    var hi := 4096 * (loc.offset + loc.count);
    if hi > |data| then Err(Panicked(SectorSlice)) else Ok(data[lo..hi])
  }

  /** The part of `get_chunk` after the span is sliced: read the record,
      decompress by scheme, deserialise, and stamp the requested coordinates. */
  function ChunkFromSpan(span: seq<byte>, x: isize, z: isize, co: Collaborators): (r: Result<Chunk>)
    ensures r.Ok? ==> r.value.x == x && r.value.z == z
  {
    var framed :- Unframe(span);
    var raw :- Decompress(framed, co.decoders);
    var chunk :- Lift(co.chunkFromBytes(raw));
    Ok(chunk.(x := x, z := z))
  }

  /** `get_chunk` on a location table and a data area. */
  function ReadChunk(table: seq<byte>, data: seq<byte>, x: isize, z: isize, co: Collaborators): (r: Result<Chunk>)
    requires |table| == TABLE_SIZE
    ensures r.Ok? ==> r.value.x == x && r.value.z == z
    ensures x % 32 + z % 32 >= 32 ==> r == Err(Panicked(SlotSlice))
  {
    var loc :- SlotAt(table, x, z);
    var span :- SpanAt(data, loc);
    ChunkFromSpan(span, x, z, co)
  }

  /** Reading a slot whose sector count is 0 always panics: either the empty
      span lies past the data area, or `data[0..4]` is out of range. */
  lemma UnallocatedSlotPanics(table: seq<byte>, data: seq<byte>, x: isize, z: isize, co: Collaborators)
    requires |table| == TABLE_SIZE
    requires SlotAt(table, x, z).Ok? && SlotAt(table, x, z).value.count == 0
    ensures ReadChunk(table, data, x, z, co) == Err(Panicked(SectorSlice))
         || ReadChunk(table, data, x, z, co) == Err(Panicked(LengthSlice))
  {
  }

  /** Two coordinate pairs with the same sum of local coordinates read the
      same record; the results differ only in the stamped coordinates. */
  lemma CollidingCoordinatesShareRecord(table: seq<byte>, data: seq<byte>, x1: isize, z1: isize,
                                        x2: isize, z2: isize, co: Collaborators)
    requires |table| == TABLE_SIZE
    requires x1 % 32 + z1 % 32 == x2 % 32 + z2 % 32
    ensures ReadChunk(table, data, x1, z1, co).Ok? <==> ReadChunk(table, data, x2, z2, co).Ok?
    ensures ReadChunk(table, data, x1, z1, co).Ok? ==>
      ReadChunk(table, data, x2, z2, co).value == ReadChunk(table, data, x1, z1, co).value.(x := x2, z := z2)
  {
  }

  // ---------------------------------------------------------------------
  // Writing a chunk

  /** `self.data.splice(lo..hi, record)`: replace bytes `lo..hi` by the record;
      panics when `hi` is past the end. */
  function Splice(data: seq<byte>, lo: nat, hi: nat, record: seq<byte>): (r: Result<seq<byte>>)
    requires lo <= hi
    ensures r.Ok? <==> hi <= |data|
    ensures r.Err? ==> r == Err(Panicked(SpliceRange))
    ensures r.Ok? ==> |r.value| == |data| - (hi - lo) + |record|
    ensures r.Ok? ==> r.value[..lo] == data[..lo]
    ensures r.Ok? ==> r.value[lo..lo + |record|] == record
    ensures r.Ok? ==> r.value[lo + |record|..] == data[hi..]
  {
    if hi > |data| then Err(Panicked(SpliceRange))
    else
      var d := data[..lo] + record + data[hi..];
      assert d[..lo] == data[..lo];
      assert d[lo..lo + |record|] == record;
      assert d[lo + |record|..] == data[hi..];
      Ok(d)
  }

  /** Serialise, compress with zlib at the fast level, and frame. */
  function PackChunk(chunk: Chunk, co: Collaborators): Result<seq<byte>>
  {
    var raw :- Lift(co.chunkToBytes(chunk));
    var packed :- Lift(co.zlibEncodeFast(raw));
    Ok(Frame(packed))
  }

  /** `set_chunk` on a location table and a data area: the new data area. */
  function WriteChunk(table: seq<byte>, data: seq<byte>, chunk: Chunk, co: Collaborators): (r: Result<seq<byte>>)
    requires |table| == TABLE_SIZE
    ensures chunk.x % 32 + chunk.z % 32 >= 32 ==> r == Err(Panicked(SlotSlice))
  {
    var loc :- SlotAt(table, chunk.x, chunk.z);
    var record :- PackChunk(chunk, co);
    Splice(data, 4096 * loc.offset, 4096 * (loc.offset + loc.count), record)
  }

  /** `location.0 << 12` is the byte offset `4096 * location.0` that
      `get_chunk` uses, for every offset a slot can hold. */
  lemma SectorShiftIsScale(offset: nat)
    requires offset < 0x100_0000 + 256
    ensures Shl(offset, 12) == 4096 * offset
  {
    Pow2Values();
    ShlNoWrap(offset, 12);
  }

  /** What a successful write leaves in the data area, with `lo` and `hi`
      the old span: bytes before `lo` unchanged, the record at `lo`, and
      every byte from `hi` on shifted by the change in size. */
  lemma WriteChunkEffect(table: seq<byte>, data: seq<byte>, chunk: Chunk, co: Collaborators)
    requires |table| == TABLE_SIZE
    requires WriteChunk(table, data, chunk, co).Ok?
    ensures SlotAt(table, chunk.x, chunk.z).Ok? && PackChunk(chunk, co).Ok?
    ensures var loc := SlotAt(table, chunk.x, chunk.z).value;
      var lo := 4096 * loc.offset;
      var hi := 4096 * (loc.offset + loc.count);
      var record := PackChunk(chunk, co).value;
      var d := WriteChunk(table, data, chunk, co).value;
      && hi <= |data|
      && d == data[..lo] + record + data[hi..]
      && |d| == |data| - (hi - lo) + |record|
  {
    var loc := SlotAt(table, chunk.x, chunk.z).value;
    var lo := 4096 * loc.offset;
    var hi := 4096 * (loc.offset + loc.count);
    var record := PackChunk(chunk, co).value;
    assert Splice(data, lo, hi, record) == Ok(data[..lo] + record + data[hi..]);
  }

  /** Reading a chunk back after writing it, with the table unchanged as
      `set_chunk` leaves it. When the collaborators invert each other, the
      read returns the written chunk exactly when the record fits the old
      span and the data area still reaches the old span's end; a record
      larger than the span, or a shrunk record too close to the end of the
      data area, cannot be read back. */
  lemma ReadAfterWrite(table: seq<byte>, data: seq<byte>, chunk: Chunk, co: Collaborators,
                       raw: seq<byte>, packed: seq<byte>, decoded: Chunk)
    requires |table| == TABLE_SIZE
    requires co.chunkToBytes(chunk) == Produced(raw)
    requires co.zlibEncodeFast(raw) == Produced(packed) && |packed| < U32_MODULUS
    requires co.decoders.zlib(packed) == Produced(raw)
    requires co.chunkFromBytes(raw) == Produced(decoded)
    requires decoded.level == chunk.level && decoded.dataVersion == chunk.dataVersion
    requires WriteChunk(table, data, chunk, co).Ok?
    ensures var loc := SlotAt(table, chunk.x, chunk.z).value;
      var span := 4096 * loc.count;
      var after := |data| - 4096 * (loc.offset + loc.count);
      var d := WriteChunk(table, data, chunk, co).value;
      && (ReadChunk(table, d, chunk.x, chunk.z, co).Ok? <==> 5 + |packed| <= span <= after + 5 + |packed|)
      && (ReadChunk(table, d, chunk.x, chunk.z, co).Ok? ==> ReadChunk(table, d, chunk.x, chunk.z, co) == Ok(chunk))
  {
    WriteChunkEffect(table, data, chunk, co);
    assert PackChunk(chunk, co) == Ok(Frame(packed));
    ReadSplicedRecord(table, data, chunk, co, raw, packed, decoded);
  }

  /** `ReadAfterWrite` on the spliced data area, written out. */
  lemma ReadSplicedRecord(table: seq<byte>, data: seq<byte>, chunk: Chunk, co: Collaborators,
                          raw: seq<byte>, packed: seq<byte>, decoded: Chunk)
    requires |table| == TABLE_SIZE && SlotAt(table, chunk.x, chunk.z).Ok?
    requires |packed| < U32_MODULUS
    requires co.decoders.zlib(packed) == Produced(raw)
    requires co.chunkFromBytes(raw) == Produced(decoded)
    requires decoded.level == chunk.level && decoded.dataVersion == chunk.dataVersion
    requires var loc := SlotAt(table, chunk.x, chunk.z).value; 4096 * (loc.offset + loc.count) <= |data|
    ensures var loc := SlotAt(table, chunk.x, chunk.z).value;
      var lo := 4096 * loc.offset;
      var hi := 4096 * (loc.offset + loc.count);
      var d := data[..lo] + Frame(packed) + data[hi..];
      && (ReadChunk(table, d, chunk.x, chunk.z, co).Ok? <==> 5 + |packed| <= hi - lo <= |data| - hi + 5 + |packed|)
      && (ReadChunk(table, d, chunk.x, chunk.z, co).Ok? ==> ReadChunk(table, d, chunk.x, chunk.z, co) == Ok(chunk))
  {
    var loc := SlotAt(table, chunk.x, chunk.z).value;
    var lo := 4096 * loc.offset;
    var hi := 4096 * (loc.offset + loc.count);
    var record := Frame(packed);
    var d := data[..lo] + record + data[hi..];
    ReadIsSpanRead(table, d, chunk.x, chunk.z, co);
    SplicedSpan(data, lo, hi, record);
    if hi <= |d| {
      if |record| <= hi - lo {
        WholeRecordReadsBack(packed, data[hi..][..hi - lo - |record|], raw, decoded, chunk, co);
      } else {
        CutRecordFails(packed, hi - lo);
      }
    }
  }

  /** What the old span `lo..hi` holds after the splice: the record and the
      bytes that followed the old span, or a prefix of the record. */
  lemma SplicedSpan(data: seq<byte>, lo: nat, hi: nat, record: seq<byte>)
    requires lo <= hi <= |data|
    ensures var d := data[..lo] + record + data[hi..];
      && |d| == |data| - (hi - lo) + |record|
      && (hi <= |d| && |record| <= hi - lo ==> d[lo..hi] == record + data[hi..][..hi - lo - |record|])
      && (hi <= |d| && |record| > hi - lo ==> d[lo..hi] == record[..hi - lo])
  {
    var d := data[..lo] + record + data[hi..];
    if hi <= |d| {
      if |record| <= hi - lo {
        assert d[lo..hi] == record + data[hi..][..hi - lo - |record|];
      } else {
        assert d[lo..hi] == record[..hi - lo];
      }
    }
  }

  /** With the slot in range, a read is the read of the slot's sector span. */
  lemma ReadIsSpanRead(table: seq<byte>, data: seq<byte>, x: isize, z: isize, co: Collaborators)
    requires |table| == TABLE_SIZE && SlotAt(table, x, z).Ok?
    ensures var loc := SlotAt(table, x, z).value;
      var lo := 4096 * loc.offset;
      var hi := 4096 * (loc.offset + loc.count);
      ReadChunk(table, data, x, z, co)
        == if hi <= |data| then ChunkFromSpan(data[lo..hi], x, z, co) else Err(Panicked(SectorSlice))
  {
  }

  /** A span that starts with a whole written record reads back as the
      written chunk when the collaborators invert each other. */
  lemma WholeRecordReadsBack(packed: seq<byte>, rest: seq<byte>, raw: seq<byte>, decoded: Chunk,
                             chunk: Chunk, co: Collaborators)
    requires |packed| < U32_MODULUS
    requires co.decoders.zlib(packed) == Produced(raw)
    requires co.chunkFromBytes(raw) == Produced(decoded)
    requires decoded.level == chunk.level && decoded.dataVersion == chunk.dataVersion
    ensures ChunkFromSpan(Frame(packed) + rest, chunk.x, chunk.z, co) == Ok(chunk)
  {
    RecordRoundTrip(raw, packed, rest, co.decoders);
  }

  /** A span holding only a strict prefix of a record cannot be read: either
      the length bytes or the payload run past its end. */
  lemma CutRecordFails(packed: seq<byte>, n: nat)
    requires |packed| < U32_MODULUS
    requires n < |Frame(packed)|
    ensures Unframe(Frame(packed)[..n]).Err?
  {
    var s := Frame(packed)[..n];
    if 4 <= n {
      assert s[..4] == Frame(packed)[..4];
    }
  }

  // ---------------------------------------------------------------------
  // The region object

  /** `Region`. The two tables are fixed-size arrays; `set_chunk` changes
      `data` in place. */
  class Region {
    var locations: array<byte>
    var timestamps: array<byte>
    var data: seq<byte>
    var x: isize
    var z: isize

    ghost predicate Valid()
      reads this
    {
      locations.Length == TABLE_SIZE && timestamps.Length == TABLE_SIZE
    }

    /** The region's contents as a value. */
    ghost function Parts(): Image
      reads this, locations, timestamps
    {
      Image(locations[..], timestamps[..], data)
    }

    /** The struct literal of `decode`. */
    constructor (locations: seq<byte>, timestamps: seq<byte>, data: seq<byte>, x: isize, z: isize)
      requires |locations| == TABLE_SIZE && |timestamps| == TABLE_SIZE
      ensures Valid() && fresh(this.locations) && fresh(this.timestamps)
      ensures this.locations[..] == locations && this.timestamps[..] == timestamps
      ensures this.data == data && this.x == x && this.z == z
    {
      this.locations := new byte[TABLE_SIZE](i => if 0 <= i < |locations| then locations[i] else 0);
      this.timestamps := new byte[TABLE_SIZE](i => if 0 <= i < |timestamps| then timestamps[i] else 0);
      this.data := data;
      this.x := x;
      this.z := z;
    }

    /** `Region::decode`: `None` for fewer than 8192 bytes, otherwise the two
        tables and the rest as data; encoding the result gives the input back. */
    static method Decode(bytes: seq<byte>, x: isize, z: isize) returns (r: Option<Region>)
      ensures r.None? <==> |bytes| < HEADER_SIZE
      ensures r.Some? ==> fresh(r.value) && fresh(r.value.locations) && fresh(r.value.timestamps)
      ensures r.Some? ==> r.value.Valid()
      ensures r.Some? ==>
        && r.value.locations[..] == bytes[..TABLE_SIZE]
        && r.value.timestamps[..] == bytes[TABLE_SIZE..HEADER_SIZE]
        && r.value.data == bytes[HEADER_SIZE..]
        && r.value.x == x && r.value.z == z
      ensures r.Some? ==> r.value.Parts() == Split(bytes).value
      ensures r.Some? ==> r.value.Encode() == bytes
    {
      if |bytes| < HEADER_SIZE {
        return None;
      }
      var region := new Region(bytes[..TABLE_SIZE], bytes[TABLE_SIZE..HEADER_SIZE], bytes[HEADER_SIZE..], x, z);
      JoinSplit(bytes);
      r := Some(region);
    }

    /** `Region::encode`: the location table, the timestamp table, then the
        data. Decoding the result at the same coordinates gives back a region
        with the same parts (`Split(Encode()) == Some(Parts())`). */
    function Encode(): (r: seq<byte>)
      reads this, locations, timestamps
      requires Valid()
      ensures r == Join(Parts()) && Split(r) == Some(Parts())
      ensures |r| == HEADER_SIZE + |data|
      ensures r[..TABLE_SIZE] == locations[..]
      ensures r[TABLE_SIZE..HEADER_SIZE] == timestamps[..]
      ensures r[HEADER_SIZE..] == data
    {
      SplitJoin(Parts());
      locations[..] + timestamps[..] + data
    }

    /** `get_chunk_location`: mask the coordinates, index the table, and
        assemble the offset with successive `|=` of shifted bytes. Reads
        the table and changes nothing. */
    method GetChunkLocation(x: isize, z: isize) returns (r: Result<Location>)
      requires Valid()
      ensures r == SlotAt(locations[..], x, z)
    {
      var xOffset := And(AsUsize(x), 31);
      var zOffset := And(AsUsize(z), 31);
      var metaOffset := Shl(Shl(xOffset + zOffset, 5), 2);
      SlotIndexAsCoded(x, z);
      if metaOffset + 4 > locations.Length {
        return Err(Panicked(SlotSlice));
      }
      var location := locations[metaOffset..metaOffset + 4];

      var offset := 0;
      offset := Or(offset, Shl(location[0], 16));
      offset := Or(offset, Shl(location[1], 8));
      offset := Or(offset, location[2]);
      OrOfShiftedBytes(location[..3]);
      r := Ok(Location(offset, location[3]));
    }

    /** `get_chunk`: locate the slot, slice its sectors, then read, decompress,
        deserialise and stamp. */
    method GetChunk(x: isize, z: isize, co: Collaborators) returns (r: Result<Chunk>)
      requires Valid()
      ensures r == ReadChunk(locations[..], data, x, z, co)
      ensures r.Ok? ==> r.value.x == x && r.value.z == z
    {
      var location := GetChunkLocation(x, z);
      if location.Err? {
        return Err(location.fault);
      }
      var Location(offset, count) := location.value;
      if 4096 * (offset + count) > |data| {
        return Err(Panicked(SectorSlice));
      }
      var span := data[4096 * offset..4096 * (offset + count)];
      r := ChunkFromSpan(span, x, z, co);
    }

    /** `set_chunk`: serialise and compress the chunk, build the header, and
        splice the record over the old sector span. Neither table, nor the
        region's own coordinates, is changed. */
    method SetChunk(chunk: Chunk, co: Collaborators) returns (r: Result<()>)
      requires Valid()
      modifies this
      ensures Valid()
      ensures locations == old(locations) && timestamps == old(timestamps)
      ensures locations[..] == old(locations[..]) && timestamps[..] == old(timestamps[..])
      ensures x == old(x) && z == old(z)
      ensures match WriteChunk(old(locations[..]), old(data), chunk, co)
        case Ok(d) => r == Ok(()) && data == d
        case Err(f) => r == Err(f) && data == old(data)
    {
      var location := GetChunkLocation(chunk.x, chunk.z);
      if location.Err? {
        return Err(location.fault);
      }
      var Location(offset, count) := location.value;

      var uncompressed := co.chunkToBytes(chunk);
      if uncompressed.Rejected? {
        return Err(Failed(Collaborator(uncompressed.message)));
      }
      var compressed := co.zlibEncodeFast(uncompressed.value);
      if compressed.Rejected? {
        return Err(Failed(Collaborator(compressed.message)));
      }

      var record := ToBigEndian(|compressed.value| % U32_MODULUS, 4);
      record := record + [ZLIB_SCHEME];
      record := record + compressed.value;

      var lo, hi := Shl(offset, 12), Shl(offset + count, 12);
      SectorShiftIsScale(offset);
      SectorShiftIsScale(offset + count);
      if hi > |data| {
        return Err(Panicked(SpliceRange));
      }
      data := data[..lo] + record + data[hi..];
      r := Ok(());
    }
  }
}
