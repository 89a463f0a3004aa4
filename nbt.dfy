/** The generic tagged-value tree of the game's binary tag format, as the
    `fastnbt::Value` enum presents it. Parsing and printing the tree are
    foreign; the core only inspects its outermost variant and hands values
    to per-field conversions. */
module Nbt {

  type i8 = v: int | -0x80 <= v < 0x80
  type i16 = v: int | -0x8000 <= v < 0x8000
  type i32 = v: int | -0x8000_0000 <= v < 0x8000_0000
  type i64 = v: int | -0x8000_0000_0000_0000 <= v < 0x8000_0000_0000_0000
  type u8 = v: int | 0 <= v < 0x100
  type u32 = v: int | 0 <= v < 0x1_0000_0000
  type u64 = v: int | 0 <= v < 0x1_0000_0000_0000_0000

  datatype Value =
    | Byte(b: i8)
    | Short(s: i16)
    | Int(i: i32)
    | Long(l: i64)
    | Float(floatBits: u32)   // IEEE-754 bit pattern; arithmetic on it is never needed
    | Double(doubleBits: u64)
    | ByteArray(bytes: seq<i8>)
    | String(text: string)
    | List(items: seq<Value>)
    | Compound(entries: seq<(string, Value)>)
    | IntArray(ints: seq<i32>)
    | LongArray(longs: seq<i64>)

  /** A `HashMap<String, Value>`, as the sequence its iterator yields. */
  type TagMap = seq<(string, Value)>
}
