/** The record stored for one chunk inside a region's data area, as
    `get_chunk` reads it and `set_chunk` writes it: a 4-byte big-endian
    length, a scheme byte, and the (possibly compressed) payload. In this
    code the length counts the payload only, not the scheme byte. */
module WorldRecord {
  import opened Bits
  import opened Outcomes

  const GZIP_SCHEME: byte := 1
  const ZLIB_SCHEME: byte := 2

  /** The decompressors `get_chunk` dispatches to (`GzDecoder`, `ZlibDecoder`),
      each standing for `write_all` followed by `finish()?`. */
  datatype Decoders = Decoders(
    gzip: seq<byte> -> Foreign<seq<byte>>,
    zlib: seq<byte> -> Foreign<seq<byte>>)

  datatype Framed = Framed(scheme: byte, payload: seq<byte>)

  /** The record `set_chunk` builds around a zlib-compressed payload: the
      payload length cast `as u32` (so taken modulo 2^32), big-endian, then
      the scheme byte 2, then the payload. */
  function Frame(payload: seq<byte>): (r: seq<byte>)
    ensures |r| == 5 + |payload|
    ensures BigEndian(r[..4]) == |payload| % U32_MODULUS
    ensures r[4] == ZLIB_SCHEME && r[5..] == payload
  {
    var header := ToBigEndian(|payload| % U32_MODULUS, 4);
    Pow2Values();
    BigEndianOfToBigEndian(|payload| % U32_MODULUS, 4);
    assert (header + [ZLIB_SCHEME] + payload)[..4] == header;
    header + [ZLIB_SCHEME] + payload
  }

  /** How `get_chunk` reads the record at the start of a sector span: the
      length from bytes 0..4, then the payload `5..5 + length` and the scheme
      byte 4. Either slice may be out of range, which panics. */
  function Unframe(span: seq<byte>): (r: Result<Framed>)
    ensures r.Ok? ==> 5 + |r.value.payload| <= |span|
    ensures r.Ok? ==> r.value.scheme == span[4] && span[5..5 + |r.value.payload|] == r.value.payload
    ensures r.Ok? <==> 4 <= |span| && 5 + BigEndian(span[..4]) <= |span|
  {
    if |span| < 4 then Err(Panicked(LengthSlice))
    else
      var length := BigEndian(span[..4]);
      if 5 + length > |span| then Err(Panicked(PayloadSlice))
      else Ok(Framed(span[4], span[5..5 + length]))
  }

  /** The `match data[4]` of `get_chunk`: 1 is gzip, 2 is zlib, and any other
      byte passes the payload through as raw bytes. */
  function Decompress(framed: Framed, d: Decoders): (r: Result<seq<byte>>)
    ensures framed.scheme != GZIP_SCHEME && framed.scheme != ZLIB_SCHEME ==> r == Ok(framed.payload)
    ensures framed.scheme == GZIP_SCHEME ==> r == Lift(d.gzip(framed.payload))
    ensures framed.scheme == ZLIB_SCHEME ==> r == Lift(d.zlib(framed.payload))
    ensures r.Err? ==> r.fault.Failed? && r.fault.error.Collaborator?
  {
    if framed.scheme == GZIP_SCHEME then Lift(d.gzip(framed.payload))
    else if framed.scheme == ZLIB_SCHEME then Lift(d.zlib(framed.payload))
    else Ok(framed.payload)
  }

  /** A record written by `set_chunk` is read back by `get_chunk` as scheme 2
      with exactly its payload, whatever bytes follow it in the span, as long
      as the payload length fits the 32-bit length field. */
  lemma UnframeFrame(payload: seq<byte>, rest: seq<byte>)
    requires |payload| < U32_MODULUS
    ensures Unframe(Frame(payload) + rest) == Ok(Framed(ZLIB_SCHEME, payload))
  {
    var span := Frame(payload) + rest;
    assert span[..4] == Frame(payload)[..4];
    assert span[5..5 + |payload|] == Frame(payload)[5..] == payload;
  }

  /** With a payload of 2^32 bytes or more the `as u32` cast wraps, and the
      reader takes only the first `|payload| mod 2^32` bytes. */
  lemma UnframeFrameWraps(payload: seq<byte>, rest: seq<byte>)
    requires |payload| >= U32_MODULUS
    ensures Unframe(Frame(payload) + rest) == Ok(Framed(ZLIB_SCHEME, payload[..|payload| % U32_MODULUS]))
    ensures |payload| % U32_MODULUS < |payload|
  {
    var span := Frame(payload) + rest;
    var n := |payload| % U32_MODULUS;
    assert span[..4] == Frame(payload)[..4];
    assert span[5..5 + n] == Frame(payload)[5..][..n] == payload[..n];
  }

  /** Reading back a record written around `zlibEncoded` yields the bytes the
      zlib decoder makes of it; when that decoder inverts the encoder, the
      original bytes. */
  lemma RecordRoundTrip(raw: seq<byte>, zlibEncoded: seq<byte>, rest: seq<byte>, d: Decoders)
    requires |zlibEncoded| < U32_MODULUS
    requires d.zlib(zlibEncoded) == Produced(raw)
    ensures var f := Unframe(Frame(zlibEncoded) + rest); f.Ok? && Decompress(f.value, d) == Ok(raw)
  {
    UnframeFrame(zlibEncoded, rest);
  }
}
