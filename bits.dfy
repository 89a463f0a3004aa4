/** Machine-integer arithmetic used by the region container: the unsigned
    and signed widths the Rust code works in, the bitwise operators it
    applies (`<<`, `|`, `&`, `as usize`), and big-endian integer encodings
    (`u32::from_be_bytes`, `u32::to_be_bytes`). All of it is stated on
    unbounded naturals, with every wrap-around written out. */
module Bits {

  /** `u8` */
  type byte = b: int | 0 <= b < 256

  /** `isize` on a 64-bit target */
  type isize = v: int | -0x8000_0000_0000_0000 <= v < 0x8000_0000_0000_0000

  const USIZE_MODULUS: nat := 0x1_0000_0000_0000_0000
  const U32_MODULUS: nat := 0x1_0000_0000

  function Pow2(n: nat): (r: nat)
    ensures r >= 1
  {
    if n == 0 then 1 else 2 * Pow2(n - 1)
  }

  lemma {:induction false} Pow2Add(a: nat, b: nat)
    ensures Pow2(a + b) == Pow2(a) * Pow2(b)
    decreases a
  {
    if a > 0 {
      Pow2Add(a - 1, b);
      assert Pow2(a + b) == 2 * Pow2(a - 1 + b);
    }
  }

  lemma Pow2Values()
    ensures Pow2(2) == 4 && Pow2(5) == 32 && Pow2(8) == 256 && Pow2(12) == 4096
    ensures Pow2(16) == 0x1_0000 && Pow2(24) == 0x100_0000 && Pow2(32) == U32_MODULUS
  {
    assert Pow2(5) == 32;
    assert Pow2(8) == 256;
    Pow2Add(8, 4);
    Pow2Add(8, 8);
    Pow2Add(16, 8);
    Pow2Add(16, 16);
  }

  /** `v as usize` for an `isize`: the two's-complement bit pattern read as unsigned. */
  function AsUsize(v: isize): (r: nat)
    ensures r < USIZE_MODULUS
  {
    v % USIZE_MODULUS
  }

  /** `a << n` on `usize`: bits shifted past bit 63 are lost. */
  function Shl(a: nat, n: nat): (r: nat)
    ensures r < USIZE_MODULUS
  {
    (a * Pow2(n)) % USIZE_MODULUS
  }

  /** A shift that loses no bit is a multiplication by `2^n`. */
  lemma ShlNoWrap(a: nat, n: nat)
    requires a * Pow2(n) < USIZE_MODULUS
    ensures Shl(a, n) == a * Pow2(n)
  {
  }

  /** `a | b` on unsigned integers, bit by bit from the least significant bit. */
  function Or(a: nat, b: nat): nat
    decreases a + b
  {
    if a == 0 then b
    else if b == 0 then a
    else (if a % 2 == 1 || b % 2 == 1 then 1 else 0) + 2 * Or(a / 2, b / 2)
  }

  /** `a & b` on unsigned integers, bit by bit from the least significant bit. */
  function And(a: nat, b: nat): nat
    decreases a + b
  {
    if a == 0 || b == 0 then 0
    else (if a % 2 == 1 && b % 2 == 1 then 1 else 0) + 2 * And(a / 2, b / 2)
  }

  /** Or-ing a value into bits that are all zero is addition. */
  lemma {:induction false} OrDisjoint(a: nat, b: nat, k: nat)
    requires b < Pow2(k)
    ensures Or(a * Pow2(k), b) == a * Pow2(k) + b
    decreases k
  {
    if k > 0 && a != 0 && b != 0 {
      var h := a * Pow2(k - 1);
      assert a * Pow2(k) == 2 * h;
      OrDisjoint(a, b / 2, k - 1);
      assert (2 * h) / 2 == h;
      assert (2 * h) % 2 == 0;
    }
  }

  /** Masking with `2^k - 1` keeps the value modulo `2^k`. */
  lemma {:induction false} AndLowMask(u: nat, k: nat)
    ensures And(u, Pow2(k) - 1) == u % Pow2(k)
    decreases k
  {
    var m := Pow2(k);
    if k == 0 {
      assert m == 1;
      DivModUnique(u, 1, u, 0);
    } else if u == 0 {
      DivModUnique(0, m, 0, 0);
    } else {
      var p := Pow2(k - 1);
      assert m == 2 * p;
      AndLowMask(u / 2, k - 1);
      AndLowMaskStep(u, p);
    }
  }

  /** One bit of `AndLowMask`: the lowest bit of `u` survives the mask. */
  lemma AndLowMaskStep(u: nat, p: nat)
    requires u > 0 && p >= 1
    requires And(u / 2, p - 1) == (u / 2) % p
    ensures And(u, 2 * p - 1) == u % (2 * p)
  {
    AndOddMask(u, p);
    ModSplit(u, p);
  }

  /** Unfolding `And` once against an odd mask `2p - 1`. */
  lemma AndOddMask(u: nat, p: nat)
    requires u > 0 && p >= 1
    ensures And(u, 2 * p - 1) == u % 2 + 2 * And(u / 2, p - 1)
  {
    DivModUnique(2 * p - 1, 2, p - 1, 1);
  }

  lemma ModSplit(u: nat, p: nat)
    requires p >= 1
    ensures u % (2 * p) == u % 2 + 2 * ((u / 2) % p)
  {
    var q := (u / 2) / p;
    var r := (u / 2) % p;
    assert u / 2 == p * q + r;
    assert u == (u % 2) + 2 * (u / 2);
    assert u == (2 * p) * q + ((u % 2) + 2 * r);
    DivModUnique(u, 2 * p, q, (u % 2) + 2 * r);
  }

  /** Quotient and remainder are determined by `u == d * q + r` with `r < d`. */
  lemma DivModUnique(u: int, d: nat, q: int, r: nat)
    requires d >= 1 && r < d && u == d * q + r
    ensures u % d == r && u / d == q
  {
    var q', r' := u / d, u % d;
    assert u == d * q' + r';
    if q' < q {
      MulStep(d, q', q);
    } else if q < q' {
      MulStep(d, q, q');
    }
  }

  lemma {:induction false} MulStep(d: nat, a: int, b: int)
    requires a < b
    ensures d * a + d <= d * b
    decreases b - a
  {
    assert d * b == d * (b - 1) + d;
    if a + 1 < b {
      MulStep(d, a, b - 1);
    }
  }

  /** Reducing modulo `m * k` first does not change the remainder modulo `k`. */
  lemma ModOfMultipleModulus(v: int, k: nat, m: nat)
    requires k >= 1 && m >= 1
    ensures (v % (m * k)) % k == v % k
  {
    var q := v / (m * k);
    var r := v % (m * k);
    assert v == (m * k) * q + r;
    var q2 := r / k;
    var r2 := r % k;
    assert r == k * q2 + r2;
    assert v == k * (m * q + q2) + r2;
    DivModUnique(v, k, m * q + q2, r2);
  }

  /** The number a sequence of bytes denotes, most significant byte first. */
  function BigEndian(bs: seq<byte>): nat
  {
    if bs == [] then 0 else BigEndian(bs[..|bs| - 1]) * 256 + bs[|bs| - 1]
  }

  /** The `width` low-order bytes of `n`, most significant first. */
  function ToBigEndian(n: nat, width: nat): (r: seq<byte>)
    ensures |r| == width
  {
    if width == 0 then [] else ToBigEndian(n / 256, width - 1) + [n % 256]
  }

  lemma {:induction false} BigEndianBound(bs: seq<byte>)
    ensures BigEndian(bs) < Pow2(8 * |bs|)
    decreases |bs|
  {
    if bs != [] {
      var init := bs[..|bs| - 1];
      BigEndianBound(init);
      Pow2Add(8, 8 * |init|);
      assert 8 * |bs| == 8 + 8 * |init|;
      assert BigEndian(init) + 1 <= Pow2(8 * |init|);
      MulMonotone(256, BigEndian(init) + 1, Pow2(8 * |init|));
    }
  }

  lemma MulMonotone(d: nat, a: nat, b: nat)
    requires a <= b
    ensures d * a <= d * b
  {
    if a < b {
      MulStep(d, a, b);
    }
  }

  /** Encoding a number that fits in `width` bytes and decoding it gives it back. */
  lemma {:induction false} BigEndianOfToBigEndian(n: nat, width: nat)
    requires n < Pow2(8 * width)
    ensures BigEndian(ToBigEndian(n, width)) == n
    decreases width
  {
    if width == 0 {
      assert n == 0;
    } else {
      var bs := ToBigEndian(n, width);
      assert bs[..width - 1] == ToBigEndian(n / 256, width - 1);
      Pow2Add(8, 8 * (width - 1));
      assert 8 * width == 8 + 8 * (width - 1);
      var q, p := n / 256, Pow2(8 * (width - 1));
      if p <= q {
        MulMonotone(256, p, q);
        assert false;
      }
      BigEndianOfToBigEndian(q, width - 1);
    }
  }

  /** Decoding bytes and encoding the number in as many bytes gives them back. */
  lemma {:induction false} ToBigEndianOfBigEndian(bs: seq<byte>)
    ensures ToBigEndian(BigEndian(bs), |bs|) == bs
    decreases |bs|
  {
    if bs != [] {
      var init := bs[..|bs| - 1];
      var n := BigEndian(bs);
      DivModUnique(n, 256, BigEndian(init), bs[|bs| - 1]);
      ToBigEndianOfBigEndian(init);
      assert bs == init + [bs[|bs| - 1]];
    }
  }
}
