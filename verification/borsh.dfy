/**
 * Primitive encodings of the Borsh binary serialization format:
 * little-endian fixed-width integers, 64-bit two's-complement signed
 * integers and `u32`-length-prefixed byte strings.
 *
 * Decoders take the remaining input and return the value read together
 * with what is left (`Parsed`), or `None` when the input runs out.
 */
module Borsh {
  import opened Wrappers

  type byte = b: int | 0 <= b < 0x100

  const U32_LIMIT: nat := 0x1_0000_0000
  type u32 = n: int | 0 <= n < 0x1_0000_0000

  const I64_MIN: int := -0x8000_0000_0000_0000
  const I64_BOUND: int := 0x8000_0000_0000_0000
  const U64_LIMIT: int := 0x1_0000_0000_0000_0000
  type i64 = x: int | -0x8000_0000_0000_0000 <= x < 0x8000_0000_0000_0000

  /** A string is kept as its UTF-8 bytes. */
  type Str = seq<byte>

  /** A value read from the front of the input, and the input left after it. */
  datatype Parsed<+T> = Parsed(value: T, rest: seq<byte>)

  function Pow256(k: nat): (p: nat)
    ensures p >= 1
  {
    if k == 0 then 1 else 256 * Pow256(k - 1)
  }

  /** The `k` low-order bytes of `n`, least significant first. */
  function ToLe(n: nat, k: nat): (r: seq<byte>)
    ensures |r| == k
  {
    if k == 0 then [] else [n % 256] + ToLe(n / 256, k - 1)
  }

  /** The number whose little-endian bytes are `b`. */
  function FromLe(b: seq<byte>): nat
  {
    if b == [] then 0 else b[0] + 256 * FromLe(b[1..])
  }

  lemma {:induction false} FromLeBound(b: seq<byte>)
    ensures FromLe(b) < Pow256(|b|)
  {
    if b != [] {
      FromLeBound(b[1..]);
    }
  }

  lemma {:induction false} FromLeToLe(n: nat, k: nat)
    requires n < Pow256(k)
    ensures FromLe(ToLe(n, k)) == n
  {
    if k > 0 {
      FromLeToLe(n / 256, k - 1);
      assert ToLe(n, k)[1..] == ToLe(n / 256, k - 1);
    }
  }

  /** Splitting off the low byte of `d + 256 * q` gives back `d` and `q`. */
  lemma LowByte(d: byte, q: nat)
    ensures (d + 256 * q) % 256 == d && (d + 256 * q) / 256 == q
  {
  }

  lemma {:induction false} ToLeFromLe(b: seq<byte>)
    ensures ToLe(FromLe(b), |b|) == b
  {
    if b != [] {
      var q := FromLe(b[1..]);
      ToLeFromLe(b[1..]);
      LowByte(b[0], q);
      assert ToLe(FromLe(b), |b|) == [b[0]] + ToLe(q, |b| - 1);
    }
  }

  lemma Pow256Four()
    ensures Pow256(4) == U32_LIMIT
  {
  }

  lemma Pow256Eight()
    ensures Pow256(8) == U64_LIMIT
  {
  }

  // ---- u32 ------------------------------------------------------------

  function EncodeU32(n: u32): seq<byte>
  {
    ToLe(n, 4)
  }

  /** Reads four bytes as a little-endian `u32`; fails on fewer than four. */
  function ReadU32(s: seq<byte>): (r: Option<Parsed<u32>>)
    ensures r.Some? <==> |s| >= 4
  {
    if |s| < 4 then None
    else
      FromLeBound(s[..4]);
      Pow256Four();
      Some(Parsed(FromLe(s[..4]), s[4..]))
  }

  /** What `ReadU32` accepts is an encoded `u32` followed by the rest. */
  lemma ReadU32Sound(s: seq<byte>)
    requires ReadU32(s).Some?
    ensures var p := ReadU32(s).value; s == EncodeU32(p.value) + p.rest
  {
    ToLeFromLe(s[..4]);
    assert s == s[..4] + s[4..];
  }

  lemma U32RoundTrip(n: u32, t: seq<byte>)
    ensures ReadU32(EncodeU32(n) + t) == Some(Parsed(n, t))
  {
    var s := EncodeU32(n) + t;
    assert s[..4] == EncodeU32(n);
    assert s[4..] == t;
    Pow256Four();
    FromLeToLe(n, 4);
  }

  // ---- i64 ------------------------------------------------------------

  /** Two's-complement image of `x` as an unsigned 64-bit number. */
  function TwosComplement(x: i64): (u: nat)
    ensures u < U64_LIMIT
    ensures (u < I64_BOUND) == (x >= 0)
  {
    if x < 0 then x + U64_LIMIT else x
  }

  /** The signed value of a 64-bit two's-complement bit pattern. */
  function FromTwosComplement(u: nat): (x: i64)
    requires u < U64_LIMIT
    ensures TwosComplement(x) == u
  {
    if u >= I64_BOUND then u - U64_LIMIT else u
  }

  function EncodeI64(x: i64): seq<byte>
  {
    ToLe(TwosComplement(x), 8)
  }

  /** Reads eight bytes as a little-endian two's-complement `i64`. */
  function ReadI64(s: seq<byte>): (r: Option<Parsed<i64>>)
    ensures r.Some? <==> |s| >= 8
  {
    if |s| < 8 then None
    else
      FromLeBound(s[..8]);
      Pow256Eight();
      Some(Parsed(FromTwosComplement(FromLe(s[..8])), s[8..]))
  }

  /** What `ReadI64` accepts is an encoded `i64` followed by the rest. */
  lemma ReadI64Sound(s: seq<byte>)
    requires ReadI64(s).Some?
    ensures var p := ReadI64(s).value; s == EncodeI64(p.value) + p.rest
  {
    FromLeBound(s[..8]);
    Pow256Eight();
    ToLeFromLe(s[..8]);
    assert s == s[..8] + s[8..];
  }

  lemma I64RoundTrip(x: i64, t: seq<byte>)
    ensures ReadI64(EncodeI64(x) + t) == Some(Parsed(x, t))
  {
    var s := EncodeI64(x) + t;
    assert s[..8] == EncodeI64(x);
    assert s[8..] == t;
    Pow256Eight();
    FromLeToLe(TwosComplement(x), 8);
  }

  // ---- strings --------------------------------------------------------

  /** Borsh can only write a string whose length fits its `u32` prefix. */
  predicate StrFits(s: Str)
  {
    |s| < U32_LIMIT
  }

  function EncodeString(s: Str): (r: seq<byte>)
    requires StrFits(s)
  {
    EncodeU32(|s|) + s
  }

  /**
   * Reads a `u32` length and then that many bytes; fails when the prefix
   * is cut short or the declared length runs past the end of the input.
   */
  function ReadString(s: seq<byte>): (r: Option<Parsed<Str>>)
    ensures r.Some? ==> |s| >= 4 && |r.value.rest| <= |s| - 4
  {
    match ReadU32(s)
    case None => None
    case Some(len) =>
      if |len.rest| < len.value then None
      else Some(Parsed(len.rest[..len.value], len.rest[len.value..]))
  }

  /** What `ReadString` accepts is an encoded string followed by the rest. */
  lemma ReadStringSound(s: seq<byte>)
    requires ReadString(s).Some?
    ensures var p := ReadString(s).value; StrFits(p.value) && s == EncodeString(p.value) + p.rest
  {
    var len := ReadU32(s).value;
    ReadU32Sound(s);
    assert len.rest == len.rest[..len.value] + len.rest[len.value..];
  }

  /** A declared length longer than the bytes that follow it is refused. */
  lemma ReadStringOverrun(s: seq<byte>)
    requires |s| >= 4 && FromLe(s[..4]) > |s| - 4
    ensures ReadString(s).None?
  {
  }

  lemma StringRoundTrip(x: Str, t: seq<byte>)
    requires StrFits(x)
    ensures ReadString(EncodeString(x) + t) == Some(Parsed(x, t))
  {
    var s := EncodeString(x) + t;
    assert s == EncodeU32(|x|) + (x + t);
    U32RoundTrip(|x|, x + t);
    assert (x + t)[..|x|] == x;
    assert (x + t)[|x|..] == t;
  }
}
