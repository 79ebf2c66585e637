/**
 * Fixed-width integers, bytes and the little-endian layout that the
 * netlink structures use on the hosts iproute2 runs on.
 */
module Types {

  datatype Option<T> = None | Some(value: T)

  type byte = b: int | 0 <= b < 0x100
  type U16 = x: int | 0 <= x < 0x1_0000
  type U32 = x: int | 0 <= x < 0x1_0000_0000
  type U64 = x: int | 0 <= x < 0x1_0000_0000_0000_0000

  const Two32: int := 0x1_0000_0000

  /** `n` zero bytes (attribute padding, zero-initialised structures). */
  function Zeros(n: nat): (r: seq<byte>)
    ensures |r| == n && forall i :: 0 <= i < n ==> r[i] == 0
  {
    seq(n, _ => 0)
  }

  function Le16(x: U16): (r: seq<byte>)
    ensures |r| == 2
  {
    [x % 0x100, x / 0x100]
  }

  function Le32(x: U32): (r: seq<byte>)
    ensures |r| == 4
  {
    Le16(x % 0x1_0000) + Le16(x / 0x1_0000)
  }

  function Le64(x: U64): (r: seq<byte>)
    ensures |r| == 8
  {
    Le32(x % Two32) + Le32(x / Two32)
  }

  function ReadLe16(b: seq<byte>): (r: U16)
    requires |b| >= 2
  {
    b[0] as int + 0x100 * (b[1] as int)
  }

  function ReadLe32(b: seq<byte>): (r: U32)
    requires |b| >= 4
  {
    ReadLe16(b) + 0x1_0000 * ReadLe16(b[2..])
  }

  function ReadLe64(b: seq<byte>): (r: U64)
    requires |b| >= 8
  {
    ReadLe32(b) + Two32 * ReadLe32(b[4..])
  }

  /**
   * The first `n` bytes of `p`, zero-extended when `p` is shorter: the
   * model's reading of a fixed-width getter applied to a short payload
   * (the C getters read `n` bytes unconditionally).
   */
  function Widen(p: seq<byte>, n: nat): (r: seq<byte>)
    ensures |r| == n
    ensures |p| >= n ==> r == p[..n]
  {
    if |p| >= n then p[..n] else p + Zeros(n - |p|)
  }

  function GetU16(p: seq<byte>): U16 { ReadLe16(Widen(p, 2)) }
  function GetU32(p: seq<byte>): U32 { ReadLe32(Widen(p, 4)) }
  function GetU64(p: seq<byte>): U64 { ReadLe64(Widen(p, 8)) }

  lemma Le16RoundTrip(x: U16, rest: seq<byte>)
    ensures ReadLe16(Le16(x) + rest) == x
  {
  }

  lemma Le32RoundTrip(x: U32, rest: seq<byte>)
    ensures ReadLe32(Le32(x) + rest) == x
  {
    var b := Le32(x) + rest;
    Le16RoundTrip(x % 0x1_0000, Le16(x / 0x1_0000) + rest);
    assert b[2..] == Le16(x / 0x1_0000) + rest;
    Le16RoundTrip(x / 0x1_0000, rest);
  }

  lemma Le64RoundTrip(x: U64, rest: seq<byte>)
    ensures ReadLe64(Le64(x) + rest) == x
  {
    var b := Le64(x) + rest;
    assert b == Le32(x % Two32) + (Le32(x / Two32) + rest);
    Le32RoundTrip(x % Two32, Le32(x / Two32) + rest);
    assert b[4..] == Le32(x / Two32) + rest;
    Le32RoundTrip(x / Two32, rest);
  }

  /** Reading 32 bits of a 64-bit little-endian value keeps its low half. */
  lemma Le64LowHalf(x: U64, rest: seq<byte>)
    ensures ReadLe32(Le64(x) + rest) == x % Two32
  {
    var b := Le64(x) + rest;
    assert b == Le32(x % Two32) + (Le32(x / Two32) + rest);
    Le32RoundTrip(x % Two32, Le32(x / Two32) + rest);
  }
}
