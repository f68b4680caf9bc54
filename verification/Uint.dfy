/** The unsigned integer widths of the wire and of the exporter's own counters,
    with the wrap-around the source gets from its fixed-width types. */
module Uint {

  const TWO_16: int := 0x1_0000
  const TWO_32: int := 0x1_0000_0000
  const TWO_64: int := 0x1_0000_0000_0000_0000

  type u8 = x: int | 0 <= x < 0x100
  type u16 = x: int | 0 <= x < 0x1_0000
  type u32 = x: int | 0 <= x < 0x1_0000_0000
  type u64 = x: int | 0 <= x < 0x1_0000_0000_0000_0000

  /** The reading a 32-bit counter gives for an unbounded count. */
  function Wrap32(x: int): u32 {
    x % TWO_32
  }

  /** The reading a 64-bit counter gives for an unbounded count. */
  function Wrap64(x: int): u64 {
    x % TWO_64
  }

  function Sub32(a: u32, b: u32): u32 {
    (a - b) % TWO_32
  }

  function Add32(a: u32, b: u32): u32 {
    (a + b) % TWO_32
  }

  function Add64(a: u64, b: u64): u64 {
    (a + b) % TWO_64
  }

  /** Subtracting two wrapped readings wraps the true difference. */
  lemma SubOfWraps(a: int, b: int)
    ensures Sub32(Wrap32(a), Wrap32(b)) == Wrap32(a - b)
  {
    var qa, qb := a / TWO_32, b / TWO_32;
    assert a - b == Wrap32(a) - Wrap32(b) + TWO_32 * (qa - qb);
  }

  lemma AddOfWraps(a: int, b: int)
    ensures Add32(Wrap32(a), Wrap32(b)) == Wrap32(a + b)
  {
    var qa, qb := a / TWO_32, b / TWO_32;
    assert a + b == Wrap32(a) + Wrap32(b) + TWO_32 * (qa + qb);
  }

  lemma AddOfWraps64(a: int, b: int)
    ensures Add64(Wrap64(a), Wrap64(b)) == Wrap64(a + b)
  {
    var qa, qb := a / TWO_64, b / TWO_64;
    assert a + b == Wrap64(a) + Wrap64(b) + TWO_64 * (qa + qb);
  }

  lemma SmallCounts(x: u64, y: int)
    requires 0 <= y < TWO_64
    ensures Wrap64(y) == y && Add64(x, Wrap64(0)) == x
  {
  }
}
