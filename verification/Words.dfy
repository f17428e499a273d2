/** Machine words: the fixed-width unsigned integers of the source and their wrap-around. */
module Words {
  const TWO_31: int := 0x8000_0000
  const TWO_32: int := 0x1_0000_0000

  type byte = x: int | 0 <= x < 256

  type u32 = x: int | 0 <= x < 0x1_0000_0000

  /** `u32::MAX`, the "no scope" marker. */
  const NONE: u32 := 0xFFFF_FFFF

  /** The value a 32-bit register keeps of a mathematical integer. */
  function Wrap(x: int): (r: u32) {
    x % TWO_32
  }

  function WrappingAdd(a: u32, b: u32): u32 {
    Wrap(a + b)
  }

  function WrappingSub(a: u32, b: u32): u32 {
    Wrap(a - b)
  }

  lemma WrapOfSum(a: int, b: int)
    ensures Wrap(a + b) == WrappingAdd(Wrap(a), Wrap(b))
    ensures Wrap(a - b) == WrappingSub(Wrap(a), Wrap(b))
  {
    var qa, qb := a / TWO_32, b / TWO_32;
    assert a == qa * TWO_32 + Wrap(a) && b == qb * TWO_32 + Wrap(b);
    WrapShift(Wrap(a) + Wrap(b), qa + qb);
    WrapShift(Wrap(a) - Wrap(b), qa - qb);
  }

  lemma WrapShift(x: int, q: int)
    ensures Wrap(x + q * TWO_32) == Wrap(x)
  {
    var d := x / TWO_32;
    assert x + q * TWO_32 == (d + q) * TWO_32 + x % TWO_32;
  }
}
