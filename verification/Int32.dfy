/** 32-bit two's-complement integers and C division. */
module Int32 {

  const TWO_31 := 0x8000_0000
  const TWO_32 := 0x1_0000_0000

  predicate InInt32(x: int) { -TWO_31 <= x < TWO_31 }

  /** The 32-bit value congruent to `x`. */
  function Wrap(x: int): (r: int)
    ensures InInt32(r)
    ensures InInt32(x) ==> r == x
  {
    (x + TWO_31) % TWO_32 - TWO_31
  }

  /** The same bits read as unsigned. */
  function Unsigned(x: int): (r: nat)
    ensures r < TWO_32
  {
    x % TWO_32
  }

  lemma WrapShift(x: int, k: int)
    ensures Wrap(x + k * TWO_32) == Wrap(x)
  {
  }

  /** Wrapping is removing a multiple of 2^32. */
  lemma WrapIs(x: int) returns (k: int)
    ensures Wrap(x) == x - k * TWO_32
  {
    k := (x + TWO_31) / TWO_32;
  }

  /** C division truncates toward zero. */
  function Div(a: int, b: int): (q: int)
    requires b != 0
  {
    if a >= 0 then a / b else -((-a) / b)
  }

  function Mod(a: int, b: int): (r: int)
    requires b != 0
  {
    a - b * Div(a, b)
  }

  /** The remainder has the dividend's sign and is smaller than the divisor. */
  lemma DivModSpec(a: int, b: int)
    requires b != 0
    ensures a == b * Div(a, b) + Mod(a, b)
    ensures (Mod(a, b) == 0 || (Mod(a, b) < 0) == (a < 0)) && -(if b < 0 then -b else b) < Mod(a, b) < (if b < 0 then -b else b)
  {
  }
}
