/**
 * The 32-bit integer types of the C++ source and the conversions between
 * them, on the two's complement targets the simulator is built for: an
 * `unsigned` stored in an `int` field and read back through an `unsigned`
 * result is reduced modulo 2^32 each way.
 */
module Integers {

  const Modulus: int := 0x1_0000_0000

  /** C++ `unsigned`. */
  type Unsigned = x: int | 0 <= x < 0x1_0000_0000

  /** C++ `int`. */
  type Signed = x: int | -0x8000_0000 <= x < 0x8000_0000

  /** `int` from `unsigned`: the one `int` congruent to x modulo 2^32. */
  function ToSigned(x: Unsigned): (y: Signed)
    ensures (y - x) % Modulus == 0
    ensures 0 <= y <==> x < 0x8000_0000
  {
    if x < 0x8000_0000 then x else x - Modulus
  }

  /** `unsigned` from `int`: the one `unsigned` congruent to y modulo 2^32. */
  function ToUnsigned(y: Signed): (x: Unsigned)
    ensures (x - y) % Modulus == 0
    ensures 0 <= y ==> x == y
  {
    if y < 0 then y + Modulus else y
  }

  /** Two integers of one width that are congruent modulo 2^32 are equal. */
  lemma CongruentUnsigned(a: Unsigned, b: Unsigned)
    requires (a - b) % Modulus == 0
    ensures a == b
  {
    var q := (a - b) / Modulus;
    assert a - b == q * Modulus;
  }

  /** An `unsigned` stored in an `int` reads back unchanged. */
  lemma {:induction false} UnsignedRoundTrip(x: Unsigned)
    ensures ToUnsigned(ToSigned(x)) == x
  {
    var y := ToSigned(x);
    var z := ToUnsigned(y);
    assert (z - x) % Modulus == ((z - y) + (y - x)) % Modulus;
    CongruentUnsigned(z, x);
  }
}
