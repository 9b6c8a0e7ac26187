/** Types shared by every module: bytes, 32-bit words and Option. */
module Base {

  newtype byte = x: int | 0 <= x < 256

  /** One more than the largest uint32_t and uint16_t. */
  const U32: nat := 0x1_0000_0000
  const U16: nat := 0x1_0000

  type uint8 = x: int | 0 <= x < 256
  type uint32 = x: int | 0 <= x < 0x1_0000_0000

  datatype Option<+T> = None | Some(value: T)

  function Min(a: nat, b: nat): nat {
    if a < b then a else b
  }

  /** Unsigned 32-bit addition and subtraction, as C defines them. */
  function Add32(a: uint32, b: uint32): uint32 {
    (a + b) % U32
  }

  function Sub32(a: uint32, b: uint32): uint32 {
    (a - b) % U32
  }

  lemma Multiple(k: int, d: nat)
    ensures k >= 1 ==> k * d >= d
    ensures k <= -1 ==> k * d + d <= 0
  {
    assert k * d == d + (k - 1) * d;
    assert k * d == (k + 1) * d - d;
  }

  /** Quotient and remainder are determined by the number. */
  lemma DivMod(q: nat, r: nat, d: nat)
    requires r < d
    ensures (q * d + r) / d == q && (q * d + r) % d == r
  {
    var n := q * d + r;
    var k := n / d - q;
    assert n == (q + k) * d + n % d;
    assert (q + k) * d == q * d + k * d;
    Multiple(k, d);
  }
}
