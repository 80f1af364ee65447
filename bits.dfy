/** Machine-level helpers shared by the MSP430 models: 8-bit port and bus
    bytes, single-bit access on them, and the 16-bit two's-complement `int`
    of the MSP430 C compilers. */
module Bits {

  type Byte = bv8

  const INT16_MIN := -0x8000
  const INT16_MAX := 0x7FFF
  const WORD := 0x1_0000

  predicate InInt16(x: int) {
    INT16_MIN <= x <= INT16_MAX
  }

  /** `1 << i`, the mask of bit `i` of a byte, as a table. */
  function Mask(i: nat): (m: Byte)
    requires i < 8
    ensures m != 0 && m & (m - 1) == 0
  {
    match i
    case 0 => 0x01 case 1 => 0x02 case 2 => 0x04 case 3 => 0x08
    case 4 => 0x10 case 5 => 0x20 case 6 => 0x40 case _ => 0x80
  }

  /** Bit `i` of `b` is set. */
  predicate Bit(b: Byte, i: nat)
    requires i < 8
  {
    b & Mask(i) != 0
  }

  /** `b |= (1 << i)` when `on`, `b &= ~(1 << i)` otherwise. */
  function SetBit(b: Byte, i: nat, on: bool): (r: Byte)
    requires i < 8
    ensures Bit(r, i) == on
    ensures forall j :: 0 <= j < 8 && j != i ==> Bit(r, j) == Bit(b, j)
  {
    var r := if on then b | Mask(i) else b & !Mask(i);
    forall j | 0 <= j < 8 && j != i ensures Bit(r, j) == Bit(b, j) {
      OtherBitKept(b, i, on, j);
    }
    r
  }

  lemma OtherBitKept(b: Byte, i: nat, on: bool, j: nat)
    requires i < 8 && j < 8 && j != i
    ensures Bit(if on then b | Mask(i) else b & !Mask(i), j) == Bit(b, j)
  {
    assert Mask(i) != Mask(j) by {
      if i == 0 {} else if i == 1 {} else if i == 2 {} else if i == 3 {}
      else if i == 4 {} else if i == 5 {} else if i == 6 {} else {}
    }
  }

  /** A byte is determined by its eight bits. */
  lemma SameBits(a: Byte, b: Byte)
    requires forall i :: 0 <= i < 8 ==> Bit(a, i) == Bit(b, i)
    ensures a == b
  {
    assert a & 0x01 == b & 0x01 by { assert Bit(a, 0) == Bit(b, 0); }
    assert a & 0x02 == b & 0x02 by { assert Bit(a, 1) == Bit(b, 1); }
    assert a & 0x04 == b & 0x04 by { assert Bit(a, 2) == Bit(b, 2); }
    assert a & 0x08 == b & 0x08 by { assert Bit(a, 3) == Bit(b, 3); }
    assert a & 0x10 == b & 0x10 by { assert Bit(a, 4) == Bit(b, 4); }
    assert a & 0x20 == b & 0x20 by { assert Bit(a, 5) == Bit(b, 5); }
    assert a & 0x40 == b & 0x40 by { assert Bit(a, 6) == Bit(b, 6); }
    assert a & 0x80 == b & 0x80 by { assert Bit(a, 7) == Bit(b, 7); }
  }

  /** A number 0..255 converts to the byte of that value. */
  lemma ByteValue(x: int)
    requires 0 <= x < 0x100
    ensures x as Byte as int == x
  {
    assert x % 0x100 == x;
  }

  /** A byte converts to its value and back unchanged. */
  lemma ByteOfValue(b: Byte)
    ensures b as int as Byte == b
  {
  }

  /** The value a 16-bit signed `int` holds after an arithmetic result `x`
      is stored in it: two's-complement wrap-around. */
  function Wrap16(x: int): (r: int)
    ensures InInt16(r)
    ensures InInt16(x) ==> r == x
  {
    var m := (x - INT16_MIN) % WORD;
    if InInt16(x) then DivModUnique(x - INT16_MIN, WORD, 0, x - INT16_MIN); m + INT16_MIN
    else m + INT16_MIN
  }

  /** The stored value differs from `x` by a whole number `q` of 2^16. */
  lemma Wrap16Split(x: int) returns (q: int)
    ensures x == Wrap16(x) + q * WORD
  {
    q := (x - INT16_MIN) / WORD;
  }

  /** Any 16-bit value that differs from `x` by a multiple of 2^16 is the
      one stored. */
  lemma Wrap16Is(x: int, q: int, r: int)
    requires InInt16(r) && x == r + q * WORD
    ensures Wrap16(x) == r
  {
    DivModUnique(x - INT16_MIN, WORD, q, r - INT16_MIN);
  }

  /** Wrapping an operand first does not change a wrapped sum. */
  lemma Wrap16Shift(x: int, o: int)
    ensures Wrap16(Wrap16(x) + o) == Wrap16(x + o)
  {
    var q := Wrap16Split(x);
    var q' := Wrap16Split(x + o);
    Wrap16Is(Wrap16(x) + o, q' - q, Wrap16(x + o));
  }

  /** Wrapping the subtrahend first does not change a wrapped difference. */
  lemma Wrap16Sub(x: int, y: int)
    ensures Wrap16(x - Wrap16(y)) == Wrap16(x - y)
  {
    var q := Wrap16Split(y);
    var q' := Wrap16Split(x - y);
    Wrap16Is(x - Wrap16(y), q' + q, Wrap16(x - y));
  }

  /***** Division by a positive modulus *****/

  lemma MulAtLeast(d: int, m: int)
    requires d >= 1 && m > 0
    ensures d * m >= m
  {
  }
  lemma DivModUnique(a: int, m: int, q: int, r: int)
    requires m > 0 && a == q * m + r && 0 <= r < m
    ensures a / m == q && a % m == r
  {
    var q', r' := a / m, a % m;
    assert a == q' * m + r';
    assert q * m - q' * m == r' - r;
    assert (q - q') * m == q * m - q' * m;
    if q > q' {
      MulAtLeast(q - q', m);
    } else if q < q' {
      MulAtLeast(q' - q, m);
    }
  }
  lemma DivSucc(x: nat, m: nat)
    requires m > 0
    ensures (x % m + 1) % m == (x + 1) % m
    ensures (x + 1) / m == x / m + (if x % m == m - 1 then 1 else 0)
  {
    var q, r := x / m, x % m;
    if r + 1 < m {
      DivModUnique(x + 1, m, q, r + 1);
      DivModUnique(r + 1, m, 0, r + 1);
    } else {
      assert x + 1 == (q + 1) * m;
      DivModUnique(x + 1, m, q + 1, 0);
      DivModUnique(r + 1, m, 1, 0);
    }
  }
}
