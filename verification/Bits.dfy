/** The bit operations of the varint code, on numbers as strings of bits, and what they do to digits. */
module Bits {
  import opened ByteStrings
  import Varint

  function Shl(x: nat, k: nat): nat {
    if k == 0 then x else 2 * Shl(x, k - 1)
  }

  function Shr(x: nat, k: nat): nat {
    if k == 0 then x else Shr(x / 2, k - 1)
  }

  function And(a: nat, b: nat): nat {
    if a == 0 || b == 0 then 0 else 2 * And(a / 2, b / 2) + if a % 2 == 1 && b % 2 == 1 then 1 else 0
  }

  function Or(a: nat, b: nat): nat {
    if a == 0 then b
    else if b == 0 then a
    else 2 * Or(a / 2, b / 2) + if a % 2 == 1 || b % 2 == 1 then 1 else 0
  }

  /** A left shift in a 64-bit register. */
  function Shl64(x: nat, k: nat): nat {
    Shl(x, k) % Varint.TWO_TO_THE_64
  }

  predicate Bit(x: nat, k: nat) {
    Shr(x, k) % 2 == 1
  }

  lemma AndHalf(a: nat, b: nat)
    ensures And(a, b) / 2 == And(a / 2, b / 2)
    ensures And(a, b) % 2 == if a % 2 == 1 && b % 2 == 1 then 1 else 0
  {
  }

  lemma OrHalf(a: nat, b: nat)
    ensures Or(a, b) / 2 == Or(a / 2, b / 2)
    ensures Or(a, b) % 2 == if a % 2 == 1 || b % 2 == 1 then 1 else 0
  {
  }

  /** The operations work on each bit by itself. */
  lemma {:induction false} Bitwise(a: nat, b: nat, k: nat)
    ensures Bit(And(a, b), k) <==> Bit(a, k) && Bit(b, k)
    ensures Bit(Or(a, b), k) <==> Bit(a, k) || Bit(b, k)
    decreases k
  {
    AndHalf(a, b);
    OrHalf(a, b);
    if k > 0 {
      Bitwise(a / 2, b / 2, k - 1);
    }
  }

  // ---------- Shifts and masks as arithmetic ----------

  lemma HalfPower(x: nat, p: nat)
    requires p > 0
    ensures x / (2 * p) == x / 2 / p
    ensures x % (2 * p) == 2 * (x / 2 % p) + x % 2
  {
    var q, r := x / 2 / p, x / 2 % p;
    assert x / 2 == p * q + r;
    assert x == 2 * p * q + (2 * r + x % 2);
    DivUnique(x, 2 * p, q, 2 * r + x % 2);
  }

  lemma {:induction false} ShlPositive(k: nat)
    ensures Shl(1, k) > 0
  {
    if k > 0 {
      ShlPositive(k - 1);
    }
  }

  lemma {:induction false} ShrIsQuotient(x: nat, k: nat)
    ensures Shl(1, k) > 0 && Shr(x, k) == x / Shl(1, k)
    decreases k
  {
    ShlPositive(k);
    if k > 0 {
      ShrIsQuotient(x / 2, k - 1);
      HalfPower(x, Shl(1, k - 1));
    }
  }

  /** The lowest `k` bits. */
  function Low(x: nat, k: nat): nat {
    if k == 0 then 0 else 2 * Low(x / 2, k - 1) + x % 2
  }

  lemma {:induction false} LowIsRemainder(x: nat, k: nat)
    ensures Shl(1, k) > 0 && Low(x, k) == x % Shl(1, k)
    decreases k
  {
    ShlPositive(k);
    if k > 0 {
      LowIsRemainder(x / 2, k - 1);
      HalfPower(x, Shl(1, k - 1));
    }
  }

  lemma {:induction false} ShlIsProduct(x: nat, k: nat)
    ensures Shl(x, k) == x * Shl(1, k)
  {
    if k > 0 {
      ShlIsProduct(x, k - 1);
    }
  }

  // ---------- One byte ----------

  lemma {:induction false} AndPower(x: nat, k: nat)
    ensures And(x, Shl(1, k)) == if Bit(x, k) then Shl(1, k) else 0
    decreases k
  {
    AndHalf(x, Shl(1, k));
    if k > 0 {
      AndPower(x / 2, k - 1);
    }
  }

  lemma {:induction false} OrPower(x: nat, k: nat)
    ensures Or(x, Shl(1, k)) == if Bit(x, k) then x else x + Shl(1, k)
    decreases k
  {
    OrHalf(x, Shl(1, k));
    if k > 0 {
      OrPower(x / 2, k - 1);
    }
  }

  function Ones(k: nat): nat {
    if k == 0 then 0 else 2 * Ones(k - 1) + 1
  }

  lemma {:induction false} AndOnes(x: nat, k: nat)
    ensures And(x, Ones(k)) == Low(x, k)
    decreases k
  {
    AndHalf(x, Ones(k));
    if k > 0 {
      AndOnes(x / 2, k - 1);
    }
  }

  /** Shifting right by seven drops one digit. */
  lemma ShiftRight(x: nat)
    ensures Shr(x, 7) == x / 0x80
  {
    assert Shl(1, 7) == 0x80;
    ShrIsQuotient(x, 7);
  }

  /** Masking with 0x7f leaves the lowest digit. */
  lemma SevenBits(x: nat)
    ensures And(x, 0x7f) == x % 0x80
  {
    assert Shl(1, 7) == 0x80 && Ones(7) == 0x7f;
    AndOnes(x, 7);
    LowIsRemainder(x, 7);
  }

  /** The continuation bit of a byte. */
  lemma TopBit(byte: nat)
    requires byte < 0x100
    ensures And(byte, 0x80) == 0 <==> byte < 0x80
  {
    assert Shl(1, 7) == 0x80;
    ShiftRight(byte);
    AndPower(byte, 7);
  }

  /** The low byte of a number, cut into its top bit and the rest. */
  lemma LowByte(x: nat)
    ensures x / 0x80 % 2 == 1 <==> x % 0x100 >= 0x80
    ensures x % 0x100 == x % 0x80 + if x % 0x100 >= 0x80 then 0x80 else 0
  {
    var q, r := x / 0x80, x % 0x80;
    assert x == 0x80 * q + r;
    assert q == 2 * (q / 2) + q % 2;
    assert x == 0x100 * (q / 2) + (0x80 * (q % 2) + r);
  }

  lemma OrTop(x: nat)
    ensures Or(x, 0x80) == if x % 0x100 >= 0x80 then x else x + 0x80
  {
    assert Shl(1, 7) == 0x80;
    ShiftRight(x);
    OrPower(x, 7);
    LowByte(x);
  }

  lemma OrTopByte(r: nat)
    requires r < 0x100
    ensures Or(r, 0x80) == if r >= 0x80 then r else r + 0x80
  {
    OrTop(r);
  }

  /** Only the low byte of a number matters for its top bit. */
  lemma OrTopLow(x: nat)
    ensures Or(x, 0x80) % 0x100 == Or(x % 0x100, 0x80)
  {
    OrTop(x);
    OrTopByte(x % 0x100);
    if x % 0x100 < 0x80 {
      AddTop(x / 0x100, x % 0x100);
    }
  }

  lemma AddTop(q: nat, r: nat)
    requires r < 0x80
    ensures (0x100 * q + r + 0x80) % 0x100 == r + 0x80
  {
  }

  /** Setting the continuation bit, before or after cutting the number down to a byte. */
  lemma SetTopBit(x: nat)
    ensures Or(x % 0x100, 0x80) == x % 0x80 + 0x80
    ensures Or(x, 0x80) % 0x100 == x % 0x80 + 0x80
  {
    OrTopLow(x);
    OrTopByte(x % 0x100);
    LowByte(x);
  }

  // ---------- Digits of seven bits ----------

  /** Setting bits above all those a number has is adding them. */
  lemma {:induction false} OrDisjoint(a: nat, b: nat, k: nat)
    requires a < Shl(1, k)
    ensures Or(a, Shl(b, k)) == a + Shl(b, k)
    decreases k
  {
    if k > 0 {
      OrHalf(a, Shl(b, k));
      OrDisjoint(a / 2, b, k - 1);
    }
  }

  lemma {:induction false} ShiftAdds(x: nat, j: nat, k: nat)
    ensures Shl(x, j + k) == Shl(Shl(x, j), k)
  {
    if k > 0 {
      ShiftAdds(x, j, k - 1);
    }
  }

  lemma ShiftSeven(x: nat)
    ensures Shl(x, 7) == 128 * x
  {
    assert Shl(1, 7) == 128;
    ShlIsProduct(x, 7);
  }

  /** Shifting by seven bits a digit puts a digit in its place. */
  lemma {:induction false} ShiftIsPlace(d: nat, i: nat)
    ensures Shl(d, i * 7) == Varint.Place(d, i)
  {
    if i > 0 {
      ShiftIsPlace(d, i - 1);
      ShiftAdds(d, (i - 1) * 7, 7);
      ShiftSeven(Shl(d, (i - 1) * 7));
    }
  }

  lemma {:induction false} PowerIsPlace(i: nat)
    ensures Varint.Pow128(i) == Shl(1, i * 7)
  {
    ShiftIsPlace(1, i);
    if i > 0 {
      PowerIsPlace(i - 1);
      ShiftIsPlace(1, i - 1);
    }
  }
}
