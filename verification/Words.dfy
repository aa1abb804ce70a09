/** Machine words of the C sources, as integers with explicit wrap-around, shifts and bitwise or. */
module Words {

  type byte = x: int | 0 <= x < 256
  type uint16 = x: int | 0 <= x < 65536
  type uint32 = x: int | 0 <= x < 0x1_0000_0000
  type sint16 = x: int | -32768 <= x < 32768

  function Min(a: int, b: int): int { if a < b then a else b }

  function Max(a: int, b: int): int { if a < b then b else a }

  /** Store of an int into an uint8. */
  function ToU8(x: int): byte { x % 256 }

  /** Store of an int into an uint16. */
  function ToU16(x: int): uint16 { x % 65536 }

  /** Store of an int into an uint32. */
  function ToU32(x: int): uint32 { x % 0x1_0000_0000 }

  /** Store of an int into a sint16. */
  function ToS16(x: int): sint16 { (x + 32768) % 65536 - 32768 }

  /** `x << n` before any truncation. */
  function Shl(x: int, n: nat): (y: int)
    ensures x >= 0 ==> y >= x
  {
    if n == 0 then x else 2 * Shl(x, n - 1)
  }

  /** `x >> n`; arithmetic for negative x, since Dafny's division by 2 rounds down. */
  function Shr(x: int, n: nat): int
    decreases n, x
  {
    if n == 0 then x else Shr(x / 2, n - 1)
  }

  /** `x & ((1 << n) - 1)` */
  function LowBits(x: int, n: nat): nat
    decreases n, x
  {
    if n == 0 then 0 else 2 * LowBits(x / 2, n - 1) + x % 2
  }

  /** `a | b` */
  function Or(a: nat, b: nat): nat
    decreases a + b
  {
    if a == 0 then b else if b == 0 then a
    else 2 * Or(a / 2, b / 2) + (if a % 2 == 1 || b % 2 == 1 then 1 else 0)
  }

  function Pow2(n: nat): (p: nat)
    ensures p >= 1
  {
    if n == 0 then 1 else 2 * Pow2(n - 1)
  }

  /** Word sizes. */
  lemma Pow2Values()
    ensures Pow2(8) == 256 && Pow2(16) == 65536
  {
  }

  lemma {:induction false} Pow2Mono(a: nat, b: nat)
    requires a <= b
    ensures Pow2(a) <= Pow2(b)
  {
    if a < b { Pow2Mono(a, b - 1); }
  }

  lemma {:induction false} ShlLinear(a: int, b: int, n: nat)
    ensures Shl(a + b, n) == Shl(a, n) + Shl(b, n)
  {
    if n > 0 { ShlLinear(a, b, n - 1); }
  }

  lemma {:induction false} ShlShl(x: int, m: nat, n: nat)
    ensures Shl(Shl(x, m), n) == Shl(x, m + n)
  {
    if n > 0 { ShlShl(x, m, n - 1); }
  }

  lemma {:induction false} ShlBounds(x: int, n: nat)
    ensures Shl(1, n) == Pow2(n)
    ensures x >= 1 ==> Shl(x, n) >= Pow2(n)
  {
    if n > 0 { ShlBounds(x, n - 1); }
  }

  lemma OrZero(x: nat)
    ensures Or(x, 0) == x
  {
  }

  /** A word is its high part and its low part. */
  lemma {:induction false} ShrLow(x: int, n: nat)
    ensures x == Shl(Shr(x, n), n) + LowBits(x, n)
    ensures LowBits(x, n) < Pow2(n)
    ensures x >= 0 ==> Shr(x, n) >= 0
    decreases n
  {
    if n > 0 {
      ShrLow(x / 2, n - 1);
    }
  }

  /** The high part and the low part of a word are the only ones that make it up. */
  lemma {:induction false} ShrLowUnique(h: int, l: nat, n: nat)
    requires l < Pow2(n)
    ensures Shr(Shl(h, n) + l, n) == h && LowBits(Shl(h, n) + l, n) == l
  {
    if n > 0 {
      ShrLowUnique(h, l / 2, n - 1);
      assert (Shl(h, n) + l) / 2 == Shl(h, n - 1) + l / 2;
    }
  }

  lemma {:induction false} ShrBelow(x: nat, m: nat, n: nat)
    requires x < Pow2(m + n)
    ensures 0 <= Shr(x, n) < Pow2(m)
  {
    if n > 0 { ShrBelow(x / 2, m, n - 1); }
  }

  lemma {:induction false} ShlBelow(h: nat, l: nat, m: nat, n: nat)
    requires h < Pow2(m) && l < Pow2(n)
    ensures Shl(h, n) + l < Pow2(m + n)
  {
    if n > 0 { ShlBelow(h, l / 2, m, n - 1); }
  }

  /** Or of words without common bits is their sum: b lies below bit n, a is shifted to bit n. */
  lemma {:induction false} OrDisjoint(a: nat, b: nat, n: nat)
    requires b < Pow2(n)
    ensures Or(Shl(a, n), b) == Shl(a, n) + b
  {
    if n > 0 {
      OrDisjoint(a, b / 2, n - 1);
      assert Shl(a, n) / 2 == Shl(a, n - 1);
    }
  }

  lemma {:induction false} OrCommutes(a: nat, b: nat)
    ensures Or(a, b) == Or(b, a)
    decreases a + b
  {
    if a != 0 && b != 0 { OrCommutes(a / 2, b / 2); }
  }

  /** Or-ing a field into a word whose field is clear. */
  lemma {:induction false} OrOfFields(h: nat, v: nat, l: nat, b: nat, s: nat)
    requires v < Pow2(b) && l < Pow2(s)
    ensures Or(Shl(Shl(h, b), s) + l, Shl(v, s)) == Shl(Shl(h, b) + v, s) + l
    decreases s
  {
    if s == 0 {
      OrDisjoint(h, v, b);
    } else {
      OrOfFields(h, v, l / 2, b, s - 1);
      var a, c := Shl(Shl(h, b), s) + l, Shl(v, s);
      assert a / 2 == Shl(Shl(h, b), s - 1) + l / 2 && c / 2 == Shl(v, s - 1);
    }
  }

  /** Or-ing a field of b bits below a shifted word. */
  lemma OrAppend(h: nat, v: nat, b: nat, s: nat)
    requires v < Pow2(b)
    ensures Or(Shl(h, b + s), Shl(v, s)) == Shl(Shl(h, b) + v, s)
  {
    hide Or, Shl, Pow2;
    ShlShl(h, b, s);
    OrOfFields(h, v, 0, b, s);
    var x := Shl(Shl(h, b), s);
    assert x + 0 == x;
  }

  /** Truncation to 32 bits keeps the 32 low bits. */
  lemma U32IsLowBits(x: int)
    ensures ToU32(x) == LowBits(x, 32)
  {
    hide LowBits, Shr;
    ShrLow(x, 32);
    var h := Shr(x, 32);
    assert Shl(h, 32) == h * 0x1_0000_0000 by {
      ShlIsTimes(h, 32);
      Pow2Of32();
    }
    Pow2Of32();
  }

  lemma {:induction false} ShlIsTimes(x: int, n: nat)
    ensures Shl(x, n) == x * Pow2(n)
  {
    if n > 0 { ShlIsTimes(x, n - 1); }
  }

  lemma Pow2Of32()
    ensures Pow2(32) == 0x1_0000_0000
  {
    Pow2Values();
    assert Pow2(20) == 0x10_0000;
    assert Pow2(24) == 0x100_0000;
    assert Pow2(28) == 0x1000_0000;
  }

  lemma WrapMultiple(a: int)
    ensures ToS16(a) - a == 65536 * ((ToS16(a) - a) / 65536)
  {
  }

  lemma WrapSame(a: int, b: int, k: int)
    requires a - b == 65536 * k
    ensures ToS16(a) == ToS16(b)
  {
  }
}
