/** Single bits of words. */
module Masks {
  import opened Words

  /** Bit k of x. */
  predicate Bit(x: int, k: nat) { Shr(x, k) % 2 == 1 }

  lemma {:induction false} BitOfShl(x: int, n: nat, k: nat)
    requires n <= k
    ensures Bit(Shl(x, n), k) == Bit(x, k - n)
  {
    if n > 0 {
      BitOfShl(x, n - 1, k - 1);
      assert Shl(x, n) / 2 == Shl(x, n - 1);
    }
  }

  lemma {:induction false} OrPow2(x: nat, k: nat, i: nat)
    ensures Bit(Or(x, Pow2(k)), i) == (i == k || Bit(x, i))
    decreases k
  {
    if x == 0 {
      BitOfPow2(k, i);
      BitOfZero(i);
    } else if k == 0 {
      OrZero(x / 2);
      assert Or(x, 1) / 2 == x / 2 && Or(x, 1) % 2 == 1;
    } else {
      assert Or(x, Pow2(k)) / 2 == Or(x / 2, Pow2(k - 1)) && Or(x, Pow2(k)) % 2 == x % 2;
      if i > 0 { OrPow2(x / 2, k - 1, i - 1); }
    }
  }

  lemma {:induction false} BitOfZero(i: nat)
    ensures !Bit(0, i)
  {
    if i > 0 { BitOfZero(i - 1); }
  }

  lemma {:induction false} BitOfPow2(k: nat, i: nat)
    ensures Bit(Pow2(k), i) == (i == k)
  {
    if k > 0 && i > 0 {
      assert Pow2(k) / 2 == Pow2(k - 1);
      BitOfPow2(k - 1, i - 1);
    } else if i > 0 {
      BitOfZero(i - 1);
    }
  }

  lemma {:induction false} OrBelow(x: nat, y: nat, n: nat)
    requires x < Pow2(n) && y < Pow2(n)
    ensures Or(x, y) < Pow2(n)
    decreases n
  {
    if n > 0 { OrBelow(x / 2, y / 2, n - 1); }
  }
}
