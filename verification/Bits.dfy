/** Bit strings, most significant bit first, and the numbers and byte strings they stand for. */
module Bits {
  import opened Words

  function Val(b: seq<bool>): nat
  {
    if b == [] then 0 else 2 * Val(b[..|b| - 1]) + (if b[|b| - 1] then 1 else 0)
  }

  /** The n low bits of v. */
  function Low(v: int, n: nat): (b: seq<bool>)
    ensures |b| == n
    decreases n, v
  {
    if n == 0 then [] else Low(v / 2, n - 1) + [v % 2 == 1]
  }

  function Repeat(x: bool, n: nat): (b: seq<bool>)
    ensures |b| == n && forall i :: 0 <= i < n ==> b[i] == x
  {
    seq(n, _ => x)
  }

  function Take(b: seq<bool>, n: nat): seq<bool> { if n <= |b| then b[..n] else b }

  function Drop(b: seq<bool>, n: nat): seq<bool> { if n <= |b| then b[n..] else [] }

  function OfBytes(s: seq<byte>): (b: seq<bool>)
    ensures |b| == 8 * |s|
  {
    if s == [] then [] else Low(s[0], 8) + OfBytes(s[1..])
  }

  lemma ValEmpty()
    ensures Val([]) == 0
  {
  }

  lemma {:induction false} ValBound(b: seq<bool>)
    ensures Val(b) < Pow2(|b|)
  {
    if b != [] { ValBound(b[..|b| - 1]); }
  }

  lemma {:induction false} ValConcat(a: seq<bool>, b: seq<bool>)
    ensures Val(a + b) == Shl(Val(a), |b|) + Val(b)
  {
    if b == [] {
      assert a + b == a;
    } else {
      var b' := b[..|b| - 1];
      ValConcat(a, b');
      assert (a + b)[..|a + b| - 1] == a + b';
    }
  }

  lemma {:induction false} ValLow(v: int, n: nat)
    ensures Val(Low(v, n)) == LowBits(v, n)
    decreases n
  {
    if n > 0 {
      ValLow(v / 2, n - 1);
      assert Low(v, n)[..n - 1] == Low(v / 2, n - 1);
    }
  }

  lemma {:induction false} LowVal(b: seq<bool>)
    ensures Low(Val(b), |b|) == b
  {
    if b != [] {
      LowVal(b[..|b| - 1]);
    }
  }

  lemma {:induction false} LowSplit(v: int, m: nat, n: nat)
    ensures Low(v, m + n) == Low(Shr(v, n), m) + Low(v, n)
    decreases n
  {
    if n > 0 {
      LowSplit(v / 2, m, n - 1);
    }
  }

  /** The field of n bits that ends m bits above the low end. */
  lemma LowField(v: int, w: nat, m: nat, n: nat)
    requires m + n <= w
    ensures Low(v, w)[w - m - n..w - m] == Low(Shr(v, m), n)
    ensures Low(v, w)[w - m..] == Low(v, m)
  {
    LowSplit(v, w - m, m);
    LowSplit(Shr(v, m), w - m - n, n);
  }

  lemma LowOfLow(v: int, n: nat)
    ensures Low(LowBits(v, n), n) == Low(v, n)
  {
    ValLow(v, n);
    LowVal(Low(v, n));
  }

  lemma {:induction false} OfBytesConcat(a: seq<byte>, b: seq<byte>)
    ensures OfBytes(a + b) == OfBytes(a) + OfBytes(b)
  {
    if a == [] {
      assert a + b == b;
    } else {
      OfBytesConcat(a[1..], b);
      assert (a + b)[1..] == a[1..] + b;
    }
  }

  /** Byte i of a byte string, within its bits. */
  lemma OfBytesAt(s: seq<byte>, i: nat)
    requires i < |s|
    ensures OfBytes(s) == OfBytes(s[..i]) + Low(s[i], 8) + OfBytes(s[i + 1..])
  {
    OfBytesConcat(s[..i], s[i..]);
    assert s == s[..i] + s[i..];
    assert s[i..][1..] == s[i + 1..];
  }

  lemma {:induction false} LowAllOnes(n: nat)
    ensures Low(Pow2(n) - 1, n) == Repeat(true, n)
  {
    if n > 0 {
      LowAllOnes(n - 1);
      assert (Pow2(n) - 1) / 2 == Pow2(n - 1) - 1 && (Pow2(n) - 1) % 2 == 1;
      assert Repeat(true, n) == Repeat(true, n - 1) + [true];
    }
  }

  lemma {:induction false} LowZero(n: nat)
    ensures Low(0, n) == Repeat(false, n)
  {
    if n > 0 { LowZero(n - 1); }
  }

  lemma TakeOne(b: seq<bool>)
    ensures Val(Take(b, 1)) == (if b != [] && b[0] then 1 else 0)
    ensures Drop(b, 1) == (if b == [] then [] else b[1..])
  {
    if b != [] {
      assert Take(b, 1) == [b[0]];
      assert [b[0]][..0] == [];
    }
  }

  /** The least number of bits that hold v. */
  function MinBits(v: nat): nat { if v == 0 then 0 else 1 + MinBits(v / 2) }

  lemma {:induction false} MinBitsBound(v: nat, n: nat)
    ensures v < Pow2(MinBits(v))
    ensures v < Pow2(n) ==> MinBits(v) <= n
    ensures v >= Pow2(n) ==> MinBits(v) > n
    decreases v + n
  {
    if v > 0 && n > 0 {
      MinBitsBound(v / 2, n - 1);
    } else if v > 0 {
      MinBitsBound(v / 2, 0);
    }
  }
}
