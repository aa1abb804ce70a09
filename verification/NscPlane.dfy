/** Chroma planes with a ninth bit per sample, kept as a bit stream behind the bytes (libfreerdp-codec/nsc.c). */
module NscPlane {
  import opened Words
  import opened Masks

  /** `x & 0x80` */
  function Mask80(x: nat): byte { if Bit(x, 7) then 128 else 0 }

  /** `sign >> bitoff` for sign 0x80. */
  function SignMask(off: nat): byte
    requires off < 8
  {
    Pow2Mono(7 - off, 7);
    Pow2(7 - off)
  }

  lemma SignMaskIs(off: nat)
    requires off < 8
    ensures SignMask(off) == Shr(128, off)
  {
    assert Pow2(7) == 128;
    ShrOfPow2(7, off);
  }

  lemma {:induction false} ShrOfPow2(a: nat, n: nat)
    requires n <= a
    ensures Shr(Pow2(a), n) == Pow2(a - n)
    decreases n
  {
    if n > 0 {
      assert Pow2(a) / 2 == Pow2(a - 1);
      ShrOfPow2(a - 1, n - 1);
    }
  }

  // ---- Planes ----

  /** The least number of bytes with a bit for each of n samples. */
  function SignBytes(n: nat): (b: nat)
    ensures 8 * b - 8 < n <= 8 * b || n == b == 0
  {
    if n % 8 != 0 then n / 8 + 1 else n / 8
  }

  predicate Plane(s: seq<byte>, n: nat) { n + SignBytes(n) <= |s| }

  /** The ninth bit of sample k of n. */
  predicate SignAt(s: seq<byte>, n: nat, k: nat)
    requires Plane(s, n) && k < n
  {
    Bit(s[n + k / 8], 7 - k % 8)
  }

  /** Sample k as a signed 9-bit value. */
  function Sample(s: seq<byte>, n: nat, k: nat): int
    requires Plane(s, n) && k < n
  {
    s[k] as int - (if SignAt(s, n, k) then 256 else 0)
  }

  function Samples(s: seq<byte>, n: nat): (v: seq<int>)
    requires Plane(s, n)
    ensures |v| == n
  {
    seq(n, k requires 0 <= k < n => Sample(s, n, k))
  }

  /** A sample byte at k and its sign ored in. */
  function Put(s: seq<byte>, n: nat, k: nat, val: byte, sign: bool): seq<byte>
    requires Plane(s, n) && k < n
  {
    var t := s[k := val];
    if sign then
      OrByte(t[n + k / 8], SignMask(k % 8));
      t[n + k / 8 := Or(t[n + k / 8], SignMask(k % 8))]
    else t
  }

  lemma OrByte(a: byte, b: byte)
    ensures Or(a, b) < 256
  {
    Pow2Values();
    OrBelow(a, b, 8);
  }

  lemma PutSign(s: seq<byte>, n: nat, k: nat, val: byte, sign: bool, j: nat)
    requires Plane(s, n) && k < n && j < n
    ensures Plane(Put(s, n, k, val, sign), n)
    ensures SignAt(Put(s, n, k, val, sign), n, j) == (SignAt(s, n, j) || (j == k && sign))
  {
    hide Bit, Or, Pow2;
    if sign {
      OrPow2(s[n + k / 8], 7 - k % 8, 7 - j % 8);
    }
  }

  /** Storing a sample where the ninth bit is still clear sets that sample and no other. */
  lemma PutIs(s: seq<byte>, n: nat, k: nat, val: byte, sign: bool)
    requires Plane(s, n) && k < n && Samples(s, n)[k] >= 0
    ensures Plane(Put(s, n, k, val, sign), n)
    ensures Samples(Put(s, n, k, val, sign), n) == Samples(s, n)[k := val as int - (if sign then 256 else 0)]
  {
    hide SignAt, Put;
    PutBytes(s, n, k, val, sign);
    forall j | 0 <= j < n
      ensures SignAt(Put(s, n, k, val, sign), n, j) == (SignAt(s, n, j) || (j == k && sign))
    {
      PutSign(s, n, k, val, sign, j);
    }
    assert Samples(s, n)[k] == Sample(s, n, k);
  }

  lemma PutBytes(s: seq<byte>, n: nat, k: nat, val: byte, sign: bool)
    requires Plane(s, n) && k < n
    ensures |Put(s, n, k, val, sign)| == |s|
    ensures forall j :: 0 <= j < n ==> Put(s, n, k, val, sign)[j] == if j == k then val else s[j]
  {
    hide Or, Pow2;
  }

  // ---- Colour-loss expansion ----

  /** The signed 9-bit value of an integer. */
  function S9(v: int): int { (v + 256) % 512 - 256 }

  lemma ShiftedIs(b: byte, shift: nat)
    requires shift >= 1
    ensures (Shl(b, shift) % 256) - (if Bit(Shl(b, shift - 1), 7) then 256 else 0) == S9(Shl(b, shift))
  {
    hide Bit, S9;
    var u := Shl(b, shift - 1);
    BitSeven(u);
    NineBits(u);
  }

  lemma NineBits(u: int)
    ensures (2 * u) % 256 - (if (u / 128) % 2 == 1 then 256 else 0) == S9(2 * u)
  {
    var a, r := u / 128, u % 128;
    assert u == 128 * a + r;
    assert (2 * u) % 256 == 2 * r;
  }

  lemma BitSeven(u: int)
    ensures Bit(u, 7) <==> (u / 128) % 2 == 1
  {
    hide Shr, LowBits, Shl;
    ShrLow(u, 7);
    ShlIsTimes(Shr(u, 7), 7);
    assert Pow2(7) == 128;
  }
}
