/** Rounding shifts of the ten sub-bands (libfreerdp-codec/rfx_quantization.c). */
module Quantization {
  import opened Words
  import opened Dwt

  // ---- One coefficient ----

  function HalfOf(f: nat): nat { if f == 0 then 0 else Pow2(f - 1) }

  /** `(x + half) >> f`, or x itself for f == 0. */
  function Round(x: sint16, f: nat): sint16 { if f == 0 then x else ToS16(Shr(x as int + HalfOf(f), f)) }

  /** `x << f` stored in 16 bits. */
  function Up(x: sint16, f: nat): sint16 { if f == 0 then x else ToS16(Shl(x as int, f)) }

  /** Encoding rounds by the band's factor and then by 5; decoding shifts by 5 and then by the factor. */
  function Quantized(x: sint16, f: nat): sint16 { Round(Round(x, f), 5) }

  function Restored(z: sint16, f: nat): sint16 { Up(Up(z, 5), f) }

  lemma {:induction false} ShrShr(x: int, m: nat, n: nat)
    ensures Shr(Shr(x, m), n) == Shr(x, m + n)
    decreases m
  {
    if m > 0 { ShrShr(x / 2, m - 1, n); }
  }

  lemma {:induction false} ShrAdd(a: int, b: int, n: nat)
    ensures Shr(a + Shl(b, n), n) == Shr(a, n) + b
    decreases n
  {
    if n > 0 {
      assert (a + Shl(b, n)) / 2 == a / 2 + Shl(b, n - 1);
      ShrAdd(a / 2, b, n - 1);
    }
  }

  lemma {:induction false} ShrWithin(x: int, n: nat, b: int)
    requires 0 - b <= x <= b
    ensures 0 - b <= Shr(x, n) <= b
    decreases n
  {
    if n > 0 { ShrWithin(x / 2, n - 1, b); }
  }

  lemma {:induction false} ShlMono(a: int, b: int, n: nat)
    ensures a <= b <==> Shl(a, n) <= Shl(b, n)
  {
    if n > 0 { ShlMono(a, b, n - 1); }
  }

  lemma {:induction false} ShlPow2(a: nat, n: nat)
    ensures Shl(Pow2(a), n) == Pow2(a + n)
  {
    if n > 0 { ShlPow2(a, n - 1); }
  }

  lemma {:induction false} ShlDiff(a: int, b: int, k: int, n: nat)
    requires a - b == 65536 * k
    ensures Shl(a, n) - Shl(b, n) == 65536 * Shl(k, n)
  {
    if n > 0 { ShlDiff(a, b, k, n - 1); }
  }

  lemma {:induction false} ShlNeg(a: int, n: nat)
    ensures Shl(0 - a, n) == 0 - Shl(a, n)
  {
    if n > 0 { ShlNeg(a, n - 1); }
  }

  lemma RoundIs(x: sint16, f: nat)
    requires f <= 9
    ensures Round(x, f) == Shr(x as int + HalfOf(f), f)
  {
    hide Shr;
    if f > 0 {
      Pow2Mono(f - 1, 8);
      Pow2Values();
      HalvedWithin(x as int + HalfOf(f), f);
    } else {
      ShrZero(x as int);
    }
  }

  lemma HalvedWithin(v: int, f: nat)
    requires -40000 <= v <= 40000 && f >= 1
    ensures -20000 <= Shr(v, f) <= 20000
  {
    ShrWithin(v / 2, f - 1, 20000);
  }

  lemma ShrZero(x: int)
    ensures Shr(x, 0) == x
  {
  }

  /** What rounding twice comes to. */
  function Offset(f: nat): nat { HalfOf(f) + Pow2(f + 4) }

  lemma QuantizedIs(x: sint16, f: nat)
    requires f <= 9
    ensures Quantized(x, f) == Shr(x as int + Offset(f), f + 5)
  {
    hide Shr, Round;
    RoundIs(x, f);
    var a := x as int + HalfOf(f);
    RoundIs(Round(x, f), 5);
    assert HalfOf(5) == 16;
    ShrAdd(a, 16, f);
    assert Pow2(4) == 16;
    ShlPow2(4, f);
    ShrShr(a + Shl(16, f), f, 5);
  }

  lemma RestoredIs(z: sint16, f: nat)
    ensures Restored(z, f) == ToS16(Shl(z as int, f + 5))
  {
    hide Shl;
    var a := Shl(z as int, 5);
    var k := (ToS16(a) - a) / 65536;
    assert ToS16(a) - a == 65536 * k by { WrapMultiple(a); }
    ShlDiff(ToS16(a) as int, a, k, f);
    ShlShl(z as int, 5, f);
    WrapSame(Shl(ToS16(a) as int, f), Shl(a, f), Shl(k, f));
    if f == 0 { ShlZero(ToS16(a) as int); WrapOnce(a); ShlZero(a); }
  }

  lemma ShlZero(x: int)
    ensures Shl(x, 0) == x
  {
  }

  lemma WrapOnce(a: int)
    ensures ToS16(ToS16(a) as int) == ToS16(a)
  {
  }

  /** Quantized values reach 2^(10 - f), at the top of the range only by rounding up. */
  lemma QuantizedRange(x: sint16, f: nat)
    requires f <= 9
    ensures var z: int, k: int := Quantized(x, f), Pow2(10 - f);
            && 0 - k <= z <= k && (z == k <==> x as int + Offset(f) >= 32768) && Shl(k, f + 5) == 32768
  {
    hide Shr, Shl, LowBits, Quantized, Pow2, HalfOf;
    var n, v, z: int := f + 5, x as int + Offset(f), Quantized(x, f);
    QuantizedIs(x, f);
    ShrLow(v, n);
    Powers(f);
    var k: int := Pow2(10 - f);
    ShlPow2(10 - f, n);
    ShlMono(k, z, n);
    ShlMono(k + 1, z, n);
    ShlLinear(k, 1, n);
    ShlBounds(1, n);
    ShlMono(z + 1, k, n);
    ShlMono(z + 1, 0 - k, n);
    ShlLinear(z, 1, n);
    ShlNeg(k, n);
  }

  /** The value is off by at most 16.5 times 2^f before the store, which wraps exactly at the top of the range. */
  lemma RestoredRange(x: sint16, f: nat)
    requires f <= 9
    ensures var t := Shl(Quantized(x, f) as int, f + 5);
            && 0 - 33 * Pow2(f) <= 2 * (t - x as int) <= 33 * Pow2(f)
            && (x as int + Offset(f) < 32768 ==> -32768 <= t < 32768)
            && (x as int + Offset(f) >= 32768 ==> t == 32768)
  {
    hide Shr, Shl, LowBits, Quantized, Pow2, HalfOf;
    var n, z: int, k: int := f + 5, Quantized(x, f), Pow2(10 - f);
    QuantizedIs(x, f);
    ShrLow(x as int + Offset(f), n);
    Powers(f);
    QuantizedRange(x, f);
    ShlMono(k, z, n);
    ShlMono(0 - k, z, n);
    ShlNeg(k, n);
  }

  lemma Powers(f: nat)
    requires f <= 9
    ensures Pow2(f + 4) == 16 * Pow2(f) && Pow2(f + 5) == 32 * Pow2(f) && Pow2(f) <= 512
    ensures 2 * HalfOf(f) <= Pow2(f) && Pow2(15) == 32768
  {
    Pow2Mono(f, 9);
    assert Pow2(f + 5) == 2 * Pow2(f + 4) && Pow2(f + 4) == 2 * Pow2(f + 3) && Pow2(f + 3) == 2 * Pow2(f + 2);
    Pow2Values();
    assert Pow2(16) == 2 * Pow2(15);
  }

  /** Main result: a coefficient comes back within 16.5 times 2^f exactly when the rounding does not leave 16 bits. */
  lemma RestoredIff(x: sint16, f: nat)
    requires f <= 9
    ensures var e := Restored(Quantized(x, f), f) as int - x as int;
            0 - 33 * Pow2(f) <= 2 * e <= 33 * Pow2(f) <==> x as int + Offset(f) < 32768
  {
    hide Shr, Shl, Quantized, Restored, Pow2;
    RestoredRange(x, f);
    RestoredIs(Quantized(x, f), f);
    Powers(f);
  }

  /** The largest sample of a band that is not scaled is rounded up to 32768, which is stored as -32768. */
  lemma TopSampleRounded()
    ensures var e := Restored(Quantized(32767, 0), 0) as int - 32767; !(-33 <= 2 * e <= 33)
  {
    hide Quantized, Restored;
    assert Offset(0) == 16;
    RestoredIff(32767, 0);
  }

  /** Quantized coefficients have 11 bits and a sign. */
  lemma QuantizedSmall(x: sint16, f: nat)
    requires f <= 9
    ensures -1024 <= Quantized(x, f) <= 1024
  {
    hide Shl, Quantized;
    QuantizedRange(x, f);
    Pow2Mono(10 - f, 10);
    assert Pow2(10) == 1024;
  }

  // ---- Bands ----

  predicate Quants(q: seq<int>) { |q| == 10 && forall k :: 0 <= k < 10 ==> 6 <= q[k] <= 15 }

  function Factor(q: seq<int>, i: nat): (f: nat)
    requires Quants(q)
    ensures f <= 9
  {
    q[BandOf(i)] - 6
  }

  function Quantize(s: Line, q: seq<int>): (r: Line)
    requires Quants(q)
    ensures |r| == |s|
  {
    seq(|s|, i requires 0 <= i < |s| => if i < 4096 then Quantized(s[i], Factor(q, i)) else s[i])
  }

  function Dequantize(s: Line, q: seq<int>): (r: Line)
    requires Quants(q)
    ensures |r| == |s|
  {
    seq(|s|, i requires 0 <= i < |s| => if i < 4096 then Restored(s[i], Factor(q, i)) else s[i])
  }

  /** Every band of the dequantized buffer is within 16.5 times 2^(q - 6) where the rounding stays in 16 bits. */
  lemma BandRestored(s: Line, q: seq<int>, i: nat)
    requires Quants(q) && i < |s| && i < 4096
    ensures var f, e := Factor(q, i), Dequantize(Quantize(s, q), q)[i] as int - s[i] as int;
            0 - 33 * Pow2(f) <= 2 * e <= 33 * Pow2(f) <==> s[i] as int + Offset(f) < 32768
  {
    hide Pow2, Quantized, Restored, Offset;
    RestoredIff(s[i], Factor(q, i));
  }

  // ---- Loops ----

  /** Round (encoding) or Up (decoding). */
  function Op(enc: bool, x: sint16, f: nat): sint16 { if enc then Round(x, f) else Up(x, f) }

  ghost predicate BlockDone(enc: bool, s: Line, t: Line, base: nat, size: nat, f: nat)
  {
    |t| == |s| && forall i: nat :: i < |s| ==> t[i] == if base <= i < base + size then Op(enc, s[i], f) else s[i]
  }

  method EncodeBand(buffer: array<sint16>, base: nat, size: nat, factor: nat)
    requires base + size <= buffer.Length
    modifies buffer
    ensures BlockDone(true, old(buffer[..]), buffer[..], base, size, factor)
  {
    hide Shr, Pow2;
    if factor == 0 { return; }
    var half := Pow2(factor - 1);
    var dst := base;
    while dst < base + size
      invariant base <= dst <= base + size
      invariant forall i :: 0 <= i < buffer.Length && !(base <= i < dst) ==> buffer[i] == old(buffer[i])
      invariant forall i :: base <= i < dst ==> buffer[i] == Round(old(buffer[i]), factor)
    {
      buffer[dst] := ToS16(Shr(buffer[dst] as int + half, factor));
      dst := dst + 1;
    }
  }

  method DecodeBand(buffer: array<sint16>, base: nat, size: nat, factor: nat)
    requires base + size <= buffer.Length
    modifies buffer
    ensures BlockDone(false, old(buffer[..]), buffer[..], base, size, factor)
  {
    hide Shl;
    if factor == 0 { return; }
    var dst := base;
    while dst < base + size
      invariant base <= dst <= base + size
      invariant forall i :: 0 <= i < buffer.Length && !(base <= i < dst) ==> buffer[i] == old(buffer[i])
      invariant forall i :: base <= i < dst ==> buffer[i] == Up(old(buffer[i]), factor)
    {
      buffer[dst] := ToS16(Shl(buffer[dst] as int, factor));
      dst := dst + 1;
    }
  }

  /** The bands before n are done. */
  ghost predicate Staged(enc: bool, s: Line, t: Line, q: seq<int>, n: nat)
    requires Quants(q)
  {
    |t| == |s| && forall i: nat :: i < |s| ==> t[i] == if i < n then Op(enc, s[i], Factor(q, i)) else s[i]
  }

  lemma StageStep(enc: bool, s: Line, t: Line, u: Line, q: seq<int>, n: nat, size: nat, k: nat)
    requires Quants(q) && k < 10 && Staged(enc, s, t, q, n) && BlockDone(enc, t, u, n, size, q[k] - 6)
    requires forall i: nat :: n <= i < n + size ==> BandOf(i) == k
    ensures Staged(enc, s, u, q, n + size)
  {
    hide Op, BandOf;
  }

  lemma BandRanges()
    ensures forall i: nat :: i < 1024 ==> BandOf(i) == 8
    ensures forall i: nat :: 1024 <= i < 2048 ==> BandOf(i) == 7
    ensures forall i: nat :: 2048 <= i < 3072 ==> BandOf(i) == 9
    ensures forall i: nat :: 3072 <= i < 3328 ==> BandOf(i) == 5
    ensures forall i: nat :: 3328 <= i < 3584 ==> BandOf(i) == 4
    ensures forall i: nat :: 3584 <= i < 3840 ==> BandOf(i) == 6
    ensures forall i: nat :: 3840 <= i < 3904 ==> BandOf(i) == 2
    ensures forall i: nat :: 3904 <= i < 3968 ==> BandOf(i) == 1
    ensures forall i: nat :: 3968 <= i < 4032 ==> BandOf(i) == 3
    ensures forall i: nat :: 4032 <= i < 4096 ==> BandOf(i) == 0
  {
  }

  method EncodeStage(buffer: array<sint16>, base: nat, size: nat, q: seq<int>, k: nat, ghost s: Line)
    requires Quants(q) && k < 10 && base + size <= buffer.Length && Staged(true, s, buffer[..], q, base)
    requires forall i: nat :: base <= i < base + size ==> BandOf(i) == k
    modifies buffer
    ensures Staged(true, s, buffer[..], q, base + size)
  {
    hide Staged, BlockDone, BandOf;
    ghost var t := buffer[..];
    EncodeBand(buffer, base, size, q[k] - 6);
    StageStep(true, s, t, buffer[..], q, base, size, k);
  }

  method DecodeStage(buffer: array<sint16>, base: nat, size: nat, q: seq<int>, k: nat, ghost s: Line)
    requires Quants(q) && k < 10 && base + size <= buffer.Length && Staged(false, s, buffer[..], q, base)
    requires forall i: nat :: base <= i < base + size ==> BandOf(i) == k
    modifies buffer
    ensures Staged(false, s, buffer[..], q, base + size)
  {
    hide Staged, BlockDone, BandOf;
    ghost var t := buffer[..];
    DecodeBand(buffer, base, size, q[k] - 6);
    StageStep(false, s, t, buffer[..], q, base, size, k);
  }

  lemma StageStart(enc: bool, s: Line, q: seq<int>)
    requires Quants(q)
    ensures Staged(enc, s, s, q, 0)
  {
  }

  method QuantizeBuffer(buffer: array<sint16>, q: seq<int>)
    requires Quants(q) && buffer.Length >= 4096
    modifies buffer
    ensures buffer[..] == Quantize(old(buffer[..]), q)
  {
    hide Staged, BlockDone, BandOf, Quantize;
    BandRanges();
    ghost var s := buffer[..];
    StageStart(true, s, q);
    EncodeStage(buffer, 0, 1024, q, 8, s);
    EncodeStage(buffer, 1024, 1024, q, 7, s);
    EncodeStage(buffer, 2048, 1024, q, 9, s);
    EncodeStage(buffer, 3072, 256, q, 5, s);
    EncodeStage(buffer, 3328, 256, q, 4, s);
    EncodeStage(buffer, 3584, 256, q, 6, s);
    EncodeStage(buffer, 3840, 64, q, 2, s);
    EncodeStage(buffer, 3904, 64, q, 1, s);
    EncodeStage(buffer, 3968, 64, q, 3, s);
    EncodeStage(buffer, 4032, 64, q, 0, s);
    ghost var t := buffer[..];
    EncodeBand(buffer, 0, 4096, 5);
    QuantizeDone(s, t, buffer[..], q);
  }

  lemma QuantizeDone(s: Line, t: Line, u: Line, q: seq<int>)
    requires Quants(q) && Staged(true, s, t, q, 4096) && BlockDone(true, t, u, 0, 4096, 5)
    ensures u == Quantize(s, q)
  {
    hide Round, BandOf;
  }

  method DequantizeBuffer(buffer: array<sint16>, q: seq<int>)
    requires Quants(q) && buffer.Length >= 4096
    modifies buffer
    ensures buffer[..] == Dequantize(old(buffer[..]), q)
  {
    hide Staged, BlockDone, BandOf, Dequantize;
    BandRanges();
    ghost var s := buffer[..];
    DecodeBand(buffer, 0, 4096, 5);
    ghost var t := buffer[..];
    StageStart(false, t, q);
    DecodeStage(buffer, 0, 1024, q, 8, t);
    DecodeStage(buffer, 1024, 1024, q, 7, t);
    DecodeStage(buffer, 2048, 1024, q, 9, t);
    DecodeStage(buffer, 3072, 256, q, 5, t);
    DecodeStage(buffer, 3328, 256, q, 4, t);
    DecodeStage(buffer, 3584, 256, q, 6, t);
    DecodeStage(buffer, 3840, 64, q, 2, t);
    DecodeStage(buffer, 3904, 64, q, 1, t);
    DecodeStage(buffer, 3968, 64, q, 3, t);
    DecodeStage(buffer, 4032, 64, q, 0, t);
    DequantizeDone(s, t, buffer[..], q);
  }

  lemma DequantizeDone(s: Line, t: Line, u: Line, q: seq<int>)
    requires Quants(q) && BlockDone(false, s, t, 0, 4096, 5) && Staged(false, t, u, q, 4096)
    ensures u == Dequantize(s, q)
  {
    hide Up, BandOf;
  }
}
