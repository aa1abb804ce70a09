/** Differential coding of the LL3 band and the stage order of one component
    (libfreerdp-codec/rfx_differential.c, rfx_encode.c, rfx_decode.c). */
module Component {
  import opened Words
  import opened Bits
  import opened Dwt
  import opened DwtBlock
  import opened DwtInverse
  import opened Rlgr
  import opened RlgrRoundTrip
  import opened RlgrCoder
  import opened RlgrLength
  import opened Quantization

  // ---- Differential coding ----

  /** The n values at base, each after the first replaced by the difference to its predecessor. */
  function Differences(s: Line, base: nat, n: nat): (r: Line)
    ensures |r| == |s|
  {
    seq(|s|, i requires 0 <= i < |s| => if base < i < base + n then ToS16(s[i] as int - s[i - 1] as int) else s[i])
  }

  /** Running sums, from the front. */
  function Sums(s: Line, base: nat, n: nat): (r: Line)
    requires base + n <= |s|
    ensures |r| == |s| && forall i :: base + n <= i < |s| ==> r[i] == s[i]
  {
    if n <= 1 then s
    else
      var t := Sums(s, base, n - 1);
      t[base + n - 1 := ToS16(t[base + n - 1] as int + t[base + n - 2] as int)]
  }

  method DifferentialDecode(buffer: array<sint16>, base: nat, size: nat)
    requires base + size <= buffer.Length
    modifies buffer
    ensures buffer[..] == Sums(old(buffer[..]), base, size)
  {
    ghost var s := buffer[..];
    var n := 1;
    while n < size
      invariant 1 <= n && (n <= size || n == 1) && (size > 0 ==> buffer[..] == Sums(s, base, n))
          && (size == 0 ==> buffer[..] == s)
    {
      buffer[base + n] := ToS16(buffer[base + n] as int + buffer[base + n - 1] as int);
      n := n + 1;
    }
  }

  lemma DifferencesAt(s: Line, base: nat, n: nat, i: nat)
    requires i < |s|
    ensures forall k :: 0 <= k < |s| && !(base < k < base + n) ==> Differences(s, base, n)[k] == s[k]
    ensures base < i < base + n ==> Differences(s, base, n)[i] == ToS16(s[i] as int - s[i - 1] as int)
  {
    hide ToS16;
  }

  method DifferentialEncode(buffer: array<sint16>, base: nat, size: nat)
    requires 0 < size && base + size <= buffer.Length
    modifies buffer
    ensures buffer[..] == Differences(old(buffer[..]), base, size)
  {
    hide ToS16, Differences;
    ghost var s := buffer[..];
    ghost var d := Differences(s, base, size);
    var n1 := buffer[base];
    var dst := base + 1;
    DifferencesAt(s, base, size, base);
    while dst < base + size
      invariant base + 1 <= dst <= base + size && n1 == s[dst - 1]
      invariant forall i :: base < i < dst ==> buffer[i] == d[i]
      invariant forall i :: 0 <= i < buffer.Length && !(base < i < dst) ==> buffer[i] == s[i]
    {
      DifferencesAt(s, base, size, dst);
      var n2 := buffer[dst];
      buffer[dst] := ToS16(buffer[dst] as int - n1 as int);
      n1 := n2;
      dst := dst + 1;
    }
  }

  lemma DifferenceBack(a: sint16, b: sint16)
    ensures ToS16(ToS16(a as int - b as int) as int + b as int) == a
  {
  }

  lemma {:induction false} SumsOfDifferences(s: Line, base: nat, size: nat, n: nat)
    requires base + size <= |s| && 1 <= n <= size
    ensures var d := Differences(s, base, size);
            forall i :: 0 <= i < |s| ==> Sums(d, base, n)[i] == if i < base + n then s[i] else d[i]
  {
    hide ToS16, Differences;
    var d, j := Differences(s, base, size), base + n - 1;
    DifferencesAt(s, base, size, j);
    if n > 1 {
      SumsOfDifferences(s, base, size, n - 1);
      DifferenceBack(s[j], s[j - 1]);
    }
  }

  /** Running sums undo differences, wrap-around included. */
  lemma DifferentialRoundTrip(s: Line, base: nat, size: nat)
    requires base + size <= |s| && size > 0
    ensures Sums(Differences(s, base, size), base, size) == s
  {
    SumsOfDifferences(s, base, size, size);
  }

  lemma {:induction false} SumsPrefix(s: Line, t: Line, base: nat, n: nat)
    requires |s| == |t| && base + n <= |s| && forall i :: 0 <= i < base + n ==> s[i] == t[i]
    ensures forall i :: 0 <= i < base + n ==> Sums(s, base, n)[i] == Sums(t, base, n)[i]
  {
    hide ToS16;
    if n > 1 { SumsPrefix(s, t, base, n - 1); }
  }

  // ---- The stages in order ----

  /** What the entropy coder is given. */
  function Coefficients(x: Line, q: seq<int>): (r: Line)
    requires Quants(q) && |x| == 4096
    ensures |r| == 4096
  {
    hide EncodeLevels, Quantize;
    Differences(Quantize(EncodeLevels(x), q), 4032, 64)
  }

  /** What becomes of entropy-decoded values. */
  function Samples(v: Line, q: seq<int>): (r: Line)
    requires Quants(q) && |v| == 4096
    ensures |r| == 4096
  {
    hide DecodeLevels, Dequantize;
    DecodeLevels(Dequantize(Sums(v, 4032, 64), q))
  }

  /** The bytes are the code of the values, as far as the limit allows. */
  ghost predicate Codes(mode: Mode, values: Line, bytes: seq<byte>, limit: nat)
  {
    var bits := Encode(mode, values);
    |bytes| == Min((|bits| + 7) / 8, limit) && Take(bits, 8 * |bytes|) <= OfBytes(bytes)
  }

  /** Whatever the samples, the code of a component takes fewer than 65536 bytes, as its 16-bit length needs. */
  lemma CodeShort(mode: Mode, c: Line, q: seq<int>)
    requires Quants(q) && |c| == 4096
    ensures |Encode(mode, Differences(Quantize(c, q), 4032, 64))| <= 8 * 65535
  {
    hide Encode, Differences, Quantize, SumExcess;
    var z := Quantize(c, q);
    var d := Differences(z, 4032, 64);
    QuantizedWithin(c, q);
    DifferencesSmall(z);
    SmallExcess(z, d);
    ExcessTail(d, 4032);
    LengthBound(mode, d);
  }

  lemma SmallExcess(z: Line, d: Line)
    requires |z| == |d| == 4096 && d == Differences(z, 4032, 64) && Within(z, 1024) && Within(d, 2048)
    ensures (forall i :: 0 <= i < 4032 ==> Excess(d[i]) == 0) && forall i :: 0 <= i < 4096 ==> Excess(d[i]) <= 2048
  {
    hide Differences;
    DifferencesAt(z, 4032, 64, 0);
  }

  lemma QuantizedWithin(c: Line, q: seq<int>)
    requires Quants(q) && |c| == 4096
    ensures Within(Quantize(c, q), 1024)
  {
    hide Quantized, BandOf;
    var z := Quantize(c, q);
    forall i | 0 <= i < 4096 ensures -1024 <= z[i] <= 1024 {
      QuantizedSmall(c[i], Factor(q, i));
    }
  }

  method EncodeComponent(mode: Mode, q: seq<int>, data: array<sint16>, dwt: array<sint16>, buffer: array<byte>,
      bufferSize: nat)
    returns (size: nat)
    requires Quants(q) && data != dwt && data.Length == 4096 && dwt.Length == 4096 && bufferSize <= buffer.Length
    modifies data, dwt, buffer
    ensures size <= bufferSize && size < 65536
        && Codes(mode, Coefficients(old(data[..]), q), buffer[..size], bufferSize)
    ensures buffer[bufferSize..] == old(buffer[bufferSize..])
  {
    hide EncodeLevels, Quantize, Differences, Encode, Take, OfBytes;
    DwtEncode(data, dwt);
    QuantizeBuffer(data, q);
    DifferentialEncode(data, 4032, 64);
    assert data[..4096] == data[..];
    size := RlgrEncode(mode, data, 4096, buffer, bufferSize);
    CodeShort(mode, EncodeLevels(old(data[..])), q);
  }

  method DecodeComponent(mode: Mode, q: seq<int>, data: array<byte>, size: nat, buffer: array<sint16>,
      dwt: array<sint16>)
    requires Quants(q) && buffer != dwt && buffer.Length == 4096 && dwt.Length == 4096 && size <= data.Length
    modifies buffer, dwt
    ensures var v := Decode(mode, OfBytes(data[..size]), 4096);
            buffer[..] == Samples(v + old(buffer[..])[|v|..], q)
  {
    hide DecodeLevels, Dequantize, Sums, Decode, OfBytes;
    var written := RlgrDecode(mode, data, size, buffer, 4096);
    assert old(buffer[written..]) == old(buffer[..])[written..];
    DifferentialDecode(buffer, 4032, 64);
    DequantizeBuffer(buffer, q);
    DwtDecode(buffer, dwt);
  }

  // ---- Entropy and differential stages undo each other ----

  lemma QuantizedFit(mode: Mode, c: Line, q: seq<int>)
    requires Quants(q) && |c| == 4096
    ensures PairsFit(mode, Differences(Quantize(c, q), 4032, 64), 8)
  {
    hide Quantize, Differences, PairsFit;
    var z := Quantize(c, q);
    QuantizedWithin(c, q);
    DifferencesSmall(z);
    SmallFit(mode, Differences(z, 4032, 64), 8);
  }

  lemma DifferencesSmall(z: Line)
    requires |z| == 4096 && Within(z, 1024)
    ensures Within(Differences(z, 4032, 64), 2048)
  {
    hide ToS16;
    var d := Differences(z, 4032, 64);
    forall i | 0 <= i < 4096 ensures -2048 <= d[i] <= 2048 {
      if 4032 < i { SmallDifference(z[i], z[i - 1]); }
    }
  }

  lemma SmallDifference(a: sint16, b: sint16)
    requires -1024 <= a <= 1024 && -1024 <= b <= 1024
    ensures -2048 <= ToS16(a as int - b as int) <= 2048
  {
  }

  /** What is left of the trailing zero that the run-length code turns into a one. */
  lemma LastOff(z: Line)
    requires |z| == 4096
    ensures var d := Differences(z, 4032, 64);
            d[4095] == 0 ==> Sums(d[4095 := 1], 4032, 64)[4095] == ToS16(z[4095] as int + 1)
  {
    hide ToS16, Differences;
    var d := Differences(z, 4032, 64);
    SumsPrefix(d, d[4095 := 1], 4032, 63);
    SumsOfDifferences(z, 4032, 64, 63);
    DifferencesAt(z, 4032, 64, 4095);
    DifferenceBack(z[4095], z[4094]);
    SumsNext(d[4095 := 1], 4032, 63);
    ZeroDifference(z[4095], z[4094]);
  }

  lemma ZeroDifference(a: sint16, b: sint16)
    ensures ToS16(a as int - b as int) == 0 ==> a == b
  {
  }

  lemma SumsNext(s: Line, base: nat, n: nat)
    requires base + n < |s| && n > 0
    ensures Sums(s, base, n + 1)[base + n] == ToS16(s[base + n] as int + Sums(s, base, n)[base + n - 1] as int)
  {
    hide ToS16;
  }

  /** Neighbouring quantized values are restored to different values. */
  lemma RestoredApart(z: sint16, f: nat)
    requires f <= 9
    ensures Restored(ToS16(z as int + 1), f) != Restored(z, f)
  {
    hide Shl, Restored, Pow2;
    var z1 := ToS16(z as int + 1);
    RestoredIs(z, f);
    RestoredIs(z1, f);
    ShlLinear(z as int, 1, f + 5);
    ShlBounds(1, f + 5);
    Powers(f);
    PowAtLeast(f);
    if z == 32767 {
      ShlDiff(z1 as int, z as int + 1, -1, f + 5);
    }
    WrapApart(Shl(z as int, f + 5), Shl(z1 as int, f + 5), Pow2(f + 5), if z == 32767 then Shl(-1, f + 5) else 0);
  }

  lemma PowAtLeast(f: nat)
    ensures Pow2(f) >= 1
  {
  }

  lemma WrapApart(a: int, b: int, p: int, k: int)
    requires b == a + p + 65536 * k && 0 < p < 65536
    ensures ToS16(a) != ToS16(b)
  {
  }

  /** Main result: whatever follows the code, the dequantized buffer is that of the quantized transform
      exactly when the entropy coder meets no trailing zero in run-length mode. */
  lemma PipelineExact(mode: Mode, c: Line, q: seq<int>, pad: seq<bool>)
    requires Quants(q) && |c| == 4096
    ensures var z := Quantize(c, q);
            var d := Differences(z, 4032, 64);
            var v := Decode(mode, Encode(mode, d) + pad, 4096);
            && |v| == 4096
            && (Dequantize(Sums(v, 4032, 64), q) == Dequantize(z, q) <==> !EndsInRunZero(mode, d, 8))
            && (d[4095] != 0 ==> Sums(v, 4032, 64) == z)
  {
    hide Quantize, Differences, Decode, Encode, Sums, EndsInRunZero, Quantized, Restored;
    var z := Quantize(c, q);
    var d := Differences(z, 4032, 64);
    QuantizedFit(mode, c, q);
    RoundTrip(mode, d, pad);
    DifferentialRoundTrip(z, 4032, 64);
    if EndsInRunZero(mode, d, 8) {
      LastOfRunZero(mode, d, 8);
      LastOff(z);
      RestoredApart(z[4095], Factor(q, 4095));
      var v := d[4095 := 1];
      assert Dequantize(Sums(v, 4032, 64), q)[4095] != Dequantize(z, q)[4095];
    }
  }

  /** The same over bytes: coefficients coded into a large enough buffer come back as dequantized ones. */
  lemma BytesRestored(mode: Mode, c: Line, q: seq<int>, bytes: seq<byte>, limit: nat)
    requires Quants(q) && |c| == 4096
    requires var d := Differences(Quantize(c, q), 4032, 64);
             Codes(mode, d, bytes, limit) && |Encode(mode, d)| <= 8 * limit && !EndsInRunZero(mode, d, 8)
    ensures var v := Decode(mode, OfBytes(bytes), 4096);
            |v| == 4096 && Dequantize(Sums(v, 4032, 64), q) == Dequantize(Quantize(c, q), q)
  {
    hide Quantize, Dequantize, Differences, Decode, Encode, Sums, EndsInRunZero, OfBytes;
    var d := Differences(Quantize(c, q), 4032, 64);
    var bits, all := Encode(mode, d), OfBytes(bytes);
    assert Take(bits, 8 * |bytes|) == bits;
    var pad := all[|bits|..];
    assert all == bits + pad;
    PipelineExact(mode, c, q, pad);
  }
}
