/** How far the samples of a component are off after it was encoded and decoded: quantization and wavelet together
    (libfreerdp-codec/rfx_encode.c, rfx_decode.c). */
module ComponentError {
  import opened Words
  import opened Bits
  import opened Grid
  import opened Dwt
  import opened DwtBlock
  import opened DwtInverse
  import opened DwtGain
  import opened DwtLevels
  import opened DwtSse2Range
  import opened Rlgr
  import opened RlgrRoundTrip
  import opened RlgrCoder
  import opened Quantization
  import opened Component
  import RfxComposer

  // ---- The range of the coefficients ----

  lemma RowsHighRange(m: Matrix, w: nat, b: int)
    requires Shape(m, w, 2 * w) && MatrixWithin(m, b)
    ensures MatrixWithin(RowsH(m, w), b)
  {
    hide RowH;
    forall y, n | 0 <= y < w && 0 <= n < w ensures -b <= RowsH(m, w)[y][n] as int <= b {
      assert Within(m[y], b);
      HighRange(m[y], w, b, n);
    }
  }

  predicate HighBandsWithin(b: Bands, n: int)
  {
    MatrixWithin(b.lh, n) && MatrixWithin(b.hl, n) && MatrixWithin(b.hh, n)
  }

  lemma BandsRange(m: Matrix, w: nat, b: int)
    requires Shape(m, 2 * w, 2 * w) && MatrixWithin(m, b) && 0 <= b && Grown15(Grown15(b)) <= 24356
    ensures HighBandsWithin(Encode2D(m, w), 24356) && MatrixWithin(Encode2D(m, w).ll, 24356)
  {
    hide ColL, ColH, RowsL, RowsH, MatrixWithin;
    LevelRange(m, w, b);
    RowsHighRange(ColL(m, w), w, Grown15(b));
    RowsHighRange(ColH(m, w), w, b);
    RowsRange(ColH(m, w), w, b);
    var c := Encode2D(m, w);
    WiderMatrix(c.ll, Grown15(Grown15(b)), 24356);
    WiderMatrix(c.hl, Grown15(b), 24356);
    WiderMatrix(c.lh, Grown15(b), 24356);
    WiderMatrix(c.hh, b, 24356);
  }

  predicate CodedWithin(k: Coded, n: int)
  {
    HighBandsWithin(k.b1, n) && HighBandsWithin(k.b2, n) && HighBandsWithin(k.b3, n) && MatrixWithin(k.b3.ll, n)
  }

  lemma CodeRange(m: Matrix)
    requires Shape(m, 64, 64) && MatrixWithin(m, 4096)
    ensures CodedWithin(EncodedThree(m), 24356)
  {
    hide Encode2D, MatrixWithin, HighBandsWithin, LowOne, LowTwo;
    LowTwoRange(m);
    BandsRange(m, 32, 4096);
    BandsRange(LowOne(m), 16, 9218);
    BandsRange(LowTwo(m), 8, 10824);
  }

  predicate CellsWithin(c: Line, n: int) { |c| >= 4096 && forall i :: 0 <= i < 4096 ==> -n <= c[i] as int <= n }

  lemma CellWithin(c: Line, base: nat, w: nat, n: int, i: nat)
    requires base <= i < base + Area(w, w) <= |c| && MatrixWithin(MatrixAt(c, base, w, w), n)
    ensures -n <= c[i] as int <= n
  {
    hide Area, Cell, MatrixAt;
    var m := MatrixAt(c, base, w, w);
    LaidShape(c, base, w, w, m);
    var y, x := FindCell(w, w, i - base);
    LaidCell(c, base, w, w, m, y, x);
    assert Within(m[y], n);
  }

  lemma LevelCells(c: Line, base: nat, w: nat, n: int, i: nat)
    requires base <= i < base + 3 * Area(w, w) && base + 4 * Area(w, w) <= |c|
        && HighBandsWithin(BandsAt(c, base, w), n)
    ensures -n <= c[i] as int <= n
  {
    hide Area, MatrixAt, MatrixWithin;
    var a := Area(w, w);
    if i < base + a {
      CellWithin(c, base, w, n, i);
    } else if i < base + 2 * a {
      CellWithin(c, base + a, w, n, i);
    } else {
      CellWithin(c, base + 2 * a, w, n, i);
    }
  }

  lemma CodeCells(c: Line, n: int)
    requires |c| >= 4096 && CodedWithin(CodedAt(c), n)
    ensures CellsWithin(c, n)
  {
    hide Area, BandsAt, MatrixAt, HighBandsWithin, MatrixWithin;
    Areas();
    forall i | 0 <= i < 4096 ensures -n <= c[i] as int <= n {
      if i < 3072 {
        LevelCells(c, 0, 32, n, i);
      } else if i < 3840 {
        LevelCells(c, 3072, 16, n, i);
      } else if i < 4032 {
        LevelCells(c, 3840, 8, n, i);
      } else {
        LowOf(c, 3840, 8);
        CellWithin(c, 4032, 8, n, i);
      }
    }
  }

  /** Every coefficient of a block in range lies within 24356. */
  lemma CoefficientRange(s: Line, c: Line)
    requires |s| >= 4096 && InRange(s) && c == EncodeLevels(s)
    ensures CellsWithin(c, 24356)
  {
    hide Area, Laid, InRange, EncoderReads, EncodeLevels, MatrixWithin, CodedAt, EncodedThree, CodedWithin, CellsWithin;
    var m := BlockCode(s);
    CodeRange(m);
    SameWithin(CodedAt(c), EncodedThree(m), 24356);
    CodeCells(c, 24356);
  }

  lemma SameWithin(k: Coded, c: Coded, n: int)
    requires SameCode(k, c) && CodedWithin(c, n)
    ensures CodedWithin(k, n)
  {
    hide MatrixWithin;
  }

  // ---- Quantization errors of the ten bands ----

  /** 16.5 times 2^(q - 6) for each band. */
  function QuantErrors(q: seq<int>): (e: Errors)
    requires Quants(q)
    ensures forall k :: 0 <= k < 10 ==> e[k] == 33 * Pow2(q[k] - 6) / 2
  {
    seq(10, k requires 0 <= k < 10 => 33 * Pow2(q[k] - 6) / 2)
  }

  lemma ErrorInSum(e: Errors, k: nat)
    requires k < 10
    ensures e[k] <= SumOne(e)
  {
  }

  lemma SmallFactor(f: nat)
    requires f <= 9
    ensures 33 * Pow2(f) / 2 <= 8191 ==> Offset(f) <= 4224
  {
    if f < 9 {
      Powers(f);
      Pow2Mono(f, 8);
      assert Pow2(8) == 256;
    } else {
      assert Pow2(9) == 512;
    }
  }

  lemma CellRestored(c: Line, q: seq<int>, i: nat)
    requires Quants(q) && CellsWithin(c, 24356) && SumOne(QuantErrors(q)) <= 8191 && i < 4096
    ensures var e := QuantErrors(q)[BandOf(i)];
            -(e as int) <= Dequantize(Quantize(c, q), q)[i] as int - c[i] as int <= e
  {
    hide Pow2, Offset, SumOne, BandOf, Quantize, Dequantize;
    ErrorInSum(QuantErrors(q), BandOf(i));
    SmallFactor(Factor(q, i));
    BandRestored(c, q, i);
  }

  /** The dequantized code of a block in range. */
  predicate Lossy(s: Line, q: seq<int>, c: Line)
  {
    hide EncodeLevels, Quantize, Dequantize;
    |s| >= 4096 && Quants(q) && c == Dequantize(Quantize(EncodeLevels(s), q), q)
  }

  lemma LossyNear(s: Line, q: seq<int>, c: Line)
    requires |s| >= 4096 && Quants(q) && InRange(s) && Lossy(s, q, c) && SumOne(QuantErrors(q)) <= 8191
    ensures CodeNear(s, c, QuantErrors(q))
  {
    hide EncodeLevels, Quantize, Dequantize, BandOf, InRange, SumOne;
    var x := EncodeLevels(s);
    CoefficientRange(s, x);
    forall i | 0 <= i < 4096
      ensures -(QuantErrors(q)[BandOf(i)] as int) <= c[i] as int - x[i] as int <= QuantErrors(q)[BandOf(i)]
    {
      CellRestored(x, q, i);
    }
  }

  /** Main result without the entropy coder: for samples in the codec's range, quantization values 6 .. 15 and d
      decoded from the dequantized code, every sample is off by at most the weighted sum of the bands' quantization
      errors, and -24 .. 6. */
  lemma QuantizationError(s: Line, q: seq<int>, c: Line, d: Line, i: nat)
    requires |d| == |c| == |s| >= 4096 && Quants(q) && InRange(s) && Lossy(s, q, c)
        && SumOne(QuantErrors(q)) <= 8191 && d == DecodeLevels(c)
    requires i < 4096
    ensures SampleOff(s, d, QuantErrors(q), i)
  {
    hide DecodeLevels, Lossy, InRange, SumOne, SampleOff, DecodesTo, CodeNear, QuantErrors;
    LossyNear(s, q, c);
    DecoderLeaves(c, d);
    BufferError(s, c, d, QuantErrors(q), i);
  }

  /** The eight-lane decoder agrees with the scalar one on such codes, when the quantization leaves its lanes room. */
  lemma LossyLanes(s: Line, q: seq<int>, c: Line)
    requires |c| == |s| >= 4096 && Quants(q) && InRange(s) && Lossy(s, q, c) && LanesRoom(QuantErrors(q))
    ensures LanesFit(s, c)
  {
    hide Lossy, InRange, SumOne, SumThree, CodeNear, QuantErrors, LanesFit;
    LossyNear(s, q, c);
    LanesAgree(s, c, QuantErrors(q));
  }

  // ---- Through the entropy coder ----

  /** The same, with the step that a trailing zero in run-length mode may cost the last coefficient. */
  function WideErrors(q: seq<int>): (e: Errors)
    requires Quants(q)
  {
    QuantErrors(q)[0 := 97 * Pow2(q[0] - 6) / 2]
  }

  lemma WideSums(q: seq<int>)
    requires Quants(q)
    ensures SumOne(QuantErrors(q)) <= SumOne(WideErrors(q))
    ensures 97 * Pow2(q[0] - 6) / 2 <= SumOne(WideErrors(q))
    ensures forall k :: 0 <= k < 10 ==> QuantErrors(q)[k] <= WideErrors(q)[k]
  {
    hide Pow2;
    var e, w := QuantErrors(q), WideErrors(q);
    assert e[0] <= w[0] && forall k :: 1 <= k < 10 ==> w[k] == e[k];
  }

  lemma NextRestored(z: sint16, f: nat)
    requires f <= 9 && InS16(Restored(z, f) as int + 32 * Pow2(f)) && z < 32767
    ensures Restored(z + 1, f) as int == Restored(z, f) as int + 32 * Pow2(f)
  {
    hide Shl, Restored, Pow2, ToS16;
    RestoredIs(z, f);
    RestoredIs(z + 1, f);
    ShlLinear(z as int, 1, f + 5);
    ShlBounds(1, f + 5);
    Powers(f);
    var a, p := Shl(z as int, f + 5), 32 * Pow2(f);
    WrapMultiple(a);
    WrapSame(a + p, ToS16(a) as int + p, (a - ToS16(a) as int) / 65536) by { ExactQuotient(a, ToS16(a) as int); }
    Kept(ToS16(a) as int + p);
  }

  lemma ExactQuotient(a: int, r: int)
    requires r - a == 65536 * ((r - a) / 65536)
    ensures a - r == 65536 * ((a - r) / 65536)
  {
  }

  /** Only the last value is off when the trailing zero is decoded as a one. */
  lemma LastStep(z: Line, i: nat)
    requires |z| == 4096 && i < 4095 && Differences(z, 4032, 64)[4095] == 0
    ensures Sums(Differences(z, 4032, 64)[4095 := 1], 4032, 64)[i] == z[i]
  {
    hide ToS16, Differences;
    var d := Differences(z, 4032, 64);
    SumsPrefix(d, d[4095 := 1], 4032, 63);
    SumsOfDifferences(z, 4032, 64, 63);
    SumsStep(d[4095 := 1], i);
  }

  lemma SumsStep(s: Line, i: nat)
    requires |s| == 4096 && i < 4095
    ensures Sums(s, 4032, 64)[i] == Sums(s, 4032, 63)[i]
  {
    hide ToS16;
  }

  /** The values of the sums are the quantized ones, or those with the last one a step up. */
  predicate SumsAre(t: Line, z: Line)
  {
    |t| == |z| == 4096 && (t == z || (z[4095] < 32767 && t == z[4095 := z[4095] + 1]))
  }

  lemma LastUp(z: Line, t: Line)
    requires |z| == 4096 && z[4095] <= 1024 && Differences(z, 4032, 64)[4095] == 0
    requires t == Sums(Differences(z, 4032, 64)[4095 := 1], 4032, 64)
    ensures SumsAre(t, z)
  {
    hide ToS16, Differences, Sums;
    LastOff(z);
    Kept(z[4095] as int + 1);
    forall i | 0 <= i < 4095 ensures t[i] == z[i] {
      LastStep(z, i);
    }
    assert t == z[4095 := z[4095] + 1];
  }

  /** What comes out of the entropy decoder, whatever follows the code. */
  lemma EntropyBack(mode: Mode, z: Line, q: seq<int>, c: Line, pad: seq<bool>)
    requires Quants(q) && |c| == 4096 && z == Quantize(c, q)
    ensures var v := Decode(mode, Encode(mode, Differences(z, 4032, 64)) + pad, 4096);
            |v| == 4096 && SumsAre(Sums(v, 4032, 64), z)
  {
    hide Quantize, Differences, Decode, Encode, Sums, EndsInRunZero;
    var d := Differences(z, 4032, 64);
    QuantizedFit(mode, c, q);
    RoundTrip(mode, d, pad);
    DifferentialRoundTrip(z, 4032, 64);
    if EndsInRunZero(mode, d, 8) {
      LastOfRunZero(mode, d, 8);
      LastSmall(c, q);
      LastUp(z, Sums(d[4095 := 1], 4032, 64));
    }
  }

  lemma LastSmall(c: Line, q: seq<int>)
    requires Quants(q) && |c| == 4096
    ensures Quantize(c, q)[4095] <= 1024
  {
    hide Quantized;
    QuantizedSmall(c[4095], Factor(q, 4095));
  }

  lemma SumsNear(x: Line, z: Line, t: Line, q: seq<int>, i: nat)
    requires Quants(q) && |x| == 4096 && CellsWithin(x, 24356) && z == Quantize(x, q) && SumsAre(t, z) && i < 4096
    requires SumOne(WideErrors(q)) <= 8191
    ensures var e := WideErrors(q)[BandOf(i)];
            -(e as int) <= Dequantize(t, q)[i] as int - x[i] as int <= e
  {
    hide Pow2, SumOne, Quantize, Restored, WideErrors;
    WideSums(q);
    CellRestored(x, q, i);
    if i == 4095 && t != z {
      var f := q[0] - 6;
      Up97(f, SumOne(WideErrors(q)));
      NextRestored(z[4095], f);
      WideFirst(q);
    }
  }

  lemma WideFirst(q: seq<int>)
    requires Quants(q)
    ensures WideErrors(q)[0] == 97 * Pow2(q[0] - 6) / 2
  {
  }

  /** Steps that the condition leaves room for. */
  lemma Up97(f: nat, sum: int)
    requires f <= 9 && 97 * Pow2(f) / 2 <= sum <= 8191
    ensures 33 * Pow2(f) / 2 + 32 * Pow2(f) == 97 * Pow2(f) / 2 && 24356 + 97 * Pow2(f) / 2 <= 32767
  {
    assert 97 * Pow2(f) == 33 * Pow2(f) + 2 * (32 * Pow2(f));
  }

  /** The dequantized buffer of the decoder. */
  predicate Received(mode: Mode, bits: seq<bool>, q: seq<int>, c: Line)
  {
    hide Decode, Sums, Dequantize;
    var v := Decode(mode, bits, 4096);
    Quants(q) && |v| == 4096 && c == Dequantize(Sums(v, 4032, 64), q)
  }

  /** The bits that the encoder makes of the samples. */
  function CodeBits(mode: Mode, s: Line, q: seq<int>): seq<bool>
    requires Quants(q) && |s| == 4096
  {
    hide Coefficients, Encode;
    Encode(mode, Coefficients(s, q))
  }

  lemma ReceivedNear(mode: Mode, s: Line, q: seq<int>, pad: seq<bool>, c: Line)
    requires |s| == 4096 && Quants(q) && InRange(s) && SumOne(WideErrors(q)) <= 8191
    requires Received(mode, CodeBits(mode, s, q) + pad, q, c)
    ensures CodeNear(s, c, WideErrors(q))
  {
    hide EncodeLevels, Quantize, Dequantize, Differences, Decode, Encode, Sums, BandOf, InRange, SumOne, CellsWithin,
        SumsAre, WideErrors;
    var x := EncodeLevels(s);
    var z := Quantize(x, q);
    var v := Decode(mode, CodeBits(mode, s, q) + pad, 4096);
    CoefficientRange(s, x);
    EntropyBack(mode, z, q, x, pad);
    var w := WideErrors(q);
    forall i | 0 <= i < 4096 ensures -(w[BandOf(i)] as int) <= c[i] as int - x[i] as int <= w[BandOf(i)] {
      SumsNear(x, z, Sums(v, 4032, 64), q, i);
    }
  }

  /** Every cell of the block is off by no more than the errors of the bands allow. */
  predicate SamplesOff(s: Line, d: Line, e: Errors)
  {
    |s| == |d| == 4096 && forall i :: 0 <= i < 4096 ==> SampleOff(s, d, e, i)
  }

  lemma ReceivedError(mode: Mode, s: Line, q: seq<int>, pad: seq<bool>, c: Line, d: Line)
    requires |d| == |c| == |s| == 4096 && Quants(q) && InRange(s) && SumOne(WideErrors(q)) <= 8191
    requires Received(mode, CodeBits(mode, s, q) + pad, q, c) && d == DecodeLevels(c)
    ensures SamplesOff(s, d, WideErrors(q))
  {
    hide DecodeLevels, Received, CodeBits, InRange, SumOne, SampleOff, DecodesTo, CodeNear, WideErrors;
    ReceivedNear(mode, s, q, pad, c);
    DecoderLeaves(c, d);
    forall i | 0 <= i < 4096 ensures SampleOff(s, d, WideErrors(q), i) {
      BufferError(s, c, d, WideErrors(q), i);
    }
  }

  /** A code that did not reach the limit is whole. */
  lemma WholeCode(mode: Mode, values: Line, bytes: seq<byte>, limit: nat) returns (pad: seq<bool>)
    requires Codes(mode, values, bytes, limit) && |bytes| < limit
    ensures OfBytes(bytes) == Encode(mode, values) + pad
  {
    hide Encode, OfBytes;
    var bits, all := Encode(mode, values), OfBytes(bytes);
    assert Take(bits, 8 * |bytes|) == bits;
    pad := all[|bits|..];
  }

  /** Main result: a component encoded into a buffer that it does not fill and decoded again. For samples in the
      codec's range and quantization values whose weighted errors stay below the width of that range, every sample is
      off by no more than these errors and -24 .. 6, trailing zeros included. */
  method Transmit(mode: Mode, q: seq<int>, data: array<sint16>, dwt: array<sint16>, bytes: array<byte>, limit: nat,
      out: array<sint16>)
    returns (size: nat)
    requires Quants(q) && data != dwt && out != dwt && out != data && data.Length == dwt.Length == out.Length == 4096
    requires limit <= bytes.Length
    modifies data, dwt, bytes, out
    ensures size <= limit
    ensures InRange(old(data[..])) && SumOne(WideErrors(q)) <= 8191 && size < limit ==>
        SamplesOff(old(data[..]), out[..], WideErrors(q))
  {
    hide Encode, Decode, Coefficients, Codes, InRange, SumOne, WideErrors, SamplesOff;
    ghost var s := data[..];
    size := EncodeComponent(mode, q, data, dwt, bytes, limit);
    ghost var code, rest := bytes[..size], out[..];
    DecodeComponent(mode, q, bytes, size, out, dwt);
    if InRange(s) && SumOne(WideErrors(q)) <= 8191 && size < limit {
      TransmitError(mode, s, q, code, limit, rest, out[..]);
    }
  }

  ghost predicate Coding(mode: Mode, s: Line, q: seq<int>, code: seq<byte>, limit: nat)
  {
    hide Codes, Coefficients;
    |s| == 4096 && Quants(q) && Codes(mode, Coefficients(s, q), code, limit)
  }

  ghost predicate Decoding(mode: Mode, code: seq<byte>, q: seq<int>, rest: Line, d: Line)
  {
    hide Decode, OfBytes, Samples;
    var v := Decode(mode, OfBytes(code), 4096);
    |rest| == 4096 && Quants(q) && d == Samples(v + rest[|v|..], q)
  }

  lemma TransmitError(mode: Mode, s: Line, q: seq<int>, code: seq<byte>, limit: nat, rest: Line, d: Line)
    requires |s| == |rest| == 4096 && Quants(q) && InRange(s) && SumOne(WideErrors(q)) <= 8191
    requires Coding(mode, s, q, code, limit) && |code| < limit && Decoding(mode, code, q, rest, d)
    ensures SamplesOff(s, d, WideErrors(q))
  {
    hide Encode, Decode, EncodeLevels, DecodeLevels, Dequantize, Quantize, Differences, Sums, Codes, OfBytes, InRange,
        SumOne, WideErrors,
      SamplesOff, SumsAre;
    var pad := WholeCode(mode, Coefficients(s, q), code, limit);
    var x := EncodeLevels(s);
    EntropyBack(mode, Quantize(x, q), q, x, pad);
    var v := Decode(mode, OfBytes(code), 4096);
    assert v + rest[|v|..] == v;
    var c := Dequantize(Sums(v, 4032, 64), q);
    assert CodeBits(mode, s, q) + pad == OfBytes(code);
    ReceivedError(mode, s, q, pad, c, d);
  }

  // ---- The default quantization values ----

  lemma SumsOf(e: Errors)
    requires e[0] == 16 && e[1] == 16 && e[2] == 16 && e[3] == 16 && e[4] == 33 && e[5] == 33 && e[6] == 66
        && e[7] == 66 && e[8] == 66
    requires e[9] == 132
    ensures SumThree(e) == 256 && SumTwo(e) == 1048 && SumOne(e) == 2632 && LanesRoom(e)
    ensures SumOne(e[0 := 48]) == 2664
  {
  }

  lemma SmallPowers()
    ensures Pow2(0) == 1 && Pow2(1) == 2 && Pow2(2) == 4 && Pow2(3) == 8
  {
  }

  /** With the default table the condition holds, lanes included: every sample comes back within -2688 .. 2670,
      scaled by 32. */
  lemma DefaultTable(q: seq<int>)
    requires q == RfxComposer.DEFAULT_QUANTS
    ensures Quants(q) && LanesRoom(QuantErrors(q)) && SumOne(QuantErrors(q)) == 2632 && SumOne(WideErrors(q)) == 2664
  {
    hide Pow2, SumThree, SumTwo, SumOne, LanesRoom;
    SmallPowers();
    assert q[0] == 6 && q[1] == 6 && q[2] == 6 && q[3] == 6 && q[4] == 7 && q[5] == 7 && q[6] == 8 && q[7] == 8
        && q[8] == 8 && q[9] == 9;
    assert 97 * Pow2(0) / 2 == 48;
    SumsOf(QuantErrors(q));
  }
}
