/** Decoding what the RLGR encoder wrote (libfreerdp-codec/rfx_rlgr.c). */
module RlgrRoundTrip {
  import opened Words
  import opened Bits
  import opened Rlgr

  /** RLGR3 codes the sum of two doubled magnitudes, which the decoder keeps in 16 bits; RLGR1 codes every 16-bit
      value. */
  predicate PairFits(mode: Mode, data: seq<sint16>, kp: Param)
    requires data != []
  {
    mode == RLGR3 && K(kp) == 0 ==> To2MagSign(data[0]) + To2MagSign(Second(data)) < 65536
  }

  /** At every step of the encoder. */
  predicate PairsFit(mode: Mode, data: seq<sint16>, kp: Param)
    decreases |data|
  {
    if data == [] then true
    else
      var e := EncodeStep(mode, data, kp, 0);
      PairFits(mode, data, kp) && PairsFit(mode, data[e.used..], e.kp)
  }

  /** The input ends in a zero that the encoder reaches in run-length mode. */
  predicate EndsInRunZero(mode: Mode, data: seq<sint16>, kp: Param)
    decreases |data|
  {
    if data == [] then false
    else
      var e := EncodeStep(mode, data, kp, 0);
      if e.used == |data| then K(kp) != 0 && data[|data| - 1] == 0
      else EndsInRunZero(mode, data[e.used..], e.kp)
  }

  /** What the decoder makes of the values of one encoder step. */
  function StepValues(mode: Mode, data: seq<sint16>, kp: Param): seq<sint16>
    requires data != []
  {
    if K(kp) != 0 then
      var z := ZeroRun(data);
      Zeros(z) + [if data[z] == 0 then 1 else data[z]]
    else if mode == RLGR1 then [data[0]]
    else [data[0], Second(data)]
  }

  lemma {:induction false} UnaryOfRepeat(n: nat, rest: seq<bool>)
    requires rest != [] && !rest[0]
    ensures Unary(Repeat(true, n) + rest) == n
  {
    var b := Repeat(true, n) + rest;
    if n > 0 {
      UnaryOfRepeat(n - 1, rest);
      assert b[1..] == Repeat(true, n - 1) + rest;
    } else {
      assert b == rest;
    }
  }

  /** The magnitude put together from quotient and remainder. */
  lemma GRValue(val: nat, kr: nat)
    ensures Shr(val, kr) >= 0
    ensures Or(LowBits(val, kr), Shl(Shr(val, kr), kr)) == val
  {
    hide Or, Shl, Shr, LowBits, Pow2;
    ShrLow(val, kr);
    OrDisjoint(Shr(val, kr), LowBits(val, kr), kr);
    OrCommutes(Shl(Shr(val, kr), kr), LowBits(val, kr));
  }

  /** Every value is read back modulo 2^16. */
  lemma GRBack(krp: Param, val: nat, tail: seq<bool>)
    ensures ReadGR(GRCode(krp, val) + tail, krp) == GR(ToU16(val), tail, GRNext(krp, val))
  {
    hide Or, Shl, Shr, Low, LowBits, Unary, NextKrp, Val;
    var kr := K(krp);
    GRValue(val, kr);
    var vk, low := Shr(val, kr), Low(val, kr);
    var bits := GRCode(krp, val) + tail;
    var rest := [false] + low + tail;
    assert bits == Repeat(true, vk) + rest;
    UnaryOfRepeat(vk, rest);
    var after := Drop(bits, vk + 1);
    assert after == low + tail;
    assert Take(after, kr) == low && Drop(after, kr) == tail;
    ValLow(val, kr);
  }

  lemma GRRoundTrip(krp: Param, val: uint16, tail: seq<bool>)
    ensures ReadGR(GRCode(krp, val) + tail, krp) == GR(val, tail, GRNext(krp, val))
  {
    hide GRCode, ReadGR, GRNext;
    GRBack(krp, val, tail);
  }

  lemma {:induction false} RunsRoundTrip(z: nat, kp: Param, rest: seq<bool>)
    ensures var r := SplitRuns(z, kp);
            ReadRuns(Repeat(false, r.count) + [true] + rest, kp) == RunRead(z - r.left, rest, r.kp)
    decreases z
  {
    var r := SplitRuns(z, kp);
    var b := Repeat(false, r.count) + [true] + rest;
    if z >= Pow2(K(kp)) {
      RunsRoundTrip(z - Pow2(K(kp)), Update(kp, UP_GR), rest);
      assert b[1..] == Repeat(false, r.count - 1) + [true] + rest;
    } else {
      assert b == [true] + rest;
    }
  }

  lemma LowRoundTrip(v: nat, n: nat, tail: seq<bool>)
    requires v < Pow2(n)
    ensures var b := Low(v, n) + tail; Val(Take(b, n)) == v && Drop(b, n) == tail
  {
    hide Low, Val, LowBits;
    assert Take(Low(v, n) + tail, n) == Low(v, n);
    ValLow(v, n);
    ShrLowUnique(0, v, n);
    ShlLinear(0, 0, n);
  }

  lemma RunStep(data: seq<sint16>, kp: Param, krp: Param, tail: seq<bool>)
    requires data != []
    ensures var e := EncodeRun(data, kp, krp);
            && e.bits != []
            && var z := ZeroRun(data);
               DecodeRun(e.bits + tail, kp, krp)
               == DecStep(Zeros(z) + [if data[z] == 0 then 1 else data[z]], tail, e.kp, e.krp)
  {
    hide SplitRuns, ReadRuns, GRCode, GRNext, ReadGR, Low, Val, ZeroRun, Pow2, Update, K, Take, Drop;
    var z := ZeroRun(data);
    var v: int := data[z];
    var r := SplitRuns(z, kp);
    var mag := if v < 0 then -v else v;
    var code := if mag != 0 then mag - 1 else 0;
    var gr := GRCode(krp, code) + tail;
    var rest := Low(r.left, K(r.kp)) + ([v < 0] + gr);
    var bits := EncodeRun(data, kp, krp).bits + tail;
    assert bits == Repeat(false, r.count) + [true] + rest;
    RunsRoundTrip(z, kp, rest);
    assert ReadRuns(bits, kp) == RunRead(z - r.left, rest, r.kp);
    LowRoundTrip(r.left, K(r.kp), [v < 0] + gr);
    TakeOne([v < 0] + gr);
    GRRoundTrip(krp, code, tail);
    assert Zeros(z - r.left) + Zeros(r.left) == Zeros(z);
  }

  lemma MagSignRoundTrip(v: sint16)
    ensures To2MagSign(v) < 65536 && From2MagSign(To2MagSign(v)) == v
    ensures To2MagSign(v) == 0 <==> v == 0
  {
    if v < 0 {
      var m: int := -(v as int);
      assert To2MagSign(v) == 2 * m - 1;
      assert ToU32(2 * m) / 2 == m;
      assert ToS16(m) == if m == 32768 then -32768 else m;
    }
  }

  lemma OneStep(data: seq<sint16>, kp: Param, krp: Param, tail: seq<bool>)
    requires data != []
    ensures var e := EncodeOne(data, kp, krp);
            e.bits != [] && DecodeOne(e.bits + tail, kp, krp) == DecStep([data[0]], tail, e.kp, e.krp)
  {
    MagSignRoundTrip(data[0]);
    GRRoundTrip(krp, To2MagSign(data[0]), tail);
  }

  lemma PairStep(data: seq<sint16>, kp: Param, krp: Param, tail: seq<bool>)
    requires data != [] && To2MagSign(data[0]) + To2MagSign(Second(data)) < 65536
    ensures var e := EncodePair(data, kp, krp);
            && e.bits != []
            && DecodePair(e.bits + tail, kp, krp)
               == DecStep([data[0], Second(data)], tail, e.kp, e.krp)
  {
    hide GRCode, GRNext, ReadGR, Low, Val, MinBits, Pow2, Update, From2MagSign;
    var a, b := To2MagSign(data[0]), To2MagSign(Second(data));
    MagSignRoundTrip(data[0]);
    MagSignRoundTrip(Second(data));
    var n := MinBits(a + b);
    var low := Low(a, n) + tail;
    var bits := EncodePair(data, kp, krp).bits + tail;
    assert bits == GRCode(krp, a + b) + low;
    GRRoundTrip(krp, a + b, low);
    MinBitsBound(a + b, 16);
    MinBits16(a + b);
    LowRoundTrip(a, n, tail);
    GRCodeNonEmpty(krp, a + b);
  }

  lemma GRCodeNonEmpty(krp: Param, val: nat)
    ensures GRCode(krp, val) != []
  {
  }

  /** Both sides move from equal parameters to equal parameters at every step. */
  lemma StepRoundTrip(mode: Mode, data: seq<sint16>, kp: Param, krp: Param, tail: seq<bool>)
    requires data != [] && PairFits(mode, data, kp)
    ensures var e := EncodeStep(mode, data, kp, krp);
            && e.bits != []
            && DecodeStep(mode, e.bits + tail, kp, krp)
               == DecStep(StepValues(mode, data, kp), tail, e.kp, e.krp)
  {
    hide EncodeRun, EncodeOne, EncodePair, DecodeRun, DecodeOne, DecodePair, ZeroRun;
    if K(kp) != 0 {
      RunStep(data, kp, krp, tail);
    } else if mode == RLGR1 {
      OneStep(data, kp, krp, tail);
    } else {
      PairStep(data, kp, krp, tail);
    }
  }

  /** The step taken by the encoder and its effect on kp do not depend on krp. */
  lemma StepKp(mode: Mode, data: seq<sint16>, kp: Param, krp: Param, krp': Param)
    requires data != []
    ensures EncodeStep(mode, data, kp, krp).used == EncodeStep(mode, data, kp, krp').used
    ensures EncodeStep(mode, data, kp, krp).kp == EncodeStep(mode, data, kp, krp').kp
  {
    hide GRCode, GRNext, SplitRuns, ZeroRun, Low, Repeat;
  }

  /** The values of one step are the next inputs, except for a trailing zero in run-length mode. */
  lemma StepValuesAre(mode: Mode, data: seq<sint16>, kp: Param)
    requires data != []
    ensures var e, v := EncodeStep(mode, data, kp, 0), StepValues(mode, data, kp);
            && |v| >= e.used
            && (e.used < |data| ==> |v| == e.used && v == data[..e.used])
            && (e.used == |data| && !EndsInRunZero(mode, data, kp) ==> v[..e.used] == data)
            && (e.used == |data| && EndsInRunZero(mode, data, kp) ==> v == data[|data| - 1 := 1])
  {
    hide GRCode, GRNext, SplitRuns, Low, Repeat;
  }

  ghost function Decoded(mode: Mode, data: seq<sint16>, kp: Param): seq<sint16>
  {
    if EndsInRunZero(mode, data, kp) then
      (if data == [] then [] else data[|data| - 1 := 1])
    else data
  }

  lemma {:induction false} RoundTripFrom(mode: Mode, data: seq<sint16>, kp: Param, krp: Param, pad: seq<bool>)
    requires PairsFit(mode, data, kp)
    ensures var s := DecodeFrom(mode, EncodeFrom(mode, data, kp, krp) + pad, |data|, kp, krp);
            |s| >= |data| && s[..|data|] == Decoded(mode, data, kp)
    decreases |data|
  {
    hide EncodeStep, DecodeStep, StepValues, PairFits, EncodeFrom, DecodeFrom, EndsInRunZero;
    if data == [] {
      EmptyInput(mode, kp, krp, pad);
    } else {
      var e := EncodeStep(mode, data, kp, krp);
      var more := data[e.used..];
      var tail := EncodeFrom(mode, more, e.kp, e.krp) + pad;
      Unfold(mode, data, kp, krp, pad);
      StepRoundTrip(mode, data, kp, krp, tail);
      StepKp(mode, data, kp, krp, 0);
      StepValuesAre(mode, data, kp);
      var v := StepValues(mode, data, kp);
      var s := DecodeFrom(mode, tail, |data| - |v|, e.kp, e.krp);
      if e.used < |data| {
        RoundTripFrom(mode, more, e.kp, e.krp, pad);
        DecodedConcat(mode, data, kp);
        assert (v + s)[..|data|] == v + s[..|more|];
      } else {
        assert (v + s)[..|data|] == v[..|data|];
      }
    }
  }

  lemma EmptyInput(mode: Mode, kp: Param, krp: Param, pad: seq<bool>)
    ensures DecodeFrom(mode, EncodeFrom(mode, [], kp, krp) + pad, 0, kp, krp) == [] == Decoded(mode, [], kp)
  {
  }

  lemma Unfold(mode: Mode, data: seq<sint16>, kp: Param, krp: Param, pad: seq<bool>)
    requires data != []
    ensures var e := EncodeStep(mode, data, kp, krp);
            var bits := e.bits + (EncodeFrom(mode, data[e.used..], e.kp, e.krp) + pad);
            && EncodeFrom(mode, data, kp, krp) + pad == bits
            && (bits != [] ==>
                var d := DecodeStep(mode, bits, kp, krp);
                DecodeFrom(mode, bits, |data|, kp, krp)
                == d.vals + DecodeFrom(mode, d.rest, |data| - |d.vals|, d.kp, d.krp))
  {
    hide EncodeStep, DecodeStep;
  }

  lemma DecodedConcat(mode: Mode, data: seq<sint16>, kp: Param)
    requires data != [] && EncodeStep(mode, data, kp, 0).used < |data|
    ensures var e := EncodeStep(mode, data, kp, 0);
            Decoded(mode, data, kp) == data[..e.used] + Decoded(mode, data[e.used..], e.kp)
  {
    hide EncodeStep;
  }

  // ---- Pairs that do not fit ----

  lemma {:induction false} ValPrefix(b: seq<bool>, n: nat)
    requires n < |b|
    ensures 2 * Val(b[..n]) <= Val(b)
    decreases |b|
  {
    if n < |b| - 1 {
      ValPrefix(b[..|b| - 1], n);
      assert b[..|b| - 1][..n] == b[..n];
    }
  }

  lemma MagSignApart(a: uint16, v: sint16)
    requires a != To2MagSign(v)
    ensures From2MagSign(a) != v
  {
    hide ToS16;
    if a % 2 == 1 {
      var m := (a + 1) / 2;
      assert ToU32(a + 1) / 2 == m;
      OddMagnitude(m);
    } else {
      assert ToS16(a / 2) == a / 2 by { SmallSame(a / 2); }
    }
  }

  lemma OddMagnitude(m: int)
    requires 1 <= m <= 32768
    ensures ToS16(-(ToS16(m) as int)) == -m
  {
  }

  lemma SmallSame(x: nat)
    requires x < 32768
    ensures ToS16(x) == x
  {
  }

  /** A sum of 2^16 or more: the first value is written with 17 bits and read with fewer. */
  lemma PairLost(data: seq<sint16>, kp: Param, krp: Param, tail: seq<bool>)
    requires data != [] && To2MagSign(data[0]) + To2MagSign(Second(data)) >= 65536
    ensures var e := EncodePair(data, kp, krp);
            e.bits != [] && DecodePair(e.bits + tail, kp, krp).vals[0] != data[0]
  {
    hide GRCode, GRNext, ReadGR, Low, Val, MinBits, Pow2, Update, From2MagSign, NextKpPair;
    var a, b := To2MagSign(data[0]), To2MagSign(Second(data));
    MagSignRoundTrip(data[0]);
    MagSignRoundTrip(Second(data));
    var s := a + b;
    SeventeenBits(s);
    var low := Low(a, 17) + tail;
    var bits := EncodePair(data, kp, krp).bits + tail;
    assert bits == GRCode(krp, s) + low;
    GRBack(krp, s, low);
    GRCodeNonEmpty(krp, s);
    MinBits16(ToU16(s));
    var n := MinBits(ToU16(s));
    assert Take(low, n) == Low(a, 17)[..n];
    ValPrefix(Low(a, 17), n);
    LowRoundTrip(a, 17, []);
    assert Take(Low(a, 17) + [], 17) == Low(a, 17);
    MagSignApart(Val16(Take(low, n)), data[0]);
  }

  lemma SeventeenBits(s: nat)
    requires 65536 <= s < 131072
    ensures MinBits(s) == 17 && Pow2(17) == 131072
  {
    hide MinBits, Pow2;
    Pow2Values();
    assert Pow2(17) == 2 * Pow2(16) by { PowTwice(16); }
    MinBitsBound(s, 16);
    MinBitsBound(s, 17);
  }

  lemma PowTwice(n: nat)
    ensures Pow2(n + 1) == 2 * Pow2(n)
  {
  }

  lemma StepLost(mode: Mode, data: seq<sint16>, kp: Param, krp: Param, tail: seq<bool>)
    requires data != [] && !PairFits(mode, data, kp)
    ensures var e := EncodeStep(mode, data, kp, krp);
            e.bits != [] && DecodeStep(mode, e.bits + tail, kp, krp).vals[0] != data[0]
  {
    hide EncodeRun, EncodeOne, EncodePair, DecodeRun, DecodeOne, DecodePair;
    PairLost(data, kp, krp, tail);
  }

  /** The first pair that does not fit is decoded wrongly, in its place. */
  lemma {:induction false} LostFrom(mode: Mode, data: seq<sint16>, kp: Param, krp: Param, pad: seq<bool>)
    requires !PairsFit(mode, data, kp)
    ensures var s := DecodeFrom(mode, EncodeFrom(mode, data, kp, krp) + pad, |data|, kp, krp);
            !(|s| >= |data| && s[..|data|] == data)
    decreases |data|
  {
    hide EncodeStep, DecodeStep, StepValues, PairFits, EncodeFrom, DecodeFrom, EndsInRunZero;
    var e := EncodeStep(mode, data, kp, krp);
    var more := data[e.used..];
    var tail := EncodeFrom(mode, more, e.kp, e.krp) + pad;
    var s := DecodeFrom(mode, EncodeFrom(mode, data, kp, krp) + pad, |data|, kp, krp);
    Unfold(mode, data, kp, krp, pad);
    if !PairFits(mode, data, kp) {
      StepLost(mode, data, kp, krp, tail);
      assert |s| >= |data| ==> s[..|data|][0] != data[0];
    } else {
      StepRoundTrip(mode, data, kp, krp, tail);
      StepKp(mode, data, kp, krp, 0);
      StepValuesAre(mode, data, kp);
      LostFrom(mode, more, e.kp, e.krp, pad);
      var s' := DecodeFrom(mode, tail, |more|, e.kp, e.krp);
      assert s == data[..e.used] + s' && |data| == e.used + |more|;
      assert s[e.used..] == s';
    }
  }

  // ---- Main results ----

  /** Main result: for every input whose pairs fit, and whatever follows the code in the buffer, decoding as many values
      as were encoded returns the input, except that a trailing zero met in run-length mode becomes 1. */
  lemma RoundTrip(mode: Mode, data: seq<sint16>, pad: seq<bool>)
    requires PairsFit(mode, data, 8)
    ensures EndsInRunZero(mode, data, 8) ==> data != []
    ensures Decode(mode, Encode(mode, data) + pad, |data|)
         == if EndsInRunZero(mode, data, 8) then data[|data| - 1 := 1] else data
  {
    RoundTripFrom(mode, data, 8, 8, pad);
  }

  /** For every input, the code is lossless exactly when every pair fits and no trailing zero is met in run-length
      mode. */
  lemma LosslessIff(mode: Mode, data: seq<sint16>, pad: seq<bool>)
    ensures Decode(mode, Encode(mode, data) + pad, |data|) == data
            <==> PairsFit(mode, data, 8) && !EndsInRunZero(mode, data, 8)
    ensures PairsFit(mode, data, 8) && data != [] && data[|data| - 1] != 0 ==>
        Decode(mode, Encode(mode, data) + pad, |data|) == data
  {
    hide EncodeFrom, DecodeFrom, EndsInRunZero, PairsFit;
    if !PairsFit(mode, data, 8) {
      LostFrom(mode, data, 8, 8, pad);
    } else {
      RoundTrip(mode, data, pad);
      if EndsInRunZero(mode, data, 8) {
        LastOfRunZero(mode, data, 8);
        assert data[|data| - 1 := 1][|data| - 1] == 1;
      }
    }
  }

  /** The pairs always fit in RLGR1, and in RLGR3 for values within -16383 .. 16383. */
  lemma {:induction false} SmallFit(mode: Mode, data: seq<sint16>, kp: Param)
    requires mode == RLGR1 || forall i :: 0 <= i < |data| ==> -16383 <= data[i] <= 16383
    ensures PairsFit(mode, data, kp)
    decreases |data|
  {
    hide EncodeStep;
    if data != [] {
      var e := EncodeStep(mode, data, kp, 0);
      SmallFit(mode, data[e.used..], e.kp);
    }
  }

  /** The shortest kind of input with a pair that does not fit. */
  lemma LargePairLost(pad: seq<bool>)
    ensures var data: seq<sint16> := [1, -32768, -32768];
            Decode(RLGR3, Encode(RLGR3, data) + pad, 3) != data
  {
    hide Encode, Decode, EndsInRunZero, GRCode, GRNext, Low;
    var data: seq<sint16> := [1, -32768, -32768];
    LosslessIff(RLGR3, data, pad);
    var e := EncodeStep(RLGR3, data, 8, 0);
    assert SplitRuns(0, 8) == Runs(0, 0, 8);
    assert e.used == 1 && e.kp == 2;
    assert data[1..] == [-32768, -32768];
    assert !PairFits(RLGR3, data[1..], 2);
  }

  lemma {:induction false} LastOfRunZero(mode: Mode, data: seq<sint16>, kp: Param)
    requires EndsInRunZero(mode, data, kp)
    ensures data != [] && data[|data| - 1] == 0
    decreases |data|
  {
    hide EncodeStep;
    var e := EncodeStep(mode, data, kp, 0);
    if e.used < |data| {
      LastOfRunZero(mode, data[e.used..], e.kp);
    }
  }

  /** The shortest input that does not survive. */
  lemma SingleZeroDecodesToOne(mode: Mode, pad: seq<bool>)
    ensures Decode(mode, Encode(mode, [0]) + pad, 1) == [1]
  {
    SmallFit(mode, [0], 8);
    RoundTrip(mode, [0], pad);
    assert EndsInRunZero(mode, [0], 8);
  }
}
