/** How long the RLGR code can be (libfreerdp-codec/rfx_rlgr.c): an amortized bound, since a single value may take
    thousands of bits but then raises the parameters for the values behind it. */
module RlgrLength {
  import opened Words
  import opened Bits
  import opened Rlgr

  /** What a value is above the range that the bound covers. */
  function Above(t: nat, cap: nat): nat { if t > cap then t - cap else 0 }

  function Excess(v: sint16): nat { Above(To2MagSign(v), 2048) }

  function SumExcess(data: seq<sint16>): nat { if data == [] then 0 else Excess(data[0]) + SumExcess(data[1..]) }

  // ---- One Golomb-Rice code ----

  lemma QuotientBound(val: nat, k: nat)
    ensures 0 <= Shr(val, k) && Shr(val, k) * Pow2(k) <= val < (Shr(val, k) + 1) * Pow2(k)
  {
    hide Shr, Shl, LowBits, Pow2;
    ShrLow(val, k);
    ShlIsTimes(Shr(val, k), k);
  }

  lemma CodeLength(krp: Param, val: nat)
    ensures Shr(val, K(krp)) >= 0 && |GRCode(krp, val)| == Shr(val, K(krp)) + 1 + K(krp)
  {
    hide Shr, Low, Repeat;
    ShrLow(val, K(krp));
  }

  /** A quotient that lifts the parameter to its top is paid for by the lift. */
  lemma TopQuotient(krp: Param, val: nat, vk: nat, cap: nat, s: nat)
    requires (cap == 2048 && s == 28) || (cap == 4096 && s == 55)
    requires vk * Pow2(K(krp)) <= val
    ensures vk + 18 + K(krp) <= 21 + 2 * s + s * (80 - krp) + Above(val, cap)
  {
    TenPowers();
    var k := K(krp);
    if k == 0 {
    } else if k == 1 {
      assert vk * 2 <= val;
    } else if k == 2 {
      assert vk * 4 <= val;
    } else if k == 3 {
      assert vk * 8 <= val;
    } else if k == 4 {
      assert vk * 16 <= val;
    } else if k == 5 {
      assert vk * 32 <= val;
    } else if k == 6 {
      assert vk * 64 <= val;
    } else if k == 7 {
      assert vk * 128 <= val;
    } else if k == 8 {
      assert vk * 256 <= val;
    } else if k == 9 {
      assert vk * 512 <= val;
    } else {
      assert vk * 1024 <= val;
    }
  }

  lemma TenPowers()
    ensures Pow2(0) == 1 && Pow2(1) == 2 && Pow2(2) == 4 && Pow2(3) == 8 && Pow2(4) == 16 && Pow2(5) == 32
    ensures Pow2(6) == 64 && Pow2(7) == 128 && Pow2(8) == 256 && Pow2(9) == 512 && Pow2(10) == 1024
  {
    Pow2Values();
    assert Pow2(10) == 2 * Pow2(9) && Pow2(9) == 2 * Pow2(8);
    assert Pow2(8) == 2 * Pow2(7) && Pow2(7) == 2 * Pow2(6) && Pow2(6) == 2 * Pow2(5) && Pow2(5) == 2 * Pow2(4);
  }

  // ---- What one step costs beyond what it takes from the parameters ----

  /** What a unit of krp below its top, and a unit of kp, are worth in bits. */
  function KrpWorth(mode: Mode): nat { if mode == RLGR1 then 28 else 55 }

  function KpWorth(mode: Mode): nat { if mode == RLGR1 then 1 else 7 }

  /** Bits for each value. */
  function PerValue(mode: Mode): nat { if mode == RLGR1 then 73 else 91 }

  function Cap(mode: Mode): nat { if mode == RLGR1 then 2048 else 4096 }

  function Saved(mode: Mode, kp: Param, krp: Param): nat { KrpWorth(mode) * (80 - krp) + KpWorth(mode) * kp }

  /** The code of a value; the second clause leaves room for what a pair adds to it. */
  lemma CodeCost(mode: Mode, krp: Param, val: nat)
    ensures var s, n := KrpWorth(mode), |GRCode(krp, val)| as int;
            && n + s * (80 - GRNext(krp, val)) <= 11 + 2 * s + s * (80 - krp) + Above(val, Cap(mode))
            && (val >= Pow2(K(krp)) ==>
                n + 17 + s * (80 - GRNext(krp, val)) <= 21 + 2 * s + s * (80 - krp) + Above(val, Cap(mode)))
  {
    hide GRCode, Pow2, Shr;
    CodeLength(krp, val);
    QuotientBound(val, K(krp));
    var vk := Shr(val, K(krp));
    TopQuotient(krp, val, vk, Cap(mode), KrpWorth(mode));
    NextIs(krp, val);
    if val >= Pow2(K(krp)) { QuotientPositive(val, vk, Pow2(K(krp))); }
    ParamCost(KrpWorth(mode), krp, vk, K(krp));
  }

  lemma NextIs(krp: Param, val: nat)
    ensures Shr(val, K(krp)) >= 0 && GRNext(krp, val) == NextKrp(krp, Shr(val, K(krp)))
  {
    hide Shr;
    ShrLow(val, K(krp));
  }

  lemma QuotientPositive(val: nat, vk: nat, p: nat)
    requires val >= p && val < (vk + 1) * p
    ensures vk >= 1
  {
    assert (0 + 1) * p == p;
  }

  /** Unless the parameter reaches its top, a quotient costs at most what it lifts the parameter by. */
  lemma ParamCost(s: nat, krp: Param, vk: nat, k: nat)
    requires (s == 28 || s == 55) && k <= 10
    ensures var r := NextKrp(krp, vk);
            && (vk == 0 ==> vk + 1 + k + s * (80 - r) <= 11 + 2 * s + s * (80 - krp))
            && (vk == 1 ==> vk + 18 + k + s * (80 - r) <= 21 + 2 * s + s * (80 - krp))
            && (vk > 1 && krp + vk <= 80 ==> vk + 18 + k + s * (80 - r) <= 21 + 2 * s + s * (80 - krp))
            && (vk > 1 && krp + vk > 80 ==> r == 80)
  {
  }

  lemma {:induction false} RunsCost(z: nat, kp: Param)
    requires K(kp) >= 1
    ensures var r := SplitRuns(z, kp); 2 * r.count <= z && kp <= r.kp <= kp + 4 * r.count
    decreases z
  {
    TenPowers();
    Pow2Mono(1, K(kp));
    if z >= Pow2(K(kp)) { RunsCost(z - Pow2(K(kp)), Update(kp, UP_GR)); }
  }

  /** The cost of a step: its bits and what the parameters are worth after it. */
  predicate Paid(mode: Mode, e: EncStep, kp: Param, krp: Param, values: nat, excess: nat)
  {
    |e.bits| + Saved(mode, e.kp, e.krp) <= PerValue(mode) * values + Saved(mode, kp, krp) + excess
  }

  lemma RunPaid(mode: Mode, data: seq<sint16>, kp: Param, krp: Param)
    requires data != [] && K(kp) != 0
    ensures var e := EncodeRun(data, kp, krp); Paid(mode, e, kp, krp, e.used, Excess(data[e.used - 1]))
  {
    hide SplitRuns, GRCode, GRNext, Low, Repeat, ZeroRun, Update, KrpWorth, KpWorth, PerValue, Above, Cap;
    var z := ZeroRun(data);
    var v: int := data[z];
    var mag := if v < 0 then -v else v;
    var code := if mag != 0 then mag - 1 else 0;
    RunsCost(z, kp);
    CodeCost(mode, krp, code);
    RunTotal(mode, SplitRuns(z, kp), z, kp);
    LessAbove(mode, code, To2MagSign(v));
  }

  lemma LessAbove(mode: Mode, code: nat, t: nat)
    requires code <= t
    ensures Above(code, Cap(mode)) <= Above(t, 2048)
  {
  }

  lemma RunTotal(mode: Mode, r: Runs, z: nat, kp: Param)
    requires K(kp) != 0 && 2 * r.count <= z && kp <= r.kp <= kp + 4 * r.count
    ensures var s := KrpWorth(mode);
            r.count + 12 + 11 + 2 * s + KpWorth(mode) * Update(r.kp, -DN_GR) <= PerValue(mode) * (z + 1)
                + KpWorth(mode) * kp
  {
  }

  lemma OnePaid(data: seq<sint16>, kp: Param, krp: Param)
    requires data != []
    ensures Paid(RLGR1, EncodeOne(data, kp, krp), kp, krp, 1, Excess(data[0]))
  {
    hide GRCode, GRNext;
    CodeCost(RLGR1, krp, To2MagSign(data[0]));
  }

  lemma PairPaid(data: seq<sint16>, kp: Param, krp: Param)
    requires data != []
    ensures Paid(RLGR3, EncodePair(data, kp, krp), kp, krp, 2, Excess(data[0]) + Excess(Second(data)))
  {
    hide GRCode, GRNext, Low, MinBits, Pow2, Above, NextKpPair, Cap;
    var a, b := To2MagSign(data[0]), To2MagSign(Second(data));
    CodeCost(RLGR3, krp, a + b);
    PairBits(a + b, K(krp));
    AboveSum(a, b);
    PairKp(kp, a, b);
  }

  lemma AboveSum(a: nat, b: nat)
    ensures Above(a + b, Cap(RLGR3)) <= Above(a, 2048) + Above(b, 2048)
  {
  }

  lemma PairKp(kp: Param, a: nat, b: nat)
    ensures NextKpPair(kp, a, b) <= kp + 6
  {
  }

  lemma PairBits(val: nat, k: nat)
    requires val <= 131070 && k <= 10
    ensures MinBits(val) <= 17 && (val < Pow2(k) ==> MinBits(val) <= 10)
  {
    hide MinBits, Pow2;
    Pow2Mono(k, 10);
    MinBitsBound(val, 10);
    MinBitsBound(val, 17);
    assert Pow2(17) == 131072 by { Pow2Values(); Twice(16); }
  }

  lemma Twice(n: nat)
    ensures Pow2(n + 1) == 2 * Pow2(n)
  {
  }

  // ---- Whole inputs ----

  lemma {:induction false} ExcessBehind(data: seq<sint16>, i: nat)
    requires i < |data|
    ensures Excess(data[i]) + SumExcess(data[i + 1..]) <= SumExcess(data)
    decreases i
  {
    hide Excess;
    if i > 0 {
      ExcessBehind(data[1..], i - 1);
      assert data[1..][i..] == data[i + 1..];
    }
  }

  lemma ExcessOfPair(data: seq<sint16>)
    requires data != []
    ensures Excess(data[0]) + Excess(Second(data)) + SumExcess(data[Min(2, |data|)..]) <= SumExcess(data)
  {
    if |data| > 1 {
      assert data[1..][1..] == data[2..];
    }
  }

  lemma StepPaid(mode: Mode, data: seq<sint16>, kp: Param, krp: Param)
    requires data != []
    ensures var e := EncodeStep(mode, data, kp, krp);
            |e.bits| + Saved(mode, e.kp, e.krp) + PerValue(mode) * |data[e.used..]| + SumExcess(data[e.used..])
            <= PerValue(mode) * (|data| + (if e.used == |data| then 1 else 0)) + Saved(mode, kp, krp) + SumExcess(data)
  {
    hide EncodeRun, EncodeOne, EncodePair, SumExcess, Excess, Saved;
    if K(kp) != 0 {
      RunPaid(mode, data, kp, krp);
      ExcessBehind(data, EncodeRun(data, kp, krp).used - 1);
    } else if mode == RLGR1 {
      OnePaid(data, kp, krp);
      OneUsed(data, kp, krp);
      ExcessBehind(data, 0);
    } else {
      PairPaid(data, kp, krp);
      PairUsed(data, kp, krp);
      ExcessOfPair(data);
    }
  }

  lemma OneUsed(data: seq<sint16>, kp: Param, krp: Param)
    requires data != []
    ensures EncodeOne(data, kp, krp).used == 1
  {
    hide GRCode, GRNext;
  }

  lemma PairUsed(data: seq<sint16>, kp: Param, krp: Param)
    requires data != []
    ensures EncodePair(data, kp, krp).used == Min(2, |data|)
  {
    hide GRCode, GRNext, Low, MinBits;
  }

  lemma {:induction false} LengthFrom(mode: Mode, data: seq<sint16>, kp: Param, krp: Param)
    ensures |EncodeFrom(mode, data, kp, krp)| <= PerValue(mode) * (|data| + 1) + Saved(mode, kp, krp) + SumExcess(data)
    decreases |data|
  {
    hide EncodeStep, Saved, SumExcess;
    if data != [] {
      var e := EncodeStep(mode, data, kp, krp);
      StepPaid(mode, data, kp, krp);
      if e.used < |data| {
        LengthFrom(mode, data[e.used..], e.kp, e.krp);
      } else {
        NoMore(mode, e.kp, e.krp);
      }
    }
  }

  lemma NoMore(mode: Mode, kp: Param, krp: Param)
    ensures EncodeFrom(mode, [], kp, krp) == []
  {
  }

  /** Main result: for every input, the code takes no more than 73 (RLGR1) or 91 (RLGR3) bits for each value and one
      value more, 4016 bits, and what the doubled magnitudes are above 2048. */
  lemma LengthBound(mode: Mode, data: seq<sint16>)
    ensures |Encode(mode, data)| <= PerValue(mode) * (|data| + 1) + 4016 + SumExcess(data)
  {
    hide EncodeFrom, SumExcess;
    LengthFrom(mode, data, 8, 8);
  }

  lemma {:induction false} ExcessTail(data: seq<sint16>, n: nat)
    requires n <= |data| && (forall i :: 0 <= i < n ==> Excess(data[i]) == 0) && forall i :: 0 <= i < |data| ==>
        Excess(data[i]) <= 2048
    ensures SumExcess(data) <= 2048 * (|data| - n)
    decreases |data|
  {
    hide Excess;
    if data != [] { ExcessTail(data[1..], if n == 0 then 0 else n - 1); }
  }

  // ---- Inputs with a long code ----

  lemma LongCode(krp: Param, val: nat)
    requires val >= 255
    ensures |GRCode(krp, val)| >= 9
  {
    hide GRCode, Pow2, Shr;
    CodeLength(krp, val);
    QuotientBound(val, K(krp));
    LongQuotient(Shr(val, K(krp)), K(krp));
  }

  lemma LongQuotient(vk: nat, k: nat)
    requires k <= 10 && (vk + 1) * Pow2(k) > 255
    ensures vk + 1 + k >= 9
  {
    if k < 8 {
      Pow2Mono(k, 7);
      TenPowers();
      if k == 0 {
      } else if k == 1 {
        assert (vk + 1) * 2 > 255;
      } else if k == 2 {
        assert (vk + 1) * 4 > 255;
      } else if k == 3 {
        assert (vk + 1) * 8 > 255;
      } else if k == 4 {
        assert (vk + 1) * 16 > 255;
      } else if k == 5 {
        assert (vk + 1) * 32 > 255;
      } else if k == 6 {
        assert (vk + 1) * 64 > 255;
      } else {
        assert (vk + 1) * 128 > 255;
      }
    }
  }

  predicate Noisy(data: seq<sint16>) { forall i :: 0 <= i < |data| ==> data[i] <= -256 || data[i] >= 256 }

  lemma NoisyStep(mode: Mode, data: seq<sint16>, kp: Param, krp: Param)
    requires data != [] && Noisy(data)
    ensures var e := EncodeStep(mode, data, kp, krp); |e.bits| >= 9 * e.used
  {
    hide GRCode, GRNext, SplitRuns, Low, MinBits, Repeat;
    assert data[0] != 0;
    if K(kp) != 0 {
      LongCode(krp, (if data[0] < 0 then -(data[0] as int) else data[0]) - 1);
    } else if mode == RLGR1 {
      LongCode(krp, To2MagSign(data[0]));
    } else {
      var val := To2MagSign(data[0]) + To2MagSign(Second(data));
      LongCode(krp, val);
      MinBitsBound(val, 8);
      Pow2Values();
    }
  }

  /** Nine bits or more for each value when all have magnitudes from 256 on. */
  lemma {:induction false} NoisyFrom(mode: Mode, data: seq<sint16>, kp: Param, krp: Param)
    requires Noisy(data)
    ensures |EncodeFrom(mode, data, kp, krp)| >= 9 * |data|
    decreases |data|
  {
    hide EncodeStep;
    if data != [] {
      NoisyStep(mode, data, kp, krp);
      NoisyFrom(mode, data[EncodeStep(mode, data, kp, krp).used..], EncodeStep(mode, data, kp, krp).kp,
          EncodeStep(mode, data, kp, krp).krp);
    }
  }

  /** 4096 such values do not fit into 4096 bytes. */
  lemma NoisyLong(mode: Mode, data: seq<sint16>)
    requires Noisy(data) && |data| == 4096
    ensures |Encode(mode, data)| > 8 * 4096
  {
    hide EncodeFrom;
    NoisyFrom(mode, data, 8, 8);
  }
}
