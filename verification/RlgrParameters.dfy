/** How the adaptive parameters move, and what the steps of the code are, in closed form and in numbers
    (section 3.1.8.1.7.3 of [MS-RDPRFX]; libfreerdp-codec/rfx_rlgr.c). */
module RlgrParameters {
  import opened Words
  import opened Bits
  import opened Rlgr
  import opened RlgrRoundTrip

  // ---- Runs ----

  /** The zeros of n full runs from kp on: the j-th stands for 2^(min(80, kp + 4j) / 8) of them. */
  function RunZeros(kp: nat, n: nat): nat
  {
    if n == 0 then 0 else RunZeros(kp, n - 1) + Pow2(Min(80, kp + 4 * (n - 1)) / 8)
  }

  lemma {:induction false} RunZerosFront(kp: Param, n: nat)
    requires n > 0
    ensures RunZeros(kp, n) == Pow2(kp / 8) + RunZeros(Min(80, kp + 4), n - 1)
    decreases n
  {
    if n > 1 {
      RunZerosFront(kp, n - 1);
      assert Min(80, kp + 4 * (n - 1)) == Min(80, Min(80, kp + 4) + 4 * (n - 2));
    } else {
      assert RunZeros(kp, 1) == RunZeros(kp, 0) + Pow2(Min(80, kp) / 8);
    }
  }

  /** Reading n zero bits and the one that ends them. */
  lemma {:induction false} RunsRead(kp: Param, n: nat, rest: seq<bool>)
    ensures ReadRuns(Repeat(false, n) + [true] + rest, kp) == RunRead(RunZeros(kp, n), rest, Min(80, kp + 4 * n))
    decreases n
  {
    hide Pow2;
    var b := Repeat(false, n) + [true] + rest;
    if n > 0 {
      assert b[1..] == Repeat(false, n - 1) + [true] + rest;
      RunsRead(Min(80, kp + 4), n - 1, rest);
      RunZerosFront(kp, n);
      assert Min(80, Min(80, kp + 4) + 4 * (n - 1)) == Min(80, kp + 4 * n);
    } else {
      assert b == [true] + rest;
    }
  }

  /** Splitting z zeros: as many full runs as fit, and what is left of them. */
  lemma {:induction false} RunsSplit(z: nat, kp: Param)
    ensures var r := SplitRuns(z, kp);
            && z == RunZeros(kp, r.count) + r.left && r.kp == Min(80, kp + 4 * r.count)
            && r.left < Pow2(Min(80, kp + 4 * r.count) / 8)
    decreases z
  {
    hide Pow2, SplitRuns, RunZeros;
    SplitUnfold(z, kp);
    if z >= Pow2(kp / 8) {
      var k, r := Min(80, kp + 4), SplitRuns(z, kp);
      RunsSplit(z - Pow2(kp / 8), k);
      RunZerosFront(kp, r.count);
      assert Min(80, k + 4 * (r.count - 1)) == Min(80, kp + 4 * r.count);
    } else {
      NoRuns(kp);
    }
  }

  lemma NoRuns(kp: nat)
    ensures RunZeros(kp, 0) == 0
  {
  }

  lemma SplitUnfold(z: nat, kp: Param)
    ensures Pow2(kp / 8) > 0
    ensures var p := Pow2(kp / 8);
            if z < p then SplitRuns(z, kp) == Runs(0, z, kp)
            else
              var r := SplitRuns(z - p, Min(80, kp + 4));
              SplitRuns(z, kp) == r.(count := r.count + 1)
  {
    hide Pow2;
    PowPositive(kp / 8);
  }

  lemma PowPositive(n: nat)
    ensures Pow2(n) > 0
  {
  }

  // ---- The other moves ----

  /** krp after a code whose quotient is vk. */
  function KrpAfter(krp: int, vk: int): int
  {
    if vk == 0 then Max(0, krp - 2) else if vk == 1 then krp else Min(80, krp + vk)
  }

  lemma CodeMoves(krp: Param, val: nat)
    ensures Pow2(krp / 8) > 0 && val / Pow2(krp / 8) >= 0
    ensures GRNext(krp, val) == KrpAfter(krp, val / Pow2(krp / 8))
    ensures GRCode(krp, val) == Repeat(true, val / Pow2(krp / 8)) + [false] + Low(val, krp / 8)
  {
    hide Shr, Shl, Low, LowBits, Pow2;
    ShrIsQuotient(val, krp / 8);
    ShrLow(val, krp / 8);
  }

  lemma ShrIsQuotient(val: nat, k: nat)
    ensures Pow2(k) > 0 && val / Pow2(k) >= 0 && Shr(val, k) == val / Pow2(k)
  {
    hide Shr, Shl, LowBits;
    ShrLow(val, k);
    ShlIsTimes(Shr(val, k), k);
    Quotient(val, Shr(val, k), LowBits(val, k), Pow2(k));
  }

  lemma Quotient(v: nat, q: int, r: nat, p: nat)
    requires v == q * p + r && r < p
    ensures v / p == q
  {
    var d, s := v / p, v % p;
    assert v == d * p + s;
    Apart(d, q, p, s, r);
  }

  lemma Apart(d: int, q: int, p: nat, s: nat, r: nat)
    requires d * p + s == q * p + r && s < p && r < p
    ensures d == q
  {
    assert (d - q) * p == r - s;
    if d > q {
      Grows(d - q, p);
    } else if d < q {
      Grows(q - d, p);
    }
  }

  lemma Grows(n: int, p: nat)
    requires n >= 1
    ensures n * p >= p
  {
    assert n * p == p + (n - 1) * p;
  }

  // ---- Whole steps ----

  /** The value behind the run is coded as its magnitude less one; a zero there counts as one. */
  function RunCode(v: int): nat { if v > 0 then v - 1 else if v < 0 then -v - 1 else 0 }

  /** A run step of the encoder: c full runs, the rest of the zeros in kp' / 8 bits, a sign and a code; kp falls by
      6. */
  lemma RunStepIs(mode: Mode, data: seq<sint16>, kp: Param, krp: Param)
    requires data != [] && kp >= 8
    ensures var e, z := EncodeStep(mode, data, kp, krp), ZeroRun(data);
            var c := SplitRuns(z, kp).count;
            var kp' := Min(80, kp + 4 * c);
            && RunZeros(kp, c) <= z < RunZeros(kp, c + 1) && e.used == z + 1
            && e.bits == Repeat(false, c) + [true] + Low(z - RunZeros(kp, c), kp' / 8) + [data[z] < 0]
                         + GRCode(krp, RunCode(data[z]))
            && e.kp == Max(0, kp' - 6) && e.krp == GRNext(krp, RunCode(data[z]))
  {
    hide GRCode, GRNext, Low, Repeat, ZeroRun, SplitRuns, Pow2;
    RunsSplit(ZeroRun(data), kp);
    var c := SplitRuns(ZeroRun(data), kp).count;
    assert RunZeros(kp, c + 1) == RunZeros(kp, c) + Pow2(Min(80, kp + 4 * c) / 8);
  }

  /** A single value moves kp up by 3 when it is zero and down by 3 otherwise. */
  lemma ValueStepIs(data: seq<sint16>, kp: Param, krp: Param)
    requires data != [] && kp < 8
    ensures var e := EncodeStep(RLGR1, data, kp, krp);
            var t := if data[0] >= 0 then 2 * data[0] as int else -2 * data[0] as int - 1;
            && e.used == 1 && e.bits == GRCode(krp, t) && e.krp == GRNext(krp, t)
            && e.kp == if data[0] == 0 then kp + 3 else Max(0, kp - 3)
  {
    hide GRCode, GRNext;
  }

  /** A pair moves it up by 6 when both are zero, down by 6 when neither is, and not otherwise. */
  lemma PairStepIs(data: seq<sint16>, kp: Param, krp: Param)
    requires data != [] && kp < 8
    ensures var e, u, v := EncodeStep(RLGR3, data, kp, krp), data[0], if |data| > 1 then data[1] else 0;
            var a := if u >= 0 then 2 * u as int else -2 * u as int - 1;
            var b := if v >= 0 then 2 * v as int else -2 * v as int - 1;
            && e.used == (if |data| > 1 then 2 else 1)
            && e.bits == GRCode(krp, a + b) + Low(a, MinBits(a + b)) && e.krp == GRNext(krp, a + b)
            && e.kp == if u == 0 && v == 0 then kp + 6 else if u != 0 && v != 0 then Max(0, kp - 6) else kp
  {
    hide GRCode, GRNext, Low, MinBits;
  }

  // ---- The decoder's steps ----

  /** On n zero bits and a one, the decoder's run step stands for RunZeros zeros and leaves kp 6 below min(80, kp +
      4n). */
  lemma RunReadIs(mode: Mode, n: nat, rest: seq<bool>, kp: Param, krp: Param)
    requires kp >= 8
    ensures var d := DecodeStep(mode, Repeat(false, n) + [true] + rest, kp, krp);
            var k := Min(80, kp + 4 * n);
            var left, after := Val(Take(rest, k / 8)), Drop(rest, k / 8);
            var g := ReadGR(Drop(after, 1), krp);
            var mag := g.mag as int + 1;
            && d.kp == Max(0, k - 6) && d.krp == g.krp && d.rest == g.rest
            && d.vals == Zeros(RunZeros(kp, n) + left)
                         + [ToS16(if after != [] && after[0] then -mag else mag)]
  {
    hide ReadRuns, ReadGR, Val, Take, Drop, ToS16, Repeat;
    RunsRead(kp, n, rest);
    var k := Min(80, kp + 4 * n);
    TakeOne(Drop(rest, k / 8));
    var left := Val(Take(rest, k / 8));
    assert Zeros(RunZeros(kp, n)) + Zeros(left) == Zeros(RunZeros(kp, n) + left);
  }

  lemma ValueReadIs(bits: seq<bool>, kp: Param, krp: Param)
    requires bits != [] && kp < 8
    ensures var d, g := DecodeStep(RLGR1, bits, kp, krp), ReadGR(bits, krp);
            && d.kp == (if g.mag == 0 then kp + 3 else Max(0, kp - 3)) && d.krp == g.krp && d.rest == g.rest
            && d.vals == [if g.mag == 0 then 0 else From2MagSign(g.mag)]
  {
    hide ReadGR, From2MagSign;
  }

  lemma PairReadIs(bits: seq<bool>, kp: Param, krp: Param)
    requires bits != [] && kp < 8
    ensures var d, g := DecodeStep(RLGR3, bits, kp, krp), ReadGR(bits, krp);
            var a := Val(Take(g.rest, MinBits(g.mag)));
            && a < 65536 && d.krp == g.krp && d.rest == Drop(g.rest, MinBits(g.mag))
            && d.kp == (if a == 0 && g.mag == 0 then kp + 6 else if a != 0 && g.mag != a then Max(0, kp - 6) else kp)
            && d.vals == [From2MagSign(a), From2MagSign(ToU32(g.mag as int - a))]
  {
    hide ReadGR, From2MagSign, MinBits, Val, Take;
    MinBits16(ReadGR(bits, krp).mag);
  }

  /** A Golomb-Rice code read from a quotient of vk ones: the value, and krp by -2, 0 or +vk. */
  lemma CodeRead(krp: Param, vk: nat, rest: seq<bool>)
    ensures var g := ReadGR(Repeat(true, vk) + [false] + rest, krp);
            && g.krp == KrpAfter(krp, vk) && g.rest == Drop(rest, krp / 8)
            && g.mag == (vk * Pow2(krp / 8) + Val(Take(rest, krp / 8))) % 65536
  {
    hide Unary, Pow2, Val, Shl, Or;
    var b := Repeat(true, vk) + [false] + rest;
    assert b == Repeat(true, vk) + ([false] + rest);
    UnaryOfRepeat(vk, [false] + rest);
    assert Drop(b, vk + 1) == rest;
    var k := krp / 8;
    ValBound(Take(rest, k));
    TakeBound(rest, k);
    OrDisjoint(vk, Val(Take(rest, k)), k);
    OrCommutes(Shl(vk, k), Val(Take(rest, k)));
    ShlIsTimes(vk, k);
  }

  lemma TakeBound(b: seq<bool>, k: nat)
    ensures Val(Take(b, k)) < Pow2(k)
  {
    hide Val, Pow2;
    ValBound(Take(b, k));
    Pow2Mono(|Take(b, k)|, k);
  }

  /** Both parameters start at 8 on both sides. */
  lemma Starts(mode: Mode, data: seq<sint16>, bits: seq<bool>, size: nat)
    ensures Encode(mode, data) == EncodeFrom(mode, data, 8, 8)
    ensures Decode(mode, bits, size) == TakeValues(DecodeFrom(mode, bits, size, 8, 8), size)
  {
  }

  // ---- Numbers ----

  /** Five zeros and a one make the byte 0x28, in either mode; and the other way round. */
  lemma FiveZerosAndOne(mode: Mode)
    ensures Encode(mode, [0, 0, 0, 0, 0, 1]) == [false, false, true, false, true, false, false, false]
    ensures OfBytes([0x28]) == [false, false, true, false, true, false, false, false]
    ensures Decode(mode, OfBytes([0x28]), 6) == [0, 0, 0, 0, 0, 1]
  {
    hide EncodeFrom, Decode, PairsFit, EndsInRunZero;
    var data: seq<sint16> := [0, 0, 0, 0, 0, 1];
    FiveZerosCode(mode, data);
    FiveZerosByte();
    SmallFit(mode, data, 8);
    LosslessIff(mode, data, []);
    assert Encode(mode, data) + [] == Encode(mode, data);
  }

  lemma FiveZerosSplit()
    ensures SplitRuns(5, 8) == Runs(2, 1, 16) && RunZeros(8, 2) == 4
  {
    assert Pow2(1) == 2 && Pow2(2) == 4;
    assert SplitRuns(1, 16) == Runs(0, 1, 16);
    assert SplitRuns(3, 12) == Runs(1, 1, 16);
    assert RunZeros(8, 1) == 2;
  }

  lemma FiveZeros(data: seq<sint16>)
    requires data == [0, 0, 0, 0, 0, 1]
    ensures ZeroRun(data) == 5
  {
    assert data[5] == 1 && forall i :: 0 <= i < 5 ==> data[i] == 0;
  }

  lemma FiveZerosBits()
    ensures Low(1, 2) == [false, true] && Low(0, 1) == [false]
  {
    assert Low(0, 1) == Low(0, 0) + [false];
    assert Low(1, 2) == Low(0, 1) + [true];
  }

  lemma FiveZerosCode(mode: Mode, data: seq<sint16>)
    requires data == [0, 0, 0, 0, 0, 1]
    ensures EncodeFrom(mode, data, 8, 8) == [false, false, true, false, true, false, false, false]
  {
    hide EncodeStep, SplitRuns, Low, GRCode, ZeroRun, RunZeros, Pow2;
    FiveZeros(data);
    FiveZerosSplit();
    FiveZerosBits();
    RunStepIs(mode, data, 8, 8);
    CodeMoves(8, 0);
    var e := EncodeStep(mode, data, 8, 8);
    assert 0 / Pow2(1) == 0;
    assert GRCode(8, 0) == [] + [false] + [false];
    assert Repeat(false, 2) == [false, false];
    assert e.bits == [false, false] + [true] + [false, true] + [false] + [false, false];
    assert data[6..] == [] && EncodeFrom(mode, data[6..], e.kp, e.krp) == [];
  }

  lemma FiveZerosByte()
    ensures OfBytes([0x28]) == [false, false, true, false, true, false, false, false]
  {
    assert [0x28][1..] == [];
    assert OfBytes([0x28]) == Low(0x28, 8) + OfBytes([]);
    assert Low(1, 3) == Low(0, 2) + [true] && Low(0, 2) == Low(0, 1) + [false] && Low(0, 1) == Low(0, 0) + [false];
    assert Low(2, 4) == Low(1, 3) + [false];
    assert Low(5, 5) == Low(2, 4) + [true];
    assert Low(20, 7) == Low(10, 6) + [false] && Low(10, 6) == Low(5, 5) + [false];
    assert Low(40, 8) == Low(20, 7) + [false];
  }
}
