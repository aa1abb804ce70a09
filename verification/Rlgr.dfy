/** The adaptive run-length / Golomb-Rice code as functions between coefficient and bit sequences
    (section 3.1.8.1.7.3 of [MS-RDPRFX]; libfreerdp-codec/rfx_rlgr.c).
    k and kr are not stored: they are always kp >> LSGR and krp >> LSGR. */
module Rlgr {
  import opened Words
  import opened Bits

  datatype Mode = RLGR1 | RLGR3

  const KPMAX := 80
  const UP_GR := 4
  const DN_GR := 6
  const UQ_GR := 3
  const DQ_GR := 3

  type Param = p: int | 0 <= p <= 80

  /** `UpdateParam`: add and clamp to 0 .. KPMAX. */
  function Update(p: Param, d: int): Param
  {
    var q := if p + d > KPMAX then KPMAX else p + d;
    if q < 0 then 0 else q
  }

  /** `param >> LSGR` */
  function K(p: Param): (k: nat)
    ensures k <= 10
  {
    p / 8
  }

  /** krp after a code whose unary part counted vk ones. */
  function NextKrp(krp: Param, vk: nat): Param
  {
    if vk == 0 then Update(krp, -2) else if vk > 1 then Update(krp, vk) else krp
  }

  /** kp after a pair of RLGR3 values. */
  function NextKpPair(kp: Param, a: nat, b: nat): Param
  {
    if a != 0 && b != 0 then Update(kp, -2 * DQ_GR)
    else if a == 0 && b == 0 then Update(kp, 2 * UQ_GR)
    else kp
  }

  /** 2 * |v| - sign */
  function To2MagSign(v: int): nat { if v >= 0 then 2 * v else -2 * v - 1 }

  function From2MagSign(t: uint32): sint16
  {
    if t % 2 == 1 then ToS16(-(ToS16(ToU32(t + 1) / 2) as int)) else ToS16(t / 2)
  }

  function Zeros(n: nat): (z: seq<sint16>)
    ensures |z| == n && forall i :: 0 <= i < n ==> z[i] == 0
  {
    seq(n, _ => 0)
  }

  function TakeValues(s: seq<sint16>, n: nat): seq<sint16> { if n <= |s| then s[..n] else s }

  // ---- Encoder ----

  /** The code of val: a unary quotient, then kr low bits. */
  function GRCode(krp: Param, val: nat): seq<bool>
  {
    ShrLow(val, K(krp));
    Repeat(true, Shr(val, K(krp))) + [false] + Low(val, K(krp))
  }

  function GRNext(krp: Param, val: nat): Param
  {
    ShrLow(val, K(krp));
    NextKrp(krp, Shr(val, K(krp)))
  }

  /** Zeros in front of the value that ends a run; the last input always ends its run. */
  function ZeroRun(data: seq<sint16>): (z: nat)
    requires data != []
    ensures z < |data| && forall i :: 0 <= i < z ==> data[i] == 0
    ensures data[z] == 0 ==> z == |data| - 1
  {
    if data[0] == 0 && |data| > 1 then 1 + ZeroRun(data[1..]) else 0
  }

  /** Full runs in z zeros: their number, and what they leave of the zeros and kp. */
  datatype Runs = Runs(count: nat, left: nat, kp: Param)

  function SplitRuns(z: nat, kp: Param): (r: Runs)
    ensures r.left <= z && r.left < Pow2(K(r.kp))
  {
    if z < Pow2(K(kp)) then Runs(0, z, kp)
    else
      var r := SplitRuns(z - Pow2(K(kp)), Update(kp, UP_GR));
      r.(count := r.count + 1)
  }

  datatype EncStep = EncStep(bits: seq<bool>, used: nat, kp: Param, krp: Param)

  function EncodeRun(data: seq<sint16>, kp: Param, krp: Param): (e: EncStep)
    requires data != []
    ensures 0 < e.used <= |data|
  {
    var z := ZeroRun(data);
    var v: int := data[z];
    var r := SplitRuns(z, kp);
    var mag := if v < 0 then -v else v;
    var code := if mag != 0 then mag - 1 else 0;
    EncStep(
      Repeat(false, r.count) + [true] + Low(r.left, K(r.kp)) + [v < 0] + GRCode(krp, code),
      z + 1, Update(r.kp, -DN_GR), GRNext(krp, code))
  }

  function EncodeOne(data: seq<sint16>, kp: Param, krp: Param): (e: EncStep)
    requires data != []
    ensures 0 < e.used <= |data|
  {
    var t := To2MagSign(data[0]);
    EncStep(GRCode(krp, t), 1, Update(kp, if t != 0 then -DQ_GR else UQ_GR), GRNext(krp, t))
  }

  /** The second value of a pair; 0 past the end of the input. */
  function Second(data: seq<sint16>): sint16 { if |data| > 1 then data[1] else 0 }

  function EncodePair(data: seq<sint16>, kp: Param, krp: Param): (e: EncStep)
    requires data != []
    ensures 0 < e.used <= |data|
  {
    var a, b := To2MagSign(data[0]), To2MagSign(Second(data));
    EncStep(GRCode(krp, a + b) + Low(ToU16(a), MinBits(a + b)), Min(2, |data|),
            NextKpPair(kp, a, b), GRNext(krp, a + b))
  }

  function EncodeStep(mode: Mode, data: seq<sint16>, kp: Param, krp: Param): (e: EncStep)
    requires data != []
    ensures 0 < e.used <= |data|
  {
    if K(kp) != 0 then EncodeRun(data, kp, krp)
    else if mode == RLGR1 then EncodeOne(data, kp, krp)
    else EncodePair(data, kp, krp)
  }

  function EncodeFrom(mode: Mode, data: seq<sint16>, kp: Param, krp: Param): seq<bool>
    decreases |data|
  {
    if data == [] then []
    else
      var e := EncodeStep(mode, data, kp, krp);
      e.bits + EncodeFrom(mode, data[e.used..], e.kp, e.krp)
  }

  function Encode(mode: Mode, data: seq<sint16>): seq<bool> { EncodeFrom(mode, data, 8, 8) }

  // ---- Decoder ----

  /** Leading ones. */
  function Unary(bits: seq<bool>): (n: nat)
    ensures n <= |bits|
  {
    if bits != [] && bits[0] then 1 + Unary(bits[1..]) else 0
  }

  datatype GR = GR(mag: uint16, rest: seq<bool>, krp: Param)

  function ReadGR(bits: seq<bool>, krp: Param): (g: GR)
    ensures |g.rest| <= |bits|
    ensures bits != [] ==> |g.rest| < |bits|
  {
    var vk := Unary(bits);
    var after := Drop(bits, vk + 1);
    GR(ToU16(Or(Val(Take(after, K(krp))), Shl(vk, K(krp)))), Drop(after, K(krp)), NextKrp(krp, vk))
  }

  /** Run bits up to and including the 1 that ends them: the zeros they stand for. */
  datatype RunRead = RunRead(zeros: nat, rest: seq<bool>, kp: Param)

  function ReadRuns(bits: seq<bool>, kp: Param): (r: RunRead)
    ensures |r.rest| <= |bits|
    ensures bits != [] ==> |r.rest| < |bits|
  {
    if bits == [] then RunRead(0, [], kp)
    else if bits[0] then RunRead(0, bits[1..], kp)
    else
      var r := ReadRuns(bits[1..], Update(kp, UP_GR));
      r.(zeros := Pow2(K(kp)) + r.zeros)
  }

  datatype DecStep = DecStep(vals: seq<sint16>, rest: seq<bool>, kp: Param, krp: Param)

  function DecodeRun(bits: seq<bool>, kp: Param, krp: Param): (d: DecStep)
    requires bits != []
    ensures |d.rest| < |bits| && d.vals != []
  {
    var r := ReadRuns(bits, kp);
    var run := Val(Take(r.rest, K(r.kp)));
    var rest := Drop(r.rest, K(r.kp));
    var sign := Val(Take(rest, 1));
    var g := ReadGR(Drop(rest, 1), krp);
    var mag := g.mag + 1;
    DecStep(Zeros(r.zeros) + Zeros(run) + [ToS16(if sign != 0 then -mag else mag)],
            g.rest, Update(r.kp, -DN_GR), g.krp)
  }

  function DecodeOne(bits: seq<bool>, kp: Param, krp: Param): (d: DecStep)
    requires bits != []
    ensures |d.rest| < |bits| && d.vals != []
  {
    var g := ReadGR(bits, krp);
    if g.mag == 0 then DecStep([0], g.rest, Update(kp, UQ_GR), g.krp)
    else DecStep([From2MagSign(g.mag)], g.rest, Update(kp, -DQ_GR), g.krp)
  }

  function DecodePair(bits: seq<bool>, kp: Param, krp: Param): (d: DecStep)
    requires bits != []
    ensures |d.rest| < |bits| && d.vals != []
  {
    MinBits16(ReadGR(bits, krp).mag);
    var g := ReadGR(bits, krp);
    var n := MinBits(g.mag);
    var a := Val16(Take(g.rest, n));
    var b := ToU32(g.mag - a);
    DecStep([From2MagSign(a), From2MagSign(b)], Drop(g.rest, n), NextKpPair(kp, a, b), g.krp)
  }

  function DecodeStep(mode: Mode, bits: seq<bool>, kp: Param, krp: Param): (d: DecStep)
    requires bits != []
    ensures |d.rest| < |bits| && d.vals != []
  {
    if K(kp) != 0 then DecodeRun(bits, kp, krp)
    else if mode == RLGR1 then DecodeOne(bits, kp, krp)
    else DecodePair(bits, kp, krp)
  }

  /** The values decoded while bits are left and fewer than `size` values are out. */
  function DecodeFrom(mode: Mode, bits: seq<bool>, size: int, kp: Param, krp: Param): seq<sint16>
    decreases |bits|
  {
    if bits == [] || size <= 0 then []
    else
      var d := DecodeStep(mode, bits, kp, krp);
      d.vals + DecodeFrom(mode, d.rest, size - |d.vals|, d.kp, d.krp)
  }

  function Decode(mode: Mode, bits: seq<bool>, size: nat): (s: seq<sint16>)
    ensures |s| <= size
  {
    TakeValues(DecodeFrom(mode, bits, size, 8, 8), size)
  }

  function Val16(b: seq<bool>): (v: uint16)
    requires |b| <= 16
    ensures v == Val(b)
  {
    ValBound(b);
    Pow2Mono(|b|, 16);
    Pow2Values();
    Val(b)
  }

  lemma MinBits16(v: uint16)
    ensures MinBits(v) <= 16
  {
    Pow2Values();
    MinBitsBound(v, 16);
  }
}
