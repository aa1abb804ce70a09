/** The wavelet steps on eight 16-bit lanes (libfreerdp-codec/rfx_sse2.c). Lane arithmetic wraps at every
    operation, where the scalar code keeps sums in a wider integer. */
module Sse2 {
  import opened Words
  import opened Dwt

  // ---- One lane ----

  function Add16(a: sint16, b: sint16): sint16 { ToS16(a as int + b as int) }

  function Sub16(a: sint16, b: sint16): sint16 { ToS16(a as int - b as int) }

  function Sra16(a: sint16): sint16 { Half(a as int) }

  function Sll16(a: sint16): sint16 { ToS16(2 * a as int) }

  function HighLane(e: sint16, o: sint16, e2: sint16): sint16 { Sra16(Sub16(o, Sra16(Add16(e, e2)))) }

  function LowLane(e: sint16, hm: sint16, h: sint16): sint16 { Add16(Sra16(Add16(hm, h)), e) }

  function EvenLane(l: sint16, hm: sint16, h: sint16): sint16 { Sub16(l, Sra16(Add16(Add16(h, hm), 1))) }

  function OddLane(h: sint16, d: sint16, d2: sint16): sint16 { Add16(Sra16(Add16(d2, d)), Sll16(h)) }

  predicate HighFits(e: sint16, o: sint16, e2: sint16)
  {
    InS16(e as int + e2 as int) && InS16(o as int - Half(e as int + e2 as int))
  }

  predicate LowFits(hm: sint16, h: sint16) { InS16(hm as int + h as int) }

  predicate EvenFits(hm: sint16, h: sint16) { InS16(hm as int + h as int + 1) }

  predicate OddFits(d: sint16, d2: sint16) { InS16(d as int + d2 as int) }

  // Each lane agrees with the scalar step exactly when the sums it halves fit 16 bits.

  lemma WrapHalves(s: int)
    requires -65536 <= s <= 65535
    ensures ToS16(s) == s <==> InS16(s)
    ensures Half(ToS16(s)) == Half(s) || Half(ToS16(s)) == Half(s) - 32768 || Half(ToS16(s)) == Half(s) + 32768
    ensures Half(ToS16(s)) == Half(s) <==> InS16(s)
  {
  }

  lemma HighLaneIff(e: sint16, o: sint16, e2: sint16)
    ensures HighLane(e, o, e2) == High(e, o, e2) <==> HighFits(e, o, e2)
  {
    hide ToS16;
    HighIs(e, o, e2);
    var s := e as int + e2 as int;
    WrapHalves(s);
    WrapHalves(o as int - Half(s));
    if !InS16(s) {
      FarHalves(o as int - Half(s), o as int - Half(ToS16(s)));
    }
  }

  /** Values 2^15 apart do not have the same half after wrapping. */
  lemma FarHalves(a: int, b: int)
    requires -65536 <= a <= 65535 && -65536 <= b <= 65535 && (b == a - 32768 || b == a + 32768)
    ensures Half(ToS16(b)) != Half(a)
  {
  }

  lemma FarWraps(a: int, b: int)
    requires b == a - 32768 || b == a + 32768
    ensures ToS16(b) != ToS16(a)
  {
  }

  lemma WrapSum(a: int, b: int)
    ensures ToS16(ToS16(a) as int + b) == ToS16(a + b) && ToS16(b + ToS16(a) as int) == ToS16(a + b)
    ensures ToS16(b - ToS16(a) as int) == ToS16(b - a)
  {
    var k := (ToS16(a) - a) / 65536;
    WrapMultiple(a);
    WrapSame(ToS16(a) as int + b, a + b, k);
    WrapSame(b - ToS16(a) as int, b - a, 0 - k);
  }

  lemma LowLaneIff(e: sint16, hm: sint16, h: sint16)
    ensures LowLane(e, hm, h) == LowC(e, hm, h) <==> LowFits(hm, h)
  {
    hide ToS16;
    var s := hm as int + h as int;
    WrapHalves(s);
    if !InS16(s) {
      FarWraps(e as int + Half(s), e as int + Half(ToS16(s)));
    }
  }

  lemma EvenLaneIff(l: sint16, hm: sint16, h: sint16)
    ensures EvenLane(l, hm, h) == Even(l, hm, h) <==> EvenFits(hm, h)
  {
    hide ToS16;
    var s := hm as int + h as int + 1;
    WrapSum(h as int + hm as int, 1);
    WrapHalves(s);
    if !InS16(s) {
      FarWraps(l as int - Half(s), l as int - Half(ToS16(s)));
    }
  }

  lemma OddLaneIff(h: sint16, d: sint16, d2: sint16)
    ensures OddLane(h, d, d2) == Odd(h, d, d2) <==> OddFits(d, d2)
  {
    hide ToS16;
    var s := d as int + d2 as int;
    WrapHalves(s);
    WrapSum(2 * h as int, Half(ToS16(s)));
    if !InS16(s) {
      FarWraps(2 * h as int + Half(s), 2 * h as int + Half(ToS16(s)));
    }
  }

  /** Inputs for which each lane leaves the scalar result: the halved sum is 65534 or 65535. */
  lemma LanesOverflow()
    ensures HighLane(32767, 0, 32767) != High(32767, 0, 32767) && LowLane(0, 32767, 32767) != LowC(0, 32767, 32767)
    ensures EvenLane(0, 32767, 32767) != Even(0, 32767, 32767) && OddLane(0, 32767, 32767) != Odd(0, 32767, 32767)
  {
    hide HighLane, High, LowLane, LowC, EvenLane, Even, OddLane, Odd;
    HighLaneIff(32767, 0, 32767);
    LowLaneIff(0, 32767, 32767);
    EvenLaneIff(0, 32767, 32767);
    OddLaneIff(0, 32767, 32767);
  }

  // ---- Registers of eight lanes ----

  predicate Eight(v: Line) { |v| == 8 }

  type Lanes = v: Line | Eight(v) witness [0, 0, 0, 0, 0, 0, 0, 0]

  function Add(a: Lanes, b: Lanes): Lanes { seq(8, i requires 0 <= i < 8 => Add16(a[i], b[i])) }

  function Sub(a: Lanes, b: Lanes): Lanes { seq(8, i requires 0 <= i < 8 => Sub16(a[i], b[i])) }

  function Sra(a: Lanes): Lanes { seq(8, i requires 0 <= i < 8 => Sra16(a[i])) }

  function Sll(a: Lanes): Lanes { seq(8, i requires 0 <= i < 8 => Sll16(a[i])) }

  function Set1(x: sint16): Lanes { seq(8, i requires 0 <= i < 8 => x) }

  function UnpackLo(a: Lanes, b: Lanes): Lanes { [a[0], b[0], a[1], b[1], a[2], b[2], a[3], b[3]] }

  function UnpackHi(a: Lanes, b: Lanes): Lanes { [a[4], b[4], a[5], b[5], a[6], b[6], a[7], b[7]] }

  /** Aligned load. */
  function Load(s: Line, p: nat): Lanes
    requires p + 8 <= |s|
  {
    s[p..p + 8]
  }

  /** Unaligned load; a lane outside the array holds whatever is in memory there. */
  function LoadU(s: Line, p: int, stray: sint16): Lanes
  {
    seq(8, i requires 0 <= i < 8 => if 0 <= p + i < |s| then s[p + i] else stray)
  }

  // ---- Lines combined value by value ----

  function HighLine(e: Line, o: Line, e2: Line): (r: Line)
    requires |e| == |o| == |e2|
    ensures |r| == |e|
  {
    seq(|e|, i requires 0 <= i < |e| => High(e[i], o[i], e2[i]))
  }

  function LowLine(e: Line, hm: Line, h: Line): (r: Line)
    requires |e| == |hm| == |h|
    ensures |r| == |e|
  {
    seq(|e|, i requires 0 <= i < |e| => LowC(e[i], hm[i], h[i]))
  }

  function EvenLine(l: Line, hm: Line, h: Line): (r: Line)
    requires |l| == |hm| == |h|
    ensures |r| == |l|
  {
    seq(|l|, i requires 0 <= i < |l| => Even(l[i], hm[i], h[i]))
  }

  function OddLine(h: Line, d: Line, d2: Line): (r: Line)
    requires |h| == |d| == |d2|
    ensures |r| == |h|
  {
    seq(|h|, i requires 0 <= i < |h| => Odd(h[i], d[i], d2[i]))
  }

  predicate HighLineFits(e: Line, o: Line, e2: Line)
    requires |e| == |o| == |e2|
  {
    forall i :: 0 <= i < |e| ==> HighFits(e[i], o[i], e2[i])
  }

  predicate LowLineFits(hm: Line, h: Line)
    requires |hm| == |h|
  {
    forall i :: 0 <= i < |h| ==> LowFits(hm[i], h[i])
  }

  predicate EvenLineFits(hm: Line, h: Line)
    requires |hm| == |h|
  {
    forall i :: 0 <= i < |h| ==> EvenFits(hm[i], h[i])
  }

  predicate OddLineFits(d: Line, d2: Line)
    requires |d| == |d2|
  {
    forall i :: 0 <= i < |d| ==> OddFits(d[i], d2[i])
  }

  // ---- Eight values of a line at a time ----

  function HighLanes(e: Lanes, o: Lanes, e2: Lanes): Lanes { Sra(Sub(o, Sra(Add(e, e2)))) }

  function LowLanes(e: Lanes, hm: Lanes, h: Lanes): Lanes { Add(Sra(Add(hm, h)), e) }

  function EvenLanes(l: Lanes, hm: Lanes, h: Lanes): Lanes { Sub(l, Sra(Add(Add(h, hm), Set1(1)))) }

  /** The vertical kernel adds the rounding one first. */
  function EvenLanesVert(l: Lanes, hm: Lanes, h: Lanes): Lanes { Sub(l, Sra(Add(Add(h, Set1(1)), hm))) }

  function OddLanes(h: Lanes, d: Lanes, d2: Lanes): Lanes { Add(Sra(Add(d2, d)), Sll(h)) }

  lemma HighLanesExact(e: Lanes, o: Lanes, e2: Lanes)
    requires HighLineFits(e, o, e2)
    ensures HighLanes(e, o, e2) == HighLine(e, o, e2)
  {
    hide High, HighFits, Sra16, Sub16, Add16;
    forall i | 0 <= i < 8 ensures HighLanes(e, o, e2)[i] == HighLine(e, o, e2)[i] {
      HighLaneIff(e[i], o[i], e2[i]);
      assert HighFits(e[i], o[i], e2[i]);
    }
  }

  lemma HighLanesAre(e: Line, o: Line, e2: Line, x: nat)
    requires |e| == |o| == |e2| && x + 8 <= |e| && HighLineFits(e, o, e2)
    ensures HighLanes(e[x..x + 8], o[x..x + 8], e2[x..x + 8]) == HighLine(e, o, e2)[x..x + 8]
  {
    hide High, HighFits, HighLanes;
    assert HighLineFits(e[x..x + 8], o[x..x + 8], e2[x..x + 8]);
    HighLanesExact(e[x..x + 8], o[x..x + 8], e2[x..x + 8]);
    assert HighLine(e[x..x + 8], o[x..x + 8], e2[x..x + 8]) == HighLine(e, o, e2)[x..x + 8];
  }

  lemma LowLanesExact(e: Lanes, hm: Lanes, h: Lanes)
    requires LowLineFits(hm, h)
    ensures LowLanes(e, hm, h) == LowLine(e, hm, h)
  {
    hide LowC, LowFits, Sra16, Add16;
    forall i | 0 <= i < 8 ensures LowLanes(e, hm, h)[i] == LowLine(e, hm, h)[i] {
      LowLaneIff(e[i], hm[i], h[i]);
      assert LowFits(hm[i], h[i]);
    }
  }

  lemma LowLanesAre(e: Line, hm: Line, h: Line, x: nat)
    requires |e| == |hm| == |h| && x + 8 <= |e| && LowLineFits(hm, h)
    ensures LowLanes(e[x..x + 8], hm[x..x + 8], h[x..x + 8]) == LowLine(e, hm, h)[x..x + 8]
  {
    hide LowC, LowFits, LowLanes;
    assert LowLineFits(hm[x..x + 8], h[x..x + 8]);
    LowLanesExact(e[x..x + 8], hm[x..x + 8], h[x..x + 8]);
    assert LowLine(e[x..x + 8], hm[x..x + 8], h[x..x + 8]) == LowLine(e, hm, h)[x..x + 8];
  }

  lemma EvenLanesExact(l: Lanes, hm: Lanes, h: Lanes)
    requires EvenLineFits(hm, h)
    ensures EvenLanes(l, hm, h) == EvenLine(l, hm, h)
  {
    hide Even, EvenFits, Sra16, Sub16, Add16;
    forall i | 0 <= i < 8 ensures EvenLanes(l, hm, h)[i] == EvenLine(l, hm, h)[i] {
      EvenLaneIff(l[i], hm[i], h[i]);
      assert EvenFits(hm[i], h[i]);
    }
  }

  lemma EvenLanesAre(l: Line, hm: Line, h: Line, x: nat)
    requires |l| == |hm| == |h| && x + 8 <= |l| && EvenLineFits(hm, h)
    ensures EvenLanes(l[x..x + 8], hm[x..x + 8], h[x..x + 8]) == EvenLine(l, hm, h)[x..x + 8]
  {
    hide Even, EvenFits, EvenLanes;
    assert EvenLineFits(hm[x..x + 8], h[x..x + 8]);
    EvenLanesExact(l[x..x + 8], hm[x..x + 8], h[x..x + 8]);
    assert EvenLine(l[x..x + 8], hm[x..x + 8], h[x..x + 8]) == EvenLine(l, hm, h)[x..x + 8];
  }

  lemma OddLanesExact(h: Lanes, d: Lanes, d2: Lanes)
    requires OddLineFits(d, d2)
    ensures OddLanes(h, d, d2) == OddLine(h, d, d2)
  {
    hide Odd, OddFits, Sra16, Sll16, Add16;
    forall i | 0 <= i < 8 ensures OddLanes(h, d, d2)[i] == OddLine(h, d, d2)[i] {
      OddLaneIff(h[i], d[i], d2[i]);
      assert OddFits(d[i], d2[i]);
    }
  }

  lemma OddLanesAre(h: Line, d: Line, d2: Line, x: nat)
    requires |h| == |d| == |d2| && x + 8 <= |h| && OddLineFits(d, d2)
    ensures OddLanes(h[x..x + 8], d[x..x + 8], d2[x..x + 8]) == OddLine(h, d, d2)[x..x + 8]
  {
    hide Odd, OddFits, OddLanes;
    assert OddLineFits(d[x..x + 8], d2[x..x + 8]);
    OddLanesExact(h[x..x + 8], d[x..x + 8], d2[x..x + 8]);
    assert OddLine(h[x..x + 8], d[x..x + 8], d2[x..x + 8]) == OddLine(h, d, d2)[x..x + 8];
  }

  lemma EvenLanesOrder(l: Lanes, hm: Lanes, h: Lanes)
    ensures EvenLanesVert(l, hm, h) == EvenLanes(l, hm, h)
  {
    hide Sra16, Sub16, Add16;
    forall i | 0 <= i < 8 ensures EvenLanesVert(l, hm, h)[i] == EvenLanes(l, hm, h)[i] {
      AddOrder(h[i], hm[i]);
    }
  }

  lemma AddOrder(h: sint16, hm: sint16)
    ensures Add16(Add16(h, 1), hm) == Add16(Add16(h, hm), 1)
  {
    hide ToS16;
    WrapSum(h as int + 1, hm as int);
    WrapSum(h as int + hm as int, 1);
  }

  // ---- Rows and columns as combined lines ----

  function Evens(c: Line, w: nat): (r: Line)
    requires |c| == 2 * w
    ensures |r| == w && forall n :: 0 <= n < w ==> r[n] == c[2 * n]
  {
    seq(w, n requires 0 <= n < w => c[2 * n])
  }

  function Odds(c: Line, w: nat): (r: Line)
    requires |c| == 2 * w
    ensures |r| == w && forall n :: 0 <= n < w ==> r[n] == c[2 * n + 1]
  {
    seq(w, n requires 0 <= n < w => c[2 * n + 1])
  }

  /** Each value's successor; the last one is mirrored. */
  function Ahead(e: Line): (r: Line)
    ensures |r| == |e| && forall n :: 0 <= n < |e| ==> r[n] == e[Next(n, |e|)]
  {
    seq(|e|, n requires 0 <= n < |e| => e[Next(n, |e|)])
  }

  function Behind(h: Line): (r: Line)
    ensures |r| == |h| && forall n :: 0 <= n < |h| ==> r[n] == h[Prev(n)]
  {
    seq(|h|, n requires 0 <= n < |h| => h[Prev(n)])
  }

  lemma RowLines(c: Line, w: nat)
    requires |c| == 2 * w
    ensures RowH(c, w) == HighLine(Evens(c, w), Odds(c, w), Ahead(Evens(c, w)))
    ensures RowL(c, w) == LowLine(Evens(c, w), Behind(RowH(c, w)), RowH(c, w))
  {
    hide High, LowC;
    var e := Evens(c, w);
    assert forall n :: 0 <= n < w ==> Ahead(e)[n] == e[Next(n, w)] == c[2 * Next(n, w)];
  }

  lemma RowBackLines(l: Line, h: Line)
    requires |l| == |h|
    ensures RowEven(l, h) == EvenLine(l, Behind(h), h)
  {
    hide Even;
  }

  lemma ColLines(m: Matrix, w: nat, n: nat)
    requires Shape(m, 2 * w, 2 * w) && n < w
    ensures ColH(m, w)[n] == HighLine(m[2 * n], m[2 * n + 1], m[2 * Next(n, w)])
    ensures ColL(m, w)[n] == LowLine(m[2 * n], ColH(m, w)[Prev(n)], ColH(m, w)[n])
  {
    hide High, LowC;
    forall x | 0 <= x < 2 * w ensures ColH(m, w)[n][x] == HighLine(m[2 * n], m[2 * n + 1], m[2 * Next(n, w)])[x] {
    }
    forall x | 0 <= x < 2 * w ensures ColL(m, w)[n][x] == LowLine(m[2 * n], ColH(m, w)[Prev(n)], ColH(m, w)[n])[x] {
    }
  }
}
