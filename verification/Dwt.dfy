/** The integer 5/3 wavelet on lines and on square blocks (libfreerdp-codec/rfx_dwt.c). */
module Dwt {
  import opened Words

  type Line = seq<sint16>
  type Matrix = seq<Line>

  predicate InS16(x: int) { -32768 <= x < 32768 }

  /** `x >> 1` */
  function Half(x: int): int { x / 2 }

  // ---- One coefficient ----

  /** High band, from an even sample, the odd one behind it and the next even one. */
  function High(e: sint16, o: sint16, e2: sint16): sint16 { ToS16(Half(o as int - Half(e as int + e2 as int))) }

  /** Low band, from an even sample and the high coefficients around it. */
  function LowC(e: sint16, hm: sint16, h: sint16): sint16 { ToS16(e as int + Half(hm as int + h as int)) }

  function Even(l: sint16, hm: sint16, h: sint16): sint16 { ToS16(l as int - Half(hm as int + h as int + 1)) }

  function Odd(h: sint16, d: sint16, d2: sint16): sint16 { ToS16(2 * h as int + Half(d as int + d2 as int)) }

  // ---- Lines of 2w samples ----

  /** The even sample behind odd sample n; the last one is mirrored. */
  function Next(n: nat, w: nat): nat { if n < w - 1 then n + 1 else n }

  function Prev(n: nat): nat { if n == 0 then 0 else n - 1 }

  function RowH(x: Line, w: nat): (h: Line)
    requires |x| == 2 * w
    ensures |h| == w
  {
    seq(w, n requires 0 <= n < w => High(x[2 * n], x[2 * n + 1], x[2 * Next(n, w)]))
  }

  function RowL(x: Line, w: nat): (l: Line)
    requires |x| == 2 * w
    ensures |l| == w
  {
    var h := RowH(x, w);
    seq(w, n requires 0 <= n < w => LowC(x[2 * n], h[Prev(n)], h[n]))
  }

  function RowEven(l: Line, h: Line): (d: Line)
    requires |l| == |h|
    ensures |d| == |l|
  {
    seq(|l|, n requires 0 <= n < |l| => Even(l[n], h[Prev(n)], h[n]))
  }

  function RowDec(l: Line, h: Line): (d: Line)
    requires |l| == |h|
    ensures |d| == 2 * |l|
  {
    var e, w := RowEven(l, h), |l|;
    seq(2 * w, i requires 0 <= i < 2 * w =>
      if i % 2 == 0 then e[i / 2] else Odd(h[i / 2], e[i / 2], e[Next(i / 2, w)]))
  }

  /** The high band never wraps. */
  lemma HighIs(e: sint16, o: sint16, e2: sint16)
    ensures High(e, o, e2) == Half(o as int - Half(e as int + e2 as int))
  {
  }

  /** A range of errors that includes none. */
  datatype Off = Off(lo: int, hi: int)

  predicate Around0(o: Off) { o.lo <= 0 <= o.hi }

  predicate NearBy(s: Line, t: Line, o: Off)
  {
    |s| == |t| && forall i :: 0 <= i < |s| ==> o.lo <= s[i] as int - t[i] as int <= o.hi
  }

  /** Samples that may be off by this much without leaving 16 bits. */
  predicate RoomFor(c: Line, o: Off)
  {
    forall i :: 0 <= i < |c| ==> InS16(c[i] as int + o.lo) && InS16(c[i] as int + o.hi)
  }

  predicate Within(x: Line, b: int) { forall i :: 0 <= i < |x| ==> -b <= x[i] as int <= b }

  predicate MatrixWithin(m: Matrix, b: int) { forall y :: 0 <= y < |m| ==> Within(m[y], b) }

  lemma RowDecAt(l: Line, h: Line, n: nat)
    requires |l| == |h| && n < |l|
    ensures var d, e := RowDec(l, h), RowEven(l, h);
            d[2 * n] == e[n] && d[2 * n + 1] == Odd(h[n], e[n], e[Next(n, |l|)])
  {
    hide Odd, RowEven;
    assert (2 * n) % 2 == 0 && (2 * n) / 2 == n;
    assert (2 * n + 1) % 2 == 1 && (2 * n + 1) / 2 == n;
  }

  // ---- Errors of a line, from errors of its bands ----

  function EvenOff(l: Off, h: Off): Off { Off(l.lo - h.hi - 1, l.hi - h.lo) }

  function LineOff(l: Off, h: Off): Off { Off(l.lo + 2 * h.lo - h.hi - 2, l.hi - h.lo + 2 * h.hi) }

  /** A store that wrapped is undone by one that wraps back. */
  lemma WrapCancels(a: int, l: int, x: int, y: int)
    requires l == ToS16(a) && x - l == y - a && InS16(y)
    ensures ToS16(x) == y
  {
    var k := a - l;
    assert k % 65536 == 0;
    assert x == y - k;
  }

  /** The low band store may wrap; the even sample is recovered from it all the same. */
  lemma EvenShifted(e: sint16, hm: sint16, h: sint16, l': sint16, hm': sint16, h': sint16, lo: Off, ho: Off)
    requires lo.lo <= l' as int - LowC(e, hm, h) as int <= lo.hi
    requires ho.lo <= hm' as int - hm as int <= ho.hi && ho.lo <= h' as int - h as int <= ho.hi
    requires InS16(e as int + EvenOff(lo, ho).lo) && InS16(e as int + EvenOff(lo, ho).hi)
    ensures EvenOff(lo, ho).lo <= Even(l', hm', h') as int - e as int <= EvenOff(lo, ho).hi
  {
    var s, s' := hm as int + h as int, hm' as int + h' as int;
    var l := LowC(e, hm, h) as int;
    assert ho.lo <= Half(s' + 1) - Half(s) <= ho.hi + 1;
    var r := l' as int - l + Half(s) - Half(s' + 1);
    WrapCancels(e as int + Half(s), l, l' as int - Half(s' + 1), e as int + r);
  }

  lemma OddShifted(e: sint16, o: sint16, e2: sint16, d: sint16, d2: sint16, h': sint16, eo: Off, ho: Off)
    requires eo.lo <= d as int - e as int <= eo.hi && eo.lo <= d2 as int - e2 as int <= eo.hi
    requires ho.lo <= h' as int - High(e, o, e2) as int <= ho.hi
    requires InS16(o as int + eo.lo + 2 * ho.lo - 1) && InS16(o as int + eo.hi + 2 * ho.hi)
    ensures eo.lo + 2 * ho.lo - 1 <= Odd(h', d, d2) as int - o as int <= eo.hi + 2 * ho.hi
  {
    hide High;
    HighIs(e, o, e2);
    var h := High(e, o, e2) as int;
    var a := Half(e as int + e2 as int);
    assert o as int - a - 1 <= 2 * h <= o as int - a;
    assert a + eo.lo <= Half(d as int + d2 as int) <= a + eo.hi;
  }

  lemma EvenShiftedAt(c: Line, w: nat, l': Line, h': Line, n: nat, lo: Off, ho: Off)
    requires |c| == 2 * w && n < w && NearBy(l', RowL(c, w), lo) && NearBy(h', RowH(c, w), ho)
    requires RoomFor(c, EvenOff(lo, ho))
    ensures EvenOff(lo, ho).lo <= RowEven(l', h')[n] as int - c[2 * n] as int <= EvenOff(lo, ho).hi
  {
    hide High, Even, LowC;
    var h, l, p := RowH(c, w), RowL(c, w), Prev(n);
    assert l[n] == LowC(c[2 * n], h[p], h[n]);
    EvenShifted(c[2 * n], h[p], h[n], l'[n], h'[p], h'[n], lo, ho);
  }

  /** Decoding a line whose bands are off by lo and ho. */
  lemma LineShifted(c: Line, w: nat, l': Line, h': Line, n: nat, lo: Off, ho: Off)
    requires |c| == 2 * w && n < w && NearBy(l', RowL(c, w), lo) && NearBy(h', RowH(c, w), ho)
    requires Around0(lo) && Around0(ho) && RoomFor(c, LineOff(lo, ho))
    ensures var d := RowDec(l', h');
            && EvenOff(lo, ho).lo <= d[2 * n] as int - c[2 * n] as int <= EvenOff(lo, ho).hi
            && LineOff(lo, ho).lo <= d[2 * n + 1] as int - c[2 * n + 1] as int <= LineOff(lo, ho).hi
  {
    hide High, Odd, RowDec, RowL, RowEven;
    var e, m := RowEven(l', h'), Next(n, w);
    EvenShiftedAt(c, w, l', h', n, lo, ho);
    EvenShiftedAt(c, w, l', h', m, lo, ho);
    RowDecAt(l', h', n);
    OddShifted(c[2 * n], c[2 * n + 1], c[2 * m], e[n], e[m], h'[n], EvenOff(lo, ho), ho);
  }

  lemma WholeLineShifted(c: Line, w: nat, l': Line, h': Line, lo: Off, ho: Off)
    requires |c| == 2 * w && NearBy(l', RowL(c, w), lo) && NearBy(h', RowH(c, w), ho)
    requires Around0(lo) && Around0(ho) && RoomFor(c, LineOff(lo, ho))
    ensures NearBy(RowDec(l', h'), c, LineOff(lo, ho))
  {
    hide RowDec, RowL, RowH, RoomFor;
    var d := RowDec(l', h');
    forall i | 0 <= i < 2 * w ensures LineOff(lo, ho).lo <= d[i] as int - c[i] as int <= LineOff(lo, ho).hi {
      LineShifted(c, w, l', h', i / 2, lo, ho);
      assert i == 2 * (i / 2) || i == 2 * (i / 2) + 1;
    }
  }

  lemma SelfNear(s: Line)
    ensures NearBy(s, s, Off(0, 0))
  {
  }

  /** Even samples come back with error -1 or 0, odd ones with error -2, -1 or 0. */
  lemma LineError(x: Line, w: nat, n: nat)
    requires |x| == 2 * w && RoomFor(x, Off(-2, 0)) && n < w
    ensures var d := RowDec(RowL(x, w), RowH(x, w));
            && -1 <= d[2 * n] as int - x[2 * n] as int <= 0
            && -2 <= d[2 * n + 1] as int - x[2 * n + 1] as int <= 0
  {
    hide RowDec, RowL, RowH, NearBy, RoomFor;
    SelfNear(RowL(x, w));
    SelfNear(RowH(x, w));
    LineShifted(x, w, RowL(x, w), RowH(x, w), n, Off(0, 0), Off(0, 0));
  }

  /** Re-encoding a decoded line restores a high coefficient exactly when its odd sample did not wrap. */
  lemma HighRestored(l: Line, h: Line, n: nat)
    requires |l| == |h| && n < |l|
    ensures var d, e := RowDec(l, h), RowEven(l, h);
            InS16(2 * h[n] as int + Half(e[n] as int + e[Next(n, |l|)] as int))
            <==> RowH(d, |l|)[n] == h[n]
  {
    hide Even, RowDec, RowEven, Odd, High;
    var d, e, w := RowDec(l, h), RowEven(l, h), |l|;
    var m := Next(n, w);
    RowDecAt(l, h, n);
    RowDecAt(l, h, m);
    HighOfOdd(h[n], e[n], e[m]);
  }

  /** A coefficient that does not survive: the odd sample would be 65534. */
  lemma TopCoefficientLost()
    ensures RowH(RowDec([32767], [32767]), 1)[0] != 32767
  {
    hide RowDec, RowH;
    assert RowEven([32767], [32767])[0] == Even(32767, 32767, 32767);
    EvenValue(32767, 32767, 0);
    HighRestored([32767], [32767], 0);
  }

  lemma HighOfOdd(h: sint16, d: sint16, d2: sint16)
    ensures High(d, Odd(h, d, d2), d2) == h <==> InS16(2 * h as int + Half(d as int + d2 as int))
  {
    hide High;
    HighIs(d, Odd(h, d, d2), d2);
  }

  // ---- Blocks of 2w rows of 2w samples ----

  predicate Shape(m: Matrix, rows: nat, cols: nat)
  {
    |m| == rows && forall y :: 0 <= y < rows ==> |m[y]| == cols
  }

  function Col(m: Matrix, x: nat, rows: nat, cols: nat): (c: Line)
    requires Shape(m, rows, cols) && x < cols
    ensures |c| == rows && forall y :: 0 <= y < rows ==> c[y] == m[y][x]
  {
    seq(rows, y requires 0 <= y < rows => m[y][x])
  }

  function ColL(m: Matrix, w: nat): (r: Matrix)
    requires Shape(m, 2 * w, 2 * w)
    ensures Shape(r, w, 2 * w)
  {
    seq(w, n requires 0 <= n < w => seq(2 * w, x requires 0 <= x < 2 * w => RowL(Col(m, x, 2 * w, 2 * w), w)[n]))
  }

  function ColH(m: Matrix, w: nat): (r: Matrix)
    requires Shape(m, 2 * w, 2 * w)
    ensures Shape(r, w, 2 * w)
  {
    seq(w, n requires 0 <= n < w => seq(2 * w, x requires 0 <= x < 2 * w => RowH(Col(m, x, 2 * w, 2 * w), w)[n]))
  }

  function ColDec(l: Matrix, h: Matrix, w: nat): (r: Matrix)
    requires Shape(l, w, 2 * w) && Shape(h, w, 2 * w)
    ensures Shape(r, 2 * w, 2 * w)
  {
    seq(2 * w, y requires 0 <= y < 2 * w => seq(2 * w, x requires 0 <= x < 2 * w =>
      RowDec(Col(l, x, w, 2 * w), Col(h, x, w, 2 * w))[y]))
  }

  function RowsH(m: Matrix, w: nat): (r: Matrix)
    requires Shape(m, w, 2 * w)
    ensures Shape(r, w, w)
  {
    seq(w, y requires 0 <= y < w => RowH(m[y], w))
  }

  function RowsL(m: Matrix, w: nat): (r: Matrix)
    requires Shape(m, w, 2 * w)
    ensures Shape(r, w, w)
  {
    seq(w, y requires 0 <= y < w => RowL(m[y], w))
  }

  function RowsDec(l: Matrix, h: Matrix, w: nat): (r: Matrix)
    requires Shape(l, w, w) && Shape(h, w, w)
    ensures Shape(r, w, 2 * w)
  {
    seq(w, y requires 0 <= y < w => RowDec(l[y], h[y]))
  }

  datatype Bands = Bands(hl: Matrix, lh: Matrix, hh: Matrix, ll: Matrix)

  predicate Square(b: Bands, w: nat)
  {
    Shape(b.hl, w, w) && Shape(b.lh, w, w) && Shape(b.hh, w, w) && Shape(b.ll, w, w)
  }

  /** Vertical pass, then horizontal pass. */
  function Encode2D(m: Matrix, w: nat): (b: Bands)
    requires Shape(m, 2 * w, 2 * w)
    ensures Square(b, w)
  {
    var l, h := ColL(m, w), ColH(m, w);
    Bands(RowsH(l, w), RowsL(h, w), RowsH(h, w), RowsL(l, w))
  }

  /** Horizontal pass, then vertical pass. */
  function Decode2D(b: Bands, w: nat): (m: Matrix)
    requires Square(b, w)
    ensures Shape(m, 2 * w, 2 * w)
  {
    ColDec(RowsDec(b.ll, b.hl, w), RowsDec(b.lh, b.hh, w), w)
  }

  /** Within one pass of each other. */
  predicate Near(a: Line, b: Line) { NearBy(a, b, Off(-2, 0)) }

  lemma HighWithin(e: sint16, o: sint16, e2: sint16, b: int)
    requires -b <= e as int <= b && -b <= o as int <= b && -b <= e2 as int <= b
    ensures -b <= High(e, o, e2) as int <= b
  {
    HighIs(e, o, e2);
    assert -b <= Half(e as int + e2 as int) <= b;
  }

  lemma LowWithin(e: sint16, hm: sint16, h: sint16, b: int)
    requires -b <= e as int <= b && -b <= hm as int <= b && -b <= h as int <= b && 2 * b <= 32766
    ensures -2 * b <= LowC(e, hm, h) as int <= 2 * b
  {
    assert -b <= Half(hm as int + h as int) <= b;
  }

  lemma BandsAbove(c: Line, w: nat, n: nat)
    requires |c| == 2 * w && Within(c, 16383) && n < w
    ensures RowH(c, w)[n] >= -32766 && RowL(c, w)[n] >= -32766
  {
    hide High, LowC;
    var h, p := RowH(c, w), Prev(n);
    HighWithin(c[2 * n], c[2 * n + 1], c[2 * Next(n, w)], 16383);
    HighWithin(c[2 * p], c[2 * p + 1], c[2 * Next(p, w)], 16383);
    LowWithin(c[2 * n], h[p], h[n], 16383);
  }

  /** A decoded row differs from the encoded one by -2 .. 0. */
  lemma RowNear(a: Line, w: nat)
    requires |a| == 2 * w && RoomFor(a, Off(-2, 0))
    ensures Near(RowDec(RowL(a, w), RowH(a, w)), a)
  {
    hide RowDec, RowL, RowH, NearBy, RoomFor;
    SelfNear(RowL(a, w));
    SelfNear(RowH(a, w));
    WholeLineShifted(a, w, RowL(a, w), RowH(a, w), Off(0, 0), Off(0, 0));
  }

  /** The two passes stay clear of the ends of the 16-bit range: the samples by a few steps, the vertical bands at
      the bottom. */
  predicate Roomy(m: Matrix, w: nat)
    requires Shape(m, 2 * w, 2 * w)
  {
    && (forall y :: 0 <= y < 2 * w ==> RoomFor(m[y], Off(-8, 2)))
    && (forall y :: 0 <= y < w ==> RoomFor(ColL(m, w)[y], Off(-2, 0)) && RoomFor(ColH(m, w)[y], Off(-2, 0)))
  }

  lemma ColRoom(m: Matrix, w: nat, x: nat)
    requires Shape(m, 2 * w, 2 * w) && Roomy(m, w) && x < 2 * w
    ensures RoomFor(Col(m, x, 2 * w, 2 * w), Off(-8, 2))
  {
    hide ColL, ColH;
    var c := Col(m, x, 2 * w, 2 * w);
    forall y | 0 <= y < 2 * w ensures -32760 <= c[y] <= 32765 {
      assert RoomFor(m[y], Off(-8, 2));
    }
  }

  /** Each column of the horizontally decoded bands is near the vertically encoded column. */
  lemma ColumnsNear(m: Matrix, w: nat, x: nat)
    requires Shape(m, 2 * w, 2 * w) && Roomy(m, w) && x < 2 * w
    ensures var b, c := Encode2D(m, w), Col(m, x, 2 * w, 2 * w);
            && Near(Col(RowsDec(b.ll, b.hl, w), x, w, 2 * w), RowL(c, w))
            && Near(Col(RowsDec(b.lh, b.hh, w), x, w, 2 * w), RowH(c, w))
  {
    hide RowDec, RowL, RowH, RoomFor;
    var l, h := ColL(m, w), ColH(m, w);
    forall y | 0 <= y < w
      ensures Near(RowDec(RowL(l[y], w), RowH(l[y], w)), l[y])
      ensures Near(RowDec(RowL(h[y], w), RowH(h[y], w)), h[y])
    {
      RowNear(l[y], w);
      RowNear(h[y], w);
    }
  }

  /** Main result: one level of decoding after encoding returns each sample with an error of -8 .. 2, for every width
      and every block that stays clear of the ends of the 16-bit range, although the LL band may wrap. */
  lemma RoomyBlockError(m: Matrix, w: nat, y: nat, x: nat)
    requires Shape(m, 2 * w, 2 * w) && Roomy(m, w) && y < 2 * w && x < 2 * w
    ensures -8 <= Decode2D(Encode2D(m, w), w)[y][x] as int - m[y][x] as int <= 2
  {
    hide RowDec, RowL, RowH, RoomFor, Roomy, NearBy, Encode2D, RowsDec;
    var b, c := Encode2D(m, w), Col(m, x, 2 * w, 2 * w);
    ColumnsNear(m, w, x);
    ColRoom(m, w, x);
    var l', h' := Col(RowsDec(b.ll, b.hl, w), x, w, 2 * w), Col(RowsDec(b.lh, b.hh, w), x, w, 2 * w);
    LineShifted(c, w, l', h', y / 2, Off(-2, 0), Off(-2, 0));
    assert y == 2 * (y / 2) || y == 2 * (y / 2) + 1;
  }

  lemma ColWithin(m: Matrix, w: nat, x: nat)
    requires Shape(m, 2 * w, 2 * w) && MatrixWithin(m, 16383) && x < 2 * w
    ensures Within(Col(m, x, 2 * w, 2 * w), 16383)
  {
  }

  lemma SmallIsRoomy(m: Matrix, w: nat)
    requires Shape(m, 2 * w, 2 * w) && MatrixWithin(m, 16383)
    ensures Roomy(m, w)
  {
    hide RowL, RowH;
    var l, h := ColL(m, w), ColH(m, w);
    forall y, x | 0 <= y < w && 0 <= x < 2 * w ensures l[y][x] >= -32766 && h[y][x] >= -32766 {
      ColWithin(m, w, x);
      BandsAbove(Col(m, x, 2 * w, 2 * w), w, y);
    }
  }

  /** Blocks of 15-bit samples, such as the codec transforms. */
  lemma BlockError(m: Matrix, w: nat, y: nat, x: nat)
    requires Shape(m, 2 * w, 2 * w) && MatrixWithin(m, 16383) && y < 2 * w && x < 2 * w
    ensures -8 <= Decode2D(Encode2D(m, w), w)[y][x] as int - m[y][x] as int <= 2
  {
    hide Roomy, MatrixWithin, Encode2D, Decode2D;
    SmallIsRoomy(m, w);
    RoomyBlockError(m, w, y, x);
  }

  // ---- At the bottom of the range ----

  /** An even sample comes back with error -1 or 0 unless it is -32768 and the high coefficients around it have an
      odd sum. */
  lemma EvenErrorIff(x: Line, w: nat, n: nat)
    requires |x| == 2 * w && n < w
    ensures var h := RowH(x, w);
            -1 <= RowEven(RowL(x, w), h)[n] as int - x[2 * n] as int <= 0
            <==> !(x[2 * n] == -32768 && (h[Prev(n)] as int + h[n] as int) % 2 == 1)
  {
    hide High, Even, LowC, RowH;
    var h := RowH(x, w);
    EvenOfLowIff(x[2 * n], h[Prev(n)], h[n]);
  }

  lemma EvenOfLowIff(e: sint16, hm: sint16, h: sint16)
    ensures -1 <= Even(LowC(e, hm, h), hm, h) as int - e as int <= 0
            <==> !(e == -32768 && (hm as int + h as int) % 2 == 1)
    ensures -2 <= Even(LowC(e, hm, h), hm, h) as int - e as int <= 0
            <==> -1 <= Even(LowC(e, hm, h), hm, h) as int - e as int <= 0
  {
    var s := hm as int + h as int;
    var r := if s % 2 == 1 then 1 else 0;
    assert Half(s + 1) - Half(s) == r;
    var l := LowC(e, hm, h) as int;
    if e as int - r >= -32768 {
      WrapCancels(e as int + Half(s), l, l - Half(s + 1), e as int - r);
    } else {
      BottomWraps(s, l);
    }
  }

  /** An odd sample comes back with error -2 .. 0 exactly when the sum before the store fits 16 bits. */
  lemma OddOfHighIff(e: sint16, o: sint16, e2: sint16, d: sint16, d2: sint16)
    requires -1 <= d as int - e as int <= 0 && -1 <= d2 as int - e2 as int <= 0
    ensures -2 <= Odd(High(e, o, e2), d, d2) as int - o as int <= 0
            <==> InS16(2 * High(e, o, e2) as int + Half(d as int + d2 as int))
  {
    hide High;
    HighIs(e, o, e2);
    var h := High(e, o, e2) as int;
    var a := Half(e as int + e2 as int);
    assert o as int - a - 1 <= 2 * h <= o as int - a;
    assert a - 1 <= Half(d as int + d2 as int) <= a;
  }

  /** An odd sample that is lost although its neighbours come back exactly: -32769 is stored as 32767. */
  lemma BottomOddLost()
    ensures !(-2 <= Odd(High(1, -32768, 1), 1, 1) as int + 32768 <= 0)
  {
    hide High, Odd;
    HighValue(1, -32768, 1, 1, -16385);
    OddOfHighIff(1, -32768, 1, 1, 1);
  }

  lemma BottomWraps(s: int, l: int)
    requires l == ToS16(-32768 + Half(s)) && Half(s + 1) == Half(s) + 1
    ensures ToS16(l - Half(s + 1)) == 32767
  {
    var a := -32768 + Half(s);
    WrapMultiple(a);
    WrapSame(l - Half(s + 1), 32767, (ToS16(a) - a) / 65536 - 1);
  }

  /** A line whose third sample, the least value of all, comes back far off. */
  lemma BottomSampleLost()
    ensures var x := [0, 2, -32768, -32768];
            !(-1 <= RowEven(RowL(x, 2), RowH(x, 2))[1] as int - x[2] as int <= 0)
  {
    hide RowL, RowEven;
    var x: Line := [0, 2, -32768, -32768];
    assert RowH(x, 2)[0] == 8193 && RowH(x, 2)[1] == 0;
    EvenErrorIff(x, 2, 1);
  }

  /** Main result: a whole line comes back within the bounds exactly when no even sample is the least value next to
      an odd sum of high coefficients and no odd sample leaves 16 bits before its store. */
  lemma LineIff(x: Line, w: nat)
    requires |x| == 2 * w
    ensures (forall n :: 0 <= n < w ==> EvenBack(x, w, n) && OddBack(x, w, n)) <==>
        (forall n :: 0 <= n < w ==> EvenKept(x, w, n) && OddFitsAt(x, w, n))
  {
    hide EvenBack, OddBack, EvenKept, OddFitsAt;
    forall n | 0 <= n < w ensures EvenBack(x, w, n) <==> EvenKept(x, w, n) {
      EvenBackIff(x, w, n);
    }
    forall n | 0 <= n < w && EvenBack(x, w, n) && EvenBack(x, w, Next(n, w)) ensures OddBack(x, w, n) <==>
        OddFitsAt(x, w, n) {
      OddBackIff(x, w, n);
    }
  }

  /** Even sample n comes back with error -1 or 0. */
  predicate EvenBack(x: Line, w: nat, n: nat)
    requires |x| == 2 * w && n < w
  {
    -1 <= RowDec(RowL(x, w), RowH(x, w))[2 * n] as int - x[2 * n] as int <= 0
  }

  predicate OddBack(x: Line, w: nat, n: nat)
    requires |x| == 2 * w && n < w
  {
    -2 <= RowDec(RowL(x, w), RowH(x, w))[2 * n + 1] as int - x[2 * n + 1] as int <= 0
  }

  predicate EvenKept(x: Line, w: nat, n: nat)
    requires |x| == 2 * w && n < w
  {
    var h := RowH(x, w);
    !(x[2 * n] == -32768 && (h[Prev(n)] as int + h[n] as int) % 2 == 1)
  }

  predicate OddFitsAt(x: Line, w: nat, n: nat)
    requires |x| == 2 * w && n < w
  {
    var h := RowH(x, w);
    var e := RowEven(RowL(x, w), h);
    InS16(2 * h[n] as int + Half(e[n] as int + e[Next(n, w)] as int))
  }

  lemma EvenBackIff(x: Line, w: nat, n: nat)
    requires |x| == 2 * w && n < w
    ensures EvenBack(x, w, n) <==> EvenKept(x, w, n)
  {
    hide RowDec, RowL, RowH, RowEven;
    RowDecAt(RowL(x, w), RowH(x, w), n);
    EvenErrorIff(x, w, n);
  }

  lemma OddBackIff(x: Line, w: nat, n: nat)
    requires |x| == 2 * w && n < w && EvenBack(x, w, n) && EvenBack(x, w, Next(n, w))
    ensures OddBack(x, w, n) <==> OddFitsAt(x, w, n)
  {
    hide RowDec, RowL, RowEven, High, Odd;
    var l, h, m := RowL(x, w), RowH(x, w), Next(n, w);
    var e := RowEven(l, h);
    RowDecAt(l, h, n);
    RowDecAt(l, h, m);
    OddOfHighIff(x[2 * n], x[2 * n + 1], x[2 * m], e[n], e[m]);
  }

  // ---- Blocks: the exact condition ----

  /** By how many halves of the 16-bit range a moved away from b, besides an error of -2 .. 0. */
  function Jumps(a: int, b: int): int { (a - b + 2) / 32768 }

  /** a without these. */
  function Landed(a: int, b: int): int { a - 32768 * Jumps(a, b) }

  predicate JumpsOnly(a: int, b: int) { -2 <= Landed(a, b) - b <= 0 }

  lemma JumpsAre(a: int, b: int, d: int, k: int)
    requires a == b + d + 32768 * k && -2 <= d <= 0
    ensures JumpsOnly(a, b) && Jumps(a, b) == k && Landed(a, b) == b + d
  {
    assert (a - b + 2) / 32768 == k;
  }

  predicate LineJumps(s: Line, t: Line) { |s| == |t| && forall i :: 0 <= i < |s| ==> JumpsOnly(s[i], t[i]) }

  /** The even sample decoded from bands that are off by -2 .. 0, before the store. */
  function EvenSum(e: int, l: int, hm: int, h: int, l': int, hm': int, h': int): int
  {
    e + (l' - l) + Half(hm + h) - Half(hm' + h' + 1)
  }

  /** The jumps of the low coefficient and of the two high ones around it cancel, and the sample fits. */
  predicate EvenStoreFits(e: sint16, hm: sint16, h: sint16, l': sint16, hm': sint16, h': sint16)
  {
    var l := LowC(e, hm, h);
    && (2 * Jumps(l', l) - Jumps(hm', hm) - Jumps(h', h)) % 4 == 0
    && InS16(EvenSum(e, l, hm, h, Landed(l', l), Landed(hm', hm), Landed(h', h)))
  }

  lemma EvenPerturbedIff(e: sint16, hm: sint16, h: sint16, l': sint16, hm': sint16, h': sint16)
    requires JumpsOnly(l', LowC(e, hm, h)) && JumpsOnly(hm', hm) && JumpsOnly(h', h)
    ensures var d := Even(l', hm', h') as int - e as int;
            && (-8 <= d <= 2 <==> EvenStoreFits(e, hm, h, l', hm', h')) && (-8 <= d <= 2 <==> -3 <= d <= 2)
  {
    hide ToS16, Jumps, Half, EvenSum, LowC, Landed, EvenStoreFits;
    var l := LowC(e, hm, h) as int;
    var k := LowStored(e, hm, h);
    var jl, jm, jh := Jumps(l', l), Jumps(hm', hm), Jumps(h', h);
    var x, y, z := Landed(l', l), Landed(hm', hm), Landed(h', h);
    UnstoredEven(e, l, hm, h, k, x, y, z, jl, jm, jh);
    LandedIs(l', l);
    LandedIs(hm', hm);
    LandedIs(h', h);
    StoredWithJumps(l' as int - Half(hm' as int + h' as int + 1), EvenSum(e, l, hm, h, x, y, z), k, 2 * jl - jm - jh,
        e as int);
    StoreFitsIs(e, hm, h, l', hm', h');
  }

  lemma LandedIs(a: int, b: int)
    ensures a == Landed(a, b) + 32768 * Jumps(a, b)
  {
  }

  lemma LowStored(e: sint16, hm: sint16, h: sint16) returns (k: int)
    ensures LowC(e, hm, h) as int == e as int + Half(hm as int + h as int) + 65536 * k
  {
    hide ToS16, Half;
    var a := e as int + Half(hm as int + h as int);
    WrapMultiple(a);
    k := (ToS16(a) - a) / 65536;
  }

  lemma StoreFitsIs(e: sint16, hm: sint16, h: sint16, l': sint16, hm': sint16, h': sint16)
    ensures var l := LowC(e, hm, h) as int;
            EvenStoreFits(e, hm, h, l', hm', h') <==>
              && (2 * Jumps(l', l) - Jumps(hm', hm) - Jumps(h', h)) % 4 == 0
              && InS16(EvenSum(e, l, hm, h, Landed(l', l), Landed(hm', hm), Landed(h', h)))
  {
    hide Jumps, Landed, EvenSum, LowC;
  }

  lemma UnstoredEven(e: int, l: int, hm: int, h: int, k: int, x: int, y: int, z: int, jl: int, jm: int, jh: int)
    requires l == e + Half(hm + h) + 65536 * k && -2 <= x - l <= 0 && -2 <= y - hm <= 0 && -2 <= z - h <= 0
    ensures var v := EvenSum(e, l, hm, h, x, y, z);
            && -3 <= v - e <= 2
            && (x + 32768 * jl) - Half((y + 32768 * jm) + (z + 32768 * jh) + 1) == v + 65536 * k
                + 16384 * (2 * jl - jm - jh)
  {
    assert -2 <= Half(y + z + 1) - Half(hm + h) <= 1;
    assert Half((y + 32768 * jm) + (z + 32768 * jh) + 1) == Half(y + z + 1) + 16384 * (jm + jh);
  }

  lemma StoredWithJumps(u: int, v: int, k: int, r: int, e: int)
    requires u == v + 65536 * k + 16384 * r && InS16(e) && -3 <= v - e <= 2
    ensures var d := ToS16(u) as int - e;
            (-8 <= d <= 2 <==> r % 4 == 0 && InS16(v)) && (-8 <= d <= 2 <==> -3 <= d <= 2)
  {
    if r % 4 == 0 {
      WrapSame(u, v, k + r / 4);
      FarWhenWrapped(v, e);
    } else {
      WrapSame(u, v + 16384 * (r % 4), k + r / 4);
      FarAway(v + 16384 * (r % 4), e);
    }
  }

  lemma FarAway(u: int, e: int)
    requires InS16(e) && 16000 <= u - e <= 50000
    ensures !(-8 <= ToS16(u) as int - e <= 2)
  {
  }

  /** A value close to a 16-bit one is stored close to it exactly when it fits. */
  lemma FarWhenWrapped(v: int, e: int)
    requires InS16(e) && -8 <= v - e <= 2
    ensures (-8 <= ToS16(v) as int - e <= 2 <==> InS16(v)) && (InS16(v) ==> ToS16(v) == v)
    ensures -3 <= v - e ==> (-8 <= ToS16(v) as int - e <= 2 <==> -3 <= ToS16(v) as int - e <= 2)
  {
  }

  lemma OddPerturbedIff(e: sint16, o: sint16, e2: sint16, d: sint16, d2: sint16, h': sint16)
    requires -3 <= d as int - e as int <= 2 && -3 <= d2 as int - e2 as int <= 2 && JumpsOnly(h', High(e, o, e2))
    ensures -8 <= Odd(h', d, d2) as int - o as int <= 2
            <==> InS16(2 * Landed(h', High(e, o, e2)) + Half(d as int + d2 as int))
  {
    hide High, ToS16, Jumps, Landed, Half;
    var h, f := High(e, o, e2) as int, Half(d as int + d2 as int);
    LandedIs(h', h);
    UnstoredOdd(e, o, e2, d, d2, Landed(h', h));
    WrapSame(2 * h' as int + f, 2 * Landed(h', h) + f, Jumps(h', h));
    FarWhenWrapped(2 * Landed(h', h) + f, o as int);
  }

  lemma UnstoredOdd(e: sint16, o: sint16, e2: sint16, d: sint16, d2: sint16, x: int)
    requires -3 <= d as int - e as int <= 2 && -3 <= d2 as int - e2 as int <= 2
    requires -2 <= x - High(e, o, e2) as int <= 0
    ensures -8 <= 2 * x + Half(d as int + d2 as int) - o as int <= 2
  {
    hide High;
    HighIs(e, o, e2);
    var h, a := High(e, o, e2) as int, Half(e as int + e2 as int);
    assert o as int - a - 1 <= 2 * h <= o as int - a;
    assert a - 3 <= Half(d as int + d2 as int) <= a + 2;
  }

  predicate EvenSampleFits(c: Line, w: nat, l': Line, h': Line, n: nat)
    requires |c| == 2 * w && |l'| == |h'| == w && n < w
  {
    var h, p := RowH(c, w), Prev(n);
    EvenStoreFits(c[2 * n], h[p], h[n], l'[n], h'[p], h'[n])
  }

  predicate OddSampleFits(c: Line, w: nat, l': Line, h': Line, n: nat)
    requires |c| == 2 * w && |l'| == |h'| == w && n < w
  {
    var e := RowEven(l', h');
    InS16(2 * Landed(h'[n], RowH(c, w)[n]) + Half(e[n] as int + e[Next(n, w)] as int))
  }

  lemma EvenLineIff(c: Line, w: nat, l': Line, h': Line, n: nat)
    requires |c| == 2 * w && n < w && LineJumps(l', RowL(c, w)) && LineJumps(h', RowH(c, w))
    ensures var d := RowEven(l', h')[n] as int - c[2 * n] as int;
            && (-8 <= d <= 2 <==> EvenSampleFits(c, w, l', h', n)) && (-8 <= d <= 2 <==> -3 <= d <= 2)
  {
    hide High, Even, LowC, JumpsOnly, EvenStoreFits;
    var h, l, p := RowH(c, w), RowL(c, w), Prev(n);
    assert l[n] == LowC(c[2 * n], h[p], h[n]);
    EvenPerturbedIff(c[2 * n], h[p], h[n], l'[n], h'[p], h'[n]);
  }

  lemma OddLineIff(c: Line, w: nat, l': Line, h': Line, n: nat)
    requires |c| == 2 * w && n < w && LineJumps(l', RowL(c, w)) && LineJumps(h', RowH(c, w))
    requires EvenSampleFits(c, w, l', h', n) && EvenSampleFits(c, w, l', h', Next(n, w))
    ensures -8 <= RowDec(l', h')[2 * n + 1] as int - c[2 * n + 1] as int <= 2 <==> OddSampleFits(c, w, l', h', n)
  {
    hide High, Odd, RowDec, RowL, RowEven, EvenSampleFits, JumpsOnly, Landed;
    var e, m := RowEven(l', h'), Next(n, w);
    EvenLineIff(c, w, l', h', n);
    EvenLineIff(c, w, l', h', m);
    RowDecAt(l', h', n);
    OddPerturbedIff(c[2 * n], c[2 * n + 1], c[2 * m], e[n], e[m], h'[n]);
  }

  // Every row of every block comes back within -2 .. 0, up to jumps.

  lemma EvenJumps(e: sint16, hm: sint16, h: sint16)
    ensures JumpsOnly(Even(LowC(e, hm, h), hm, h), e) && Jumps(Even(LowC(e, hm, h), hm, h), e) % 2 == 0
    ensures -1 <= Landed(Even(LowC(e, hm, h), hm, h), e) - e as int
  {
    hide ToS16, Jumps, JumpsOnly, Landed, LowC, Half;
    var s := hm as int + h as int;
    var k := LowStored(e, hm, h);
    var u := LowC(e, hm, h) as int - Half(s + 1);
    WrapMultiple(u);
    HalfUp(s);
    JumpsAre(ToS16(u), e, Half(s) - Half(s + 1), 2 * (k + (ToS16(u) - u) / 65536));
  }

  lemma HalfUp(s: int)
    ensures -1 <= Half(s) - Half(s + 1) <= 0
  {
  }

  lemma OddJumps(e: sint16, o: sint16, e2: sint16, d: sint16, d2: sint16)
    requires JumpsOnly(d, e) && JumpsOnly(d2, e2) && Jumps(d, e) % 2 == 0 && Jumps(d2, e2) % 2 == 0
    requires -1 <= Landed(d, e) - e as int && -1 <= Landed(d2, e2) - e2 as int
    ensures JumpsOnly(Odd(High(e, o, e2), d, d2), o)
  {
    hide High, ToS16, Jumps, Landed, Half, JumpsOnly;
    var h, i, j := High(e, o, e2) as int, Jumps(d, e), Jumps(d2, e2);
    LandedIs(d, e);
    LandedIs(d2, e2);
    BehindLanded(d, e);
    BehindLanded(d2, e2);
    var r := OddLanded(e, o, e2, Landed(d, e), Landed(d2, e2), i / 2, j / 2);
    var u := 2 * h + Half(d as int + d2 as int);
    WrapMultiple(u);
    JumpsAre(ToS16(u), o, r, i / 2 + j / 2 + 2 * ((ToS16(u) - u) / 65536));
  }

  lemma BehindLanded(a: int, b: int)
    requires JumpsOnly(a, b)
    ensures Landed(a, b) - b <= 0
  {
  }

  lemma OddLanded(e: sint16, o: sint16, e2: sint16, x: int, y: int, i: int, j: int) returns (r: int)
    requires -1 <= x - e as int <= 0 && -1 <= y - e2 as int <= 0
    ensures 2 * High(e, o, e2) as int + Half((x + 32768 * (2 * i)) + (y + 32768 * (2 * j)))
         == o as int + r + 32768 * (i + j)
    ensures -2 <= r <= 0
  {
    hide High;
    HighIs(e, o, e2);
    var h, a := High(e, o, e2) as int, Half(e as int + e2 as int);
    assert o as int - a - 1 <= 2 * h <= o as int - a;
    assert a - 1 <= Half(x + y) <= a;
    r := 2 * h + Half(x + y) - o as int;
  }

  lemma PairJumps(x: Line, w: nat, n: nat)
    requires |x| == 2 * w && n < w
    ensures var d := RowDec(RowL(x, w), RowH(x, w));
            JumpsOnly(d[2 * n], x[2 * n]) && JumpsOnly(d[2 * n + 1], x[2 * n + 1])
  {
    hide High, Even, LowC, Odd, RowDec, RowL, RowEven, JumpsOnly, Jumps, Landed;
    var l, h, m := RowL(x, w), RowH(x, w), Next(n, w);
    var e := RowEven(l, h);
    RowDecAt(l, h, n);
    EvenJumpsAt(x, w, n);
    EvenJumpsAt(x, w, m);
    OddJumps(x[2 * n], x[2 * n + 1], x[2 * m], e[n], e[m]);
  }

  lemma EvenJumpsAt(x: Line, w: nat, n: nat)
    requires |x| == 2 * w && n < w
    ensures var d := RowEven(RowL(x, w), RowH(x, w))[n];
            JumpsOnly(d, x[2 * n]) && Jumps(d, x[2 * n]) % 2 == 0 && -1 <= Landed(d, x[2 * n]) - x[2 * n] as int
  {
    hide High, Even, LowC, RowH, JumpsOnly, Jumps, Landed;
    var h := RowH(x, w);
    EvenJumps(x[2 * n], h[Prev(n)], h[n]);
  }

  /** A line of every width and any samples, decoded after encoding. */
  lemma RowJumps(x: Line, w: nat)
    requires |x| == 2 * w
    ensures LineJumps(RowDec(RowL(x, w), RowH(x, w)), x)
  {
    hide RowDec, RowL, RowH, JumpsOnly;
    var d := RowDec(RowL(x, w), RowH(x, w));
    forall i | 0 <= i < 2 * w ensures JumpsOnly(d[i], x[i]) {
      PairJumps(x, w, i / 2);
      assert i == 2 * (i / 2) || i == 2 * (i / 2) + 1;
    }
  }

  /** A row comes back near exactly under the condition for lines. */
  lemma RowNearIff(x: Line, w: nat)
    requires |x| == 2 * w
    ensures Near(RowDec(RowL(x, w), RowH(x, w)), x)
            <==> forall n :: 0 <= n < w ==> EvenKept(x, w, n) && OddFitsAt(x, w, n)
  {
    hide RowDec, RowL, RowH, EvenKept, OddFitsAt;
    var d := RowDec(RowL(x, w), RowH(x, w));
    LineIff(x, w);
    if Near(d, x) {
      forall n | 0 <= n < w ensures EvenBack(x, w, n) && OddBack(x, w, n) {
        EvenTighter(x, w, n);
      }
    }
    if forall n :: 0 <= n < w ==> EvenBack(x, w, n) && OddBack(x, w, n) {
      forall i | 0 <= i < 2 * w ensures -2 <= d[i] as int - x[i] as int <= 0 {
        assert EvenBack(x, w, i / 2) && OddBack(x, w, i / 2);
        assert i == 2 * (i / 2) || i == 2 * (i / 2) + 1;
      }
    }
  }

  lemma EvenTighter(x: Line, w: nat, n: nat)
    requires |x| == 2 * w && n < w && -2 <= RowDec(RowL(x, w), RowH(x, w))[2 * n] as int - x[2 * n] as int <= 0
    ensures EvenBack(x, w, n)
  {
    hide RowDec, RowH, High, Even, LowC;
    var h := RowH(x, w);
    RowDecAt(RowL(x, w), h, n);
    EvenOfLowIff(x[2 * n], h[Prev(n)], h[n]);
  }

  /** The columns of the horizontally decoded bands. */
  function LowBack(m: Matrix, w: nat, x: nat): (c: Line)
    requires Shape(m, 2 * w, 2 * w) && x < 2 * w
    ensures |c| == w
  {
    var b := Encode2D(m, w);
    Col(RowsDec(b.ll, b.hl, w), x, w, 2 * w)
  }

  function HighBack(m: Matrix, w: nat, x: nat): (c: Line)
    requires Shape(m, 2 * w, 2 * w) && x < 2 * w
    ensures |c| == w
  {
    var b := Encode2D(m, w);
    Col(RowsDec(b.lh, b.hh, w), x, w, 2 * w)
  }

  lemma ColumnsBackJump(m: Matrix, w: nat, x: nat)
    requires Shape(m, 2 * w, 2 * w) && x < 2 * w
    ensures var c := Col(m, x, 2 * w, 2 * w);
            LineJumps(LowBack(m, w, x), RowL(c, w)) && LineJumps(HighBack(m, w, x), RowH(c, w))
  {
    hide RowDec, RowL, RowH, JumpsOnly;
    var l, h := ColL(m, w), ColH(m, w);
    forall y | 0 <= y < w
      ensures LineJumps(RowDec(RowL(l[y], w), RowH(l[y], w)), l[y])
          && LineJumps(RowDec(RowL(h[y], w), RowH(h[y], w)), h[y])
    {
      RowJumps(l[y], w);
      RowJumps(h[y], w);
    }
  }

  /** In the two samples of row pair n in column x, jumps cancel and the stores fit 16 bits. */
  predicate CellFits(m: Matrix, w: nat, n: nat, x: nat)
    requires Shape(m, 2 * w, 2 * w) && n < w && x < 2 * w
  {
    var c, l', h' := Col(m, x, 2 * w, 2 * w), LowBack(m, w, x), HighBack(m, w, x);
    EvenSampleFits(c, w, l', h', n) && OddSampleFits(c, w, l', h', n)
  }

  predicate CellBack(m: Matrix, w: nat, y: nat, x: nat)
    requires Shape(m, 2 * w, 2 * w) && y < 2 * w && x < 2 * w
  {
    -8 <= Decode2D(Encode2D(m, w), w)[y][x] as int - m[y][x] as int <= 2
  }

  lemma BlockCells(m: Matrix, w: nat, n: nat, x: nat)
    requires Shape(m, 2 * w, 2 * w) && n < w && x < 2 * w
    ensures var d, l', h' := Decode2D(Encode2D(m, w), w), LowBack(m, w, x), HighBack(m, w, x);
            d[2 * n][x] == RowEven(l', h')[n] && d[2 * n + 1][x] == RowDec(l', h')[2 * n + 1]
  {
    hide RowDec, RowL, RowH, RowEven, RowsDec, Encode2D;
    RowDecAt(LowBack(m, w, x), HighBack(m, w, x), n);
  }

  predicate PairBack(m: Matrix, w: nat, n: nat, x: nat)
    requires Shape(m, 2 * w, 2 * w) && n < w && x < 2 * w
  {
    CellBack(m, w, 2 * n, x) && CellBack(m, w, 2 * n + 1, x)
  }

  predicate ColumnBack(m: Matrix, w: nat, x: nat)
    requires Shape(m, 2 * w, 2 * w) && x < 2 * w
  {
    forall n :: 0 <= n < w ==> PairBack(m, w, n, x)
  }

  predicate ColumnFits(m: Matrix, w: nat, x: nat)
    requires Shape(m, 2 * w, 2 * w) && x < 2 * w
  {
    forall n :: 0 <= n < w ==> CellFits(m, w, n, x)
  }

  lemma EvenCellIff(m: Matrix, w: nat, n: nat, x: nat)
    requires Shape(m, 2 * w, 2 * w) && n < w && x < 2 * w
    ensures CellBack(m, w, 2 * n, x) <==>
        EvenSampleFits(Col(m, x, 2 * w, 2 * w), w, LowBack(m, w, x), HighBack(m, w, x), n)
  {
    hide LineJumps, RowL, RowH, RowDec, RowEven, LowBack, HighBack, Decode2D, Encode2D, EvenSampleFits;
    ColumnsBackJump(m, w, x);
    BlockCells(m, w, n, x);
    EvenLineIff(Col(m, x, 2 * w, 2 * w), w, LowBack(m, w, x), HighBack(m, w, x), n);
  }

  lemma OddCellIff(m: Matrix, w: nat, n: nat, x: nat)
    requires Shape(m, 2 * w, 2 * w) && n < w && x < 2 * w
    requires CellBack(m, w, 2 * n, x) && CellBack(m, w, 2 * Next(n, w), x)
    ensures CellBack(m, w, 2 * n + 1, x) <==>
        OddSampleFits(Col(m, x, 2 * w, 2 * w), w, LowBack(m, w, x), HighBack(m, w, x), n)
  {
    hide LineJumps, RowL, RowH, RowDec, RowEven, LowBack, HighBack, Decode2D, Encode2D, EvenSampleFits, OddSampleFits;
    ColumnsBackJump(m, w, x);
    EvenCellIff(m, w, n, x);
    EvenCellIff(m, w, Next(n, w), x);
    BlockCells(m, w, n, x);
    OddLineIff(Col(m, x, 2 * w, 2 * w), w, LowBack(m, w, x), HighBack(m, w, x), n);
  }

  /** Column x comes back within -8 .. 2 exactly when every store in it fits. */
  lemma ColumnIff(m: Matrix, w: nat, x: nat)
    requires Shape(m, 2 * w, 2 * w) && x < 2 * w
    ensures ColumnBack(m, w, x) <==> ColumnFits(m, w, x)
  {
    hide CellBack, LowBack, HighBack, EvenSampleFits, OddSampleFits;
    if ColumnBack(m, w, x) {
      forall n | 0 <= n < w ensures CellFits(m, w, n, x) {
        assert PairBack(m, w, n, x) && PairBack(m, w, Next(n, w), x);
        EvenCellIff(m, w, n, x);
        OddCellIff(m, w, n, x);
      }
    }
    if ColumnFits(m, w, x) {
      forall n | 0 <= n < w ensures PairBack(m, w, n, x) {
        assert CellFits(m, w, n, x) && CellFits(m, w, Next(n, w), x);
        EvenCellIff(m, w, n, x);
        EvenCellIff(m, w, Next(n, w), x);
        OddCellIff(m, w, n, x);
      }
    }
  }

  /** Main result: for every width and every block, all samples come back within -8 .. 2 if and only if in every
      sample of the vertical pass the jumps of the horizontal one cancel and the store fits 16 bits. */
  lemma BlockIff(m: Matrix, w: nat)
    requires Shape(m, 2 * w, 2 * w)
    ensures (forall y, x :: 0 <= y < 2 * w && 0 <= x < 2 * w ==> CellBack(m, w, y, x))
            <==> (forall x :: 0 <= x < 2 * w ==> ColumnFits(m, w, x))
  {
    hide CellBack, ColumnFits;
    forall x | 0 <= x < 2 * w ensures ColumnBack(m, w, x) <==> ColumnFits(m, w, x) {
      ColumnIff(m, w, x);
    }
    if forall x :: 0 <= x < 2 * w ==> ColumnFits(m, w, x) {
      forall y, x | 0 <= y < 2 * w && 0 <= x < 2 * w ensures CellBack(m, w, y, x) {
        assert ColumnFits(m, w, x) && ColumnBack(m, w, x);
        assert PairBack(m, w, y / 2, x);
        assert y == 2 * (y / 2) || y == 2 * (y / 2) + 1;
      }
    }
    if forall y, x :: 0 <= y < 2 * w && 0 <= x < 2 * w ==> CellBack(m, w, y, x) {
      forall x | 0 <= x < 2 * w ensures ColumnFits(m, w, x) {
        assert forall n :: 0 <= n < w ==> PairBack(m, w, n, x);
      }
    }
  }

  // ---- A block that does not come back ----

  lemma LineOfTwo(a: sint16, b: sint16)
    ensures RowH([a, b], 1) == [High(a, b, a)] && RowL([a, b], 1) == [LowC(a, High(a, b, a), High(a, b, a))]
  {
    hide High, LowC;
    var x: Line := [a, b];
    assert x[0] == a && x[1] == b;
  }

  lemma PairBackTo(l: sint16, h: sint16)
    ensures RowDec([l], [h]) == [Even(l, h, h), Odd(h, Even(l, h, h), Even(l, h, h))]
  {
    hide Even, Odd;
    RowDecAt([l], [h], 0);
  }

  /** A store that fits keeps its value. */
  lemma Kept(v: int)
    requires InS16(v)
    ensures ToS16(v) == v
  {
  }

  lemma HighValue(e: sint16, o: sint16, e2: sint16, a: int, v: sint16)
    requires 2 * a <= e as int + e2 as int <= 2 * a + 1 && 2 * v as int <= o as int - a <= 2 * v as int + 1
    ensures High(e, o, e2) == v
  {
    hide High;
    HighIs(e, o, e2);
  }

  lemma LowValue(e: sint16, h: sint16, v: sint16)
    requires v as int == e as int + h as int
    ensures LowC(e, h, h) == v
  {
    hide ToS16;
    assert Half(h as int + h as int) == h as int;
    Kept(v as int);
  }

  lemma EvenValue(l: sint16, h: sint16, v: sint16)
    requires v as int == l as int - h as int || v as int == l as int - h as int - 65536
    ensures Even(l, h, h) == v
  {
    hide ToS16;
    assert Half(h as int + h as int + 1) == h as int;
    Kept(v as int);
    WrapSame(l as int - h as int, v as int, if v as int == l as int - h as int then 0 else 1);
  }

  lemma OddValue(h: sint16, d: sint16, v: sint16)
    requires v as int == 2 * h as int + d as int
    ensures Odd(h, d, d) == v
  {
    hide ToS16;
    assert Half(d as int + d as int) == d as int;
    Kept(v as int);
  }

  const FAILING_BLOCK: Matrix := [[2, 32767], [1, 32767]]

  lemma FailingBands()
    ensures Shape(FAILING_BLOCK, 2, 2) && Encode2D(FAILING_BLOCK, 1) == Bands([[16383]], [[-1]], [[0]], [[16384]])
  {
    hide High, LowC, RowH, RowL;
    var m := FAILING_BLOCK;
    assert Col(m, 0, 2, 2) == [2, 1] && Col(m, 1, 2, 2) == [32767, 32767];
    LineOfTwo(2, 1);
    LineOfTwo(32767, 32767);
    HighValue(2, 1, 2, 2, -1);
    LowValue(2, -1, 1);
    HighValue(32767, 32767, 32767, 32767, 0);
    LowValue(32767, 0, 32767);
    HighValue(1, 32767, 1, 1, 16383);
    LowValue(1, 16383, 16384);
    HighValue(-1, 0, -1, -1, 0);
    LowValue(-1, 0, -1);
    var l, h := ColL(m, 1), ColH(m, 1);
    assert l[0][0] == 1 && l[0][1] == 32767 && h[0][0] == -1 && h[0][1] == 0;
    assert l[0] == [1, 32767] && h[0] == [-1, 0];
    LineOfTwo(1, 32767);
    LineOfTwo(-1, 0);
    assert RowsH(l, 1)[0] == [16383] && RowsL(l, 1)[0] == [16384] && RowsH(h, 1)[0] == [0] && RowsL(h, 1)[0] == [-1];
  }

  /** The sample 32767 at row 0, column 1 comes back as -32768. */
  lemma TopSampleLost()
    ensures Shape(FAILING_BLOCK, 2, 2) && Decode2D(Encode2D(FAILING_BLOCK, 1), 1)[0][1] == -32768
        && FAILING_BLOCK[0][1] == 32767
  {
    hide Even, Odd, RowDec, Encode2D;
    FailingBands();
    EvenValue(16384, 16383, 1);
    OddValue(16383, 1, 32767);
    EvenValue(-1, 0, -1);
    OddValue(0, -1, -1);
    EvenValue(32767, -1, -32768);
    PairBackTo(16384, 16383);
    PairBackTo(-1, 0);
    PairBackTo(32767, -1);
    var b := Encode2D(FAILING_BLOCK, 1);
    var l, h := RowsDec(b.ll, b.hl, 1), RowsDec(b.lh, b.hh, 1);
    assert l[0] == [1, 32767] && h[0] == [-1, -1];
    assert Col(l, 1, 1, 2) == [32767] && Col(h, 1, 1, 2) == [-1];
  }

  // ---- The ten bands of three levels in a flat buffer ----

  /** Which band, in the order of the quantization values, cell i of a coded buffer belongs to. */
  function BandOf(i: nat): (b: nat)
    ensures b < 10
  {
    if i < 1024 then 8 else if i < 2048 then 7 else if i < 3072 then 9
    else if i < 3328 then 5 else if i < 3584 then 4 else if i < 3840 then 6
    else if i < 3904 then 2 else if i < 3968 then 1 else if i < 4032 then 3 else 0
  }
}
