/** How far the low band can grow over several levels (libfreerdp-codec/rfx_dwt.c). One level may grow it by half in
    each direction, but no signal does so on every level: the levels are joined through the linear filter behind
    them, scaled to integers. */
module DwtGain {
  import opened Words
  import opened Dwt
  import opened DwtBlock

  // ---- Ranges: the low band grows by half ----

  function Grown15(b: int): int { (3 * b + 2) / 2 }

  /** A low coefficient away from the border, before its store, in terms of the five samples around it. */
  lemma LowSum(e0: sint16, o0: sint16, e: sint16, o: sint16, e2: sint16, b: int)
    requires -b <= e0 as int <= b && -b <= o0 as int <= b && -b <= e as int <= b && -b <= o as int <= b
        && -b <= e2 as int <= b
    ensures var s := e as int + Half(High(e0, o0, e) as int + High(e, o, e2) as int);
            0 - Grown15(b) <= s <= Grown15(b)
  {
    hide High;
    HighIs(e0, o0, e);
    HighIs(e, o, e2);
    var hm, h := High(e0, o0, e) as int, High(e, o, e2) as int;
    assert 4 * hm <= 2 * o0 as int - e0 as int - e as int + 1 && 4 * hm >= 2 * o0 as int - e0 as int - e as int - 2;
    assert 4 * h <= 2 * o as int - e as int - e2 as int + 1 && 4 * h >= 2 * o as int - e as int - e2 as int - 2;
    assert hm + h - 1 <= 2 * Half(hm + h) <= hm + h;
  }

  /** The first one, where the high coefficient is mirrored. */
  lemma FirstLowSum(e: sint16, o: sint16, e2: sint16, b: int)
    requires -b <= e as int <= b && -b <= o as int <= b && -b <= e2 as int <= b
    ensures var s := e as int + Half(High(e, o, e2) as int + High(e, o, e2) as int);
            0 - Grown15(b) <= s <= Grown15(b)
  {
    hide High;
    HighIs(e, o, e2);
    var h := High(e, o, e2) as int;
    assert 4 * h <= 2 * o as int - e as int - e2 as int + 1 && 4 * h >= 2 * o as int - e as int - e2 as int - 2;
    assert Half(h + h) == h;
  }

  lemma LowRange(c: Line, w: nat, b: int, n: nat)
    requires |c| == 2 * w && Within(c, b) && n < w && Grown15(b) <= 32767
    ensures 0 - Grown15(b) <= RowL(c, w)[n] as int <= Grown15(b)
  {
    hide High, Grown15, RowH, RowL, LowC;
    var h := RowH(c, w);
    LowAt(c, w, n);
    HighAt(c, w, n);
    if n == 0 {
      FirstLowSum(c[0], c[1], c[2 * Next(0, w)], b);
      LowIs(c[0], h[0], h[0]);
    } else {
      HighAt(c, w, n - 1);
      LowSum(c[2 * n - 2], c[2 * n - 1], c[2 * n], c[2 * n + 1], c[2 * Next(n, w)], b);
      LowIs(c[2 * n], h[n - 1], h[n]);
    }
  }

  lemma LowIs(e: sint16, hm: sint16, h: sint16)
    requires InS16(e as int + Half(hm as int + h as int))
    ensures LowC(e, hm, h) as int == e as int + Half(hm as int + h as int)
  {
    hide ToS16;
    Kept(e as int + Half(hm as int + h as int));
  }

  lemma HighRange(c: Line, w: nat, b: int, n: nat)
    requires |c| == 2 * w && Within(c, b) && n < w
    ensures 0 - b <= RowH(c, w)[n] as int <= b
  {
    hide High;
    HighWithin(c[2 * n], c[2 * n + 1], c[2 * Next(n, w)], b);
  }

  lemma ColsRange(m: Matrix, w: nat, b: int)
    requires Shape(m, 2 * w, 2 * w) && MatrixWithin(m, b) && Grown15(b) <= 32767
    ensures MatrixWithin(ColL(m, w), Grown15(b)) && MatrixWithin(ColH(m, w), b)
  {
    hide RowL, RowH, Grown15;
    forall n, x | 0 <= n < w && 0 <= x < 2 * w
      ensures 0 - Grown15(b) <= ColL(m, w)[n][x] as int <= Grown15(b) && 0 - b <= ColH(m, w)[n][x] as int <= b
    {
      var c := Col(m, x, 2 * w, 2 * w);
      assert Within(c, b) by {
        forall y | 0 <= y < 2 * w ensures -b <= c[y] as int <= b {
          assert Within(m[y], b);
        }
      }
      LowRange(c, w, b, n);
      HighRange(c, w, b, n);
    }
  }

  lemma RowsRange(m: Matrix, w: nat, b: int)
    requires Shape(m, w, 2 * w) && MatrixWithin(m, b) && Grown15(b) <= 32767
    ensures MatrixWithin(RowsL(m, w), Grown15(b))
  {
    hide RowL, RowH, Grown15;
    forall y, n | 0 <= y < w && 0 <= n < w ensures 0 - Grown15(b) <= RowsL(m, w)[y][n] as int <= Grown15(b) {
      assert Within(m[y], b);
      LowRange(m[y], w, b, n);
    }
  }

  /** The bands of one level. */
  lemma LevelRange(m: Matrix, w: nat, b: int)
    requires Shape(m, 2 * w, 2 * w) && MatrixWithin(m, b) && 0 <= b && Grown15(b) <= 32767
    ensures MatrixWithin(ColL(m, w), Grown15(b)) && MatrixWithin(ColH(m, w), b)
    ensures Grown15(Grown15(b)) <= 32767 ==> MatrixWithin(Encode2D(m, w).ll, Grown15(Grown15(b)))
  {
    hide ColL, ColH, RowsL, RowsH, Within;
    ColsRange(m, w, b);
    if Grown15(Grown15(b)) <= 32767 {
      RowsRange(ColL(m, w), w, Grown15(b));
    }
  }

  lemma WiderMatrix(m: Matrix, b: int, b': int)
    requires MatrixWithin(m, b) && b <= b'
    ensures MatrixWithin(m, b')
  {
    forall y | 0 <= y < |m| ensures Within(m[y], b') {
      assert Within(m[y], b);
    }
  }

  type Ints = seq<int>
  type IntMatrix = seq<Ints>

  // ---- The low-pass filter on lines, times 8 ----

  /** Four times the high coefficient before rounding. */
  function High4(x: Ints, w: nat, k: nat): int
    requires |x| == 2 * w && k < w
  {
    2 * x[2 * k + 1] - x[2 * k] - x[2 * Next(k, w)]
  }

  /** Eight times the low coefficient before rounding. */
  function Low8(x: Ints, w: nat, n: nat): int
    requires |x| == 2 * w && n < w
  {
    8 * x[2 * n] + High4(x, w, Prev(n)) + High4(x, w, n)
  }

  function Lows(x: Ints, w: nat): (l: Ints)
    requires |x| == 2 * w
    ensures |l| == w && forall n :: 0 <= n < w ==> l[n] == Low8(x, w, n)
  {
    seq(w, n requires 0 <= n < w => Low8(x, w, n))
  }

  predicate Bounded(x: Ints, b: int) { forall i :: 0 <= i < |x| ==> -b <= x[i] <= b }

  lemma LowApprox(c: Line, w: nat, b: int, n: nat)
    requires |c| == 2 * w && Within(c, b) && n < w && Grown15(b) <= 32767
    ensures -8 <= 8 * RowL(c, w)[n] as int - Low8(c, w, n) <= 2
  {
    hide High, Grown15, RowH, RowL, LowC;
    var h := RowH(c, w);
    LowAt(c, w, n);
    HighApprox(c, w, n);
    HighApprox(c, w, Prev(n));
    LowFitsRange(c, w, b, n);
    LowIs(c[2 * n], h[Prev(n)], h[n]);
  }

  lemma HighApprox(c: Line, w: nat, k: nat)
    requires |c| == 2 * w && k < w
    ensures -2 <= 4 * RowH(c, w)[k] as int - High4(c, w, k) <= 1
  {
    hide High;
    HighIs(c[2 * k], c[2 * k + 1], c[2 * Next(k, w)]);
  }

  lemma LowFitsRange(c: Line, w: nat, b: int, n: nat)
    requires |c| == 2 * w && Within(c, b) && n < w && Grown15(b) <= 32767
    ensures InS16(c[2 * n] as int + Half(RowH(c, w)[Prev(n)] as int + RowH(c, w)[n] as int))
  {
    hide High, RowL;
    if n == 0 {
      FirstLowSum(c[0], c[1], c[2 * Next(0, w)], b);
    } else {
      LowSum(c[2 * n - 2], c[2 * n - 1], c[2 * n], c[2 * n + 1], c[2 * Next(n, w)], b);
    }
  }

  lemma Inner(x: Ints, w: nat, n: nat)
    requires |x| == 2 * w && 0 < n < w - 1
    ensures Low8(x, w, n) == 6 * x[2 * n] + 2 * x[2 * n - 1] + 2 * x[2 * n + 1] - x[2 * n - 2] - x[2 * n + 2]
  {
  }

  lemma First(x: Ints, w: nat)
    requires |x| == 2 * w && w > 1
    ensures Low8(x, w, 0) == 6 * x[0] + 4 * x[1] - 2 * x[2]
  {
  }

  lemma Last(x: Ints, w: nat)
    requires |x| == 2 * w && w > 1
    ensures Low8(x, w, w - 1) == 5 * x[2 * w - 2] + 2 * x[2 * w - 3] + 2 * x[2 * w - 1] - x[2 * w - 4]
  {
  }

  /** Two levels: 104 / 64, where twice the growth of one level would be 144 / 64. */
  lemma TwoLevels(x: Ints, w: nat, b: int, n: nat)
    requires |x| == 4 * w && Bounded(x, b) && n < w && w >= 4
    ensures -104 * b <= Low8(Lows(x, 2 * w), w, n) <= 104 * b
  {
    hide Low8, Bounded;
    if n == 0 {
      TwoFirst(x, w, b);
    } else if n == 1 {
      TwoSecond(x, w, b);
    } else if n == w - 1 {
      TwoLast(x, w, b);
    } else {
      TwoInner(x, w, b, n);
    }
  }

  lemma Tap(x: Ints, b: int, i: nat)
    requires Bounded(x, b) && i < |x|
    ensures -b <= x[i] <= b
  {
  }

  lemma TwoFirst(x: Ints, w: nat, b: int)
    requires |x| == 4 * w && Bounded(x, b) && w >= 4
    ensures -104 * b <= Low8(Lows(x, 2 * w), w, 0) <= 104 * b
  {
    hide Low8, Bounded;
    First(Lows(x, 2 * w), w);
    First(x, 2 * w);
    Inner(x, 2 * w, 1);
    Inner(x, 2 * w, 2);
    Tap(x, b, 0); Tap(x, b, 1); Tap(x, b, 2); Tap(x, b, 3); Tap(x, b, 4); Tap(x, b, 5); Tap(x, b, 6);
  }

  lemma TwoSecond(x: Ints, w: nat, b: int)
    requires |x| == 4 * w && Bounded(x, b) && w >= 4
    ensures -104 * b <= Low8(Lows(x, 2 * w), w, 1) <= 104 * b
  {
    hide Low8, Bounded;
    Inner(Lows(x, 2 * w), w, 1);
    First(x, 2 * w);
    Inner(x, 2 * w, 1);
    Inner(x, 2 * w, 2);
    Inner(x, 2 * w, 3);
    Inner(x, 2 * w, 4);
    Tap(x, b, 0); Tap(x, b, 1); Tap(x, b, 2); Tap(x, b, 3); Tap(x, b, 4); Tap(x, b, 5); Tap(x, b, 6);
    Tap(x, b, 7); Tap(x, b, 8); Tap(x, b, 9); Tap(x, b, 10);
  }

  lemma TwoInner(x: Ints, w: nat, b: int, n: nat)
    requires |x| == 4 * w && Bounded(x, b) && 1 < n < w - 1
    ensures -104 * b <= Low8(Lows(x, 2 * w), w, n) <= 104 * b
  {
    hide Low8, Bounded;
    var k := 4 * n;
    Inner(Lows(x, 2 * w), w, n);
    Inner(x, 2 * w, 2 * n - 2);
    Inner(x, 2 * w, 2 * n - 1);
    Inner(x, 2 * w, 2 * n);
    Inner(x, 2 * w, 2 * n + 1);
    Inner(x, 2 * w, 2 * n + 2);
    Tap(x, b, k - 6); Tap(x, b, k - 5); Tap(x, b, k - 4); Tap(x, b, k - 3); Tap(x, b, k - 2); Tap(x, b, k - 1); Tap(x,
        b, k);
    Tap(x, b, k + 1); Tap(x, b, k + 2); Tap(x, b, k + 3); Tap(x, b, k + 4); Tap(x, b, k + 5); Tap(x, b, k + 6);
  }

  lemma TwoLast(x: Ints, w: nat, b: int)
    requires |x| == 4 * w && Bounded(x, b) && w >= 4
    ensures -104 * b <= Low8(Lows(x, 2 * w), w, w - 1) <= 104 * b
  {
    hide Low8, Bounded;
    var n, k := w - 1, 4 * w - 4;
    Last(Lows(x, 2 * w), w);
    Last(x, 2 * w);
    Inner(x, 2 * w, 2 * n - 2);
    Inner(x, 2 * w, 2 * n - 1);
    Inner(x, 2 * w, 2 * n);
    Tap(x, b, k - 6); Tap(x, b, k - 5); Tap(x, b, k - 4); Tap(x, b, k - 3); Tap(x, b, k - 2); Tap(x, b, k - 1); Tap(x,
        b, k);
    Tap(x, b, k + 1); Tap(x, b, k + 2); Tap(x, b, k + 3);
  }

  // ---- Matrices ----

  predicate Sized(m: IntMatrix, rows: nat, cols: nat)
  {
    |m| == rows && forall y :: 0 <= y < rows ==> |m[y]| == cols
  }

  function Column(m: IntMatrix, x: nat, rows: nat, cols: nat): (c: Ints)
    requires Sized(m, rows, cols) && x < cols
    ensures |c| == rows && forall y :: 0 <= y < rows ==> c[y] == m[y][x]
  {
    seq(rows, y requires 0 <= y < rows => m[y][x])
  }

  function RowsLow(m: IntMatrix, rows: nat, w: nat): (r: IntMatrix)
    requires Sized(m, rows, 2 * w)
    ensures Sized(r, rows, w) && forall y, n :: 0 <= y < rows && 0 <= n < w ==> r[y][n] == Low8(m[y], w, n)
  {
    seq(rows, y requires 0 <= y < rows => Lows(m[y], w))
  }

  function ColsLow(m: IntMatrix, w: nat, cols: nat): (r: IntMatrix)
    requires Sized(m, 2 * w, cols)
    ensures Sized(r, w, cols)
    ensures forall n, x :: 0 <= n < w && 0 <= x < cols ==> r[n][x] == Low8(Column(m, x, 2 * w, cols), w, n)
  {
    seq(w, n requires 0 <= n < w => seq(cols, x requires 0 <= x < cols => Low8(Column(m, x, 2 * w, cols), w, n)))
  }

  /** The two directions commute. */
  lemma Commute(m: IntMatrix, h: nat, w: nat)
    requires Sized(m, 2 * h, 2 * w)
    ensures RowsLow(ColsLow(m, h, 2 * w), h, w) == ColsLow(RowsLow(m, 2 * h, w), h, w)
  {
    hide Low8;
    var a, b := RowsLow(ColsLow(m, h, 2 * w), h, w), ColsLow(RowsLow(m, 2 * h, w), h, w);
    forall y, x | 0 <= y < h && 0 <= x < w ensures a[y][x] == b[y][x] {
      CommuteAt(m, h, w, y, x);
    }
    forall y | 0 <= y < h ensures a[y] == b[y] {
      assert |a[y]| == |b[y]| == w;
    }
  }

  /** The filter written out. */
  function Mix(e: int, om: int, em: int, en: int, o: int, e2: int): int { 7 * e + 2 * om - em - en + 2 * o - e2 }

  lemma LowIsMix(x: Ints, w: nat, n: nat)
    requires |x| == 2 * w && n < w
    ensures var p := Prev(n);
            Low8(x, w, n) == Mix(x[2 * n], x[2 * p + 1], x[2 * p], x[2 * Next(p, w)], x[2 * n + 1], x[2 * Next(n, w)])
  {
  }

  predicate MixOf(a: Ints, e: Ints, om: Ints, em: Ints, en: Ints, o: Ints, e2: Ints)
  {
    && |a| == |e| == |om| == |em| == |en| == |o| == |e2|
    && forall k :: 0 <= k < |a| ==> a[k] == Mix(e[k], om[k], em[k], en[k], o[k], e2[k])
  }

  lemma LowOfMix(a: Ints, e: Ints, om: Ints, em: Ints, en: Ints, o: Ints, e2: Ints, w: nat, n: nat)
    requires |a| == 2 * w && n < w && MixOf(a, e, om, em, en, o, e2)
    ensures Low8(a, w, n)
         == Mix(Low8(e, w, n), Low8(om, w, n), Low8(em, w, n), Low8(en, w, n), Low8(o, w, n), Low8(e2, w, n))
  {
    var p := Prev(n);
    var i, j := 2 * Next(p, w), 2 * Next(n, w);
    assert a[2 * n] == Mix(e[2 * n], om[2 * n], em[2 * n], en[2 * n], o[2 * n], e2[2 * n]);
    assert a[2 * p] == Mix(e[2 * p], om[2 * p], em[2 * p], en[2 * p], o[2 * p], e2[2 * p]);
    assert a[i] == Mix(e[i], om[i], em[i], en[i], o[i], e2[i]) && a[j] == Mix(e[j], om[j], em[j], en[j], o[j], e2[j]);
  }

  lemma CommuteAt(m: IntMatrix, h: nat, w: nat, y: nat, x: nat)
    requires Sized(m, 2 * h, 2 * w) && y < h && x < w
    ensures Low8(ColsLow(m, h, 2 * w)[y], w, x) == Low8(Column(RowsLow(m, 2 * h, w), x, 2 * h, w), h, y)
  {
    hide Low8;
    var c, r, p := ColsLow(m, h, 2 * w), RowsLow(m, 2 * h, w), Prev(y);
    var i, j := 2 * Next(p, h), 2 * Next(y, h);
    forall k | 0 <= k < 2 * w
      ensures c[y][k] == Mix(m[2 * y][k], m[2 * p + 1][k], m[2 * p][k], m[i][k], m[2 * y + 1][k], m[j][k])
    {
      LowIsMix(Column(m, k, 2 * h, 2 * w), h, y);
    }
    LowOfMix(c[y], m[2 * y], m[2 * p + 1], m[2 * p], m[i], m[2 * y + 1], m[j], w, x);
    LowIsMix(Column(r, x, 2 * h, w), h, y);
  }

  // ---- The rounded bands beside the exact ones ----

  /** k times a is e, up to lo .. hi. */
  predicate Scaled(a: IntMatrix, k: int, e: IntMatrix, o: Off)
  {
    |a| == |e| && forall y :: 0 <= y < |a| ==> LineScaled(a[y], k, e[y], o)
  }

  predicate LineScaled(a: Ints, k: int, e: Ints, o: Off)
  {
    |a| == |e| && forall i :: 0 <= i < |a| ==> o.lo <= k * a[i] - e[i] <= o.hi
  }

  /** What one more rounded pass adds to the error. */
  function Rounded(o: Off, k: int): Off { Off(11 * o.lo - 3 * o.hi - 8 * k, 11 * o.hi - 3 * o.lo + 2 * k) }

  lemma MixScaled(k: int, e: int, om: int, em: int, en: int, o: int, e2: int)
    ensures k * Mix(e, om, em, en, o, e2) == Mix(k * e, k * om, k * em, k * en, k * o, k * e2)
  {
  }

  lemma LowScaled(c: Line, w: nat, b: int, k: int, x: Ints, o: Off, n: nat)
    requires |c| == 2 * w && Within(c, b) && Grown15(b) <= 32767 && n < w && k >= 1 && LineScaled(c, k, x, o)
    ensures Rounded(o, k).lo <= (8 * k) * RowL(c, w)[n] as int - Low8(x, w, n) <= Rounded(o, k).hi
  {
    hide Low8, RowL, Grown15, Within;
    var p := Prev(n);
    var i, j := 2 * Next(p, w), 2 * Next(n, w);
    LowApprox(c, w, b, n);
    LowIsMix(c, w, n);
    LowIsMix(x, w, n);
    MixScaled(k, c[2 * n], c[2 * p + 1], c[2 * p], c[i], c[2 * n + 1], c[j]);
    TimesRange(k, 8 * RowL(c, w)[n] as int - Low8(c, w, n), RowL(c, w)[n] as int, Low8(c, w, n));
  }

  lemma TimesRange(k: int, d: int, l: int, s: int)
    requires k >= 1 && d == 8 * l - s && -8 <= d <= 2
    ensures -8 * k <= (8 * k) * l - k * s <= 2 * k
  {
    assert (8 * k) * l - k * s == k * d;
  }

  lemma RowsScaled(m: Matrix, w: nat, b: int, k: int, e: IntMatrix, o: Off)
    requires Shape(m, w, 2 * w) && Sized(e, w, 2 * w) && MatrixWithin(m, b) && Grown15(b) <= 32767 && k >= 1
    requires Scaled(m, k, e, o)
    ensures Scaled(RowsL(m, w), 8 * k, RowsLow(e, w, w), Rounded(o, k))
  {
    hide Low8, RowL, Grown15, Within, Rounded;
    forall y | 0 <= y < w ensures LineScaled(RowsL(m, w)[y], 8 * k, RowsLow(e, w, w)[y], Rounded(o, k)) {
      assert LineScaled(m[y], k, e[y], o) && Within(m[y], b);
      forall n | 0 <= n < w
        ensures Rounded(o, k).lo <= (8 * k) * RowsL(m, w)[y][n] as int - RowsLow(e, w, w)[y][n] <= Rounded(o, k).hi
      {
        LowScaled(m[y], w, b, k, e[y], o, n);
      }
    }
  }

  lemma ColsScaled(m: Matrix, w: nat, b: int, k: int, e: IntMatrix, o: Off)
    requires Shape(m, 2 * w, 2 * w) && Sized(e, 2 * w, 2 * w) && MatrixWithin(m, b) && Grown15(b) <= 32767 && k >= 1
    requires Scaled(m, k, e, o)
    ensures Scaled(ColL(m, w), 8 * k, ColsLow(e, w, 2 * w), Rounded(o, k))
  {
    hide Low8, RowL, Grown15, Within, Rounded;
    forall n, x | 0 <= n < w && 0 <= x < 2 * w
      ensures Rounded(o, k).lo <= (8 * k) * ColL(m, w)[n][x] as int - ColsLow(e, w, 2 * w)[n][x] <= Rounded(o, k).hi
    {
      var c, d := Col(m, x, 2 * w, 2 * w), Column(e, x, 2 * w, 2 * w);
      ColumnScaled(m, w, b, k, e, o, x);
      LowScaled(c, w, b, k, d, o, n);
    }
  }

  lemma ColumnScaled(m: Matrix, w: nat, b: int, k: int, e: IntMatrix, o: Off, x: nat)
    requires Shape(m, 2 * w, 2 * w) && Sized(e, 2 * w, 2 * w) && MatrixWithin(m, b) && x < 2 * w && Scaled(m, k, e, o)
    ensures Within(Col(m, x, 2 * w, 2 * w), b)
    ensures LineScaled(Col(m, x, 2 * w, 2 * w), k, Column(e, x, 2 * w, 2 * w), o)
  {
    forall y | 0 <= y < 2 * w ensures -b <= m[y][x] as int <= b && o.lo <= k * m[y][x] as int - e[y][x] <= o.hi {
      assert Within(m[y], b) && LineScaled(m[y], k, e[y], o);
    }
  }

  // ---- The low-low bands of a 64 x 64 block ----

  function LowOne(m: Matrix): (l: Matrix)
    requires Shape(m, 64, 64)
    ensures Shape(l, 32, 32)
  {
    Encode2D(m, 32).ll
  }

  function LowTwo(m: Matrix): (l: Matrix)
    requires Shape(m, 64, 64)
    ensures Shape(l, 16, 16)
  {
    hide LowOne;
    Encode2D(LowOne(m), 16).ll
  }

  /** The exact filter, four times, in the order of the passes. */
  function Exact(m: IntMatrix): (e: IntMatrix)
    requires Sized(m, 64, 64)
    ensures Sized(e, 16, 16)
  {
    hide ColsLow, RowsLow;
    RowsLow(ColsLow(RowsLow(ColsLow(m, 32, 64), 32, 32), 16, 32), 16, 16)
  }

  lemma ExactBound(m: IntMatrix, b: int, y: nat, x: nat)
    requires Sized(m, 64, 64) && y < 16 && x < 16 && forall i :: 0 <= i < 64 ==> Bounded(m[i], b)
    ensures -10816 * b <= Exact(m)[y][x] <= 10816 * b
  {
    hide Low8;
    var c := ColsLow(m, 32, 64);
    var cc := ColsLow(c, 16, 64);
    Commute(c, 16, 32);
    forall k | 0 <= k < 64 ensures -104 * b <= cc[y][k] <= 104 * b {
      var d := Column(m, k, 64, 64);
      forall i | 0 <= i < 64 ensures -b <= d[i] <= b {
        assert Bounded(m[i], b);
      }
      TwoLevels(d, 16, b, y);
      assert Column(c, k, 32, 64) == Lows(d, 32);
    }
    TwoLevels(cc[y], 16, 104 * b, x);
    assert RowsLow(cc, 16, 32)[y] == Lows(cc[y], 32);
  }

  /** Main result: over the range of the codec's samples, the low-low band of the second level stays within 10824,
      where the growth of one level four times would allow 20743. */
  lemma LowTwoRange(m: Matrix)
    requires Shape(m, 64, 64) && MatrixWithin(m, 4096)
    ensures MatrixWithin(LowOne(m), 9218) && MatrixWithin(LowTwo(m), 10824)
  {
    hide ColL, ColsLow, RowsL, RowsLow, MatrixWithin, Scaled;
    LevelRange(m, 32, 4096);
    var l1, m2 := ColL(m, 32), LowOne(m);
    LevelRange(m2, 16, 9218);
    var e1 := ColsLow(m, 32, 64);
    var e2 := RowsLow(e1, 32, 32);
    var e3 := ColsLow(e2, 16, 32);
    OnceScaled(m);
    ColsScaled(m, 32, 4096, 1, m, Off(0, 0));
    RowsScaled(l1, 32, 6145, 8, e1, Off(-8, 2));
    ColsScaled(m2, 16, 9218, 64, e2, Off(-158, 62));
    RowsScaled(ColL(m2, 16), 16, 13828, 512, e3, Off(-2436, 1284));
    FromScaled(m, LowTwo(m));
  }

  lemma OnceScaled(m: Matrix)
    ensures Scaled(m, 1, m, Off(0, 0))
  {
  }

  lemma FromScaled(m: Matrix, l: Matrix)
    requires Shape(m, 64, 64) && Shape(l, 16, 16) && MatrixWithin(m, 4096)
        && Scaled(l, 4096, Exact(m), Off(-34744, 22456))
    ensures MatrixWithin(l, 10824)
  {
    hide Exact;
    forall y, x | 0 <= y < 16 && 0 <= x < 16 ensures -10824 <= l[y][x] <= 10824 {
      forall i | 0 <= i < 64 ensures Bounded(m[i], 4096) {
        assert Within(m[i], 4096);
      }
      ExactBound(m, 4096, y, x);
      assert LineScaled(l[y], 4096, Exact(m)[y], Off(-34744, 22456));
    }
  }
}
