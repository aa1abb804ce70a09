/** The scalar inverse wavelet loops over flat buffers (libfreerdp-codec/rfx_dwt.c). */
module DwtInverse {
  import opened Words
  import opened Grid
  import opened Dwt
  import opened DwtBlock

  // ---- Horizontal pass ----

  /** Every even value of the line at d up to n. */
  ghost predicate EvensSet(s: seq<sint16>, d: nat, e: Line, n: nat)
  {
    n <= |e| && d + 2 * |e| <= |s| && forall k :: 0 <= k < n ==> s[d + 2 * k] == e[k]
  }

  ghost predicate OddsSet(s: seq<sint16>, d: nat, o: Line, n: nat)
  {
    n <= |o| && d + 2 * |o| <= |s| && forall k :: 0 <= k < n ==> s[d + 2 * k + 1] == o[k]
  }

  ghost predicate KeptOutside(s: seq<sint16>, t: seq<sint16>, a: nat, b: nat, len: nat)
  {
    |t| == |s| && forall i :: 0 <= i < |s| && !(a <= i < a + len) && !(b <= i < b + len) ==> t[i] == s[i]
  }

  function RowOdd(l: Line, h: Line): (o: Line)
    requires |l| == |h|
    ensures |o| == |l|
  {
    var e, w := RowEven(l, h), |l|;
    seq(w, n requires 0 <= n < w => Odd(h[n], e[n], e[Next(n, w)]))
  }

  lemma EvenAt(l: Line, h: Line, n: nat)
    requires |l| == |h| && n < |l|
    ensures RowEven(l, h)[n] == Even(l[n], if n == 0 then h[n] else h[n - 1], h[n])
  {
    hide Even;
  }

  lemma OddAt(l: Line, h: Line, n: nat)
    requires |l| == |h| && n < |l|
    ensures var e := RowEven(l, h); RowOdd(l, h)[n] == Odd(h[n], e[n], if n < |l| - 1 then e[n + 1] else e[n])
  {
    hide Odd, RowEven;
  }

  lemma LineOfParts(s: seq<sint16>, d: nat, l: Line, h: Line, w: nat)
    requires |l| == |h| == w && EvensSet(s, d, RowEven(l, h), w) && OddsSet(s, d, RowOdd(l, h), w)
    ensures s[d..d + 2 * w] == RowDec(l, h)
  {
    hide RowDec, RowEven, Odd;
    var r, e, o := RowDec(l, h), RowEven(l, h), RowOdd(l, h);
    forall i | 0 <= i < 2 * w ensures s[d..d + 2 * w][i] == r[i] {
      var n := i / 2;
      RowDecAt(l, h, n);
      assert s[d + 2 * n] == e[n] && s[d + 2 * n + 1] == o[n];
      assert i == 2 * n || i == 2 * n + 1;
    }
  }

  ghost predicate LineAt(s: seq<sint16>, p: nat, r: Line) { p + |r| <= |s| && s[p..p + |r|] == r }

  /** The even values of an L row and an H row. */
  method EvenRows(src: array<sint16>, ll: nat, hl: nat, lh: nat, hh: nat, dst: array<sint16>, ld: nat, hd: nat, w: nat,
                  ghost l0: Line, ghost h0: Line, ghost l1: Line, ghost h1: Line)
    requires src != dst && |l0| == |h0| == |l1| == |h1| == w
    requires LineAt(src[..], ll, l0) && LineAt(src[..], hl, h0) && LineAt(src[..], lh, l1) && LineAt(src[..], hh, h1)
    requires ld + 2 * w <= hd && hd + 2 * w <= dst.Length && w > 0
    modifies dst
    ensures EvensSet(dst[..], ld, RowEven(l0, h0), w) && EvensSet(dst[..], hd, RowEven(l1, h1), w)
    ensures KeptOutside(old(dst[..]), dst[..], ld, hd, 2 * w)
  {
    hide Even, RowEven, LineAt;
    LineCells(src[..], ll, l0);
    LineCells(src[..], hl, h0);
    LineCells(src[..], lh, l1);
    LineCells(src[..], hh, h1);
    ghost var e0, e1 := RowEven(l0, h0), RowEven(l1, h1);
    EvenAt(l0, h0, 0);
    EvenAt(l1, h1, 0);
    dst[ld] := Even(src[ll], src[hl], src[hl]);
    dst[hd] := Even(src[lh], src[hh], src[hh]);
    var n := 1;
    while n < w
      invariant 1 <= n <= w
      invariant Cells(src[..], ll, l0) && Cells(src[..], hl, h0) && Cells(src[..], lh, l1) && Cells(src[..], hh, h1)
      invariant EvensSet(dst[..], ld, e0, n) && EvensSet(dst[..], hd, e1, n)
      invariant KeptOutside(old(dst[..]), dst[..], ld, hd, 2 * w)
    {
      var x := 2 * n;
      EvenAt(l0, h0, n);
      EvenAt(l1, h1, n);
      dst[ld + x] := Even(src[ll + n], src[hl + n - 1], src[hl + n]);
      dst[hd + x] := Even(src[lh + n], src[hh + n - 1], src[hh + n]);
      n := n + 1;
    }
  }

  ghost predicate Cells(s: seq<sint16>, p: nat, r: Line)
  {
    p + |r| <= |s| && forall i :: 0 <= i < |r| ==> s[p + i] == r[i]
  }

  lemma LineCells(s: seq<sint16>, p: nat, r: Line)
    requires LineAt(s, p, r)
    ensures Cells(s, p, r)
  {
    forall i | 0 <= i < |r| ensures s[p + i] == r[i] {
      assert s[p..p + |r|][i] == r[i];
    }
  }

  /** The odd values, from the even ones already in place. */
  method OddRows(src: array<sint16>, hl: nat, hh: nat, dst: array<sint16>, ld: nat, hd: nat, w: nat,
                 ghost l0: Line, ghost h0: Line, ghost l1: Line, ghost h1: Line)
    requires src != dst && |l0| == |h0| == |l1| == |h1| == w
    requires Cells(src[..], hl, h0) && Cells(src[..], hh, h1)
    requires ld + 2 * w <= hd && hd + 2 * w <= dst.Length && w > 0
    requires EvensSet(dst[..], ld, RowEven(l0, h0), w) && EvensSet(dst[..], hd, RowEven(l1, h1), w)
    modifies dst
    ensures EvensSet(dst[..], ld, RowEven(l0, h0), w) && EvensSet(dst[..], hd, RowEven(l1, h1), w)
    ensures OddsSet(dst[..], ld, RowOdd(l0, h0), w) && OddsSet(dst[..], hd, RowOdd(l1, h1), w)
    ensures KeptOutside(old(dst[..]), dst[..], ld, hd, 2 * w)
  {
    hide Odd, RowEven, RowOdd;
    ghost var e0, e1, o0, o1 := RowEven(l0, h0), RowEven(l1, h1), RowOdd(l0, h0), RowOdd(l1, h1);
    var n := 0;
    while n < w - 1
      invariant 0 <= n <= w - 1
      invariant Cells(src[..], hl, h0) && Cells(src[..], hh, h1)
      invariant EvensSet(dst[..], ld, e0, w) && EvensSet(dst[..], hd, e1, w)
      invariant OddsSet(dst[..], ld, o0, n) && OddsSet(dst[..], hd, o1, n)
      invariant KeptOutside(old(dst[..]), dst[..], ld, hd, 2 * w)
    {
      OddAt(l0, h0, n);
      OddAt(l1, h1, n);
      OddPair(src, hl, hh, dst, ld, hd, n, n + 1, e0, e1, h0, h1, o0, o1, w);
      n := n + 1;
    }
    OddAt(l0, h0, n);
    OddAt(l1, h1, n);
    OddPair(src, hl, hh, dst, ld, hd, n, n, e0, e1, h0, h1, o0, o1, w);
  }

  /** Odd value n of both rows; m is the even value behind it. */
  method OddPair(src: array<sint16>, hl: nat, hh: nat, dst: array<sint16>, ld: nat, hd: nat, n: nat, m: nat,
                 ghost e0: Line, ghost e1: Line, ghost h0: Line, ghost h1: Line, ghost o0: Line, ghost o1: Line,
                 ghost w: nat)
    requires src != dst && |e0| == |e1| == |o0| == |o1| == |h0| == |h1| == w && n <= m < w
    requires Cells(src[..], hl, h0) && Cells(src[..], hh, h1) && ld + 2 * w <= hd && hd + 2 * w <= dst.Length
    requires EvensSet(dst[..], ld, e0, w) && EvensSet(dst[..], hd, e1, w)
    requires OddsSet(dst[..], ld, o0, n) && OddsSet(dst[..], hd, o1, n)
    requires o0[n] == Odd(h0[n], e0[n], e0[m]) && o1[n] == Odd(h1[n], e1[n], e1[m])
    modifies dst
    ensures EvensSet(dst[..], ld, e0, w) && EvensSet(dst[..], hd, e1, w)
    ensures OddsSet(dst[..], ld, o0, n + 1) && OddsSet(dst[..], hd, o1, n + 1)
    ensures KeptOutside(old(dst[..]), dst[..], ld, hd, 2 * w)
  {
    hide Odd;
    var x := 2 * n;
    assert dst[ld + 2 * n] == e0[n] && dst[ld + 2 * m] == e0[m];
    assert dst[hd + 2 * n] == e1[n] && dst[hd + 2 * m] == e1[m];
    assert src[hl + n] == h0[n] && src[hh + n] == h1[n];
    dst[ld + x + 1] := Odd(src[hl + n], dst[ld + x], dst[ld + 2 * m]);
    dst[hd + x + 1] := Odd(src[hh + n], dst[hd + x], dst[hd + 2 * m]);
  }

  /** Row y of the horizontal pass: LL and HL into the L half, LH and HH into the H half. */
  method DecodeRowPair(buffer: array<sint16>, base: nat, idwt: array<sint16>, w: nat, y: nat, ghost b: Bands)
    requires buffer != idwt && y < w && Square(b, w) && BandsAre(buffer[..], base, w, b)
        && 4 * Area(w, w) <= idwt.Length
    requires Grown(idwt[..], 0, 2 * w, RowsDec(b.ll, b.hl, w), y)
    requires Grown(idwt[..], Area(w, 2 * w), 2 * w, RowsDec(b.lh, b.hh, w), y)
    modifies idwt
    ensures Grown(idwt[..], 0, 2 * w, RowsDec(b.ll, b.hl, w), y + 1)
    ensures Grown(idwt[..], Area(w, 2 * w), 2 * w, RowsDec(b.lh, b.hh, w), y + 1)
  {
    hide Area, Cell, Grown, BandsAre, RowsDec, LineAt, Cells, RowEven, RowOdd, RowDec, EvensSet, OddsSet, KeptOutside;
    var a, c, r, q := Area(w, w), base + Cell(y, 0, w), Cell(y, 0, 2 * w), Area(w, 2 * w);
    BandRows(buffer[..], base, w, b, y);
    LineCells(buffer[..], c, b.hl[y]);
    LineCells(buffer[..], c + 2 * a, b.hh[y]);
    CellBound(w, 2 * w, y, 0);
    AreaFour(w);
    EvenRows(buffer, c + 3 * a, c, c + a, c + 2 * a, idwt, r, q + r, w, b.ll[y], b.hl[y], b.lh[y], b.hh[y]);
    ghost var mid := idwt[..];
    OddRows(buffer, c, c + 2 * a, idwt, r, q + r, w, b.ll[y], b.hl[y], b.lh[y], b.hh[y]);
    LineOfParts(idwt[..], r, b.ll[y], b.hl[y], w);
    LineOfParts(idwt[..], q + r, b.lh[y], b.hh[y], w);
    RowsDecAt(b, w, y);
    KeptTwice(old(idwt[..]), mid, idwt[..], r, q + r, 2 * w);
    RowsGrow(old(idwt[..]), idwt[..], w, y, RowsDec(b.ll, b.hl, w), RowsDec(b.lh, b.hh, w));
  }

  lemma RowsDecAt(b: Bands, w: nat, y: nat)
    requires Square(b, w) && y < w
    ensures RowsDec(b.ll, b.hl, w)[y] == RowDec(b.ll[y], b.hl[y])
        && RowsDec(b.lh, b.hh, w)[y] == RowDec(b.lh[y], b.hh[y])
  {
    hide RowDec;
  }

  lemma KeptTwice(s: seq<sint16>, m: seq<sint16>, t: seq<sint16>, a: nat, b: nat, len: nat)
    requires KeptOutside(s, m, a, b, len) && KeptOutside(m, t, a, b, len)
    ensures KeptOutside(s, t, a, b, len)
  {
  }

  lemma RowsGrow(s: seq<sint16>, t: seq<sint16>, w: nat, y: nat, l: Matrix, h: Matrix)
    requires Shape(l, w, 2 * w) && Shape(h, w, 2 * w) && y < w
    requires var r, q := Cell(y, 0, 2 * w), Area(w, 2 * w);
             && r + 2 * w <= q && q + r + 2 * w <= |s| && KeptOutside(s, t, r, q + r, 2 * w)
             && t[r..r + 2 * w] == l[y] && t[q + r..q + r + 2 * w] == h[y]
             && Grown(s, 0, 2 * w, l, y) && Grown(s, q, 2 * w, h, y)
    ensures Grown(t, 0, 2 * w, l, y + 1) && Grown(t, Area(w, 2 * w), 2 * w, h, y + 1)
  {
    hide Grown, Cell, Area;
    GrownKept(s, t, 0, 2 * w, l, y);
    GrownKept(s, t, Area(w, 2 * w), 2 * w, h, y);
    GrownStep(t, 0, 2 * w, l, y);
    GrownStep(t, Area(w, 2 * w), 2 * w, h, y);
  }

  // ---- Bands in the buffer ----

  ghost predicate BandsAre(s: seq<sint16>, base: nat, w: nat, b: Bands)
  {
    var a := Area(w, w);
    && Laid(s, base, w, w, b.hl) && Laid(s, base + a, w, w, b.lh)
    && Laid(s, base + 2 * a, w, w, b.hh) && Laid(s, base + 3 * a, w, w, b.ll)
  }

  function BandsAt(s: Line, base: nat, w: nat): (b: Bands)
    requires base + 4 * Area(w, w) <= |s|
    ensures Square(b, w) && BandsAre(s, base, w, b)
  {
    hide Area, Laid, MatrixAt;
    LaidShapes(s, base, w);
    var a := Area(w, w);
    Bands(MatrixAt(s, base, w, w), MatrixAt(s, base + a, w, w), MatrixAt(s, base + 2 * a, w, w),
        MatrixAt(s, base + 3 * a, w, w))
  }

  lemma LaidShapes(s: Line, base: nat, w: nat)
    requires base + 4 * Area(w, w) <= |s|
    ensures forall p :: base <= p <= base + 3 * Area(w, w) ==> Shape(MatrixAt(s, p, w, w), w, w)
  {
    hide Area, Laid, MatrixAt;
    forall p | base <= p <= base + 3 * Area(w, w) ensures Shape(MatrixAt(s, p, w, w), w, w) {
      LaidShape(s, p, w, w, MatrixAt(s, p, w, w));
    }
  }

  lemma BandRows(s: seq<sint16>, base: nat, w: nat, b: Bands, y: nat)
    requires BandsAre(s, base, w, b) && y < w && Square(b, w)
    ensures var a, c := Area(w, w), base + Cell(y, 0, w);
            && LineAt(s, c, b.hl[y]) && LineAt(s, c + a, b.lh[y])
            && LineAt(s, c + 2 * a, b.hh[y]) && LineAt(s, c + 3 * a, b.ll[y])
  {
    hide Area, Cell, Laid;
    var a := Area(w, w);
    RowSlice(s, base, w, w, b.hl, y);
    RowSlice(s, base + a, w, w, b.lh, y);
    RowSlice(s, base + 2 * a, w, w, b.hh, y);
    RowSlice(s, base + 3 * a, w, w, b.ll, y);
    LaidFits(s, base + 3 * a, w, w, b.ll);
  }

  // ---- Vertical pass ----

  /** The even rows of the columns before x, with ev more in column x, and likewise the odd rows. */
  ghost predicate ColsBack(s: seq<sint16>, base: nat, w: nat, m: Matrix, x: nat, ev: nat, od: nat)
    requires Shape(m, 2 * w, 2 * w)
  {
    && base + Area(2 * w, 2 * w) <= |s|
    && (forall n: nat, c: nat :: n < w && c < 2 * w && Before(n, c, ev, x) ==> EvenIs(s, base, w, m, n, c))
    && (forall n: nat, c: nat :: n < w && c < 2 * w && Before(n, c, od, x) ==> OddIs(s, base, w, m, n, c))
  }

  ghost predicate CellIs(s: seq<sint16>, base: nat, w: nat, m: Matrix, y: nat, c: nat)
    requires Shape(m, 2 * w, 2 * w) && y < 2 * w && c < 2 * w && base + Area(2 * w, 2 * w) <= |s|
  {
    Cell(y, c, 2 * w) < Area(2 * w, 2 * w) && s[base + Cell(y, c, 2 * w)] == m[y][c]
  }

  ghost predicate EvenIs(s: seq<sint16>, base: nat, w: nat, m: Matrix, n: nat, c: nat)
    requires Shape(m, 2 * w, 2 * w) && n < w && c < 2 * w && base + Area(2 * w, 2 * w) <= |s|
  {
    CellIs(s, base, w, m, 2 * n, c)
  }

  ghost predicate OddIs(s: seq<sint16>, base: nat, w: nat, m: Matrix, n: nat, c: nat)
    requires Shape(m, 2 * w, 2 * w) && n < w && c < 2 * w && base + Area(2 * w, 2 * w) <= |s|
  {
    CellIs(s, base, w, m, 2 * n + 1, c)
  }

  lemma CellSet(s: seq<sint16>, base: nat, w: nat, m: Matrix, y: nat, c: nat)
    requires Shape(m, 2 * w, 2 * w) && y < 2 * w && c < 2 * w && base + Area(2 * w, 2 * w) <= |s|
    ensures Cell(y, c, 2 * w) < Area(2 * w, 2 * w)
    ensures CellIs(s[base + Cell(y, c, 2 * w) := m[y][c]], base, w, m, y, c)
    ensures forall z: nat, d: nat :: z < 2 * w && d < 2 * w && CellIs(s, base, w, m, z, d) ==>
              CellIs(s[base + Cell(y, c, 2 * w) := m[y][c]], base, w, m, z, d)
  {
    hide Cell, Area;
    CellBounds(2 * w, 2 * w);
    OtherCells(2 * w, y, c);
  }

  lemma EvenStep(s: seq<sint16>, base: nat, w: nat, m: Matrix, x: nat, n: nat)
    requires Shape(m, 2 * w, 2 * w) && n < w && x < 2 * w && ColsBack(s, base, w, m, x, n, 0)
    ensures Cell(2 * n, x, 2 * w) < Area(2 * w, 2 * w)
    ensures ColsBack(s[base + Cell(2 * n, x, 2 * w) := m[2 * n][x]], base, w, m, x, n + 1, 0)
  {
    hide Cell, Area, CellIs;
    CellSet(s, base, w, m, 2 * n, x);
    var t := s[base + Cell(2 * n, x, 2 * w) := m[2 * n][x]];
    forall k: nat, c: nat | k < w && c < 2 * w && Before(k, c, n + 1, x) ensures EvenIs(t, base, w, m, k, c) {
      assert (k == n && c == x) || (Before(k, c, n, x) && EvenIs(s, base, w, m, k, c));
    }
  }

  lemma OddStep(s: seq<sint16>, base: nat, w: nat, m: Matrix, x: nat, n: nat)
    requires Shape(m, 2 * w, 2 * w) && n < w && x < 2 * w && ColsBack(s, base, w, m, x, w, n)
    ensures Cell(2 * n + 1, x, 2 * w) < Area(2 * w, 2 * w)
    ensures ColsBack(s[base + Cell(2 * n + 1, x, 2 * w) := m[2 * n + 1][x]], base, w, m, x, w, n + 1)
  {
    hide Cell, Area, CellIs;
    CellSet(s, base, w, m, 2 * n + 1, x);
    var t := s[base + Cell(2 * n + 1, x, 2 * w) := m[2 * n + 1][x]];
    forall k: nat, c: nat | k < w && c < 2 * w && Before(k, c, n + 1, x) ensures OddIs(t, base, w, m, k, c) {
      assert (k == n && c == x) || (Before(k, c, n, x) && OddIs(s, base, w, m, k, c));
    }
  }

  lemma BackNext(s: seq<sint16>, base: nat, w: nat, m: Matrix, x: nat)
    requires Shape(m, 2 * w, 2 * w) && x < 2 * w && ColsBack(s, base, w, m, x, w, w)
    ensures ColsBack(s, base, w, m, x + 1, 0, 0)
  {
    hide Cell, Area, EvenIs, OddIs;
    assert forall n: nat, c: nat :: n < w && Before(n, c, 0, x + 1) ==> Before(n, c, w, x);
  }

  lemma BackEnd(s: seq<sint16>, base: nat, w: nat, m: Matrix)
    requires Shape(m, 2 * w, 2 * w) && ColsBack(s, base, w, m, 2 * w, 0, 0)
    ensures Laid(s, base, 2 * w, 2 * w, m)
  {
    hide Cell, Area;
    forall y, x | 0 <= y < 2 * w && 0 <= x < 2 * w
      ensures Cell(y, x, 2 * w) < Area(2 * w, 2 * w) && s[base + Cell(y, x, 2 * w)] == m[y][x]
    {
      var n := y / 2;
      assert y == 2 * n || y == 2 * n + 1;
      assert Before(n, x, 0, 2 * w);
      assert EvenIs(s, base, w, m, n, x) && OddIs(s, base, w, m, n, x);
    }
  }

  lemma ColDecAt(l: Matrix, h: Matrix, w: nat, n: nat, x: nat)
    requires Shape(l, w, 2 * w) && Shape(h, w, 2 * w) && n < w && x < 2 * w
    ensures var m := ColDec(l, h, w);
            && m[2 * n][x] == Even(l[n][x], h[if n == 0 then n else n - 1][x], h[n][x])
            && m[2 * n + 1][x] == Odd(h[n][x], m[2 * n][x], m[if n < w - 1 then 2 * n + 2 else 2 * n][x])
  {
    hide RowDec, RowEven, Odd, Even, RowOdd;
    var cl, ch := Col(l, x, w, 2 * w), Col(h, x, w, 2 * w);
    RowDecAt(cl, ch, n);
    RowDecAt(cl, ch, Next(n, w));
    EvenAt(cl, ch, n);
  }

  lemma IdwtCells(s: seq<sint16>, w: nat, l: Matrix, h: Matrix, n: nat, x: nat)
    requires Laid(s, 0, w, 2 * w, l) && Laid(s, Area(w, 2 * w), w, 2 * w, h) && n < w && x < 2 * w
    ensures Shape(l, w, 2 * w) && Shape(h, w, 2 * w)
    ensures var p := Cell(n, x, 2 * w); var q := p + Area(w, 2 * w);
            && q < |s| && s[p] == l[n][x] && s[q] == h[n][x] && (n > 0 ==> q >= 2 * w && s[q - 2 * w] == h[n - 1][x])
  {
    hide Cell, Area;
    if n > 0 { CellNextRow(n - 1, x, 2 * w); }
    assert s[0 + Cell(n, x, 2 * w)] == l[n][x];
    assert s[Area(w, 2 * w) + Cell(n, x, 2 * w)] == h[n][x];
    assert n > 0 ==> s[Area(w, 2 * w) + Cell(n - 1, x, 2 * w)] == h[n - 1][x];
  }

  method DecodeEven(idwt: array<sint16>, buffer: array<sint16>, base: nat, w: nat, n: nat, x: nat,
                    ghost l: Matrix, ghost h: Matrix, ghost m: Matrix)
    requires idwt != buffer && n < w && x < 2 * w && Shape(l, w, 2 * w) && Shape(h, w, 2 * w) && m == ColDec(l, h, w)
    requires Laid(idwt[..], 0, w, 2 * w, l) && Laid(idwt[..], Area(w, 2 * w), w, 2 * w, h)
    requires ColsBack(buffer[..], base, w, m, x, n, 0)
    modifies buffer
    ensures ColsBack(buffer[..], base, w, m, x, n + 1, 0)
    ensures OneSet(old(buffer[..]), buffer[..], base, Area(2 * w, 2 * w))
  {
    hide Cell, Area, Laid, ColDec, Even, Odd, ColsBack;
    IdwtCells(idwt[..], w, l, h, n, x);
    EvenStep(buffer[..], base, w, m, x, n);
    ColDecAt(l, h, w, n, x);
    BackFits(buffer[..], base, w, m, x, n, 0);
    var tw := 2 * w;
    var dst, li := base + Cell(2 * n, x, tw), Cell(n, x, tw);
    var hi := li + Area(w, tw);
    buffer[dst] := Even(idwt[li], if n > 0 then idwt[hi - tw] else idwt[hi], idwt[hi]);
    assert buffer[..] == old(buffer[..])[dst := m[2 * n][x]];
  }

  method DecodeOdd(idwt: array<sint16>, buffer: array<sint16>, base: nat, w: nat, n: nat, x: nat,
                   ghost l: Matrix, ghost h: Matrix, ghost m: Matrix)
    requires idwt != buffer && n < w && x < 2 * w && Shape(l, w, 2 * w) && Shape(h, w, 2 * w) && m == ColDec(l, h, w)
    requires Laid(idwt[..], 0, w, 2 * w, l) && Laid(idwt[..], Area(w, 2 * w), w, 2 * w, h)
    requires ColsBack(buffer[..], base, w, m, x, w, n)
    modifies buffer
    ensures ColsBack(buffer[..], base, w, m, x, w, n + 1)
    ensures OneSet(old(buffer[..]), buffer[..], base, Area(2 * w, 2 * w))
  {
    hide Cell, Area, Laid, ColDec, Even, Odd, ColsBack;
    IdwtCells(idwt[..], w, l, h, n, x);
    OddStep(buffer[..], base, w, m, x, n);
    ColDecAt(l, h, w, n, x);
    BackEvens(buffer[..], base, w, m, x, n);
    BackFits(buffer[..], base, w, m, x, w, n);
    var tw := 2 * w;
    var dst, hi := base + Cell(2 * n, x, tw), Cell(n, x, tw) + Area(w, tw);
    CellNextRow(2 * n, x, tw);
    buffer[dst + tw] := Odd(idwt[hi], buffer[dst], buffer[dst + (if n < w - 1 then 2 * tw else 0)]);
    assert buffer[..] == old(buffer[..])[dst + tw := m[2 * n + 1][x]];
  }

  /** t is s but for a part of len values at base. */
  ghost predicate OneSet(s: seq<sint16>, t: seq<sint16>, base: nat, len: nat)
  {
    |t| == |s| && forall i :: 0 <= i < |s| && !(base <= i < base + len) ==> t[i] == s[i]
  }

  lemma BackFits(s: seq<sint16>, base: nat, w: nat, m: Matrix, x: nat, ev: nat, od: nat)
    requires Shape(m, 2 * w, 2 * w) && ColsBack(s, base, w, m, x, ev, od)
    ensures base + Area(2 * w, 2 * w) <= |s|
  {
  }

  lemma BackEvens(s: seq<sint16>, base: nat, w: nat, m: Matrix, x: nat, n: nat)
    requires Shape(m, 2 * w, 2 * w) && n < w && x < 2 * w && ColsBack(s, base, w, m, x, w, n)
    ensures var dst := base + Cell(2 * n, x, 2 * w);
            && dst < |s| && s[dst] == m[2 * n][x]
            && (n < w - 1 ==> dst + 4 * w < |s| && s[dst + 4 * w] == m[2 * n + 2][x])
  {
    hide Cell, Area;
    assert Before(n, x, w, x) && EvenIs(s, base, w, m, n, x);
    if n < w - 1 {
      assert Before(n + 1, x, w, x) && EvenIs(s, base, w, m, n + 1, x);
      CellNextRow(2 * n, x, 2 * w);
      CellNextRow(2 * n + 1, x, 2 * w);
      assert s[base + Cell(2 * (n + 1), x, 2 * w)] == m[2 * (n + 1)][x];
    }
  }

  /** Column x of the vertical pass: its even rows, then its odd rows. */
  method DecodeColumn(idwt: array<sint16>, buffer: array<sint16>, base: nat, w: nat, x: nat,
                      ghost l: Matrix, ghost h: Matrix, ghost m: Matrix)
    requires idwt != buffer && x < 2 * w && Shape(l, w, 2 * w) && Shape(h, w, 2 * w) && m == ColDec(l, h, w)
    requires Laid(idwt[..], 0, w, 2 * w, l) && Laid(idwt[..], Area(w, 2 * w), w, 2 * w, h)
    requires ColsBack(buffer[..], base, w, m, x, 0, 0)
    modifies buffer
    ensures ColsBack(buffer[..], base, w, m, x + 1, 0, 0)
    ensures OneSet(old(buffer[..]), buffer[..], base, Area(2 * w, 2 * w))
  {
    hide Area, Laid, ColDec, ColsBack;
    var n := 0;
    while n < w
      invariant 0 <= n <= w && ColsBack(buffer[..], base, w, m, x, n, 0)
      invariant Laid(idwt[..], 0, w, 2 * w, l) && Laid(idwt[..], Area(w, 2 * w), w, 2 * w, h)
      invariant OneSet(old(buffer[..]), buffer[..], base, Area(2 * w, 2 * w))
    {
      DecodeEven(idwt, buffer, base, w, n, x, l, h, m);
      n := n + 1;
    }
    n := 0;
    while n < w
      invariant 0 <= n <= w && ColsBack(buffer[..], base, w, m, x, w, n)
      invariant Laid(idwt[..], 0, w, 2 * w, l) && Laid(idwt[..], Area(w, 2 * w), w, 2 * w, h)
      invariant OneSet(old(buffer[..]), buffer[..], base, Area(2 * w, 2 * w))
    {
      DecodeOdd(idwt, buffer, base, w, n, x, l, h, m);
      n := n + 1;
    }
    BackNext(buffer[..], base, w, m, x);
  }

  /** The four bands at base replaced by the block they stand for. */
  function DecodeFlat(s: Line, base: nat, w: nat): (r: Line)
    requires base + 4 * Area(w, w) <= |s|
    ensures |r| == |s|
  {
    var m := Decode2D(BandsAt(s, base, w), w);
    FlatAt(m, 2 * w, 2 * w);
    AreaFour(w);
    s[..base] + Flat(m) + s[base + 4 * Area(w, w)..]
  }

  method DecodeRows(buffer: array<sint16>, base: nat, idwt: array<sint16>, w: nat, ghost b: Bands)
    requires buffer != idwt && Square(b, w) && BandsAre(buffer[..], base, w, b) && 4 * Area(w, w) <= idwt.Length
    modifies idwt
    ensures Laid(idwt[..], 0, w, 2 * w, RowsDec(b.ll, b.hl, w))
    ensures Laid(idwt[..], Area(w, 2 * w), w, 2 * w, RowsDec(b.lh, b.hh, w))
  {
    hide Area, Grown, BandsAre, RowsDec, Laid, Flat;
    ghost var l, h := RowsDec(b.ll, b.hl, w), RowsDec(b.lh, b.hh, w);
    AreaFour(w);
    GrownStart(idwt[..], 0, 2 * w, l);
    GrownStart(idwt[..], Area(w, 2 * w), 2 * w, h);
    var y := 0;
    while y < w
      invariant 0 <= y <= w && BandsAre(buffer[..], base, w, b)
      invariant Grown(idwt[..], 0, 2 * w, l, y) && Grown(idwt[..], Area(w, 2 * w), 2 * w, h, y)
    {
      DecodeRowPair(buffer, base, idwt, w, y, b);
      y := y + 1;
    }
    GrownLaid(idwt[..], 0, w, 2 * w, l);
    GrownLaid(idwt[..], Area(w, 2 * w), w, 2 * w, h);
  }

  /** One level back: the four bands at base become the block; nothing else of the buffer changes. */
  method DecodeBlock(buffer: array<sint16>, base: nat, idwt: array<sint16>, w: nat)
    requires buffer != idwt && base + 4 * Area(w, w) <= buffer.Length && 4 * Area(w, w) <= idwt.Length
    modifies buffer, idwt
    ensures buffer[..] == DecodeFlat(old(buffer[..]), base, w)
  {
    hide Area, BandsAre, RowsDec, Laid, Flat, BandsAt, ColsBack, ColDec;
    ghost var s := buffer[..];
    ghost var b := BandsAt(s, base, w);
    AreaFour(w);
    DecodeRows(buffer, base, idwt, w, b);
    ghost var l, h := RowsDec(b.ll, b.hl, w), RowsDec(b.lh, b.hh, w);
    ghost var m := ColDec(l, h, w);
    BackStart(s, base, w, m);
    var x := 0;
    while x < 2 * w
      invariant 0 <= x <= 2 * w && ColsBack(buffer[..], base, w, m, x, 0, 0)
      invariant Laid(idwt[..], 0, w, 2 * w, l) && Laid(idwt[..], Area(w, 2 * w), w, 2 * w, h)
      invariant OneSet(s, buffer[..], base, Area(2 * w, 2 * w))
    {
      DecodeColumn(idwt, buffer, base, w, x, l, h, m);
      x := x + 1;
    }
    BackEnd(buffer[..], base, w, m);
    LaidFlat(buffer[..], base, 2 * w, 2 * w, m);
    Assembled(s, buffer[..], base, base + 4 * Area(w, w));
  }

  lemma BackStart(s: seq<sint16>, base: nat, w: nat, m: Matrix)
    requires Shape(m, 2 * w, 2 * w) && base + Area(2 * w, 2 * w) <= |s|
    ensures ColsBack(s, base, w, m, 0, 0, 0)
  {
    hide Area, EvenIs, OddIs;
  }

  function DecodeLevels(s: Line): (r: Line)
    requires |s| >= 4096
    ensures |r| == |s|
  {
    hide DecodeFlat, DecodeTwo;
    DecodeFlat(DecodeTwo(s), 0, 32)
  }

  /** After the smallest level, and after the second. */
  function DecodeOne(s: Line): (r: Line)
    requires |s| >= 4096
    ensures |r| == |s|
  {
    DecodeFlat(s, 3840, 8)
  }

  function DecodeTwo(s: Line): (r: Line)
    requires |s| >= 4096
    ensures |r| == |s|
  {
    hide DecodeFlat, DecodeOne;
    DecodeFlat(DecodeOne(s), 3072, 16)
  }

  method DwtDecode(buffer: array<sint16>, idwt: array<sint16>)
    requires buffer != idwt && buffer.Length >= 4096 && idwt.Length >= 4096
    modifies buffer, idwt
    ensures buffer[..] == DecodeLevels(old(buffer[..]))
  {
    hide DecodeFlat;
    DecodeBlock(buffer, 3840, idwt, 8);
    DecodeBlock(buffer, 3072, idwt, 16);
    DecodeBlock(buffer, 0, idwt, 32);
  }

  /** The block at base. */
  function BlockOf(s: Line, base: nat, w: nat): (m: Matrix)
    requires base + 4 * Area(w, w) <= |s|
    ensures Shape(m, 2 * w, 2 * w)
  {
    hide MatrixAt, Area, Laid;
    AreaFour(w);
    LaidShape(s, base, 2 * w, 2 * w, MatrixAt(s, base, 2 * w, 2 * w));
    MatrixAt(s, base, 2 * w, 2 * w)
  }

  /** Cell i of the block is within -8 .. 2 of what it was after one level of encoding and one of decoding. */
  predicate LevelNear(s: Line, base: nat, w: nat, i: nat)
    requires base + 4 * Area(w, w) <= |s| && i < |s|
  {
    hide EncodeFlat, DecodeFlat;
    -8 <= DecodeFlat(EncodeFlat(s, base, w), base, w)[i] as int - s[i] as int <= 2
  }

  lemma LevelCell(s: Line, base: nat, w: nat, y: nat, x: nat)
    requires base + 4 * Area(w, w) <= |s| && y < 2 * w && x < 2 * w
    ensures var i := base + Cell(y, x, 2 * w);
            base <= i < base + 4 * Area(w, w) && (LevelNear(s, base, w, i) <==> CellBack(BlockOf(s, base, w), w, y, x))
  {
    hide Area, Flat, Laid, Encode2D, Decode2D, MatrixAt, BandsAt, Cell;
    AreaFour(w);
    CellBound(2 * w, 2 * w, y, x);
    var m := MatrixAt(s, base, 2 * w, 2 * w);
    LaidShape(s, base, 2 * w, 2 * w, m);
    var b := Encode2D(m, w);
    BandsBack(EncodeFlat(s, base, w), base, w, b);
    FlatAt(Decode2D(b, w), 2 * w, 2 * w);
    LaidCell(s, base, 2 * w, 2 * w, m, y, x);
  }

  /** One level of decoding after one of encoding: every sample of the block is within -8 .. 2 of what it was. */
  lemma LevelError(s: Line, base: nat, w: nat, i: nat)
    requires base + 4 * Area(w, w) <= |s| && base <= i < base + 4 * Area(w, w)
    requires forall k :: base <= k < base + 4 * Area(w, w) ==> -16383 <= s[k] <= 16383
    ensures -8 <= DecodeFlat(EncodeFlat(s, base, w), base, w)[i] as int - s[i] as int <= 2
  {
    hide Area, EncodeFlat, DecodeFlat, Laid, Encode2D, Decode2D, MatrixAt, MatrixWithin, Cell;
    AreaFour(w);
    var m := MatrixAt(s, base, 2 * w, 2 * w);
    LaidShape(s, base, 2 * w, 2 * w, m);
    SmallBlock(s, base, 2 * w, m);
    var y, x := FindCell(2 * w, 2 * w, i - base);
    BlockError(m, w, y, x);
    LevelCell(s, base, w, y, x);
  }

  /** Main result: for every buffer, place and width, the whole block comes back within -8 .. 2 if and only if in the
      vertical pass all jumps cancel and every store fits 16 bits. */
  lemma LevelIff(s: Line, base: nat, w: nat)
    requires base + 4 * Area(w, w) <= |s|
    ensures (forall i :: base <= i < base + 4 * Area(w, w) ==> LevelNear(s, base, w, i))
            <==> (forall x :: 0 <= x < 2 * w ==> ColumnFits(BlockOf(s, base, w), w, x))
  {
    hide Area, Cell, BlockOf, LevelNear, CellBack, ColumnFits;
    var m := BlockOf(s, base, w);
    BlockIff(m, w);
    AreaFour(w);
    if forall i :: base <= i < base + 4 * Area(w, w) ==> LevelNear(s, base, w, i) {
      forall y, x | 0 <= y < 2 * w && 0 <= x < 2 * w ensures CellBack(m, w, y, x) {
        LevelCell(s, base, w, y, x);
      }
    }
    if forall y, x :: 0 <= y < 2 * w && 0 <= x < 2 * w ==> CellBack(m, w, y, x) {
      forall i | base <= i < base + 4 * Area(w, w) ensures LevelNear(s, base, w, i) {
        var y, x := FindCell(2 * w, 2 * w, i - base);
        LevelCell(s, base, w, y, x);
      }
    }
  }

  lemma LaidCell(s: seq<sint16>, base: nat, rows: nat, cols: nat, m: Matrix, y: nat, x: nat)
    requires Laid(s, base, rows, cols, m) && y < rows && x < cols
    ensures Shape(m, rows, cols) && base + Cell(y, x, cols) < |s| && s[base + Cell(y, x, cols)] == m[y][x]
  {
    hide Cell, Area;
  }

  lemma SmallBlock(s: seq<sint16>, base: nat, n: nat, m: Matrix)
    requires Laid(s, base, n, n, m)
    requires forall k :: base <= k < base + Area(n, n) ==> -16383 <= s[k] <= 16383
    ensures MatrixWithin(m, 16383)
  {
    hide Cell, Area;
    forall y, x | 0 <= y < n && 0 <= x < n ensures -16383 <= m[y][x] <= 16383 {
      assert m[y][x] == s[base + Cell(y, x, n)];
    }
  }

  /** The bands found in an encoded block are the ones written. */
  lemma BandsBack(t: Line, base: nat, w: nat, b: Bands)
    requires Square(b, w) && base + 4 * Area(w, w) <= |t| && t[base..base + 4 * Area(w, w)] == BandsFlat(b)
    ensures BandsAt(t, base, w) == b
  {
    hide Area, Flat, MatrixAt;
    BandsLength(b, w);
    var a := Area(w, w);
    Quarters(t, base, a, Flat(b.hl), Flat(b.lh), Flat(b.hh), Flat(b.ll));
    MatrixBack(t, base, w, b.hl);
    MatrixBack(t, base + a, w, b.lh);
    MatrixBack(t, base + 2 * a, w, b.hh);
    MatrixBack(t, base + 3 * a, w, b.ll);
  }

  lemma Quarters(t: Line, base: nat, a: nat, p: Line, q: Line, r: Line, u: Line)
    requires |p| == |q| == |r| == |u| == a && base + 4 * a <= |t| && t[base..base + 4 * a] == p + q + r + u
    ensures t[base..base + a] == p && t[base + a..base + 2 * a] == q
    ensures t[base + 2 * a..base + 3 * a] == r && t[base + 3 * a..base + 4 * a] == u
  {
    var v := p + q + r + u;
    assert forall i :: base <= i < base + 4 * a ==> t[i] == v[i - base];
  }

  lemma MatrixBack(t: Line, base: nat, w: nat, m: Matrix)
    requires Shape(m, w, w) && base + Area(w, w) <= |t| && t[base..base + Area(w, w)] == Flat(m)
    ensures MatrixAt(t, base, w, w) == m
  {
    hide Area, Flat, Cell, MatrixAt;
    LaidOfFlat(t, base, w, w, m);
    var d := MatrixAt(t, base, w, w);
    forall y | 0 <= y < w ensures d[y] == m[y] {
      RowSlice(t, base, w, w, m, y);
      RowSlice(t, base, w, w, d, y);
    }
  }
}
