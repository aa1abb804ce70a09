/** The eight-lane inverse wavelet kernels, with the even pass in place (libfreerdp-codec/rfx_sse2.c). */
module DwtSse2Back {
  import opened Words
  import opened Grid
  import opened Dwt
  import opened DwtBlock
  import opened DwtInverse
  import opened Sse2
  import opened DwtSse2
  import opened DwtSse2Rows

  // ---- Horizontal pass ----

  /** The values of row r from n on stand in place. */
  ghost predicate Tail(s: Line, p: nat, r: Line, n: nat)
  {
    n <= |r| && p + |r| <= |s| && s[p + n..p + |r|] == r[n..]
  }

  lemma TailLoad(s: Line, p: nat, r: Line, n: nat)
    requires Tail(s, p, r, n) && n + 8 <= |r|
    ensures Load(s, p + n) == r[n..n + 8]
  {
    var a, b := s[p + n..p + |r|], r[n..];
    assert a[..8] == s[p + n..p + n + 8];
    assert b[..8] == r[n..n + 8];
  }

  lemma TailKept(s: Line, t: Line, p: nat, r: Line, n: nat, v: Lanes)
    requires Tail(s, p, r, n) && n + 8 <= |r| && Stored(s, t, p + n, v)
    ensures Tail(t, p, r, n + 8)
  {
    var a, b := s[p + n..p + |r|], r[n..];
    assert t[p + n + 8..p + |r|] == a[8..];
    assert b[8..] == r[n + 8..];
  }

  lemma PartPrefix(s: Line, p: nat, r: Line, n: nat)
    requires LineAt(s, p, r) && n <= |r|
    ensures Part(s, p, r, n)
  {
    assert s[p..p + |r|][..n] == s[p..p + n];
  }

  lemma LineLoad(s: Line, p: nat, r: Line, n: nat)
    requires LineAt(s, p, r) && n + 8 <= |r|
    ensures p + n + 8 <= |s| && Load(s, p + n) == r[n..n + 8]
  {
    hide Load;
    PartRow(s, p, r);
    PartLoad(s, p, r, n);
  }

  lemma StoredOne(s: Line, m: Line, t: Line, p: nat, len: nat, q: nat, v: Lanes)
    requires OneSet(s, m, p, len) && Stored(m, t, q, v) && p <= q && q + 8 <= p + len
    ensures OneSet(s, t, p, len)
  {
  }

  lemma LineKept(s: Line, t: Line, p: nat, r: Line, base: nat, len: nat)
    requires LineAt(s, p, r) && OneSet(s, t, base, len) && (base + len <= p || p + |r| <= base)
    ensures LineAt(t, p, r)
  {
    assert t[p..p + |r|] == s[p..p + |r|];
  }

  lemma LineStored(s: Line, t: Line, p: nat, r: Line, q: nat, v: Lanes)
    requires LineAt(s, p, r) && Stored(s, t, q, v) && (q + 8 <= p || p + |r| <= q)
    ensures LineAt(t, p, r)
  {
    assert t[p..p + |r|] == s[p..p + |r|];
  }

  /** The sums halved when a row is decoded fit 16 bits. */
  ghost predicate RowBackFits(l: Line, h: Line)
    requires |l| == |h|
  {
    EvenLineFits(Behind(h), h) && OddLineFits(RowEven(l, h), Ahead(RowEven(l, h)))
  }

  method EvenHorizGroup(buffer: array<sint16>, l: nat, h: nat, w: nat, n: nat, stray: sint16, ghost lr: Line,
      ghost hr: Line)
    requires |lr| == |hr| == w && n + 8 <= w && (l + w <= h || h + w <= l) && EvenLineFits(Behind(hr), hr)
    requires Tail(buffer[..], l, lr, n) && LineAt(buffer[..], h, hr) && Part(buffer[..], l, RowEven(lr, hr), n)
    modifies buffer
    ensures Stored(old(buffer[..]), buffer[..], l + n, RowEven(lr, hr)[n..n + 8])
  {
    hide Tail, LineAt, Part, RowEven, Behind, EvenLineFits, EvenLine, EvenLanes, Load, LoadBehind, Stored;
    TailLoad(buffer[..], l, lr, n);
    TailFits(buffer[..], l, lr, n);
    LineLoad(buffer[..], h, hr, n);
    PartPrefix(buffer[..], h, hr, n + 8);
    LoadBehindIs(buffer[..], h, hr, n, stray);
    RowBackLines(lr, hr);
    EvenLanesAre(lr, Behind(hr), hr, n);
    var ln := Load(buffer[..], l + n);
    var hn := Load(buffer[..], h + n);
    var hnm := LoadBehind(buffer[..], h + n, n == 0, stray);
    Store(buffer, l + n, EvenLanes(ln, hnm, hn));
  }

  lemma TailFits(s: Line, p: nat, r: Line, n: nat)
    requires Tail(s, p, r, n)
    ensures n <= |r| && p + |r| <= |s|
  {
  }

  /** The even pass over one row, in place of its low band. */
  method EvenHoriz(buffer: array<sint16>, l: nat, h: nat, w: nat, stray: sint16, ghost lr: Line, ghost hr: Line)
    requires |lr| == |hr| == w && w % 8 == 0 && (l + w <= h || h + w <= l) && EvenLineFits(Behind(hr), hr)
    requires LineAt(buffer[..], l, lr) && LineAt(buffer[..], h, hr)
    modifies buffer
    ensures LineAt(buffer[..], l, RowEven(lr, hr)) && OneSet(old(buffer[..]), buffer[..], l, w)
    ensures LineAt(buffer[..], h, hr)
  {
    hide RowEven, Behind, EvenLineFits, Stored, LineAt, Part, Tail, OneSet;
    ghost var s, e, g := buffer[..], RowEven(lr, hr), 0;
    EvenStart(s, l, lr, e);
    var n := 0;
    while n < w
      invariant n == 8 * g && n <= w
      invariant Tail(buffer[..], l, lr, n) && LineAt(buffer[..], h, hr) && Part(buffer[..], l, e, n)
      invariant OneSet(s, buffer[..], l, w)
    {
      ghost var t := buffer[..];
      EvenHorizGroup(buffer, l, h, w, n, stray, lr, hr);
      ghost var v := e[n..n + 8];
      TailKept(t, buffer[..], l, lr, n, v);
      PartStep(t, buffer[..], l, e, n);
      LineStored(t, buffer[..], h, hr, l + n, v);
      StoredOne(s, t, buffer[..], l, w, l + n, v);
      n := n + 8;
      g := g + 1;
    }
    PartRow(buffer[..], l, e);
  }

  lemma EvenStart(s: Line, l: nat, lr: Line, e: Line)
    requires LineAt(s, l, lr) && |e| == |lr|
    ensures Tail(s, l, lr, 0) && Part(s, l, e, 0) && OneSet(s, s, l, |lr|)
  {
    assert lr[0..] == lr;
  }

  lemma Interleaved(l: Line, h: Line, n: nat)
    requires |l| == |h| && n + 8 <= |l|
    ensures UnpackLo(RowEven(l, h)[n..n + 8], RowOdd(l, h)[n..n + 8]) == RowDec(l, h)[2 * n..2 * n + 8]
    ensures UnpackHi(RowEven(l, h)[n..n + 8], RowOdd(l, h)[n..n + 8]) == RowDec(l, h)[2 * n + 8..2 * n + 16]
  {
    hide RowEven, RowDec, RowOdd;
    var e, o, d := RowEven(l, h), RowOdd(l, h), RowDec(l, h);
    forall i | n <= i < n + 8 ensures d[2 * i] == e[i] && d[2 * i + 1] == o[i] {
      RowDecAt(l, h, i);
      OddAt(l, h, i);
    }
    assert d[2 * n..2 * n + 8] == [e[n], o[n], e[n + 1], o[n + 1], e[n + 2], o[n + 2], e[n + 3], o[n + 3]];
    assert d[2 * n + 8..2 * n + 16] == [e[n + 4], o[n + 4], e[n + 5], o[n + 5], e[n + 6], o[n + 6], e[n + 7], o[n + 7]];
  }

  lemma RowOddLine(l: Line, h: Line)
    requires |l| == |h|
    ensures RowOdd(l, h) == OddLine(h, RowEven(l, h), Ahead(RowEven(l, h)))
  {
    hide Odd, RowEven;
  }

  /** Sixteen values of the decoded row, interleaved from eight even and eight odd ones. */
  method OddHorizGroup(buffer: array<sint16>, l: nat, h: nat, idwt: array<sint16>, d: nat, w: nat, n: nat,
      stray: sint16,
                       ghost lr: Line, ghost hr: Line)
    requires buffer != idwt && |lr| == |hr| == w && n + 8 <= w && d + 2 * w <= idwt.Length
    requires OddLineFits(RowEven(lr, hr), Ahead(RowEven(lr, hr)))
    requires LineAt(buffer[..], l, RowEven(lr, hr)) && LineAt(buffer[..], h, hr)
    requires Part(idwt[..], d, RowDec(lr, hr), 2 * n)
    modifies idwt
    ensures Part(idwt[..], d, RowDec(lr, hr), 2 * n + 16) && OneSet(old(idwt[..]), idwt[..], d, 2 * w)
  {
    hide LineAt, Part, RowEven, RowDec, RowOdd, OddLine, OddLineFits, Ahead, OddLanes, Load, LoadAhead, Stored,
         UnpackLo, UnpackHi, OneSet;
    ghost var e, r, s := RowEven(lr, hr), RowDec(lr, hr), idwt[..];
    LineLoad(buffer[..], h, hr, n);
    LineLoad(buffer[..], l, e, n);
    LoadAheadIs(buffer[..], l, e, n, stray);
    RowOddLine(lr, hr);
    OddLanesAre(hr, e, Ahead(e), n);
    Interleaved(lr, hr, n);
    var dn := Load(buffer[..], l + n);
    var tn := OddLanes(Load(buffer[..], h + n), dn, LoadAhead(buffer[..], l + n, n == w - 8, stray));
    Store(idwt, d + 2 * n, UnpackLo(dn, tn));
    ghost var t := idwt[..];
    PartStep(s, t, d, r, 2 * n);
    Store(idwt, d + 2 * n + 8, UnpackHi(dn, tn));
    PartStep(t, idwt[..], d, r, 2 * n + 8);
    OneSelf(s, d, 2 * w);
    StoredOne(s, s, t, d, 2 * w, d + 2 * n, r[2 * n..2 * n + 8]);
    StoredOne(s, t, idwt[..], d, 2 * w, d + 2 * n + 8, r[2 * n + 8..2 * n + 16]);
  }

  lemma OneSelf(s: Line, p: nat, len: nat)
    ensures OneSet(s, s, p, len)
  {
  }

  lemma OneTwice(s: Line, m: Line, t: Line, p: nat, len: nat)
    requires OneSet(s, m, p, len) && OneSet(m, t, p, len)
    ensures OneSet(s, t, p, len)
  {
  }

  lemma OneWider(s: Line, t: Line, p: nat, len: nat, base: nat, all: nat)
    requires OneSet(s, t, p, len) && base <= p && p + len <= base + all
    ensures OneSet(s, t, base, all)
  {
  }

  method OddHoriz(buffer: array<sint16>, l: nat, h: nat, idwt: array<sint16>, d: nat, w: nat, stray: sint16,
                  ghost lr: Line, ghost hr: Line)
    requires buffer != idwt && |lr| == |hr| == w && w % 8 == 0 && d + 2 * w <= idwt.Length
    requires OddLineFits(RowEven(lr, hr), Ahead(RowEven(lr, hr)))
    requires LineAt(buffer[..], l, RowEven(lr, hr)) && LineAt(buffer[..], h, hr)
    modifies idwt
    ensures LineAt(idwt[..], d, RowDec(lr, hr)) && OneSet(old(idwt[..]), idwt[..], d, 2 * w)
  {
    hide LineAt, Part, RowEven, RowDec, OddLineFits, Ahead, OneSet;
    ghost var s, r, g := idwt[..], RowDec(lr, hr), 0;
    PartStart(s, d, r);
    OneSelf(s, d, 2 * w);
    var n := 0;
    while n < w
      invariant n == 8 * g && n <= w && Part(idwt[..], d, r, 2 * n) && OneSet(s, idwt[..], d, 2 * w)
      invariant LineAt(buffer[..], l, RowEven(lr, hr)) && LineAt(buffer[..], h, hr)
    {
      ghost var t := idwt[..];
      OddHorizGroup(buffer, l, h, idwt, d, w, n, stray, lr, hr);
      OneTwice(s, t, idwt[..], d, 2 * w);
      n := n + 8;
      g := g + 1;
    }
    PartRow(idwt[..], d, r);
  }

  ghost predicate RowsBackFit(l: Matrix, h: Matrix, w: nat)
    requires Shape(l, w, w) && Shape(h, w, w)
  {
    forall y :: 0 <= y < w ==> RowBackFits(l[y], h[y])
  }

  /** Row y; s is the buffer before the pass, of which only the first y rows at lb have changed. */
  method DecodeHorizRow(buffer: array<sint16>, lb: nat, hb: nat, idwt: array<sint16>, db: nat, w: nat, y: nat,
                        stray: sint16, ghost s: Line, ghost l: Matrix, ghost h: Matrix)
    requires buffer != idwt && y < w && w % 8 == 0 && Shape(l, w, w) && Shape(h, w, w) && RowBackFits(l[y], h[y])
    requires Laid(s, lb, w, w, l) && Laid(s, hb, w, w, h) && OneSet(s, buffer[..], lb, Cell(y, 0, w))
    requires lb + Area(w, w) <= hb || hb + Area(w, w) <= lb
    requires db + Area(w, 2 * w) <= idwt.Length && Grown(idwt[..], db, 2 * w, RowsDec(l, h, w), y)
    modifies buffer, idwt
    ensures OneSet(s, buffer[..], lb, Cell(y + 1, 0, w))
    ensures Grown(idwt[..], db, 2 * w, RowsDec(l, h, w), y + 1)
    ensures OneSet(old(idwt[..]), idwt[..], db, Area(w, 2 * w))
  {
    hide LineAt, Laid, Cell, Area, Grown, RowsDec, RowDec, RowEven, Behind, Ahead, EvenLineFits, OddLineFits, OneSet;
    var c, r := Cell(y, 0, w), Cell(y, 0, 2 * w);
    ghost var t, i0 := buffer[..], idwt[..];
    CellBound(w, w, y, 0);
    CellBound(w, 2 * w, y, 0);
    CellNextRow(y, 0, w);
    MatrixLine(s, lb, w, w, l, y);
    MatrixLine(s, hb, w, w, h, y);
    LineKept(s, t, lb + c, l[y], lb, c);
    LineKept(s, t, hb + c, h[y], lb, c);
    EvenHoriz(buffer, lb + c, hb + c, w, stray, l[y], h[y]);
    OneNextRow(s, t, buffer[..], lb, c, w);
    OddHoriz(buffer, lb + c, hb + c, idwt, db + r, w, stray, l[y], h[y]);
    RowsDecLine(l, h, w, y);
    OneWider(i0, idwt[..], db + r, 2 * w, db, Area(w, 2 * w));
    LineGrow(i0, idwt[..], db, 2 * w, w, RowsDec(l, h, w), y);
  }

  lemma OneNextRow(s: Line, m: Line, t: Line, p: nat, c: nat, w: nat)
    requires OneSet(s, m, p, c) && OneSet(m, t, p + c, w)
    ensures OneSet(s, t, p, c + w)
  {
  }

  lemma RowsDecLine(l: Matrix, h: Matrix, w: nat, y: nat)
    requires Shape(l, w, w) && Shape(h, w, w) && y < w
    ensures RowsDec(l, h, w)[y] == RowDec(l[y], h[y])
  {
    hide RowDec;
  }

  lemma LineGrow(s: Line, t: Line, base: nat, cols: nat, rows: nat, m: Matrix, y: nat)
    requires Shape(m, rows, cols) && y < rows && Grown(s, base, cols, m, y)
    requires OneSet(s, t, base + Cell(y, 0, cols), cols) && LineAt(t, base + Cell(y, 0, cols), m[y])
    ensures Grown(t, base, cols, m, y + 1)
  {
    hide Cell, Grown;
    GrownWithin(s, base, cols, m, y);
    GrownKept(s, t, base, cols, m, y);
    GrownStep(t, base, cols, m, y);
  }

  lemma GrownWithin(s: Line, base: nat, w: nat, m: Matrix, y: nat)
    requires Grown(s, base, w, m, y)
    ensures base + Cell(y, 0, w) <= |s|
  {
  }

  /** The horizontal pass over one pair of bands; the low band is overwritten. */
  method DecodeHoriz(buffer: array<sint16>, lb: nat, hb: nat, idwt: array<sint16>, db: nat, w: nat,
                     stray: sint16, ghost l: Matrix, ghost h: Matrix)
    requires buffer != idwt && w % 8 == 0 && Shape(l, w, w) && Shape(h, w, w) && RowsBackFit(l, h, w)
    requires Laid(buffer[..], lb, w, w, l) && Laid(buffer[..], hb, w, w, h)
    requires lb + Area(w, w) <= hb || hb + Area(w, w) <= lb
    requires db + Area(w, 2 * w) <= idwt.Length
    modifies buffer, idwt
    ensures OneSet(old(buffer[..]), buffer[..], lb, Area(w, w))
    ensures Laid(idwt[..], db, w, 2 * w, RowsDec(l, h, w)) && OneSet(old(idwt[..]), idwt[..], db, Area(w, 2 * w))
  {
    hide Laid, Cell, Area, Grown, RowsDec, RowBackFits, OneSet;
    ghost var s, i0, m := buffer[..], idwt[..], RowsDec(l, h, w);
    GrownStart(i0, db, 2 * w, m);
    OneSelf(s, lb, Cell(0, 0, w));
    OneSelf(i0, db, Area(w, 2 * w));
    var y := 0;
    while y < w
      invariant 0 <= y <= w && OneSet(s, buffer[..], lb, Cell(y, 0, w)) && Grown(idwt[..], db, 2 * w, m, y)
      invariant OneSet(i0, idwt[..], db, Area(w, 2 * w))
    {
      ghost var i1 := idwt[..];
      DecodeHorizRow(buffer, lb, hb, idwt, db, w, y, stray, s, l, h);
      OneTwice(i0, i1, idwt[..], db, Area(w, 2 * w));
      y := y + 1;
    }
    AreaNext(w, w);
    GrownLaid(idwt[..], db, w, 2 * w, m);
  }
}
