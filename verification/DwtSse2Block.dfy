/** The vertical eight-lane inverse pass and whole blocks (libfreerdp-codec/rfx_sse2.c). */
module DwtSse2Block {
  import opened Words
  import opened Grid
  import opened Dwt
  import opened DwtBlock
  import opened DwtInverse
  import opened Sse2
  import opened DwtSse2
  import opened DwtSse2Rows
  import opened DwtSse2Back

  // ---- Vertical pass ----

  /** An even row of the block: eight columns at a time. */
  method EvenVertRow(idwt: array<sint16>, l: nat, h: nat, buffer: array<sint16>, dst: nat, tw: nat, n: nat,
                     ghost lr: Line, ghost hm: Line, ghost hr: Line)
    requires idwt != buffer && |lr| == |hm| == |hr| == tw && tw % 8 == 0 && dst + tw <= buffer.Length
    requires LineAt(idwt[..], l, lr) && LineAt(idwt[..], h, hr) && EvenLineFits(hm, hr)
    requires if n == 0 then hm == hr else h >= tw && LineAt(idwt[..], h - tw, hm)
    modifies buffer
    ensures LineAt(buffer[..], dst, EvenLine(lr, hm, hr)) && OneSet(old(buffer[..]), buffer[..], dst, tw)
  {
    hide LineAt, Part, EvenLine, EvenLineFits, OneSet, Stored, Load, EvenLanes, EvenLanesVert;
    ghost var s, r, g := buffer[..], EvenLine(lr, hm, hr), 0;
    PartStart(s, dst, r);
    OneSelf(s, dst, tw);
    var x := 0;
    while x < tw
      invariant x == 8 * g && x <= tw && Part(buffer[..], dst, r, x) && OneSet(s, buffer[..], dst, tw)
      invariant LineAt(idwt[..], l, lr) && LineAt(idwt[..], h, hr)
      invariant if n == 0 then hm == hr else h >= tw && LineAt(idwt[..], h - tw, hm)
    {
      ghost var t := buffer[..];
      LineLoad(idwt[..], l, lr, x);
      LineLoad(idwt[..], h, hr, x);
      if n > 0 { LineLoad(idwt[..], h - tw, hm, x); }
      var ln, hn := Load(idwt[..], l + x), Load(idwt[..], h + x);
      var hnm := if n == 0 then hn else Load(idwt[..], h - tw + x);
      EvenLanesAre(lr, hm, hr, x);
      EvenLanesOrder(ln, hnm, hn);
      Store(buffer, dst + x, EvenLanesVert(ln, hnm, hn));
      PartStep(t, buffer[..], dst, r, x);
      StoredOne(s, t, buffer[..], dst, tw, dst + x, r[x..x + 8]);
      x := x + 8;
      g := g + 1;
    }
    PartRow(buffer[..], dst, r);
  }

  /** An odd row, between the even rows above and below it. */
  method OddVertRow(idwt: array<sint16>, h: nat, buffer: array<sint16>, dst: nat, w: nat, n: nat,
                    ghost hr: Line, ghost d: Line, ghost d2: Line)
    requires idwt != buffer && |hr| == |d| == |d2| == 2 * w && w % 8 == 0 && n < w
    requires dst >= 2 * w && dst + 2 * w <= buffer.Length
    requires LineAt(idwt[..], h, hr) && LineAt(buffer[..], dst - 2 * w, d) && OddLineFits(d, d2)
    requires if n == w - 1 then d2 == d else LineAt(buffer[..], dst + 2 * w, d2)
    modifies buffer
    ensures LineAt(buffer[..], dst, OddLine(hr, d, d2)) && OneSet(old(buffer[..]), buffer[..], dst, 2 * w)
  {
    hide LineAt, Part, OddLine, OddLineFits, OneSet, Stored, Load, OddLanes;
    var tw := 2 * w;
    ghost var s, r, g := buffer[..], OddLine(hr, d, d2), 0;
    PartStart(s, dst, r);
    OneSelf(s, dst, tw);
    var x := 0;
    while x < tw
      invariant x == 8 * g && x <= tw && Part(buffer[..], dst, r, x) && OneSet(s, buffer[..], dst, tw)
      invariant LineAt(idwt[..], h, hr) && LineAt(buffer[..], dst - tw, d)
      invariant if n == w - 1 then d2 == d else LineAt(buffer[..], dst + tw, d2)
    {
      ghost var t, v := buffer[..], r[x..x + 8];
      OddVertGroup(idwt, h, buffer, dst, w, n, x, hr, d, d2);
      PartStep(t, buffer[..], dst, r, x);
      LineStored(t, buffer[..], dst - tw, d, dst + x, v);
      if n != w - 1 { LineStored(t, buffer[..], dst + tw, d2, dst + x, v); }
      StoredOne(s, t, buffer[..], dst, tw, dst + x, v);
      x := x + 8;
      g := g + 1;
    }
    PartRow(buffer[..], dst, r);
  }

  method OddVertGroup(idwt: array<sint16>, h: nat, buffer: array<sint16>, dst: nat, w: nat, n: nat, x: nat,
                      ghost hr: Line, ghost d: Line, ghost d2: Line)
    requires idwt != buffer && |hr| == |d| == |d2| == 2 * w && x + 8 <= 2 * w && n < w
    requires dst >= 2 * w && dst + 2 * w <= buffer.Length
    requires LineAt(idwt[..], h, hr) && LineAt(buffer[..], dst - 2 * w, d) && OddLineFits(d, d2)
    requires if n == w - 1 then d2 == d else LineAt(buffer[..], dst + 2 * w, d2)
    modifies buffer
    ensures Stored(old(buffer[..]), buffer[..], dst + x, OddLine(hr, d, d2)[x..x + 8])
  {
    hide LineAt, OddLine, OddLineFits, Stored, Load, OddLanes;
    var tw := 2 * w;
    LineLoad(idwt[..], h, hr, x);
    LineLoad(buffer[..], dst - tw, d, x);
    if n != w - 1 { LineLoad(buffer[..], dst + tw, d2, x); }
    var hn, dnm := Load(idwt[..], h + x), Load(buffer[..], dst - tw + x);
    var dnp := if n == w - 1 then dnm else Load(buffer[..], dst + tw + x);
    OddLanesAre(hr, d, d2, x);
    Store(buffer, dst + x, OddLanes(hn, dnm, dnp));
  }

  lemma ColBackLines(l: Matrix, h: Matrix, w: nat, n: nat)
    requires Shape(l, w, 2 * w) && Shape(h, w, 2 * w) && n < w
    ensures var m := ColDec(l, h, w);
            && m[2 * n] == EvenLine(l[n], h[Prev(n)], h[n])
            && m[2 * n + 1] == OddLine(h[n], m[2 * n], m[2 * Next(n, w)])
  {
    hide ColDec, Even, Odd;
    var m := ColDec(l, h, w);
    forall x | 0 <= x < 2 * w
      ensures m[2 * n][x] == EvenLine(l[n], h[Prev(n)], h[n])[x]
      ensures m[2 * n + 1][x] == OddLine(h[n], m[2 * n], m[2 * Next(n, w)])[x]
    {
      ColDecAt(l, h, w, n, x);
    }
  }

  /** The sums halved by the vertical pass fit 16 bits. */
  ghost predicate ColsBackFit(l: Matrix, h: Matrix, w: nat)
    requires Shape(l, w, 2 * w) && Shape(h, w, 2 * w)
  {
    forall n :: 0 <= n < w ==> ColRowFits(l, h, w, n)
  }

  ghost predicate ColRowFits(l: Matrix, h: Matrix, w: nat, n: nat)
    requires Shape(l, w, 2 * w) && Shape(h, w, 2 * w) && n < w
  {
    var m := ColDec(l, h, w);
    EvenLineFits(h[Prev(n)], h[n]) && OddLineFits(m[2 * n], m[2 * Next(n, w)])
  }

  /** The first ev even rows and the first od odd rows are in place. */
  ghost predicate RowsBack(s: Line, base: nat, w: nat, m: Matrix, ev: nat, od: nat)
    requires Shape(m, 2 * w, 2 * w) && ev <= w && od <= w
  {
    && (forall n :: 0 <= n < ev ==> EvenRowAt(s, base, w, m, n))
    && (forall n :: 0 <= n < od ==> OddRowAt(s, base, w, m, n))
  }

  ghost predicate EvenRowAt(s: Line, base: nat, w: nat, m: Matrix, n: nat)
    requires Shape(m, 2 * w, 2 * w) && n < w
  {
    LineAt(s, base + Cell(2 * n, 0, 2 * w), m[2 * n])
  }

  ghost predicate OddRowAt(s: Line, base: nat, w: nat, m: Matrix, n: nat)
    requires Shape(m, 2 * w, 2 * w) && n < w
  {
    LineAt(s, base + Cell(2 * n + 1, 0, 2 * w), m[2 * n + 1])
  }

  /** A row set leaves the other rows alone. */
  lemma OtherRows(s: Line, t: Line, base: nat, w: nat, m: Matrix, y: nat, ev: nat, od: nat)
    requires Shape(m, 2 * w, 2 * w) && y < 2 * w && ev <= w && od <= w && RowsBack(s, base, w, m, ev, od)
    requires OneSet(s, t, base + Cell(y, 0, 2 * w), 2 * w) && LineAt(t, base + Cell(y, 0, 2 * w), m[y])
    ensures RowsBack(t, base, w, m, ev, od)
    ensures y == 2 * ev && ev < w ==> RowsBack(t, base, w, m, ev + 1, od)
    ensures y == 2 * od + 1 && od < w ==> RowsBack(t, base, w, m, ev, od + 1)
  {
    hide Cell, LineAt, OneSet;
    forall n | 0 <= n < ev ensures EvenRowAt(t, base, w, m, n) {
      assert EvenRowAt(s, base, w, m, n);
      RowApart(s, t, base, w, m, y, 2 * n);
    }
    forall n | 0 <= n < od ensures OddRowAt(t, base, w, m, n) {
      assert OddRowAt(s, base, w, m, n);
      RowApart(s, t, base, w, m, y, 2 * n + 1);
    }
  }

  lemma RowApart(s: Line, t: Line, base: nat, w: nat, m: Matrix, y: nat, z: nat)
    requires Shape(m, 2 * w, 2 * w) && y < 2 * w && z < 2 * w
    requires OneSet(s, t, base + Cell(y, 0, 2 * w), 2 * w) && LineAt(t, base + Cell(y, 0, 2 * w), m[y])
    requires LineAt(s, base + Cell(z, 0, 2 * w), m[z])
    ensures LineAt(t, base + Cell(z, 0, 2 * w), m[z])
  {
    hide Cell, LineAt, OneSet;
    if z < y {
      CellOrder(z, y, 2 * w);
      LineKept(s, t, base + Cell(z, 0, 2 * w), m[z], base + Cell(y, 0, 2 * w), 2 * w);
    } else if y < z {
      CellOrder(y, z, 2 * w);
      LineKept(s, t, base + Cell(z, 0, 2 * w), m[z], base + Cell(y, 0, 2 * w), 2 * w);
    }
  }

  lemma AllRowsBack(s: Line, base: nat, w: nat, m: Matrix)
    requires Shape(m, 2 * w, 2 * w) && RowsBack(s, base, w, m, w, w) && base + Area(2 * w, 2 * w) <= |s|
    ensures Laid(s, base, 2 * w, 2 * w, m)
  {
    hide Cell, Area;
    RowsFit(2 * w, 2 * w);
    forall y, x | 0 <= y < 2 * w && 0 <= x < 2 * w
      ensures Cell(y, x, 2 * w) < Area(2 * w, 2 * w) && s[base + Cell(y, x, 2 * w)] == m[y][x]
    {
      var n := y / 2;
      assert y == 2 * n || y == 2 * n + 1;
      assert EvenRowAt(s, base, w, m, n) && OddRowAt(s, base, w, m, n);
      var p := base + Cell(y, 0, 2 * w);
      assert m[y][x] == s[p..p + 2 * w][x];
    }
  }

  lemma IdwtRows(s: Line, w: nat, l: Matrix, h: Matrix, n: nat)
    requires Laid(s, 0, w, 2 * w, l) && Laid(s, Area(w, 2 * w), w, 2 * w, h) && n < w
    requires Shape(l, w, 2 * w) && Shape(h, w, 2 * w)
    ensures var q := Area(w, 2 * w) + Cell(n, 0, 2 * w);
            && LineAt(s, Cell(n, 0, 2 * w), l[n]) && LineAt(s, q, h[n])
            && (n > 0 ==> q >= 2 * w && LineAt(s, q - 2 * w, h[n - 1]))
  {
    hide Cell, Area, Laid, LineAt;
    MatrixLine(s, 0, w, 2 * w, l, n);
    MatrixLine(s, Area(w, 2 * w), w, 2 * w, h, n);
    if n > 0 {
      MatrixLine(s, Area(w, 2 * w), w, 2 * w, h, n - 1);
      CellNextRow(n - 1, 0, 2 * w);
    }
  }

  method EvenVertStep(idwt: array<sint16>, buffer: array<sint16>, base: nat, w: nat, n: nat,
                      ghost l: Matrix, ghost h: Matrix, ghost m: Matrix)
    requires idwt != buffer && n < w && w % 8 == 0 && base + Area(2 * w, 2 * w) <= buffer.Length
    requires Shape(l, w, 2 * w) && Shape(h, w, 2 * w) && m == ColDec(l, h, w) && ColRowFits(l, h, w, n)
    requires Laid(idwt[..], 0, w, 2 * w, l) && Laid(idwt[..], Area(w, 2 * w), w, 2 * w, h)
    requires RowsBack(buffer[..], base, w, m, n, 0)
    modifies buffer
    ensures RowsBack(buffer[..], base, w, m, n + 1, 0) && OneSet(old(buffer[..]), buffer[..], base, Area(2 * w, 2 * w))
  {
    hide Cell, Area, Laid, LineAt, ColDec, OneSet, RowsBack, EvenLineFits, OddLineFits, EvenLine, OddLine;
    IdwtRows(idwt[..], w, l, h, n);
    ColBackLines(l, h, w, n);
    CellBound(2 * w, 2 * w, 2 * n, 0);
    ghost var s := buffer[..];
    var li := Cell(n, 0, 2 * w);
    EvenVertRow(idwt, li, Area(w, 2 * w) + li, buffer, base + Cell(2 * n, 0, 2 * w), 2 * w, n, l[n], h[Prev(n)], h[n]);
    OtherRows(s, buffer[..], base, w, m, 2 * n, n, 0);
    OneWider(s, buffer[..], base + Cell(2 * n, 0, 2 * w), 2 * w, base, Area(2 * w, 2 * w));
  }

  method OddVertStep(idwt: array<sint16>, buffer: array<sint16>, base: nat, w: nat, n: nat,
                     ghost l: Matrix, ghost h: Matrix, ghost m: Matrix)
    requires idwt != buffer && n < w && w % 8 == 0 && base + Area(2 * w, 2 * w) <= buffer.Length
    requires Shape(l, w, 2 * w) && Shape(h, w, 2 * w) && m == ColDec(l, h, w) && ColRowFits(l, h, w, n)
    requires Laid(idwt[..], 0, w, 2 * w, l) && Laid(idwt[..], Area(w, 2 * w), w, 2 * w, h)
    requires RowsBack(buffer[..], base, w, m, w, n)
    modifies buffer
    ensures RowsBack(buffer[..], base, w, m, w, n + 1) && OneSet(old(buffer[..]), buffer[..], base, Area(2 * w, 2 * w))
  {
    hide Cell, Area, Laid, LineAt, ColDec, OneSet, RowsBack, EvenLineFits, OddLineFits, EvenLine, OddLine;
    IdwtRows(idwt[..], w, l, h, n);
    ColBackLines(l, h, w, n);
    CellBound(2 * w, 2 * w, 2 * n + 1, 0);
    CellNextRow(2 * n, 0, 2 * w);
    CellNextRow(2 * n + 1, 0, 2 * w);
    ghost var s := buffer[..];
    EvensAround(s, base, w, m, n);
    var dst := base + Cell(2 * n + 1, 0, 2 * w);
    OddVertRow(idwt, Area(w, 2 * w) + Cell(n, 0, 2 * w), buffer, dst, w, n, h[n], m[2 * n], m[2 * Next(n, w)]);
    OtherRows(s, buffer[..], base, w, m, 2 * n + 1, w, n);
    OneWider(s, buffer[..], dst, 2 * w, base, Area(2 * w, 2 * w));
  }

  lemma EvensAround(s: Line, base: nat, w: nat, m: Matrix, n: nat)
    requires Shape(m, 2 * w, 2 * w) && n < w && RowsBack(s, base, w, m, w, n)
    ensures LineAt(s, base + Cell(2 * n, 0, 2 * w), m[2 * n])
    ensures n < w - 1 ==> LineAt(s, base + Cell(2 * n + 2, 0, 2 * w), m[2 * n + 2])
  {
    hide Cell, LineAt;
    assert EvenRowAt(s, base, w, m, n);
    assert n < w - 1 ==> EvenRowAt(s, base, w, m, n + 1);
  }

  method DecodeVert(idwt: array<sint16>, buffer: array<sint16>, base: nat, w: nat,
                    ghost l: Matrix, ghost h: Matrix, ghost m: Matrix)
    requires idwt != buffer && w % 8 == 0 && base + Area(2 * w, 2 * w) <= buffer.Length
    requires Shape(l, w, 2 * w) && Shape(h, w, 2 * w) && m == ColDec(l, h, w) && ColsBackFit(l, h, w)
    requires Laid(idwt[..], 0, w, 2 * w, l) && Laid(idwt[..], Area(w, 2 * w), w, 2 * w, h)
    modifies buffer
    ensures Laid(buffer[..], base, 2 * w, 2 * w, m) && OneSet(old(buffer[..]), buffer[..], base, Area(2 * w, 2 * w))
  {
    hide Area, Laid, ColDec, OneSet, RowsBack, ColRowFits;
    ghost var s := buffer[..];
    VertBackStart(s, base, w, m);
    OneSelf(s, base, Area(2 * w, 2 * w));
    var n := 0;
    while n < w
      invariant 0 <= n <= w && RowsBack(buffer[..], base, w, m, n, 0) && OneSet(s, buffer[..], base, Area(2 * w, 2 * w))
      invariant Laid(idwt[..], 0, w, 2 * w, l) && Laid(idwt[..], Area(w, 2 * w), w, 2 * w, h)
    {
      ghost var t := buffer[..];
      EvenVertStep(idwt, buffer, base, w, n, l, h, m);
      OneTwice(s, t, buffer[..], base, Area(2 * w, 2 * w));
      n := n + 1;
    }
    n := 0;
    while n < w
      invariant 0 <= n <= w && RowsBack(buffer[..], base, w, m, w, n) && OneSet(s, buffer[..], base, Area(2 * w, 2 * w))
      invariant Laid(idwt[..], 0, w, 2 * w, l) && Laid(idwt[..], Area(w, 2 * w), w, 2 * w, h)
    {
      ghost var t := buffer[..];
      OddVertStep(idwt, buffer, base, w, n, l, h, m);
      OneTwice(s, t, buffer[..], base, Area(2 * w, 2 * w));
      n := n + 1;
    }
    AllRowsBack(buffer[..], base, w, m);
  }

  lemma VertBackStart(s: Line, base: nat, w: nat, m: Matrix)
    requires Shape(m, 2 * w, 2 * w)
    ensures RowsBack(s, base, w, m, 0, 0)
  {
  }

  // ---- Whole blocks ----

  /** Every sum halved while the bands are decoded fits 16 bits. */
  ghost predicate DecodeFits(b: Bands, w: nat)
    requires Square(b, w)
  {
    && RowsBackFit(b.ll, b.hl, w) && RowsBackFit(b.lh, b.hh, w)
    && ColsBackFit(RowsDec(b.ll, b.hl, w), RowsDec(b.lh, b.hh, w), w)
  }

  /** The eight-lane decoder leaves the buffer of the scalar one, whatever lies outside the buffer. */
  method DecodeBlockSse2(buffer: array<sint16>, base: nat, idwt: array<sint16>, w: nat, stray: sint16)
    requires buffer != idwt && w % 8 == 0 && base + 4 * Area(w, w) <= buffer.Length && 4 * Area(w, w) <= idwt.Length
    requires DecodeFits(BandsAt(buffer[..], base, w), w)
    modifies buffer, idwt
    ensures buffer[..] == DecodeFlat(old(buffer[..]), base, w)
  {
    hide Area, Laid, RowsDec, ColDec, OneSet, BandsAt, RowsBackFit, ColsBackFit, Flat;
    AreaFour(w);
    ghost var s := buffer[..];
    ghost var b := BandsAt(s, base, w);
    var a := Area(w, w);
    ghost var l, h := RowsDec(b.ll, b.hl, w), RowsDec(b.lh, b.hh, w);
    ghost var m := ColDec(l, h, w);
    DecodeHoriz(buffer, base + 3 * a, base, idwt, 0, w, stray, b.ll, b.hl);
    ghost var s1, i1 := buffer[..], idwt[..];
    LaidKept(s, s1, base + a, w, w, b.lh, base + 3 * a, a);
    LaidKept(s, s1, base + 2 * a, w, w, b.hh, base + 3 * a, a);
    DecodeHoriz(buffer, base + a, base + 2 * a, idwt, 2 * a, w, stray, b.lh, b.hh);
    ghost var s2 := buffer[..];
    LaidKept(i1, idwt[..], 0, w, 2 * w, l, 2 * a, 2 * a);
    DecodeVert(idwt, buffer, base, w, l, h, m);
    OneWider(s, s1, base + 3 * a, a, base, 4 * a);
    OneWider(s1, s2, base + a, a, base, 4 * a);
    OneTwice(s, s1, s2, base, 4 * a);
    OneTwice(s, s2, buffer[..], base, 4 * a);
    LaidFlat(buffer[..], base, 2 * w, 2 * w, m);
    AssembledOne(s, buffer[..], base, 4 * a);
  }

  lemma LaidKept(s: Line, t: Line, p: nat, rows: nat, cols: nat, m: Matrix, base: nat, len: nat)
    requires Laid(s, p, rows, cols, m) && OneSet(s, t, base, len)
    requires base + len <= p || p + Area(rows, cols) <= base
    ensures Laid(t, p, rows, cols, m)
  {
    hide Cell, Area;
  }

  lemma AssembledOne(s: Line, t: Line, base: nat, len: nat)
    requires OneSet(s, t, base, len) && base + len <= |s|
    ensures t == s[..base] + t[base..base + len] + s[base + len..]
  {
  }

  // ---- The three levels ----

  ghost predicate EncodeLevelsFit(s: Line)
    requires |s| >= 4096
  {
    hide EncodeOne, EncodeTwo;
    BlockFits(s, 0, 32) && BlockFits(EncodeOne(s), 3072, 16) && BlockFits(EncodeTwo(s), 3840, 8)
  }

  ghost predicate DecodeLevelsFit(s: Line)
    requires |s| >= 4096
  {
    hide DecodeOne, DecodeTwo;
    && DecodeFits(BandsAt(s, 3840, 8), 8) && DecodeFits(BandsAt(DecodeOne(s), 3072, 16), 16)
    && DecodeFits(BandsAt(DecodeTwo(s), 0, 32), 32)
  }

  method DwtEncodeSse2(buffer: array<sint16>, dwt: array<sint16>, stray: sint16)
    requires buffer != dwt && buffer.Length >= 4096 && dwt.Length >= 4096
    requires EncodeLevelsFit(buffer[..])
    modifies buffer, dwt
    ensures buffer[..] == EncodeLevels(old(buffer[..]))
  {
    hide EncodeFlat, BlockFits;
    EncodeBlockSse2(buffer, 0, dwt, 32, stray);
    EncodeBlockSse2(buffer, 3072, dwt, 16, stray);
    EncodeBlockSse2(buffer, 3840, dwt, 8, stray);
  }

  method DwtDecodeSse2(buffer: array<sint16>, idwt: array<sint16>, stray: sint16)
    requires buffer != idwt && buffer.Length >= 4096 && idwt.Length >= 4096
    requires DecodeLevelsFit(buffer[..])
    modifies buffer, idwt
    ensures buffer[..] == DecodeLevels(old(buffer[..]))
  {
    hide DecodeFlat, DecodeFits, BandsAt;
    DecodeBlockSse2(buffer, 3840, idwt, 8, stray);
    DecodeBlockSse2(buffer, 3072, idwt, 16, stray);
    DecodeBlockSse2(buffer, 0, idwt, 32, stray);
  }

  // ---- Bands within -2047 .. 2047 fit ----

  lemma EvenWithin(l: sint16, hm: sint16, h: sint16, b: int)
    requires -b <= l as int <= b && -b <= hm as int <= b && -b <= h as int <= b && 2 * b + 1 <= 32767
    ensures -(2 * b + 1) <= Even(l, hm, h) as int <= 2 * b + 1
  {
  }

  lemma OddWithin(h: sint16, d: sint16, d2: sint16, b: int, c: int)
    requires -b <= h as int <= b && -c <= d as int <= c && -c <= d2 as int <= c && 2 * b + c <= 32767
    ensures -(2 * b + c) <= Odd(h, d, d2) as int <= 2 * b + c
  {
  }

  lemma LineBackWithin(l: Line, h: Line, b: int)
    requires |l| == |h| && Within(l, b) && Within(h, b) && 0 <= b && 4 * b + 1 <= 32767
    ensures Within(RowEven(l, h), 2 * b + 1) && Within(RowDec(l, h), 4 * b + 1)
  {
    hide Even, Odd, RowDec, RowEven;
    var e, r := RowEven(l, h), RowDec(l, h);
    forall n | 0 <= n < |l| ensures -(2 * b + 1) <= e[n] as int <= 2 * b + 1 {
      EvenAt(l, h, n);
      EvenWithin(l[n], h[if n == 0 then n else n - 1], h[n], b);
    }
    forall i | 0 <= i < 2 * |l| ensures -(4 * b + 1) <= r[i] as int <= 4 * b + 1 {
      var n := i / 2;
      assert i == 2 * n || i == 2 * n + 1;
      RowDecAt(l, h, n);
      OddWithin(h[n], e[n], e[Next(n, |l|)], b, 2 * b + 1);
    }
  }

  lemma RowBackFitsSmall(l: Line, h: Line)
    requires |l| == |h| && Within(l, 8188) && Within(h, 8188)
    ensures RowBackFits(l, h)
  {
    hide RowEven;
    LineBackWithin(l, h, 8188);
    var e := RowEven(l, h);
    forall n | 0 <= n < |l| ensures EvenFits(Behind(h)[n], h[n]) && OddFits(e[n], Ahead(e)[n]) {
      assert Behind(h)[n] == h[Prev(n)] && Ahead(e)[n] == e[Next(n, |l|)];
    }
  }

  lemma ColsBackFitSmall(l: Matrix, h: Matrix, w: nat)
    requires Shape(l, w, 2 * w) && Shape(h, w, 2 * w) && MatrixWithin(l, 8189) && MatrixWithin(h, 8189)
    ensures ColsBackFit(l, h, w)
  {
    hide ColDec, Even;
    forall n | 0 <= n < w ensures ColRowFits(l, h, w, n) {
      var m := ColDec(l, h, w);
      assert Within(h[n], 8189) && Within(h[Prev(n)], 8189);
      EvenRowWithin(l, h, w, n);
      EvenRowWithin(l, h, w, Next(n, w));
    }
  }

  lemma EvenRowWithin(l: Matrix, h: Matrix, w: nat, n: nat)
    requires Shape(l, w, 2 * w) && Shape(h, w, 2 * w) && MatrixWithin(l, 8189) && MatrixWithin(h, 8189) && n < w
    ensures Within(ColDec(l, h, w)[2 * n], 16379)
  {
    hide ColDec, Even;
    assert Within(l[n], 8189) && Within(h[n], 8189) && Within(h[Prev(n)], 8189);
    forall x | 0 <= x < 2 * w ensures -16379 <= ColDec(l, h, w)[2 * n][x] <= 16379 {
      ColDecAt(l, h, w, n, x);
      EvenWithin(l[n][x], h[Prev(n)][x], h[n][x], 8189);
    }
  }

  lemma DecodeFitsSmall(b: Bands, w: nat)
    requires Square(b, w)
    requires MatrixWithin(b.ll, 2047) && MatrixWithin(b.hl, 2047) && MatrixWithin(b.lh, 2047)
        && MatrixWithin(b.hh, 2047)
    ensures DecodeFits(b, w)
  {
    hide RowBackFits, RowDec, RowEven, ColsBackFit;
    var l, h := RowsDec(b.ll, b.hl, w), RowsDec(b.lh, b.hh, w);
    forall y | 0 <= y < w
      ensures RowBackFits(b.ll[y], b.hl[y]) && RowBackFits(b.lh[y], b.hh[y]) && Within(l[y], 8189) && Within(h[y], 8189)
    {
      assert Within(b.ll[y], 2047) && Within(b.hl[y], 2047) && Within(b.lh[y], 2047) && Within(b.hh[y], 2047);
      RowBackFitsSmall(b.ll[y], b.hl[y]);
      RowBackFitsSmall(b.lh[y], b.hh[y]);
      LineBackWithin(b.ll[y], b.hl[y], 2047);
      LineBackWithin(b.lh[y], b.hh[y], 2047);
    }
    ColsBackFitSmall(l, h, w);
  }
}
