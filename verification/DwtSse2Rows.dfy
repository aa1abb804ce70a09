/** The horizontal eight-lane kernels: strided and shifted loads with patched edge lanes
    (libfreerdp-codec/rfx_sse2.c). */
module DwtSse2Rows {
  import opened Words
  import opened Grid
  import opened Dwt
  import opened DwtBlock
  import opened DwtInverse
  import opened Sse2
  import opened DwtSse2

  // ---- Loads ----

  /** Every other value from p on. */
  function Pick(s: Line, p: nat): Lanes
    requires p + 15 <= |s|
  {
    seq(8, i requires 0 <= i < 8 => s[p + 2 * i])
  }

  /** The even values one step ahead; in the last group the last one is mirrored. */
  function PickAhead(s: Line, p: nat, last: bool): Lanes
    requires p + 15 <= |s| && (!last ==> p + 17 <= |s|)
  {
    seq(8, i requires 0 <= i < 8 => if i == 7 && last then s[p + 14] else s[p + 2 * i + 2])
  }

  lemma PickIs(s: Line, p: nat, c: Line, w: nat, n: nat)
    requires LineAt(s, p, c) && |c| == 2 * w && n + 8 <= w
    ensures Pick(s, p + 2 * n) == Evens(c, w)[n..n + 8] && Pick(s, p + 2 * n + 1) == Odds(c, w)[n..n + 8]
  {
    assert forall i :: 0 <= i < 2 * w ==> c[i] == s[p + i];
    var e, o := Evens(c, w)[n..n + 8], Odds(c, w)[n..n + 8];
    assert forall i :: 0 <= i < 8 ==> e[i] == c[2 * (n + i)];
    assert forall i :: 0 <= i < 8 ==> o[i] == c[2 * (n + i) + 1];
  }

  lemma PickAheadIs(s: Line, p: nat, c: Line, w: nat, n: nat)
    requires LineAt(s, p, c) && |c| == 2 * w && n + 8 <= w && (n == w - 8 || n + 16 <= w)
    ensures PickAhead(s, p + 2 * n, n == w - 8) == Ahead(Evens(c, w))[n..n + 8]
  {
    assert forall i :: 0 <= i < 2 * w ==> c[i] == s[p + i];
    var e := Ahead(Evens(c, w))[n..n + 8];
    forall i | 0 <= i < 8 ensures e[i] == PickAhead(s, p + 2 * n, n == w - 8)[i] {
      assert e[i] == Evens(c, w)[Next(n + i, w)] == c[2 * Next(n + i, w)];
    }
  }

  function PatchFirst(v: Lanes): Lanes { v[0 := v[1]] }

  function PatchLast(v: Lanes): Lanes { v[7 := v[6]] }

  /** The load one value behind, whatever is in memory before the row. */
  function LoadBehind(s: Line, p: nat, first: bool, stray: sint16): Lanes
  {
    var v := LoadU(s, p - 1, stray);
    if first then PatchFirst(v) else v
  }

  function LoadAhead(s: Line, p: nat, last: bool, stray: sint16): Lanes
  {
    var v := LoadU(s, p + 1, stray);
    if last then PatchLast(v) else v
  }

  lemma LoadBehindIs(s: Line, h: nat, r: Line, n: nat, stray: sint16)
    requires n + 8 <= |r| && Part(s, h, r, n + 8)
    ensures LoadBehind(s, h + n, n == 0, stray) == Behind(r)[n..n + 8]
  {
    var q := s[h..h + n + 8];
    assert forall i :: 0 <= i < n + 8 ==> s[h + i] == q[i] == r[i];
    var b, v := Behind(r)[n..n + 8], LoadU(s, h + n - 1, stray);
    forall i | 0 <= i < 8 ensures b[i] == LoadBehind(s, h + n, n == 0, stray)[i] {
      assert b[i] == r[Prev(n + i)] == s[h + Prev(n + i)];
    }
  }

  lemma LoadAheadIs(s: Line, p: nat, r: Line, n: nat, stray: sint16)
    requires n + 8 <= |r| && LineAt(s, p, r)
    ensures LoadAhead(s, p + n, n == |r| - 8, stray) == Ahead(r)[n..n + 8]
  {
    var q := s[p..p + |r|];
    assert forall i :: 0 <= i < |r| ==> s[p + i] == q[i] == r[i];
    var b, v := Ahead(r)[n..n + 8], LoadU(s, p + n + 1, stray);
    forall i | 0 <= i < 8 ensures b[i] == LoadAhead(s, p + n, n == |r| - 8, stray)[i] {
      assert b[i] == r[Next(n + i, |r|)] == s[p + Next(n + i, |r|)];
    }
  }

  // ---- Encoding ----

  /** The sums halved when a row is encoded fit 16 bits. */
  ghost predicate RowFits(c: Line, w: nat)
    requires |c| == 2 * w
  {
    && HighLineFits(Evens(c, w), Odds(c, w), Ahead(Evens(c, w)))
    && LowLineFits(Behind(RowH(c, w)), RowH(c, w))
  }

  method EncodeHorizHigh(src: array<sint16>, s: nat, dst: array<sint16>, h: nat, w: nat, n: nat, ghost c: Line)
    returns (src2n: Lanes, hn: Lanes)
    requires src != dst && LineAt(src[..], s, c) && |c| == 2 * w && n + 8 <= w && (n == w - 8 || n + 16 <= w)
    requires RowFits(c, w) && h + w <= dst.Length
    modifies dst
    ensures src2n == Evens(c, w)[n..n + 8] && hn == RowH(c, w)[n..n + 8]
    ensures Stored(old(dst[..]), dst[..], h + n, hn)
  {
    hide LineAt, Stored, RowH, Evens, Odds, Ahead, HighLine, HighLineFits, LowLineFits, HighLanes, Pick, PickAhead;
    LineFits(src[..], s, c);
    PickIs(src[..], s, c, w, n);
    PickAheadIs(src[..], s, c, w, n);
    RowLines(c, w);
    HighLanesAre(Evens(c, w), Odds(c, w), Ahead(Evens(c, w)), n);
    src2n := Pick(src[..], s + 2 * n);
    hn := HighLanes(src2n, Pick(src[..], s + 2 * n + 1), PickAhead(src[..], s + 2 * n, n == w - 8));
    Store(dst, h + n, hn);
  }

  method EncodeHorizLow(dst: array<sint16>, l: nat, h: nat, w: nat, n: nat, stray: sint16, src2n: Lanes, hn: Lanes,
                        ghost c: Line)
    requires |c| == 2 * w && n + 8 <= w && RowFits(c, w) && l + w <= dst.Length
    requires Part(dst[..], h, RowH(c, w), n + 8) && src2n == Evens(c, w)[n..n + 8] && hn == RowH(c, w)[n..n + 8]
    modifies dst
    ensures Stored(old(dst[..]), dst[..], l + n, RowL(c, w)[n..n + 8])
  {
    hide Part, Stored, RowH, RowL, Evens, Odds, Ahead, Behind, LowLine, HighLineFits, LowLineFits, LowLanes, LoadBehind;
    ghost var hr := RowH(c, w);
    RowLines(c, w);
    LoadBehindIs(dst[..], h, hr, n, stray);
    LowLanesAre(Evens(c, w), Behind(hr), hr, n);
    Store(dst, l + n, LowLanes(src2n, LoadBehind(dst[..], h + n, n == 0, stray), hn));
  }

  method EncodeHorizGroup(src: array<sint16>, s: nat, dst: array<sint16>, l: nat, h: nat, w: nat, n: nat,
                          stray: sint16, ghost c: Line)
    requires src != dst && LineAt(src[..], s, c) && |c| == 2 * w && n + 8 <= w && (n == w - 8 || n + 16 <= w)
    requires RowFits(c, w) && h + w <= dst.Length && l + w <= dst.Length && (h + w <= l || l + w <= h)
    requires Part(dst[..], h, RowH(c, w), n) && Part(dst[..], l, RowL(c, w), n)
    modifies dst
    ensures Part(dst[..], h, RowH(c, w), n + 8) && Part(dst[..], l, RowL(c, w), n + 8)
    ensures KeptOutside(old(dst[..]), dst[..], h, l, w)
  {
    hide LineAt, Part, Stored, RowH, RowL, RowFits, Evens, KeptOutside;
    ghost var s0, hr, lr := dst[..], RowH(c, w), RowL(c, w);
    var src2n, hn := EncodeHorizHigh(src, s, dst, h, w, n, c);
    ghost var s1 := dst[..];
    PartStep(s0, s1, h, hr, n);
    PartKept(s0, s1, l, lr, n, h + n, hn);
    EncodeHorizLow(dst, l, h, w, n, stray, src2n, hn, c);
    ghost var ln := lr[n..n + 8];
    PartStep(s1, dst[..], l, lr, n);
    PartKept(s1, dst[..], h, hr, n + 8, l + n, ln);
    KeptSelf(s0, h, l, w);
    StoredInside(s0, s0, s1, h, l, w, h + n, hn);
    StoredInside(s0, s1, dst[..], h, l, w, l + n, ln);
  }

  lemma LineFits(s: Line, p: nat, r: Line)
    requires LineAt(s, p, r)
    ensures p + |r| <= |s|
  {
  }

  /** One row: high coefficients at h, low ones at l, eight at a time. */
  method EncodeHorizRow(src: array<sint16>, s: nat, dst: array<sint16>, l: nat, h: nat, w: nat, stray: sint16,
                        ghost c: Line)
    requires src != dst && LineAt(src[..], s, c) && |c| == 2 * w && w % 8 == 0 && RowFits(c, w)
    requires h + w <= dst.Length && l + w <= dst.Length && (h + w <= l || l + w <= h)
    modifies dst
    ensures TwoRowsSet(old(dst[..]), dst[..], h, RowH(c, w), l, RowL(c, w), w)
  {
    hide LineAt, Part, RowH, RowL, RowFits, KeptOutside;
    ghost var s0, g := dst[..], 0;
    PartStart(s0, h, RowH(c, w));
    PartStart(s0, l, RowL(c, w));
    KeptSelf(s0, h, l, w);
    var n := 0;
    while n < w
      invariant n == 8 * g && n <= w && LineAt(src[..], s, c)
      invariant Part(dst[..], h, RowH(c, w), n) && Part(dst[..], l, RowL(c, w), n)
      invariant KeptOutside(s0, dst[..], h, l, w)
    {
      ghost var s1 := dst[..];
      assert n == w - 8 || n + 16 <= w;
      EncodeHorizGroup(src, s, dst, l, h, w, n, stray, c);
      KeptTwice(s0, s1, dst[..], h, l, w);
      n := n + 8;
      g := g + 1;
    }
    HorizEnd(s0, dst[..], h, RowH(c, w), l, RowL(c, w), w);
  }

  lemma HorizEnd(s: Line, t: Line, h: nat, hr: Line, l: nat, lr: Line, w: nat)
    requires |hr| == |lr| == w && Part(t, h, hr, w) && Part(t, l, lr, w) && KeptOutside(s, t, h, l, w)
    ensures TwoRowsSet(s, t, h, hr, l, lr, w)
  {
    PartRow(t, h, hr);
    PartRow(t, l, lr);
  }

  ghost predicate RowsFitting(c: Matrix, w: nat)
    requires Shape(c, w, 2 * w)
  {
    forall y :: 0 <= y < w ==> RowFits(c[y], w)
  }

  lemma RowsBandsAt(c: Matrix, w: nat, y: nat)
    requires Shape(c, w, 2 * w) && y < w
    ensures RowsH(c, w)[y] == RowH(c[y], w) && RowsL(c, w)[y] == RowL(c[y], w)
  {
    hide RowH, RowL;
  }

  lemma TwoGrow(s: Line, t: Line, hb: nat, h: Matrix, lb: nat, l: Matrix, w: nat, y: nat)
    requires Shape(l, w, w) && Shape(h, w, w) && y < w && Cell(y, 0, w) + w <= Area(w, w)
    requires hb + Area(w, w) <= lb || lb + Area(w, w) <= hb
    requires hb + Area(w, w) <= |s| && lb + Area(w, w) <= |s|
    requires TwoRowsSet(s, t, hb + Cell(y, 0, w), h[y], lb + Cell(y, 0, w), l[y], w)
    requires Grown(s, hb, w, h, y) && Grown(s, lb, w, l, y)
    ensures Grown(t, hb, w, h, y + 1) && Grown(t, lb, w, l, y + 1)
    ensures KeptOutside(s, t, hb, lb, Area(w, w))
  {
    hide Cell, Area, Grown;
    GrownKept(s, t, hb, w, h, y);
    GrownKept(s, t, lb, w, l, y);
    GrownStep(t, hb, w, h, y);
    GrownStep(t, lb, w, l, y);
  }

  /** The horizontal pass over one half: the rows of c at sb give the bands at hb and lb. */
  method EncodeHoriz(dwt: array<sint16>, sb: nat, buffer: array<sint16>, lb: nat, hb: nat, w: nat, stray: sint16,
                     ghost c: Matrix)
    requires dwt != buffer && Shape(c, w, 2 * w) && Laid(dwt[..], sb, w, 2 * w, c) && w % 8 == 0 && RowsFitting(c, w)
    requires hb + Area(w, w) <= buffer.Length && lb + Area(w, w) <= buffer.Length
    requires hb + Area(w, w) <= lb || lb + Area(w, w) <= hb
    modifies buffer
    ensures Laid(buffer[..], hb, w, w, RowsH(c, w)) && Laid(buffer[..], lb, w, w, RowsL(c, w))
    ensures KeptOutside(old(buffer[..]), buffer[..], hb, lb, Area(w, w))
  {
    hide Cell, Area, Grown, Laid, KeptOutside, RowsH, RowsL, RowFits, TwoRowsSet, RowH, RowL;
    ghost var s, h, l := buffer[..], RowsH(c, w), RowsL(c, w);
    GrownStart(s, hb, w, h);
    GrownStart(s, lb, w, l);
    KeptSelf(s, hb, lb, Area(w, w));
    var y := 0;
    while y < w
      invariant 0 <= y <= w && Laid(dwt[..], sb, w, 2 * w, c)
      invariant Grown(buffer[..], hb, w, h, y) && Grown(buffer[..], lb, w, l, y)
      invariant KeptOutside(s, buffer[..], hb, lb, Area(w, w))
    {
      ghost var s1 := buffer[..];
      MatrixLine(dwt[..], sb, w, 2 * w, c, y);
      CellBound(w, w, y, 0);
      RowsBandsAt(c, w, y);
      EncodeHorizRow(dwt, sb + Cell(y, 0, 2 * w), buffer, lb + Cell(y, 0, w), hb + Cell(y, 0, w), w, stray, c[y]);
      TwoGrow(s1, buffer[..], hb, h, lb, l, w, y);
      KeptTwice(s, s1, buffer[..], hb, lb, Area(w, w));
      y := y + 1;
    }
    GrownLaid(buffer[..], hb, w, w, h);
    GrownLaid(buffer[..], lb, w, w, l);
  }

  // ---- The whole block ----

  /** Every sum halved while the block is encoded fits 16 bits. */
  ghost predicate EncodeFits(m: Matrix, w: nat)
    requires Shape(m, 2 * w, 2 * w)
  {
    VertFits(m, w) && RowsFitting(ColL(m, w), w) && RowsFitting(ColH(m, w), w)
  }

  ghost predicate BlockFits(s: Line, base: nat, w: nat)
    requires base + 4 * Area(w, w) <= |s|
  {
    AreaFour(w);
    EncodeFits(MatrixAt(s, base, 2 * w, 2 * w), w)
  }

  /** The eight-lane encoder leaves the buffer of the scalar one, whatever lies outside the buffer. */
  method EncodeBlockSse2(buffer: array<sint16>, base: nat, dwt: array<sint16>, w: nat, stray: sint16)
    requires buffer != dwt && w % 8 == 0 && base + 4 * Area(w, w) <= buffer.Length && 4 * Area(w, w) <= dwt.Length
    requires BlockFits(buffer[..], base, w)
    modifies buffer, dwt
    ensures buffer[..] == EncodeFlat(old(buffer[..]), base, w)
  {
    hide Area, Laid, ColL, ColH, RowsH, RowsL, MatrixAt, VertFits, RowsFitting, KeptOutside, BandsFlat;
    AreaFour(w);
    ghost var s := buffer[..];
    ghost var m := MatrixAt(s, base, 2 * w, 2 * w);
    LaidShape(s, base, 2 * w, 2 * w, m);
    var a := Area(w, w);
    ghost var lc, hc := ColL(m, w), ColH(m, w);
    EncodeVert(buffer, base, dwt, w, m);
    EncodeHoriz(dwt, 0, buffer, base + 3 * a, base, w, stray, lc);
    ghost var s1 := buffer[..];
    EncodeHoriz(dwt, 2 * a, buffer, base + a, base + 2 * a, w, stray, hc);
    BandsInPlace(s, s1, buffer[..], base, w, Encode2D(m, w));
  }

  lemma BandsInPlace(s: Line, m: Line, t: Line, base: nat, w: nat, b: Bands)
    requires Square(b, w) && base + 4 * Area(w, w) <= |s|
    requires var a := Area(w, w);
             && KeptOutside(s, m, base, base + 3 * a, a) && KeptOutside(m, t, base + 2 * a, base + a, a)
             && Laid(m, base, w, w, b.hl) && Laid(m, base + 3 * a, w, w, b.ll)
             && Laid(t, base + 2 * a, w, w, b.hh) && Laid(t, base + a, w, w, b.lh)
    ensures t == s[..base] + BandsFlat(b) + s[base + 4 * Area(w, w)..]
  {
    hide Area, Laid, Flat, KeptOutside, Agree;
    var a := Area(w, w);
    LaidFlat(m, base, w, w, b.hl);
    LaidFlat(m, base + 3 * a, w, w, b.ll);
    LaidFlat(t, base + 2 * a, w, w, b.hh);
    LaidFlat(t, base + a, w, w, b.lh);
    BandsApart(s, m, t, base, a);
    InQuarters(t, base, a);
    Assembled(s, t, base, base + 4 * a);
  }

  lemma BandsApart(s: Line, m: Line, t: Line, base: nat, a: nat)
    requires base + 4 * a <= |s| && KeptOutside(s, m, base, base + 3 * a, a)
        && KeptOutside(m, t, base + 2 * a, base + a, a)
    ensures |t| == |s| && t[base..base + a] == m[base..base + a]
        && t[base + 3 * a..base + 4 * a] == m[base + 3 * a..base + 4 * a]
    ensures Agree(t, s, 0, base) && Agree(t, s, base + 4 * a, |s|)
  {
  }

  lemma InQuarters(t: Line, base: nat, a: nat)
    requires base + 4 * a <= |t|
    ensures t[base..base + 4 * a] == t[base..base + a] + t[base + a..base + 2 * a]
                                     + t[base + 2 * a..base + 3 * a] + t[base + 3 * a..base + 4 * a]
  {
  }

  // ---- Blocks of 14-bit samples fit ----

  lemma RowWithin(c: Line, w: nat, b: int)
    requires |c| == 2 * w && Within(c, b) && 0 <= b
    ensures Within(RowH(c, w), b)
  {
    hide High;
    var h := RowH(c, w);
    forall n | 0 <= n < w ensures -b <= h[n] as int <= b {
      HighWithin(c[2 * n], c[2 * n + 1], c[2 * Next(n, w)], b);
    }
  }

  lemma RowFitsSmall(c: Line, w: nat)
    requires |c| == 2 * w && Within(c, 16382)
    ensures RowFits(c, w)
  {
    hide RowH;
    RowWithin(c, w, 16382);
    var e, o, h := Evens(c, w), Odds(c, w), RowH(c, w);
    forall n | 0 <= n < w ensures HighFits(e[n], o[n], Ahead(e)[n]) && LowFits(Behind(h)[n], h[n]) {
      assert Ahead(e)[n] == e[Next(n, w)] == c[2 * Next(n, w)] && Behind(h)[n] == h[Prev(n)];
      assert e[n] == c[2 * n] && o[n] == c[2 * n + 1];
    }
  }
}
