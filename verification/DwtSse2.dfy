/** The eight-lane wavelet kernels (libfreerdp-codec/rfx_sse2.c) leave the buffer of the scalar loops. */
module DwtSse2 {
  import opened Words
  import opened Grid
  import opened Dwt
  import opened DwtBlock
  import opened DwtInverse
  import opened Sse2

  // ---- Stores and rows filled from the left ----

  /** t is s with the eight lanes v at p. */
  ghost predicate Stored(s: Line, t: Line, p: nat, v: Lanes)
  {
    && |t| == |s| && p + 8 <= |s| && t[p..p + 8] == v
    && forall i :: 0 <= i < |s| && !(p <= i < p + 8) ==> t[i] == s[i]
  }

  method Store(a: array<sint16>, p: nat, v: Lanes)
    requires p + 8 <= a.Length
    modifies a
    ensures Stored(old(a[..]), a[..], p, v)
  {
    forall i | 0 <= i < 8 {
      a[p + i] := v[i];
    }
  }

  /** The first x values of row r stand at p. */
  ghost predicate Part(s: Line, p: nat, r: Line, x: nat)
  {
    x <= |r| && p + |r| <= |s| && s[p..p + x] == r[..x]
  }

  lemma PartStart(s: Line, p: nat, r: Line)
    requires p + |r| <= |s|
    ensures Part(s, p, r, 0)
  {
  }

  lemma PartStep(s: Line, t: Line, p: nat, r: Line, x: nat)
    requires Part(s, p, r, x) && x + 8 <= |r| && Stored(s, t, p + x, r[x..x + 8])
    ensures Part(t, p, r, x + 8)
  {
    assert t[p..p + x] == s[p..p + x];
    assert t[p..p + x + 8] == t[p..p + x] + t[p + x..p + x + 8];
    assert r[..x + 8] == r[..x] + r[x..x + 8];
  }

  lemma PartKept(s: Line, t: Line, p: nat, r: Line, x: nat, q: nat, v: Lanes)
    requires Part(s, p, r, x) && Stored(s, t, q, v) && (q + 8 <= p || p + x <= q)
    ensures Part(t, p, r, x)
  {
    assert t[p..p + x] == s[p..p + x];
  }

  lemma PartLoad(s: Line, p: nat, r: Line, x: nat)
    requires Part(s, p, r, |r|) && x + 8 <= |r|
    ensures p + x + 8 <= |s| && Load(s, p + x) == r[x..x + 8]
  {
    assert r[..|r|] == r;
    assert forall i :: 0 <= i < |r| ==> s[p + i] == s[p..p + |r|][i] == r[i];
  }

  lemma PartRow(s: Line, p: nat, r: Line)
    ensures Part(s, p, r, |r|) <==> LineAt(s, p, r)
  {
    assert r[..|r|] == r;
  }

  /** Only the len values at a and at b differ. */
  lemma StoredInside(s: Line, m: Line, t: Line, a: nat, b: nat, len: nat, q: nat, v: Lanes)
    requires KeptOutside(s, m, a, b, len) && Stored(m, t, q, v)
    requires (a <= q && q + 8 <= a + len) || (b <= q && q + 8 <= b + len)
    ensures KeptOutside(s, t, a, b, len)
  {
  }

  lemma KeptSelf(s: Line, a: nat, b: nat, len: nat)
    ensures KeptOutside(s, s, a, b, len)
  {
  }

  // ---- Vertical encoding ----

  /** The high coefficients of eight columns. */
  method EncodeVertHigh(buffer: array<sint16>, src: nat, dwt: array<sint16>, h: nat, w: nat, n: nat, x: nat,
                        ghost e: Line, ghost o: Line, ghost e2: Line)
    returns (src2n: Lanes, hn: Lanes)
    requires buffer != dwt && n < w && x + 8 <= 2 * w && |e| == |o| == |e2| == 2 * w
    requires Part(buffer[..], src, e, 2 * w) && Part(buffer[..], src + 2 * w, o, 2 * w)
    requires if n < w - 1 then Part(buffer[..], src + 4 * w, e2, 2 * w) else e2 == e
    requires h + 2 * w <= dwt.Length && HighLineFits(e, o, e2)
    modifies dwt
    ensures src2n == e[x..x + 8] && hn == HighLine(e, o, e2)[x..x + 8]
    ensures Stored(old(dwt[..]), dwt[..], h + x, hn)
  {
    hide Part, Stored, HighLine, HighLanes, HighLineFits, Load;
    var tw := 2 * w;
    PartLoad(buffer[..], src, e, x);
    PartLoad(buffer[..], src + tw, o, x);
    if n < w - 1 { PartLoad(buffer[..], src + 2 * tw, e2, x); }
    src2n := Load(buffer[..], src + x);
    var src2n1 := Load(buffer[..], src + tw + x);
    var src2n2 := if n < w - 1 then Load(buffer[..], src + 2 * tw + x) else src2n;
    HighLanesAre(e, o, e2, x);
    hn := HighLanes(src2n, src2n1, src2n2);
    Store(dwt, h + x, hn);
  }

  /** The low coefficients of eight columns. */
  method EncodeVertLow(dwt: array<sint16>, l: nat, h: nat, w: nat, n: nat, x: nat, src2n: Lanes, hn: Lanes,
                       ghost e: Line, ghost hm: Line, ghost hr: Line)
    requires x + 8 <= 2 * w && |e| == |hm| == |hr| == 2 * w && src2n == e[x..x + 8] && hn == hr[x..x + 8]
    requires l + 2 * w <= h && h + 2 * w <= dwt.Length && LowLineFits(hm, hr)
    requires if n == 0 then hm == hr else h >= 2 * w && Part(dwt[..], h - 2 * w, hm, 2 * w)
    modifies dwt
    ensures Stored(old(dwt[..]), dwt[..], l + x, LowLine(e, hm, hr)[x..x + 8])
  {
    hide Part, Stored, LowLine, LowLanes, LowLineFits, Load;
    if n > 0 { PartLoad(dwt[..], h - 2 * w, hm, x); }
    var hnm := if n == 0 then hn else Load(dwt[..], h - 2 * w + x);
    LowLanesAre(e, hm, hr, x);
    Store(dwt, l + x, LowLanes(src2n, hnm, hn));
  }

  /** What is in place while row n of the L half and of the H half fill up. */
  ghost predicate VertState(s: Line, l: nat, h: nat, w: nat, n: nat, x: nat, hm: Line, hr: Line, lr: Line)
  {
    && |hm| == |hr| == |lr| == 2 * w && l + 2 * w <= h && h + 2 * w <= |s|
    && Part(s, h, hr, x) && Part(s, l, lr, x)
    && (if n == 0 then hm == hr else l + 4 * w <= h && Part(s, h - 2 * w, hm, 2 * w))
  }

  lemma VertHighStored(s: Line, t: Line, l: nat, h: nat, w: nat, n: nat, x: nat, hm: Line, hr: Line, lr: Line)
    requires VertState(s, l, h, w, n, x, hm, hr, lr) && x + 8 <= 2 * w && Stored(s, t, h + x, hr[x..x + 8])
    ensures Part(t, h, hr, x + 8) && Part(t, l, lr, x)
    ensures n > 0 ==> Part(t, h - 2 * w, hm, 2 * w)
    ensures KeptOutside(s, t, l, h, 2 * w)
  {
    hide Part;
    PartStep(s, t, h, hr, x);
    PartKept(s, t, l, lr, x, h + x, hr[x..x + 8]);
    if n > 0 { PartKept(s, t, h - 2 * w, hm, 2 * w, h + x, hr[x..x + 8]); }
  }

  lemma VertLowStored(s: Line, t: Line, l: nat, h: nat, w: nat, n: nat, x: nat, hm: Line, hr: Line, lr: Line)
    requires |hm| == |hr| == |lr| == 2 * w && x + 8 <= 2 * w && l + 2 * w <= h && h + 2 * w <= |s|
    requires Part(s, h, hr, x + 8) && Part(s, l, lr, x) && Stored(s, t, l + x, lr[x..x + 8])
    requires if n == 0 then hm == hr else l + 4 * w <= h && Part(s, h - 2 * w, hm, 2 * w)
    ensures VertState(t, l, h, w, n, x + 8, hm, hr, lr)
    ensures KeptOutside(s, t, l, h, 2 * w)
  {
    hide Part;
    PartStep(s, t, l, lr, x);
    PartKept(s, t, h, hr, x + 8, l + x, lr[x..x + 8]);
    if n > 0 { PartKept(s, t, h - 2 * w, hm, 2 * w, l + x, lr[x..x + 8]); }
  }

  /** One row pair: eight columns at a time. */
  method EncodeVertRow(buffer: array<sint16>, src: nat, dwt: array<sint16>, l: nat, h: nat, w: nat, n: nat,
                       ghost e: Line, ghost o: Line, ghost e2: Line, ghost hm: Line)
    requires buffer != dwt && n < w && w % 8 == 0 && |e| == |o| == |e2| == |hm| == 2 * w
    requires LineAt(buffer[..], src, e) && LineAt(buffer[..], src + 2 * w, o)
    requires if n < w - 1 then LineAt(buffer[..], src + 4 * w, e2) else e2 == e
    requires l + 2 * w <= h && h + 2 * w <= dwt.Length
    requires if n == 0 then hm == HighLine(e, o, e2) else l + 4 * w <= h && LineAt(dwt[..], h - 2 * w, hm)
    requires HighLineFits(e, o, e2) && LowLineFits(hm, HighLine(e, o, e2))
    modifies dwt
    ensures TwoRowsSet(old(dwt[..]), dwt[..], h, HighLine(e, o, e2), l, LowLine(e, hm, HighLine(e, o, e2)), 2 * w)
  {
    hide Part, Stored, HighLine, LowLine, HighLineFits, LowLineFits, VertState, KeptOutside, LineAt, TwoRowsSet;
    ghost var hr := HighLine(e, o, e2);
    ghost var lr := LowLine(e, hm, hr);
    PartRow(buffer[..], src, e);
    PartRow(buffer[..], src + 2 * w, o);
    PartRow(buffer[..], src + 4 * w, e2);
    VertStart(dwt[..], l, h, w, n, hm, hr, lr);
    ghost var s := dwt[..];
    KeptSelf(s, l, h, 2 * w);
    ghost var g := 0;
    var x := 0;
    while x < 2 * w
      invariant x == 8 * g && x <= 2 * w && VertState(dwt[..], l, h, w, n, x, hm, hr, lr)
      invariant Part(buffer[..], src, e, 2 * w) && Part(buffer[..], src + 2 * w, o, 2 * w)
      invariant if n < w - 1 then Part(buffer[..], src + 4 * w, e2, 2 * w) else e2 == e
      invariant KeptOutside(s, dwt[..], l, h, 2 * w)
    {
      EncodeVertGroup(buffer, src, dwt, l, h, w, n, x, e, o, e2, hm, hr, lr, s);
      x := x + 8;
      g := g + 1;
    }
    VertEnd(s, dwt[..], l, h, w, n, hm, hr, lr);
  }

  method EncodeVertGroup(buffer: array<sint16>, src: nat, dwt: array<sint16>, l: nat, h: nat, w: nat, n: nat, x: nat,
                         ghost e: Line, ghost o: Line, ghost e2: Line, ghost hm: Line, ghost hr: Line, ghost lr: Line,
                         ghost s: Line)
    requires buffer != dwt && n < w && x + 8 <= 2 * w && |e| == |o| == |e2| == |hm| == 2 * w
    requires Part(buffer[..], src, e, 2 * w) && Part(buffer[..], src + 2 * w, o, 2 * w)
    requires if n < w - 1 then Part(buffer[..], src + 4 * w, e2, 2 * w) else e2 == e
    requires hr == HighLine(e, o, e2) && lr == LowLine(e, hm, hr) && HighLineFits(e, o, e2) && LowLineFits(hm, hr)
    requires VertState(dwt[..], l, h, w, n, x, hm, hr, lr) && KeptOutside(s, dwt[..], l, h, 2 * w)
    modifies dwt
    ensures VertState(dwt[..], l, h, w, n, x + 8, hm, hr, lr) && KeptOutside(s, dwt[..], l, h, 2 * w)
  {
    hide Part, Stored, HighLine, LowLine, HighLineFits, LowLineFits, KeptOutside;
    ghost var s0 := dwt[..];
    var src2n, hn := EncodeVertHigh(buffer, src, dwt, h, w, n, x, e, o, e2);
    ghost var s1 := dwt[..];
    VertHighStored(s0, s1, l, h, w, n, x, hm, hr, lr);
    EncodeVertLow(dwt, l, h, w, n, x, src2n, hn, e, hm, hr);
    VertLowStored(s1, dwt[..], l, h, w, n, x, hm, hr, lr);
    KeptTwice(s, s0, s1, l, h, 2 * w);
    KeptTwice(s, s1, dwt[..], l, h, 2 * w);
  }

  lemma VertStart(s: Line, l: nat, h: nat, w: nat, n: nat, hm: Line, hr: Line, lr: Line)
    requires |hm| == |hr| == |lr| == 2 * w && l + 2 * w <= h && h + 2 * w <= |s|
    requires if n == 0 then hm == hr else l + 4 * w <= h && LineAt(s, h - 2 * w, hm)
    ensures VertState(s, l, h, w, n, 0, hm, hr, lr)
  {
    if n > 0 { PartRow(s, h - 2 * w, hm); }
  }

  lemma VertEnd(s: Line, t: Line, l: nat, h: nat, w: nat, n: nat, hm: Line, hr: Line, lr: Line)
    requires VertState(t, l, h, w, n, 2 * w, hm, hr, lr) && KeptOutside(s, t, l, h, 2 * w)
    ensures TwoRowsSet(s, t, h, hr, l, lr, 2 * w)
  {
    PartRow(t, h, hr);
    PartRow(t, l, lr);
  }

  /** The sums halved by the vertical encoding pass fit 16 bits. */
  ghost predicate VertFits(m: Matrix, w: nat)
    requires Shape(m, 2 * w, 2 * w)
  {
    forall n :: 0 <= n < w ==> VertRowFits(m, w, n)
  }

  ghost predicate VertRowFits(m: Matrix, w: nat, n: nat)
    requires Shape(m, 2 * w, 2 * w) && n < w
  {
    && HighLineFits(m[2 * n], m[2 * n + 1], m[2 * Next(n, w)])
    && LowLineFits(ColH(m, w)[Prev(n)], ColH(m, w)[n])
  }

  lemma GrownLast(s: Line, base: nat, w: nat, rows: nat, m: Matrix, y: nat)
    requires Grown(s, base, w, m, y) && Shape(m, rows, w) && 0 < y <= rows
    ensures LineAt(s, base + Cell(y - 1, 0, w), m[y - 1]) && Cell(y, 0, w) == Cell(y - 1, 0, w) + w
  {
    hide Cell, Area, Flat;
    var a := m[..y];
    FlatLast(a);
    assert a[..y - 1] == m[..y - 1];
    CellNextRow(y - 1, 0, w);
    FlatAt(m[..y - 1], y - 1, w);
    AreaNext(y - 1, w);
    LastPart(s, base, Flat(m[..y - 1]), m[y - 1]);
  }

  lemma LastPart(s: Line, p: nat, a: Line, r: Line)
    requires p + |a| + |r| <= |s| && s[p..p + |a| + |r|] == a + r
    ensures LineAt(s, p + |a|, r)
  {
    var q := s[p..p + |a| + |r|];
    assert q[|a|..] == s[p + |a|..p + |a| + |r|];
    assert (a + r)[|a|..] == r;
  }

  lemma FlatLast(m: Matrix)
    requires |m| > 0
    ensures Flat(m) == Flat(m[..|m| - 1]) + m[|m| - 1]
  {
  }

  lemma MatrixLine(s: Line, base: nat, rows: nat, cols: nat, m: Matrix, y: nat)
    requires Laid(s, base, rows, cols, m) && y < rows
    ensures Shape(m, rows, cols) && LineAt(s, base + Cell(y, 0, cols), m[y])
  {
    hide Cell, Area, Laid;
    LaidShape(s, base, rows, cols, m);
    RowSlice(s, base, rows, cols, m, y);
    LaidFits(s, base, rows, cols, m);
  }

  lemma SourceRows(s: Line, base: nat, w: nat, m: Matrix, n: nat)
    requires Laid(s, base, 2 * w, 2 * w, m) && n < w
    ensures Shape(m, 2 * w, 2 * w)
    ensures var src := base + Cell(2 * n, 0, 2 * w);
            && LineAt(s, src, m[2 * n]) && LineAt(s, src + 2 * w, m[2 * n + 1])
            && (n < w - 1 ==> LineAt(s, src + 4 * w, m[2 * n + 2]))
  {
    hide Cell, Area, Laid, LineAt;
    MatrixLine(s, base, 2 * w, 2 * w, m, 2 * n);
    MatrixLine(s, base, 2 * w, 2 * w, m, 2 * n + 1);
    if n < w - 1 { MatrixLine(s, base, 2 * w, 2 * w, m, 2 * n + 2); }
    CellNextRow(2 * n, 0, 2 * w);
    CellNextRow(2 * n + 1, 0, 2 * w);
  }

  method EncodeVertStep(buffer: array<sint16>, base: nat, dwt: array<sint16>, w: nat, n: nat, ghost m: Matrix)
    requires buffer != dwt && Laid(buffer[..], base, 2 * w, 2 * w, m) && 2 * Area(w, 2 * w) <= dwt.Length
    requires Shape(m, 2 * w, 2 * w) && n < w && w % 8 == 0 && VertRowFits(m, w, n)
    requires Grown(dwt[..], 0, 2 * w, ColL(m, w), n) && Grown(dwt[..], Area(w, 2 * w), 2 * w, ColH(m, w), n)
    modifies dwt
    ensures Grown(dwt[..], 0, 2 * w, ColL(m, w), n + 1) && Grown(dwt[..], Area(w, 2 * w), 2 * w, ColH(m, w), n + 1)
  {
    hide Cell, Area, Laid, LineAt, Grown, ColL, ColH, HighLine, LowLine, TwoRowsSet, HighLineFits, LowLineFits;
    var tw := 2 * w;
    var src, l := base + Cell(2 * n, 0, tw), Cell(n, 0, tw);
    var h := l + Area(w, tw);
    ghost var s, hc := dwt[..], ColH(m, w);
    SourceRows(buffer[..], base, w, m, n);
    CellBound(w, tw, n, 0);
    ColLines(m, w, n);
    if n > 0 { GrownLast(s, Area(w, tw), tw, w, hc, n); }
    EncodeVertRow(buffer, src, dwt, l, h, w, n, m[2 * n], m[2 * n + 1], m[2 * Next(n, w)], hc[Prev(n)]);
    VertGrow(s, dwt[..], w, n, ColL(m, w), hc);
  }

  lemma VertGrow(s: Line, t: Line, w: nat, n: nat, l: Matrix, h: Matrix)
    requires Shape(l, w, 2 * w) && Shape(h, w, 2 * w) && n < w && Cell(n, 0, 2 * w) + 2 * w <= Area(w, 2 * w)
    requires TwoRowsSet(s, t, Cell(n, 0, 2 * w) + Area(w, 2 * w), h[n], Cell(n, 0, 2 * w), l[n], 2 * w)
    requires Grown(s, 0, 2 * w, l, n) && Grown(s, Area(w, 2 * w), 2 * w, h, n)
    ensures Grown(t, 0, 2 * w, l, n + 1) && Grown(t, Area(w, 2 * w), 2 * w, h, n + 1)
  {
    hide Cell, Area, Grown;
    RowsGrow(s, t, w, n, l, h);
  }

  /** The vertical pass, row by row. */
  method EncodeVert(buffer: array<sint16>, base: nat, dwt: array<sint16>, w: nat, ghost m: Matrix)
    requires buffer != dwt && Laid(buffer[..], base, 2 * w, 2 * w, m) && 2 * Area(w, 2 * w) <= dwt.Length
    requires Shape(m, 2 * w, 2 * w) && w % 8 == 0 && VertFits(m, w)
    modifies dwt
    ensures Laid(dwt[..], 0, w, 2 * w, ColL(m, w)) && Laid(dwt[..], Area(w, 2 * w), w, 2 * w, ColH(m, w))
  {
    hide Cell, Area, Laid, Grown, ColL, ColH, VertRowFits, Flat;
    ghost var lc, hc := ColL(m, w), ColH(m, w);
    GrownStart(dwt[..], 0, 2 * w, lc);
    GrownStart(dwt[..], Area(w, 2 * w), 2 * w, hc);
    var n := 0;
    while n < w
      invariant 0 <= n <= w && Laid(buffer[..], base, 2 * w, 2 * w, m)
      invariant Grown(dwt[..], 0, 2 * w, lc, n) && Grown(dwt[..], Area(w, 2 * w), 2 * w, hc, n)
    {
      EncodeVertStep(buffer, base, dwt, w, n, m);
      n := n + 1;
    }
    GrownLaid(dwt[..], 0, w, 2 * w, lc);
    GrownLaid(dwt[..], Area(w, 2 * w), w, 2 * w, hc);
  }
}
