/** The scalar wavelet loops over flat buffers (libfreerdp-codec/rfx_dwt.c). */
module DwtBlock {
  import opened Words
  import opened Grid
  import opened Dwt

  // ---- Matrices in flat buffers ----

  ghost predicate Laid(s: seq<sint16>, base: nat, rows: nat, cols: nat, m: Matrix)
  {
    && Shape(m, rows, cols)
    && base + Area(rows, cols) <= |s|
    && forall y, x :: 0 <= y < rows && 0 <= x < cols ==>
         Cell(y, x, cols) < Area(rows, cols) && s[base + Cell(y, x, cols)] == m[y][x]
  }

  /** A row of a laid-out matrix is a slice of the buffer. */
  lemma RowSlice(s: seq<sint16>, base: nat, rows: nat, cols: nat, m: Matrix, y: nat)
    requires Laid(s, base, rows, cols, m) && y < rows
    ensures Cell(y, 0, cols) + cols <= Area(rows, cols)
    ensures s[base + Cell(y, 0, cols)..base + Cell(y, 0, cols) + cols] == m[y]
  {
    hide Cell, Area;
    RowsFit(rows, cols);
    var r := base + Cell(y, 0, cols);
    forall x | 0 <= x < cols ensures s[r..r + cols][x] == m[y][x] {
      CellInRow(y, x, cols);
      assert m[y][x] == s[base + Cell(y, x, cols)];
    }
  }

  lemma LaidShape(s: seq<sint16>, base: nat, rows: nat, cols: nat, m: Matrix)
    requires Laid(s, base, rows, cols, m)
    ensures Shape(m, rows, cols)
  {
  }

  /** The rows one after the other. */
  function Flat(m: Matrix): Line { if |m| == 0 then [] else Flat(m[..|m| - 1]) + m[|m| - 1] }

  lemma {:induction false} FlatAt(m: Matrix, rows: nat, cols: nat)
    requires Shape(m, rows, cols)
    ensures |Flat(m)| == Area(rows, cols)
    ensures forall y: nat, x: nat :: y < rows && x < cols ==>
              Cell(y, x, cols) < Area(rows, cols) && Flat(m)[Cell(y, x, cols)] == m[y][x]
  {
    hide Cell, Area;
    if rows > 0 {
      var a := m[..rows - 1];
      FlatAt(a, rows - 1, cols);
      AreaNext(rows - 1, cols);
      CellBounds(rows, cols);
      forall y: nat, x: nat | y < rows && x < cols ensures Flat(m)[Cell(y, x, cols)] == m[y][x] {
        CellInRow(y, x, cols);
        if y < rows - 1 {
          assert Flat(a)[Cell(y, x, cols)] == a[y][x];
        }
      }
    } else {
      AreaZero(cols);
    }
  }

  /** All rows but the last. */
  lemma LaidPrefix(s: seq<sint16>, base: nat, rows: nat, cols: nat, m: Matrix)
    requires Laid(s, base, rows, cols, m) && rows > 0
    ensures Laid(s, base, rows - 1, cols, m[..rows - 1])
  {
    hide Cell, Area;
    var a := m[..rows - 1];
    AreaNext(rows - 1, cols);
    CellBounds(rows - 1, cols);
    assert forall y, x :: 0 <= y < rows - 1 && 0 <= x < cols ==> a[y][x] == s[base + Cell(y, x, cols)];
  }

  /** A laid-out matrix is its rows one after the other. */
  lemma {:induction false} LaidFlat(s: seq<sint16>, base: nat, rows: nat, cols: nat, m: Matrix)
    requires Laid(s, base, rows, cols, m)
    ensures base + Area(rows, cols) <= |s| && s[base..base + Area(rows, cols)] == Flat(m)
  {
    hide Cell, Area, Laid;
    LaidShape(s, base, rows, cols, m);
    LaidFits(s, base, rows, cols, m);
    if rows > 0 {
      LaidPrefix(s, base, rows, cols, m);
      LaidFlat(s, base, rows - 1, cols, m[..rows - 1]);
      AreaNext(rows - 1, cols);
      RowSlice(s, base, rows, cols, m, rows - 1);
      var t := base + Area(rows - 1, cols);
      assert s[base..t + cols] == s[base..t] + s[t..t + cols];
    } else {
      AreaZero(cols);
    }
  }

  lemma LaidOfFlat(s: seq<sint16>, base: nat, rows: nat, cols: nat, m: Matrix)
    requires Shape(m, rows, cols) && base + Area(rows, cols) <= |s| && s[base..base + Area(rows, cols)] == Flat(m)
    ensures Laid(s, base, rows, cols, m)
  {
    hide Cell, Area, Flat;
    FlatAt(m, rows, cols);
    var t := s[base..base + Area(rows, cols)];
    forall y, x | 0 <= y < rows && 0 <= x < cols
      ensures Cell(y, x, cols) < Area(rows, cols) && s[base + Cell(y, x, cols)] == m[y][x]
    {
      assert t[Cell(y, x, cols)] == Flat(m)[Cell(y, x, cols)];
    }
  }

  /** The first y rows of m stand at base. */
  ghost predicate Grown(s: seq<sint16>, base: nat, w: nat, m: Matrix, y: nat)
  {
    && y <= |m| && base + Cell(y, 0, w) <= |s|
    && s[base..base + Cell(y, 0, w)] == Flat(m[..y])
  }

  lemma GrownStart(s: seq<sint16>, base: nat, w: nat, m: Matrix)
    requires base <= |s|
    ensures Grown(s, base, w, m, 0)
  {
    AreaZero(w);
  }

  ghost predicate Agree(s: seq<sint16>, t: seq<sint16>, lo: nat, hi: nat)
  {
    lo <= hi <= |s| && hi <= |t| && forall i :: lo <= i < hi ==> s[i] == t[i]
  }

  lemma GrownKept(s: seq<sint16>, t: seq<sint16>, base: nat, w: nat, m: Matrix, y: nat)
    requires Grown(s, base, w, m, y) && Agree(s, t, base, base + Cell(y, 0, w))
    ensures Grown(t, base, w, m, y)
  {
    hide Flat, Cell;
    assert s[base..base + Cell(y, 0, w)] == t[base..base + Cell(y, 0, w)];
  }

  lemma GrownStep(s: seq<sint16>, base: nat, w: nat, m: Matrix, y: nat)
    requires Grown(s, base, w, m, y) && y < |m| && base + Cell(y, 0, w) + w <= |s|
    requires s[base + Cell(y, 0, w)..base + Cell(y, 0, w) + w] == m[y]
    ensures Grown(s, base, w, m, y + 1)
  {
    hide Cell;
    CellNextRow(y, 0, w);
    var a := base + Cell(y, 0, w);
    assert m[..y + 1][..y] == m[..y];
    assert s[base..a + w] == s[base..a] + s[a..a + w];
  }

  lemma GrownEnd(s: seq<sint16>, base: nat, w: nat, rows: nat, m: Matrix)
    requires Grown(s, base, w, m, rows) && Shape(m, rows, w)
    ensures base + Area(rows, w) <= |s| && s[base..base + Area(rows, w)] == Flat(m)
  {
    hide Flat;
    assert m[..rows] == m;
  }

  lemma GrownLaid(s: Line, base: nat, rows: nat, cols: nat, m: Matrix)
    requires Grown(s, base, cols, m, rows) && Shape(m, rows, cols)
    ensures Laid(s, base, rows, cols, m)
  {
    hide Cell, Area, Grown, Flat, Laid;
    GrownEnd(s, base, cols, rows, m);
    LaidOfFlat(s, base, rows, cols, m);
  }

  // ---- Encoding ----

  /** One step of the vertical pass. */
  method EncodeCell(buffer: array<sint16>, base: nat, dwt: array<sint16>, w: nat, n: nat, x: nat, ghost m: Matrix)
    requires buffer != dwt && n < w && x < 2 * w
    requires Laid(buffer[..], base, 2 * w, 2 * w, m) && 2 * Area(w, 2 * w) <= dwt.Length
    requires Cell(n, x, 2 * w) < Area(w, 2 * w)
    requires HighAbove(dwt[..], w, m, n, x)
    modifies dwt
    ensures dwt[..] == old(dwt[..])[Area(w, 2 * w) + Cell(n, x, 2 * w) := ColH(m, w)[n][x]]
                                   [Cell(n, x, 2 * w) := ColL(m, w)[n][x]]
  {
    hide Cell, Area, Laid, RowH, RowL, High, LowC;
    var tw := 2 * w;
    var l := Cell(n, x, tw);
    var h := l + Area(w, tw);
    var src := base + Cell(2 * n, x, tw);
    ghost var s := buffer[..];
    LaidShape(s, base, tw, tw, m);
    SourceCells(s, base, w, m, n, x);
    ghost var c := Col(m, x, tw, tw);
    var hn := High(buffer[src], buffer[src + tw], buffer[src + (if n < w - 1 then 2 * tw else 0)]);
    dwt[h] := hn;
    HighAt(c, w, n);
    if n > 0 { CellNextRow(n - 1, x, tw); }
    var ln := LowC(buffer[src], if n == 0 then dwt[h] else dwt[h - tw], dwt[h]);
    dwt[l] := ln;
    LowAt(c, w, n);
  }

  lemma HighAt(c: Line, w: nat, n: nat)
    requires |c| == 2 * w && n < w
    ensures RowH(c, w)[n] == High(c[2 * n], c[2 * n + 1], c[if n < w - 1 then 2 * n + 2 else 2 * n])
  {
    hide High;
  }

  lemma LowAt(c: Line, w: nat, n: nat)
    requires |c| == 2 * w && n < w
    ensures RowL(c, w)[n] == LowC(c[2 * n], if n == 0 then RowH(c, w)[n] else RowH(c, w)[n - 1], RowH(c, w)[n])
  {
    hide LowC, RowH;
  }

  /** The high coefficient above (n, x) is in place. */
  ghost predicate HighAbove(s: seq<sint16>, w: nat, m: Matrix, n: nat, x: nat)
    requires Shape(m, 2 * w, 2 * w) && x < 2 * w && n <= w
  {
    n > 0 ==>
      var i := Area(w, 2 * w) + Cell(n - 1, x, 2 * w);
      i < |s| && s[i] == ColH(m, w)[n - 1][x]
  }

  lemma SourceCells(s: seq<sint16>, base: nat, w: nat, m: Matrix, n: nat, x: nat)
    requires Laid(s, base, 2 * w, 2 * w, m) && n < w && x < 2 * w
    ensures var src, c := base + Cell(2 * n, x, 2 * w), Col(m, x, 2 * w, 2 * w);
            && src + 2 * w < |s| && s[src] == c[2 * n] && s[src + 2 * w] == c[2 * n + 1]
            && (n < w - 1 ==> src + 4 * w < |s| && s[src + 4 * w] == c[2 * n + 2])
  {
    hide Cell, Area;
    CellNextRow(2 * n, x, 2 * w);
    CellNextRow(2 * n + 1, x, 2 * w);
    assert m[2 * n][x] == s[base + Cell(2 * n, x, 2 * w)];
    assert m[2 * n + 1][x] == s[base + Cell(2 * n + 1, x, 2 * w)];
    assert n < w - 1 ==> m[2 * n + 2][x] == s[base + Cell(2 * n + 2, x, 2 * w)];
  }

  /** The cells of the columns before x, and the first n of column x. */
  ghost predicate Before(y: nat, c: nat, n: nat, x: nat) { c < x || (c == x && y < n) }

  ghost predicate ColsDone(s: seq<sint16>, w: nat, m: Matrix, n: nat, x: nat)
    requires Shape(m, 2 * w, 2 * w)
  {
    && 2 * (Area(w, 2 * w)) <= |s|
    && forall y: nat, c: nat :: y < w && c < 2 * w && Before(y, c, n, x) ==>
         && Cell(y, c, 2 * w) < Area(w, 2 * w)
         && s[Cell(y, c, 2 * w)] == ColL(m, w)[y][c]
         && s[Area(w, 2 * w) + Cell(y, c, 2 * w)] == ColH(m, w)[y][c]
  }

  lemma ColsStep(s: seq<sint16>, w: nat, m: Matrix, n: nat, x: nat)
    requires Shape(m, 2 * w, 2 * w) && n < w && x < 2 * w && ColsDone(s, w, m, n, x)
    ensures Cell(n, x, 2 * w) < Area(w, 2 * w)
    ensures ColsDone(s[Area(w, 2 * w) + Cell(n, x, 2 * w) := ColH(m, w)[n][x]]
                      [Cell(n, x, 2 * w) := ColL(m, w)[n][x]], w, m, n + 1, x)
  {
    hide ColL, ColH, Cell, Area;
    CellBounds(w, 2 * w);
    OtherCells(2 * w, n, x);
    var q := Area(w, 2 * w);
    var s' := s[q + Cell(n, x, 2 * w) := ColH(m, w)[n][x]][Cell(n, x, 2 * w) := ColL(m, w)[n][x]];
    forall y: nat, c: nat | y < w && c < 2 * w && Before(y, c, n + 1, x)
      ensures Cell(y, c, 2 * w) < q && s'[Cell(y, c, 2 * w)] == ColL(m, w)[y][c]
           && s'[q + Cell(y, c, 2 * w)] == ColH(m, w)[y][c]
    {
      assert (y == n && c == x) || Before(y, c, n, x);
    }
  }

  /** The vertical pass: column by column, into the L half and the H half of dwt. */
  method EncodeCols(buffer: array<sint16>, base: nat, dwt: array<sint16>, w: nat, ghost m: Matrix)
    requires buffer != dwt && Laid(buffer[..], base, 2 * w, 2 * w, m) && 2 * (Area(w, 2 * w)) <= dwt.Length
    modifies dwt
    ensures Laid(dwt[..], 0, w, 2 * w, ColL(m, w)) && Laid(dwt[..], Area(w, 2 * w), w, 2 * w, ColH(m, w))
    ensures dwt[2 * (Area(w, 2 * w))..] == old(dwt[2 * (Area(w, 2 * w))..])
  {
    hide ColL, ColH, Cell, Laid, ColsDone, Area;
    LaidShape(buffer[..], base, 2 * w, 2 * w, m);
    ghost var q2 := 2 * (Area(w, 2 * w));
    ColsStart(dwt[..], w, m);
    var x := 0;
    while x < 2 * w
      invariant 0 <= x <= 2 * w && ColsDone(dwt[..], w, m, 0, x)
      invariant Laid(buffer[..], base, 2 * w, 2 * w, m)
      invariant dwt[q2..] == old(dwt[q2..])
    {
      var n := 0;
      while n < w
        invariant 0 <= n <= w && ColsDone(dwt[..], w, m, n, x)
        invariant Laid(buffer[..], base, 2 * w, 2 * w, m)
        invariant dwt[q2..] == old(dwt[q2..])
      {
        ColsStep(dwt[..], w, m, n, x);
        ColsAbove(dwt[..], w, m, n, x);
        EncodeCell(buffer, base, dwt, w, n, x, m);
        n := n + 1;
      }
      ColsNext(dwt[..], w, m, x);
      x := x + 1;
    }
    ColsEnd(dwt[..], w, m);
  }

  lemma ColsStart(s: seq<sint16>, w: nat, m: Matrix)
    requires Shape(m, 2 * w, 2 * w) && 2 * (Area(w, 2 * w)) <= |s|
    ensures ColsDone(s, w, m, 0, 0)
  {
  }

  lemma ColsAbove(s: seq<sint16>, w: nat, m: Matrix, n: nat, x: nat)
    requires Shape(m, 2 * w, 2 * w) && ColsDone(s, w, m, n, x) && x < 2 * w && n <= w
    ensures HighAbove(s, w, m, n, x)
  {
    hide ColL, ColH, Cell, Area;
    assert n > 0 ==> Before(n - 1, x, n, x);
  }

  lemma ColsNext(s: seq<sint16>, w: nat, m: Matrix, x: nat)
    requires Shape(m, 2 * w, 2 * w) && ColsDone(s, w, m, w, x) && x < 2 * w
    ensures ColsDone(s, w, m, 0, x + 1)
  {
    hide ColL, ColH, Cell, Area;
    forall y: nat, c: nat | y < w && c < 2 * w && Before(y, c, 0, x + 1) ensures Before(y, c, w, x) {
    }
  }

  lemma ColsEnd(s: seq<sint16>, w: nat, m: Matrix)
    requires Shape(m, 2 * w, 2 * w) && ColsDone(s, w, m, 0, 2 * w)
    ensures Laid(s, 0, w, 2 * w, ColL(m, w)) && Laid(s, Area(w, 2 * w), w, 2 * w, ColH(m, w))
  {
    hide ColL, ColH, Cell, Area;
    forall y: nat, c: nat | y < w && c < 2 * w ensures Before(y, c, 0, 2 * w) {
    }
  }

  /** One row of the horizontal pass: high coefficients at h, low ones at l. */
  method EncodeRow(src: array<sint16>, s: nat, dst: array<sint16>, h: nat, l: nat, w: nat, ghost x: Line)
    requires src != dst && s + 2 * w <= src.Length && src[s..s + 2 * w] == x
    requires h + w <= dst.Length && l + w <= dst.Length && (h + w <= l || l + w <= h)
    modifies dst
    ensures TwoRowsSet(old(dst[..]), dst[..], h, RowH(x, w), l, RowL(x, w), w)
  {
    hide RowH, RowL, RowPart;
    assert forall i :: 0 <= i < 2 * w ==> src[s + i] == x[i];
    RowPartStart(dst[..], h, l, w, x);
    var n := 0;
    while n < w
      invariant 0 <= n <= w && RowPart(old(dst[..]), dst[..], h, l, w, x, n)
      invariant forall i :: 0 <= i < 2 * w ==> src[s + i] == x[i]
    {
      EncodeSample(src, s, dst, h, l, w, n, x, old(dst[..]));
      n := n + 1;
    }
    RowPartEnd(old(dst[..]), dst[..], h, l, w, x);
  }

  /** The first n coefficients of both bands of a row are in place, and nothing else differs. */
  ghost predicate RowPart(s: seq<sint16>, t: seq<sint16>, h: nat, l: nat, w: nat, x: Line, n: nat)
    requires |x| == 2 * w
  {
    && |t| == |s| && n <= w && h + w <= |s| && l + w <= |s|
    && (forall k :: 0 <= k < n ==> t[h + k] == RowH(x, w)[k])
    && (forall k :: 0 <= k < n ==> t[l + k] == RowL(x, w)[k])
    && forall i :: 0 <= i < |s| && !(h <= i < h + w) && !(l <= i < l + w) ==> t[i] == s[i]
  }

  lemma RowPartStart(s: seq<sint16>, h: nat, l: nat, w: nat, x: Line)
    requires |x| == 2 * w && h + w <= |s| && l + w <= |s|
    ensures RowPart(s, s, h, l, w, x, 0)
  {
  }

  lemma RowPartEnd(s: seq<sint16>, t: seq<sint16>, h: nat, l: nat, w: nat, x: Line)
    requires |x| == 2 * w && RowPart(s, t, h, l, w, x, w)
    ensures TwoRowsSet(s, t, h, RowH(x, w), l, RowL(x, w), w)
  {
    hide RowH, RowL;
  }

  method EncodeSample(src: array<sint16>, s: nat, dst: array<sint16>, h: nat, l: nat, w: nat, n: nat, ghost x: Line,
      ghost t: Line)
    requires src != dst && s + 2 * w <= src.Length && |x| == 2 * w && forall i :: 0 <= i < 2 * w ==> src[s + i] == x[i]
    requires n < w && (h + w <= l || l + w <= h) && RowPart(t, dst[..], h, l, w, x, n)
    modifies dst
    ensures RowPart(t, dst[..], h, l, w, x, n + 1)
  {
    hide RowH, RowL, High, LowC;
    var i := s + 2 * n;
    HighAt(x, w, n);
    LowAt(x, w, n);
    dst[h + n] := High(src[i], src[i + 1], src[if n < w - 1 then i + 2 else i]);
    assert n > 0 ==> dst[h + n - 1] == RowH(x, w)[n - 1];
    dst[l + n] := LowC(src[i], if n == 0 then dst[h + n] else dst[h + n - 1], dst[h + n]);
  }

  /** Four bands of w rows one after the other in buffer: HL, LH, HH, LL. */
  ghost predicate BandsGrown(s: seq<sint16>, base: nat, w: nat, b: Bands, y: nat)
  {
    var a := Area(w, w);
    && Grown(s, base, w, b.hl, y) && Grown(s, base + a, w, b.lh, y)
    && Grown(s, base + 2 * a, w, b.hh, y) && Grown(s, base + 3 * a, w, b.ll, y)
  }

  lemma BandsKept(s: seq<sint16>, t: seq<sint16>, base: nat, w: nat, b: Bands, y: nat)
    requires BandsGrown(s, base, w, b, y)
    requires var a, c := Area(w, w), Cell(y, 0, w);
             && Agree(s, t, base, base + c) && Agree(s, t, base + a, base + a + c)
             && Agree(s, t, base + 2 * a, base + 2 * a + c) && Agree(s, t, base + 3 * a, base + 3 * a + c)
    ensures BandsGrown(t, base, w, b, y)
  {
    hide Area, Cell, Grown, Agree;
    var a := Area(w, w);
    GrownKept(s, t, base, w, b.hl, y);
    GrownKept(s, t, base + a, w, b.lh, y);
    GrownKept(s, t, base + 2 * a, w, b.hh, y);
    GrownKept(s, t, base + 3 * a, w, b.ll, y);
  }

  lemma BandsStep(s: seq<sint16>, base: nat, w: nat, b: Bands, y: nat)
    requires BandsGrown(s, base, w, b, y) && Square(b, w) && y < w
    requires var a, c := Area(w, w), base + Cell(y, 0, w);
             && c + 3 * a + w <= |s|
             && s[c..c + w] == b.hl[y] && s[c + a..c + a + w] == b.lh[y]
             && s[c + 2 * a..c + 2 * a + w] == b.hh[y] && s[c + 3 * a..c + 3 * a + w] == b.ll[y]
    ensures BandsGrown(s, base, w, b, y + 1)
  {
    hide Area, Cell, Grown;
    var a := Area(w, w);
    GrownStep(s, base, w, b.hl, y);
    GrownStep(s, base + a, w, b.lh, y);
    GrownStep(s, base + 2 * a, w, b.hh, y);
    GrownStep(s, base + 3 * a, w, b.ll, y);
  }

  /** Row y of the horizontal pass, on the L half and the H half of dwt. */
  method EncodeRowPair(dwt: array<sint16>, buffer: array<sint16>, base: nat, w: nat, y: nat,
                       ghost l: Matrix, ghost h: Matrix, ghost b: Bands)
    requires buffer != dwt && y < w && base + 4 * Area(w, w) <= buffer.Length
    requires Laid(dwt[..], 0, w, 2 * w, l) && Laid(dwt[..], Area(w, 2 * w), w, 2 * w, h)
    requires Shape(l, w, 2 * w) && Shape(h, w, 2 * w)
    requires b == Bands(RowsH(l, w), RowsL(h, w), RowsH(h, w), RowsL(l, w))
    requires BandsGrown(buffer[..], base, w, b, y)
    modifies buffer
    ensures BandsGrown(buffer[..], base, w, b, y + 1)
    ensures Agree(buffer[..], old(buffer[..]), 0, base)
    ensures Agree(buffer[..], old(buffer[..]), base + 4 * Area(w, w), buffer.Length)
  {
    hide Area, Cell, Grown, Laid, BandsGrown, RowH, RowL, RowsH, RowsL, Agree, TwoRowsSet;
    var a, c, r := Area(w, w), base + Cell(y, 0, w), Cell(y, 0, 2 * w);
    CellBound(w, w, y, 0);
    RowSlice(dwt[..], 0, w, 2 * w, l, y);
    RowSlice(dwt[..], Area(w, 2 * w), w, 2 * w, h, y);
    LaidFits(dwt[..], Area(w, 2 * w), w, 2 * w, h);
    EncodeRow(dwt, r, buffer, c, c + 3 * a, w, l[y]);
    ghost var mid := buffer[..];
    EncodeRow(dwt, Area(w, 2 * w) + r, buffer, c + 2 * a, c + a, w, h[y]);
    RowsAt(l, h, w, y);
    RowPairDone(old(buffer[..]), mid, buffer[..], base, w, b, y);
  }

  lemma RowsAt(l: Matrix, h: Matrix, w: nat, y: nat)
    requires Shape(l, w, 2 * w) && Shape(h, w, 2 * w) && y < w
    ensures RowsH(l, w)[y] == RowH(l[y], w) && RowsL(l, w)[y] == RowL(l[y], w)
    ensures RowsH(h, w)[y] == RowH(h[y], w) && RowsL(h, w)[y] == RowL(h[y], w)
  {
    hide RowH, RowL;
  }

  /** t is s but for the w values at h and at l. */
  ghost predicate TwoRowsSet(s: seq<sint16>, t: seq<sint16>, h: nat, rh: Line, l: nat, rl: Line, w: nat)
  {
    && |t| == |s| && h + w <= |s| && l + w <= |s| && t[h..h + w] == rh && t[l..l + w] == rl
    && forall i :: 0 <= i < |s| && !(h <= i < h + w) && !(l <= i < l + w) ==> t[i] == s[i]
  }

  lemma RowPairDone(s: seq<sint16>, m: seq<sint16>, t: seq<sint16>, base: nat, w: nat, b: Bands, y: nat)
    requires Square(b, w) && y < w && base + 4 * Area(w, w) <= |s| && Cell(y, 0, w) + w <= Area(w, w)
    requires BandsGrown(s, base, w, b, y)
    requires var a, c := Area(w, w), base + Cell(y, 0, w);
             && TwoRowsSet(s, m, c, b.hl[y], c + 3 * a, b.ll[y], w)
             && TwoRowsSet(m, t, c + 2 * a, b.hh[y], c + a, b.lh[y], w)
    ensures BandsGrown(t, base, w, b, y + 1)
    ensures Agree(t, s, 0, base) && Agree(t, s, base + 4 * Area(w, w), |s|)
  {
    hide Area, Cell, Grown, BandsGrown;
    var a, c := Area(w, w), base + Cell(y, 0, w);
    assert t[c..c + w] == m[c..c + w];
    assert t[c + 3 * a..c + 3 * a + w] == m[c + 3 * a..c + 3 * a + w];
    BandsKept(s, t, base, w, b, y);
    BandsStep(t, base, w, b, y);
  }

  lemma LaidFits(s: seq<sint16>, base: nat, rows: nat, cols: nat, m: Matrix)
    requires Laid(s, base, rows, cols, m)
    ensures base + Area(rows, cols) <= |s|
  {
  }

  function MatrixAt(s: Line, base: nat, rows: nat, cols: nat): (m: Matrix)
    requires base + Area(rows, cols) <= |s|
    ensures Laid(s, base, rows, cols, m)
  {
    RowsFit(rows, cols);
    seq(rows, y requires 0 <= y < rows => s[base + Cell(y, 0, cols)..base + Cell(y, 0, cols) + cols])
  }

  /** A block of the buffer replaced by its four bands. */
  function EncodeFlat(s: Line, base: nat, w: nat): (r: Line)
    requires base + 4 * Area(w, w) <= |s|
    ensures |r| == |s|
  {
    AreaFour(w);
    var b := Encode2D(MatrixAt(s, base, 2 * w, 2 * w), w);
    BandsLength(b, w);
    s[..base] + BandsFlat(b) + s[base + 4 * Area(w, w)..]
  }

  function BandsFlat(b: Bands): Line { Flat(b.hl) + Flat(b.lh) + Flat(b.hh) + Flat(b.ll) }

  lemma BandsLength(b: Bands, w: nat)
    requires Square(b, w)
    ensures |Flat(b.hl)| == |Flat(b.lh)| == |Flat(b.hh)| == |Flat(b.ll)| == Area(w, w)
  {
    hide Flat, Area;
    FlatAt(b.hl, w, w);
    FlatAt(b.lh, w, w);
    FlatAt(b.hh, w, w);
    FlatAt(b.ll, w, w);
  }

  lemma BandsEnd(s: seq<sint16>, base: nat, w: nat, b: Bands)
    requires Square(b, w) && BandsGrown(s, base, w, b, w)
    ensures base + 4 * Area(w, w) <= |s| && s[base..base + 4 * Area(w, w)] == BandsFlat(b)
  {
    hide Flat, Area, Grown;
    var a := Area(w, w);
    GrownEnd(s, base, w, w, b.hl);
    GrownEnd(s, base + a, w, w, b.lh);
    GrownEnd(s, base + 2 * a, w, w, b.hh);
    GrownEnd(s, base + 3 * a, w, w, b.ll);
    assert s[base..base + 4 * a] == s[base..base + a] + s[base + a..base + 2 * a]
                                    + s[base + 2 * a..base + 3 * a] + s[base + 3 * a..base + 4 * a];
  }

  lemma BandsStart(s: seq<sint16>, base: nat, w: nat, b: Bands)
    requires base + 3 * Area(w, w) <= |s|
    ensures BandsGrown(s, base, w, b, 0)
  {
    hide Area, Grown;
    var a := Area(w, w);
    GrownStart(s, base, w, b.hl);
    GrownStart(s, base + a, w, b.lh);
    GrownStart(s, base + 2 * a, w, b.hh);
    GrownStart(s, base + 3 * a, w, b.ll);
  }

  /** One level: the block at base becomes its four bands; nothing else of the buffer changes. */
  method EncodeBlock(buffer: array<sint16>, base: nat, dwt: array<sint16>, w: nat)
    requires buffer != dwt && base + 4 * Area(w, w) <= buffer.Length && 4 * Area(w, w) <= dwt.Length
    modifies buffer, dwt
    ensures buffer[..] == EncodeFlat(old(buffer[..]), base, w)
  {
    hide Area, Laid, ColL, ColH, RowsH, RowsL, BandsGrown, BandsFlat, MatrixAt, Agree;
    AreaFour(w);
    ghost var s := buffer[..];
    ghost var m := MatrixAt(s, base, 2 * w, 2 * w);
    LaidShape(s, base, 2 * w, 2 * w, m);
    EncodeCols(buffer, base, dwt, w, m);
    ghost var l, h, b := ColL(m, w), ColH(m, w), Encode2D(m, w);
    BandsStart(s, base, w, b);
    AgreeSelf(s);
    var y := 0;
    while y < w
      invariant 0 <= y <= w && BandsGrown(buffer[..], base, w, b, y)
      invariant Laid(dwt[..], 0, w, 2 * w, l) && Laid(dwt[..], Area(w, 2 * w), w, 2 * w, h)
      invariant Agree(buffer[..], s, 0, base) && Agree(buffer[..], s, base + 4 * Area(w, w), |s|)
    {
      ghost var t := buffer[..];
      EncodeRowPair(dwt, buffer, base, w, y, l, h, b);
      AgreeTrans(buffer[..], t, s, 0, base);
      AgreeTrans(buffer[..], t, s, base + 4 * Area(w, w), |s|);
      y := y + 1;
    }
    BandsEnd(buffer[..], base, w, b);
    Assembled(s, buffer[..], base, base + 4 * Area(w, w));
  }

  lemma AgreeSelf(s: seq<sint16>)
    ensures forall lo, hi :: 0 <= lo <= hi <= |s| ==> Agree(s, s, lo, hi)
  {
  }

  lemma AgreeTrans(s: seq<sint16>, t: seq<sint16>, u: seq<sint16>, lo: nat, hi: nat)
    requires Agree(s, t, lo, hi) && Agree(t, u, lo, hi)
    ensures Agree(s, u, lo, hi)
  {
  }

  lemma Assembled(s: seq<sint16>, t: seq<sint16>, lo: nat, hi: nat)
    requires |t| == |s| && lo <= hi <= |s| && Agree(t, s, 0, lo) && Agree(t, s, hi, |s|)
    ensures t == s[..lo] + t[lo..hi] + s[hi..]
  {
  }

  // ---- The three levels ----

  function EncodeLevels(s: Line): (r: Line)
    requires |s| >= 4096
    ensures |r| == |s|
  {
    hide EncodeFlat, EncodeTwo;
    EncodeFlat(EncodeTwo(s), 3840, 8)
  }

  /** After the first level, and after the second. */
  function EncodeOne(s: Line): (r: Line)
    requires |s| >= 4096
    ensures |r| == |s|
  {
    EncodeFlat(s, 0, 32)
  }

  function EncodeTwo(s: Line): (r: Line)
    requires |s| >= 4096
    ensures |r| == |s|
  {
    hide EncodeFlat, EncodeOne;
    EncodeFlat(EncodeOne(s), 3072, 16)
  }

  method DwtEncode(buffer: array<sint16>, dwt: array<sint16>)
    requires buffer != dwt && buffer.Length >= 4096 && dwt.Length >= 4096
    modifies buffer, dwt
    ensures buffer[..] == EncodeLevels(old(buffer[..]))
  {
    hide EncodeFlat;
    EncodeBlock(buffer, 0, dwt, 32);
    EncodeBlock(buffer, 3072, dwt, 16);
    EncodeBlock(buffer, 3840, dwt, 8);
  }
}
