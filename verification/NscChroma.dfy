/** Chroma supersampling: every subsampled value is spread over a square of four samples by a cursor that walks
    the destination two rows at a time (libfreerdp-codec/nsc.c). */
module NscChroma {
  import opened Words
  import opened Grid
  import opened NscPlane
  import opened NscScaling

  // ---- The square of one subsampled value ----

  /** The value at (2r, 2c) and, where the plane reaches, below, beside and diagonally. */
  function Quad(v: seq<int>, w: nat, h: nat, r: nat, c: nat, val: int): (q: seq<int>)
    requires |v| == Area(h, w) && 2 * r < h && 2 * c < w
    ensures |q| == |v|
  {
    hide Cell, Area;
    CellBounds(h, w);
    var a := v[Cell(2 * r, 2 * c, w) := val];
    var b := if 2 * r + 1 < h then a[Cell(2 * r + 1, 2 * c, w) := val] else a;
    var d := if 2 * c + 1 < w then b[Cell(2 * r, 2 * c + 1, w) := val] else b;
    if 2 * c + 1 < w && 2 * r + 1 < h then d[Cell(2 * r + 1, 2 * c + 1, w) := val] else d
  }

  lemma QuadAt(v: seq<int>, w: nat, h: nat, r: nat, c: nat, val: int, y: nat, x: nat)
    requires |v| == Area(h, w) && 2 * r < h && 2 * c < w && y < h && x < w
    ensures Cell(y, x, w) < Area(h, w)
    ensures Quad(v, w, h, r, c, val)[Cell(y, x, w)] == if y / 2 == r && x / 2 == c then val else v[Cell(y, x, w)]
  {
    hide Cell, Area;
    CellBounds(h, w);
    OtherCells(w, y, x);
    assert y / 2 == r <==> y == 2 * r || y == 2 * r + 1;
    assert x / 2 == c <==> x == 2 * c || x == 2 * c + 1;
  }

  /** The cells of finished squares hold their value, the others are still zero. */
  ghost predicate Filled(v: seq<int>, u: seq<int>, w: nat, h: nat, pw: nat, r: nat, c: nat)
  {
    |v| == Area(h, w) && forall y: nat, x: nat :: y < h && x < w ==> FilledAt(v, u, w, h, pw, r, c, y, x)
  }

  ghost predicate FilledAt(v: seq<int>, u: seq<int>, w: nat, h: nat, pw: nat, r: nat, c: nat, y: nat, x: nat)
    requires |v| == Area(h, w) && y < h && x < w
  {
    && Cell(y, x, w) < Area(h, w) && Cell(y / 2, x / 2, pw) < |u|
    && v[Cell(y, x, w)] == if Finished(r, c, y / 2, x / 2) then u[Cell(y / 2, x / 2, pw)] else 0
  }

  ghost predicate Finished(r: nat, c: nat, y: nat, x: nat) { y < r || (y == r && x < c) }

  lemma QuadFills(v: seq<int>, u: seq<int>, w: nat, h: nat, pw: nat, r: nat, c: nat)
    requires Filled(v, u, w, h, pw, r, c) && 2 * r < h && 2 * c < w && Cell(r, c, pw) < |u|
    ensures Filled(Quad(v, w, h, r, c, u[Cell(r, c, pw)]), u, w, h, pw, r, c + 1)
  {
    hide Cell, Area, Quad;
    var q, c' := Quad(v, w, h, r, c, u[Cell(r, c, pw)]), c + 1;
    forall y: nat, x: nat | y < h && x < w ensures FilledAt(q, u, w, h, pw, r, c', y, x) {
      assert FilledAt(v, u, w, h, pw, r, c, y, x);
      QuadAt(v, w, h, r, c, u[Cell(r, c, pw)], y, x);
    }
  }

  lemma FilledNextRow(v: seq<int>, u: seq<int>, w: nat, h: nat, pw: nat, r: nat, cw: nat)
    requires Filled(v, u, w, h, pw, r, cw) && w <= 2 * cw
    ensures Filled(v, u, w, h, pw, r + 1, 0)
  {
    hide Cell, Area;
    var r' := r + 1;
    forall y: nat, x: nat | y < h && x < w ensures FilledAt(v, u, w, h, pw, r', 0, y, x) {
      assert FilledAt(v, u, w, h, pw, r, cw, y, x);
      assert x / 2 < cw;
    }
  }

  lemma FilledStart(v: seq<int>, u: seq<int>, w: nat, h: nat, pw: nat, ch: nat)
    requires |v| == Area(h, w) && |u| == Area(ch, pw) && w <= 2 * pw && h <= 2 * ch
    requires forall k :: 0 <= k < |v| ==> v[k] == 0
    ensures Filled(v, u, w, h, pw, 0, 0)
  {
    hide Cell, Area;
    CellBounds(h, w);
    CellBounds(ch, pw);
    forall y: nat, x: nat | y < h && x < w ensures FilledAt(v, u, w, h, pw, 0, 0, y, x) {
      assert y / 2 < ch && x / 2 < pw;
    }
  }

  /** The cells of a square that has not been written are zero. */
  lemma SquareClear(v: seq<int>, u: seq<int>, w: nat, h: nat, pw: nat, r: nat, c: nat)
    requires Filled(v, u, w, h, pw, r, c) && 2 * r < h && 2 * c < w
    ensures forall y: nat, x: nat :: y < h && x < w && y / 2 == r && x / 2 == c ==>
              Cell(y, x, w) < Area(h, w) && v[Cell(y, x, w)] == 0
  {
    hide Cell, Area;
    forall y: nat, x: nat | y < h && x < w && y / 2 == r && x / 2 == c
      ensures Cell(y, x, w) < Area(h, w) && v[Cell(y, x, w)] == 0
    {
      assert FilledAt(v, u, w, h, pw, r, c, y, x);
    }
  }

  // ---- Cursor arithmetic ----

  /** The tests on the destination cursor say which cells of the square exist. */
  lemma Guards(r: nat, c: nat, w: nat, h: nat)
    requires 2 * r < h && 2 * c < w
    ensures var cur := Cell(2 * r, 2 * c, w);
            && (cur + w < Area(h, w) <==> 2 * r + 1 < h)
            && ((cur + 1) % w != 0 <==> 2 * c + 1 < w)
            && cur + w == Cell(2 * r + 1, 2 * c, w)
            && cur + 1 == Cell(2 * r, 2 * c + 1, w)
            && cur + w + 1 == Cell(2 * r + 1, 2 * c + 1, w)
  {
    hide Cell, Area;
    var cur := Cell(2 * r, 2 * c, w);
    CellNextRow(2 * r, 2 * c, w);
    CellInRow(2 * r, 2 * c, w);
    CellInRow(2 * r, 2 * c + 1, w);
    CellNextRow(2 * r, 2 * c + 1, w);
    if 2 * r + 1 < h {
      CellBound(h, w, 2 * r + 1, 2 * c);
    } else {
      AreaNext(2 * r, w);
    }
    if 2 * c + 1 < w {
      CellMod(2 * r, 2 * c + 1, w);
    } else {
      CellWrap(2 * r, w);
      CellMod(2 * r + 1, 0, w);
    }
  }

  /** The cursor after a square: beside it, or two rows further when the row pair is finished. */
  function NextCursor(cur: nat, w: nat, h: nat): nat
    requires w > 0
  {
    var c := cur + 2;
    if c / w < h && c % w < 2 then (if w % 2 != 0 then c + (w - 1) else c + w) else c
  }

  lemma CursorBeside(r: nat, c: nat, w: nat, h: nat)
    requires 2 * c + 2 < w
    ensures NextCursor(Cell(2 * r, 2 * c, w), w, h) == Cell(2 * r, 2 * (c + 1), w)
  {
    hide Cell;
    CellInRow(2 * r, 2 * c, w);
    CellInRow(2 * r, 2 * c + 2, w);
    CellMod(2 * r, 2 * c + 2, w);
  }

  lemma CursorNextRow(r: nat, c: nat, w: nat, h: nat)
    requires 2 * c < w <= 2 * c + 2 && 2 * r + 2 < h
    ensures NextCursor(Cell(2 * r, 2 * c, w), w, h) == Cell(2 * (r + 1), 0, w)
  {
    hide Cell;
    CellInRow(2 * r, 2 * c, w);
    CellNextRow(2 * r, 0, w);
    CellNextRow(2 * r + 1, 0, w);
    if w == 2 * c + 2 {
      CellMod(2 * r + 1, 0, w);
    } else if w > 1 {
      CellInRow(2 * r + 1, 1, w);
      CellMod(2 * r + 1, 1, w);
    } else {
      CellMod(2 * r + 2, 0, w);
    }
  }

  // ---- The walk ----

  method PutQuad(dst: array<byte>, w: nat, h: nat, cur: nat, val: byte, sign: byte, ghost r: nat, ghost c: nat)
    requires Plane(dst[..], Area(h, w)) && (sign == 0 || sign == 128) && 2 * r < h && 2 * c < w
    requires cur == Cell(2 * r, 2 * c, w)
    requires forall y: nat, x: nat :: y < h && x < w && y / 2 == r && x / 2 == c ==>
               Cell(y, x, w) < Area(h, w) && Samples(dst[..], Area(h, w))[Cell(y, x, w)] == 0
    modifies dst
    ensures Plane(dst[..], Area(h, w))
    ensures Samples(dst[..], Area(h, w))
         == Quad(old(Samples(dst[..], Area(h, w))), w, h, r, c, val as int - (if sign == 128 then 256 else 0))
  {
    hide Cell, Area, Samples, Put, Plane;
    var orglen := Area(h, w);
    ghost var v := Samples(dst[..], orglen);
    CellBounds(h, w);
    Guards(r, c, w, h);
    SquareCells(r, c, w, h);
    PutZero(dst, orglen, cur, val, sign);
    if cur + w < orglen {
      PutZero(dst, orglen, cur + w, val, sign);
    }
    if (cur + 1) % w != 0 {
      PutZero(dst, orglen, cur + 1, val, sign);
      if cur + w < orglen {
        PutZero(dst, orglen, cur + w + 1, val, sign);
      }
    }
  }

  /** The four cells differ and lie in the square. */
  lemma SquareCells(r: nat, c: nat, w: nat, h: nat)
    requires 2 * r < h && 2 * c < w
    ensures (2 * r) / 2 == r && (2 * r + 1) / 2 == r && (2 * c) / 2 == c && (2 * c + 1) / 2 == c
  {
  }

  method PutZero(dst: array<byte>, n: nat, k: nat, val: byte, sign: byte)
    requires Plane(dst[..], n) && k < n && (sign == 0 || sign == 128) && Samples(dst[..], n)[k] == 0
    modifies dst
    ensures Plane(dst[..], n)
    ensures Samples(dst[..], n) == old(Samples(dst[..], n))[k := val as int - (if sign == 128 then 256 else 0)]
  {
    hide Samples, Put;
    PutIs(dst[..], n, k, val, sign == 128);
    PutSample(dst, n, k, val, sign);
  }

  method SupersampleChroma(src: array<byte>, w: nat, h: nat) returns (dst: array<byte>)
    requires 0 < w && 0 < h && Plane(src[..], Area(ChromaHeight(h), ChromaWidth(w)))
    ensures fresh(dst) && Plane(dst[..], Area(h, w))
    ensures Supersampled(Samples(dst[..], Area(h, w)), Samples(src[..], Area(ChromaHeight(h), ChromaWidth(w))), w, h)
  {
    hide Cell, Area, RoundUp, Filled, Samples, Quad, Plane, ChromaWidth, ChromaHeight, NextCursor, Supersampled;
    var pw := ChromaWidth(w);
    ghost var ch, cw := ChromaHeight(h), (w + 1) / 2;
    var n, orglen := Area(ChromaHeight(h), pw), Area(h, w);
    ChromaSizes(w, h);
    dst := new byte[orglen + SignBytes(orglen)](_ => 0);
    ghost var u := Samples(src[..], n);
    NewPlane(dst[..], orglen);
    FilledStart(Samples(dst[..], orglen), u, w, h, pw, ch);
    var tp, cur := 0, 0;
    ghost var r, c := 0, 0;
    CellStart(pw, w);
    while tp < n
      invariant c < cw && r <= ch && (r == ch ==> c == 0) && tp == Cell(r, c, pw)
      invariant r < ch ==> cur == Cell(2 * r, 2 * c, w)
      invariant Plane(dst[..], orglen) && Filled(Samples(dst[..], orglen), u, w, h, pw, r, c)
      invariant Plane(src[..], n) && u == Samples(src[..], n)
      decreases ch - r, cw - c
    {
      BeforeEnd(ch, pw, r, c);
      Advance(r, c, cw, pw);
      SpreadSample(src, tp, dst, w, h, pw, n, cur, u, r, c);
      tp := tp + 1;
      var row := tp % pw;
      cur := NextCursor(cur, w, h);
      if row * 2 >= w { tp := tp + (pw - row); }
      if c + 1 < cw {
        CursorBeside(r, c, w, h);
        c := c + 1;
      } else {
        if r + 1 < ch { CursorNextRow(r, c, w, h); }
        FilledNextRow(Samples(dst[..], orglen), u, w, h, pw, r, cw);
        r, c := r + 1, 0;
      }
    }
    AtEnd(ch, pw, r, c, cw);
    FilledEnd(Samples(dst[..], orglen), u, w, h);
  }

  lemma CellStart(pw: nat, w: nat)
    ensures Cell(0, 0, pw) == 0 && Cell(2 * 0, 2 * 0, w) == 0
  {
  }

  lemma NewPlane(s: seq<byte>, n: nat)
    requires |s| == n + SignBytes(n) && forall k :: 0 <= k < |s| ==> s[k] == 0
    ensures Plane(s, n) && forall k :: 0 <= k < n ==> Samples(s, n)[k] == 0
  {
    CleanSigns(s, n);
  }

  method SpreadSample(src: array<byte>, tp: nat, dst: array<byte>, w: nat, h: nat, pw: nat, n: nat, cur: nat,
                      ghost u: seq<int>, ghost r: nat, ghost c: nat)
    requires src != dst && Plane(src[..], n) && u == Samples(src[..], n) && tp == Cell(r, c, pw) && tp < n
    requires 2 * r < h && 2 * c < w && cur == Cell(2 * r, 2 * c, w)
    requires Plane(dst[..], Area(h, w)) && Filled(Samples(dst[..], Area(h, w)), u, w, h, pw, r, c)
    modifies dst
    ensures Plane(dst[..], Area(h, w)) && Filled(Samples(dst[..], Area(h, w)), u, w, h, pw, r, c + 1)
  {
    hide Cell, Area, Filled, Quad, Plane, SignAt;
    ghost var v := Samples(dst[..], Area(h, w));
    SquareClear(v, u, w, h, pw, r, c);
    QuadFills(v, u, w, h, pw, r, c);
    PlaneFits(src[..], n);
    var val := src[tp];
    var sign := ReadSign(src, n, tp);
    assert u[tp] == Sample(src[..], n, tp);
    PutQuad(dst, w, h, cur, val, sign, r, c);
  }

  lemma PlaneFits(s: seq<byte>, n: nat)
    requires Plane(s, n)
    ensures n <= |s|
  {
  }

  /** Every sample of the full plane is the subsampled one that covers it. */
  ghost predicate Supersampled(v: seq<int>, u: seq<int>, w: nat, h: nat)
  {
    && |v| == Area(h, w) && |u| == Area(ChromaHeight(h), ChromaWidth(w))
    && forall y: nat, x: nat :: y < h && x < w ==> SpreadAt(v, u, w, h, y, x)
  }

  ghost predicate SpreadAt(v: seq<int>, u: seq<int>, w: nat, h: nat, y: nat, x: nat)
    requires |v| == Area(h, w)
  {
    && Cell(y, x, w) < Area(h, w) && Cell(y / 2, x / 2, ChromaWidth(w)) < |u|
    && v[Cell(y, x, w)] == u[Cell(y / 2, x / 2, ChromaWidth(w))]
  }

  lemma FilledEnd(v: seq<int>, u: seq<int>, w: nat, h: nat)
    requires Filled(v, u, w, h, ChromaWidth(w), ChromaHeight(h), 0) && |u| == Area(ChromaHeight(h), ChromaWidth(w))
    ensures Supersampled(v, u, w, h)
  {
    hide Cell, Area, ChromaWidth, ChromaHeight;
    ChromaSizes(w, h);
    forall y: nat, x: nat | y < h && x < w ensures SpreadAt(v, u, w, h, y, x) {
      assert FilledAt(v, u, w, h, ChromaWidth(w), ChromaHeight(h), 0, y, x);
      assert y / 2 < ChromaHeight(h);
    }
  }
}
