/** Plane expansion, luma cropping and chroma supersampling by pointer walking (libfreerdp-codec/nsc.c). */
module NscScaling {
  import opened Words
  import opened Grid
  import opened Masks
  import opened NscPlane

  function RoundUp(b: nat, n: nat): (r: nat)
    requires n > 0
  {
    b + (n - b % n) % n
  }

  lemma RoundUp8(w: nat)
    ensures w <= RoundUp(w, 8) < w + 8 && RoundUp(w, 8) == 8 * ((w + 7) / 8)
  {
  }

  /** Chroma columns and rows of the subsampled planes. */
  function ChromaWidth(w: nat): nat { RoundUp(w, 8) / 2 }

  function ChromaHeight(h: nat): nat { RoundUp(h, 2) / 2 }

  lemma ChromaSizes(w: nat, h: nat)
    ensures w <= 2 * ChromaWidth(w) && 2 * ChromaHeight(h) - 1 <= h <= 2 * ChromaHeight(h)
    ensures w > 0 ==> ChromaWidth(w) >= 4
  {
    hide RoundUp;
    RoundUp8(w);
    RoundUp2(h);
    Halves((w + 7) / 8, (h + 1) / 2);
  }

  lemma Halves(j: nat, k: nat)
    ensures (8 * j) / 2 == 4 * j && (2 * k) / 2 == k
  {
  }

  lemma RoundUp2(h: nat)
    ensures h <= RoundUp(h, 2) <= h + 1 && RoundUp(h, 2) == 2 * ((h + 1) / 2)
  {
  }

  lemma CellMod(y: nat, x: nat, c: nat)
    requires x < c
    ensures Cell(y, x, c) % c == x && Cell(y, x, c) / c == y
  {
    var i := Cell(y, x, c);
    DivMod(i, c);
    var q, r := i / c, i % c;
    if q < y { CellDistinct(c, q, r, y, x); }
    if y < q { CellDistinct(c, y, x, q, r); }
  }

  // ---- One sample ----

  /** A sample byte, and its sign (0 or 0x80) shifted to its place in the bit stream. */
  method PutSample(data: array<byte>, n: nat, k: nat, val: byte, sign: byte)
    requires Plane(data[..], n) && k < n && (sign == 0 || sign == 128)
    modifies data
    ensures data[..] == Put(old(data[..]), n, k, val, sign == 128)
  {
    hide Or, Pow2;
    data[k] := val;
    SignMaskIs(k % 8);
    ShrOfZero(k % 8);
    OrZero(data[n + k / 8]);
    var mask := Shr(sign, k % 8);
    assert mask == if sign == 128 then SignMask(k % 8) else 0;
    OrByte(data[n + k / 8], if sign == 128 then SignMask(k % 8) else 0);
    data[n + k / 8] := Or(data[n + k / 8], mask);
  }

  lemma {:induction false} ShrOfZero(n: nat)
    ensures Shr(0, n) == 0
  {
    if n > 0 { ShrOfZero(n - 1); }
  }

  /** The sign bit of sample k, moved to bit 7. */
  method ReadSign(data: array<byte>, n: nat, k: nat) returns (sign: byte)
    requires Plane(data[..], n) && k < n
    ensures sign == if SignAt(data[..], n, k) then 128 else 0
  {
    hide Bit, Shl;
    BitOfShl(data[n + k / 8], k % 8, 7);
    sign := Mask80(Shl(data[n + k / 8], k % 8));
  }

  // ---- Colour-loss expansion ----

  ghost function Expanded(s: seq<byte>, n: nat, shift: nat, p: nat): (v: seq<int>)
    requires n <= |s| && p <= n
    ensures |v| == n
  {
    seq(n, k requires 0 <= k < n => if k < p then S9(Shl(s[k], shift)) else s[k])
  }

  method ClExpand(data: array<byte>, shift: nat, n: nat)
    requires 1 <= shift <= 23 && 0 < n && Plane(data[..], n) && forall k :: n <= k < data.Length ==> data[k] == 0
    modifies data
    ensures Plane(data[..], n) && Samples(data[..], n) == Expanded(old(data[..]), n, shift, n)
  {
    hide Shl, Put, S9, SignAt;
    ghost var s := data[..];
    CleanSigns(s, n);
    assert Samples(s, n) == Expanded(s, n, shift, 0);
    var p := 0;
    while p < n
      invariant 0 <= p <= n && Plane(data[..], n) && Samples(data[..], n) == Expanded(s, n, shift, p)
      invariant forall k :: p <= k < n ==> data[k] == s[k]
    {
      ghost var t := data[..];
      assert Samples(t, n)[p] == s[p];
      var sign := Mask80(Shl(data[p], shift - 1));
      var val := ToU8(Shl(data[p], shift));
      PutSample(data, n, p, val, sign);
      PutIs(t, n, p, val, sign == 128);
      PutBytes(t, n, p, val, sign == 128);
      ShiftedIs(s[p], shift);
      ExpandedNext(s, n, shift, p);
      p := p + 1;
    }
  }

  lemma ExpandedNext(s: seq<byte>, n: nat, shift: nat, p: nat)
    requires n <= |s| && p < n
    ensures Expanded(s, n, shift, p + 1) == Expanded(s, n, shift, p)[p := S9(Shl(s[p], shift))]
  {
    hide S9, Shl;
  }

  lemma CleanSigns(s: seq<byte>, n: nat)
    requires Plane(s, n) && forall k :: n <= k < |s| ==> s[k] == 0
    ensures forall k :: 0 <= k < n ==> !SignAt(s, n, k)
    ensures forall k :: 0 <= k < n ==> Samples(s, n)[k] == s[k]
  {
    hide Bit;
    forall k | 0 <= k < n ensures !SignAt(s, n, k) {
      BitOfZero(7 - k % 8);
    }
  }

  // ---- Luma ----

  /** Rows before y, and columns before x of row y, are copied. */
  ghost predicate Cropped(d: seq<byte>, s: seq<byte>, w: nat, h: nat, pw: nat, y: nat, x: nat)
  {
    && Area(h, w) <= |d| && Area(h, pw) <= |s|
    && forall r: nat, c: nat :: r < h && c < w && (r < y || (r == y && c < x)) ==> Copied(d, s, w, h, pw, r, c)
  }

  ghost predicate Copied(d: seq<byte>, s: seq<byte>, w: nat, h: nat, pw: nat, r: nat, c: nat)
    requires Area(h, w) <= |d| && Area(h, pw) <= |s|
  {
    Cell(r, c, w) < Area(h, w) && Cell(r, c, pw) < Area(h, pw) && d[Cell(r, c, w)] == s[Cell(r, c, pw)]
  }

  lemma CroppedStep(d: seq<byte>, s: seq<byte>, w: nat, h: nat, pw: nat, y: nat, x: nat)
    requires w <= pw && y < h && x < w && Cropped(d, s, w, h, pw, y, x)
    ensures Cell(y, x, w) < Area(h, w) && Cell(y, x, pw) < Area(h, pw)
    ensures Cropped(d[Cell(y, x, w) := s[Cell(y, x, pw)]], s, w, h, pw, y, x + 1)
  {
    hide Cell, Area;
    CellBound(h, w, y, x);
    CellBound(h, pw, y, x);
    OtherCells(w, y, x);
    var d' := d[Cell(y, x, w) := s[Cell(y, x, pw)]];
    forall r: nat, c: nat | r < h && c < w && (r < y || (r == y && c < x + 1)) ensures Copied(d', s, w, h, pw, r, c) {
      assert (r == y && c == x) || Copied(d, s, w, h, pw, r, c);
    }
  }

  lemma CroppedNext(d: seq<byte>, s: seq<byte>, w: nat, h: nat, pw: nat, y: nat)
    requires Cropped(d, s, w, h, pw, y, w)
    ensures Cropped(d, s, w, h, pw, y + 1, 0)
  {
    hide Cell, Area, Copied;
  }

  /** The source cursor after reading column x of row y: the padding of a finished row is skipped. */
  lemma Advance(y: nat, x: nat, w: nat, pw: nat)
    requires x < w <= pw
    ensures var tp := Cell(y, x, pw) + 1;
            var row := tp % pw;
            && (x + 1 < w ==> row < w && tp == Cell(y, x + 1, pw))
            && (x + 1 == w && row >= w ==> tp + (pw - row) == Cell(y + 1, 0, pw))
            && (x + 1 == w && row < w ==> tp == Cell(y + 1, 0, pw))
            && row < pw
  {
    hide Cell;
    var tp := Cell(y, x, pw) + 1;
    CellInRow(y, x, pw);
    CellNextRow(y, 0, pw);
    if x + 1 < pw {
      CellInRow(y, x + 1, pw);
      CellMod(y, x + 1, pw);
    } else {
      CellMod(y + 1, 0, pw);
    }
  }

  method CropLuma(src: array<byte>, w: nat, h: nat) returns (dst: array<byte>)
    requires 0 < w && 0 < h && Area(h, RoundUp(w, 8)) <= src.Length
    ensures fresh(dst) && dst.Length == Area(h, w)
    ensures Cropped(dst[..], src[..], w, h, RoundUp(w, 8), h, 0)
  {
    hide Cell, Area, RoundUp, Cropped;
    var pw := RoundUp(w, 8);
    RoundUp8(w);
    dst := new byte[Area(h, w)](_ => 0);
    var tp, cur := 0, 0;
    ghost var y, x := 0, 0;
    CropStart(dst[..], src[..], w, h, pw);
    while tp < Area(h, pw)
      invariant x < w && y <= h && (y == h ==> x == 0) && tp == Cell(y, x, pw) && cur == Cell(y, x, w)
      invariant Cropped(dst[..], src[..], w, h, pw, y, x)
      decreases h - y, w - x
    {
      BeforeEnd(h, pw, y, x);
      CroppedStep(dst[..], src[..], w, h, pw, y, x);
      Advance(y, x, w, pw);
      Advance(y, x, w, w);
      var val := src[tp];
      tp := tp + 1;
      dst[cur] := val;
      var row := tp % pw;
      cur := cur + 1;
      if row >= w { tp := tp + (pw - row); }
      if x + 1 < w {
        x := x + 1;
      } else {
        CroppedNext(dst[..], src[..], w, h, pw, y);
        CellWrap(y, w);
        y, x := y + 1, 0;
      }
    }
    AtEnd(h, pw, y, x, w);
  }

  lemma CropStart(d: seq<byte>, s: seq<byte>, w: nat, h: nat, pw: nat)
    requires Area(h, w) <= |d| && Area(h, pw) <= |s|
    ensures Cropped(d, s, w, h, pw, 0, 0) && Cell(0, 0, pw) == 0 == Cell(0, 0, w)
  {
  }

  lemma CellWrap(y: nat, w: nat)
    requires w > 0
    ensures Cell(y, w - 1, w) + 1 == Cell(y + 1, 0, w)
  {
    hide Cell;
    CellInRow(y, w - 1, w);
    CellNextRow(y, 0, w);
  }

  lemma BeforeEnd(rows: nat, cols: nat, y: nat, x: nat)
    requires y <= rows && Cell(y, x, cols) < Area(rows, cols)
    ensures y < rows
  {
    hide Cell, Area;
    CellInRow(y, x, cols);
    AreaNext(rows, cols);
  }

  lemma AtEnd(rows: nat, cols: nat, y: nat, x: nat, w: nat)
    requires y <= rows && x < w <= cols && (y == rows ==> x == 0) && Cell(y, x, cols) >= Area(rows, cols)
    ensures y == rows
  {
    hide Cell, Area;
    if y < rows { CellBound(rows, cols, y, x); }
  }
}
