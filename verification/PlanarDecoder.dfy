/** The plane decoder: nested loops over lines, segments and pixels (libfreerdp-codec/bitmap.c). */
module PlanarDecoder {
  import opened Words
  import opened Grid
  import opened PlanarRle

  /** What a colour makes of the pixel above it. */
  function Pixel(delta: bool, above: Row, c: int, i: nat): byte
    requires delta ==> i < |above|
  {
    if delta then ToU8(above[i] as int + c) else ToU8(c)
  }

  /** The line being written, and the line above it when there is one. */
  datatype Place = Place(line: nat, last: nat, delta: bool, above: Row, colors: seq<int>)

  ghost predicate Fits(s: seq<byte>, l: Place)
  {
    && l.line + |l.colors| <= |s|
    && (l.delta ==>
          |l.above| == |l.colors| && l.last + |l.colors| <= l.line && s[l.last..l.last + |l.colors|] == l.above)
  }

  /** The first n pixels of the line. */
  ghost predicate Drawn(s: seq<byte>, l: Place, n: nat)
    requires Fits(s, l)
  {
    n <= |l.colors| && forall i :: 0 <= i < n ==> s[l.line + i] == Pixel(l.delta, l.above, l.colors[i], i)
  }

  /** Only the line differs. */
  ghost predicate Elsewhere(s: seq<byte>, t: seq<byte>, l: Place)
  {
    |t| == |s| && forall i :: 0 <= i < |s| && !(l.line <= i < l.line + |l.colors|) ==> t[i] == s[i]
  }

  method PutPixel(out: array<byte>, n: nat, color: int, ghost l: Place, line: nat, last: nat, delta: bool)
    requires Fits(out[..], l) && line == l.line && last == l.last && delta == l.delta
    requires n < |l.colors| && color == l.colors[n] && Drawn(out[..], l, n)
    modifies out
    ensures Fits(out[..], l) && Drawn(out[..], l, n + 1) && Elsewhere(old(out[..]), out[..], l)
  {
    ghost var s := out[..];
    if delta {
      assert s[last..last + |l.colors|][n] == l.above[n];
      out[line + n] := ToU8(out[last + n] as int + color);
    } else {
      out[line + n] := ToU8(color);
    }
    assert delta ==> out[last..last + |l.colors|] == s[last..last + |l.colors|];
  }

  lemma ElsewhereTwice(s: seq<byte>, m: seq<byte>, t: seq<byte>, l: Place)
    requires Elsewhere(s, m, l) && Elsewhere(m, t, l)
    ensures Elsewhere(s, t, l)
  {
  }

  /** The raw colours of a segment, read from p on. */
  method RawPixels(input: array<byte>, p: nat, collen: nat, out: array<byte>, indexw: nat, color0: int,
                   line: nat, last: nat, delta: bool, ghost l: Place, ghost raw: seq<int>)
    returns (color: int)
    requires input != out && Fits(out[..], l) && line == l.line && last == l.last && delta == l.delta
    requires |raw| == collen && forall i :: 0 <= i < collen ==> Color(delta, raw[i])
    requires p + collen <= input.Length && forall i :: 0 <= i < collen ==> input[p + i] == ColorByte(delta, raw[i])
    requires indexw + collen <= |l.colors| && forall i :: 0 <= i < collen ==> l.colors[indexw + i] == raw[i]
    requires Drawn(out[..], l, indexw)
    modifies out
    ensures Fits(out[..], l) && Drawn(out[..], l, indexw + collen) && Elsewhere(old(out[..]), out[..], l)
    ensures color == if collen > 0 then raw[collen - 1] else color0
  {
    hide Fits, Drawn, Elsewhere, ColorByte;
    color := color0;
    ElsewhereSelf(out[..], l);
    var k := 0;
    while k < collen
      invariant 0 <= k <= collen && Fits(out[..], l) && Drawn(out[..], l, indexw + k)
          && Elsewhere(old(out[..]), out[..], l)
      invariant color == if k > 0 then raw[k - 1] else color0
      invariant forall i :: 0 <= i < collen ==> input[p + i] == ColorByte(delta, raw[i])
    {
      ghost var s := out[..];
      ColorBack(delta, raw[k]);
      color := ReadColor(delta, input[p + k]);
      PutPixel(out, indexw + k, color, l, line, last, delta);
      ElsewhereTwice(old(out[..]), s, out[..], l);
      k := k + 1;
    }
  }

  lemma ColorBack(delta: bool, c: int)
    requires Color(delta, c)
    ensures ReadColor(delta, ColorByte(delta, c)) == c
  {
    if delta { ZigzagRoundTrip(c); }
  }

  lemma ElsewhereSelf(s: seq<byte>, l: Place)
    ensures Elsewhere(s, s, l)
  {
  }

  method RunPixels(out: array<byte>, replen: nat, indexw: nat, color: int, line: nat, last: nat, delta: bool,
      ghost l: Place)
    requires Fits(out[..], l) && line == l.line && last == l.last && delta == l.delta
    requires indexw + replen <= |l.colors| && forall i :: indexw <= i < indexw + replen ==> l.colors[i] == color
    requires Drawn(out[..], l, indexw)
    modifies out
    ensures Fits(out[..], l) && Drawn(out[..], l, indexw + replen) && Elsewhere(old(out[..]), out[..], l)
  {
    hide Fits, Drawn, Elsewhere;
    ElsewhereSelf(out[..], l);
    var k := 0;
    while k < replen
      invariant 0 <= k <= replen && Fits(out[..], l) && Drawn(out[..], l, indexw + k)
          && Elsewhere(old(out[..]), out[..], l)
    {
      ghost var s := out[..];
      PutPixel(out, indexw + k, color, l, line, last, delta);
      ElsewhereTwice(old(out[..]), s, out[..], l);
      k := k + 1;
    }
  }

  /** The control byte: raw count and run, or a long run when the low nibble is 1 or 2. */
  lemma CodeRead(delta: bool, s: Segment)
    requires ValidSegment(delta, s)
    ensures var code := Code(s);
            var replen, collen := code % 16, code / 16;
            var revcode := 16 * replen + collen;
            if 16 <= revcode <= 47 then s == Long(revcode) else s.Mixed? && |s.colors| == collen && s.run == replen
  {
    match s {
      case Mixed(colors, run) =>
        assert (16 * |colors| + run) % 16 == run && (16 * |colors| + run) / 16 == |colors|;
      case Long(run) =>
        assert (16 * (run % 16) + run / 16) % 16 == run / 16 && (16 * (run % 16) + run / 16) / 16 == run % 16;
    }
  }

  /** One segment: the bytes at p are those of seg and the colours from indexw on are what it expands to. */
  method DecodeSegment(input: array<byte>, p: nat, out: array<byte>, indexw: nat, color: int, line: nat, last: nat,
      delta: bool,
                       ghost l: Place, ghost seg: Segment)
    returns (p': nat, indexw': nat, color': int)
    requires input != out && Fits(out[..], l) && line == l.line && last == l.last && delta == l.delta
        && ValidSegment(delta, seg)
    requires p < input.Length && SegmentBytes(delta, seg) <= input[p..]
    requires indexw <= |l.colors| && ExpandOne(seg, color) <= l.colors[indexw..] && Drawn(out[..], l, indexw)
    modifies out
    ensures Fits(out[..], l) && Elsewhere(old(out[..]), out[..], l)
    ensures p' == p + |SegmentBytes(delta, seg)| <= input.Length
    ensures indexw' == indexw + |ExpandOne(seg, color)| <= |l.colors| && Drawn(out[..], l, indexw')
    ensures color' == LastColor(seg, color)
  {
    hide Fits, Drawn, Elsewhere, ColorByte, ValidSegment, ExpandOne, SegmentBytes, LastColor, Color;
    ghost var before, raw := out[..], Raw(seg);
    RawParts(delta, seg, input[..], p, l.colors, indexw, color);
    var replen, collen := ReadCode(input, p, delta, seg);
    color' := RawPixels(input, p + 1, collen, out, indexw, color, line, last, delta, l, raw);
    ghost var mid := out[..];
    RunPixels(out, replen, indexw + collen, color', line, last, delta, l);
    ElsewhereTwice(before, mid, out[..], l);
    p', indexw' := p + 1 + collen, indexw + collen + replen;
  }

  ghost function Raw(s: Segment): seq<int> { if s.Mixed? then s.colors else [] }

  method ReadCode(input: array<byte>, p: nat, delta: bool, ghost seg: Segment) returns (replen: nat, collen: nat)
    requires ValidSegment(delta, seg) && p < input.Length && SegmentBytes(delta, seg) <= input[p..]
    ensures replen == seg.run && collen == |Raw(seg)|
  {
    hide Code, RawBytes, ValidSegment;
    assert input[p..][0] == SegmentBytes(delta, seg)[0];
    var code := input[p];
    CodeRead(delta, seg);
    replen, collen := code % 16, code / 16;
    var revcode := 16 * replen + collen;
    if 16 <= revcode <= 47 {
      replen, collen := revcode, 0;
    }
  }

  lemma RawParts(delta: bool, seg: Segment, input: seq<byte>, p: nat, colors: seq<int>, indexw: nat, color: int)
    requires ValidSegment(delta, seg) && p < |input| && SegmentBytes(delta, seg) <= input[p..]
    requires indexw <= |colors| && ExpandOne(seg, color) <= colors[indexw..]
    ensures var raw := Raw(seg);
            && (forall i :: 0 <= i < |raw| ==> Color(delta, raw[i]))
            && p + 1 + |raw| <= |input| && indexw + |raw| + seg.run <= |colors|
            && (forall i :: 0 <= i < |raw| ==> input[p + 1 + i] == ColorByte(delta, raw[i]))
            && (forall i :: 0 <= i < |raw| ==> colors[indexw + i] == raw[i])
            && (forall i :: indexw + |raw| <= i < indexw + |raw| + seg.run ==> colors[i] == LastColor(seg, color))
            && |SegmentBytes(delta, seg)| == 1 + |raw| && |ExpandOne(seg, color)| == |raw| + seg.run
            && LastColor(seg, color) == if |raw| > 0 then raw[|raw| - 1] else color
  {
    hide Code, ColorByte;
    var raw := Raw(seg);
    var sb, e := SegmentBytes(delta, seg), ExpandOne(seg, color);
    forall i | 0 <= i < |raw| ensures input[p + 1 + i] == ColorByte(delta, raw[i]) {
      assert input[p..][1 + i] == sb[1 + i];
    }
    forall i | 0 <= i < |e| ensures colors[indexw + i] == e[i] {
      assert colors[indexw..][i] == e[i];
    }
    forall i | indexw + |raw| <= i < indexw + |raw| + seg.run ensures colors[i] == LastColor(seg, color) {
      assert colors[indexw + (i - indexw)] == e[i - indexw];
    }
  }

  lemma ValidNonEmpty(delta: bool, s: Segment, color: int)
    requires ValidSegment(delta, s)
    ensures |ExpandOne(s, color)| > 0
  {
  }

  /** The first segment of a line lies at the front of the bytes and of the colours. */
  lemma SplitLine(delta: bool, segs: seq<Segment>, bytes: seq<byte>, colors: seq<int>, color: int)
    requires segs != [] && ValidLine(delta, segs) && LineBytes(delta, segs) <= bytes && colors == Expand(segs, color)
    ensures var s := segs[0];
            var n, m := |SegmentBytes(delta, s)|, |ExpandOne(s, color)|;
            && ValidSegment(delta, s) && ValidLine(delta, segs[1..]) && n <= |bytes| && 0 < m <= |colors| && n > 0
            && SegmentBytes(delta, s) <= bytes && LineBytes(delta, segs[1..]) <= bytes[n..]
            && ExpandOne(s, color) <= colors && colors[m..] == Expand(segs[1..], LastColor(s, color))
            && |LineBytes(delta, segs)| == n + |LineBytes(delta, segs[1..])|
  {
    hide SegmentBytes, ExpandOne, LastColor;
    SegmentNonEmpty(delta, segs[0]);
    ValidNonEmpty(delta, segs[0], color);
  }

  lemma SegmentNonEmpty(delta: bool, s: Segment)
    requires ValidSegment(delta, s)
    ensures |SegmentBytes(delta, s)| > 0
  {
  }

  /** One line: its segments fill it to exactly its width. */
  method DecodeLine(input: array<byte>, p0: nat, out: array<byte>, width: nat, line: nat, last: nat, delta: bool,
                    ghost l: Place, ghost segs: seq<Segment>)
    returns (p: nat)
    requires input != out && Fits(out[..], l) && line == l.line && last == l.last && delta == l.delta
        && width == |l.colors|
    requires p0 <= input.Length && ValidLine(delta, segs) && LineBytes(delta, segs) <= input[p0..]
        && Expand(segs, 0) == l.colors
    modifies out
    ensures Fits(out[..], l) && Drawn(out[..], l, width) && Elsewhere(old(out[..]), out[..], l)
    ensures p == p0 + |LineBytes(delta, segs)| <= input.Length
  {
    hide Fits, Drawn, Elsewhere, SegmentBytes, ExpandOne, LastColor, ValidLine, LineBytes, Expand;
    p := p0;
    var indexw, color := 0, 0;
    ghost var r, s := segs, out[..];
    LineStart(s, l);
    assert l.colors[0..] == l.colors;
    while indexw < width
      invariant p <= input.Length && indexw <= width && ValidLine(delta, r) && LineBytes(delta, r) <= input[p..]
      invariant l.colors[indexw..] == Expand(r, color) && p + |LineBytes(delta, r)| == p0 + |LineBytes(delta, segs)|
      invariant Fits(out[..], l) && Drawn(out[..], l, indexw) && Elsewhere(s, out[..], l)
      decreases width - indexw
    {
      NotDone(r, color);
      SplitLine(delta, r, input[p..], l.colors[indexw..], color);
      ghost var t, seg, p1, i1 := out[..], r[0], p, indexw;
      p, indexw, color := DecodeSegment(input, p, out, indexw, color, line, last, delta, l, seg);
      ElsewhereTwice(s, t, out[..], l);
      assert input[p1..][p - p1..] == input[p..] && l.colors[i1..][indexw - i1..] == l.colors[indexw..];
      r := r[1..];
    }
    AllDone(delta, r, color);
  }

  lemma LineStart(s: seq<byte>, l: Place)
    requires Fits(s, l)
    ensures Drawn(s, l, 0) && Elsewhere(s, s, l)
  {
  }

  lemma NotDone(r: seq<Segment>, color: int)
    requires |Expand(r, color)| > 0
    ensures r != []
  {
  }

  lemma AllDone(delta: bool, r: seq<Segment>, color: int)
    requires ValidLine(delta, r) && Expand(r, color) == []
    ensures LineBytes(delta, r) == []
  {
    hide ExpandOne;
    if r != [] { ValidNonEmpty(delta, r[0], color); }
  }

  // ---- The plane ----

  ghost predicate RowAt(s: seq<byte>, rows: seq<Row>, k: nat, width: nat)
    requires k < |rows|
  {
    var o := Cell(k, 0, width);
    o + width <= |s| && s[o..o + width] == rows[k]
  }

  /** The first n rows of the plane. */
  ghost predicate RowsDone(s: seq<byte>, rows: seq<Row>, n: nat, width: nat)
  {
    n <= |rows| && forall k :: 0 <= k < n ==> RowAt(s, rows, k, width)
  }

  ghost function PlaceOf(rows: seq<Row>, j: nat, width: nat): Place
    requires j < |rows| && forall k :: 0 <= k < |rows| ==> |rows[k]| == width
  {
    Place(Cell(j, 0, width), if j > 0 then Cell(j - 1, 0, width) else 0, j > 0, if j > 0 then rows[j - 1] else [],
        RowColors(rows, j, width))
  }

  lemma PlaceFits(s: seq<byte>, rows: seq<Row>, j: nat, width: nat)
    requires j < |rows| && (forall k :: 0 <= k < |rows| ==> |rows[k]| == width)
    requires RowsDone(s, rows, j, width) && Area(|rows|, width) <= |s|
    ensures Fits(s, PlaceOf(rows, j, width))
  {
    hide Cell, Area, RowColors;
    RowsFit(|rows|, width);
    if j > 0 {
      assert RowAt(s, rows, j - 1, width);
      CellNextRow(j - 1, 0, width);
    }
  }

  /** A drawn line is the row, since the colours are its bytes or its deltas. */
  lemma RowDrawn(s: seq<byte>, t: seq<byte>, rows: seq<Row>, j: nat, width: nat)
    requires j < |rows| && (forall k :: 0 <= k < |rows| ==> |rows[k]| == width) && RowsDone(s, rows, j, width)
    requires var l := PlaceOf(rows, j, width);
             Fits(t, l) && Drawn(t, l, width) && Elsewhere(s, t, l)
    ensures RowsDone(t, rows, j + 1, width)
  {
    hide Cell, Fits, Drawn, Elsewhere, RowColors;
    LineIsRow(t, rows, j, width);
    forall k | 0 <= k < j ensures RowAt(t, rows, k, width) {
      assert RowAt(s, rows, k, width);
      OtherRowKept(s, t, rows, j, k, width);
    }
  }

  lemma LineIsRow(t: seq<byte>, rows: seq<Row>, j: nat, width: nat)
    requires j < |rows| && (forall k :: 0 <= k < |rows| ==> |rows[k]| == width)
    requires var l := PlaceOf(rows, j, width); Fits(t, l) && Drawn(t, l, width)
    ensures RowAt(t, rows, j, width)
  {
    hide Cell, Delta;
    var l, o := PlaceOf(rows, j, width), Cell(j, 0, width);
    forall i | 0 <= i < width ensures t[o..o + width][i] == rows[j][i] {
      assert t[l.line + i] == Pixel(l.delta, l.above, l.colors[i], i);
    }
  }

  lemma OtherRowKept(s: seq<byte>, t: seq<byte>, rows: seq<Row>, j: nat, k: nat, width: nat)
    requires k < j < |rows| && (forall k :: 0 <= k < |rows| ==> |rows[k]| == width) && RowAt(s, rows, k, width)
    requires Elsewhere(s, t, PlaceOf(rows, j, width))
    ensures RowAt(t, rows, k, width)
  {
    hide Cell, RowColors;
    CellOrder(k, j, width);
    var q := Cell(k, 0, width);
    assert t[q..q + width] == s[q..q + width];
  }

  /** Main result: for every plane and every code of it, the decoder restores the rows, leaves the rest of the output
      alone and reports exactly the bytes of the code, whatever follows them. */
  method ProcessRlePlane(input: array<byte>, width: nat, height: nat, out: array<byte>,
                         ghost rows: seq<Row>, ghost segs: seq<seq<Segment>>)
    returns (processed: nat)
    requires input != out && Codes(segs, rows, width) && |rows| == height && PlaneBytes(segs, 0) <= input[..]
    requires Area(height, width) <= out.Length
    modifies out
    ensures processed == |PlaneBytes(segs, 0)| <= input.Length
    ensures RowsDone(out[..], rows, height, width)
    ensures out[Area(height, width)..] == old(out[Area(height, width)..])
  {
    hide Cell, Area, RowsDone, Fits, Drawn, Elsewhere, LineBytes, Expand, RowColors, ValidLine, PlaneBytes;
    RowsStart(out[..], rows, width);
    ghost var rest := out[Area(height, width)..];
    assert input[0..] == input[..];
    var p, indexh := 0, 0;
    while indexh < height
      invariant 0 <= indexh <= height && p <= input.Length && RowsDone(out[..], rows, indexh, width)
      invariant PlaneBytes(segs, indexh) <= input[p..] && p + |PlaneBytes(segs, indexh)| == |PlaneBytes(segs, 0)|
      invariant out[Area(height, width)..] == rest
    {
      ghost var s, l, p1 := out[..], PlaceOf(rows, indexh, width), p;
      PlaceFits(s, rows, indexh, width);
      SplitPlane(segs, indexh, input[p..]);
      var last := if indexh > 0 then Cell(indexh - 1, 0, width) else 0;
      p := DecodeLine(input, p, out, width, Cell(indexh, 0, width), last, indexh > 0, l, segs[indexh]);
      RowDrawn(s, out[..], rows, indexh, width);
      RestKept(s, out[..], rows, indexh, width);
      assert input[p1..][p - p1..] == input[p..];
      indexh := indexh + 1;
    }
    NoLines(segs);
    processed := p;
  }

  lemma NoLines(segs: seq<seq<Segment>>)
    requires forall k :: 0 <= k < |segs| ==> ValidLine(k > 0, segs[k])
    ensures PlaneBytes(segs, |segs|) == []
  {
  }

  lemma RowsStart(s: seq<byte>, rows: seq<Row>, width: nat)
    ensures RowsDone(s, rows, 0, width)
  {
  }

  lemma SplitPlane(segs: seq<seq<Segment>>, j: nat, bytes: seq<byte>)
    requires j < |segs| && (forall k :: 0 <= k < |segs| ==> ValidLine(k > 0, segs[k])) && PlaneBytes(segs, j) <= bytes
    ensures var n := |LineBytes(j > 0, segs[j])|;
            && n <= |bytes| && LineBytes(j > 0, segs[j]) <= bytes && PlaneBytes(segs, j + 1) <= bytes[n..]
            && |PlaneBytes(segs, j)| == n + |PlaneBytes(segs, j + 1)|
  {
    hide LineBytes, ValidLine;
  }

  lemma RestKept(s: seq<byte>, t: seq<byte>, rows: seq<Row>, j: nat, width: nat)
    requires j < |rows| && (forall k :: 0 <= k < |rows| ==> |rows[k]| == width) && Area(|rows|, width) <= |s|
    requires Elsewhere(s, t, PlaceOf(rows, j, width))
    ensures |t| == |s| && t[Area(|rows|, width)..] == s[Area(|rows|, width)..]
  {
    hide Cell, Area;
    RowsFit(|rows|, width);
  }
}
