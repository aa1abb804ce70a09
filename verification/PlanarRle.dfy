/** Run-length coded colour planes with line-to-line deltas (libfreerdp-codec/bitmap.c; section 2.2.2.5.1 of
    [MS-RDPEGDI]). */
module PlanarRle {
  import opened Words
  import opened Grid

  // ---- Deltas ----

  /** The zig-zag byte read as a signed delta. */
  function Unzigzag(b: byte): int { if b % 2 == 1 then 0 - (b / 2 + 1) else b / 2 }

  function Zigzag(d: int): byte
    requires -128 <= d <= 127
  {
    if d < 0 then 0 - 2 * d - 1 else 2 * d
  }

  lemma ZigzagRoundTrip(d: int)
    requires -128 <= d <= 127
    ensures Unzigzag(Zigzag(d)) == d
  {
  }

  /** Even bytes are the deltas from 0 up, odd ones those from -1 down. */
  lemma ZigzagOrder(k: nat)
    requires k < 128
    ensures Unzigzag(2 * k) == k && Unzigzag(2 * k + 1) == -1 - k as int
  {
  }

  /** The delta from one pixel to the one below it, modulo 256. */
  function Delta(above: byte, pixel: byte): (d: int)
    ensures -128 <= d <= 127 && ToU8(above as int + d) == pixel
  {
    (pixel as int - above as int + 128) % 256 - 128
  }

  // ---- Segments of a line ----

  /** Raw colours followed by a run of the last colour, or a long run. */
  datatype Segment = Mixed(colors: seq<int>, run: nat) | Long(run: nat)

  /** A colour is a byte on the first line and a signed delta on the others. */
  predicate Color(delta: bool, c: int) { if delta then -128 <= c <= 127 else 0 <= c <= 255 }

  predicate ValidSegment(delta: bool, s: Segment)
  {
    match s
    case Mixed(colors, run) =>
      && |colors| <= 15 && (run == 0 || 3 <= run <= 15) && |colors| + run > 0
      && forall i :: 0 <= i < |colors| ==> Color(delta, colors[i])
    case Long(run) => 16 <= run <= 47
  }

  function ColorByte(delta: bool, c: int): byte
    requires Color(delta, c)
  {
    if delta then Zigzag(c) else c
  }

  function ReadColor(delta: bool, b: byte): int { if delta then Unzigzag(b) else b }

  function Code(s: Segment): byte
    requires ValidSegment(false, s) || ValidSegment(true, s)
  {
    match s
    case Mixed(colors, run) => 16 * |colors| + run
    case Long(run) => 16 * (run % 16) + run / 16
  }

  function RawBytes(delta: bool, colors: seq<int>): (b: seq<byte>)
    requires forall i :: 0 <= i < |colors| ==> Color(delta, colors[i])
    ensures |b| == |colors|
  {
    seq(|colors|, i requires 0 <= i < |colors| => ColorByte(delta, colors[i]))
  }

  function SegmentBytes(delta: bool, s: Segment): seq<byte>
    requires ValidSegment(delta, s)
  {
    [Code(s)] + (if s.Mixed? then RawBytes(delta, s.colors) else [])
  }

  function Repeat(c: int, n: nat): (r: seq<int>)
    ensures |r| == n
  {
    seq(n, _ => c)
  }

  function LastColor(s: Segment, color: int): int
  {
    if s.Mixed? && s.colors != [] then s.colors[|s.colors| - 1] else color
  }

  function ExpandOne(s: Segment, color: int): seq<int>
  {
    (if s.Mixed? then s.colors else []) + Repeat(LastColor(s, color), s.run)
  }

  /** The colours of a line, from the colour the last segment left. */
  function Expand(segs: seq<Segment>, color: int): seq<int>
  {
    if segs == [] then [] else ExpandOne(segs[0], color) + Expand(segs[1..], LastColor(segs[0], color))
  }

  predicate ValidLine(delta: bool, segs: seq<Segment>) { forall i :: 0 <= i < |segs| ==> ValidSegment(delta, segs[i]) }

  function LineBytes(delta: bool, segs: seq<Segment>): seq<byte>
    requires ValidLine(delta, segs)
  {
    if segs == [] then [] else SegmentBytes(delta, segs[0]) + LineBytes(delta, segs[1..])
  }

  // ---- Planes ----

  type Row = seq<byte>

  /** The colours that make up row j: its bytes, or its deltas to the row above. */
  function RowColors(rows: seq<Row>, j: nat, width: nat): (c: seq<int>)
    requires j < |rows| && forall k :: 0 <= k < |rows| ==> |rows[k]| == width
    ensures |c| == width
  {
    seq(width, x requires 0 <= x < width => if j == 0 then rows[0][x] else Delta(rows[j - 1][x], rows[j][x]))
  }

  /** The segments of every line expand to the row's colours. */
  predicate Codes(segs: seq<seq<Segment>>, rows: seq<Row>, width: nat)
  {
    && |segs| == |rows| && (forall k :: 0 <= k < |rows| ==> |rows[k]| == width)
    && forall j :: 0 <= j < |rows| ==> ValidLine(j > 0, segs[j]) && Expand(segs[j], 0) == RowColors(rows, j, width)
  }

  /** The lines from j on. */
  function PlaneBytes(segs: seq<seq<Segment>>, j: nat): seq<byte>
    requires j <= |segs| && forall k :: 0 <= k < |segs| ==> ValidLine(k > 0, segs[k])
    decreases |segs| - j
  {
    if j == |segs| then [] else LineBytes(j > 0, segs[j]) + PlaneBytes(segs, j + 1)
  }

  /** Raw segments of up to fifteen colours: every line has a code. */
  function RawSegments(colors: seq<int>): seq<Segment>
    decreases |colors|
  {
    if colors == [] then []
    else if |colors| <= 15 then [Mixed(colors, 0)]
    else [Mixed(colors[..15], 0)] + RawSegments(colors[15..])
  }

  lemma {:induction false} RawSegmentsCode(delta: bool, colors: seq<int>, color: int)
    requires forall i :: 0 <= i < |colors| ==> Color(delta, colors[i])
    ensures ValidLine(delta, RawSegments(colors)) && Expand(RawSegments(colors), color) == colors
    decreases |colors|
  {
    if colors != [] {
      var s := RawSegments(colors);
      if |colors| <= 15 {
        assert s[1..] == [];
        assert Expand([], LastColor(s[0], color)) == [];
        assert Repeat(LastColor(s[0], color), 0) == [];
        assert colors + [] == colors;
      } else {
        RawSegmentsCode(delta, colors[15..], colors[14]);
        assert s[1..] == RawSegments(colors[15..]);
        assert Repeat(colors[14], 0) == [];
        assert colors[..15] + [] + colors[15..] == colors;
      }
    }
  }

  /** Every plane has a code. */
  lemma EveryPlaneCoded(rows: seq<Row>, width: nat) returns (segs: seq<seq<Segment>>)
    requires forall k :: 0 <= k < |rows| ==> |rows[k]| == width
    ensures Codes(segs, rows, width)
  {
    segs := seq(|rows|, j requires 0 <= j < |rows| => RawSegments(RowColors(rows, j, width)));
    forall j | 0 <= j < |rows| ensures ValidLine(j > 0, segs[j]) && Expand(segs[j], 0) == RowColors(rows, j, width) {
      RawSegmentsCode(j > 0, RowColors(rows, j, width), 0);
    }
  }
}
