/** From decompressed NSCodec planes to RGB planes (libfreerdp-codec/nsc.c). */
module Nsc {
  import opened Words
  import opened Grid
  import opened Masks
  import opened NscPlane
  import opened NscScaling
  import opened NscChroma

  // ---- One pixel ----

  function Half(x: int): int { x / 2 }

  function Red(y: int, co: int, cg: int): int { y + Half(co) - Half(cg) }

  function Green(y: int, co: int, cg: int): int { y + Half(cg) }

  function Blue(y: int, co: int, cg: int): int { y - Half(co) - Half(cg) }

  function Clamp(v: int): byte { if v < 0 then 0 else if v > 255 then 255 else v }

  /** The value kept when the high byte of the 16-bit sum is 0xff, 1 or anything else. */
  function HighByteTest(v: int): byte
  {
    var tmp := ToU8(Shr(v, 8));
    if tmp == 0xff then 0 else if tmp == 1 then 0xff else ToU8(v)
  }

  /** On the sums of 9-bit samples the high-byte test is a true clamp; it is not one beyond. */
  lemma HighByteClamps(v: int)
    requires -256 <= v <= 511
    ensures HighByteTest(v) == Clamp(v)
  {
    hide Shr, LowBits, Shl;
    ShrLow(v, 8);
    ShlIsTimes(Shr(v, 8), 8);
    Pow2Values();
  }

  lemma SumsInRange(y: byte, co: int, cg: int)
    requires -256 <= co <= 255 && -256 <= cg <= 255
    ensures -256 <= Red(y, co, cg) <= 511 && -256 <= Green(y, co, cg) <= 511 && -256 <= Blue(y, co, cg) <= 511
  {
  }

  /** What one pixel's three planes hold after conversion. */
  ghost predicate Converted(r: byte, g: byte, b: byte, y: int, co: int, cg: int)
  {
    r == Clamp(Red(y, co, cg)) && g == Clamp(Green(y, co, cg)) && b == Clamp(Blue(y, co, cg))
  }

  /** The sums behind the clamp, by what they say of each other: red and blue differ by the orange sample without its
      low bit, green and luma by half of the green one, and red and blue lie around luma less that half. */
  predicate Balanced(red: int, grn: int, blu: int, y: int, co: int, cg: int)
  {
    red - blu == 2 * (co / 2) && grn - y == cg / 2 && red + blu == 2 * (y - cg / 2)
  }

  /** A pixel holds the sums that balance, clamped. */
  ghost predicate Coloured(r: byte, g: byte, b: byte, y: int, co: int, cg: int)
  {
    exists red: int, grn: int, blu: int :: Balanced(red, grn, blu, y, co, cg) && ClampedTo(r, red)
        && ClampedTo(g, grn) && ClampedTo(b, blu)
  }

  predicate ClampedTo(r: byte, v: int)
  {
    (0 <= v <= 255 ==> r == v) && (v < 0 ==> r == 0) && (v > 255 ==> r == 255)
  }

  lemma ConvertedIff(r: byte, g: byte, b: byte, y: int, co: int, cg: int)
    ensures Converted(r, g, b, y, co, cg) <==> Coloured(r, g, b, y, co, cg)
  {
    var red, grn, blu := Red(y, co, cg), Green(y, co, cg), Blue(y, co, cg);
    assert Balanced(red, grn, blu, y, co, cg);
    if Converted(r, g, b, y, co, cg) {
      assert ClampedTo(r, red) && ClampedTo(g, grn) && ClampedTo(b, blu);
    }
  }

  /** The forward transform of a colour, whose inverse the decoder computes. */
  function LumaOf(r: int, g: int, b: int): int { (r + 2 * g + b) / 4 }

  function OrangeOf(r: int, g: int, b: int): int { r - b }

  function GreenOf(r: int, g: int, b: int): int { (2 * g - r - b) / 2 }

  /** For every colour, what the rounding of the forward transform leaves of it. */
  lemma ColourBack(r: byte, g: byte, b: byte)
    ensures var y, co, cg, m := LumaOf(r, g, b), OrangeOf(r, g, b), GreenOf(r, g, b),
        (r as int + 2 * g as int + b as int) % 4;
            && Red(y, co, cg) == r as int - (if m == 3 then 1 else 0)
            && Green(y, co, cg) == g as int - (if m == 0 then 0 else 1)
            && Blue(y, co, cg) == b as int + (if m == 1 then 1 else 0)
  {
    var a := r as int + 2 * g as int + b as int;
    var q, m := a / 4, a % 4;
    assert a == 4 * q + m;
    assert Half(GreenOf(r, g, b)) == if m == 0 then g - q else g - q - 1;
  }

  /** A colour comes back exactly when its sum is a multiple of four. */
  lemma ColourExactIff(r: byte, g: byte, b: byte)
    ensures var y, co, cg := LumaOf(r, g, b), OrangeOf(r, g, b), GreenOf(r, g, b);
            && (Red(y, co, cg) == r && Green(y, co, cg) == g && Blue(y, co, cg) == b
                <==> (r as int + 2 * g as int + b as int) % 4 == 0)
            && ((r as int + 2 * g as int + b as int) % 4 == 0 ==> Converted(r, g, b, y, co, cg))
  {
    hide Red, Green, Blue, LumaOf, OrangeOf, GreenOf;
    ColourBack(r, g, b);
  }

  method ReadSample(data: array<byte>, n: nat, k: nat) returns (v: int)
    requires Plane(data[..], n) && k < n
    ensures v == Sample(data[..], n, k) && -256 <= v <= 255
  {
    hide Shr;
    var sign := Shr(data[n + k / 8], 7 - k % 8) % 2;
    v := data[k] as int - 256 * sign;
  }

  ghost predicate AllConverted(r: seq<byte>, g: seq<byte>, b: seq<byte>, l: seq<byte>, so: seq<byte>, sg: seq<byte>,
      n: nat)
  {
    && Plane(so, n) && Plane(sg, n) && n <= |r| && n <= |l| && |g| == |so| && |b| == |sg|
    && forall k :: 0 <= k < n ==> Converted(r[k], g[k], b[k], l[k], Sample(so, n, k), Sample(sg, n, k))
  }

  /** The planes are converted in place, sample by sample. */
  method YcocgToRgb(luma: array<byte>, orange: array<byte>, green: array<byte>, size: nat)
    requires luma != orange && luma != green && orange != green && 0 < size <= luma.Length
    requires Plane(orange[..], size) && Plane(green[..], size)
    modifies luma, orange, green
    ensures AllConverted(luma[..], orange[..], green[..], old(luma[..]), old(orange[..]), old(green[..]), size)
    ensures forall k :: 0 <= k < size ==>
              Coloured(luma[k], orange[k], green[k], old(luma[k]), old(Sample(orange[..], size, k)),
                  old(Sample(green[..], size, k)))
  {
    hide SignAt, Converted, Coloured, Sample;
    var k := 0;
    while k < size
      invariant 0 <= k <= size && Plane(orange[..], size) && Plane(green[..], size)
      invariant forall j :: k <= j < luma.Length ==> luma[j] == old(luma[j])
      invariant forall j :: k <= j < orange.Length ==> orange[j] == old(orange[j])
      invariant forall j :: k <= j < green.Length ==> green[j] == old(green[j])
      invariant forall j :: 0 <= j < k ==>
                  Converted(luma[j], orange[j], green[j], old(luma[j]), old(Sample(orange[..], size, j)),
                      old(Sample(green[..], size, j)))
    {
      SameSample(old(orange[..]), orange[..], size, k);
      SameSample(old(green[..]), green[..], size, k);
      ConvertPixel(luma, orange, green, size, k);
      k := k + 1;
    }
    forall j | 0 <= j < size
      ensures Coloured(luma[j], orange[j], green[j], old(luma[j]), old(Sample(orange[..], size, j)),
                  old(Sample(green[..], size, j)))
    {
      ConvertedIff(luma[j], orange[j], green[j], old(luma[j]), old(Sample(orange[..], size, j)),
          old(Sample(green[..], size, j)));
    }
  }

  lemma SameSample(s: seq<byte>, t: seq<byte>, n: nat, k: nat)
    requires Plane(s, n) && |t| == |s| && k < n && forall j :: k <= j < |s| ==> t[j] == s[j]
    ensures Sample(t, n, k) == Sample(s, n, k)
  {
    hide Bit;
  }

  method ConvertPixel(luma: array<byte>, orange: array<byte>, green: array<byte>, size: nat, k: nat)
    requires luma != orange && luma != green && orange != green && k < size <= luma.Length
    requires Plane(orange[..], size) && Plane(green[..], size)
    modifies luma, orange, green
    ensures Converted(luma[k], orange[k], green[k], old(luma[k]), old(Sample(orange[..], size, k)),
        old(Sample(green[..], size, k)))
    ensures forall j :: 0 <= j < luma.Length && j != k ==> luma[j] == old(luma[j])
    ensures forall j :: 0 <= j < orange.Length && j != k ==> orange[j] == old(orange[j])
    ensures forall j :: 0 <= j < green.Length && j != k ==> green[j] == old(green[j])
  {
    hide SignAt, HighByteTest, Red, Green, Blue, Clamp;
    var y := luma[k];
    var co := ReadSample(orange, size, k);
    var cg := ReadSample(green, size, k);
    SumsInRange(y, co, cg);
    HighByteClamps(Red(y, co, cg));
    HighByteClamps(Green(y, co, cg));
    HighByteClamps(Blue(y, co, cg));
    luma[k] := HighByteTest(Red(y, co, cg));
    orange[k] := HighByteTest(Green(y, co, cg));
    green[k] := HighByteTest(Blue(y, co, cg));
  }

  // ---- The context ----

  /** Samples of the luma plane and of a chroma plane as transmitted. */
  function LumaCount(w: nat, h: nat, level: nat): nat { if level > 0 then Area(h, RoundUp(w, 8)) else Area(h, w) }

  function ChromaCount(w: nat, h: nat, level: nat): nat
  {
    if level > 0 then Area(ChromaHeight(h), ChromaWidth(w)) else Area(h, w)
  }

  /** Where the transmitted planes hold pixel (x, y). */
  function LumaIndex(w: nat, level: nat, y: nat, x: nat): nat
  {
    if level > 0 then Cell(y, x, RoundUp(w, 8)) else Cell(y, x, w)
  }

  function ChromaIndex(w: nat, level: nat, y: nat, x: nat): nat
  {
    if level > 0 then Cell(y / 2, x / 2, ChromaWidth(w)) else Cell(y, x, w)
  }

  /** Pixel (x, y) of the result in terms of the transmitted planes. */
  ghost predicate PixelIs(r: seq<byte>, g: seq<byte>, b: seq<byte>, lum: seq<byte>, co: seq<byte>, cg: seq<byte>,
                          w: nat, level: nat, shift: nat, y: nat, x: nat)
  {
    var k, i, j := Cell(y, x, w), LumaIndex(w, level, y, x), ChromaIndex(w, level, y, x);
    && k < |r| && k < |g| && k < |b| && i < |lum| && j < |co| && j < |cg|
    && Converted(r[k], g[k], b[k], lum[i], S9(Shl(co[j], shift)), S9(Shl(cg[j], shift)))
  }

  /** The planes before the conversion, given the transmitted ones. */
  ghost predicate PixelReady(l: seq<byte>, v: seq<int>, u: seq<int>, lum: seq<byte>, co: seq<byte>, cg: seq<byte>,
                             w: nat, level: nat, shift: nat, y: nat, x: nat)
  {
    var k, i, j := Cell(y, x, w), LumaIndex(w, level, y, x), ChromaIndex(w, level, y, x);
    && k < |l| && k < |v| && k < |u| && i < |lum| && j < |co| && j < |cg|
    && l[k] == lum[i] && v[k] == S9(Shl(co[j], shift)) && u[k] == S9(Shl(cg[j], shift))
  }

  class Context {
    const width: nat
    const height: nat
    const level: nat
    var lumaCount: nat
    var chromaCount: nat
    var luma: array<byte>
    var orange: array<byte>
    var green: array<byte>

    ghost predicate Distinct()
      reads this
    {
      luma != orange && luma != green && orange != green
    }

    /** The planes hold what was transmitted; the bit streams behind the chroma samples are clear. */
    ghost predicate Loaded(lum: seq<byte>, co: seq<byte>, cg: seq<byte>)
      reads this, luma, orange, green
    {
      && Distinct() && 0 < width && 0 < height
      && lumaCount == LumaCount(width, height, level) == |lum|
          && chromaCount == ChromaCount(width, height, level) == |co| == |cg|
      && luma[..] == lum && Chroma(orange[..], co) && Chroma(green[..], cg)
    }

    constructor (width: nat, height: nat, level: nat, lum: seq<byte>, co: seq<byte>, cg: seq<byte>)
      requires 0 < width <= 65528 && 0 < height < 65536
      requires |lum| == LumaCount(width, height, level) && |co| == |cg| == ChromaCount(width, height, level)
      ensures this.width == width && this.height == height && this.level == level && Loaded(lum, co, cg)
      ensures fresh(luma) && fresh(orange) && fresh(green)
    {
      this.width, this.height, this.level := width, height, level;
      lumaCount, chromaCount := |lum|, |co|;
      var total := |co| + SignBytes(|co|);
      luma := new byte[|lum|](i requires 0 <= i < |lum| => lum[i]);
      orange := new byte[total](i requires 0 <= i < total => if i < |co| then co[i] else 0);
      green := new byte[total](i requires 0 <= i < total => if i < |cg| then cg[i] else 0);
      new;
      assert luma[..] == lum;
    }

    /** Both chroma planes are widened to nine bits. */
    method ColorLossRecover(shift: nat, ghost lum: seq<byte>, ghost co: seq<byte>, ghost cg: seq<byte>)
      requires 1 <= shift <= 23 && Loaded(lum, co, cg) && 0 < chromaCount
      modifies orange, green
      ensures Plane(orange[..], chromaCount) && Plane(green[..], chromaCount) && luma[..] == lum
      ensures Samples(orange[..], chromaCount) == Widened(co, shift)
          && Samples(green[..], chromaCount) == Widened(cg, shift)
    {
      hide Samples, Area, RoundUp, ChromaHeight, ChromaWidth;
      ClExpand(orange, shift, chromaCount);
      ClExpand(green, shift, chromaCount);
      WidenedIs(old(orange[..]), co, shift);
      WidenedIs(old(green[..]), cg, shift);
    }

    /** All planes are brought to full size. */
    method ChromaSupersample()
      requires 0 < width && 0 < height && level > 0 && Distinct()
      requires luma.Length == lumaCount == LumaCount(width, height, level)
          && chromaCount == ChromaCount(width, height, level)
      requires Plane(orange[..], chromaCount) && Plane(green[..], chromaCount)
      modifies this`lumaCount, this`chromaCount, this`luma, this`orange, this`green
      ensures Distinct() && lumaCount == chromaCount == Area(height, width) == luma.Length
      ensures fresh(luma) && fresh(orange) && fresh(green)
      ensures Cropped(luma[..], old(luma[..]), width, height, RoundUp(width, 8), height, 0)
      ensures Plane(orange[..], chromaCount) && Plane(green[..], chromaCount)
      ensures Supersampled(Samples(orange[..], chromaCount), old(Samples(orange[..], chromaCount)), width, height)
      ensures Supersampled(Samples(green[..], chromaCount), old(Samples(green[..], chromaCount)), width, height)
    {
      hide Samples, Area, RoundUp, ChromaHeight, ChromaWidth, Plane, Supersampled, Cropped;
      var l := CropLuma(luma, width, height);
      var o := SupersampleChroma(orange, width, height);
      var g := SupersampleChroma(green, width, height);
      luma, orange, green := l, o, g;
      lumaCount, chromaCount := Area(height, width), Area(height, width);
    }

    /** The planes hold, at full size, the luma and the widened chroma of every pixel. */
    ghost predicate Ready(lum: seq<byte>, co: seq<byte>, cg: seq<byte>, shift: nat)
      reads this, luma, orange, green
    {
      var n := Area(height, width);
      && Distinct() && lumaCount == luma.Length == n && Plane(orange[..], n) && Plane(green[..], n)
      && AllReady(luma[..], Samples(orange[..], n), Samples(green[..], n), lum, co, cg, width, height, level, shift)
    }

    method Prepare(shift: nat, ghost lum: seq<byte>, ghost co: seq<byte>, ghost cg: seq<byte>)
      requires 1 <= shift <= 23 && Loaded(lum, co, cg)
      modifies this, orange, green
      ensures Ready(lum, co, cg, shift)
      ensures luma == old(luma) || fresh(luma)
      ensures orange == old(orange) || fresh(orange)
      ensures green == old(green) || fresh(green)
    {
      hide Samples, Area, RoundUp, ChromaHeight, ChromaWidth, Plane, Supersampled, Cropped, AllReady;
      CountsPositive(width, height, level);
      ColorLossRecover(shift, lum, co, cg);
      ghost var n := Area(height, width);
      if level > 0 {
        ChromaSupersample();
        ReadySub(luma[..], Samples(orange[..], n), Samples(green[..], n), lum, co, cg, width, height, level, shift);
      } else {
        ReadyFull(luma[..], Samples(orange[..], n), Samples(green[..], n), lum, co, cg, width, height, level, shift);
      }
    }

    /** Main result: for every size, every pixel of the three planes is the clamped colour of the luma sample at (x, y)
        and of the signed 9-bit values of the shifted chroma samples at (x / 2, y / 2). */
    method Process(shift: nat, ghost lum: seq<byte>, ghost co: seq<byte>, ghost cg: seq<byte>)
      requires 1 <= shift <= 23 && Loaded(lum, co, cg)
      modifies this, luma, orange, green
      ensures forall y: nat, x: nat :: y < height && x < width ==>
                PixelIs(luma[..], orange[..], green[..], lum, co, cg, width, level, shift, y, x)
    {
      hide Samples, Area, Plane, AllReady, PixelIs, AllConverted;
      CountsPositive(width, height, level);
      Prepare(shift, lum, co, cg);
      ghost var l, so, sg := luma[..], orange[..], green[..];
      YcocgToRgb(luma, orange, green, lumaCount);
      Finish(luma[..], orange[..], green[..], l, so, sg, lum, co, cg, width, height, level, shift);
    }
  }

  ghost predicate AllReady(l: seq<byte>, v: seq<int>, u: seq<int>, lum: seq<byte>, co: seq<byte>, cg: seq<byte>,
                           w: nat, h: nat, level: nat, shift: nat)
  {
    forall y: nat, x: nat :: y < h && x < w ==> PixelReady(l, v, u, lum, co, cg, w, level, shift, y, x)
  }

  ghost predicate Chroma(s: seq<byte>, c: seq<byte>)
  {
    |s| == |c| + SignBytes(|c|) && s[..|c|] == c && forall k :: |c| <= k < |s| ==> s[k] == 0
  }

  function Widened(c: seq<byte>, shift: nat): (v: seq<int>)
    ensures |v| == |c|
  {
    seq(|c|, k requires 0 <= k < |c| => S9(Shl(c[k], shift)))
  }

  lemma WidenedIs(s: seq<byte>, c: seq<byte>, shift: nat)
    requires Chroma(s, c)
    ensures Expanded(s, |c|, shift, |c|) == Widened(c, shift)
  {
    hide S9, Shl;
    assert forall k :: 0 <= k < |c| ==> s[k] == s[..|c|][k] == c[k];
  }

  lemma CountsPositive(w: nat, h: nat, level: nat)
    requires 0 < w && 0 < h
    ensures 0 < LumaCount(w, h, level) && 0 < ChromaCount(w, h, level) && 0 < Area(h, w)
  {
    hide Area, RoundUp, ChromaHeight, ChromaWidth, Cell;
    ChromaSizes(w, h);
    RoundUp8(w);
    CellBound(h, w, 0, 0);
    CellBound(h, RoundUp(w, 8), 0, 0);
    CellBound(ChromaHeight(h), ChromaWidth(w), 0, 0);
  }

  lemma ReadySub(l: seq<byte>, v: seq<int>, u: seq<int>, lum: seq<byte>, co: seq<byte>, cg: seq<byte>,
                 w: nat, h: nat, level: nat, shift: nat)
    requires level > 0 && Cropped(l, lum, w, h, RoundUp(w, 8), h, 0)
    requires Supersampled(v, Widened(co, shift), w, h) && Supersampled(u, Widened(cg, shift), w, h)
    ensures AllReady(l, v, u, lum, co, cg, w, h, level, shift)
  {
    hide Area, RoundUp, ChromaHeight, ChromaWidth, Cell, S9, Shl;
    forall y: nat, x: nat | y < h && x < w ensures PixelReady(l, v, u, lum, co, cg, w, level, shift, y, x) {
      assert Copied(l, lum, w, h, RoundUp(w, 8), y, x);
      assert SpreadAt(v, Widened(co, shift), w, h, y, x) && SpreadAt(u, Widened(cg, shift), w, h, y, x);
    }
  }

  lemma ReadyFull(l: seq<byte>, v: seq<int>, u: seq<int>, lum: seq<byte>, co: seq<byte>, cg: seq<byte>,
                  w: nat, h: nat, level: nat, shift: nat)
    requires level == 0 && l == lum && v == Widened(co, shift) && u == Widened(cg, shift)
    requires |l| == |v| == |u| == Area(h, w)
    ensures AllReady(l, v, u, lum, co, cg, w, h, level, shift)
  {
    hide Area, Cell, S9, Shl, RoundUp, ChromaWidth;
    CellBounds(h, w);
  }

  lemma Finish(r: seq<byte>, g: seq<byte>, b: seq<byte>, l: seq<byte>, so: seq<byte>, sg: seq<byte>,
               lum: seq<byte>, co: seq<byte>, cg: seq<byte>, w: nat, h: nat, level: nat, shift: nat)
    requires AllConverted(r, g, b, l, so, sg, Area(h, w))
    requires AllReady(l, Samples(so, Area(h, w)), Samples(sg, Area(h, w)), lum, co, cg, w, h, level, shift)
    ensures forall y: nat, x: nat :: y < h && x < w ==> PixelIs(r, g, b, lum, co, cg, w, level, shift, y, x)
  {
    hide Area, Cell, S9, Shl, RoundUp, ChromaWidth, Converted, LumaIndex, ChromaIndex, SignAt;
    CellBounds(h, w);
    forall y: nat, x: nat | y < h && x < w ensures PixelIs(r, g, b, lum, co, cg, w, level, shift, y, x) {
      assert PixelReady(l, Samples(so, Area(h, w)), Samples(sg, Area(h, w)), lum, co, cg, w, level, shift, y, x);
      var k := Cell(y, x, w);
      assert Samples(so, Area(h, w))[k] == Sample(so, Area(h, w), k);
      assert Samples(sg, Area(h, w))[k] == Sample(sg, Area(h, w), k);
    }
  }
}
