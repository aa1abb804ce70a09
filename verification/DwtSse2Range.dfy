/** Sample ranges for which the eight-lane drivers agree with the scalar ones (libfreerdp-codec/rfx_sse2.c). */
module DwtSse2Range {
  import opened Words
  import opened Grid
  import opened Dwt
  import opened DwtBlock
  import opened DwtInverse
  import opened Sse2
  import opened DwtSse2
  import opened DwtSse2Rows
  import opened DwtSse2Back
  import opened DwtSse2Block
  import opened DwtGain
  import opened DwtLevels

  // ---- Encoding ----

  lemma VertFitsWide(m: Matrix, w: nat)
    requires Shape(m, 2 * w, 2 * w) && MatrixWithin(m, 10894)
    ensures VertFits(m, w)
  {
    hide ColH, ColL;
    ColsRange(m, w, 10894);
    var h := ColH(m, w);
    forall n | 0 <= n < w ensures VertRowFits(m, w, n) {
      assert Within(m[2 * n], 10894) && Within(m[2 * n + 1], 10894) && Within(m[2 * Next(n, w)], 10894);
      assert Within(h[Prev(n)], 10894) && Within(h[n], 10894);
    }
  }

  /** Every block of samples within -10894 .. 10894 fits, for every width. */
  lemma EncodeFitsWide(m: Matrix, w: nat)
    requires Shape(m, 2 * w, 2 * w) && MatrixWithin(m, 10894)
    ensures EncodeFits(m, w)
  {
    hide ColH, ColL, VertFits, RowFits;
    VertFitsWide(m, w);
    ColsRange(m, w, 10894);
    forall y | 0 <= y < w ensures RowFits(ColL(m, w)[y], w) && RowFits(ColH(m, w)[y], w) {
      assert Within(ColL(m, w)[y], Grown15(10894)) && Within(ColH(m, w)[y], 10894);
      RowFitsSmall(ColL(m, w)[y], w);
      RowFitsSmall(ColH(m, w)[y], w);
    }
  }

  // ---- Decoding bands that are near encoded ones ----

  /** A row of a band, within b before it was encoded. */
  lemma RowBackFitsNear(c: Line, w: nat, b: int, l': Line, h': Line, lo: Off, ho: Off)
    requires |c| == 2 * w && Within(c, b) && NearBy(l', RowL(c, w), lo) && NearBy(h', RowH(c, w), ho) && Around0(lo)
        && Around0(ho)
    requires b - LineOff(lo, ho).lo <= 16383 && b + LineOff(lo, ho).hi <= 16383
    ensures RowBackFits(l', h')
  {
    hide RowEven, RowL, RowH;
    var h, e := RowH(c, w), RowEven(l', h');
    forall n | 0 <= n < w ensures -16383 <= h'[n] <= 16383 && -16383 <= e[n] <= 16383 {
      HighRange(c, w, b, n);
      EvenShiftedAt(c, w, l', h', n, lo, ho);
    }
    forall n | 0 <= n < w ensures EvenFits(Behind(h')[n], h'[n]) && OddFits(e[n], Ahead(e)[n]) {
      assert Behind(h')[n] == h'[Prev(n)] && Ahead(e)[n] == e[Next(n, w)];
    }
  }

  lemma RowsBackFitNear(c: Matrix, w: nat, b: int, l': Matrix, h': Matrix, lo: Off, ho: Off)
    requires Shape(c, w, 2 * w) && Shape(l', w, w) && Shape(h', w, w) && MatrixWithin(c, b) && Around0(lo)
        && Around0(ho)
    requires MatrixNear(l', RowsL(c, w), lo) && MatrixNear(h', RowsH(c, w), ho)
    requires b - LineOff(lo, ho).lo <= 16383 && b + LineOff(lo, ho).hi <= 16383
    ensures RowsBackFit(l', h', w)
  {
    hide RowL, RowH, Within, RowBackFits, NearBy;
    forall y | 0 <= y < w ensures RowBackFits(l'[y], h'[y]) {
      assert NearBy(l'[y], RowsL(c, w)[y], lo) && NearBy(h'[y], RowsH(c, w)[y], ho) && Within(c[y], b);
      RowBackFitsNear(c[y], w, b, l'[y], h'[y], lo, ho);
    }
  }

  lemma NearWithin(s: Line, t: Line, o: Off, b: int)
    requires NearBy(s, t, o) && Within(t, b) && b - o.lo <= 16383 && b + o.hi <= 16383
    ensures Within(s, 16383)
  {
  }

  lemma ColRowFitsNear(m: Matrix, w: nat, l': Matrix, h': Matrix, n: nat, b: int, ho: Off, o: Off)
    requires Shape(m, 2 * w, 2 * w) && Shape(l', w, 2 * w) && Shape(h', w, 2 * w) && n < w
    requires MatrixWithin(m, b) && MatrixWithin(ColH(m, w), b) && MatrixNear(h', ColH(m, w), ho)
    requires MatrixNear(ColDec(l', h', w), m, o)
    requires b - ho.lo <= 16383 && b + ho.hi <= 16383 && b - o.lo <= 16383 && b + o.hi <= 16383
    ensures ColRowFits(l', h', w, n)
  {
    hide ColH, ColDec;
    var d, p, q := ColDec(l', h', w), Prev(n), Next(n, w);
    assert Within(m[2 * n], b) && Within(m[2 * q], b) && NearBy(d[2 * n], m[2 * n], o) && NearBy(d[2 * q], m[2 * q], o);
    NearWithin(d[2 * n], m[2 * n], o, b);
    NearWithin(d[2 * q], m[2 * q], o, b);
    assert Within(ColH(m, w)[p], b) && Within(ColH(m, w)[n], b);
    assert NearBy(h'[p], ColH(m, w)[p], ho) && NearBy(h'[n], ColH(m, w)[n], ho);
    NearWithin(h'[p], ColH(m, w)[p], ho, b);
    NearWithin(h'[n], ColH(m, w)[n], ho, b);
  }

  /** Bands near those of a block within b fit when the errors leave room below half of the 16-bit range. */
  lemma DecodeFitsNear(m: Matrix, w: nat, b: int, c: Bands, lh: nat, hl: nat, hh: nat, ll: Off)
    requires Shape(m, 2 * w, 2 * w) && Square(c, w) && MatrixWithin(m, b) && 0 <= b && Around0(ll)
    requires HighNear(c, Encode2D(m, w), lh, hl, hh) && MatrixNear(c.ll, Encode2D(m, w).ll, ll)
    requires Grown15(b) - ll.lo + 3 * hl + 2 <= 16383 && Grown15(b) + ll.hi + 3 * hl <= 16383
    requires b - ll.lo + Weight(lh, hl, hh) + 8 <= 16383 && b + ll.hi + Weight(lh, hl, hh) + 2 <= 16383
    ensures DecodeFits(c, w)
  {
    hide RowsBackFit, ColRowFits, Decode2D, ColL, ColH, RowsL, RowsH, ColDec, RowsDec, MatrixWithin, MatrixNear,
        LowOff, HighOff, BlockOff;
    var o := LevelOffs(lh, hl, hh, ll);
    LevelOffsAre(lh, hl, hh, ll);
    LevelRange(m, w, b);
    RowsBackFitNear(ColL(m, w), w, Grown15(b), c.ll, c.hl, ll, Sym(hl)) by { LowOffIs(o); }
    RowsBackFitNear(ColH(m, w), w, b, c.lh, c.hh, Sym(lh), Sym(hh)) by { LowOffIs(o); }
    RoomWithin(m, w, b, o);
    RowsOfHigh(m, w, c, o, b);
    LevelShifted(m, w, c, o);
    var l', h' := RowsDec(c.ll, c.hl, w), RowsDec(c.lh, c.hh, w);
    assert ColDec(l', h', w) == Decode2D(c, w) by { DecodeIs(c, w); }
    forall n | 0 <= n < w ensures ColRowFits(l', h', w, n) {
      ColRowFitsNear(m, w, l', h', n, b, HighOff(o), BlockOff(o));
    }
  }

  lemma LowOffIs(o: BandOffs)
    ensures LowOff(o) == LineOff(o.ll, o.hl) && HighOff(o) == LineOff(o.lh, o.hh)
  {
  }

  lemma RowsOfHigh(m: Matrix, w: nat, c: Bands, o: BandOffs, b: int)
    requires Shape(m, 2 * w, 2 * w) && Square(c, w) && LevelRoom(m, w, o) && Around0(o.lh) && Around0(o.hh)
    requires MatrixNear(c.lh, Encode2D(m, w).lh, o.lh) && MatrixNear(c.hh, Encode2D(m, w).hh, o.hh)
    ensures MatrixNear(RowsDec(c.lh, c.hh, w), ColH(m, w), HighOff(o))
  {
    hide ColL, ColH, RowsL, RowsH, RowsDec, MatrixNear, MatrixRoom;
    RowsShifted(ColH(m, w), w, c.lh, c.hh, o.lh, o.hh);
  }

  lemma DecodeIs(b: Bands, w: nat)
    requires Square(b, w)
    ensures Decode2D(b, w) == ColDec(RowsDec(b.ll, b.hl, w), RowsDec(b.lh, b.hh, w), w)
  {
    hide ColDec, RowsDec;
  }

  // ---- The three levels of a buffer ----

  lemma EncoderFits(s: Line, m: Matrix)
    requires |s| >= 4096 && Shape(m, 64, 64) && MatrixWithin(m, 4096) && EncoderReads(s, m)
    ensures EncodeLevelsFit(s)
  {
    hide Area, MatrixAt, EncodeFits, EncodeOne, EncodeTwo, LowOne, LowTwo, MatrixWithin;
    Areas();
    LowTwoRange(m);
    WiderMatrix(m, 4096, 10894);
    WiderMatrix(LowOne(m), 9218, 10894);
    WiderMatrix(LowTwo(m), 10824, 10894);
    EncodeFitsWide(m, 32);
    EncodeFitsWide(LowOne(m), 16);
    EncodeFitsWide(LowTwo(m), 8);
  }

  /** Band errors with which every halved sum of the decoder still fits. */
  predicate LanesRoom(e: Errors) { e[0] + 3 * e[2] <= 144 && SumThree(e) + 3 * e[5] <= 2545 && SumOne(e) <= 7149 }

  ghost predicate ThreeFit(k: Coded)
    requires Levels(k)
  {
    hide DecodeFits, BackThree, BackTwo;
    DecodeFits(k.b3, 8) && DecodeFits(k.b2.(ll := BackThree(k)), 16) && DecodeFits(k.b1.(ll := BackTwo(k)), 32)
  }

  lemma LevelsFitNear(m: Matrix, k: Coded, e: Errors)
    requires Shape(m, 64, 64) && MatrixWithin(m, 4096) && Levels(k) && CodedNear(k, EncodedThree(m), e) && LanesRoom(e)
    ensures ThreeFit(k)
  {
    hide Encode2D, Decode2D, MatrixWithin, MatrixNear, HighNear, LowOne, LowTwo, DecodeFits;
    LowTwoRange(m);
    var m2, m3 := LowOne(m), LowTwo(m);
    LowBandsAre(m);
    DecodeFitsNear(m3, 8, 10824, k.b3, e[1], e[2], e[3], Sym(e[0]));
    LevelBack(m3, 8, 10824, k.b3, e[1], e[2], e[3], Sym(e[0]));
    var o2, o1 := Off(-8 - SumThree(e), SumThree(e) + 2), Off(-16 - SumTwo(e), SumTwo(e) + 4);
    HighKept(k.b2, Encode2D(m2, 16), BackThree(k), e[4], e[5], e[6]);
    DecodeFitsNear(m2, 16, 9218, k.b2.(ll := BackThree(k)), e[4], e[5], e[6], o2);
    LevelBack(m2, 16, 9218, k.b2.(ll := BackThree(k)), e[4], e[5], e[6], o2);
    HighKept(k.b1, Encode2D(m, 32), BackTwo(k), e[7], e[8], e[9]);
    DecodeFitsNear(m, 32, 4096, k.b1.(ll := BackTwo(k)), e[7], e[8], e[9], o1);
  }

  lemma DecoderFits(c: Line)
    requires |c| >= 4096 && ThreeFit(CodedAt(c))
    ensures DecodeLevelsFit(c)
  {
    hide Area, BandsAt, DecodeFits, DecodeOne, DecodeTwo, BackThree, BackTwo;
    Areas();
    DecoderStages(c);
  }

  /** The conditions of both eight-lane drivers, for encoding s and for decoding c. */
  ghost predicate LanesFit(s: Line, c: Line)
  {
    hide EncodeLevelsFit, DecodeLevelsFit;
    |s| >= 4096 && |c| >= 4096 && EncodeLevelsFit(s) && DecodeLevelsFit(c)
  }

  /** Main result: over the whole range of the codec's samples no halved sum of the encoder overflows, nor does one
      of the decoder on a code whose bands are off by little enough; so by DwtEncodeSse2 and DwtDecodeSse2 the
      eight-lane drivers leave the buffers of the scalar ones. */
  lemma LanesAgree(s: Line, c: Line, e: Errors)
    requires |c| == |s| >= 4096 && InRange(s) && CodeNear(s, c, e) && LanesRoom(e)
    ensures LanesFit(s, c)
  {
    hide Area, Laid, EncodeLevelsFit, DecodeLevelsFit, EncoderReads, EncoderLeaves, MatrixWithin, InRange, CodeNear,
        CodedNear,
      CodedAt, EncodedThree, ThreeFit, LanesRoom;
    var m := BlockCode(s);
    EncoderFits(s, m);
    CodeIsNear(s, c, m, e);
    LevelsFitNear(m, CodedAt(c), e);
    DecoderFits(c);
  }

  /** In particular for the code itself. */
  lemma SampleRange(s: Line)
    requires |s| >= 4096 && InRange(s)
    ensures LanesFit(s, EncodeLevels(s))
  {
    hide EncodeLevels, LanesFit, InRange, CodeNear, SumThree, SumOne;
    var c := EncodeLevels(s);
    ExactCode(s, c);
    NoSums();
    LanesAgree(s, c, NO_ERRORS);
  }
}
