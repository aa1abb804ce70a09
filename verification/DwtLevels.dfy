/** Three levels of the wavelet: ranges, and the error of decoding after encoding (libfreerdp-codec/rfx_dwt.c). */
module DwtLevels {
  import opened Words
  import opened Grid
  import opened Dwt
  import opened DwtBlock
  import opened DwtInverse
  import opened DwtGain

  // ---- Errors: perturbed bands ----

  predicate MatrixNear(a: Matrix, b: Matrix, o: Off)
  {
    |a| == |b| && forall y :: 0 <= y < |a| ==> NearBy(a[y], b[y], o)
  }

  predicate MatrixRoom(m: Matrix, o: Off) { forall y :: 0 <= y < |m| ==> RoomFor(m[y], o) }

  /** Errors of the four bands. */
  datatype BandOffs = BandOffs(hl: Off, lh: Off, hh: Off, ll: Off)

  predicate BandsNear(b: Bands, c: Bands, o: BandOffs)
  {
    && MatrixNear(b.hl, c.hl, o.hl) && MatrixNear(b.lh, c.lh, o.lh) && MatrixNear(b.hh, c.hh, o.hh)
        && MatrixNear(b.ll, c.ll, o.ll)
    && Around0(o.hl) && Around0(o.lh) && Around0(o.hh) && Around0(o.ll)
  }

  /** Errors of the rows after the horizontal pass, and of the samples after the vertical one. */
  function LowOff(o: BandOffs): Off { LineOff(o.ll, o.hl) }

  function HighOff(o: BandOffs): Off { LineOff(o.lh, o.hh) }

  function BlockOff(o: BandOffs): Off { LineOff(LowOff(o), HighOff(o)) }

  /** No store of the decoder leaves 16 bits. */
  predicate LevelRoom(m: Matrix, w: nat, o: BandOffs)
    requires Shape(m, 2 * w, 2 * w)
  {
    MatrixRoom(m, BlockOff(o)) && MatrixRoom(ColL(m, w), LowOff(o)) && MatrixRoom(ColH(m, w), HighOff(o))
  }

  lemma RowsShifted(c: Matrix, w: nat, l': Matrix, h': Matrix, lo: Off, ho: Off)
    requires Shape(c, w, 2 * w) && Shape(l', w, w) && Shape(h', w, w) && Around0(lo) && Around0(ho)
    requires MatrixNear(l', RowsL(c, w), lo) && MatrixNear(h', RowsH(c, w), ho) && MatrixRoom(c, LineOff(lo, ho))
    ensures MatrixNear(RowsDec(l', h', w), c, LineOff(lo, ho))
  {
    hide RowDec, RowL, RowH, NearBy, RoomFor;
    forall y | 0 <= y < w ensures NearBy(RowDec(l'[y], h'[y]), c[y], LineOff(lo, ho)) {
      assert NearBy(l'[y], RowsL(c, w)[y], lo) && NearBy(h'[y], RowsH(c, w)[y], ho) && RoomFor(c[y], LineOff(lo, ho));
      WholeLineShifted(c[y], w, l'[y], h'[y], lo, ho);
    }
  }

  lemma ColumnNear(a: Matrix, b: Matrix, w: nat, x: nat, o: Off)
    requires Shape(a, w, 2 * w) && Shape(b, w, 2 * w) && x < 2 * w && MatrixNear(a, b, o)
    ensures NearBy(Col(a, x, w, 2 * w), Col(b, x, w, 2 * w), o)
  {
    forall y | 0 <= y < w ensures o.lo <= a[y][x] as int - b[y][x] as int <= o.hi {
      assert NearBy(a[y], b[y], o);
    }
  }

  lemma ColumnRoom(m: Matrix, w: nat, x: nat, o: Off)
    requires Shape(m, 2 * w, 2 * w) && MatrixRoom(m, o) && x < 2 * w
    ensures RoomFor(Col(m, x, 2 * w, 2 * w), o)
  {
    var c := Col(m, x, 2 * w, 2 * w);
    forall y | 0 <= y < 2 * w ensures InS16(c[y] as int + o.lo) && InS16(c[y] as int + o.hi) {
      assert RoomFor(m[y], o);
    }
  }

  lemma ColsShifted(m: Matrix, w: nat, l': Matrix, h': Matrix, lo: Off, ho: Off)
    requires Shape(m, 2 * w, 2 * w) && Shape(l', w, 2 * w) && Shape(h', w, 2 * w) && Around0(lo) && Around0(ho)
    requires MatrixNear(l', ColL(m, w), lo) && MatrixNear(h', ColH(m, w), ho) && MatrixRoom(m, LineOff(lo, ho))
    ensures MatrixNear(ColDec(l', h', w), m, LineOff(lo, ho))
  {
    hide RowDec, RowL, RowH, NearBy, RoomFor, MatrixNear, MatrixRoom;
    var d, o := ColDec(l', h', w), LineOff(lo, ho);
    forall x | 0 <= x < 2 * w ensures NearBy(Col(d, x, 2 * w, 2 * w), Col(m, x, 2 * w, 2 * w), o) {
      var c := Col(m, x, 2 * w, 2 * w);
      ColumnNear(l', ColL(m, w), w, x, lo);
      ColumnNear(h', ColH(m, w), w, x, ho);
      assert Col(ColL(m, w), x, w, 2 * w) == RowL(c, w) && Col(ColH(m, w), x, w, 2 * w) == RowH(c, w);
      ColumnRoom(m, w, x, o);
      WholeLineShifted(c, w, Col(l', x, w, 2 * w), Col(h', x, w, 2 * w), lo, ho);
      assert Col(d, x, 2 * w, 2 * w) == RowDec(Col(l', x, w, 2 * w), Col(h', x, w, 2 * w));
    }
    ColumnsToRows(d, m, w, o);
  }

  lemma ColumnsToRows(a: Matrix, b: Matrix, w: nat, o: Off)
    requires Shape(a, 2 * w, 2 * w) && Shape(b, 2 * w, 2 * w)
    requires forall x :: 0 <= x < 2 * w ==> NearBy(Col(a, x, 2 * w, 2 * w), Col(b, x, 2 * w, 2 * w), o)
    ensures MatrixNear(a, b, o)
  {
    forall y, x | 0 <= y < 2 * w && 0 <= x < 2 * w ensures o.lo <= a[y][x] as int - b[y][x] as int <= o.hi {
      var c, d := Col(a, x, 2 * w, 2 * w), Col(b, x, 2 * w, 2 * w);
      assert NearBy(c, d, o) && c[y] == a[y][x] && d[y] == b[y][x];
    }
  }

  /** One level back from four bands that are off: how far every sample is off. */
  lemma LevelShifted(m: Matrix, w: nat, b: Bands, o: BandOffs)
    requires Shape(m, 2 * w, 2 * w) && Square(b, w) && BandsNear(b, Encode2D(m, w), o) && LevelRoom(m, w, o)
    ensures MatrixNear(Decode2D(b, w), m, BlockOff(o))
  {
    hide MatrixNear, MatrixRoom, ColL, ColH, RowsL, RowsH, RowsDec, ColDec;
    RowsShifted(ColL(m, w), w, b.ll, b.hl, o.ll, o.hl);
    RowsShifted(ColH(m, w), w, b.lh, b.hh, o.lh, o.hh);
    ColsShifted(m, w, RowsDec(b.ll, b.hl, w), RowsDec(b.lh, b.hh, w), LowOff(o), HighOff(o));
  }

  /** Samples within b leave room for errors at every store of a level. */
  lemma RoomWithin(m: Matrix, w: nat, b: int, o: BandOffs)
    requires Shape(m, 2 * w, 2 * w) && MatrixWithin(m, b) && 0 <= b && Grown15(b) <= 32767
    requires Around0(LowOff(o)) && Around0(HighOff(o)) && Around0(BlockOff(o))
    requires Grown15(b) - LowOff(o).lo <= 32768 && Grown15(b) + LowOff(o).hi <= 32767
    requires b - HighOff(o).lo <= 32768 && b + HighOff(o).hi <= 32767 && b - BlockOff(o).lo <= 32768
        && b + BlockOff(o).hi <= 32767
    ensures LevelRoom(m, w, o)
  {
    hide ColL, ColH, Encode2D, MatrixWithin, MatrixRoom, LowOff, HighOff, BlockOff, Grown15;
    LevelRange(m, w, b);
    MatrixRoomWithin(m, b, BlockOff(o));
    MatrixRoomWithin(ColL(m, w), Grown15(b), LowOff(o));
    MatrixRoomWithin(ColH(m, w), b, HighOff(o));
  }

  lemma MatrixRoomWithin(m: Matrix, b: int, o: Off)
    requires MatrixWithin(m, b) && Around0(o) && b - o.lo <= 32768 && b + o.hi <= 32767
    ensures MatrixRoom(m, o)
  {
    forall y | 0 <= y < |m| ensures RoomFor(m[y], o) {
      assert Within(m[y], b);
    }
  }

  // ---- Three levels ----

  /** The bands of the three levels; the low-low bands of the first two are those that the next level takes apart. */
  datatype Coded = Coded(b1: Bands, b2: Bands, b3: Bands)

  predicate Levels(k: Coded) { Square(k.b1, 32) && Square(k.b2, 16) && Square(k.b3, 8) }

  function EncodedThree(m: Matrix): (k: Coded)
    requires Shape(m, 64, 64)
    ensures Levels(k)
  {
    hide Encode2D, LowOne, LowTwo;
    Coded(Encode2D(m, 32), Encode2D(LowOne(m), 16), Encode2D(LowTwo(m), 8))
  }

  function BackThree(k: Coded): (d: Matrix)
    requires Levels(k)
    ensures Shape(d, 16, 16)
  {
    Decode2D(k.b3, 8)
  }

  function BackTwo(k: Coded): (d: Matrix)
    requires Levels(k)
    ensures Shape(d, 32, 32)
  {
    hide BackThree;
    Decode2D(k.b2.(ll := BackThree(k)), 16)
  }

  function BackOne(k: Coded): (d: Matrix)
    requires Levels(k)
    ensures Shape(d, 64, 64)
  {
    hide BackTwo;
    Decode2D(k.b1.(ll := BackTwo(k)), 32)
  }

  /** Errors of the ten bands, in the order of the quantization values. */
  type Errors = e: seq<nat> | |e| == 10 witness [0, 0, 0, 0, 0, 0, 0, 0, 0, 0]

  function Sym(d: nat): Off { Off(-(d as int), d) }

  predicate HighNear(b: Bands, c: Bands, lh: nat, hl: nat, hh: nat)
  {
    MatrixNear(b.lh, c.lh, Sym(lh)) && MatrixNear(b.hl, c.hl, Sym(hl)) && MatrixNear(b.hh, c.hh, Sym(hh))
  }

  predicate CodedNear(k: Coded, c: Coded, e: Errors)
  {
    && HighNear(k.b1, c.b1, e[7], e[8], e[9]) && HighNear(k.b2, c.b2, e[4], e[5], e[6])
        && HighNear(k.b3, c.b3, e[1], e[2], e[3])
    && MatrixNear(k.b3.ll, c.b3.ll, Sym(e[0]))
  }

  /** How much the errors of a level's high bands weigh in its samples. */
  function Weight(lh: nat, hl: nat, hh: nat): nat { 3 * lh + 3 * hl + 9 * hh }

  function SumThree(e: Errors): nat { e[0] + Weight(e[1], e[2], e[3]) }

  function SumTwo(e: Errors): nat { SumThree(e) + Weight(e[4], e[5], e[6]) }

  function SumOne(e: Errors): nat { SumTwo(e) + Weight(e[7], e[8], e[9]) }

  function LevelOffs(lh: nat, hl: nat, hh: nat, ll: Off): BandOffs { BandOffs(Sym(hl), Sym(lh), Sym(hh), ll) }

  lemma LevelOffsAre(lh: nat, hl: nat, hh: nat, ll: Off)
    requires Around0(ll)
    ensures var o := LevelOffs(lh, hl, hh, ll);
            && LowOff(o) == Off(ll.lo - 3 * hl - 2, ll.hi + 3 * hl)
                && HighOff(o) == Off(-2 - (lh + 3 * hh), lh + 3 * hh)
            && BlockOff(o) == Off(ll.lo - Weight(lh, hl, hh) - 8, ll.hi + Weight(lh, hl, hh) + 2)
  {
  }

  /** One level, from high bands that are off by lh, hl and hh and a low-low band that is off by ll. */
  lemma LevelBack(m: Matrix, w: nat, b: int, c: Bands, lh: nat, hl: nat, hh: nat, ll: Off)
    requires Shape(m, 2 * w, 2 * w) && Square(c, w) && MatrixWithin(m, b) && 0 <= b && Around0(ll)
    requires HighNear(c, Encode2D(m, w), lh, hl, hh) && MatrixNear(c.ll, Encode2D(m, w).ll, ll)
    requires Grown15(b) - ll.lo + Weight(lh, hl, hh) + 8 <= 32767
        && Grown15(b) + ll.hi + Weight(lh, hl, hh) + 8 <= 32767
    ensures MatrixNear(Decode2D(c, w), m, Off(ll.lo - Weight(lh, hl, hh) - 8, ll.hi + Weight(lh, hl, hh) + 2))
  {
    hide Encode2D, Decode2D, MatrixNear, MatrixWithin, LowOff, HighOff, BlockOff, LevelRoom;
    var o := LevelOffs(lh, hl, hh, ll);
    LevelOffsAre(lh, hl, hh, ll);
    RoomWithin(m, w, b, o);
    LevelShifted(m, w, c, o);
  }

  /** Main result: over the whole range of the codec's samples, three levels of decoding from bands that are off by e
      return every sample with an error of -24 .. 6 widened by the weighted sum of the band errors. */
  lemma ThreeLevelError(m: Matrix, k: Coded, e: Errors)
    requires Shape(m, 64, 64) && MatrixWithin(m, 4096) && Levels(k) && CodedNear(k, EncodedThree(m), e)
        && SumOne(e) <= 16000
    ensures MatrixNear(BackOne(k), m, Off(-24 - SumOne(e), SumOne(e) + 6))
  {
    hide Encode2D, Decode2D, MatrixWithin, MatrixNear, HighNear, LowOne, LowTwo;
    LowTwoRange(m);
    var m2, m3 := LowOne(m), LowTwo(m);
    LowBandsAre(m);
    LevelBack(m3, 8, 10824, k.b3, e[1], e[2], e[3], Sym(e[0]));
    HighKept(k.b2, Encode2D(m2, 16), BackThree(k), e[4], e[5], e[6]);
    LevelBack(m2, 16, 9218, k.b2.(ll := BackThree(k)), e[4], e[5], e[6], Off(-8 - SumThree(e), SumThree(e) + 2));
    HighKept(k.b1, Encode2D(m, 32), BackTwo(k), e[7], e[8], e[9]);
    LevelBack(m, 32, 4096, k.b1.(ll := BackTwo(k)), e[7], e[8], e[9], Off(-16 - SumTwo(e), SumTwo(e) + 4));
  }

  lemma LowBandsAre(m: Matrix)
    requires Shape(m, 64, 64)
    ensures Encode2D(m, 32).ll == LowOne(m) && Encode2D(LowOne(m), 16).ll == LowTwo(m)
  {
    hide Encode2D;
  }

  lemma HighKept(b: Bands, c: Bands, ll: Matrix, lh: nat, hl: nat, hh: nat)
    requires HighNear(b, c, lh, hl, hh)
    ensures HighNear(b.(ll := ll), c, lh, hl, hh)
  {
    hide MatrixNear;
  }

  // ---- The same in the flat buffer ----

  lemma EncodedAt(s: Line, base: nat, w: nat)
    requires base + 4 * Area(w, w) <= |s|
    ensures Area(2 * w, 2 * w) == 4 * Area(w, w) && Shape(MatrixAt(s, base, 2 * w, 2 * w), 2 * w, 2 * w)
    ensures var t := EncodeFlat(s, base, w);
            && BandsAt(t, base, w) == Encode2D(MatrixAt(s, base, 2 * w, 2 * w), w)
            && Agree(t, s, 0, base) && Agree(t, s, base + 4 * Area(w, w), |s|)
  {
    hide Area, Encode2D, MatrixAt, BandsAt, Flat, Laid;
    AreaFour(w);
    var m := MatrixAt(s, base, 2 * w, 2 * w);
    LaidShape(s, base, 2 * w, 2 * w, m);
    var b, t := Encode2D(m, w), EncodeFlat(s, base, w);
    BandsLength(b, w);
    assert t[base..base + 4 * Area(w, w)] == BandsFlat(b);
    BandsBack(t, base, w, b);
  }

  lemma DecodedAt(s: Line, base: nat, w: nat)
    requires base + 4 * Area(w, w) <= |s|
    ensures Area(2 * w, 2 * w) == 4 * Area(w, w)
    ensures var t, d := DecodeFlat(s, base, w), Decode2D(BandsAt(s, base, w), w);
            && t[base..base + 4 * Area(w, w)] == Flat(d) && Shape(d, 2 * w, 2 * w)
            && Agree(t, s, 0, base) && Agree(t, s, base + 4 * Area(w, w), |s|)
  {
    hide Area, Decode2D, BandsAt, Flat;
    AreaFour(w);
    FlatAt(Decode2D(BandsAt(s, base, w), w), 2 * w, 2 * w);
  }

  lemma SameMatrix(s: Line, t: Line, base: nat, w: nat)
    requires base + Area(w, w) <= |s| && |t| == |s| && Agree(t, s, base, base + Area(w, w))
    ensures MatrixAt(t, base, w, w) == MatrixAt(s, base, w, w)
  {
    hide Area, MatrixAt, Flat, Laid;
    var m := MatrixAt(s, base, w, w);
    LaidShape(s, base, w, w, m);
    LaidFlat(s, base, w, w, m);
    assert t[base..base + Area(w, w)] == s[base..base + Area(w, w)];
    MatrixBack(t, base, w, m);
  }

  /** Bands whose low-low part has been replaced. */
  lemma LowReplaced(s: Line, t: Line, base: nat, w: nat, ll: Matrix)
    requires base + 4 * Area(w, w) <= |s| && |t| == |s| && Shape(ll, w, w)
    requires Agree(t, s, base, base + 3 * Area(w, w)) && t[base + 3 * Area(w, w)..base + 4 * Area(w, w)] == Flat(ll)
    ensures BandsAt(t, base, w) == BandsAt(s, base, w).(ll := ll)
  {
    hide Area, MatrixAt, Flat;
    var a := Area(w, w);
    SameMatrix(s, t, base, w);
    SameMatrix(s, t, base + a, w);
    SameMatrix(s, t, base + 2 * a, w);
    MatrixBack(t, base + 3 * a, w, ll);
  }

  lemma LowOf(s: Line, base: nat, w: nat)
    requires base + 4 * Area(w, w) <= |s|
    ensures BandsAt(s, base, w).ll == MatrixAt(s, base + 3 * Area(w, w), w, w)
  {
    hide Area, MatrixAt;
  }

  lemma Areas()
    ensures Area(8, 8) == 64 && Area(16, 16) == 256 && Area(32, 32) == 1024 && Area(64, 64) == 4096
  {
  }

  /** The bands in a coded buffer. */
  function CodedAt(c: Line): (k: Coded)
    requires |c| >= 4096
    ensures Levels(k)
  {
    hide BandsAt, Area;
    Areas();
    Coded(BandsAt(c, 0, 32), BandsAt(c, 3072, 16), BandsAt(c, 3840, 8))
  }

  /** What each level of the encoder reads. */
  predicate EncoderReads(s: Line, m: Matrix)
    requires |s| >= 4096 && Shape(m, 64, 64)
  {
    hide EncodeOne, EncodeTwo, LowOne, LowTwo, MatrixAt, Area;
    Areas();
    && MatrixAt(s, 0, 64, 64) == m && MatrixAt(EncodeOne(s), 3072, 32, 32) == LowOne(m)
    && MatrixAt(EncodeTwo(s), 3840, 16, 16) == LowTwo(m)
  }

  lemma EncoderStages(s: Line, m: Matrix)
    requires |s| >= 4096 && Shape(m, 64, 64) && MatrixAt(s, 0, 64, 64) == m
    ensures EncoderReads(s, m)
  {
    hide Area, Encode2D, MatrixAt, BandsAt, EncodeFlat, Agree;
    Areas();
    var s1, s2 := EncodeOne(s), EncodeTwo(s);
    EncodedAt(s, 0, 32);
    LowOf(s1, 0, 32);
    EncodedAt(s1, 3072, 16);
    LowOf(s2, 3072, 16);
  }

  predicate SameHigh(b: Bands, c: Bands) { b.lh == c.lh && b.hl == c.hl && b.hh == c.hh }

  /** The same bands, apart from those that the next level took apart. */
  predicate SameCode(k: Coded, c: Coded) { SameHigh(k.b1, c.b1) && SameHigh(k.b2, c.b2) && k.b3 == c.b3 }

  predicate EncoderLeaves(s: Line, m: Matrix)
  {
    hide EncodeLevels, CodedAt, EncodedThree;
    |s| >= 4096 && Shape(m, 64, 64) && SameCode(CodedAt(EncodeLevels(s)), EncodedThree(m))
  }

  /** The encoder leaves the bands of the three levels in the buffer. */
  lemma EncoderCode(s: Line, m: Matrix)
    requires |s| >= 4096 && Shape(m, 64, 64) && EncoderReads(s, m)
    ensures EncoderLeaves(s, m)
  {
    hide Area, Encode2D, MatrixAt, BandsAt, EncodeFlat, LowOne, LowTwo, Agree;
    Areas();
    var s1, s2, s3 := EncodeOne(s), EncodeTwo(s), EncodeLevels(s);
    EncodedAt(s, 0, 32);
    EncodedAt(s1, 3072, 16);
    EncodedAt(s2, 3840, 8);
    BelowMiddle(s3, s2, s1, 3840, 3072);
    HighOfAgree(s1, s3, 0, 32);
    BelowTop(s3, s2);
    HighOfAgree(s2, s3, 3072, 16);
  }

  lemma HighOfAgree(s: Line, t: Line, base: nat, w: nat)
    requires base + 4 * Area(w, w) <= |s| && |t| == |s| && Agree(t, s, base, base + 3 * Area(w, w))
    ensures SameHigh(BandsAt(t, base, w), BandsAt(s, base, w))
  {
    hide Area, MatrixAt;
    var a := Area(w, w);
    SameMatrix(s, t, base, w);
    SameMatrix(s, t, base + a, w);
    SameMatrix(s, t, base + 2 * a, w);
  }

  lemma BelowTop(s3: Line, s2: Line)
    requires |s3| == |s2| >= 4096 && Agree(s3, s2, 0, 3840)
    ensures Agree(s3, s2, 3072, 3840)
  {
  }

  lemma BelowMiddle(s3: Line, s2: Line, s1: Line, i: nat, j: nat)
    requires |s3| == |s2| == |s1| >= 4096 && 3072 <= i <= 4096 && 3072 <= j <= 4096 && Agree(s3, s2, 0, i)
        && Agree(s2, s1, 0, j)
    ensures Agree(s3, s1, 0, 3072)
  {
  }

  /** What the second and the third level of the decoder read. */
  predicate MiddleReads(c: Line)
    requires |c| >= 4096
  {
    hide DecodeOne, BackThree, BandsAt, Area;
    Areas();
    BandsAt(DecodeOne(c), 3072, 16) == CodedAt(c).b2.(ll := BackThree(CodedAt(c)))
  }

  predicate LargestReads(c: Line)
    requires |c| >= 4096
  {
    hide DecodeTwo, BackTwo, BandsAt, Area;
    Areas();
    BandsAt(DecodeTwo(c), 0, 32) == CodedAt(c).b1.(ll := BackTwo(CodedAt(c)))
  }

  lemma DecoderStages(c: Line)
    requires |c| >= 4096
    ensures MiddleReads(c) && LargestReads(c)
  {
    hide Area, Decode2D, MatrixAt, BandsAt, Flat, DecodeFlat, Agree;
    Areas();
    var t1, t2 := DecodeOne(c), DecodeTwo(c);
    DecodedAt(c, 3840, 8);
    BelowTop(t1, c);
    LowReplaced(c, t1, 3072, 16, BackThree(CodedAt(c)));
    DecodedAt(t1, 3072, 16);
    BelowMiddle(t2, t1, c, 3072, 3840);
    LowReplaced(c, t2, 0, 32, BackTwo(CodedAt(c)));
  }

  /** The first 4096 cells are the block of the three nested levels, and the others are as they were. */
  ghost predicate DecodesTo(c: Line, d: Line)
  {
    && |d| == |c| >= 4096 && Agree(d, c, 4096, |c|)
    && hide CodedAt, BackOne, Flat; d[..4096] == Flat(BackOne(CodedAt(c)))
  }

  /** Main result on the buffer: what the decoder leaves, for every buffer. */
  lemma DecoderLeaves(c: Line, d: Line)
    requires |c| >= 4096 && d == DecodeLevels(c)
    ensures DecodesTo(c, d)
  {
    hide Area, BandsAt, Flat, Agree, DecodeTwo, DecodeOne, Decode2D, DecodeFlat;
    Areas();
    DecoderStages(c);
    DecodedAt(DecodeTwo(c), 0, 32);
    assert d[..4096] == d[0..4096];
    OutsideKept(c);
  }

  lemma OutsideKept(c: Line)
    requires |c| >= 4096
    ensures Agree(DecodeLevels(c), c, 4096, |c|)
  {
    hide Area, Decode2D, BandsAt, Flat, DecodeFlat, Agree;
    Areas();
    var t1, t2 := DecodeOne(c), DecodeTwo(c);
    DecodedAt(c, 3840, 8);
    DecodedAt(t1, 3072, 16);
    DecodedAt(t2, 0, 32);
    BeyondBlock(DecodeLevels(c), t2, t1, c);
  }

  lemma BeyondBlock(t3: Line, t2: Line, t1: Line, c: Line)
    requires |t3| == |t2| == |t1| == |c| >= 4096
    requires Agree(t3, t2, 4096, |c|) && Agree(t2, t1, 4096, |c|) && Agree(t1, c, 4096, |c|)
    ensures Agree(t3, c, 4096, |c|)
  {
  }

  // ---- The error in the flat buffer ----

  predicate CellsNear(c: Line, d: Line, e: Errors)
  {
    && |c| == |d| >= 4096
    && forall i :: 0 <= i < 4096 ==> -(e[BandOf(i)] as int) <= c[i] as int - d[i] as int <= e[BandOf(i)]
  }

  lemma BandNear(c: Line, d: Line, e: Errors, base: nat, w: nat, k: nat)
    requires CellsNear(c, d, e) && base + Area(w, w) <= 4096 && k < 10
    requires forall i :: base <= i < base + Area(w, w) ==> BandOf(i) == k
    ensures MatrixNear(MatrixAt(c, base, w, w), MatrixAt(d, base, w, w), Sym(e[k]))
  {
    hide Area, Cell, BandOf;
    var m, n := MatrixAt(c, base, w, w), MatrixAt(d, base, w, w);
    LaidShape(c, base, w, w, m);
    LaidShape(d, base, w, w, n);
    forall y, x | 0 <= y < w && 0 <= x < w ensures -(e[k] as int) <= m[y][x] as int - n[y][x] as int <= e[k] {
      CellBound(w, w, y, x);
      LaidCell(c, base, w, w, m, y, x);
      LaidCell(d, base, w, w, n, y, x);
      assert BandOf(base + Cell(y, x, w)) == k;
    }
  }

  lemma HighBandsNear(c: Line, d: Line, e: Errors, base: nat, w: nat, hl: nat, lh: nat, hh: nat)
    requires CellsNear(c, d, e) && base + 4 * Area(w, w) <= 4096 && hl < 10 && lh < 10 && hh < 10
    requires forall i :: base <= i < base + Area(w, w) ==> BandOf(i) == hl
    requires forall i :: base + Area(w, w) <= i < base + 2 * Area(w, w) ==> BandOf(i) == lh
    requires forall i :: base + 2 * Area(w, w) <= i < base + 3 * Area(w, w) ==> BandOf(i) == hh
    ensures HighNear(BandsAt(c, base, w), BandsAt(d, base, w), e[lh], e[hl], e[hh])
  {
    hide Area, MatrixAt, BandOf, MatrixNear, CellsNear;
    var a := Area(w, w);
    BandNear(c, d, e, base, w, hl);
    BandNear(c, d, e, base + a, w, lh);
    BandNear(c, d, e, base + 2 * a, w, hh);
  }

  lemma BufferNear(c: Line, d: Line, e: Errors)
    requires CellsNear(c, d, e)
    ensures CodedNear(CodedAt(c), CodedAt(d), e)
  {
    hide Area, MatrixAt, MatrixNear, HighNear, CellsNear;
    Areas();
    HighBandsNear(c, d, e, 0, 32, 8, 7, 9);
    HighBandsNear(c, d, e, 3072, 16, 5, 4, 6);
    HighBandsNear(c, d, e, 3840, 8, 2, 1, 3);
    BandNear(c, d, e, 4032, 8, 0);
    LowOf(c, 3840, 8);
    LowOf(d, 3840, 8);
  }

  lemma NearSame(k: Coded, c: Coded, d: Coded, e: Errors)
    requires CodedNear(k, c, e) && SameCode(c, d)
    ensures CodedNear(k, d, e)
  {
    hide MatrixNear;
  }

  predicate InRange(s: Line)
    requires |s| >= 4096
  {
    forall i :: 0 <= i < 4096 ==> -4096 <= s[i] <= 4096
  }

  /** c is the code of s up to the errors of the bands. */
  predicate CodeNear(s: Line, c: Line, e: Errors)
  {
    hide EncodeLevels;
    |s| >= 4096 && CellsNear(c, EncodeLevels(s), e)
  }

  lemma BlockWithin(s: Line, m: Matrix)
    requires |s| >= 4096 && Laid(s, 0, 64, 64, m) && Area(64, 64) == 4096 && InRange(s)
    ensures MatrixWithin(m, 4096)
  {
    hide Cell, Area;
    forall y, x | 0 <= y < 64 && 0 <= x < 64 ensures -4096 <= m[y][x] <= 4096 {
      assert m[y][x] == s[0 + Cell(y, x, 64)];
    }
  }

  /** The block of a buffer in range, and what its encoder leaves. */
  lemma BlockCode(s: Line) returns (m: Matrix)
    requires |s| >= 4096 && InRange(s)
    ensures Shape(m, 64, 64) && Area(64, 64) == 4096 && Laid(s, 0, 64, 64, m) && MatrixWithin(m, 4096)
    ensures EncoderReads(s, m) && EncoderLeaves(s, m)
  {
    hide Area, MatrixAt, Laid, MatrixWithin, InRange, EncoderReads, EncoderLeaves;
    Areas();
    m := MatrixAt(s, 0, 64, 64);
    LaidShape(s, 0, 64, 64, m);
    BlockWithin(s, m);
    EncoderStages(s, m);
    EncoderCode(s, m);
  }

  predicate CodeOf(c: Line, m: Matrix, e: Errors)
  {
    hide CodedAt, EncodedThree, CodedNear;
    |c| >= 4096 && Shape(m, 64, 64) && CodedNear(CodedAt(c), EncodedThree(m), e)
  }

  lemma CodeIsNear(s: Line, c: Line, m: Matrix, e: Errors)
    requires CodeNear(s, c, e) && EncoderLeaves(s, m)
    ensures CodeOf(c, m, e)
  {
    hide EncodeLevels, CodedAt, EncodedThree, CodedNear, BandOf, SameCode;
    BufferNear(c, EncodeLevels(s), e);
    NearSame(CodedAt(c), CodedAt(EncodeLevels(s)), EncodedThree(m), e);
  }

  predicate SampleOff(s: Line, d: Line, e: Errors, i: nat)
    requires i < |s| == |d|
  {
    -24 - SumOne(e) <= d[i] as int - s[i] as int <= SumOne(e) + 6
  }

  /** Main result on the buffer: for samples in the codec's range and a code whose bands are off by e, the decoder
      leaves every sample within -24 .. 6, widened by the weighted sum of e. */
  lemma BufferError(s: Line, c: Line, d: Line, e: Errors, i: nat)
    requires |d| == |c| == |s| >= 4096 && InRange(s) && CodeNear(s, c, e) && SumOne(e) <= 16000 && DecodesTo(c, d)
        && i < 4096
    ensures SampleOff(s, d, e, i)
  {
    hide Area, Cell, Flat, CodedAt, CodedNear, EncodedThree, BackOne, Laid, InRange, CodeNear, EncoderReads,
        EncoderLeaves, MatrixWithin, SumOne;
    var m := BlockCode(s);
    CodeIsNear(s, c, m, e);
    var r := BackOne(CodedAt(c));
    ThreeLevelError(m, CodedAt(c), e);
    var y, x := FindCell(64, 64, i);
    FlatAt(r, 64, 64);
    LaidCell(s, 0, 64, 64, m, y, x);
    assert NearBy(r[y], m[y], Off(-24 - SumOne(e), SumOne(e) + 6));
    assert d[..4096][i] == Flat(r)[Cell(y, x, 64)];
  }

  const NO_ERRORS: Errors := [0, 0, 0, 0, 0, 0, 0, 0, 0, 0]

  lemma ExactCode(s: Line, c: Line)
    requires |s| >= 4096 && c == EncodeLevels(s)
    ensures CodeNear(s, c, NO_ERRORS)
  {
    hide EncodeLevels, BandOf;
  }

  lemma NoSums()
    ensures SumThree(NO_ERRORS) == 0 && SumTwo(NO_ERRORS) == 0 && SumOne(NO_ERRORS) == 0
  {
    hide SumThree, SumTwo, SumOne;
    ZeroSums(NO_ERRORS);
  }

  lemma ZeroSums(e: Errors)
    requires forall k :: 0 <= k < 10 ==> e[k] == 0
    ensures SumThree(e) == 0 && SumTwo(e) == 0 && SumOne(e) == 0
  {
  }

  /** d is what the two drivers make of s. */
  predicate Returned(s: Line, d: Line)
    requires |s| >= 4096
  {
    hide EncodeLevels, DecodeLevels;
    d == DecodeLevels(EncodeLevels(s))
  }

  /** Without errors in between, the two drivers return every sample within -24 .. 6. */
  lemma DriverError(s: Line, d: Line, i: nat)
    requires |d| == |s| >= 4096 && InRange(s) && Returned(s, d) && i < 4096
    ensures -24 <= d[i] as int - s[i] as int <= 6
  {
    hide EncodeLevels, DecodeLevels, DecodesTo, InRange, CodeNear, SumOne;
    var c := EncodeLevels(s);
    DecoderLeaves(c, d);
    ExactCode(s, c);
    NoSums();
    BufferError(s, c, d, NO_ERRORS, i);
  }
}
