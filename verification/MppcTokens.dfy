/** Every token list coded by the tables of libfreerdp-core/mppc.c is read back. */
module MppcTokens {
  import opened Words
  import opened Bits
  import opened Mppc

  /** Copy tuples that the tables can code. */
  predicate WellFormed(v: Variant, t: Token)
  {
    match t
    case Literal(_) => true
    case Copy(o, n) => if v == Rdp4 then 1 <= o < 8512 && 3 <= n < 8192 else 1 <= o < 65536 && 3 <= n < 65536
    case Skip => false
  }

  function HeadBits(v: Variant, t: Token): (b: seq<bool>)
    requires WellFormed(v, t)
    ensures |b| >= 8
  {
    match t
    case Literal(b) => if b < 128 then Low(b, 8) else [true, false] + Low(b, 7)
    case Copy(o, _) =>
      if v == Rdp4 then
        if o < 64 then [true, true, true, true] + Low(o, 6)
        else if o < 320 then [true, true, true, false] + Low(o - 64, 8)
        else [true, true, false] + Low(o - 320, 13)
      else
        if o < 64 then [true, true, true, true, true] + Low(o, 6)
        else if o < 320 then [true, true, true, true, false] + Low(o - 64, 8)
        else if o < 2368 then [true, true, true, false] + Low(o - 320, 11)
        else [true, true, false] + Low(o - 2368, 16)
  }

  /** The length n is coded by as many ones as its binary form has digits, less 2. */
  function LengthBits(n: nat): seq<bool>
    requires n >= 3
  {
    if n == 3 then [false]
    else
      AtLeastTwoDigits(n);
      var m := MinBits(n) - 2;
      Repeat(true, m) + [false] + Low(n, m + 1)
  }

  lemma AtLeastTwoDigits(n: nat)
    requires n >= 4
    ensures MinBits(n) >= 3
  {
  }

  function TokenBits(v: Variant, t: Token): (b: seq<bool>)
    requires WellFormed(v, t)
    ensures |b| >= 8
  {
    HeadBits(v, t) + (if t.Copy? then LengthBits(t.length) else [])
  }

  function Code(v: Variant, ts: seq<Token>): seq<bool>
    requires forall t :: t in ts ==> WellFormed(v, t)
  {
    if ts == [] then [] else TokenBits(v, ts[0]) + Code(v, ts[1..])
  }

  lemma {:induction false} LowBack(x: nat, n: nat)
    requires x < Pow2(n)
    ensures Val(Low(x, n)) == x
  {
    hide Val, Low, LowBits;
    ValLow(x, n);
    ShrLowUnique(0, x, n);
    ShlLinear(0, 0, n);
  }

  lemma SliceOfPrefix(b: seq<bool>, w: seq<bool>, from: nat, n: nat)
    requires b <= w && from + n <= |b|
    ensures w[from..from + n] == b[from..from + n]
  {
  }

  /** A field of the bits ahead that lies within b. */
  lemma FieldOf(b: seq<bool>, rest: seq<bool>, from: nat, x: nat, n: nat)
    requires from + n <= |b| <= 32 && b[from..from + n] == Low(x, n) && x < Pow2(n)
    ensures Field(Ahead(b + rest), from, n) == x
  {
    hide Val, Low, Pow2;
    var w := Ahead(b + rest);
    var long := b + rest + Repeat(false, 32);
    assert w == long[..32] && long[..|b|] == b;
    SliceOfPrefix(b, w, from, n);
    LowBack(x, n);
  }

  lemma FieldPowers()
    ensures Pow2(6) == 64 && Pow2(7) == 128 && Pow2(8) == 256 && Pow2(11) == 2048
    ensures Pow2(13) == 8192 && Pow2(16) == 65536
  {
    Pow2Values();
  }

  /** The decoder's reading of a literal or an offset inverts its code. */
  lemma HeadBack(v: Variant, t: Token, rest: seq<bool>)
    requires WellFormed(v, t)
    ensures var b := HeadBits(v, t);
            var h := ReadHead(v, Ahead(b + rest));
            && h.used == |b|
            && (t.Literal? ==> h.Lit? && h.b == t.b)
            && (t.Copy? ==> h.Off? && h.offset == t.offset)
  {
    match t
    case Literal(x) => LiteralBack(v, x, rest);
    case Copy(o, n) => if v == Rdp4 { Offset4Back(o, n, rest); } else { Offset5Back(o, n, rest); }
  }

  lemma LiteralBack(v: Variant, x: byte, rest: seq<bool>)
    ensures var b := HeadBits(v, Literal(x)); ReadHead(v, Ahead(b + rest)) == Lit(x, |b|)
  {
    hide Val, Low, Pow2, Field;
    FieldPowers();
    var b := HeadBits(v, Literal(x));
    var w := Ahead(b + rest);
    if x < 128 {
      FieldOf(b, rest, 0, x, 8);
      TopBitClear(x);
      assert w[0] == b[0];
    } else {
      assert b[2..9] == Low(x, 7) == Low(x - 128, 7) by { LowSkipsTop(x); }
      FieldOf(b, rest, 2, x - 128, 7);
      assert w[0] && !w[1];
    }
  }

  lemma TopBitClear(x: byte)
    requires x < 128
    ensures !Low(x, 8)[0]
  {
    LowSplit(x, 1, 7);
    FieldPowers();
    ShrBelow(x, 0, 7);
    assert Low(0, 1) == [false];
  }

  lemma LowSkipsTop(x: byte)
    requires x >= 128
    ensures Low(x, 7) == Low(x - 128, 7)
  {
    hide Low, LowBits, Shr;
    FieldPowers();
    ShlBounds(1, 7);
    ShrLowUnique(1, x - 128, 7);
    ShrLowUnique(0, x - 128, 7);
    ShlLinear(0, 0, 7);
    LowOfLow(x, 7);
    LowOfLow(x - 128, 7);
  }

  lemma Offset4Back(o: nat, n: nat, rest: seq<bool>)
    requires WellFormed(Rdp4, Copy(o, n))
    ensures var b := HeadBits(Rdp4, Copy(o, n)); ReadHead(Rdp4, Ahead(b + rest)) == Off(o, |b|)
  {
    hide Val, Low, Pow2, Field;
    FieldPowers();
    var b := HeadBits(Rdp4, Copy(o, n));
    var w := Ahead(b + rest);
    assert w[0] == b[0] && w[1] == b[1] && w[2] == b[2] && w[3] == b[3];
    if o < 64 {
      FieldOf(b, rest, 4, o, 6);
    } else if o < 320 {
      FieldOf(b, rest, 4, o - 64, 8);
    } else {
      FieldOf(b, rest, 3, o - 320, 13);
    }
  }

  lemma Offset5Back(o: nat, n: nat, rest: seq<bool>)
    requires WellFormed(Rdp5, Copy(o, n))
    ensures var b := HeadBits(Rdp5, Copy(o, n)); ReadHead(Rdp5, Ahead(b + rest)) == Off(o, |b|)
  {
    hide Val, Low, Pow2, Field;
    FieldPowers();
    var b := HeadBits(Rdp5, Copy(o, n));
    var w := Ahead(b + rest);
    assert w[0] == b[0] && w[1] == b[1] && w[2] == b[2] && w[3] == b[3] && w[4] == b[4];
    if o < 64 {
      FieldOf(b, rest, 5, o, 6);
    } else if o < 320 {
      FieldOf(b, rest, 5, o - 64, 8);
    } else if o < 2368 {
      FieldOf(b, rest, 4, o - 320, 11);
    } else {
      FieldOf(b, rest, 3, o - 2368, 16);
    }
  }

  lemma {:induction false} OnesOf(m: nat, w: seq<bool>)
    requires m < |w| && (forall i :: 0 <= i < m ==> w[i]) && !w[m]
    ensures Ones(w) == m
  {
    if m > 0 {
      OnesOf(m - 1, w[1..]);
    }
  }

  /** The decoder's reading of a length inverts its code. */
  lemma LengthBack(v: Variant, n: nat, rest: seq<bool>)
    requires 3 <= n < (if v == Rdp4 then 8192 else 65536)
    ensures var b := LengthBits(n); ReadLength(v, Ahead(b + rest)) == Len(n, |b|)
  {
    hide Val, Low, Pow2, Field, MinBits, Ones;
    var b := LengthBits(n);
    var w := Ahead(b + rest);
    if n == 3 {
      OnesOf(0, w);
    } else {
      AtLeastTwoDigits(n);
      var m := MinBits(n) - 2;
      LengthDigits(v, n);
      assert b[m + 1..2 * m + 2] == Low(n, m + 1);
      OnesOf(m, w);
      LowOfTop(n, m + 1);
      FieldOf(b, rest, m + 1, n - Pow2(m + 1), m + 1);
    }
  }

  /** A length of m + 2 binary digits. */
  lemma LengthDigits(v: Variant, n: nat)
    requires 4 <= n < (if v == Rdp4 then 8192 else 65536)
    ensures var m := MinBits(n) - 2; 1 <= m <= MaxOnes(v) && Pow2(m + 1) <= n < 2 * Pow2(m + 1)
  {
    hide MinBits;
    FieldPowers();
    AtLeastTwoDigits(n);
    MinBitsBound(n, if v == Rdp4 then 13 else 16);
    MinBitsBound(n, MinBits(n) - 1);
  }

  lemma LowOfTop(n: nat, k: nat)
    requires Pow2(k) <= n < 2 * Pow2(k)
    ensures Low(n, k) == Low(n - Pow2(k), k)
  {
    hide Low, LowBits, Shr, Shl;
    ShlBounds(1, k);
    ShrLowUnique(1, n - Pow2(k), k);
    ShrLowUnique(0, n - Pow2(k), k);
    ShlLinear(0, 0, k);
    LowOfLow(n, k);
    LowOfLow(n - Pow2(k), k);
  }

  lemma ParseToken(v: Variant, t: Token, tail: seq<bool>)
    requires WellFormed(v, t)
    ensures Parse(v, TokenBits(v, t) + tail) == [t] + Parse(v, tail)
  {
    hide ReadHead, ReadLength, HeadBits, LengthBits, Ahead;
    var bits := TokenBits(v, t) + tail;
    var hb := HeadBits(v, t);
    if t.Copy? {
      var lb := LengthBits(t.length);
      assert bits == hb + (lb + tail);
      HeadBack(v, t, lb + tail);
      LengthBack(v, t.length, tail);
      assert Drop(bits, |hb|) == lb + tail && Drop(lb + tail, |lb|) == tail;
    } else {
      assert bits == hb + tail;
      HeadBack(v, t, tail);
      assert Drop(bits, |hb|) == tail;
    }
  }

  lemma ParseShort(v: Variant, pad: seq<bool>)
    requires |pad| < 8
    ensures Parse(v, pad) == []
  {
  }

  /** Main result: parsing inverts coding, whatever fewer than 8 bits of padding follow. */
  lemma {:induction false} ParseCode(v: Variant, ts: seq<Token>, pad: seq<bool>)
    requires |pad| < 8 && forall t :: t in ts ==> WellFormed(v, t)
    ensures Parse(v, Code(v, ts) + pad) == ts
  {
    hide Parse, WellFormed, TokenBits;
    if ts == [] {
      assert Code(v, ts) + pad == pad;
      ParseShort(v, pad);
    } else {
      ParseCode(v, ts[1..], pad);
      ParseToken(v, ts[0], Code(v, ts[1..]) + pad);
      assert Code(v, ts) + pad == TokenBits(v, ts[0]) + (Code(v, ts[1..]) + pad);
    }
  }
}
