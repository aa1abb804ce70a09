/** The 32-bit window and the partly used byte through which libfreerdp-core/mppc.c reads its input. */
module MppcWindow {
  import opened Words
  import opened Bits
  import opened Mppc

  // ---- Words as windows ----

  /** The word whose top bits are w and whose other bits are zero. */
  function Word(w: seq<bool>): nat
    requires |w| <= 32
  {
    Shl(Val(w), 32 - |w|)
  }

  lemma {:induction false} LowShl(x: int, t: nat, n: nat)
    requires t <= n
    ensures Low(Shl(x, t), n) == Low(x, n)[t..] + Repeat(false, t)
  {
    hide Low, Shr, Shl, LowBits, Pow2;
    ShrLowUnique(x, 0, t);
    LowSplit(Shl(x, t), n - t, t);
    LowOfLow(Shl(x, t), t);
    LowZero(t);
    LowField(x, n, n - t, t);
  }

  lemma WordBits(w: seq<bool>)
    requires |w| <= 32
    ensures Word(w) < 0x1_0000_0000
    ensures Low(Word(w), 32) == w + Repeat(false, 32 - |w|)
  {
    hide Low, Shl, Val, Pow2;
    ValBound(w);
    ShlBelow(Val(w), 0, |w|, 32 - |w|);
    Pow2Of32();
    LowShl(Val(w), 32 - |w|, 32);
    LowField(Val(w), 32, |w|, 0);
    LowVal(w);
  }

  /** A 32-bit word is determined by its bits. */
  lemma SameBits(a: uint32, b: uint32)
    requires Low(a, 32) == Low(b, 32)
    ensures a == b
  {
    hide Low, LowBits;
    ValLow(a, 32);
    ValLow(b, 32);
    U32IsLowBits(a);
    U32IsLowBits(b);
  }

  lemma ShiftBits(d: uint32, n: nat)
    requires n <= 32
    ensures Low(ToU32(Shl(d, n)), 32) == Low(d, 32)[n..] + Repeat(false, n)
  {
    hide Low, Shl, LowBits;
    U32IsLowBits(Shl(d, n));
    LowOfLow(Shl(d, n), 32);
    LowShl(d, n, 32);
  }

  /** Two shifts are one. */
  lemma ShiftTwice(d: uint32, m: nat, n: nat)
    requires m + n <= 32
    ensures ToU32(Shl(ToU32(Shl(d, m)), n)) == ToU32(Shl(d, m + n))
  {
    hide Low, Shl;
    ShiftBits(d, m);
    ShiftBits(ToU32(Shl(d, m)), n);
    ShiftBits(d, m + n);
    SameBits(ToU32(Shl(ToU32(Shl(d, m)), n)), ToU32(Shl(d, m + n)));
  }

  lemma WordShift(w: seq<bool>, n: nat)
    requires |w| <= 32 && n <= 32
    ensures ToU32(Shl(Word(w), n)) == Word(Drop(w, n))
  {
    hide Low, Shl, Word;
    WordBits(w);
    WordBits(Drop(w, n));
    ShiftBits(Word(w), n);
    SameBits(ToU32(Shl(Word(w), n)), Word(Drop(w, n)));
  }

  /** `(d >> s) & ((1 << n) - 1)` is the field of n bits that ends s bits above the low end. */
  lemma FieldAt(d: uint32, s: nat, n: nat)
    requires s + n <= 32
    ensures LowBits(Shr(d, s), n) == Field(Low(d, 32), 32 - s - n, n)
  {
    hide Low, Shr, LowBits, Val;
    LowField(d, 32, s, n);
    ValLow(Shr(d, s), n);
  }

  /** `d >> (32 - n)` is the field of the n top bits. */
  lemma TopField(d: uint32, n: nat)
    requires n <= 32
    ensures Shr(d, 32 - n) == Field(Low(d, 32), 0, n)
  {
    hide Low, Shr, LowBits, Val, Pow2;
    FieldAt(d, 32 - n, n);
    Pow2Of32();
    ShrBelow(d, n, 32 - n);
    ShrLowUnique(0, Shr(d, 32 - n), n);
    ShlLinear(0, 0, n);
  }

  lemma WordAppend(w: seq<bool>, c: seq<bool>)
    requires |w| + |c| <= 32
    ensures Or(Word(w), Shl(Val(c), 32 - |w| - |c|)) == Word(w + c)
  {
    hide Or, Shl, Val, Pow2, Word;
    var s := 32 - |w| - |c|;
    ValBound(c);
    ValConcat(w, c);
    OrAppend(Val(w), Val(c), |c|, s);
    WordIs(w, |c| + s);
    WordIs(w + c, s);
  }

  lemma WordIs(w: seq<bool>, n: nat)
    requires |w| + n == 32
    ensures Word(w) == Shl(Val(w), n)
  {
  }

  lemma ByteTop(x: byte, n: nat)
    requires n <= 8
    ensures Shr(x, 8 - n) == Val(Low(x, 8)[..n])
  {
    hide Low, Shr, LowBits, Val, Pow2;
    LowField(x, 8, 8 - n, n);
    ValLow(Shr(x, 8 - n), n);
    Pow2Values();
    ShrBelow(x, n, 8 - n);
    ShrLowUnique(0, Shr(x, 8 - n), n);
    ShlLinear(0, 0, n);
  }

  lemma ByteShift(x: byte, n: nat)
    requires n <= 8
    ensures Low(ToU8(Shl(x, n)), 8) == Low(x, 8)[n..] + Repeat(false, n)
  {
    hide Low, Shl, LowBits;
    U8IsLowBits(Shl(x, n));
    LowOfLow(Shl(x, n), 8);
    LowShl(x, n, 8);
  }

  lemma U8IsLowBits(x: int)
    ensures ToU8(x) == LowBits(x, 8)
  {
    hide LowBits, Shr;
    ShrLow(x, 8);
    ShlIsTimes(Shr(x, 8), 8);
    Pow2Values();
  }

  // ---- The reading state ----

  /** Between them the top bits of d32, the top bits of curByte and the bytes not yet fetched are exactly
      the unread bits of the input. */
  ghost predicate Holds(d32: nat, bitsLeft: int, curByte: byte, curBits: nat, tail: seq<byte>, bits: seq<bool>)
  {
    var n := Max(bitsLeft, 0);
    && n <= 32 && n <= |bits| && curBits <= 8
    && d32 == Word(bits[..n])
    && bits[n..] == Low(curByte, 8)[..curBits] + OfBytes(tail)
    && (bitsLeft < 0 ==> bits == [])
  }

  /** The window is full, or the input is used up. */
  ghost predicate Full(bitsLeft: int, curBits: nat, tail: seq<byte>)
  {
    bitsLeft == 32 || (curBits == 0 && tail == [])
  }

  /** A full window shows the bits ahead. */
  lemma FullWindow(d32: nat, bitsLeft: int, curByte: byte, curBits: nat, tail: seq<byte>, bits: seq<bool>)
    requires Holds(d32, bitsLeft, curByte, curBits, tail, bits) && Full(bitsLeft, curBits, tail)
    ensures d32 < 0x1_0000_0000 && Low(d32, 32) == Ahead(bits)
    ensures bitsLeft >= 8 <==> |bits| >= 8
  {
    hide Low, Word;
    var n := Max(bitsLeft, 0);
    WordBits(bits[..n]);
    assert n < 32 ==> bits[..n] == bits;
  }

  /** What the reading state says of the window and of the bits behind it. */
  lemma WindowIs(d32: nat, bitsLeft: int, curByte: byte, curBits: nat, tail: seq<byte>, bits: seq<bool>)
    requires Holds(d32, bitsLeft, curByte, curBits, tail, bits)
    ensures var m := Max(bitsLeft, 0);
            && m <= 32 && m <= |bits| && curBits <= 8 && d32 == Word(bits[..m])
            && bits[m..] == Low(curByte, 8)[..curBits] + OfBytes(tail) && (bitsLeft < 0 ==> bits == [])
  {
    hide Word, OfBytes, Low;
  }

  /** A window without its first n bits. */
  lemma Moved(d: nat, bitsLeft: int, curByte: byte, curBits: nat, tail: seq<byte>, bits: seq<bool>, n: nat)
    requires curBits <= 8 && Full(bitsLeft, curBits, tail) && (bitsLeft < 0 ==> bits == [])
    requires var m := Max(bitsLeft, 0);
             && m <= 32 && m <= |bits| && d == Word(Drop(bits[..m], n))
             && bits[m..] == Low(curByte, 8)[..curBits] + OfBytes(tail) && n <= 32
    ensures Holds(d, bitsLeft - n, curByte, curBits, tail, Drop(bits, n))
  {
    hide Word, OfBytes, Low;
    var m := Max(bitsLeft, 0);
    if n <= m {
      assert Drop(bits, n)[..m - n] == Drop(bits[..m], n);
      assert Drop(bits, n)[m - n..] == bits[m..];
    } else {
      assert bits[..m] == bits;
      assert Drop(bits, n) == [];
    }
  }

  /** Shifting the window and lowering the count moves past n bits. */
  lemma Consume(d32: uint32, bitsLeft: int, curByte: byte, curBits: nat, tail: seq<byte>, bits: seq<bool>, n: nat)
    requires Holds(d32, bitsLeft, curByte, curBits, tail, bits) && Full(bitsLeft, curBits, tail) && n <= 32
    ensures Holds(ToU32(Shl(d32, n)), bitsLeft - n, curByte, curBits, tail, Drop(bits, n))
  {
    hide Holds, Word, OfBytes, Shl, Low, ToU32;
    WindowIs(d32, bitsLeft, curByte, curBits, tail, bits);
    var m := Max(bitsLeft, 0);
    WordShift(bits[..m], n);
    Moved(ToU32(Shl(d32, n)), bitsLeft, curByte, curBits, tail, bits, n);
  }

  /** Or-ing the top t bits of the current byte in below the window moves them there. */
  lemma TakeFromByte(d32: uint32, bitsLeft: int, curByte: byte, curBits: nat, tail: seq<byte>, bits: seq<bool>, t: nat)
    requires Holds(d32, bitsLeft, curByte, curBits, tail, bits) && t <= curBits && bitsLeft + t <= 32
    ensures Shr(curByte, 8 - t) >= 0
    ensures var d := Or(d32, ToU32(Shl(Shr(curByte, 8 - t), 32 - bitsLeft - t)));
            d < 0x1_0000_0000 && Holds(d, bitsLeft + t, ToU8(Shl(curByte, t)), curBits - t, tail, bits)
  {
    hide Word, Low, Val, OfBytes, Shl, Shr, Or;
    ByteTop(curByte, t);
    if bitsLeft < 0 {
      var c := Low(curByte, 8)[..t];
      assert t == 0 && c == [] && Val(c) == 0 by { ValEmpty(); }
      ShlLinear(0, 0, 32 - bitsLeft - t);
      OrZero(d32);
    } else {
      AppendFromByte(d32, bitsLeft, curByte, curBits, tail, bits, t);
    }
  }

  lemma AppendFromByte(d32: uint32, n: nat, curByte: byte, curBits: nat, tail: seq<byte>, bits: seq<bool>, t: nat)
    requires Holds(d32, n, curByte, curBits, tail, bits) && t <= curBits && n + t <= 32
    ensures var d := Or(d32, ToU32(Shl(Val(Low(curByte, 8)[..t]), 32 - n - t)));
            d < 0x1_0000_0000 && Holds(d, n + t, ToU8(Shl(curByte, t)), curBits - t, tail, bits)
  {
    hide Word, Low, Val, OfBytes, Shl, Or;
    var c := Low(curByte, 8)[..t];
    assert bits[n..n + t] == bits[n..][..t] == c;
    assert bits[..n + t] == bits[..n] + c;
    WordAppend(bits[..n], c);
    FieldInWord(c, n);
    WordBits(bits[..n + t]);
    ByteShift(curByte, t);
    assert bits[n + t..] == bits[n..][t..] == Low(curByte, 8)[t..curBits] + OfBytes(tail);
    assert Low(ToU8(Shl(curByte, t)), 8)[..curBits - t] == Low(curByte, 8)[t..curBits];
  }

  lemma FieldInWord(c: seq<bool>, n: nat)
    requires n + |c| <= 32
    ensures 0 <= Shl(Val(c), 32 - n - |c|) < 0x1_0000_0000
  {
    hide Val, Shl, Pow2;
    ValBound(c);
    ShlBelow(Val(c), 0, |c|, 32 - n - |c|);
    Pow2Mono(32 - n, 32);
    Pow2Of32();
  }

  /** A used-up byte gives way to the next one. */
  lemma FetchByte(d32: nat, bitsLeft: int, curByte: byte, cbuf: seq<byte>, cptr: nat, bits: seq<bool>)
    requires cptr < |cbuf| && Holds(d32, bitsLeft, curByte, 0, cbuf[cptr..], bits)
    ensures Holds(d32, bitsLeft, cbuf[cptr], 8, cbuf[cptr + 1..], bits)
  {
    hide Word, Low;
    assert cbuf[cptr..][1..] == cbuf[cptr + 1..];
  }

  /** The refill loop that precedes every table look-up. */
  method Refill(d: uint32, left: int, cur: byte, curLeft: nat, cbuf: seq<byte>, next: nat, ghost bits: seq<bool>)
    returns (d32: uint32, bitsLeft: int, curByte: byte, curBits: nat, cptr: nat)
    requires next <= |cbuf| && Holds(d, left, cur, curLeft, cbuf[next..], bits)
    ensures cptr <= |cbuf| && Holds(d32, bitsLeft, curByte, curBits, cbuf[cptr..], bits)
    ensures Full(bitsLeft, curBits, cbuf[cptr..])
  {
    hide Holds, Shr, Or;
    d32, bitsLeft, curByte, curBits, cptr := d, left, cur, curLeft, next;
    HoldsBounds(d32, bitsLeft, curByte, curBits, cbuf[cptr..], bits);
    var tmp := 32 - bitsLeft;
    while tmp != 0
      invariant cptr <= |cbuf| && curBits <= 8 && bitsLeft <= 32
      invariant Holds(d32, bitsLeft, curByte, curBits, cbuf[cptr..], bits)
      invariant tmp == 32 - bitsLeft || (tmp == 0 && curBits == 0 && cptr == |cbuf|)
      decreases |cbuf| - cptr, tmp
    {
      var t := if curBits < tmp then curBits else tmp;
      TakeFromByte(d32, bitsLeft, curByte, curBits, cbuf[cptr..], bits, t);
      if curBits < tmp {
        // fewer bits than needed
        d32 := Or(d32, ToU32(Shl(Shr(curByte, 8 - curBits), 32 - bitsLeft - curBits)));
        bitsLeft := bitsLeft + curBits;
        tmp := tmp - curBits;
        ByteIsIrrelevant(d32, bitsLeft, ToU8(Shl(curByte, t)), curByte, cbuf[cptr..], bits);
        if cptr < |cbuf| {
          FetchByte(d32, bitsLeft, curByte, cbuf, cptr, bits);
          curByte := cbuf[cptr];
          cptr := cptr + 1;
          curBits := 8;
        } else {
          tmp := 0;
          curBits := 0;
        }
      } else if curBits > tmp {
        // more bits than needed
        SmallShift(curByte, tmp);
        d32 := Or(d32, Shr(curByte, 8 - tmp));
        curByte := ToU8(Shl(curByte, tmp));
        curBits := curBits - tmp;
        bitsLeft := 32;
        break;
      } else {
        // just as many bits as needed
        SmallShift(curByte, tmp);
        d32 := Or(d32, Shr(curByte, 8 - tmp));
        bitsLeft := 32;
        ByteIsIrrelevant(d32, bitsLeft, ToU8(Shl(curByte, t)), curByte, cbuf[cptr..], bits);
        if cptr < |cbuf| {
          FetchByte(d32, bitsLeft, curByte, cbuf, cptr, bits);
          curByte := cbuf[cptr];
          cptr := cptr + 1;
          curBits := 8;
        } else {
          curBits := 0;
        }
        break;
      }
    }
  }

  lemma HoldsBounds(d32: nat, bitsLeft: int, curByte: byte, curBits: nat, tail: seq<byte>, bits: seq<bool>)
    requires Holds(d32, bitsLeft, curByte, curBits, tail, bits)
    ensures bitsLeft <= 32 && curBits <= 8
  {
  }

  lemma ByteIsIrrelevant(d32: nat, bitsLeft: int, a: byte, b: byte, tail: seq<byte>, bits: seq<bool>)
    requires Holds(d32, bitsLeft, a, 0, tail, bits)
    ensures Holds(d32, bitsLeft, b, 0, tail, bits)
  {
    hide Low, Word, OfBytes;
    assert Low(a, 8)[..0] == Low(b, 8)[..0];
  }

  lemma SmallShift(x: byte, n: nat)
    requires n <= 8
    ensures ToU32(Shl(Shr(x, 8 - n), 0)) == Shr(x, 8 - n)
  {
    Pow2Values();
    ShrBelow(x, n, 8 - n);
    Pow2Mono(n, 8);
  }

  // ---- Table look-ups ----

  /** The top n + 1 bits are the top n bits and one more. */
  lemma TopStep(w: seq<bool>, n: nat)
    requires n < |w|
    ensures Field(w, 0, n + 1) == 2 * Field(w, 0, n) + (if w[n] then 1 else 0)
  {
    assert w[0..n + 1][..n] == w[0..n];
  }

  /** The tests on the top bits of the window that the tables use: masking and comparing looks at a prefix of bits. */
  lemma TopTests(d: uint32)
    ensures var w := Low(d, 32);
            && (Shr(d, 31) == 0 <==> !w[0])
            && (Shr(d, 30) == 2 <==> w[0] && !w[1])
            && (Shr(d, 29) == 6 <==> w[0] && w[1] && !w[2])
            && (Shr(d, 28) == 14 <==> w[0] && w[1] && w[2] && !w[3])
            && (Shr(d, 28) == 15 <==> w[0] && w[1] && w[2] && w[3])
            && (Shr(d, 27) == 30 <==> w[0] && w[1] && w[2] && w[3] && !w[4])
            && (Shr(d, 27) == 31 <==> w[0] && w[1] && w[2] && w[3] && w[4])
  {
    hide Low, Shr, Field;
    var w := Low(d, 32);
    assert Field(w, 0, 0) == 0 by { FieldEmpty(w); }
    TopStep(w, 0); TopStep(w, 1); TopStep(w, 2); TopStep(w, 3); TopStep(w, 4);
    TopField(d, 1); TopField(d, 2); TopField(d, 3); TopField(d, 4); TopField(d, 5);
  }

  lemma FieldEmpty(w: seq<bool>)
    ensures Field(w, 0, 0) == 0
  {
    assert w[0..0] == [];
  }

  /** A left shift by m and a right shift by 32 - n read the field of n bits behind the first m. */
  lemma ShiftedField(d: uint32, m: nat, n: nat)
    requires m + n <= 32
    ensures Shr(ToU32(Shl(d, m)), 32 - n) == Field(Low(d, 32), m, n)
  {
    hide Low, Shr, Shl, Val;
    ShiftBits(d, m);
    TopField(ToU32(Shl(d, m)), n);
    var w, s := Low(d, 32), Low(ToU32(Shl(d, m)), 32);
    assert s[0..n] == w[m..m + n];
  }

  /** The literal and offset tables (`decompress_rdp_4` and `decompress_rdp_5`). */
  method LookupHead(v: Variant, d: uint32) returns (literal: bool, value: nat, d32: uint32, used: nat)
    ensures var h := ReadHead(v, Low(d, 32));
            && used == h.used && d32 == ToU32(Shl(d, used)) && literal == h.Lit?
            && value == (if h.Lit? then h.b else h.offset)
  {
    hide Low, Shr, Shl, Field, Val;
    TopTests(d);
    literal, value, d32, used := false, 0, d, 0;
    if Shr(d, 31) == 0 {
      // 0xxxxxxx: literal
      literal, value, d32, used := HeadCase(d, true, 0, 8, 0);
    } else if Shr(d, 30) == 2 {
      // 10xxxxxxx: literal with the top bit set
      literal, value, d32, used := HeadCase(d, true, 2, 7, 128);
    } else if v == Rdp4 {
      if Shr(d, 28) == 15 {
        literal, value, d32, used := HeadCase(d, false, 4, 6, 0);
      } else if Shr(d, 28) == 14 {
        literal, value, d32, used := HeadCase(d, false, 4, 8, 64);
      } else if Shr(d, 29) == 6 {
        literal, value, d32, used := HeadCase(d, false, 3, 13, 320);
      }
    } else {
      if Shr(d, 27) == 31 {
        literal, value, d32, used := HeadCase(d, false, 5, 6, 0);
      } else if Shr(d, 27) == 30 {
        literal, value, d32, used := HeadCase(d, false, 5, 8, 64);
      } else if Shr(d, 28) == 14 {
        literal, value, d32, used := HeadCase(d, false, 4, 11, 320);
      } else if Shr(d, 29) == 6 {
        literal, value, d32, used := HeadCase(d, false, 3, 16, 2368);
      }
    }
  }

  /** One row of a table: skip the prefix, read n bits, add the base in 16 bits, skip the n bits. */
  method HeadCase(d: uint32, lit: bool, prefix: nat, n: nat, base: nat)
    returns (literal: bool, value: nat, d32: uint32, used: nat)
    requires prefix + n <= 32 && base <= 2368
    ensures literal == lit && used == prefix + n && d32 == ToU32(Shl(d, used))
    ensures value == ToU16(base + Field(Low(d, 32), prefix, n))
    ensures n < 16 ==> value == base + Field(Low(d, 32), prefix, n)
  {
    hide Low, Shr, Shl, Val;
    literal := lit;
    d32 := ToU32(Shl(d, prefix));
    ShiftedField(d, prefix, n);
    value := ToU16(base + Shr(d32, 32 - n));
    if n < 16 {
      Pow2Mono(n, 15);
      Pow2Of15();
    }
    ShiftTwice(d, prefix, n);
    d32 := ToU32(Shl(d32, n));
    used := prefix + n;
  }

  lemma Pow2Of15()
    ensures Pow2(15) == 32768
  {
    Pow2Values();
  }

  /** m ones in front and a zero behind them, as a test on the top m + 1 bits; and the length they announce. */
  lemma LengthRow(d: uint32, m: nat)
    requires 1 <= m <= 15 && forall i :: 0 <= i < m ==> Low(d, 32)[i]
    ensures var w := Low(d, 32);
            && (Shr(d, 31 - m) == Pow2(m + 1) - 2 <==> !w[m])
            && (!w[m] ==> Ones(w) == m)
            && (m <= 14 ==> LowBits(Shr(d, 30 - 2 * m), m + 1) == Field(w, m + 1, m + 1))
  {
    hide Low, Shr, Field, Ones, LowBits;
    var w := Low(d, 32);
    TopOnes(w, m);
    TopStep(w, m);
    TopField(d, m + 1);
    if m <= 14 {
      FieldAt(d, 30 - 2 * m, m + 1);
    }
    if !w[m] {
      OnesAre(w, m);
    }
  }

  lemma {:induction false} TopOnes(w: seq<bool>, m: nat)
    requires m <= |w| && forall i :: 0 <= i < m ==> w[i]
    ensures Field(w, 0, m) == Pow2(m) - 1
  {
    if m == 0 {
      FieldEmpty(w);
    } else {
      TopOnes(w, m - 1);
      TopStep(w, m - 1);
    }
  }

  lemma {:induction false} OnesAre(w: seq<bool>, m: nat)
    requires m < |w| && (forall i :: 0 <= i < m ==> w[i]) && !w[m]
    ensures Ones(w) == m
  {
  }

  lemma ManyOnes(w: seq<bool>, m: nat)
    requires m < |w| && forall i :: 0 <= i <= m ==> w[i]
    ensures Ones(w) > m
  {
  }

  /** The first length row: a single 0 bit. */
  lemma LengthThree(d: uint32)
    ensures Shr(d, 31) == 0 <==> !Low(d, 32)[0]
    ensures !Low(d, 32)[0] ==> Ones(Low(d, 32)) == 0
  {
    TopTests(d);
  }

  /** One row of the length table: m ones and a zero were seen. */
  method LengthCase(d: uint32, m: nat, ghost v: Variant) returns (lom: nat, d32: uint32, used: nat)
    requires 1 <= m <= MaxOnes(v) && Ones(Low(d, 32)) == m
    requires LowBits(Shr(d, 30 - 2 * m), m + 1) == Field(Low(d, 32), m + 1, m + 1)
    ensures ReadLength(v, Low(d, 32)) == Len(lom, used) && d32 == ToU32(Shl(d, used))
  {
    lom := LowBits(Shr(d, 30 - 2 * m), m + 1) + Pow2(m + 1);
    used := 2 * m + 2;
    d32 := ToU32(Shl(d, used));
  }

  /** The length table (`decompress_rdp_4` stops after twelve rows). */
  method LookupLength(v: Variant, d: uint32) returns (lom: nat, d32: uint32, used: nat)
    ensures ReadLength(v, Low(d, 32)) == Len(lom, used) && d32 == ToU32(Shl(d, used))
  {
    hide Low, Shr, Field, Ones, LowBits, Shl, ReadLength;
    LengthThree(d);
    if Shr(d, 31) == 0 {
      lom, d32, used := ThreeCase(d, v);
      return;
    }
    LengthRow(d, 1);
    if Shr(d, 30) == 0x2 { lom, d32, used := LengthCase(d, 1, v); return; }
    LengthRow(d, 2);
    if Shr(d, 29) == 0x6 { lom, d32, used := LengthCase(d, 2, v); return; }
    LengthRow(d, 3);
    if Shr(d, 28) == 0xE { lom, d32, used := LengthCase(d, 3, v); return; }
    LengthRow(d, 4);
    if Shr(d, 27) == 0x1E { lom, d32, used := LengthCase(d, 4, v); return; }
    LengthRow(d, 5);
    if Shr(d, 26) == 0x3E { lom, d32, used := LengthCase(d, 5, v); return; }
    LengthRow(d, 6);
    if Shr(d, 25) == 0x7E { lom, d32, used := LengthCase(d, 6, v); return; }
    LengthRow(d, 7);
    if Shr(d, 24) == 0xFE { lom, d32, used := LengthCase(d, 7, v); return; }
    lom, d32, used := LookupLongLength(v, d);
  }

  method ThreeCase(d: uint32, ghost v: Variant) returns (lom: nat, d32: uint32, used: nat)
    requires Ones(Low(d, 32)) == 0
    ensures ReadLength(v, Low(d, 32)) == Len(lom, used) && d32 == ToU32(Shl(d, used))
  {
    lom, d32, used := 3, ToU32(Shl(d, 1)), 1;
  }

  method LookupLongLength(v: Variant, d: uint32) returns (lom: nat, d32: uint32, used: nat)
    requires forall i :: 0 <= i < 8 ==> Low(d, 32)[i]
    ensures ReadLength(v, Low(d, 32)) == Len(lom, used) && d32 == ToU32(Shl(d, used))
  {
    hide Low, Shr, Field, Ones, LowBits, Shl, ReadLength;
    LengthRow(d, 8);
    if Shr(d, 23) == 0x1FE { lom, d32, used := LengthCase(d, 8, v); return; }
    LengthRow(d, 9);
    if Shr(d, 22) == 0x3FE { lom, d32, used := LengthCase(d, 9, v); return; }
    LengthRow(d, 10);
    if Shr(d, 21) == 0x7FE { lom, d32, used := LengthCase(d, 10, v); return; }
    LengthRow(d, 11);
    if Shr(d, 20) == 0xFFE { lom, d32, used := LengthCase(d, 11, v); return; }
    if v == Rdp5 {
      lom, d32, used := LookupLongestLength(v, d);
    } else {
      // no row: the length keeps the 0 the last copy left in it
      NoRow(v, d);
      lom, d32, used := 0, d, 0;
    }
  }

  method LookupLongestLength(v: Variant, d: uint32) returns (lom: nat, d32: uint32, used: nat)
    requires v == Rdp5 && forall i :: 0 <= i < 12 ==> Low(d, 32)[i]
    ensures ReadLength(v, Low(d, 32)) == Len(lom, used) && d32 == ToU32(Shl(d, used))
  {
    hide Low, Shr, Field, Ones, LowBits, Shl, ReadLength;
    LengthRow(d, 12);
    if Shr(d, 19) == 0x1FFE { lom, d32, used := LengthCase(d, 12, v); return; }
    LengthRow(d, 13);
    if Shr(d, 18) == 0x3FFE { lom, d32, used := LengthCase(d, 13, v); return; }
    LengthRow(d, 14);
    if Shr(d, 17) == 0x7FFE { lom, d32, used := LengthCase(d, 14, v); return; }
    NoRow(v, d);
    lom, d32, used := 0, d, 0;
  }

  lemma NoRow(v: Variant, d: uint32)
    requires forall i :: 0 <= i <= MaxOnes(v) ==> Low(d, 32)[i]
    ensures ReadLength(v, Low(d, 32)) == Len(0, 0) && ToU32(Shl(d, 0)) == d
  {
    hide Low, Field;
    ManyOnes(Low(d, 32), MaxOnes(v));
  }
}
