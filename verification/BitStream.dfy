/** The bit-packed buffer of the RemoteFX entropy coder (libfreerdp-codec/rfx_bitstream.h). */
module BitStream {
  import opened Words
  import opened Bits

  /** A buffer at the start of a sequence of writes: bits behind and ahead of the cursor, bytes past the end. */
  datatype Mark = Mark(done: seq<bool>, rest: seq<bool>, above: seq<byte>)

  class BitStream {
    var buffer: array<byte>
    var nbytes: nat
    var bytePos: nat
    var bitsLeft: nat

    ghost predicate Valid()
      reads this
    {
      && bytePos <= nbytes <= buffer.Length
      && 1 <= bitsLeft <= 8
      && (bytePos == nbytes ==> bitsLeft == 8)
    }

    /** Bits before the cursor. */
    ghost function Pos(): nat
      requires Valid()
      reads this
    {
      8 * bytePos + 8 - bitsLeft
    }

    ghost function All(): seq<bool>
      requires Valid()
      reads this, buffer
    {
      OfBytes(buffer[..nbytes])
    }

    /** Bits behind the cursor. */
    ghost function Done(): seq<bool>
      requires Valid()
      reads this, buffer
    {
      All()[..Pos()]
    }

    /** Bits ahead of the cursor. */
    ghost function Rest(): seq<bool>
      requires Valid()
      reads this, buffer
    {
      All()[Pos()..]
    }

    constructor (b: array<byte>, n: nat)
      requires n <= b.Length
      ensures Valid() && buffer == b && nbytes == n && Pos() == 0
    {
      buffer := b;
      nbytes := n;
      bytePos := 0;
      bitsLeft := 8;
    }

    predicate Eos()
      reads this
    {
      bytePos >= nbytes
    }

    lemma EosIffNoRest()
      requires Valid()
      ensures Eos() <==> Rest() == []
    {
    }

    function Left(): (n: nat)
      requires Valid()
      reads this, buffer
      ensures n == |Rest()|
    {
      if bytePos >= nbytes then 0 else (nbytes - bytePos - 1) * 8 + bitsLeft
    }

    /** The least number of bytes that hold all bits before the cursor. */
    function ProcessedBytes(): (n: nat)
      requires Valid()
      reads this, buffer
      ensures n <= nbytes && Pos() <= 8 * n < Pos() + 8
    {
      if bitsLeft < 8 then bytePos + 1 else bytePos
    }

    /** The bits ahead start with the unread part of the current byte. */
    lemma RestInByte(b: nat)
      requires Valid() && bytePos < nbytes && b <= bitsLeft
      ensures b <= |Rest()|
      ensures Rest()[..b] == Low(Shr(buffer[bytePos], bitsLeft - b), b)
    {
      hide OfBytes, Low, Shr;
      var s, i := buffer[..nbytes], bytePos;
      OfBytesAt(s, i);
      LowField(s[i], 8, bitsLeft - b, b);
      assert Rest()[..b] == Low(s[i], 8)[8 - bitsLeft..8 - bitsLeft + b];
    }

    /** One pass of the read loop: the next b bits of the current byte. */
    method GetField(b: nat) returns (f: nat)
      requires Valid() && bytePos < nbytes && b <= bitsLeft
      modifies this`bytePos, this`bitsLeft
      ensures Valid() && |old(Rest())| >= b
      ensures f == Val(old(Rest())[..b])
      ensures Rest() == old(Rest())[b..]
    {
      hide OfBytes, Low, Shr, LowBits, Val;
      RestInByte(b);
      f := LowBits(Shr(buffer[bytePos], bitsLeft - b), b);
      ValLow(Shr(buffer[bytePos], bitsLeft - b), b);
      bitsLeft := bitsLeft - b;
      if bitsLeft == 0 {
        bitsLeft := 8;
        bytePos := bytePos + 1;
      }
    }

    method GetBits(count: nat) returns (r: nat)
      requires Valid() && count <= 16
      modifies this`bytePos, this`bitsLeft
      ensures Valid()
      ensures r == Val(Take(old(Rest()), count))
      ensures Rest() == Drop(old(Rest()), count)
    {
      hide Val, Append, All, Pos, Done, Rest;
      ghost var rest0 := Rest();
      var n, want := 0, count;
      assert n == Val(rest0[..0]) by { ValEmpty(); }
      while bytePos < nbytes && want > 0
        invariant Valid() && 0 <= want <= count
        invariant count - want <= |rest0|
        invariant Rest() == rest0[count - want..]
        invariant n == Val(rest0[..count - want])
        decreases want
      {
        var b := if want > bitsLeft then bitsLeft else want;
        ghost var c := count - want;
        var f := GetField(b);
        assert rest0[c..][..b] == rest0[c..c + b];
        AppendVal(rest0[..c], rest0[c..c + b]);
        assert rest0[..c + b] == rest0[..c] + rest0[c..c + b];
        n := Append(n, f, b);
        want := want - b;
      }
      EosIffNoRest();
      if want > 0 {
        assert Rest() == [];
        assert rest0[..count - want] == rest0;
      }
      r := n;
    }

    /** One pass of the store loop: a field that fits into the current byte. */
    method PutField(v: nat, b: nat)
      requires Valid() && bytePos < nbytes && b <= bitsLeft && v < Pow2(b)
      modifies buffer, this`bytePos, this`bitsLeft
      ensures Valid() && |old(Rest())| >= b
      ensures forall i :: nbytes <= i < buffer.Length ==> buffer[i] == old(buffer[i])
      ensures Done() == old(Done()) + Low(v, b)
      ensures Rest() == old(Rest())[b..]
    {
      hide OfBytes, Low, PutByte, Pow2;
      ghost var w := buffer[..nbytes];
      ghost var p, all := Pos(), All();
      PutInBytes(w, bytePos, bitsLeft, v, b);
      buffer[bytePos] := PutByte(buffer[bytePos], v, b, bitsLeft - b);
      assert buffer[..nbytes] == w[bytePos := buffer[bytePos]];
      bitsLeft := bitsLeft - b;
      if bitsLeft == 0 {
        bitsLeft := 8;
        bytePos := bytePos + 1;
      }
      assert Pos() == p + b;
      assert All() == all[..p] + Low(v, b) + all[p + b..];
    }

    method PutBits(bits: uint16, count: nat)
      requires Valid()
      modifies buffer, this`bytePos, this`bitsLeft
      ensures Valid()
      ensures forall i :: nbytes <= i < buffer.Length ==> buffer[i] == old(buffer[i])
      ensures Done() == old(Done()) + Take(Low(bits, count), |old(Rest())|)
      ensures Rest() == Drop(old(Rest()), count)
    {
      hide Shr, LowBits, Low, Pow2, All, Pos, Done, Rest;
      ghost var done0, rest0, w := Done(), Rest(), Low(bits, count);
      var want := count;
      while bytePos < nbytes && want > 0
        invariant Valid() && 0 <= want <= count
        invariant count - want <= |rest0|
        invariant forall i :: nbytes <= i < buffer.Length ==> buffer[i] == old(buffer[i])
        invariant Done() == done0 + w[..count - want]
        invariant Rest() == rest0[count - want..]
        decreases want
      {
        var b := if want > bitsLeft then bitsLeft else want;
        var v := LowBits(Shr(bits, want - b), b);
        FieldOfWord(bits, count, want, b);
        PutField(v, b);
        want := want - b;
      }
      EosIffNoRest();
      if want > 0 {
        assert Rest() == [];
      }
      assert Take(w, |rest0|) == w[..count - want];
    }

    ghost function Here(): Mark
      requires Valid()
      reads this, buffer
    {
      Mark(Done(), Rest(), buffer[nbytes..])
    }

    /** Since m, the bits `out` were written, as far as there was room. */
    ghost predicate Wrote(m: Mark, out: seq<bool>)
      reads this, buffer
    {
      && Valid()
      && Done() == m.done + Take(out, |m.rest|)
      && Rest() == Drop(m.rest, |out|)
      && buffer[nbytes..] == m.above
    }

    method Put(bits: uint16, count: nat, ghost m: Mark, ghost out: seq<bool>)
      requires Wrote(m, out)
      modifies buffer, this`bytePos, this`bitsLeft
      ensures Wrote(m, out + Low(bits, count))
    {
      hide Done, Rest, All, Pos, Take, Drop, Low;
      TakeConcat(out, Low(bits, count), m.rest);
      PutBits(bits, count);
    }
  }

  lemma TakeConcat(a: seq<bool>, b: seq<bool>, r: seq<bool>)
    ensures Take(a, |r|) + Take(b, |Drop(r, |a|)|) == Take(a + b, |r|)
    ensures Drop(Drop(r, |a|), |b|) == Drop(r, |a + b|)
  {
  }

  /** Appending a field of b bits to the word read so far, in 16 bits. */
  function Append(n: nat, f: nat, b: nat): nat
  {
    Or(if n != 0 then ToU16(Shl(n, b)) else n, f)
  }

  lemma AppendVal(got: seq<bool>, next: seq<bool>)
    requires |got| + |next| <= 16
    ensures Append(Val(got), Val(next), |next|) == Val(got + next)
  {
    hide Or, Shl, Val, Pow2;
    ValConcat(got, next);
    ValBound(next);
    ValBound(got + next);
    Pow2Mono(|got| + |next|, 16);
    Pow2Values();
    OrDisjoint(Val(got), Val(next), |next|);
    ShlLinear(0, 0, |next|);
  }

  /** Cutting the next b of the last `want` bits out of a word of `count` bits. */
  lemma FieldOfWord(bits: nat, count: nat, want: nat, b: nat)
    requires b <= want <= count
    ensures var v := LowBits(Shr(bits, want - b), b);
            && v < Pow2(b)
            && Low(bits, count)[..count - want + b] == Low(bits, count)[..count - want] + Low(v, b)
  {
    hide Shr, LowBits, Low, Pow2;
    ShrLow(Shr(bits, want - b), b);
    LowOfLow(Shr(bits, want - b), b);
    LowField(bits, count, want - b, b);
  }

  /** Clearing a field keeps the bits above and below the field of b bits at bit s. */
  function ClearField(x: nat, b: nat, s: nat): (y: nat)
  {
    ShrLow(x, s);
    ShrLow(Shr(x, s), b);
    Shl(Shl(Shr(Shr(x, s), b), b), s) + LowBits(x, s)
  }

  /** The byte x with v or-ed into the cleared field of b bits at bit s. */
  function PutByte(x: nat, v: nat, b: nat, s: nat): (y: nat)
  {
    Or(ClearField(x, b, s), Shl(v, s))
  }

  lemma PutByteFields(x: byte, v: nat, b: nat, s: nat)
    requires v < Pow2(b) && b + s <= 8
    ensures var y := PutByte(x, v, b, s);
            && y < 256
            && Shr(Shr(y, s), b) == Shr(Shr(x, s), b)
            && LowBits(Shr(y, s), b) == v == LowBits(v, b)
            && LowBits(y, s) == LowBits(x, s)
  {
    hide Or, Shl, Shr, LowBits, Pow2;
    var t := 8 - b - s;
    var h, l := Shr(Shr(x, s), b), LowBits(x, s);
    ShrLow(x, s);
    Pow2Values();
    ShrBelow(x, t + b, s);
    ShrBelow(Shr(x, s), t, b);
    OrOfFields(h, v, l, b, s);
    var m := Shl(h, b) + v;
    ShlBelow(h, v, t, b);
    ShlBelow(m, l, t + b, s);
    ShrLowUnique(m, l, s);
    ShrLowUnique(h, v, b);
    ShrLowUnique(0, v, b);
    ShlLinear(0, 0, b);
  }

  /** Storing a field changes exactly the bits of the field. */
  lemma PutByteBits(x: byte, v: nat, b: nat, s: nat)
    requires v < Pow2(b) && b + s <= 8
    ensures PutByte(x, v, b, s) < 256
    ensures Low(PutByte(x, v, b, s), 8)
         == Low(x, 8)[..8 - s - b] + Low(v, b) + Low(x, 8)[8 - s..]
  {
    PutByteFields(x, v, b, s);
    var y := PutByte(x, v, b, s);
    FieldsOfByte(x, b, s);
    FieldsOfByte(y, b, s);
    LowOfLow(x, s);
    LowOfLow(y, s);
    LowOfLow(Shr(y, s), b);
    LowOfLow(v, b);
  }

  lemma FieldsOfByte(x: nat, b: nat, s: nat)
    requires b + s <= 8
    ensures Low(x, 8) == Low(Shr(Shr(x, s), b), 8 - b - s) + Low(Shr(x, s), b) + Low(x, s)
  {
    LowSplit(x, 8 - s, s);
    LowSplit(Shr(x, s), 8 - s - b, b);
  }

  /** Storing b bits into byte i replaces exactly b bits of the whole buffer. */
  lemma PutInBytes(w: seq<byte>, i: nat, left: nat, v: nat, b: nat)
    requires i < |w| && b <= left <= 8 && v < Pow2(b)
    ensures PutByte(w[i], v, b, left - b) < 256
    ensures var p := 8 * i + 8 - left;
            OfBytes(w[i := PutByte(w[i], v, b, left - b)])
            == OfBytes(w)[..p] + Low(v, b) + OfBytes(w)[p + b..]
  {
    hide OfBytes, Low, Pow2, PutByte;
    PutByteBits(w[i], v, b, left - b);
    var w' := w[i := PutByte(w[i], v, b, left - b)];
    OfBytesAt(w, i);
    OfBytesAt(w', i);
    assert w'[..i] == w[..i] && w'[i + 1..] == w[i + 1..];
  }
}
