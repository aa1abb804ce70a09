/** The RLGR encoder and decoder as they run over buffers (libfreerdp-codec/rfx_rlgr.c). */
module RlgrCoder {
  import opened Words
  import opened Bits
  import opened BitStream
  import opened Rlgr

  // ---- Encoder ----

  /** `OutputBit`: the same bit `count` times, 16 at a time. */
  method OutputBit(bs: BitStream, count: nat, bit: bool, ghost m: Mark, ghost out: seq<bool>)
    requires bs.Wrote(m, out)
    modifies bs.buffer, bs`bytePos, bs`bitsLeft
    ensures bs.Wrote(m, out + Repeat(bit, count))
  {
    hide bs.Wrote, Low, Repeat;
    var pattern := if bit then 0xFFFF else 0;
    var c: int := count;
    ghost var n := 0;
    assert out + Repeat(bit, 0) == out;
    while c > 0
      invariant n == (if c < 0 then count else count - c) && n >= 0
      invariant bs.Wrote(m, out + Repeat(bit, n))
    {
      var w := if c > 16 then 16 else c;
      PatternBits(bit, w);
      bs.Put(pattern, w, m, out + Repeat(bit, n));
      RepeatMore(out, bit, n, w);
      n := n + w;
      c := c - 16;
    }
  }

  lemma RepeatMore(out: seq<bool>, bit: bool, a: nat, b: nat)
    ensures out + Repeat(bit, a) + Repeat(bit, b) == out + Repeat(bit, a + b)
  {
  }

  lemma PatternBits(bit: bool, n: nat)
    requires n <= 16
    ensures Low(if bit then 0xFFFF else 0, n) == Repeat(bit, n)
  {
    if bit {
      Pow2Values();
      LowAllOnes(16);
      LowSplit(0xFFFF, 16 - n, n);
      assert Repeat(true, 16)[16 - n..] == Repeat(true, n);
    } else {
      LowZero(n);
    }
  }

  /** `rfx_rlgr_code_gr` */
  method CodeGR(bs: BitStream, krp: Param, val: nat, ghost m: Mark, ghost out: seq<bool>) returns (krp': Param)
    requires bs.Wrote(m, out)
    modifies bs.buffer, bs`bytePos, bs`bitsLeft
    ensures bs.Wrote(m, out + GRCode(krp, val))
    ensures krp' == GRNext(krp, val)
  {
    hide bs.Wrote, Low, Shr, LowBits;
    var kr := K(krp);
    ShrLow(val, kr);
    var vk := Shr(val, kr);
    OutputBit(bs, vk, true, m, out);
    OutputBit(bs, 1, false, m, out + Repeat(true, vk));
    assert Repeat(false, 1) == [false];
    ghost var head := out + Repeat(true, vk) + [false];
    if kr != 0 {
      LowOfLow(val, kr);
      RemainderFits(val, kr);
      bs.Put(LowBits(val, kr), kr, m, head);
    }
    assert out + GRCode(krp, val) == head + Low(val, kr);
    assert kr == 0 ==> head + Low(val, kr) == head;
    krp' := krp;
    if vk == 0 {
      krp' := Update(krp, -2);
    } else if vk > 1 {
      krp' := Update(krp, vk);
    }
  }

  lemma RemainderFits(val: nat, kr: nat)
    requires kr <= 10
    ensures LowBits(val, kr) < 65536
  {
    ShrLow(val, kr);
    Pow2Mono(kr, 16);
    Pow2Values();
  }

  /** One pass of the encoder loop in run-length mode. */
  method EncodeRunBlock(bs: BitStream, data: array<sint16>, pos: nat, size: nat, kp: Param, krp: Param,
                        ghost m: Mark, ghost out: seq<bool>)
    returns (pos': nat, kp': Param, krp': Param)
    requires pos < size <= data.Length && bs.Wrote(m, out)
    modifies bs.buffer, bs`bytePos, bs`bitsLeft
    ensures pos < pos' <= size
    ensures var e := EncodeRun(data[pos..size], kp, krp);
            && pos' == pos + e.used && kp' == e.kp && krp' == e.krp
            && bs.Wrote(m, out + e.bits)
  {
    hide bs.Wrote, Low, GRCode, GRNext, SplitRuns, Pow2;
    var z := CollectZeros(data, pos, size);
    var input: int := data[pos + z];
    pos' := pos + z + 1;

    var left: nat;
    ghost var out1;
    left, kp', out1 := EmitRuns(bs, z, kp, m, out);
    ghost var r := SplitRuns(z, kp);

    OutputBit(bs, 1, true, m, out1);
    ghost var out2 := out1 + Repeat(true, 1);
    RunLeftFits(left, K(kp'));
    bs.Put(left, K(kp'), m, out2);
    ghost var out3 := out2 + Low(left, K(kp'));

    var mag := if input < 0 then -input else input;
    OutputBit(bs, 1, input < 0, m, out3);
    ghost var out4 := out3 + Repeat(input < 0, 1);
    var code := if mag != 0 then mag - 1 else 0;
    krp' := CodeGR(bs, krp, code, m, out4);
    kp' := Update(kp', -DN_GR);

    assert Repeat(true, 1) == [true] && Repeat(input < 0, 1) == [input < 0];
    assert out4 + GRCode(krp, code) == out + EncodeRun(data[pos..size], kp, krp).bits;
  }

  /** The zeros in front of the next value to code. */
  method CollectZeros(data: array<sint16>, pos: nat, size: nat) returns (numZeros: nat)
    requires pos < size <= data.Length
    ensures numZeros == ZeroRun(data[pos..size])
  {
    numZeros := 0;
    var input, next := data[pos], pos + 1;
    while input == 0 && next < size
      invariant next == pos + numZeros + 1 <= size && input == data[next - 1]
      invariant numZeros + ZeroRun(data[next - 1..size]) == ZeroRun(data[pos..size])
    {
      ZeroRunStep(data[next - 1..size]);
      assert data[next - 1..size][1..] == data[next..size];
      numZeros := numZeros + 1;
      input := data[next];
      next := next + 1;
    }
    ZeroRunStep(data[next - 1..size]);
  }

  lemma ZeroRunStep(data: seq<sint16>)
    requires data != []
    ensures data[0] == 0 && |data| > 1 ==> ZeroRun(data) == 1 + ZeroRun(data[1..])
    ensures !(data[0] == 0 && |data| > 1) ==> ZeroRun(data) == 0
  {
  }

  lemma RunLeftFits(left: nat, k: nat)
    requires k <= 10 && left < Pow2(k)
    ensures left < 65536
  {
    Pow2Mono(k, 16);
    Pow2Values();
  }

  /** A 0 for every full run of 1 << k zeros; k grows with every run. */
  method EmitRuns(bs: BitStream, zeros: nat, kp: Param, ghost m: Mark, ghost out: seq<bool>)
    returns (left: nat, kp': Param, ghost out': seq<bool>)
    requires bs.Wrote(m, out)
    modifies bs.buffer, bs`bytePos, bs`bitsLeft
    ensures var r := SplitRuns(zeros, kp);
            left == r.left && kp' == r.kp && out' == out + Repeat(false, r.count)
    ensures left < Pow2(K(kp'))
    ensures bs.Wrote(m, out')
  {
    hide bs.Wrote, Pow2;
    left, kp', out' := zeros, kp, out;
    var runmax := Pow2(K(kp));
    ghost var n := 0;
    assert out == out + Repeat(false, 0);
    while left >= runmax
      invariant runmax == Pow2(K(kp'))
      invariant n >= 0 && out' == out + Repeat(false, n) && bs.Wrote(m, out')
      invariant var r := SplitRuns(left, kp');
                SplitRuns(zeros, kp) == r.(count := r.count + n)
      decreases left
    {
      OutputBit(bs, 1, false, m, out');
      RepeatMore(out, false, n, 1);
      out' := out' + Repeat(false, 1);
      n := n + 1;
      left := left - runmax;
      kp' := Update(kp', UP_GR);
      runmax := Pow2(K(kp'));
    }
  }

  method EncodeOneBlock(bs: BitStream, data: array<sint16>, pos: nat, size: nat, kp: Param, krp: Param,
                        ghost m: Mark, ghost out: seq<bool>)
    returns (pos': nat, kp': Param, krp': Param)
    requires pos < size <= data.Length && bs.Wrote(m, out)
    modifies bs.buffer, bs`bytePos, bs`bitsLeft
    ensures pos < pos' <= size
    ensures var e := EncodeOne(data[pos..size], kp, krp);
            && pos' == pos + e.used && kp' == e.kp && krp' == e.krp
            && bs.Wrote(m, out + e.bits)
  {
    hide bs.Wrote, GRCode, GRNext;
    var twoMs := To2MagSign(data[pos]);
    pos' := pos + 1;
    krp' := CodeGR(bs, krp, twoMs, m, out);
    if twoMs != 0 {
      kp' := Update(kp, -DQ_GR);
    } else {
      kp' := Update(kp, UQ_GR);
    }
  }

  method EncodePairBlock(bs: BitStream, data: array<sint16>, pos: nat, size: nat, kp: Param, krp: Param,
                         ghost m: Mark, ghost out: seq<bool>)
    returns (pos': nat, kp': Param, krp': Param)
    requires pos < size <= data.Length && bs.Wrote(m, out)
    modifies bs.buffer, bs`bytePos, bs`bitsLeft
    ensures pos < pos' <= size
    ensures var e := EncodePair(data[pos..size], kp, krp);
            && pos' == pos + e.used && kp' == e.kp && krp' == e.krp
            && bs.Wrote(m, out + e.bits)
  {
    hide bs.Wrote, GRCode, GRNext, Low;
    var a := To2MagSign(data[pos]);
    pos' := pos + 1;
    var input := 0;
    if pos' < size {
      input := data[pos'];
      pos' := pos' + 1;
    }
    var b := To2MagSign(input);
    krp' := CodeGR(bs, krp, a + b, m, out);
    var nIdx := GetMinBits(a + b);
    bs.Put(ToU16(a), nIdx, m, out + GRCode(krp, a + b));
    assert out + EncodePair(data[pos..size], kp, krp).bits == out + GRCode(krp, a + b) + Low(ToU16(a), nIdx);
    kp' := kp;
    if a != 0 && b != 0 {
      kp' := Update(kp, -2 * DQ_GR);
    } else if a == 0 && b == 0 {
      kp' := Update(kp, 2 * UQ_GR);
    }
  }

  method GetMinBits(val: nat) returns (n: nat)
    ensures n == MinBits(val)
  {
    var v := val;
    n := 0;
    while v != 0
      invariant n + MinBits(v) == MinBits(val)
    {
      v := v / 2;
      n := n + 1;
    }
  }

  /** `rfx_rlgr_encode`: the bits of the code, as far as the buffer reaches, padded with what was there. */
  method RlgrEncode(mode: Mode, data: array<sint16>, dataSize: nat, buffer: array<byte>, bufferSize: nat)
    returns (processed: nat)
    requires dataSize <= data.Length && bufferSize <= buffer.Length
    modifies buffer
    ensures var bits := Encode(mode, data[..dataSize]);
            && processed <= bufferSize
            && processed == Min((|bits| + 7) / 8, bufferSize)
            && Take(bits, 8 * processed) <= OfBytes(buffer[..processed])
    ensures buffer[bufferSize..] == old(buffer[bufferSize..])
  {
    hide Encode, OfBytes, Take;
    var bs := new BitStream(buffer, bufferSize);
    hide bs.Wrote, bs.Done, bs.Rest, bs.All, bs.Pos, bs.Here;
    ghost var m := bs.Here();
    NothingWritten(bs);
    EncodeLoop(bs, mode, data, dataSize, m);
    AboveKept(bs, m, Encode(mode, data[..dataSize]));
    processed := bs.ProcessedBytes();
    WrittenBytes(bs, m, Encode(mode, data[..dataSize]), processed);
  }

  lemma NothingWritten(bs: BitStream)
    requires bs.Valid() && bs.bytePos == 0 && bs.bitsLeft == 8
    ensures var m := bs.Here();
            bs.Wrote(m, []) && m.done == [] && |m.rest| == 8 * bs.nbytes && m.above == bs.buffer[bs.nbytes..]
  {
    hide OfBytes;
  }

  lemma AboveKept(bs: BitStream, m: Mark, out: seq<bool>)
    requires bs.Wrote(m, out)
    ensures bs.Valid() && bs.buffer[bs.nbytes..] == m.above
  {
  }

  /** The loop over all input coefficients. */
  method EncodeLoop(bs: BitStream, mode: Mode, data: array<sint16>, dataSize: nat, ghost m: Mark)
    requires dataSize <= data.Length && bs.Wrote(m, [])
    modifies bs.buffer, bs`bytePos, bs`bitsLeft
    ensures bs.Wrote(m, Encode(mode, data[..dataSize]))
  {
    hide bs.Wrote, EncodeRun, EncodeOne, EncodePair;
    ghost var out := [];
    var pos, kp, krp := 0, 8, 8;
    var k := 1;
    assert data[0..dataSize] == data[..dataSize];
    while pos < dataSize
      invariant pos <= dataSize
      invariant 0 <= kp <= 80 && 0 <= krp <= 80 && k == K(kp)
      invariant bs.Wrote(m, out)
      invariant out + EncodeFrom(mode, data[pos..dataSize], kp, krp) == Encode(mode, data[..dataSize])
      decreases dataSize - pos
    {
      ghost var rest := data[pos..dataSize];
      ghost var e := EncodeStep(mode, rest, kp, krp);
      EncodeUnfold(mode, rest, kp, krp, out);
      assert rest[e.used..] == data[pos + e.used..dataSize];
      if k != 0 {
        pos, kp, krp := EncodeRunBlock(bs, data, pos, dataSize, kp, krp, m, out);
      } else if mode == RLGR1 {
        pos, kp, krp := EncodeOneBlock(bs, data, pos, dataSize, kp, krp, m, out);
      } else {
        pos, kp, krp := EncodePairBlock(bs, data, pos, dataSize, kp, krp, m, out);
      }
      k := K(kp);
      out := out + e.bits;
    }
    assert out == Encode(mode, data[..dataSize]);
  }

  lemma EncodeUnfold(mode: Mode, data: seq<sint16>, kp: Param, krp: Param, out: seq<bool>)
    requires data != []
    ensures var e := EncodeStep(mode, data, kp, krp);
            out + EncodeFrom(mode, data, kp, krp) == out + e.bits + EncodeFrom(mode, data[e.used..], e.kp, e.krp)
  {
    hide EncodeStep;
  }

  lemma WrittenBytes(bs: BitStream, m: Mark, out: seq<bool>, n: nat)
    requires bs.Wrote(m, out) && m.done == [] && |m.rest| == 8 * bs.nbytes && n == bs.ProcessedBytes()
    ensures n == Min((|out| + 7) / 8, bs.nbytes)
    ensures Take(out, 8 * n) <= OfBytes(bs.buffer[..n])
  {
    hide OfBytes;
    var w := bs.buffer[..bs.nbytes];
    assert w == w[..n] + w[n..];
    OfBytesConcat(w[..n], w[n..]);
    assert bs.buffer[..n] == w[..n];
    assert bs.Done() == Take(out, 8 * bs.nbytes) == Take(out, 8 * n);
    assert bs.Done() == OfBytes(w[..n])[..bs.Pos()];
  }

  // ---- Decoder ----

  /** `vals` were produced for a buffer of `size` values that held `orig`; those past `size` were dropped. */
  ghost predicate Out(buffer: array<sint16>, orig: seq<sint16>, size: nat, dst: nat, left: int, vals: seq<sint16>)
    reads buffer
  {
    && size <= buffer.Length == |orig|
    && left == size - |vals|
    && dst == Min(|vals|, size)
    && buffer[..] == TakeValues(vals, size) + orig[dst..]
  }

  /** `WriteValue` */
  method WriteValue(buffer: array<sint16>, dst: nat, left: int, value: sint16,
                    ghost orig: seq<sint16>, ghost size: nat, ghost vals: seq<sint16>)
    returns (dst': nat, left': int)
    requires Out(buffer, orig, size, dst, left, vals)
    modifies buffer
    ensures Out(buffer, orig, size, dst', left', vals + [value])
  {
    dst' := dst;
    if left > 0 {
      buffer[dst] := value;
      dst' := dst + 1;
    }
    left' := left - 1;
  }

  /** `WriteZeroes` */
  method WriteZeroes(buffer: array<sint16>, dst: nat, left: int, nZeroes: nat,
                     ghost orig: seq<sint16>, ghost size: nat, ghost vals: seq<sint16>)
    returns (dst': nat, left': int)
    requires Out(buffer, orig, size, dst, left, vals)
    modifies buffer
    ensures Out(buffer, orig, size, dst', left', vals + Zeros(nZeroes))
  {
    var w: int := nZeroes;
    if w > left { w := left; }
    dst' := dst;
    if w > 0 {
      forall i | dst <= i < dst + w { buffer[i] := 0; }
      dst' := dst + w;
    }
    left' := left - nZeroes;
    ghost var all := vals + Zeros(nZeroes);
    assert TakeValues(all, size) == TakeValues(vals, size) + Zeros(dst' - dst);
  }

  /** `GetGRCode` */
  method GetGRCode(bs: BitStream, krp: Param) returns (mag: uint16, krp': Param)
    requires bs.Valid()
    modifies bs`bytePos, bs`bitsLeft
    ensures bs.Valid()
    ensures var g := ReadGR(old(bs.Rest()), krp);
            mag == g.mag && krp' == g.krp && bs.Rest() == g.rest
  {
    hide bs.Rest, Val, Or, Shl;
    ghost var bits := bs.Rest();
    var vk := 0;
    var r := bs.GetBits(1);
    TakeOne(bits);
    while r == 1
      invariant 0 <= vk <= |bits| && bs.Valid()
      invariant vk + Unary(bits[vk..]) == Unary(bits)
      invariant r == (if bits[vk..] != [] && bits[vk] then 1 else 0)
      invariant bs.Rest() == Drop(bits, vk + 1)
      decreases |bits| - vk
    {
      vk := vk + 1;
      assert bits[vk - 1..][1..] == bits[vk..];
      r := bs.GetBits(1);
      TakeOne(bits[vk..]);
      assert Drop(bits, vk) == bits[vk..];
    }
    var low := bs.GetBits(K(krp));
    mag := ToU16(Or(low, Shl(vk, K(krp))));
    krp' := krp;
    if vk == 0 {
      krp' := Update(krp, -2);
    } else if vk != 1 {
      krp' := Update(krp, vk);
    }
  }

  /** The run bits up to and including the 1 that ends them. */
  method DecodeRuns(bs: BitStream, kp: Param, buffer: array<sint16>, dst: nat, left: int,
                    ghost orig: seq<sint16>, ghost size: nat, ghost vals: seq<sint16>)
    returns (kp': Param, dst': nat, left': int)
    requires bs.Valid() && Out(buffer, orig, size, dst, left, vals)
    modifies buffer, bs`bytePos, bs`bitsLeft
    ensures bs.Valid()
    ensures var r := ReadRuns(old(bs.Rest()), kp);
            && kp' == r.kp && bs.Rest() == r.rest
            && Out(buffer, orig, size, dst', left', vals + Zeros(r.zeros))
  {
    hide bs.Rest, Val, Out, Pow2;
    ghost var bits := bs.Rest();
    ghost var z: nat := 0;
    kp', dst', left' := kp, dst, left;
    assert vals + Zeros(0) == vals;
    bs.EosIffNoRest();
    while !bs.Eos()
      invariant bs.Valid() && (bs.Eos() <==> bs.Rest() == [])
      invariant Out(buffer, orig, size, dst', left', vals + Zeros(z))
      invariant var r := ReadRuns(bs.Rest(), kp');
                ReadRuns(bits, kp) == r.(zeros := z + r.zeros)
      decreases |bs.Rest()|
    {
      ghost var before := bs.Rest();
      var r := bs.GetBits(1);
      TakeOne(before);
      if r != 0 {
        assert vals + Zeros(z + 0) == vals + Zeros(z);
        return;
      }
      dst', left' := WriteZeroes(buffer, dst', left', Pow2(K(kp')), orig, size, vals + Zeros(z));
      assert vals + Zeros(z) + Zeros(Pow2(K(kp'))) == vals + Zeros(z + Pow2(K(kp')));
      z := z + Pow2(K(kp'));
      kp' := Update(kp', UP_GR);
      bs.EosIffNoRest();
    }
  }

  /** One pass of the decoder loop in run-length mode. */
  method DecodeRunBlock(bs: BitStream, kp: Param, krp: Param, buffer: array<sint16>, dst: nat, left: int,
                        ghost orig: seq<sint16>, ghost size: nat, ghost vals: seq<sint16>)
    returns (kp': Param, krp': Param, dst': nat, left': int)
    requires bs.Valid() && bs.Rest() != [] && Out(buffer, orig, size, dst, left, vals)
    modifies buffer, bs`bytePos, bs`bitsLeft
    ensures bs.Valid()
    ensures var d := DecodeRun(old(bs.Rest()), kp, krp);
            && kp' == d.kp && krp' == d.krp && bs.Rest() == d.rest
            && Out(buffer, orig, size, dst', left', vals + d.vals)
  {
    hide bs.Rest, Val, Out, ReadRuns, ReadGR, Take, Drop, Update;
    ghost var bits := bs.Rest();
    ghost var rr := ReadRuns(bits, kp);
    kp', dst', left' := DecodeRuns(bs, kp, buffer, dst, left, orig, size, vals);
    var run := bs.GetBits(K(kp'));
    dst', left' := WriteZeroes(buffer, dst', left', run, orig, size, vals + Zeros(rr.zeros));
    var sign := bs.GetBits(1);
    var mag16;
    mag16, krp' := GetGRCode(bs, krp);
    var mag: int := mag16 as int + 1;
    var value := ToS16(if sign != 0 then -mag else mag);
    dst', left' := WriteValue(buffer, dst', left', value, orig, size, vals + Zeros(rr.zeros) + Zeros(run));
    kp' := Update(kp', -DN_GR);
    assert vals + Zeros(rr.zeros) + Zeros(run) + [value] == vals + (Zeros(rr.zeros) + Zeros(run) + [value]);
  }

  method DecodeOneBlock(bs: BitStream, kp: Param, krp: Param, buffer: array<sint16>, dst: nat, left: int,
                        ghost orig: seq<sint16>, ghost size: nat, ghost vals: seq<sint16>)
    returns (kp': Param, krp': Param, dst': nat, left': int)
    requires bs.Valid() && bs.Rest() != [] && Out(buffer, orig, size, dst, left, vals)
    modifies buffer, bs`bytePos, bs`bitsLeft
    ensures bs.Valid()
    ensures var d := DecodeOne(old(bs.Rest()), kp, krp);
            && kp' == d.kp && krp' == d.krp && bs.Rest() == d.rest
            && Out(buffer, orig, size, dst', left', vals + d.vals)
  {
    hide bs.Rest, Out, ReadGR;
    var mag;
    mag, krp' := GetGRCode(bs, krp);
    if mag == 0 {
      dst', left' := WriteValue(buffer, dst, left, 0, orig, size, vals);
      kp' := Update(kp, UQ_GR);
    } else {
      dst', left' := WriteValue(buffer, dst, left, From2MagSign(mag), orig, size, vals);
      kp' := Update(kp, -DQ_GR);
    }
  }

  method DecodePairBlock(bs: BitStream, kp: Param, krp: Param, buffer: array<sint16>, dst: nat, left: int,
                         ghost orig: seq<sint16>, ghost size: nat, ghost vals: seq<sint16>)
    returns (kp': Param, krp': Param, dst': nat, left': int)
    requires bs.Valid() && bs.Rest() != [] && Out(buffer, orig, size, dst, left, vals)
    modifies buffer, bs`bytePos, bs`bitsLeft
    ensures bs.Valid()
    ensures var d := DecodePair(old(bs.Rest()), kp, krp);
            && kp' == d.kp && krp' == d.krp && bs.Rest() == d.rest
            && Out(buffer, orig, size, dst', left', vals + d.vals)
  {
    hide bs.Rest, Out, ReadGR, Val, MinBits, Take, Drop, From2MagSign, Update;
    var mag;
    mag, krp' := GetGRCode(bs, krp);
    var nIdx := GetMinBits(mag);
    MinBits16(mag);
    ghost var rest := bs.Rest();
    var val1 := bs.GetBits(nIdx);
    assert val1 == Val16(Take(rest, nIdx)) by { TakeLength(rest, nIdx); }
    var val2 := ToU32(mag - val1);
    kp' := kp;
    if val1 != 0 && val2 != 0 {
      kp' := Update(kp, -2 * DQ_GR);
    } else if val1 == 0 && val2 == 0 {
      kp' := Update(kp, 2 * UQ_GR);
    }
    ghost var a, b := From2MagSign(val1), From2MagSign(val2);
    dst', left' := WriteValue(buffer, dst, left, From2MagSign(val1), orig, size, vals);
    dst', left' := WriteValue(buffer, dst', left', From2MagSign(val2), orig, size, vals + [a]);
    assert vals + [a] + [b] == vals + [a, b];
  }

  lemma TakeLength(b: seq<bool>, n: nat)
    ensures |Take(b, n)| <= n
  {
  }

  /** `rfx_rlgr_decode`, for every byte string: the bits left are the measure of its loops. */
  method RlgrDecode(mode: Mode, data: array<byte>, dataSize: nat, buffer: array<sint16>, bufferSize: nat)
    returns (written: nat)
    requires dataSize <= data.Length && bufferSize <= buffer.Length
    modifies buffer
    ensures var values := Decode(mode, OfBytes(data[..dataSize]), bufferSize);
            && written == |values| <= bufferSize
            && buffer[..] == values + old(buffer[written..])
  {
    var bs := new BitStream(data, dataSize);
    written := DecodeLoop(bs, mode, buffer, bufferSize);
  }

  method DecodeLoop(bs: BitStream, mode: Mode, buffer: array<sint16>, bufferSize: nat) returns (dst: nat)
    requires bs.Valid() && bufferSize <= buffer.Length
    modifies buffer, bs`bytePos, bs`bitsLeft
    ensures var values := Decode(mode, old(bs.Rest()), bufferSize);
            dst == |values| && buffer[..] == values + old(buffer[..])[dst..]
  {
    hide bs.Rest, Val, DecodeRun, DecodeOne, DecodePair, DecodeFrom, Out, Update;
    ghost var bits, orig := bs.Rest(), buffer[..];
    ghost var vals: seq<sint16> := [];
    var left: int, kp: Param, krp: Param := bufferSize, 8, 8;
    var k := 1;
    dst := 0;
    OutStart(buffer, bufferSize);
    bs.EosIffNoRest();
    while !bs.Eos() && left > 0
      invariant bs.Valid() && (bs.Eos() <==> bs.Rest() == []) && k == K(kp)
      invariant left == bufferSize - |vals| && Out(buffer, orig, bufferSize, dst, left, vals)
      invariant vals + DecodeFrom(mode, bs.Rest(), left, kp, krp) == DecodeFrom(mode, bits, bufferSize, 8, 8)
      decreases |bs.Rest()|
    {
      ghost var d := DecodeStep(mode, bs.Rest(), kp, krp);
      DecodeUnfold(mode, bs.Rest(), left, kp, krp, vals);
      if k != 0 {
        kp, krp, dst, left := DecodeRunBlock(bs, kp, krp, buffer, dst, left, orig, bufferSize, vals);
      } else if mode == RLGR1 {
        kp, krp, dst, left := DecodeOneBlock(bs, kp, krp, buffer, dst, left, orig, bufferSize, vals);
      } else {
        kp, krp, dst, left := DecodePairBlock(bs, kp, krp, buffer, dst, left, orig, bufferSize, vals);
      }
      k := K(kp);
      vals := vals + d.vals;
      OutLeft(buffer, orig, bufferSize, dst, left, vals);
      bs.EosIffNoRest();
    }
    DecodeDone(mode, bs.Rest(), left, kp, krp);
    assert vals == DecodeFrom(mode, bits, bufferSize, 8, 8);
    OutDone(buffer, orig, bufferSize, dst, left, vals);
  }

  lemma OutStart(buffer: array<sint16>, size: nat)
    requires size <= buffer.Length
    ensures Out(buffer, buffer[..], size, 0, size, [])
  {
  }

  lemma OutLeft(buffer: array<sint16>, orig: seq<sint16>, size: nat, dst: nat, left: int, vals: seq<sint16>)
    requires Out(buffer, orig, size, dst, left, vals)
    ensures left == size - |vals|
  {
  }

  lemma OutDone(buffer: array<sint16>, orig: seq<sint16>, size: nat, dst: nat, left: int, vals: seq<sint16>)
    requires Out(buffer, orig, size, dst, left, vals)
    ensures dst == |TakeValues(vals, size)| <= |orig| && buffer[..] == TakeValues(vals, size) + orig[dst..]
  {
  }

  lemma DecodeUnfold(mode: Mode, bits: seq<bool>, left: int, kp: Param, krp: Param, vals: seq<sint16>)
    requires bits != [] && left > 0
    ensures var d := DecodeStep(mode, bits, kp, krp);
            vals + DecodeFrom(mode, bits, left, kp, krp)
            == vals + d.vals + DecodeFrom(mode, d.rest, left - |d.vals|, d.kp, d.krp)
  {
    hide DecodeStep;
  }

  lemma DecodeDone(mode: Mode, bits: seq<bool>, left: int, kp: Param, krp: Param)
    requires bits == [] || left <= 0
    ensures DecodeFrom(mode, bits, left, kp, krp) == []
  {
  }
}
