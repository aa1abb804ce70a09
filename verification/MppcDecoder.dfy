/** The history buffer and the decompression of packets (libfreerdp-core/mppc.c). `decompress_rdp_4` and
    `decompress_rdp_5` differ only in their tables, so they are one method with a table parameter. */
module MppcDecoder {
  import opened Words
  import opened Bits
  import opened Mppc
  import opened MppcExpansion
  import opened MppcWindow

  class Decoder {
    var history: array<byte>
    var pos: nat

    ghost predicate Valid()
      reads this
    {
      history.Length == HISTORY && pos <= HISTORY
    }

    ghost function Bytes(): History
      requires Valid()
      reads this, history
    {
      history[..]
    }

    /** `mppc_new`; the buffer is not cleared. */
    constructor ()
      ensures Valid() && pos == 0 && fresh(history)
    {
      history := new byte[HISTORY];
      pos := 0;
    }

    /** The two-part copy of a match: up to the end of the buffer, then from its start. */
    method CopyMatch(start: nat, offset: nat, length: nat) returns (end: nat)
      requires Valid() && 1 <= offset < HISTORY && start + length <= HISTORY
      modifies history
      ensures Valid() && end == start + length
      ensures Bytes() == CopyBytes(old(Bytes()), start, offset, length)
      ensures forall i :: 0 <= i < length ==> Repeats(old(Bytes()), Bytes(), start, offset, i)
    {
      hide CopyBytes, Repeats;
      ghost var h := Bytes();
      ghost var goal := CopyBytes(Bytes(), start, offset, length);
      end := start;
      var lom := length;
      var src := start - offset;
      if src < 0 {
        src := HISTORY - 1 - (offset - start);
        src := src + 1;
        while lom > 0 && src <= HISTORY - 1
          invariant 0 <= lom && end + lom == start + length && 0 < src <= HISTORY
          invariant src == end - offset + HISTORY
          invariant CopyBytes(Bytes(), end, offset, lom) == goal
        {
          CopyByte(end, src, offset, lom);
          end, src, lom := end + 1, src + 1, lom - 1;
        }
        src := 0;
      }
      while lom > 0
        invariant 0 <= lom && end + lom == start + length
        invariant lom > 0 ==> src == end - offset && 0 <= src
        invariant CopyBytes(Bytes(), end, offset, lom) == goal
      {
        CopyByte(end, src, offset, lom);
        end, src, lom := end + 1, src + 1, lom - 1;
      }
      CopyNothing(Bytes(), end, offset);
      forall i | 0 <= i < length ensures Repeats(h, Bytes(), start, offset, i) {
        CopyRepeats(h, start, offset, length, i);
      }
    }

    /** Storing one byte is the first step of the copy. */
    method CopyByte(end: nat, src: nat, ghost offset: nat, ghost lom: nat)
      requires Valid() && end < HISTORY && src < HISTORY && lom > 0 && end + lom <= HISTORY
      requires src == end - offset || src == end - offset + HISTORY
      modifies history
      ensures Valid()
      ensures CopyBytes(Bytes(), end + 1, offset, lom - 1) == CopyBytes(old(Bytes()), end, offset, lom)
    {
      ghost var h := Bytes();
      assert (end - offset) % HISTORY == src;
      history[end] := history[src];
      assert Bytes() == h[end := h[src]];
    }

    /** The flush: every byte of the history becomes 0. */
    method Clear()
      requires Valid()
      modifies history
      ensures Valid() && Bytes() == seq(HISTORY, _ => 0)
    {
      forall i | 0 <= i < history.Length { history[i] := 0; }
    }

    /** An uncompressed packet goes into the history as it is. */
    method Store(data: seq<byte>, start: nat)
      requires Valid() && start + |data| <= HISTORY
      modifies history
      ensures Valid()
      ensures Bytes() == old(Bytes())[..start] + data + old(Bytes())[start + |data|..]
    {
      forall i | start <= i < start + |data| { history[i] := data[i - start]; }
    }

    /** The first four bytes go into the window, the fifth into the current byte. */
    method Load(cbuf: seq<byte>)
      returns (d32: uint32, bitsLeft: int, curByte: byte, curBits: nat, cptr: nat)
      ensures cptr <= |cbuf| && Holds(d32, bitsLeft, curByte, curBits, cbuf[cptr..], OfBytes(cbuf))
      ensures Full(bitsLeft, curBits, cbuf[cptr..])
    {
      hide Holds, Or, Shr, OfBytes;
      ghost var bits := OfBytes(cbuf);
      d32, bitsLeft, curByte, curBits, cptr := 0, 0, 0, 0, 0;
      HoldsAtStart(cbuf);
      var tmp := 24;
      while cptr < |cbuf|
        invariant cptr <= |cbuf| && bitsLeft == 24 - tmp && -8 <= tmp <= 24 && tmp % 8 == 0 && curByte == 0
        invariant Holds(d32, bitsLeft, curByte, 0, cbuf[cptr..], bits)
        invariant cptr < |cbuf| ==> tmp >= 0
      {
        FetchByte(d32, bitsLeft, curByte, cbuf, cptr, bits);
        LoadByte(d32, bitsLeft, cbuf[cptr], cbuf[cptr + 1..], bits);
        d32 := Or(d32, ToU32(Shl(cbuf[cptr], tmp)));
        cptr := cptr + 1;
        bitsLeft := bitsLeft + 8;
        tmp := tmp - 8;
        if tmp < 0 { break; }
      }
      if cptr < |cbuf| {
        FetchByte(d32, bitsLeft, curByte, cbuf, cptr, bits);
        curByte := cbuf[cptr];
        cptr := cptr + 1;
        curBits := 8;
      } else {
        curBits := 0;
      }
    }

    /** The main loop: the packet's tokens, expanded into the history from `start` on. */
    method Inflate(v: Variant, cbuf: seq<byte>, start: nat) returns (end: nat)
      requires Valid() && start + OutLength(Parse(v, OfBytes(cbuf))) <= HISTORY
      modifies history
      ensures Valid()
      ensures var ts := Parse(v, OfBytes(cbuf));
              && end == start + OutLength(ts) && Bytes() == Expand(old(Bytes()), start, ts)
              && Explained(old(Bytes()), Bytes(), start, ts)
    {
      hide Holds, Parse, Full, OfBytes, ReadHead, ReadLength, Low, Shl, Expand, CopyBytes, Ahead, OutLength, Explained,
        RealOffsets, Repeats;
      ghost var bits := OfBytes(cbuf);
      ParsedOffsets(v, bits);
      ExpansionExplained(Bytes(), start, Parse(v, bits));
      ghost var goal, final := Expand(Bytes(), start, Parse(v, bits)), start + OutLength(Parse(v, bits));
      var d32, bitsLeft, curByte, curBits, cptr := Load(cbuf);
      end := start;
      FullWindow(d32, bitsLeft, curByte, curBits, cbuf[cptr..], bits);
      while bitsLeft >= 8
        invariant cptr <= |cbuf| && Holds(d32, bitsLeft, curByte, curBits, cbuf[cptr..], bits)
        invariant Full(bitsLeft, curBits, cbuf[cptr..])
        invariant Low(d32, 32) == Ahead(bits) && (bitsLeft >= 8 <==> |bits| >= 8)
        invariant end + OutLength(Parse(v, bits)) == final <= HISTORY
        invariant Expand(Bytes(), end, Parse(v, bits)) == goal
        decreases |bits|
      {
        ParseUnfold(v, bits, Bytes(), end);
        var literal, value, d, used := LookupHead(v, d32);
        Consume(d32, bitsLeft, curByte, curBits, cbuf[cptr..], bits, used);
        bits := Drop(bits, used);
        d32, bitsLeft, curByte, curBits, cptr := Refill(d, bitsLeft - used, curByte, curBits, cbuf, cptr, bits);
        FullWindow(d32, bitsLeft, curByte, curBits, cbuf[cptr..], bits);
        if literal {
          ghost var h := Bytes();
          history[end] := value;
          assert Bytes() == h[end := value];
          end := end + 1;
        } else if value != 0 {
          var lom, d, used := LookupLength(v, d32);
          Consume(d32, bitsLeft, curByte, curBits, cbuf[cptr..], bits, used);
          end := CopyMatch(end, value, lom);
          bits := Drop(bits, used);
          d32, bitsLeft, curByte, curBits, cptr := Refill(d, bitsLeft - used, curByte, curBits, cbuf, cptr, bits);
          FullWindow(d32, bitsLeft, curByte, curBits, cbuf[cptr..], bits);
        }
      }
      ParseEnd(v, bits, Bytes(), end);
    }
  }

  /** Byte i of a copy is the one that lay offset bytes in front of the copy, i modulo offset on, around the ring. */
  ghost predicate Repeats(h: History, g: History, start: nat, offset: nat, i: nat)
    requires offset > 0
  {
    start + i < 65536 && g[start + i] == h[(start - offset + i % offset) % 65536]
  }

  lemma CopyRepeats(h: History, start: nat, offset: nat, length: nat, i: nat)
    requires 1 <= offset < 65536 && start + length <= 65536 && i < length
    ensures Repeats(h, CopyBytes(h, start, offset, length), start, offset, i)
  {
    hide CopyBytes;
    CopyAt(h, start, offset, length, i);
  }

  lemma CopyNothing(h: History, pos: nat, offset: nat)
    requires pos <= HISTORY
    ensures CopyBytes(h, pos, offset, 0) == h
  {
  }

  lemma HoldsAtStart(cbuf: seq<byte>)
    ensures Holds(0, 0, 0, 0, cbuf[0..], OfBytes(cbuf))
  {
    hide OfBytes, Low;
    assert OfBytes(cbuf)[..0] == [];
    assert cbuf[0..] == cbuf;
    ValEmpty();
    ShlLinear(0, 0, 32);
  }

  lemma LoadByte(d32: uint32, bitsLeft: int, b: byte, tail: seq<byte>, bits: seq<bool>)
    requires 0 <= bitsLeft <= 24 && Holds(d32, bitsLeft, b, 8, tail, bits)
    ensures var d := Or(d32, ToU32(Shl(b, 24 - bitsLeft)));
            d < 0x1_0000_0000 && Holds(d, bitsLeft + 8, 0, 0, tail, bits)
  {
    hide Holds, Or, Shl;
    TakeFromByte(d32, bitsLeft, b, 8, tail, bits, 8);
    assert Shr(b, 0) == b;
    var d := Or(d32, ToU32(Shl(b, 24 - bitsLeft)));
    ByteIsIrrelevant(d, bitsLeft + 8, ToU8(Shl(b, 8)), 0, tail, bits);
  }

  lemma ParseEnd(v: Variant, bits: seq<bool>, h: History, pos: nat)
    requires |bits| < 8 && pos <= HISTORY
    ensures Parse(v, bits) == [] && OutLength([]) == 0 && Expand(h, pos, []) == h
  {
  }

  /** The first token of a packet, and the rest. */
  lemma ParseUnfold(v: Variant, bits: seq<bool>, h: History, pos: nat)
    requires |bits| >= 8 && pos + OutLength(Parse(v, bits)) <= HISTORY
    ensures var head := ReadHead(v, Ahead(bits));
            var rest := Drop(bits, head.used);
            match head
            case Lit(b, _) =>
              && OutLength(Parse(v, bits)) == 1 + OutLength(Parse(v, rest))
              && Expand(h, pos, Parse(v, bits)) == Expand(h[pos := b], pos + 1, Parse(v, rest))
            case Off(o, _) =>
              if o == 0 then
                && OutLength(Parse(v, bits)) == OutLength(Parse(v, rest))
                && Expand(h, pos, Parse(v, bits)) == Expand(h, pos, Parse(v, rest))
              else
                var l := ReadLength(v, Ahead(rest));
                var more := Drop(rest, l.used);
                && OutLength(Parse(v, bits)) == l.length + OutLength(Parse(v, more))
                && Expand(h, pos, Parse(v, bits))
                   == Expand(CopyBytes(h, pos, o, l.length), pos + l.length, Parse(v, more))
  {
    hide ReadHead, ReadLength, Ahead, CopyBytes;
    var ts := Parse(v, bits);
    OutLengthHead(ts);
    OneToken(ts[0]);
  }
}
