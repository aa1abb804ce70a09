/** Runs of packets over one history buffer (libfreerdp-core/mppc.c). */
module MppcSession {
  import opened Words
  import opened Bits
  import opened Mppc
  import opened MppcTokens
  import opened MppcExpansion
  import opened MppcDecoder

  datatype Packet = Packet(data: seq<byte>, compressed: bool, atFront: bool, flushed: bool)

  datatype State = State(h: History, pos: nat)

  function Literals(data: seq<byte>): (ts: seq<Token>)
    ensures |ts| == |data|
  {
    if data == [] then [] else [Literal(data[0])] + Literals(data[1..])
  }

  /** An uncompressed packet is all literals. */
  function Tokens(v: Variant, p: Packet): seq<Token>
  {
    if p.compressed then Parse(v, OfBytes(p.data)) else Literals(p.data)
  }

  function Begin(s: State, p: Packet): State
  {
    State(if p.flushed then seq(HISTORY, _ => 0) else s.h, if p.atFront || p.flushed then 0 else s.pos)
  }

  predicate Fits(v: Variant, s: State, p: Packet)
  {
    Begin(s, p).pos + OutLength(Tokens(v, p)) <= HISTORY
  }

  function Step(v: Variant, s: State, p: Packet): State
    requires Fits(v, s, p)
  {
    var b := Begin(s, p);
    State(Expand(b.h, b.pos, Tokens(v, p)), b.pos + OutLength(Tokens(v, p)))
  }

  /** `rlen`, which is measured from the old position unless the packet is at the front. */
  function Rlen(v: Variant, s: State, p: Packet): uint32
    requires Fits(v, s, p)
  {
    ToU32(Step(v, s, p).pos - (if p.atFront then 0 else s.pos))
  }

  // ---- One packet ----

  lemma {:induction false} LiteralOffsets(data: seq<byte>)
    ensures RealOffsets(Literals(data))
    decreases |data|
  {
    if data != [] { LiteralOffsets(data[1..]); }
  }

  /** The history after a packet, byte by byte: every token is written behind the ones in front of it, and nothing
      else. */
  lemma PacketExplained(v: Variant, s: State, p: Packet)
    requires Fits(v, s, p)
    ensures var b := Begin(s, p); Explained(b.h, Step(v, s, p).h, b.pos, Tokens(v, p))
  {
    hide OutLength, Expand, Parse, Literals, OfBytes, RealOffsets, Explained;
    if p.compressed { ParsedOffsets(v, OfBytes(p.data)); } else { LiteralOffsets(p.data); }
    ExpansionExplained(Begin(s, p).h, Begin(s, p).pos, Tokens(v, p));
  }

  method Decompress(d: Decoder, v: Variant, p: Packet) returns (roff: nat, rlen: uint32)
    requires d.Valid() && Fits(v, State(d.Bytes(), d.pos), p)
    modifies d, d.history
    ensures d.Valid() && d.history == old(d.history)
    ensures var s := old(State(d.Bytes(), d.pos));
            && State(d.Bytes(), d.pos) == Step(v, s, p)
            && roff == Begin(s, p).pos && rlen == Rlen(v, s, p)
  {
    hide OutLength, Expand, Parse, Literals, OfBytes;
    ghost var s := State(d.Bytes(), d.pos);
    var start := d.pos;
    roff := start;
    if p.atFront {
      start := 0;
      d.pos := 0;
      roff := 0;
    }
    if p.flushed {
      start := 0;
      d.Clear();
      roff := 0;
    }
    assert Begin(s, p) == State(d.Bytes(), start);
    var end := Process(d, v, p, s, start);
    rlen := ToU32(end - d.pos);
    d.pos := end;
  }

  method Process(d: Decoder, v: Variant, p: Packet, ghost s: State, start: nat) returns (end: nat)
    requires d.Valid() && Fits(v, s, p) && Begin(s, p) == State(d.Bytes(), start)
    modifies d.history
    ensures d.Valid() && State(d.Bytes(), end) == Step(v, s, p)
  {
    hide OutLength, Expand, Parse, Literals, OfBytes;
    if !p.compressed {
      CopyIn(p.data, s, v, p, d.Bytes(), start);
      d.Store(p.data, start);
      end := start + |p.data|;
    } else {
      end := d.Inflate(v, p.data, start);
    }
  }

  /** Copying an uncompressed packet is expanding its literals. */
  lemma CopyIn(data: seq<byte>, s: State, v: Variant, p: Packet, h: History, start: nat)
    requires Fits(v, s, p) && !p.compressed && data == p.data && Begin(s, p) == State(h, start)
    ensures OutLength(Tokens(v, p)) == |data|
    ensures Expand(h, start, Tokens(v, p)) == h[..start] + data + h[start + |data|..]
  {
    LiteralsLength(data);
    ExpandLiterals(h, start, data);
  }

  lemma {:induction false} LiteralsLength(data: seq<byte>)
    ensures OutLength(Literals(data)) == |data|
  {
    if data != [] {
      LiteralsLength(data[1..]);
      assert Literals(data)[1..] == Literals(data[1..]);
    }
  }

  lemma {:induction false} ExpandLiterals(h: History, pos: nat, data: seq<byte>)
    requires pos + |data| <= HISTORY
    ensures OutLength(Literals(data)) == |data|
    ensures Expand(h, pos, Literals(data)) == h[..pos] + data + h[pos + |data|..]
    decreases |data|
  {
    LiteralsLength(data);
    if data != [] {
      var ts := Literals(data);
      LiteralsLength(data[1..]);
      ExpandLiterals(h[pos := data[0]], pos + 1, data[1..]);
      OutLengthHead(ts);
      OneToken(ts[0]);
      assert ts[1..] == Literals(data[1..]);
    }
  }

  // ---- What a packet changes and reports ----

  /** The reported range is exactly what the packet produced, unless the history is flushed away from a
      position other than 0 without restarting at the front. */
  lemma RangeIff(v: Variant, s: State, p: Packet)
    requires s.pos <= HISTORY && Fits(v, s, p)
    ensures Begin(s, p).pos + Rlen(v, s, p) == Step(v, s, p).pos
            <==> !(p.flushed && !p.atFront && s.pos != 0)
    ensures var b, e := Begin(s, p), Step(v, s, p);
            e.h[..b.pos] == b.h[..b.pos] && e.h[e.pos..] == b.h[e.pos..]
  {
    hide OutLength, Expand, Tokens;
    var b := Begin(s, p);
    ExpandFrame(b.h, b.pos, Tokens(v, p));
  }

  /** A flush that forgets the front flag reports a wrong range. */
  lemma FlushWithoutFront(v: Variant, h: History)
    ensures var p := Packet([65], false, false, true);
            var s := State(h, 10);
            Fits(v, s, p) && Step(v, s, p).pos == 1 && Begin(s, p).pos == 0 && Rlen(v, s, p) == 0xFFFF_FFF7
  {
    LiteralsLength([65]);
  }

  // ---- Runs ----

  function AllTokens(v: Variant, ps: seq<Packet>): seq<Token>
  {
    if ps == [] then [] else Tokens(v, ps[0]) + AllTokens(v, ps[1..])
  }

  predicate Continues(ps: seq<Packet>)
  {
    forall p :: p in ps ==> !p.atFront && !p.flushed
  }

  predicate RunFits(v: Variant, s: State, ps: seq<Packet>)
    decreases |ps|
  {
    ps == [] || (Fits(v, s, ps[0]) && RunFits(v, Step(v, s, ps[0]), ps[1..]))
  }

  function Run(v: Variant, s: State, ps: seq<Packet>): State
    requires RunFits(v, s, ps)
    decreases |ps|
  {
    if ps == [] then s else Run(v, Step(v, s, ps[0]), ps[1..])
  }

  lemma StepContinues(v: Variant, s: State, p: Packet)
    requires Fits(v, s, p) && !p.atFront && !p.flushed
    ensures s.pos + OutLength(Tokens(v, p)) <= HISTORY
    ensures Step(v, s, p) == State(Expand(s.h, s.pos, Tokens(v, p)), s.pos + OutLength(Tokens(v, p)))
  {
  }

  /** Between restarts, a run of packets is one expansion: packet borders leave no trace. */
  lemma {:induction false} RunIsOneExpansion(v: Variant, s: State, ps: seq<Packet>)
    requires s.pos <= HISTORY && RunFits(v, s, ps) && Continues(ps)
    ensures var ts := AllTokens(v, ps);
            s.pos + OutLength(ts) <= HISTORY &&
            Run(v, s, ps) == State(Expand(s.h, s.pos, ts), s.pos + OutLength(ts))
    decreases |ps|
  {
    hide OutLength, Expand, Tokens, Step, Fits;
    if ps == [] {
      ExpandNothing(s.h, s.pos);
    } else {
      var p, rest := ps[0], AllTokens(v, ps[1..]);
      assert !p.atFront && !p.flushed && Fits(v, s, p);
      StepContinues(v, s, p);
      RunIsOneExpansion(v, Step(v, s, p), ps[1..]);
      ExpandConcat(s.h, s.pos, Tokens(v, p), rest);
    }
  }

  /** Main result: a compressed packet that codes a token list leaves the list's LZ77 expansion. */
  lemma CodedPacket(v: Variant, s: State, ts: seq<Token>, p: Packet, pad: seq<bool>)
    requires (forall t :: t in ts ==> WellFormed(v, t)) && |pad| < 8
    requires p.compressed && OfBytes(p.data) == Code(v, ts) + pad
    requires Begin(s, p).pos + OutLength(ts) <= HISTORY
    ensures Fits(v, s, p)
    ensures var b := Begin(s, p);
            Step(v, s, p) == State(Expand(b.h, b.pos, ts), b.pos + OutLength(ts))
  {
    hide OutLength, Expand, Parse, OfBytes, Code;
    ParseCode(v, ts, pad);
  }
}
