/** The MPPC token language: what a compressed packet says, bit by bit (RFC 2118 section 4 for the 8K form,
    section 3.1.8.4.2 of [MS-RDPBCGR] for the 64K form; tables in libfreerdp-core/mppc.c). */
module Mppc {
  import opened Words
  import opened Bits

  datatype Variant = Rdp4 | Rdp5

  /** `Skip` is a copy offset of 0, which the decoder drops without reading a length. */
  datatype Token = Literal(b: byte) | Copy(offset: nat, length: nat) | Skip

  /** The next 32 bits; zeros past the end of the input. */
  function Ahead(bits: seq<bool>): (w: seq<bool>)
    ensures |w| == 32
  {
    (bits + Repeat(false, 32))[..32]
  }

  /** A literal or a copy offset, and the bits it takes. */
  datatype Head = Lit(b: byte, used: nat) | Off(offset: nat, used: nat)

  function Field(w: seq<bool>, from: nat, n: nat): (v: nat)
    requires from + n <= |w|
    ensures v < Pow2(n)
  {
    ValBound(w[from..from + n]);
    Val(w[from..from + n])
  }

  function ReadHead(v: Variant, w: seq<bool>): (h: Head)
    requires |w| == 32
    ensures 8 <= h.used <= 19
    ensures h.Off? ==> h.offset < 65536
  {
    FieldSizes();
    if !w[0] then Lit(Field(w, 0, 8), 8)
    else if !w[1] then Lit(128 + Field(w, 2, 7), 9)
    else if !w[2] then
      match v
      case Rdp4 => Off(320 + Field(w, 3, 13), 16)
      case Rdp5 => Off(ToU16(2368 + Field(w, 3, 16)), 19)
    else if !w[3] then
      match v
      case Rdp4 => Off(64 + Field(w, 4, 8), 12)
      case Rdp5 => Off(320 + Field(w, 4, 11), 15)
    else
      match v
      case Rdp4 => Off(Field(w, 4, 6), 10)
      case Rdp5 => if !w[4] then Off(64 + Field(w, 5, 8), 13) else Off(Field(w, 5, 6), 11)
  }

  lemma FieldSizes()
    ensures Pow2(6) == 64 && Pow2(7) == 128 && Pow2(8) == 256 && Pow2(11) == 2048 && Pow2(13) == 8192
  {
    Pow2Values();
  }

  function Ones(w: seq<bool>): (n: nat)
    ensures n <= |w|
    ensures forall i :: 0 <= i < n ==> w[i]
    ensures n < |w| ==> !w[n]
  {
    if w != [] && w[0] then 1 + Ones(w[1..]) else 0
  }

  /** Ones in the longest length code. */
  function MaxOnes(v: Variant): (m: nat)
    ensures m == 11 || m == 14
  {
    if v == Rdp4 then 11 else 14
  }

  datatype Len = Len(length: nat, used: nat)

  /** m ones, a zero and m + 1 bits: the length is 2^(m+1) plus those bits; a single zero is length 3.
      Longer runs of ones are no code: the decoder then copies nothing and reads on. */
  function ReadLength(v: Variant, w: seq<bool>): (l: Len)
    requires |w| == 32
    ensures l.used <= 30
  {
    var m := Ones(w);
    if m == 0 then Len(3, 1)
    else if m <= MaxOnes(v) then Len(Pow2(m + 1) + Field(w, m + 1, m + 1), 2 * m + 2)
    else Len(0, 0)
  }

  /** The tokens of a packet: it ends when fewer than 8 bits are left. */
  function Parse(v: Variant, bits: seq<bool>): seq<Token>
    decreases |bits|
  {
    if |bits| < 8 then []
    else
      var h := ReadHead(v, Ahead(bits));
      var rest := Drop(bits, h.used);
      match h
      case Lit(b, _) => [Literal(b)] + Parse(v, rest)
      case Off(offset, _) =>
        if offset == 0 then [Skip] + Parse(v, rest)
        else
          var l := ReadLength(v, Ahead(rest));
          [Copy(offset, l.length)] + Parse(v, Drop(rest, l.used))
  }

  // ---- Expansion ----

  const HISTORY := 65536

  type History = h: seq<byte> | |h| == 65536 witness seq(65536, _ => 0)

  function OutLength(ts: seq<Token>): nat
  {
    if ts == [] then 0
    else (match ts[0] case Literal(_) => 1 case Copy(_, n) => n case Skip => 0) + OutLength(ts[1..])
  }

  /** LZ77 copy, one byte at a time, from `offset` bytes back in the ring. */
  function CopyBytes(h: History, pos: nat, offset: nat, length: nat): History
    requires pos + length <= HISTORY
    decreases length
  {
    if length == 0 then h
    else CopyBytes(h[pos := h[(pos - offset) % HISTORY]], pos + 1, offset, length - 1)
  }

  function ExpandOne(h: History, pos: nat, t: Token): History
    requires pos + OutLength([t]) <= HISTORY
  {
    match t
    case Literal(b) => h[pos := b]
    case Copy(offset, length) => CopyBytes(h, pos, offset, length)
    case Skip => h
  }

  /** The history after all tokens; the output is what lies between pos and pos + OutLength(ts). */
  function Expand(h: History, pos: nat, ts: seq<Token>): History
    requires pos + OutLength(ts) <= HISTORY
    decreases |ts|
  {
    if ts == [] then h
    else
      OutLengthHead(ts);
      Expand(ExpandOne(h, pos, ts[0]), pos + OutLength(ts[..1]), ts[1..])
  }

  lemma OutLengthHead(ts: seq<Token>)
    requires ts != []
    ensures ts[..1] == [ts[0]] && OutLength(ts) == OutLength(ts[..1]) + OutLength(ts[1..])
  {
    assert ts[..1][1..] == [];
  }
}
