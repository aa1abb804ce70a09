/** Fast-path update fragmentation and reassembly (libfreerdp-core/fastpath.c, rdp.c). */
module FastPath {
  import opened Words

  const MAX_PACKET := 0x3FFF
  const SINGLE := 0
  const LAST := 1
  const FIRST := 2
  const NEXT := 3

  /** Stream cipher and signature of the n-th protected packet. */
  datatype Cipher = Cipher(encrypt: (nat, seq<byte>) -> seq<byte>, decrypt: (nat, seq<byte>) -> seq<byte>,
                           mac: (nat, seq<byte>) -> seq<byte>)

  ghost predicate Sound(c: Cipher)
  {
    && (forall n, x :: |c.encrypt(n, x)| == |x|)
    && (forall n, x :: c.decrypt(n, c.encrypt(n, x)) == x)
    && (forall n, x :: |c.mac(n, x)| == 8)
  }

  // ---- Headers ----

  predicate Security(sec: nat) { sec == 0 || sec == 8 || sec == 12 }

  /** Update code, fragmentation and compression in 4, 2 and 2 bits. */
  function UpdateHeader(code: byte, frag: nat, comp: nat): byte { code % 16 + 16 * (frag % 4) + 64 * (comp % 4) }

  function HeaderCode(h: byte): byte { h % 16 }

  function HeaderFragmentation(h: byte): nat { (h / 16) % 4 }

  function HeaderCompression(h: byte): nat { (h / 64) % 4 }

  lemma UpdateHeaderRoundTrip(code: byte, frag: nat, comp: nat)
    requires code < 16 && frag < 4 && comp < 4
    ensures var h := UpdateHeader(code, frag, comp);
            HeaderCode(h) == code && HeaderFragmentation(h) == frag && HeaderCompression(h) == comp
  {
    Field16(code, frag + 4 * comp);
    Field4(frag, comp);
    Field64(code + 16 * frag, comp);
  }

  lemma Field16(low: nat, high: nat)
    requires low < 16
    ensures (low + 16 * high) % 16 == low && (low + 16 * high) / 16 == high
  {
  }

  lemma Field4(low: nat, high: nat)
    requires low < 4
    ensures (low + 4 * high) % 4 == low
  {
  }

  lemma Field64(low: nat, high: nat)
    requires low < 64
    ensures (low + 64 * high) / 64 == high
  {
  }

  /** Output header, 0x80 | length >> 8, length & 0xFF. */
  function PacketHeader(secure: bool, length: nat): (h: seq<byte>)
    requires length <= MAX_PACKET
    ensures |h| == 3
  {
    [if secure then 0x80 else 0, 0x80 + length / 256, length % 256]
  }

  datatype Header = Header(encrypted: bool, length: int, size: nat)

  /** The length that follows the header, read from two or three bytes. */
  function ReadHeader(s: seq<byte>): Header
    requires |s| >= 3
  {
    var encrypted := (s[0] / 64) / 2 == 1;
    if s[1] >= 0x80 then Header(encrypted, (s[1] as int % 128) * 256 + s[2] as int - 3, 3)
    else Header(encrypted, s[1] as int - 2, 2)
  }

  lemma PacketHeaderRoundTrip(secure: bool, length: nat, rest: seq<byte>)
    requires 3 <= length <= MAX_PACKET
    ensures ReadHeader(PacketHeader(secure, length) + rest) == Header(secure, length - 3, 3)
  {
    var s := PacketHeader(secure, length) + rest;
    assert s[0] == (if secure then 0x80 else 0) && s[1] == 0x80 + length / 256 && s[2] == length % 256;
    assert s[1] % 128 == length / 256;
  }

  /** Without the top bit of the second byte, that byte is the whole length. */
  lemma ShortHeaderRead(first: byte, length: byte, rest: seq<byte>)
    requires length < 128 && rest != []
    ensures ReadHeader([first, length] + rest) == Header(first >= 128, length as int - 2, 2)
  {
    var s := [first, length] + rest;
    assert s[0] == first && s[1] == length;
  }

  // ---- Fragments of one update ----

  function MaxLength(sec: nat): nat
    requires Security(sec)
  {
    MAX_PACKET - 6 - sec
  }

  function Kind(first: bool, last: bool): nat
  {
    if last then (if first then SINGLE else LAST) else (if first then FIRST else NEXT)
  }

  /** Update header, size and data: what is encrypted. */
  function Body(code: byte, kind: nat, data: seq<byte>): seq<byte>
    requires |data| <= MAX_PACKET
  {
    [UpdateHeader(code, kind, 0), |data| % 256, |data| / 256] + data
  }

  /** Packet n carries the data; the security bytes are the signature and what else lay there. */
  ghost predicate Carries(pdu: seq<byte>, c: Cipher, n: nat, sec: nat, code: byte, kind: nat, data: seq<byte>)
    requires Security(sec)
  {
    && |data| <= MaxLength(sec)
    && var body := Body(code, kind, data);
    && |pdu| == 6 + sec + |data| <= MAX_PACKET
    && pdu[..3] == PacketHeader(sec > 0, |pdu|)
    && pdu[3 + sec..] == (if sec > 0 then c.encrypt(n, body) else body)
    && (sec > 0 ==> pdu[3..11] == c.mac(n, body))
  }

  /** The packets carry the fragments of the data, numbered from n on; first tells whether the update starts here. */
  ghost predicate CarryAll(pdus: seq<seq<byte>>, c: Cipher, n: nat, sec: nat, code: byte, first: bool, data: seq<byte>)
    requires Security(sec)
    decreases |data|
  {
    if data == [] then pdus == []
    else
      var len := Min(MaxLength(sec), |data|);
      && pdus != []
      && Carries(pdus[0], c, n, sec, code, Kind(first, len == |data|), data[..len])
      && CarryAll(pdus[1..], c, n + 1, sec, code, false, data[len..])
  }

  // ---- Receiver ----

  datatype Update = Update(code: byte, data: seq<byte>)

  datatype Receiver = Receiver(updateData: seq<byte>, packets: nat, delivered: seq<Update>)

  /** One update of a packet; a finished update is handed to its parser, which leaves the stream anywhere. */
  function ReceiveUpdate(r: Receiver, code: byte, frag: nat, data: seq<byte>, left: seq<byte>): Receiver
  {
    if frag == SINGLE then r.(delivered := r.delivered + [Update(code, data)])
    else
      var sofar := (if frag == FIRST then [] else r.updateData) + data;
      if frag == LAST then r.(updateData := left, delivered := r.delivered + [Update(code, sofar)])
      else r.(updateData := sofar)
  }

  /** The updates of a packet one after the other; uncompressed ones only. */
  function ReceiveUpdates(r: Receiver, s: seq<byte>, left: seq<byte>): Receiver
    decreases |s|
  {
    if |s| < 3 then r
    else
      var size := s[1] as int + 256 * s[2] as int;
      if HeaderCompression(s[0]) != 0 || 3 + size > |s| then r
      else ReceiveUpdates(ReceiveUpdate(r, HeaderCode(s[0]), HeaderFragmentation(s[0]), s[3..3 + size], left),
          s[3 + size..], left)
  }

  /** A packet: header, security bytes skipped and the rest decrypted when the header says so. */
  function ReceivePacket(r: Receiver, c: Cipher, sec: nat, pdu: seq<byte>, left: seq<byte>): Receiver
  {
    if |pdu| < 3 then r
    else
      var h := ReadHeader(pdu);
      if h.length <= 0 || h.length > |pdu| - h.size then r
      else if h.encrypted then
        if h.length < sec then r
        else ReceiveUpdates(r.(packets := r.packets + 1), c.decrypt(r.packets, pdu[h.size + sec..]), left)
      else ReceiveUpdates(r, pdu[h.size..], left)
  }

  /** The receiving side: the reassembly stream, the packet counter and what has been handed on. */
  class FastPathReceiver {
    var updateData: seq<byte>
    var packets: nat
    var delivered: seq<Update>

    ghost function State(): Receiver
      reads this
    {
      Receiver(updateData, packets, delivered)
    }

    method RecvUpdateData(code: byte, frag: nat, data: seq<byte>, left: seq<byte>)
      modifies this
      ensures State() == ReceiveUpdate(old(State()), code, frag, data, left)
    {
      if frag == SINGLE {
        delivered := delivered + [Update(code, data)];
      } else {
        if frag == FIRST { updateData := []; }
        updateData := updateData + data;
        if frag == LAST {
          delivered := delivered + [Update(code, updateData)];
          updateData := left;
        }
      }
    }

    method RecvUpdates(s: seq<byte>, left: seq<byte>)
      modifies this
      ensures State() == ReceiveUpdates(old(State()), s, left)
    {
      hide HeaderCode, HeaderFragmentation, HeaderCompression, ReceiveUpdate;
      var pos := 0;
      assert s[0..] == s;
      while |s| - pos >= 3
        invariant 0 <= pos <= |s| && ReceiveUpdates(State(), s[pos..], left) == ReceiveUpdates(old(State()), s, left)
      {
        var header, size := s[pos], s[pos + 1] as int + 256 * s[pos + 2] as int;
        if HeaderCompression(header) != 0 || pos + 3 + size > |s| { break; }
        assert s[pos..][3..3 + size] == s[pos + 3..pos + 3 + size] && s[pos..][3 + size..] == s[pos + 3 + size..];
        RecvUpdateData(HeaderCode(header), HeaderFragmentation(header), s[pos + 3..pos + 3 + size], left);
        pos := pos + 3 + size;
      }
    }

    method RecvPacket(c: Cipher, sec: nat, pdu: seq<byte>, left: seq<byte>)
      modifies this
      ensures State() == ReceivePacket(old(State()), c, sec, pdu, left)
    {
      hide ReceiveUpdates, ReadHeader;
      if |pdu| < 3 { return; }
      var h := ReadHeader(pdu);
      if h.length <= 0 || h.length > |pdu| - h.size { return; }
      var body := pdu[h.size..];
      if h.encrypted {
        if h.length < sec { return; }
        assert body[sec..] == pdu[h.size + sec..];
        body := c.decrypt(packets, body[sec..]);
        packets := packets + 1;
      }
      RecvUpdates(body, left);
    }
  }

  lemma ReceiveBody(r: Receiver, code: byte, kind: nat, data: seq<byte>, left: seq<byte>)
    requires code < 16 && kind < 4 && |data| <= MAX_PACKET
    ensures ReceiveUpdates(r, Body(code, kind, data), left) == ReceiveUpdate(r, code, kind, data, left)
  {
    hide UpdateHeader, HeaderCode, HeaderFragmentation, HeaderCompression, ReceiveUpdate;
    var s := Body(code, kind, data);
    UpdateHeaderRoundTrip(code, kind, 0);
    assert s[1] as int + 256 * s[2] as int == |data|;
    assert s[3..3 + |data|] == data && s[3 + |data|..] == [];
  }

  /** Whatever the security bytes are, a packet is taken for the fragment it carries. */
  lemma ReceiveCarried(r: Receiver, c: Cipher, sec: nat, code: byte, kind: nat, data: seq<byte>, pdu: seq<byte>,
      left: seq<byte>)
    requires Sound(c) && Security(sec) && code < 16 && kind < 4
    requires Carries(pdu, c, r.packets, sec, code, kind, data)
    ensures ReceivePacket(r, c, sec, pdu, left)
         == ReceiveUpdate(r.(packets := r.packets + (if sec > 0 then 1 else 0)), code, kind, data, left)
  {
    hide ReceiveUpdates, ReceiveUpdate, Body, UpdateHeader, ReadHeader, PacketHeader;
    assert pdu == pdu[..3] + pdu[3..];
    PacketHeaderRoundTrip(sec > 0, |pdu|, pdu[3..]);
    ReceiveBody(r.(packets := r.packets + (if sec > 0 then 1 else 0)), code, kind, data, left);
  }

  /** A run of packets, with what each finished update leaves in the stream. */
  function ReceiveAll(r: Receiver, c: Cipher, sec: nat, pdus: seq<seq<byte>>, left: seq<byte>): Receiver
    decreases |pdus|
  {
    if pdus == [] then r
    else ReceiveAll(ReceivePacket(r, c, sec, pdus[0], left), c, sec, pdus[1..], left)
  }

  /** Reassembly of the rest of an update. */
  lemma {:induction false} Reassembles(r: Receiver, c: Cipher, sec: nat, code: byte, first: bool, data: seq<byte>,
                                       pdus: seq<seq<byte>>, left: seq<byte>)
    requires Sound(c) && Security(sec) && code < 16 && data != []
    requires CarryAll(pdus, c, r.packets, sec, code, first, data)
    ensures var end := ReceiveAll(r, c, sec, pdus, left);
            end.delivered == r.delivered + [Update(code, (if first then [] else r.updateData) + data)]
    ensures ReceiveAll(r, c, sec, pdus, left).packets == r.packets + (if sec > 0 then |pdus| else 0)
    decreases |data|
  {
    hide Sound, Carries, ReceivePacket;
    var len := Min(MaxLength(sec), |data|);
    var kind := Kind(first, len == |data|);
    ReceiveCarried(r, c, sec, code, kind, data[..len], pdus[0], left);
    var r1 := ReceivePacket(r, c, sec, pdus[0], left);
    var before := if first then [] else r.updateData;
    if len < |data| {
      assert r1.updateData == before + data[..len];
      CarryOn(pdus[1..], c, r.packets + 1, r1.packets, sec, code, data[len..]);
      Reassembles(r1, c, sec, code, false, data[len..], pdus[1..], left);
      assert before + data[..len] + data[len..] == before + data;
    } else {
      assert data[..len] == data && data[len..] == [];
      assert pdus[1..] == [];
      assert [] + data == data;
      assert ReceiveAll(r1, c, sec, [], left) == r1;
    }
  }

  /** Without security the packet number does not matter. */
  lemma {:induction false} CarryOn(pdus: seq<seq<byte>>, c: Cipher, n: nat, m: nat, sec: nat, code: byte,
      data: seq<byte>)
    requires Security(sec) && (sec > 0 ==> m == n) && CarryAll(pdus, c, n, sec, code, false, data)
    ensures CarryAll(pdus, c, m, sec, code, false, data)
    decreases |data|
  {
    hide Body;
    if data != [] {
      var len := Min(MaxLength(sec), |data|);
      CarryOn(pdus[1..], c, n + 1, m + 1, sec, code, data[len..]);
    }
  }

  // ---- Whole runs ----

  /** Each group of packets carries one update; protected packets are numbered through. */
  ghost predicate CarryRun(groups: seq<seq<seq<byte>>>, c: Cipher, n: nat, sec: nat, updates: seq<Update>)
    requires Security(sec)
  {
    if updates == [] then groups == []
    else
      && groups != []
      && CarryAll(groups[0], c, n, sec, updates[0].code, true, updates[0].data)
      && CarryRun(groups[1..], c, n + (if sec > 0 then |groups[0]| else 0), sec, updates[1..])
  }

  function ReceiveRun(r: Receiver, c: Cipher, sec: nat, groups: seq<seq<seq<byte>>>, lefts: seq<seq<byte>>): Receiver
    requires |lefts| == |groups|
    decreases |groups|
  {
    if groups == [] then r
    else ReceiveRun(ReceiveAll(r, c, sec, groups[0], lefts[0]), c, sec, groups[1..], lefts[1..])
  }

  /** Main result: every run of non-empty updates is delivered exactly once, in order, with the same codes,
      from whatever state the receiver's stream is in and wherever the parsers leave it. */
  lemma {:induction false} RunDelivers(r: Receiver, c: Cipher, sec: nat, updates: seq<Update>,
                                       groups: seq<seq<seq<byte>>>, lefts: seq<seq<byte>>)
    requires Sound(c) && Security(sec) && |lefts| == |groups|
    requires forall i :: 0 <= i < |updates| ==> updates[i].code < 16 && updates[i].data != []
    requires CarryRun(groups, c, r.packets, sec, updates)
    ensures ReceiveRun(r, c, sec, groups, lefts).delivered == r.delivered + updates
    decreases |updates|
  {
    hide Sound, CarryAll, ReceiveAll;
    if updates != [] {
      var u := updates[0];
      Reassembles(r, c, sec, u.code, true, u.data, groups[0], lefts[0]);
      var r1 := ReceiveAll(r, c, sec, groups[0], lefts[0]);
      assert [] + u.data == u.data;
      RunDelivers(r1, c, sec, updates[1..], groups[1..], lefts[1..]);
      assert r.delivered + [u] + updates[1..] == r.delivered + updates;
    }
  }

  /** Every packet fits and its length reads back unchanged. */
  lemma {:induction false} PacketLengths(pdus: seq<seq<byte>>, c: Cipher, n: nat, sec: nat, code: byte, first: bool,
                                         data: seq<byte>, i: nat)
    requires Security(sec) && CarryAll(pdus, c, n, sec, code, first, data) && i < |pdus|
    ensures 6 <= |pdus[i]| <= MAX_PACKET && ReadHeader(pdus[i]).length == |pdus[i]| - 3
    decreases |data|
  {
    hide Body, PacketHeader, ReadHeader;
    if data != [] {
      if i == 0 {
        var p := pdus[0];
        assert p == p[..3] + p[3..];
        PacketHeaderRoundTrip(sec > 0, |p|, p[3..]);
      } else {
        var len := Min(MaxLength(sec), |data|);
        PacketLengths(pdus[1..], c, n + 1, sec, code, false, data[len..], i - 1);
      }
    }
  }
}
