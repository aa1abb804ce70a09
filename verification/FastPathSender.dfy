/** The fragment loop: each packet is built in the send buffer over the tail of the one sent before
    (libfreerdp-core/fastpath.c). */
module FastPathSender {
  import opened Words
  import opened FastPath

  /** The transport takes a number of further packets and then fails. */
  class Transport {
    var sent: seq<seq<byte>>
    var accepts: nat

    method Write(pdu: seq<byte>) returns (ok: bool)
      modifies this
      ensures ok == (old(accepts) > 0)
      ensures ok ==> sent == old(sent) + [pdu] && accepts == old(accepts) - 1
      ensures !ok ==> sent == old(sent) && accepts == old(accepts)
    {
      ok := accepts > 0;
      if ok {
        sent := sent + [pdu];
        accepts := accepts - 1;
      }
    }
  }

  /** t is s with v at p. */
  ghost predicate Spliced(s: seq<byte>, t: seq<byte>, p: nat, v: seq<byte>)
  {
    && |t| == |s| && p + |v| <= |s| && t[p..p + |v|] == v
    && forall i :: 0 <= i < |s| && !(p <= i < p + |v|) ==> t[i] == s[i]
  }

  method Splice(buffer: array<byte>, p: nat, v: seq<byte>)
    requires p + |v| <= buffer.Length
    modifies buffer
    ensures Spliced(old(buffer[..]), buffer[..], p, v)
  {
    forall i | 0 <= i < |v| {
      buffer[p + i] := v[i];
    }
  }

  lemma SliceKept(s: seq<byte>, t: seq<byte>, p: nat, v: seq<byte>, a: nat, b: nat)
    requires Spliced(s, t, p, v) && a <= b <= |s| && (b <= p || p + |v| <= a)
    ensures t[a..b] == s[a..b]
  {
  }

  /** The packet at bm: headers in place, then signed and encrypted in place. */
  method BuildPacket(buffer: array<byte>, bm: nat, length: nat, sec: nat, code: byte, kind: nat, c: Cipher, n: nat)
    requires Sound(c) && Security(sec) && length <= MaxLength(sec) && bm + 6 + sec + length <= buffer.Length
    modifies buffer
    ensures Carries(buffer[bm..bm + 6 + sec + length], c, n, sec, code, kind,
        old(buffer[bm + 6 + sec..bm + 6 + sec + length]))
    ensures forall i :: 0 <= i < buffer.Length && !(bm <= i < bm + 6 + sec + length) ==> buffer[i] == old(buffer[i])
  {
    hide Spliced, PacketHeader, UpdateHeader, Sound;
    var pduLength, ptr := length + 6 + sec, bm + 3 + sec;
    ghost var s0 := buffer[..];
    ghost var data := s0[ptr + 3..ptr + 3 + length];
    Splice(buffer, bm, PacketHeader(sec > 0, pduLength));
    ghost var s1 := buffer[..];
    Splice(buffer, ptr, [UpdateHeader(code, kind, 0), length % 256, length / 256]);
    ghost var s2 := buffer[..];
    ghost var body := Body(code, kind, data);
    PlainPacket(s0, s1, s2, bm, length, sec, code, kind);
    if sec > 0 {
      var plain := buffer[ptr..ptr + length + 3];
      MacLength(c, n, plain);
      Splice(buffer, bm + 3, c.mac(n, plain));
      ghost var s3 := buffer[..];
      Splice(buffer, ptr, c.encrypt(n, plain));
      SecurePacket(s2, s3, buffer[..], bm, length, sec, code, kind, data, c, n);
      SplicedTwice(s2, s3, buffer[..], bm, pduLength, bm + 3, c.mac(n, plain), ptr, c.encrypt(n, plain));
    } else {
      InTwo(s2, bm, 3, length + 3);
    }
    SplicedTwice(s0, s1, s2, bm, pduLength, bm, PacketHeader(sec > 0, pduLength), ptr,
                 [UpdateHeader(code, kind, 0), length % 256, length / 256]);
  }

  lemma InTwo(s: seq<byte>, p: nat, a: nat, b: nat)
    requires p + a + b <= |s|
    ensures var t := s[p..p + a + b]; t[..a] == s[p..p + a] && t[a..] == s[p + a..p + a + b]
  {
  }

  lemma MacLength(c: Cipher, n: nat, x: seq<byte>)
    requires Sound(c)
    ensures |c.mac(n, x)| == 8 && |c.encrypt(n, x)| == |x|
  {
  }

  lemma SplicedTwice(s: seq<byte>, m: seq<byte>, t: seq<byte>, lo: nat, len: nat, p: nat, v: seq<byte>, q: nat,
      u: seq<byte>)
    requires Spliced(s, m, p, v) && Spliced(m, t, q, u)
    requires lo <= p && p + |v| <= lo + len && lo <= q && q + |u| <= lo + len
    ensures |t| == |s| && forall i :: 0 <= i < |s| && !(lo <= i < lo + len) ==> t[i] == s[i]
  {
  }

  lemma PlainPacket(s0: seq<byte>, s1: seq<byte>, s2: seq<byte>, bm: nat, length: nat, sec: nat, code: byte, kind: nat)
    requires Security(sec) && length <= MaxLength(sec) && bm + 6 + sec + length <= |s0|
    requires Spliced(s0, s1, bm, PacketHeader(sec > 0, length + 6 + sec))
    requires Spliced(s1, s2, bm + 3 + sec, [UpdateHeader(code, kind, 0), length % 256, length / 256])
    ensures var ptr := bm + 3 + sec;
            && s2[bm..bm + 3] == PacketHeader(sec > 0, length + 6 + sec)
            && s2[ptr..ptr + 3 + length] == Body(code, kind, s0[ptr + 3..ptr + 3 + length])
  {
    hide UpdateHeader;
    var ptr := bm + 3 + sec;
    var hd, uh := PacketHeader(sec > 0, length + 6 + sec), [UpdateHeader(code, kind, 0), length % 256, length / 256];
    SliceKept(s1, s2, ptr, uh, bm, bm + 3);
    SliceKept(s0, s1, bm, hd, ptr + 3, ptr + 3 + length);
    SliceKept(s1, s2, ptr, uh, ptr + 3, ptr + 3 + length);
    assert s2[ptr..ptr + 3 + length] == s2[ptr..ptr + 3] + s2[ptr + 3..ptr + 3 + length];
  }

  lemma SecurePacket(s2: seq<byte>, s3: seq<byte>, s4: seq<byte>, bm: nat, length: nat, sec: nat, code: byte, kind: nat,
                     data: seq<byte>, c: Cipher, n: nat)
    requires Sound(c) && Security(sec) && sec > 0 && |data| == length <= MaxLength(sec) && bm + 6 + sec + length <= |s2|
    requires var body := Body(code, kind, data);
             && s2[bm..bm + 3] == PacketHeader(true, length + 6 + sec)
             && Spliced(s2, s3, bm + 3, c.mac(n, body)) && Spliced(s3, s4, bm + 3 + sec, c.encrypt(n, body))
    ensures Carries(s4[bm..bm + 6 + sec + length], c, n, sec, code, kind, data)
  {
    hide PacketHeader;
    var body, ptr := Body(code, kind, data), bm + 3 + sec;
    MacLength(c, n, body);
    SliceKept(s2, s3, bm + 3, c.mac(n, body), bm, bm + 3);
    SliceKept(s3, s4, ptr, c.encrypt(n, body), bm, bm + 3);
    SliceKept(s3, s4, ptr, c.encrypt(n, body), bm + 3, bm + 11);
    var p := s4[bm..bm + 6 + sec + length];
    assert p[..3] == s4[bm..bm + 3] && p[3..11] == s4[bm + 3..bm + 11] && p[3 + sec..] == s4[ptr..ptr + 3 + length];
  }

  /** With the packets of the remaining data appended, out carries all of it. */
  ghost predicate Pending(out: seq<seq<byte>>, c: Cipher, n: nat, sec: nat, code: byte, data: seq<byte>, m: nat,
      off: nat)
    requires Security(sec)
  {
    off <= |data| && forall rest :: CarryAll(rest, c, n + m, sec, code, m == 0, data[off..]) ==>
                                      CarryAll(out + rest, c, n, sec, code, true, data)
  }

  lemma PendingStart(c: Cipher, n: nat, sec: nat, code: byte, data: seq<byte>)
    requires Security(sec)
    ensures Pending([], c, n, sec, code, data, 0, 0)
  {
    hide CarryAll;
    assert data[0..] == data;
    assert forall rest: seq<seq<byte>> :: [] + rest == rest;
  }

  lemma PendingStep(out: seq<seq<byte>>, pdu: seq<byte>, c: Cipher, n: nat, sec: nat, code: byte, data: seq<byte>,
      m: nat, off: nat)
    requires Security(sec) && off < |data| && Pending(out, c, n, sec, code, data, m, off)
    requires var len := Min(MaxLength(sec), |data| - off);
             Carries(pdu, c, n + m, sec, code, Kind(m == 0, off + len == |data|), data[off..off + len])
    ensures Pending(out + [pdu], c, n, sec, code, data, m + 1, off + Min(MaxLength(sec), |data| - off))
  {
    hide Carries;
    var len := Min(MaxLength(sec), |data| - off);
    forall rest | CarryAll(rest, c, n + (m + 1), sec, code, false, data[off + len..])
      ensures CarryAll(out + [pdu] + rest, c, n, sec, code, true, data)
    {
      var all := [pdu] + rest;
      assert all[1..] == rest;
      assert data[off..][..len] == data[off..off + len] && data[off..][len..] == data[off + len..];
      assert CarryAll(all, c, n + m, sec, code, m == 0, data[off..]);
      assert out + [pdu] + rest == out + all;
    }
  }

  lemma PendingEnd(out: seq<seq<byte>>, c: Cipher, n: nat, sec: nat, code: byte, data: seq<byte>, m: nat)
    requires Security(sec) && Pending(out, c, n, sec, code, data, m, |data|)
    ensures CarryAll(out, c, n, sec, code, true, data)
  {
    assert CarryAll([], c, n + m, sec, code, m == 0, data[|data|..]);
    assert out + [] == out;
  }

  /** Main result: although every header overwrites the end of the previous packet, the packets handed to the transport
      carry the fragments of the data as it was in the buffer; the loop stops early only when the transport fails. */
  method SendUpdate(t: Transport, buffer: array<byte>, size: nat, sec: nat, code: byte, c: Cipher, n: nat)
    returns (result: bool)
    requires Sound(c) && Security(sec) && code < 16 && 6 + sec <= size <= buffer.Length
    modifies t, buffer
    ensures |old(t.sent)| <= |t.sent| && t.sent[..|old(t.sent)|] == old(t.sent)
    ensures result ==> CarryAll(t.sent[|old(t.sent)|..], c, n, sec, code, true, old(buffer[6 + sec..size]))
    ensures !result ==> t.accepts == 0
  {
    hide Sound, Carries, CarryAll, Pending;
    ghost var data, before := buffer[6 + sec..size], t.sent;
    ghost var out: seq<seq<byte>> := [];
    var maxLength, totalLength := MaxLength(sec), size - 6 - sec;
    var fragment, pos := 0, 0;
    PendingStart(c, n, sec, code, data);
    while totalLength > 0
      invariant 0 <= pos && 0 <= totalLength && pos + totalLength == |data|
          && buffer[pos + 6 + sec..size] == data[pos..]
      invariant t.sent == before + out && Pending(out, c, n, sec, code, data, fragment, pos)
    {
      var length := Min(maxLength, totalLength);
      totalLength := totalLength - length;
      var fragmentation := Kind(fragment == 0, totalLength == 0);
      ghost var s := buffer[..];
      Remaining(s, data, pos, sec, size, length);
      BuildPacket(buffer, pos, length, sec, code, fragmentation, c, n + fragment);
      var pdu := buffer[pos..pos + length + 6 + sec];
      PendingStep(out, pdu, c, n, sec, code, data, fragment, pos);
      var ok := t.Write(pdu);
      if !ok { return false; }
      out := out + [pdu];
      TailKept(s, buffer[..], data, pos, sec, size, length);
      pos := pos + length;
      fragment := fragment + 1;
    }
    PendingEnd(out, c, n, sec, code, data, fragment);
    assert t.sent[|before|..] == out;
    return true;
  }

  lemma Remaining(s: seq<byte>, data: seq<byte>, pos: nat, sec: nat, size: nat, length: nat)
    requires size <= |s| && pos <= |data| && pos + 6 + sec + length <= size == |data| + 6 + sec
        && s[pos + 6 + sec..size] == data[pos..]
    ensures s[pos + 6 + sec..pos + 6 + sec + length] == data[pos..pos + length]
  {
    assert s[pos + 6 + sec..size][..length] == s[pos + 6 + sec..pos + 6 + sec + length];
    assert data[pos..][..length] == data[pos..pos + length];
  }

  /** What is still to be sent lies behind the packet just built. */
  lemma TailKept(s: seq<byte>, t: seq<byte>, data: seq<byte>, pos: nat, sec: nat, size: nat, length: nat)
    requires |t| == |s| && size <= |s| && pos <= |data| && pos + 6 + sec + length <= size == |data| + 6 + sec
    requires s[pos + 6 + sec..size] == data[pos..]
    requires forall i :: 0 <= i < |s| && !(pos <= i < pos + 6 + sec + length) ==> t[i] == s[i]
    ensures t[pos + length + 6 + sec..size] == data[pos + length..]
  {
    var a := s[pos + 6 + sec..size];
    assert a[length..] == s[pos + length + 6 + sec..size] == t[pos + length + 6 + sec..size];
    assert data[pos..][length..] == data[pos + length..];
  }
}
