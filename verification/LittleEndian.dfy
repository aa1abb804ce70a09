/** Little-endian 16- and 32-bit fields of byte strings. */
module LittleEndian {
  import opened Words

  function U16(v: nat): (b: seq<byte>)
    ensures |b| == 2
  {
    [v % 256, (v / 256) % 256]
  }

  function U32(v: nat): (b: seq<byte>)
    ensures |b| == 4
  {
    [v % 256, (v / 256) % 256, (v / 65536) % 256, (v / 0x100_0000) % 256]
  }

  function ReadU16(s: seq<byte>): (v: nat)
    requires |s| >= 2
    ensures v < 65536
  {
    s[0] as int + 256 * s[1] as int
  }

  function ReadU32(s: seq<byte>): (v: nat)
    requires |s| >= 4
    ensures v < 0x1_0000_0000
  {
    s[0] as int + 256 * s[1] as int + 65536 * s[2] as int + 0x100_0000 * s[3] as int
  }

  lemma U16RoundTrip(v: nat, rest: seq<byte>)
    requires v < 65536
    ensures ReadU16(U16(v) + rest) == v && (U16(v) + rest)[2..] == rest
  {
    var s := U16(v) + rest;
    assert s[0] == v % 256 && s[1] == v / 256;
  }

  /** A larger value is cut to its low 16 bits. */
  lemma U16Wraps(v: nat, rest: seq<byte>)
    ensures ReadU16(U16(v) + rest) == v % 65536 && (U16(v) + rest)[2..] == rest
  {
    var s, r := U16(v) + rest, v % 65536;
    assert s[0] == v % 256 && s[1] == (v / 256) % 256;
    assert v % 65536 == v % 256 + 256 * ((v / 256) % 256) by {
      var a, b := v / 65536, v % 65536;
      assert v == 256 * (256 * a + b / 256) + b % 256;
    }
  }

  lemma U32RoundTrip(v: nat, rest: seq<byte>)
    requires v < 0x1_0000_0000
    ensures ReadU32(U32(v) + rest) == v && (U32(v) + rest)[4..] == rest
  {
    var s := U32(v) + rest;
    assert s[0] == v % 256 && s[1] == (v / 256) % 256 && s[2] == (v / 65536) % 256 && s[3] == v / 0x100_0000;
    assert v / 65536 == (v / 256) / 256 && v / 0x100_0000 == (v / 65536) / 256;
  }
}
