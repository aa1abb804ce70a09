/** The parse loop over the blocks of a message (libfreerdp-codec/rfx.c). */
module RfxParser {
  import opened Words
  import opened LittleEndian
  import opened RfxMessage

  class Decoder {
    var visited: seq<nat>
    var version: nat
    var codecId: nat
    var codecVersion: nat
    var width: nat
    var height: nat
    var properties: nat
    var flags: nat
    var entropy: nat
    var rects: seq<Rect>
    var quants: seq<nat>
    var tiles: seq<Decoded>

    ghost function View(): Parsed
      reads this
    {
      Parsed(visited, version, codecId, codecVersion, width, height, properties, flags, entropy, rects, quants, tiles)
    }

    method ProcessRegionBlock(s: seq<byte>)
      modifies this`rects
      ensures View() == ProcessRegion(old(View()), s)
    {
      hide ReadRect, ReadU16;
      if |s| < 3 { return; }
      var numRects := ReadU16(s[1..]);
      if numRects < 1 { rects := []; return; }
      var all: seq<Rect> := [];
      var i, pos := 0, 3;
      assert s[3..] == s[pos..];
      while i < numRects && pos + 8 <= |s|
        invariant 0 <= i <= numRects && 3 <= pos <= |s|
            && all + ReadRects(s[pos..], numRects - i) == ReadRects(s[3..], numRects)
      {
        assert s[pos..][8..] == s[pos + 8..];
        all := all + [ReadRect(s[pos..])];
        i, pos := i + 1, pos + 8;
      }
      rects := all;
    }

    method ProcessTilesetBlock(s: seq<byte>)
      modifies this`quants, this`tiles
      ensures View() == ProcessTileset(old(View()), s)
    {
      hide ReadU16, ReadQuants, ReadTiles;
      if |s| < 14 || ReadU16(s) != CBT_TILESET { return; }
      var numQuants := s[6] as int;
      if numQuants < 1 { return; }
      var numTiles := ReadU16(s[8..]);
      if numTiles < 1 { tiles := []; return; }
      quants := TakeQuants(s[14..], 5 * numQuants);
      tiles := TakeTiles(s[14 + Cut(5 * numQuants, s[14..])..], numTiles, quants);
    }

    /** A new message starts without rectangles and tiles; every block is visited once, each length leading to the
        next one. */
    method Process(s: seq<byte>)
      modifies this
      ensures View() == ProcessMessage(NewMessage(old(View())), s)
    {
      hide ReadU16, ReadU32, ProcessBlock;
      visited, rects, tiles := [], [], [];
      ghost var p := View();
      var pos := 0;
      assert s[0..] == s;
      while |s| - pos > 6
        invariant 0 <= pos <= |s| && ProcessMessage(View(), s[pos..]) == ProcessMessage(p, s)
      {
        var kind, len := ReadU16(s[pos..]), ReadU32(s[pos..][2..]);
        if len == 0 { break; }
        assert s[pos..][6..] == s[pos + 6..];
        assert s[pos..][Cut(len, s[pos..])..] == s[pos + Cut(len, s[pos..])..];
        ProcessOne(kind, s[pos + 6..]);
        pos := pos + Cut(len, s[pos..]);
      }
    }

    method ProcessOne(kind: nat, s: seq<byte>)
      modifies this
      ensures View() == ProcessBlock(old(View()), kind, s)
    {
      hide ReadU16, ReadU32, ProcessRegion, ProcessTileset;
      visited := visited + [kind];
      var b := if WBT_CONTEXT <= kind <= WBT_EXTENSION then s[Cut(2, s)..] else s;
      if kind == WBT_SYNC {
        if |b| >= 6 && ReadU32(b) == WF_MAGIC { version := ReadU16(b[4..]); }
      } else if kind == WBT_CODEC_VERSIONS {
        if |b| >= 3 && b[0] == 1 { codecId, codecVersion := b[1] as int, b[2] as int; }
      } else if kind == WBT_CHANNELS {
        if |b| >= 6 && b[0] >= 1 { width, height := ReadU16(b[2..]), ReadU16(b[4..]); }
      } else if kind == WBT_CONTEXT {
        if |b| >= 5 {
          properties := ReadU16(b[3..]);
          flags := properties % 8;
          var et := (properties / 512) % 16;
          if et == 1 || et == 4 { entropy := et; }
        }
      } else if kind == WBT_REGION {
        ProcessRegionBlock(b);
      } else if kind == WBT_EXTENSION {
        ProcessTilesetBlock(b);
      }
    }
  }

  method TakeQuants(s: seq<byte>, n: nat) returns (q: seq<nat>)
    ensures q == ReadQuants(s, n)
  {
    hide ReadQuants;
    q := [];
    var i := 0;
    assert s[0..] == s;
    while i < n && i < |s|
      invariant 0 <= i <= n && i <= |s| && q + ReadQuants(s[i..], n - i) == ReadQuants(s, n)
    {
      NextQuants(s, i, n - i);
      q := q + [s[i] as int % 16, s[i] as int / 16];
      i := i + 1;
    }
    NoQuants(s[i..], n - i);
  }

  lemma NextQuants(s: seq<byte>, i: nat, n: nat)
    requires i < |s| && n > 0
    ensures ReadQuants(s[i..], n) == [s[i] as int % 16, s[i] as int / 16] + ReadQuants(s[i + 1..], n - 1)
  {
    assert s[i..][1..] == s[i + 1..] && s[i..][0] == s[i];
  }

  lemma NoQuants(s: seq<byte>, n: nat)
    requires s == [] || n == 0
    ensures ReadQuants(s, n) == []
  {
  }

  method TakeTiles(s: seq<byte>, n: nat, quants: seq<nat>) returns (tiles: seq<Decoded>)
    ensures tiles == ReadTiles(s, n, quants)
  {
    hide ReadU16, ReadU32, ReadTile;
    tiles := [];
    var i, pos := 0, 0;
    assert s[0..] == s;
    while i < n && |s| - pos >= 19
      invariant 0 <= i <= n && 0 <= pos <= |s| && tiles + ReadTiles(s[pos..], n - i, quants) == ReadTiles(s, n, quants)
    {
      var t := s[pos..];
      if ReadU16(t) != CBT_TILE { break; }
      var len := ReadU32(t[2..]);
      tiles := tiles + [ReadTile(t[6..], quants)];
      assert t[Cut(len, t)..] == s[pos + Cut(len, t)..];
      i, pos := i + 1, pos + Cut(len, t);
    }
  }
}
