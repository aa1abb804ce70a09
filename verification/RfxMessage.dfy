/** RemoteFX messages: nested blocks with lengths ([MS-RDPRFX]; libfreerdp-codec/rfx.c). */
module RfxMessage {
  import opened Words
  import opened LittleEndian

  const WBT_SYNC := 0xCCC0
  const WBT_CODEC_VERSIONS := 0xCCC1
  const WBT_CHANNELS := 0xCCC2
  const WBT_CONTEXT := 0xCCC3
  const WBT_FRAME_BEGIN := 0xCCC4
  const WBT_FRAME_END := 0xCCC5
  const WBT_REGION := 0xCCC6
  const WBT_EXTENSION := 0xCCC7
  const CBT_REGION := 0xCAC1
  const CBT_TILESET := 0xCAC2
  const CBT_TILE := 0xCAC3
  const WF_MAGIC := 0xCACCACCA
  const WF_VERSION := 0x0100

  // ---- What a message is made of ----

  datatype Rect = Rect(x: uint16, y: uint16, width: uint16, height: uint16)

  /** A tile: its place in the grid and the code of its three components. */
  datatype Tile = Tile(xIdx: uint16, yIdx: uint16, y: seq<byte>, cb: seq<byte>, cr: seq<byte>)

  predicate ValidTile(t: Tile) { |t.y| < 65536 && |t.cb| < 65536 && |t.cr| < 65536 && t.xIdx < 1024 && t.yIdx < 1024 }

  /** Quantization table and the indices into it that the tiles of a frame use. */
  datatype Quants = Quants(values: seq<nat>, y: byte, cb: byte, cr: byte)

  predicate ValidQuants(q: Quants)
  {
    && 0 < |q.values| <= 2550 && |q.values| % 10 == 0 && (forall i :: 0 <= i < |q.values| ==> q.values[i] <= 15)
    && 10 * q.y as int + 10 <= |q.values| && 10 * q.cb as int + 10 <= |q.values| && 10 * q.cr as int + 10 <= |q.values|
  }

  // ---- Composed bytes ----

  function Block(kind: nat, body: seq<byte>): seq<byte> { U16(kind) + U32(6 + |body|) + body }

  function SyncBody(): seq<byte> { U32(WF_MAGIC) + U16(WF_VERSION) }

  function CodecVersionsBody(): seq<byte> { [1, 1] + U16(WF_VERSION) }

  function ChannelsBody(width: nat, height: nat): seq<byte> { [1, 0] + (U16(width) + U16(height)) }

  /** Flags, colour conversion, transform, entropy coder (1 or 4) and quantization. */
  function ContextProperties(flags: nat, entropy: nat): nat { flags + 8 + 32 + 512 * entropy + 8192 }

  function TilesetProperties(flags: nat, entropy: nat): nat { 1 + 2 * flags + 16 + 64 + 1024 * entropy + 16384 }

  function ContextBody(properties: nat): seq<byte> { [1, 0, 0] + (U16(64) + U16(properties)) }

  function FrameBeginBody(frame: nat): seq<byte> { [1, 0] + (U32(frame) + U16(1)) }

  function FrameEndBody(): seq<byte> { [1, 0] }

  function OneRect(r: Rect): (b: seq<byte>)
    ensures |b| == 8
  {
    U16(r.x) + (U16(r.y) + (U16(r.width) + U16(r.height)))
  }

  function RectBytes(rects: seq<Rect>): (b: seq<byte>)
    ensures |b| == 8 * |rects|
  {
    if rects == [] then []
    else OneRect(rects[0]) + RectBytes(rects[1..])
  }

  function RegionBody(rects: seq<Rect>): seq<byte>
  {
    [1, 0, 1] + (U16(|rects|) + (RectBytes(rects) + (U16(CBT_REGION) + U16(1))))
  }

  /** Two values to a byte, the first in the low nibble. */
  function QuantBytes(q: seq<nat>): (b: seq<byte>)
    requires forall i :: 0 <= i < |q| ==> q[i] <= 15
    ensures |b| == |q| / 2
  {
    if |q| < 2 then [] else [q[0] + 16 * q[1]] + QuantBytes(q[2..])
  }

  function TileBody(t: Tile, q: Quants): seq<byte>
  {
    [q.y, q.cb, q.cr] + (U16(t.xIdx)
        + (U16(t.yIdx) + (U16(|t.y|) + (U16(|t.cb|) + (U16(|t.cr|) + (t.y + (t.cb + t.cr)))))))
  }

  function TilesBytes(tiles: seq<Tile>, q: Quants): seq<byte>
  {
    if tiles == [] then [] else Block(CBT_TILE, TileBody(tiles[0], q)) + TilesBytes(tiles[1..], q)
  }

  function TilesetBody(properties: nat, q: Quants, tiles: seq<Tile>): seq<byte>
    requires ValidQuants(q)
  {
    TilesetHead(properties, |q.values| / 10, |tiles|, |TilesBytes(tiles, q)|)
        + (QuantBytes(q.values) + TilesBytes(tiles, q))
  }

  /** The fixed part, up to and including the size of the tiles. */
  function TilesetHead(properties: nat, n: byte, count: nat, size: nat): (h: seq<byte>)
    ensures |h| == 16
  {
    [1, 0] + U16(CBT_TILESET) + U16(0) + U16(properties) + [n, 0x40] + U16(count) + U32(size)
  }

  datatype Frame = Frame(index: nat, rects: seq<Rect>, properties: nat, quants: Quants, tiles: seq<Tile>)

  predicate ValidFrame(f: Frame)
  {
    && 15 + 8 * |f.rects| < 0x1_0000_0000 && f.properties < 65536 && f.index < 0x1_0000_0000 && ValidQuants(f.quants)
    && (forall i :: 0 <= i < |f.tiles| ==> ValidTile(f.tiles[i]))
    && 2000 + |TilesBytes(f.tiles, f.quants)| < 0x1_0000_0000
  }

  function FrameBytes(f: Frame): seq<byte>
    requires ValidQuants(f.quants)
  {
    Block(WBT_FRAME_BEGIN, FrameBeginBody(f.index)) + (Block(WBT_REGION, RegionBody(f.rects))
    + (Block(WBT_EXTENSION, TilesetBody(f.properties, f.quants, f.tiles)) + Block(WBT_FRAME_END, FrameEndBody())))
  }

  datatype Header = Header(width: uint16, height: uint16, flags: nat, entropy: nat)

  predicate ValidHeader(h: Header) { h.flags < 8 && (h.entropy == 1 || h.entropy == 4) }

  function HeaderBytes(h: Header): seq<byte>
  {
    Block(WBT_SYNC, SyncBody()) + (Block(WBT_CONTEXT, ContextBody(ContextProperties(h.flags, h.entropy)))
    + (Block(WBT_CODEC_VERSIONS, CodecVersionsBody()) + Block(WBT_CHANNELS, ChannelsBody(h.width, h.height))))
  }

  // ---- Parsing ----

  /** A decoded tile: its pixel position, the quantization values picked for its components and their bytes. */
  datatype Decoded = Decoded(x: nat, y: nat, yQuants: seq<nat>, cbQuants: seq<nat>, crQuants: seq<nat>,
                             yData: seq<byte>, cbData: seq<byte>, crData: seq<byte>)

  /** The block types visited, the context fields and the message. */
  datatype Parsed = Parsed(visited: seq<nat>, version: nat, codecId: nat, codecVersion: nat, width: nat, height: nat,
      properties: nat,
                           flags: nat, entropy: nat, rects: seq<Rect>, quants: seq<nat>, tiles: seq<Decoded>)

  function ReadRects(s: seq<byte>, n: nat): seq<Rect>
    decreases n, s
  {
    if n == 0 || |s| < 8 then []
    else [ReadRect(s)] + ReadRects(s[8..], n - 1)
  }

  function ReadRect(s: seq<byte>): Rect
    requires |s| >= 8
  {
    Rect(ReadU16(s), ReadU16(s[2..]), ReadU16(s[4..]), ReadU16(s[6..]))
  }

  function ReadQuants(s: seq<byte>, n: nat): seq<nat>
    decreases n, s
  {
    if n == 0 || s == [] then [] else [s[0] as int % 16, s[0] as int / 16] + ReadQuants(s[1..], n - 1)
  }

  function QuantsAt(quants: seq<nat>,
      i: nat): seq<nat> { if 10 * i + 10 <= |quants| then quants[10 * i..10 * i + 10] else [] }

  /** A tile from its quantization indices on. */
  function ReadTile(s: seq<byte>, quants: seq<nat>): Decoded
    requires |s| >= 13
  {
    var yLen, cbLen, crLen := ReadU16(s[7..]), ReadU16(s[9..]), ReadU16(s[11..]);
    var data := s[13..];
    var y := data[..Cut(yLen, data)];
    var cb := data[Cut(yLen, data)..Cut(yLen + cbLen, data)];
    var cr := data[Cut(yLen + cbLen, data)..Cut(yLen + cbLen + crLen, data)];
    Decoded(64 * ReadU16(s[3..]), 64 * ReadU16(s[5..]), QuantsAt(quants, s[0]), QuantsAt(quants, s[1]),
        QuantsAt(quants, s[2]), y, cb, cr)
  }

  function Cut(n: nat, s: seq<byte>): nat { if n <= |s| then n else |s| }

  /** Tiles until one is not a tile; the length of each says where the next one starts. */
  function ReadTiles(s: seq<byte>, n: nat, quants: seq<nat>): seq<Decoded>
    decreases n, s
  {
    if n == 0 || |s| < 19 || ReadU16(s) != CBT_TILE then []
    else
      var len := ReadU32(s[2..]);
      [ReadTile(s[6..], quants)] + ReadTiles(s[Cut(len, s)..], n - 1, quants)
  }

  function ProcessSync(p: Parsed, s: seq<byte>): Parsed
  {
    if |s| < 6 || ReadU32(s) != WF_MAGIC then p else p.(version := ReadU16(s[4..]))
  }

  function ProcessCodecVersions(p: Parsed, s: seq<byte>): Parsed
  {
    if |s| < 3 || s[0] != 1 then p else p.(codecId := s[1] as int, codecVersion := s[2] as int)
  }

  function ProcessChannels(p: Parsed, s: seq<byte>): Parsed
  {
    if |s| < 6 || s[0] < 1 then p else p.(width := ReadU16(s[2..]), height := ReadU16(s[4..]))
  }

  function ProcessContext(p: Parsed, s: seq<byte>): Parsed
  {
    if |s| < 5 then p
    else
      var properties := ReadU16(s[3..]);
      var et := (properties / 512) % 16;
      p.(properties := properties, flags := properties % 8, entropy := if et == 1 || et == 4 then et else p.entropy)
  }

  function ProcessRegion(p: Parsed, s: seq<byte>): Parsed
  {
    if |s| < 3 then p
    else if ReadU16(s[1..]) < 1 then p.(rects := [])
    else p.(rects := ReadRects(s[3..], ReadU16(s[1..])))
  }

  function ProcessTileset(p: Parsed, s: seq<byte>): Parsed
  {
    if |s| < 14 || ReadU16(s) != CBT_TILESET || s[6] < 1 then p
    else if ReadU16(s[8..]) < 1 then p.(tiles := [])
    else
      var n, count := s[6] as int, ReadU16(s[8..]);
      var quants := ReadQuants(s[14..], 5 * n);
      p.(quants := quants, tiles := ReadTiles(s[14 + Cut(5 * n, s[14..])..], count, quants))
  }

  /** One block, from behind its type and length. */
  function ProcessBlock(p: Parsed, kind: nat, s: seq<byte>): Parsed
  {
    var q := p.(visited := p.visited + [kind]);
    var b := if WBT_CONTEXT <= kind <= WBT_EXTENSION then s[Cut(2, s)..] else s;
    if kind == WBT_SYNC then ProcessSync(q, b)
    else if kind == WBT_CODEC_VERSIONS then ProcessCodecVersions(q, b)
    else if kind == WBT_CHANNELS then ProcessChannels(q, b)
    else if kind == WBT_CONTEXT then ProcessContext(q, b)
    else if kind == WBT_REGION then ProcessRegion(q, b)
    else if kind == WBT_EXTENSION then ProcessTileset(q, b)
    else q
  }

  /** The context keeps its fields from message to message; the lists are those of one message. */
  function NewMessage(p: Parsed): Parsed { p.(visited := [], rects := [], tiles := []) }

  /** Blocks until too little is left or a length is zero. */
  function ProcessMessage(p: Parsed, s: seq<byte>): Parsed
    decreases |s|
  {
    if |s| <= 6 then p
    else
      var len := ReadU32(s[2..]);
      if len == 0 then p else ProcessMessage(ProcessBlock(p, ReadU16(s), s[6..]), s[Cut(len, s)..])
  }

  // ---- Reading back what was composed ----

  lemma ReadBlock(p: Parsed, kind: nat, body: seq<byte>, rest: seq<byte>)
    requires kind < 65536 && 0 < |body| && 6 + |body| < 0x1_0000_0000
    ensures ProcessMessage(p, Block(kind, body) + rest) == ProcessMessage(ProcessBlock(p, kind, body + rest), rest)
  {
    hide U16, U32, ReadU16, ReadU32, ProcessBlock;
    var s := Block(kind, body) + rest;
    assert s == U16(kind) + (U32(6 + |body|) + (body + rest));
    U16RoundTrip(kind, U32(6 + |body|) + (body + rest));
    U32RoundTrip(6 + |body|, body + rest);
    assert s[6..] == s[2..][4..];
    assert s[6 + |body|..] == rest;
  }

  lemma RectBack(r: Rect, tail: seq<byte>)
    ensures ReadRect(OneRect(r) + tail) == r && (OneRect(r) + tail)[8..] == tail
  {
    hide U16, ReadU16;
    var s := OneRect(r) + tail;
    assert s == U16(r.x) + (U16(r.y) + (U16(r.width) + (U16(r.height) + tail)));
    U16RoundTrip(r.x, U16(r.y) + (U16(r.width) + (U16(r.height) + tail)));
    U16RoundTrip(r.y, U16(r.width) + (U16(r.height) + tail));
    U16RoundTrip(r.width, U16(r.height) + tail);
    U16RoundTrip(r.height, tail);
    assert s[4..] == s[2..][2..] && s[6..] == s[2..][2..][2..];
  }

  lemma {:induction false} RectsBack(rects: seq<Rect>, n: nat, rest: seq<byte>)
    requires n <= |rects|
    ensures ReadRects(RectBytes(rects) + rest, n) == rects[..n]
    decreases n
  {
    hide OneRect, ReadRect;
    if n > 0 {
      var tail := RectBytes(rects[1..]) + rest;
      assert RectBytes(rects) + rest == OneRect(rects[0]) + tail;
      RectBack(rects[0], tail);
      RectsBack(rects[1..], n - 1, rest);
      assert rects[..n] == [rects[0]] + rects[1..][..n - 1];
    }
  }

  lemma {:induction false} QuantsBack(q: seq<nat>, rest: seq<byte>)
    requires |q| % 2 == 0 && forall i :: 0 <= i < |q| ==> q[i] <= 15
    ensures ReadQuants(QuantBytes(q) + rest, |q| / 2) == q
    decreases |q|
  {
    if |q| >= 2 {
      var s := QuantBytes(q) + rest;
      assert s[0] == q[0] + 16 * q[1] && s[1..] == QuantBytes(q[2..]) + rest;
      QuantsBack(q[2..], rest);
      assert q == [q[0], q[1]] + q[2..];
    }
  }

  /** What a composed tile decodes to. */
  function Expected(t: Tile, q: Quants): Decoded
  {
    Decoded(64 * t.xIdx, 64 * t.yIdx, QuantsAt(q.values, q.y), QuantsAt(q.values, q.cb), QuantsAt(q.values, q.cr), t.y,
        t.cb, t.cr)
  }

  lemma TileBack(t: Tile, q: Quants, rest: seq<byte>)
    requires ValidTile(t)
    ensures |TileBody(t, q)| == 13 + |t.y| + |t.cb| + |t.cr|
        && ReadTile(TileBody(t, q) + rest, q.values) == Expected(t, q)
  {
    hide U16, ReadU16, QuantsAt;
    var d := t.y + (t.cb + (t.cr + rest));
    var s := TileBody(t, q) + rest;
    assert s == [q.y, q.cb, q.cr] + (U16(t.xIdx) + (U16(t.yIdx) + (U16(|t.y|) + (U16(|t.cb|) + (U16(|t.cr|) + d)))));
    U16RoundTrip(t.xIdx, U16(t.yIdx) + (U16(|t.y|) + (U16(|t.cb|) + (U16(|t.cr|) + d))));
    U16RoundTrip(t.yIdx, U16(|t.y|) + (U16(|t.cb|) + (U16(|t.cr|) + d)));
    U16RoundTrip(|t.y|, U16(|t.cb|) + (U16(|t.cr|) + d));
    U16RoundTrip(|t.cb|, U16(|t.cr|) + d);
    U16RoundTrip(|t.cr|, d);
    assert s[3..] == U16(t.xIdx) + (U16(t.yIdx) + (U16(|t.y|) + (U16(|t.cb|) + (U16(|t.cr|) + d))));
    Drops(s);
    Slices(t.y, t.cb, t.cr, rest);
  }

  lemma Drops(s: seq<byte>)
    requires |s| >= 13
    ensures s[5..] == s[3..][2..] && s[7..] == s[5..][2..] && s[9..] == s[7..][2..] && s[11..] == s[9..][2..]
        && s[13..] == s[11..][2..]
  {
  }

  lemma Slices(a: seq<byte>, b: seq<byte>, c: seq<byte>, rest: seq<byte>)
    ensures var d := a + (b + (c + rest));
            && |a| + |b| + |c| <= |d| && d[..|a|] == a && d[|a|..|a| + |b|] == b
            && d[|a| + |b|..|a| + |b| + |c|] == c
  {
    var d := a + (b + (c + rest));
    assert d[|a|..] == b + (c + rest);
    assert d[|a|..][..|b|] == d[|a|..|a| + |b|];
    assert d[|a| + |b|..] == c + rest;
    assert d[|a| + |b|..][..|c|] == d[|a| + |b|..|a| + |b| + |c|];
  }

  function AllExpected(tiles: seq<Tile>, q: Quants): seq<Decoded>
  {
    if tiles == [] then [] else [Expected(tiles[0], q)] + AllExpected(tiles[1..], q)
  }

  lemma {:induction false} TilesBack(tiles: seq<Tile>, n: nat, q: Quants, rest: seq<byte>)
    requires n <= |tiles| && forall i :: 0 <= i < |tiles| ==> ValidTile(tiles[i])
    ensures ReadTiles(TilesBytes(tiles, q) + rest, n, q.values) == AllExpected(tiles[..n], q)
    decreases n
  {
    hide U16, U32, ReadU16, ReadU32, ReadTile, TileBody, Expected, QuantsAt;
    if n > 0 {
      var t, tail := tiles[0], TilesBytes(tiles[1..], q) + rest;
      var b, s := TileBody(t, q), TilesBytes(tiles, q) + rest;
      assert s == U16(CBT_TILE) + (U32(6 + |b|) + (b + tail));
      TileBack(t, q, tail);
      U16RoundTrip(CBT_TILE, U32(6 + |b|) + (b + tail));
      U32RoundTrip(6 + |b|, b + tail);
      assert s[6..] == s[2..][4..];
      assert s[6 + |b|..] == tail;
      TilesBack(tiles[1..], n - 1, q, rest);
      assert tiles[..n][1..] == tiles[1..][..n - 1];
    }
  }

  /** What a list is read back as: its count is written with 16 bits. */
  function Wrapped<T>(s: seq<T>): seq<T> { s[..|s| % 65536] }

  // ---- Block by block ----

  lemma SyncBack(p: Parsed, rest: seq<byte>)
    ensures ProcessSync(p, SyncBody() + rest) == p.(version := WF_VERSION)
  {
    hide U16, U32, ReadU16, ReadU32;
    var s := SyncBody() + rest;
    assert s == U32(WF_MAGIC) + (U16(WF_VERSION) + rest);
    U32RoundTrip(WF_MAGIC, U16(WF_VERSION) + rest);
    U16RoundTrip(WF_VERSION, rest);
  }

  lemma CodecVersionsBack(p: Parsed, rest: seq<byte>)
    ensures ProcessCodecVersions(p, CodecVersionsBody() + rest) == p.(codecId := 1, codecVersion := 0)
  {
    var s := CodecVersionsBody() + rest;
    assert s[0] == 1 && s[1] == 1 && s[2] == U16(WF_VERSION)[0] == 0;
  }

  lemma ChannelsBack(p: Parsed, width: nat, height: nat, rest: seq<byte>)
    requires width < 65536 && height < 65536
    ensures ProcessChannels(p, ChannelsBody(width, height) + rest) == p.(width := width, height := height)
  {
    hide U16, ReadU16;
    var s := ChannelsBody(width, height) + rest;
    assert s == [1, 0] + (U16(width) + (U16(height) + rest));
    assert s[2..] == U16(width) + (U16(height) + rest);
    U16RoundTrip(width, U16(height) + rest);
    U16RoundTrip(height, rest);
    assert s[4..] == s[2..][2..];
  }

  lemma PropertiesBack(flags: nat, entropy: nat)
    requires flags < 8 && (entropy == 1 || entropy == 4)
    ensures var v := ContextProperties(flags, entropy);
            v < 65536 && v % 8 == flags && (v / 512) % 16 == entropy
  {
  }

  lemma ContextBack(p: Parsed, flags: nat, entropy: nat, rest: seq<byte>)
    requires flags < 8 && (entropy == 1 || entropy == 4)
    ensures ProcessContext(p, ContextBody(ContextProperties(flags, entropy))[2..] + rest)
         == p.(properties := ContextProperties(flags, entropy), flags := flags, entropy := entropy)
  {
    hide U16, ReadU16, ContextProperties;
    var v := ContextProperties(flags, entropy);
    PropertiesBack(flags, entropy);
    var s := ContextBody(v)[2..] + rest;
    assert s == [0] + (U16(64) + (U16(v) + rest));
    assert s[3..] == U16(v) + rest;
    U16RoundTrip(v, rest);
  }

  lemma RegionBack(p: Parsed, rects: seq<Rect>, rest: seq<byte>)
    ensures ProcessRegion(p, RegionBody(rects)[2..] + rest) == p.(rects := Wrapped(rects))
  {
    hide U16, ReadU16, RectBytes, ReadRects;
    var tail := (U16(CBT_REGION) + U16(1)) + rest;
    var s := RegionBody(rects)[2..] + rest;
    assert s == [1] + (U16(|rects|) + (RectBytes(rects) + tail));
    assert s[1..] == U16(|rects|) + (RectBytes(rects) + tail);
    U16Wraps(|rects|, RectBytes(rects) + tail);
    assert s[3..] == s[1..][2..];
    RectsBack(rects, |rects| % 65536, tail);
  }

  /** The parser after a composed tileset. With a count of zero it does not get to the quantization values. */
  function AfterTiles(p: Parsed, q: Quants, tiles: seq<Tile>): Parsed
  {
    if Wrapped(tiles) == [] then p.(tiles := []) else p.(quants := q.values, tiles := AllExpected(Wrapped(tiles), q))
  }

  lemma TilesetBack(p: Parsed, properties: nat, q: Quants, tiles: seq<Tile>, rest: seq<byte>)
    requires ValidQuants(q) && forall i :: 0 <= i < |tiles| ==> ValidTile(tiles[i])
    ensures ProcessTileset(p, TilesetBody(properties, q, tiles)[2..] + rest) == AfterTiles(p, q, tiles)
  {
    hide U16, U32, ReadU16, ReadU32, QuantBytes, ReadQuants, TilesBytes, ReadTiles, AllExpected, TilesetBody, ValidTile;
    TilesetParts(properties, q, tiles, rest);
    var n, data := |q.values| / 10, TilesBytes(tiles, q);
    var s := TilesetBody(properties, q, tiles)[2..] + rest;
    U16RoundTrip(CBT_TILESET, s[2..]);
    U16Wraps(|tiles|, s[10..]);
    QuantsBack(q.values, data + rest);
    TilesBack(tiles, |tiles| % 65536, q, rest);
  }

  lemma TilesetParts(properties: nat, q: Quants, tiles: seq<Tile>, rest: seq<byte>)
    requires ValidQuants(q)
    ensures |TilesetBody(properties, q, tiles)| >= 16
    ensures var s, data, n := TilesetBody(properties, q, tiles)[2..] + rest, TilesBytes(tiles, q), |q.values| / 10;
            && |s| >= 14 + 5 * n && s == U16(CBT_TILESET) + s[2..] && s[6] == n && s[8..] == U16(|tiles|) + s[10..]
            && s[14..] == QuantBytes(q.values) + (data + rest) && s[14 + 5 * n..] == data + rest
  {
    hide U16, U32, QuantBytes, TilesBytes, TilesetHead;
    var n, data := |q.values| / 10, TilesBytes(tiles, q);
    var h, t1 := TilesetHead(properties, n, |tiles|, |data|), QuantBytes(q.values) + (data + rest);
    HeadFields(properties, n, |tiles|, |data|);
    var s := TilesetBody(properties, q, tiles)[2..] + rest;
    assert s == h[2..] + t1;
    assert s[..2] == h[2..4] && s[8..][..2] == h[10..12];
    assert s[14 + 5 * n..] == s[14..][5 * n..];
  }

  lemma HeadFields(properties: nat, n: byte, count: nat, size: nat)
    ensures var h := TilesetHead(properties, n, count, size);
            h[2..4] == U16(CBT_TILESET) && h[8] == n && h[10..12] == U16(count)
  {
    hide U16, U32;
  }

  // ---- Whole messages ----

  function AfterFrame(p: Parsed, f: Frame): Parsed
  {
    AfterTiles(p.(visited := p.visited + [WBT_FRAME_BEGIN, WBT_REGION, WBT_EXTENSION, WBT_FRAME_END],
        rects := Wrapped(f.rects)),
               f.quants, f.tiles)
  }

  lemma BlockSizes(f: Frame)
    requires ValidFrame(f)
    ensures 9 <= |RegionBody(f.rects)| < 0x1_0000_0000 - 6 && |FrameBeginBody(f.index)| == 8
    ensures 16 < |TilesetBody(f.properties, f.quants, f.tiles)| < 0x1_0000_0000 - 6
  {
    hide TilesBytes, QuantBytes, RectBytes;
  }

  /** Main result: a composed frame is read back block by block, with the same rectangles, quantization values, tile
      positions and component bytes as far as the 16-bit counts reach, whatever follows it. */
  lemma FrameRoundTrip(p: Parsed, f: Frame, rest: seq<byte>)
    requires ValidFrame(f)
    ensures ProcessMessage(p, FrameBytes(f) + rest) == ProcessMessage(AfterFrame(p, f), rest)
  {
    hide Block, RegionBody, TilesetBody, FrameBeginBody, TilesBytes, AllExpected, ProcessRegion, ProcessTileset,
        ProcessMessage, ValidTile, Wrapped;
    BlockSizes(f);
    var a, b, c, d := FrameBeginBody(f.index), RegionBody(f.rects), TilesetBody(f.properties, f.quants, f.tiles),
        FrameEndBody();
    var s3 := Block(WBT_FRAME_END, d) + rest;
    var s2 := Block(WBT_EXTENSION, c) + s3;
    var s1 := Block(WBT_REGION, b) + s2;
    assert FrameBytes(f) + rest == Block(WBT_FRAME_BEGIN, a) + s1;
    ReadBlock(p, WBT_FRAME_BEGIN, a, s1);
    var p1 := p.(visited := p.visited + [WBT_FRAME_BEGIN]);
    ReadBlock(p1, WBT_REGION, b, s2);
    assert (b + s2)[2..] == b[2..] + s2;
    RegionBack(p1.(visited := p1.visited + [WBT_REGION]), f.rects, s2);
    var p2 := p1.(visited := p1.visited + [WBT_REGION], rects := Wrapped(f.rects));
    ReadBlock(p2, WBT_EXTENSION, c, s3);
    assert (c + s3)[2..] == c[2..] + s3;
    var q3 := p2.(visited := p2.visited + [WBT_EXTENSION]);
    TilesetBack(q3, f.properties, f.quants, f.tiles, s3);
    var p3 := AfterTiles(q3, f.quants, f.tiles);
    ReadBlock(p3, WBT_FRAME_END, d, rest);
    assert p3.visited + [WBT_FRAME_END] == p.visited + [WBT_FRAME_BEGIN, WBT_REGION, WBT_EXTENSION, WBT_FRAME_END];
  }

  function AfterHeader(p: Parsed, h: Header): Parsed
  {
    p.(visited := p.visited + [WBT_SYNC, WBT_CONTEXT, WBT_CODEC_VERSIONS, WBT_CHANNELS], version := WF_VERSION,
        codecId := 1,
       codecVersion := 0, width := h.width, height := h.height, properties := ContextProperties(h.flags, h.entropy),
       flags := h.flags, entropy := h.entropy)
  }

  lemma HeaderRoundTrip(p: Parsed, h: Header, rest: seq<byte>)
    requires ValidHeader(h)
    ensures ProcessMessage(p, HeaderBytes(h) + rest) == ProcessMessage(AfterHeader(p, h), rest)
  {
    hide Block, SyncBody, CodecVersionsBody, ChannelsBody, ContextBody, ContextProperties, ProcessMessage, ProcessSync,
        ProcessContext,
         ProcessCodecVersions, ProcessChannels;
    HeaderSizes(h);
    var a, b, c, d := SyncBody(), ContextBody(ContextProperties(h.flags, h.entropy)), CodecVersionsBody(),
        ChannelsBody(h.width, h.height);
    var s3 := Block(WBT_CHANNELS, d) + rest;
    var s2 := Block(WBT_CODEC_VERSIONS, c) + s3;
    var s1 := Block(WBT_CONTEXT, b) + s2;
    assert HeaderBytes(h) + rest == Block(WBT_SYNC, a) + s1;
    ReadBlock(p, WBT_SYNC, a, s1);
    var q1 := p.(visited := p.visited + [WBT_SYNC]);
    SyncBack(q1, s1);
    var p1 := q1.(version := WF_VERSION);
    ReadBlock(p1, WBT_CONTEXT, b, s2);
    assert (b + s2)[2..] == b[2..] + s2;
    var q2 := p1.(visited := p1.visited + [WBT_CONTEXT]);
    ContextBack(q2, h.flags, h.entropy, s2);
    var p2 := q2.(properties := ContextProperties(h.flags, h.entropy), flags := h.flags, entropy := h.entropy);
    ReadBlock(p2, WBT_CODEC_VERSIONS, c, s3);
    var q3 := p2.(visited := p2.visited + [WBT_CODEC_VERSIONS]);
    CodecVersionsBack(q3, s3);
    var p3 := q3.(codecId := 1, codecVersion := 0);
    ReadBlock(p3, WBT_CHANNELS, d, rest);
    var q4 := p3.(visited := p3.visited + [WBT_CHANNELS]);
    ChannelsBack(q4, h.width, h.height, rest);
    assert q4.visited == p.visited + [WBT_SYNC, WBT_CONTEXT, WBT_CODEC_VERSIONS, WBT_CHANNELS];
  }

  lemma HeaderSizes(h: Header)
    ensures |SyncBody()| == 6 && |CodecVersionsBody()| == 4 && |ChannelsBody(h.width, h.height)| == 6
    ensures |ContextBody(ContextProperties(h.flags, h.entropy))| == 7
  {
    hide U16, U32;
  }

  /** The first message, with the header in front. */
  lemma MessageRoundTrip(p: Parsed, h: Header, f: Frame)
    requires ValidHeader(h) && ValidFrame(f)
    ensures ProcessMessage(p, HeaderBytes(h) + FrameBytes(f)) == AfterFrame(AfterHeader(p, h), f)
  {
    hide HeaderBytes, FrameBytes, AfterHeader, AfterFrame, ValidTile, TilesBytes;
    HeaderRoundTrip(p, h, FrameBytes(f));
    FrameRoundTrip(AfterHeader(p, h), f, []);
    assert FrameBytes(f) + [] == FrameBytes(f);
    NothingLeft(AfterFrame(AfterHeader(p, h), f));
  }

  lemma NothingLeft(p: Parsed)
    ensures ProcessMessage(p, []) == p
  {
  }

  /** A frame read on its own gives all its rectangles exactly when their number fits the 16-bit count, and all its
      tiles exactly when theirs does. */
  lemma AllReadIff(p: Parsed, f: Frame)
    requires ValidFrame(f)
    ensures var m := ProcessMessage(p, FrameBytes(f));
            && (m.rects == f.rects <==> |f.rects| < 65536)
                && (m.tiles == AllExpected(f.tiles, f.quants) <==> |f.tiles| < 65536)
  {
    hide FrameBytes, ProcessMessage, ValidTile, TilesBytes, Expected;
    FrameRoundTrip(p, f, []);
    assert FrameBytes(f) + [] == FrameBytes(f);
    NothingLeft(AfterFrame(p, f));
    AllExpectedLength(f.tiles, f.quants);
    AllExpectedLength(Wrapped(f.tiles), f.quants);
    if |f.tiles| < 65536 { assert Wrapped(f.tiles) == f.tiles; }
  }

  lemma {:induction false} AllExpectedLength(tiles: seq<Tile>, q: Quants)
    ensures |AllExpected(tiles, q)| == |tiles|
    ensures forall k :: 0 <= k < |tiles| ==> AllExpected(tiles, q)[k] == Expected(tiles[k], q)
    decreases |tiles|
  {
    hide Expected;
    if tiles != [] { AllExpectedLength(tiles[1..], q); }
  }
}
