/** A composed message read by the parser (libfreerdp-codec/rfx.c). */
module RfxTransfer {
  import opened Words
  import opened Grid
  import opened LittleEndian
  import opened RfxMessage
  import opened RfxComposer
  import opened RfxParser

  function Across(extent: nat): nat { (extent + 63) / 64 }

  /** The bytes ComposeMessage appends, with the header on a first frame. */
  function MessageBytes(first: bool, h: Header, f: Frame): seq<byte>
    requires ValidQuants(f.quants)
  {
    (if first then HeaderBytes(h) else []) + FrameBytes(f)
  }

  function ImageFrame(index: nat, rects: seq<Rect>, properties: nat, q: Quants, width: nat, height: nat,
      codec: (nat, nat) -> Code): Frame
    requires width <= 65535 && height <= 65535
  {
    Frame(index, rects, properties, q, TileGrid(Across(width), Across(height), codec))
  }

  /** A decoded tile is tile (x, y) of the image: its pixel position, the bytes of its components, and the ten
      quantization values that each component's index picks. */
  predicate IsTile(d: Decoded, q: Quants, x: nat, y: nat, c: Code)
    requires ValidQuants(q)
  {
    && d.x == 64 * x && d.y == 64 * y && d.yData == c.y && d.cbData == c.cb && d.crData == c.cr
    && d.yQuants == q.values[10 * q.y as int..10 * q.y as int + 10]
        && d.cbQuants == q.values[10 * q.cb as int..10 * q.cb as int + 10]
    && d.crQuants == q.values[10 * q.cr as int..10 * q.cr as int + 10]
  }

  /** The 64 x 64 pixels that the decoder paints. */
  predicate Covers(d: Decoded, px: nat, py: nat) { d.x <= px < d.x + 64 && d.y <= py < d.y + 64 }

  ghost predicate OnlyCover(tiles: seq<Decoded>, k: nat, px: nat, py: nat)
  {
    && k < |tiles| && Covers(tiles[k], px, py)
    && forall j :: 0 <= j < |tiles| && Covers(tiles[j], px, py) ==> j == k
  }

  /** Everything that was composed is in the parsed message. */
  ghost predicate ImageRead(m: Parsed, rects: seq<Rect>, q: Quants, width: nat, height: nat, codec: (nat, nat) -> Code)
    requires ValidQuants(q)
  {
    && m.rects == rects && m.quants == q.values && TilesRead(m.tiles, q, Across(width), Across(height), codec)
    && forall px: nat, py: nat :: px < width && py < height ==> PixelRead(m.tiles, q, width, height, codec, px, py)
  }

  /** The tiles are those of the grid, row by row. */
  ghost predicate TilesRead(tiles: seq<Decoded>, q: Quants, nx: nat, ny: nat, codec: (nat, nat) -> Code)
    requires ValidQuants(q)
  {
    && |tiles| == Area(ny, nx)
    && forall x: nat, y: nat :: x < nx && y < ny ==> TileReadAt(tiles, q, nx, x, y, codec)
  }

  ghost predicate TileReadAt(tiles: seq<Decoded>, q: Quants, nx: nat, x: nat, y: nat, codec: (nat, nat) -> Code)
    requires ValidQuants(q)
  {
    Cell(y, x, nx) < |tiles| && IsTile(tiles[Cell(y, x, nx)], q, x, y, codec(x, y))
  }

  /** Exactly one tile paints the pixel, and it is the tile that the encoder cut the pixel from. */
  ghost predicate PixelRead(tiles: seq<Decoded>, q: Quants, width: nat, height: nat, codec: (nat, nat) -> Code,
      px: nat, py: nat)
    requires ValidQuants(q)
  {
    var x, y := px / 64, py / 64;
    var k := Cell(y, x, Across(width));
    OnlyCover(tiles, k, px, py) && IsTile(tiles[k], q, x, y, codec(x, y)) && Holds(x, y, width, height, px, py)
  }

  /** The component codes have 16-bit lengths and the tileset a 32-bit one. */
  ghost predicate Codable(q: Quants, width: nat, height: nat, codec: (nat, nat) -> Code)
    requires width <= 65535 && height <= 65535
  {
    && ValidQuants(q) && ShortCodes(Across(width), Across(height), codec)
    && 2000 + |TilesBytes(TileGrid(Across(width), Across(height), codec), q)| < 0x1_0000_0000
  }

  lemma FrameValid(index: nat, rects: seq<Rect>, properties: nat, q: Quants, width: nat, height: nat,
      codec: (nat, nat) -> Code)
    requires width <= 65535 && height <= 65535 && Codable(q, width, height, codec)
    requires 15 + 8 * |rects| < 0x1_0000_0000 && index < 0x1_0000_0000 && properties < 65536
    ensures ValidFrame(ImageFrame(index, rects, properties, q, width, height, codec))
  {
    hide TileGrid, TilesBytes, ValidQuants, ShortCodes, ValidTile;
    TilesValid(Across(width), Across(height), codec);
  }

  lemma ExpectedIsTile(x: nat, y: nat, codec: (nat, nat) -> Code, q: Quants)
    requires x < 1024 && y < 1024 && ValidQuants(q)
    ensures IsTile(Expected(TileAt(x, y, codec), q), q, x, y, codec(x, y))
  {
  }

  lemma GridRead(nx: nat, ny: nat, codec: (nat, nat) -> Code, q: Quants)
    requires nx <= 1024 && ny <= 1024 && ValidQuants(q)
    ensures TilesRead(AllExpected(TileGrid(nx, ny, codec), q), q, nx, ny, codec)
  {
    hide Cell, Area, TileGrid, TileAt, Expected, IsTile, ValidQuants;
    var g := TileGrid(nx, ny, codec);
    AllExpectedLength(g, q);
    forall x: nat, y: nat | x < nx && y < ny ensures TileReadAt(AllExpected(g, q), q, nx, x, y, codec) {
      TileGridAt(nx, ny, codec, x, y);
      ExpectedIsTile(x, y, codec, q);
    }
  }

  lemma PixelsRead(tiles: seq<Decoded>, q: Quants, width: nat, height: nat, codec: (nat, nat) -> Code, px: nat, py: nat)
    requires ValidQuants(q) && px < width && py < height && TilesRead(tiles, q, Across(width), Across(height), codec)
    ensures PixelRead(tiles, q, width, height, codec, px, py)
  {
    hide Cell, Area, ValidQuants;
    var nx, ny, x, y := Across(width), Across(height), px / 64, py / 64;
    AxisCovered(width, px, 0);
    AxisCovered(height, py, 0);
    AxisCovered(width, px, x);
    AxisCovered(height, py, y);
    assert TileReadAt(tiles, q, nx, x, y, codec);
    var k := Cell(y, x, nx);
    forall j | 0 <= j < |tiles| && Covers(tiles[j], px, py) ensures j == k {
      var y', x' := FindCell(ny, nx, j);
      assert TileReadAt(tiles, q, nx, x', y', codec);
    }
  }

  /** Main result: for every image, quantization table and rectangle list within the 16-bit counts, parsing what was
      composed recovers the rectangles, the quantization values and every tile, and every pixel is painted by exactly
      one tile. */
  lemma ImageBack(p: Parsed, first: bool, h: Header, index: nat, rects: seq<Rect>, properties: nat, q: Quants,
      width: nat, height: nat,
                  codec: (nat, nat) -> Code)
    requires 0 < width <= 65535 && 0 < height <= 65535 && Area(Across(height), Across(width)) < 65536 && |rects| < 65536
    requires ValidHeader(h) && index < 0x1_0000_0000 && properties < 65536 && Codable(q, width, height, codec)
    ensures var f := ImageFrame(index, rects, properties, q, width, height, codec);
            var m := ProcessMessage(p, MessageBytes(first, h, f));
            && ImageRead(m, rects, q, width, height, codec)
            && (first ==> m.width == h.width && m.height == h.height && m.flags == h.flags && m.entropy == h.entropy)
  {
    hide Area, HeaderBytes, FrameBytes, ProcessMessage, TileGrid, ValidTile, TilesBytes, AllExpected, TilesRead,
        PixelRead, ContextProperties;
    var f := ImageFrame(index, rects, properties, q, width, height, codec);
    AreaPositive(Across(height), Across(width));
    FrameValid(index, rects, properties, q, width, height, codec);
    var m := ProcessMessage(p, MessageBytes(first, h, f));
    if first { MessageRoundTrip(p, h, f); } else { FrameAlone(p, f); }
    assert Wrapped(rects) == rects && Wrapped(f.tiles) == f.tiles;
    GridRead(Across(width), Across(height), codec, q);
    forall px: nat, py: nat | px < width && py < height ensures PixelRead(m.tiles, q, width, height, codec, px, py) {
      PixelsRead(m.tiles, q, width, height, codec, px, py);
    }
  }

  lemma AreaPositive(rows: nat, cols: nat)
    requires rows > 0 && cols > 0
    ensures Area(rows, cols) > 0
  {
    AreaNext(rows - 1, cols);
  }

  lemma FrameAlone(p: Parsed, f: Frame)
    requires ValidFrame(f)
    ensures ProcessMessage(p, [] + FrameBytes(f)) == AfterFrame(p, f)
  {
    hide FrameBytes, AfterFrame, ValidTile, TilesBytes;
    FrameRoundTrip(p, f, []);
    assert [] + FrameBytes(f) == FrameBytes(f) == FrameBytes(f) + [];
    NothingLeft(AfterFrame(p, f));
  }

  /** The number of tiles is written with 16 bits: the grid is read back exactly when it has fewer than 65536 of
      them. */
  lemma GridReadIff(p: Parsed, index: nat, rects: seq<Rect>, properties: nat, q: Quants, width: nat, height: nat,
      codec: (nat, nat) -> Code)
    requires width <= 65535 && height <= 65535 && Codable(q, width, height, codec)
    requires 15 + 8 * |rects| < 0x1_0000_0000 && index < 0x1_0000_0000 && properties < 65536
    ensures var m := ProcessMessage(p, FrameBytes(ImageFrame(index, rects, properties, q, width, height, codec)));
            && |m.tiles| == Area(Across(height), Across(width)) % 65536
            && (TilesRead(m.tiles, q, Across(width), Across(height), codec) <==>
                Area(Across(height), Across(width)) < 65536)
  {
    hide Area, FrameBytes, ProcessMessage, TileGrid, TilesBytes, TileReadAt, ValidTile, Expected, ValidQuants,
        ShortCodes;
    var f := ImageFrame(index, rects, properties, q, width, height, codec);
    FrameValid(index, rects, properties, q, width, height, codec);
    FrameAlone(p, f);
    assert [] + FrameBytes(f) == FrameBytes(f);
    AllExpectedLength(Wrapped(f.tiles), q);
    if |f.tiles| < 65536 {
      assert Wrapped(f.tiles) == f.tiles;
      GridRead(Across(width), Across(height), codec, q);
    }
  }

  /** An image of 16384 x 16384 pixels has 65536 tiles, and none is read back. */
  lemma SquareImageLost(p: Parsed, index: nat, rects: seq<Rect>, properties: nat, q: Quants, codec: (nat, nat) -> Code)
    requires Codable(q, 16384, 16384, codec) && 15 + 8 * |rects| < 0x1_0000_0000 && index < 0x1_0000_0000
        && properties < 65536
    ensures ProcessMessage(p, FrameBytes(ImageFrame(index, rects, properties, q, 16384, 16384, codec))).tiles == []
  {
    hide Codable, FrameBytes, ProcessMessage, TileGrid, TilesRead, ImageFrame;
    assert Area(256, 256) == 65536;
    GridReadIff(p, index, rects, properties, q, 16384, 16384, codec);
  }

  // ---- The two objects together ----

  /** Composing with the encoder and parsing what it appended with the decoder. */
  method Transfer(enc: Encoder, s: Stream, dec: Decoder, rects: seq<Rect>, width: nat, height: nat,
      codec: (nat, nat) -> Code, junk: byte)
    requires s.pos == |s.data| && 0 < width <= 65535 && 0 < height <= 65535
        && Codable(enc.Table(), width, height, codec)
    requires Area(Across(height), Across(width)) < 65536 && |rects| < 65536
    requires ValidHeader(enc.header) && enc.frameIdx < 0x1_0000_0000 && enc.properties < 65536
    modifies enc, s, dec
    ensures ImageRead(dec.View(), rects, enc.Table(), width, height, codec)
    ensures enc.frameIdx < 0x1_0000_0000 && enc.properties < 65536 && s.pos == |s.data|
    ensures old(enc.frameIdx) == 0 && !old(enc.headerProcessed) ==>
              dec.width == enc.header.width && dec.height == enc.header.height && dec.flags == enc.header.flags
                  && dec.entropy == enc.header.entropy
  {
    hide ImageRead, HeaderBytes, FrameBytes, ProcessMessage, TileGrid, Area, TilesBytes, ShortCodes, ValidQuants;
    ghost var base, p, index, first := s.data, NewMessage(dec.View()), enc.frameIdx, enc.frameIdx == 0
        && !enc.headerProcessed;
    var start := s.pos;
    enc.ComposeMessage(s, rects, width, height, codec, junk);
    ghost var f := ImageFrame(index, rects, enc.properties, enc.Table(), width, height, codec);
    ImageBack(p, first, enc.header, index, rects, enc.properties, enc.Table(), width, height, codec);
    assert s.data == base + MessageBytes(first, enc.header, f);
    assert s.data[start..] == MessageBytes(first, enc.header, f);
    dec.Process(s.data[start..]);
  }
}
