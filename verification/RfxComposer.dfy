/** Composing a message in a stream, with lengths patched in after the fact (libfreerdp-codec/rfx.c). */
module RfxComposer {
  import opened Words
  import opened Grid
  import opened LittleEndian
  import opened RfxMessage

  /** data with b written at pos. */
  function Overwrite(data: seq<byte>, pos: nat, b: seq<byte>): seq<byte>
    requires pos <= |data|
  {
    data[..pos] + b + (if pos + |b| <= |data| then data[pos + |b|..] else [])
  }

  lemma Appended(data: seq<byte>, b: seq<byte>)
    ensures Overwrite(data, |data|, b) == data + b
  {
  }

  lemma Patched(a: seq<byte>, was: seq<byte>, b: seq<byte>, c: seq<byte>)
    requires |was| == |b|
    ensures Overwrite(a + was + c, |a|, b) == a + b + c
  {
    var d := a + was + c;
    assert d[..|a|] == a && d[|a| + |b|..] == c;
  }

  /** A stream: what has been written and the cursor. Skipped bytes keep whatever was in the buffer. */
  class Stream {
    var data: seq<byte>
    var pos: nat

    ghost predicate Valid()
      reads this
    {
      pos <= |data|
    }

    method Write(b: seq<byte>)
      requires Valid()
      modifies this
      ensures Valid() && data == Overwrite(old(data), old(pos), b) && pos == old(pos) + |b|
    {
      data := Overwrite(data, pos, b);
      pos := pos + |b|;
    }

    /** Writing at the end. */
    method Append(b: seq<byte>)
      requires pos == |data|
      modifies this
      ensures data == old(data) + b && pos == |data|
    {
      Appended(data, b);
      Write(b);
    }

    method Skip(n: nat, junk: byte)
      requires pos == |data|
      modifies this
      ensures data == old(data) + seq(n, _ => junk) && pos == |data|
    {
      Append(seq(n, _ => junk));
    }

    method SetPos(p: nat)
      requires p <= |data|
      modifies this`pos
      ensures pos == p
    {
      pos := p;
    }

    /** Going back to overwrite the bytes between a and c, and on to the end again. */
    method Patch(p: nat, b: seq<byte>, ghost a: seq<byte>, ghost was: seq<byte>, ghost c: seq<byte>)
      requires Valid() && data == a + was + c && |was| == |b| && p == |a|
      modifies this
      ensures data == a + b + c && pos == |data|
    {
      Patched(a, was, b, c);
      var end := |data|;
      SetPos(p);
      Write(b);
      SetPos(end);
    }
  }

  // ---- Tiles ----

  /** The component codes of a tile. */
  datatype Code = Code(y: seq<byte>, cb: seq<byte>, cr: seq<byte>)

  method ComposeTile(s: Stream, t: Tile, q: Quants, junk: byte)
    requires s.pos == |s.data|
    modifies s
    ensures s.data == old(s.data) + Block(CBT_TILE, TileBody(t, q)) && s.pos == |s.data|
  {
    hide U16, U32;
    ghost var base := s.data;
    var start := s.pos;
    var len := 19 + |t.y| + |t.cb| + |t.cr|;
    ghost var j4, j6 := seq(4, _ => junk), seq(6, _ => junk);
    ghost var head := [q.y, q.cb, q.cr] + U16(t.xIdx) + U16(t.yIdx);
    ghost var data := t.y + t.cb + t.cr;
    s.Append(U16(CBT_TILE));
    s.Skip(4, junk);
    s.Append([q.y, q.cb, q.cr]);
    s.Append(U16(t.xIdx));
    s.Append(U16(t.yIdx));
    s.Skip(6, junk);
    s.Append(t.y);
    s.Append(t.cb);
    s.Append(t.cr);
    assert s.data == base + U16(CBT_TILE) + j4 + (head + j6 + data);
    s.Patch(start + 2, U32(len), base + U16(CBT_TILE), j4, head + j6 + data);
    ghost var front := base + U16(CBT_TILE) + U32(len) + head;
    assert s.data == front + j6 + data;
    s.Patch(start + 13, U16(|t.y|) + U16(|t.cb|) + U16(|t.cr|), front, j6, data);
    TileLayout(base, t, q);
  }

  lemma TileLayout(base: seq<byte>, t: Tile, q: Quants)
    ensures base + U16(CBT_TILE) + U32(19 + |t.y| + |t.cb| + |t.cr|) + ([q.y, q.cb, q.cr] + U16(t.xIdx) + U16(t.yIdx))
            + (U16(|t.y|) + U16(|t.cb|) + U16(|t.cr|)) + (t.y + t.cb + t.cr)
         == base + Block(CBT_TILE, TileBody(t, q))
  {
    hide U16, U32;
    assert |TileBody(t, q)| == 13 + |t.y| + |t.cb| + |t.cr|;
    var a := [q.y, q.cb, q.cr] + U16(t.xIdx) + U16(t.yIdx);
    var b := U16(|t.y|) + U16(|t.cb|) + U16(|t.cr|);
    assert TileBody(t, q) == a + b + (t.y + t.cb + t.cr);
  }

  // ---- The tile grid ----

  function TileAt(x: nat, y: nat, codec: (nat, nat) -> Code): Tile
    requires x < 1024 && y < 1024
  {
    Tile(x, y, codec(x, y).y, codec(x, y).cb, codec(x, y).cr)
  }

  /** The first x tiles of row y. */
  function TileRow(x: nat, y: nat, codec: (nat, nat) -> Code): (r: seq<Tile>)
    requires x <= 1024 && y < 1024
    ensures |r| == x
  {
    seq(x, i requires 0 <= i < x => TileAt(i, y, codec))
  }

  /** The first y rows of nx tiles. */
  function TileGrid(nx: nat, y: nat, codec: (nat, nat) -> Code): (r: seq<Tile>)
    requires nx <= 1024 && y <= 1024
    ensures |r| == Area(y, nx)
  {
    if y == 0 then AreaZero(nx); []
    else AreaNext(y - 1, nx); TileGrid(nx, y - 1, codec) + TileRow(nx, y - 1, codec)
  }

  function TileSize(i: nat, n: nat, extent: nat): int { if i < n - 1 then 64 else extent - 64 * i }

  /** Along one axis every position belongs to exactly one tile, no tile is empty or larger than 64, and none reaches
      beyond. */
  lemma AxisCovered(extent: nat, p: nat, i: nat)
    requires p < extent && i < (extent + 63) / 64
    ensures 64 * i <= p < 64 * i + TileSize(i, (extent + 63) / 64, extent) <==> i == p / 64
    ensures p / 64 < (extent + 63) / 64
    ensures 1 <= TileSize(i, (extent + 63) / 64, extent) <= 64
    ensures 64 * i + TileSize(i, (extent + 63) / 64, extent) <= extent
  {
  }

  /** Every pixel of the image lies in exactly one tile of the grid. */
  lemma PixelCovered(width: nat, height: nat, x: nat, y: nat)
    requires x < width <= 65535 && y < height <= 65535
    ensures var nx, ny := (width + 63) / 64, (height + 63) / 64;
            exists i, j ::
              && 0 <= i < nx && 0 <= j < ny && Holds(i, j, width, height, x, y)
              && forall i', j' ::
                     0 <= i' < nx && 0 <= j' < ny && Holds(i', j', width, height, x, y) ==> i' == i && j' == j
  {
    var nx, ny := (width + 63) / 64, (height + 63) / 64;
    var i, j := x / 64, y / 64;
    AxisCovered(width, x, 0);
    AxisCovered(height, y, 0);
    AxisCovered(width, x, i);
    AxisCovered(height, y, j);
    assert Holds(i, j, width, height, x, y);
    forall i', j' | 0 <= i' < nx && 0 <= j' < ny && Holds(i', j', width, height, x, y) ensures i' == i && j' == j {
      AxisCovered(width, x, i');
      AxisCovered(height, y, j');
    }
  }

  ghost predicate InSomeTile(width: nat, height: nat, x: nat, y: nat)
  {
    exists i: nat, j: nat ::
      i < (width + 63) / 64 && j < (height + 63) / 64 && Holds(i, j, width, height, x, y)
  }

  /** The tiles fill the image and nothing else. */
  lemma TilesFill(width: nat, height: nat, x: nat, y: nat)
    requires width <= 65535 && height <= 65535
    ensures InSomeTile(width, height, x, y) <==> x < width && y < height
  {
    if x < width && y < height {
      PixelCovered(width, height, x, y);
    }
    if i: nat, j: nat :| i < (width + 63) / 64 && j < (height + 63) / 64 && Holds(i, j, width, height, x, y) {
      AxisCovered(width, width - 1, i);
      AxisCovered(height, height - 1, j);
    }
  }

  predicate Holds(i: nat, j: nat, width: nat, height: nat, x: nat, y: nat)
  {
    && 64 * i <= x < 64 * i + TileSize(i, (width + 63) / 64, width)
    && 64 * j <= y < 64 * j + TileSize(j, (height + 63) / 64, height)
  }

  /** Tile (x, y) stands at its row-major place. */
  lemma {:induction false} TileGridAt(nx: nat, ny: nat, codec: (nat, nat) -> Code, x: nat, y: nat)
    requires nx <= 1024 && ny <= 1024 && x < nx && y < ny
    ensures Cell(y, x, nx) < Area(ny, nx) && TileGrid(nx, ny, codec)[Cell(y, x, nx)] == TileAt(x, y, codec)
    decreases ny
  {
    hide Cell, Area;
    CellBound(ny, nx, y, x);
    CellInRow(y, x, nx);
    AreaNext(ny - 1, nx);
    if y < ny - 1 {
      TileGridAt(nx, ny - 1, codec, x, y);
    }
  }

  /** The component codes of the grid have 16-bit lengths. */
  ghost predicate ShortCodes(nx: nat, ny: nat, codec: (nat, nat) -> Code)
  {
    forall x: nat, y: nat :: x < nx && y < ny ==>
      |codec(x, y).y| < 65536 && |codec(x, y).cb| < 65536 && |codec(x, y).cr| < 65536
  }

  lemma {:induction false} TilesValid(nx: nat, ny: nat, codec: (nat, nat) -> Code)
    requires nx <= 1024 && ny <= 1024 && ShortCodes(nx, ny, codec)
    ensures forall k :: 0 <= k < |TileGrid(nx, ny, codec)| ==> ValidTile(TileGrid(nx, ny, codec)[k])
    decreases ny
  {
    hide Area;
    if ny > 0 { TilesValid(nx, ny - 1, codec); }
  }

  lemma {:induction false} TilesConcat(a: seq<Tile>, b: seq<Tile>, q: Quants)
    ensures TilesBytes(a + b, q) == TilesBytes(a, q) + TilesBytes(b, q)
    decreases |a|
  {
    hide Block, TileBody;
    if a == [] {
      assert a + b == b;
    } else {
      assert (a + b)[1..] == a[1..] + b;
      TilesConcat(a[1..], b, q);
    }
  }

  lemma OneTile(a: seq<Tile>, t: Tile, q: Quants)
    ensures TilesBytes(a + [t], q) == TilesBytes(a, q) + Block(CBT_TILE, TileBody(t, q))
  {
    hide Block, TileBody;
    TilesConcat(a, [t], q);
    assert [t][1..] == [];
    assert TilesBytes([t], q) == Block(CBT_TILE, TileBody(t, q)) + TilesBytes([], q);
  }

  method ComposeTileRow(s: Stream, nx: nat, y: nat, q: Quants, codec: (nat, nat) -> Code, junk: byte)
    requires s.pos == |s.data| && nx <= 1024 && y < 1024
    modifies s
    ensures s.data == old(s.data) + TilesBytes(TileRow(nx, y, codec), q) && s.pos == |s.data|
  {
    hide Block, TileBody, TilesBytes;
    NoTiles(q);
    var x := 0;
    while x < nx
      invariant 0 <= x <= nx && s.pos == |s.data| && s.data == old(s.data) + TilesBytes(TileRow(x, y, codec), q)
    {
      ComposeTile(s, TileAt(x, y, codec), q, junk);
      OneTile(TileRow(x, y, codec), TileAt(x, y, codec), q);
      assert TileRow(x + 1, y, codec) == TileRow(x, y, codec) + [TileAt(x, y, codec)];
      x := x + 1;
    }
  }

  lemma NoTiles(q: Quants)
    ensures TilesBytes([], q) == []
  {
  }

  method ComposeTiles(s: Stream, nx: nat, ny: nat, q: Quants, codec: (nat, nat) -> Code, junk: byte)
    requires s.pos == |s.data| && nx <= 1024 && ny <= 1024
    modifies s
    ensures s.data == old(s.data) + TilesBytes(TileGrid(nx, ny, codec), q) && s.pos == |s.data|
  {
    hide TilesBytes, TileRow;
    NoTiles(q);
    var y := 0;
    while y < ny
      invariant 0 <= y <= ny && s.pos == |s.data| && s.data == old(s.data) + TilesBytes(TileGrid(nx, y, codec), q)
    {
      ComposeTileRow(s, nx, y, q, codec, junk);
      TilesConcat(TileGrid(nx, y, codec), TileRow(nx, y, codec), q);
      y := y + 1;
    }
  }

  lemma {:induction false} QuantByteAt(q: seq<nat>, i: nat)
    requires (forall k :: 0 <= k < |q| ==> q[k] <= 15) && 2 * i + 1 < |q|
    ensures QuantBytes(q)[i] == q[2 * i] + 16 * q[2 * i + 1]
    decreases i
  {
    if i > 0 {
      QuantByteAt(q[2..], i - 1);
      assert q[2..][2 * (i - 1)] == q[2 * i] && q[2..][2 * (i - 1) + 1] == q[2 * i + 1];
      assert QuantBytes(q)[i] == QuantBytes(q[2..])[i - 1];
    }
  }

  method ComposeQuants(s: Stream, q: seq<nat>)
    requires s.pos == |s.data| && |q| % 10 == 0 && forall k :: 0 <= k < |q| ==> q[k] <= 15
    modifies s
    ensures s.data == old(s.data) + QuantBytes(q) && s.pos == |s.data|
  {
    hide QuantBytes;
    var i := 0;
    while i < |q| / 10 * 5
      invariant 0 <= i <= |q| / 10 * 5 == |QuantBytes(q)| && s.pos == |s.data|
          && s.data == old(s.data) + QuantBytes(q)[..i]
    {
      QuantByteAt(q, i);
      s.Append([q[2 * i] + 16 * q[2 * i + 1]]);
      i := i + 1;
    }
  }

  /** The tileset: block length and size of the tiles are known and written only at the end. */
  method ComposeTileset(s: Stream, properties: nat, q: Quants, nx: nat, ny: nat, codec: (nat, nat) -> Code, junk: byte)
    requires s.pos == |s.data| && nx <= 1024 && ny <= 1024 && ValidQuants(q)
    modifies s
    ensures s.data == old(s.data) + Block(WBT_EXTENSION, TilesetBody(properties, q, TileGrid(nx, ny, codec)))
        && s.pos == |s.data|
  {
    hide U16, U32, QuantBytes, TilesBytes, TileGrid, Area;
    ghost var base, j4, tiles := s.data, seq(4, _ => junk), TileGrid(nx, ny, codec);
    var start, numQuants, numTiles := s.pos, |q.values| / 10, Area(ny, nx);
    ghost var head := [1, 0] + U16(CBT_TILESET) + U16(0) + U16(properties) + [numQuants, 0x40] + U16(numTiles);
    s.Append(U16(WBT_EXTENSION));
    s.Skip(4, junk);
    ComposeTilesetHead(s, properties, numQuants, numTiles);
    s.Skip(4, junk);
    ComposeQuants(s, q.values);
    var dataStart := s.pos;
    ComposeTiles(s, nx, ny, q, codec, junk);
    var tilesDataSize := s.pos - dataStart;
    var size := 22 + numQuants * 5 + tilesDataSize;
    ghost var quants, data := QuantBytes(q.values), TilesBytes(tiles, q);
    assert s.data == base + U16(WBT_EXTENSION) + j4 + (head + j4 + (quants + data));
    s.Patch(start + 2, U32(size), base + U16(WBT_EXTENSION), j4, head + j4 + (quants + data));
    ghost var front := base + U16(WBT_EXTENSION) + U32(size) + head;
    assert s.data == front + j4 + (quants + data);
    s.Patch(start + 18, U32(tilesDataSize), front, j4, quants + data);
    TilesetLayout(base, properties, q, tiles, size);
  }

  method ComposeTilesetHead(s: Stream, properties: nat, numQuants: byte, numTiles: nat)
    requires s.pos == |s.data|
    modifies s
    ensures s.data == old(s.data)
        + ([1, 0] + U16(CBT_TILESET) + U16(0) + U16(properties) + [numQuants, 0x40] + U16(numTiles))
    ensures s.pos == |s.data|
  {
    hide U16;
    s.Append([1]);
    s.Append([0]);
    s.Append(U16(CBT_TILESET));
    s.Append(U16(0));
    s.Append(U16(properties));
    s.Append([numQuants]);
    s.Append([0x40]);
    s.Append(U16(numTiles));
    assert [1] + [0] == [1, 0] && [numQuants] + [0x40] == [numQuants, 0x40];
  }

  lemma TilesetLayout(base: seq<byte>, properties: nat, q: Quants, tiles: seq<Tile>, size: nat)
    requires ValidQuants(q) && size == 22 + |q.values| / 10 * 5 + |TilesBytes(tiles, q)|
    ensures base + U16(WBT_EXTENSION) + U32(size)
            + ([1, 0] + U16(CBT_TILESET) + U16(0) + U16(properties) + [|q.values| / 10, 0x40] + U16(|tiles|))
            + U32(|TilesBytes(tiles, q)|) + (QuantBytes(q.values) + TilesBytes(tiles, q))
         == base + Block(WBT_EXTENSION, TilesetBody(properties, q, tiles))
  {
    hide U16, U32, QuantBytes, TilesBytes;
  }

  // ---- The other blocks ----

  lemma {:induction false} RectsConcat(a: seq<Rect>, r: Rect)
    ensures RectBytes(a + [r]) == RectBytes(a) + OneRect(r)
    decreases |a|
  {
    hide OneRect;
    if a == [] {
      assert [r][1..] == [] && [] + [r] == [r];
      assert RectBytes([r]) == OneRect(r) + RectBytes([]);
    } else {
      assert (a + [r])[1..] == a[1..] + [r];
      RectsConcat(a[1..], r);
    }
  }

  method ComposeRegion(s: Stream, rects: seq<Rect>)
    requires s.pos == |s.data|
    modifies s
    ensures s.data == old(s.data) + Block(WBT_REGION, RegionBody(rects)) && s.pos == |s.data|
  {
    hide U16, U32, RectBytes;
    ghost var base := s.data;
    s.Append(U16(WBT_REGION));
    s.Append(U32(15 + 8 * |rects|));
    s.Append([1, 0, 1]);
    s.Append(U16(|rects|));
    ghost var front := s.data;
    NoRects();
    var i := 0;
    while i < |rects|
      invariant 0 <= i <= |rects| && s.pos == |s.data| && s.data == front + RectBytes(rects[..i])
    {
      ComposeRect(s, rects[i]);
      RectsConcat(rects[..i], rects[i]);
      assert rects[..i + 1] == rects[..i] + [rects[i]];
      i := i + 1;
    }
    assert rects[..i] == rects;
    s.Append(U16(CBT_REGION));
    s.Append(U16(1));
  }

  lemma NoRects()
    ensures RectBytes([]) == []
  {
  }

  method ComposeRect(s: Stream, r: Rect)
    requires s.pos == |s.data|
    modifies s
    ensures s.data == old(s.data) + OneRect(r) && s.pos == |s.data|
  {
    hide U16;
    s.Append(U16(r.x));
    s.Append(U16(r.y));
    s.Append(U16(r.width));
    s.Append(U16(r.height));
  }

  method ComposeFrameBegin(s: Stream, frame: nat)
    requires s.pos == |s.data|
    modifies s
    ensures s.data == old(s.data) + Block(WBT_FRAME_BEGIN, FrameBeginBody(frame)) && s.pos == |s.data|
  {
    hide U16, U32;
    s.Append(U16(WBT_FRAME_BEGIN));
    s.Append(U32(14));
    s.Append([1, 0]);
    s.Append(U32(frame));
    s.Append(U16(1));
  }

  method ComposeFrameEnd(s: Stream)
    requires s.pos == |s.data|
    modifies s
    ensures s.data == old(s.data) + Block(WBT_FRAME_END, FrameEndBody()) && s.pos == |s.data|
  {
    hide U16, U32;
    s.Append(U16(WBT_FRAME_END));
    s.Append(U32(8));
    s.Append([1, 0]);
  }

  method ComposeHeader(s: Stream, h: Header)
    requires s.pos == |s.data|
    modifies s
    ensures s.data == old(s.data) + HeaderBytes(h) && s.pos == |s.data|
  {
    hide U16, U32, ContextProperties;
    s.Append(U16(WBT_SYNC) + U32(12) + U32(WF_MAGIC) + U16(WF_VERSION));
    s.Append(U16(WBT_CONTEXT) + U32(13) + [1, 0, 0] + U16(64) + U16(ContextProperties(h.flags, h.entropy)));
    s.Append(U16(WBT_CODEC_VERSIONS) + U32(10) + [1, 1] + U16(WF_VERSION));
    s.Append(U16(WBT_CHANNELS) + U32(12) + [1, 0] + U16(h.width) + U16(h.height));
    HeaderLayout(old(s.data), h);
  }

  lemma HeaderLayout(base: seq<byte>, h: Header)
    ensures base + (U16(WBT_SYNC) + U32(12) + U32(WF_MAGIC) + U16(WF_VERSION))
            + (U16(WBT_CONTEXT) + U32(13) + [1, 0, 0] + U16(64) + U16(ContextProperties(h.flags, h.entropy)))
            + (U16(WBT_CODEC_VERSIONS) + U32(10) + [1, 1] + U16(WF_VERSION))
            + (U16(WBT_CHANNELS) + U32(12) + [1, 0] + U16(h.width) + U16(h.height))
         == base + HeaderBytes(h)
  {
    hide U16, U32, ContextProperties;
    assert Block(WBT_SYNC, SyncBody()) == U16(WBT_SYNC) + U32(12) + U32(WF_MAGIC) + U16(WF_VERSION);
    assert Block(WBT_CONTEXT, ContextBody(ContextProperties(h.flags, h.entropy)))
        == U16(WBT_CONTEXT) + U32(13) + [1, 0, 0] + U16(64) + U16(ContextProperties(h.flags, h.entropy));
    assert Block(WBT_CODEC_VERSIONS, CodecVersionsBody()) == U16(WBT_CODEC_VERSIONS) + U32(10) + [1, 1]
        + U16(WF_VERSION);
    assert Block(WBT_CHANNELS, ChannelsBody(h.width, h.height)) == U16(WBT_CHANNELS) + U32(12) + [1, 0]
        + U16(h.width) + U16(h.height);
  }

  // ---- The encoder context ----

  const DEFAULT_QUANTS: seq<nat> := [6, 6, 6, 6, 7, 7, 8, 8, 8, 9]

  class Encoder {
    const header: Header
    const quants: Quants
    var properties: nat
    var frameIdx: nat
    var headerProcessed: bool

    constructor (header: Header, quants: Quants)
      ensures this.header == header && this.quants == quants && frameIdx == 0 && !headerProcessed
    {
      this.header, this.quants := header, quants;
      properties, frameIdx, headerProcessed := 0, 0, false;
    }

    /** The default table stands in for an empty one. */
    function Table(): Quants { if quants.values == [] then Quants(DEFAULT_QUANTS, 0, 0, 0) else quants }

    /** Without a table of its own, an encoder uses the ten default values for all three components. */
    lemma TableIs()
      ensures quants.values == [] ==>
                ValidQuants(Table()) && Table() == Quants([6, 6, 6, 6, 7, 7, 8, 8, 8, 9], 0, 0, 0)
      ensures quants.values != [] ==> Table() == quants
    {
    }

    /** Main result: a message is the header, on the first frame only, and the blocks of the frame. */
    method ComposeMessage(s: Stream, rects: seq<Rect>, width: nat, height: nat, codec: (nat, nat) -> Code, junk: byte)
      requires s.pos == |s.data| && ValidQuants(Table()) && width <= 65535 && height <= 65535
      modifies this, s
      ensures var first := old(frameIdx) == 0 && !old(headerProcessed);
              var p := if first then TilesetProperties(header.flags, header.entropy) else old(properties);
              var f := Frame(old(frameIdx), rects, p, Table(), TileGrid((width + 63) / 64, (height + 63) / 64, codec));
              && s.data == old(s.data) + ((if first then HeaderBytes(header) else []) + FrameBytes(f))
                  && s.pos == |s.data|
              && properties == p && frameIdx == (old(frameIdx) + 1) % 0x1_0000_0000
                  && headerProcessed == (old(headerProcessed) || first)
    {
      hide HeaderBytes, Block, RegionBody, TilesetBody, FrameBeginBody, FrameEndBody, TileGrid, ValidQuants;
      if frameIdx == 0 && !headerProcessed {
        ComposeHeader(s, header);
        properties := TilesetProperties(header.flags, header.entropy);
        headerProcessed := true;
      }
      ComposeFrameBegin(s, frameIdx);
      frameIdx := (frameIdx + 1) % 0x1_0000_0000;
      ComposeRegion(s, rects);
      ComposeTileset(s, properties, Table(), (width + 63) / 64, (height + 63) / 64, codec, junk);
      ComposeFrameEnd(s);
    }
  }
}
