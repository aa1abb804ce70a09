/** The bytes of headers and blocks, in numbers ([MS-RDPRFX] section 2.2.2, [MS-RDPBCGR] sections 2.2.6.1.1 and
    2.2.9.1.2; libfreerdp-codec/rfx.c, libfreerdp-core/fastpath.c, libfreerdp-core/channel.c). */
module WireFormats {
  import opened Words
  import opened LittleEndian
  import R = RfxMessage
  import F = FastPath
  import V = VirtualChannel

  function Two(v: nat): (b: seq<byte>)
    ensures |b| == 2
  {
    [v % 256, v / 256 % 256]
  }

  function Four(v: nat): (b: seq<byte>) { [v % 256, v / 256 % 256, v / 65536 % 256, v / 16777216 % 256] }

  lemma TwoIs(v: nat)
    ensures U16(v) == Two(v)
  {
  }

  lemma FourIs(v: nat)
    ensures U32(v) == Four(v)
  {
  }

  /** Blocks start with their type and their whole length, least significant byte first. */
  lemma BlockIs(kind: nat, body: seq<byte>)
    ensures R.Block(kind, body) == Two(kind) + Four(6 + |body|) + body
  {
    hide U16, U32;
    TwoIs(kind);
    FourIs(6 + |body|);
  }

  lemma Constants()
    ensures Two(0xCCC0) == [0xC0, 0xCC] && Two(0xCCC1) == [0xC1, 0xCC] && Two(0xCCC2) == [0xC2, 0xCC]
        && Two(0xCCC3) == [0xC3, 0xCC]
    ensures Two(0xCCC4) == [0xC4, 0xCC] && Two(0xCCC5) == [0xC5, 0xCC] && Two(0xCCC6) == [0xC6, 0xCC]
        && Two(0xCCC7) == [0xC7, 0xCC]
    ensures Two(0xCAC1) == [0xC1, 0xCA] && Two(0xCAC2) == [0xC2, 0xCA] && Two(0xCAC3) == [0xC3, 0xCA]
    ensures Four(8) == [8, 0, 0, 0] && Four(10) == [10, 0, 0, 0] && Four(12) == [12, 0, 0, 0]
        && Four(13) == [13, 0, 0, 0]
    ensures Four(14) == [14, 0, 0, 0] && Four(0xCACCACCA) == [0xCA, 0xAC, 0xCC, 0xCA] && Two(0x100) == [0, 1]
        && Two(64) == [64, 0]
    ensures Two(0) == [0, 0] && Two(1) == [1, 0]
  {
  }

  /** The 47 bytes of the header: sync, context, codec versions, channels. */
  lemma HeaderIs(h: R.Header)
    ensures var p := h.flags + 8 + 32 + 512 * h.entropy + 8192;
            R.HeaderBytes(h)
            == [0xC0, 0xCC, 12, 0, 0, 0, 0xCA, 0xAC, 0xCC, 0xCA, 0, 1]
               + ([0xC3, 0xCC, 13, 0, 0, 0, 1, 0, 0, 64, 0] + Two(p)
                  + ([0xC1, 0xCC, 10, 0, 0, 0, 1, 1, 0, 1]
                     + ([0xC2, 0xCC, 12, 0, 0, 0, 1, 0] + Two(h.width) + Two(h.height))))
  {
    hide Two, Four, U16, U32;
    var p := h.flags + 8 + 32 + 512 * h.entropy + 8192;
    Constants();
    SyncIs();
    ContextIs(p);
    VersionsIs();
    ChannelsIs(h.width, h.height);
  }

  /** The properties of a context and of a tileset, from the lowest bits up: (last tileset,) flags, colour
      conversion, transform, entropy coder, quantization. */
  lemma PropertiesAre(flags: nat, entropy: nat)
    ensures R.ContextProperties(flags, entropy) == flags + 8 * (1 + 4 * (1 + 16 * (entropy + 16)))
    ensures R.TilesetProperties(flags, entropy) == 1 + 2 * (flags + 8 * (1 + 4 * (1 + 16 * (entropy + 16))))
  {
  }

  lemma SyncIs()
    ensures R.Block(R.WBT_SYNC, R.SyncBody()) == [0xC0, 0xCC, 12, 0, 0, 0, 0xCA, 0xAC, 0xCC, 0xCA, 0, 1]
  {
    hide Two, Four, U16, U32;
    Constants();
    BlockIs(R.WBT_SYNC, R.SyncBody());
    FourIs(0xCACCACCA);
    TwoIs(0x100);
  }

  lemma ContextIs(p: nat)
    ensures R.Block(R.WBT_CONTEXT, R.ContextBody(p)) == [0xC3, 0xCC, 13, 0, 0, 0, 1, 0, 0, 64, 0] + Two(p)
  {
    hide Two, Four, U16, U32;
    Constants();
    BlockIs(R.WBT_CONTEXT, R.ContextBody(p));
    TwoIs(64);
    TwoIs(p);
  }

  lemma VersionsIs()
    ensures R.Block(R.WBT_CODEC_VERSIONS, R.CodecVersionsBody()) == [0xC1, 0xCC, 10, 0, 0, 0, 1, 1, 0, 1]
  {
    hide Two, Four, U16, U32;
    Constants();
    BlockIs(R.WBT_CODEC_VERSIONS, R.CodecVersionsBody());
    TwoIs(0x100);
  }

  lemma ChannelsIs(width: nat, height: nat)
    ensures R.Block(R.WBT_CHANNELS, R.ChannelsBody(width, height)) == [0xC2, 0xCC, 12, 0, 0, 0, 1, 0] + Two(width)
        + Two(height)
  {
    hide Two, Four, U16, U32;
    Constants();
    BlockIs(R.WBT_CHANNELS, R.ChannelsBody(width, height));
    TwoIs(width);
    TwoIs(height);
  }

  /** A rectangle: x, y, width, height. */
  lemma RectIs(r: R.Rect)
    ensures R.OneRect(r) == Two(r.x) + Two(r.y) + Two(r.width) + Two(r.height)
  {
    hide Two, U16;
    TwoIs(r.x);
    TwoIs(r.y);
    TwoIs(r.width);
    TwoIs(r.height);
  }

  /** The four blocks of a frame. */
  lemma FrameIs(f: R.Frame)
    requires R.ValidQuants(f.quants)
    ensures var n, rects, tiles := |f.quants.values| / 10, R.RectBytes(f.rects), R.TilesBytes(f.tiles, f.quants);
            R.FrameBytes(f)
            == [0xC4, 0xCC, 14, 0, 0, 0, 1, 0] + Four(f.index) + [1, 0]
               + ([0xC6, 0xCC] + Four(15 + 8 * |f.rects|) + [1, 0, 1] + Two(|f.rects|) + rects + [0xC1, 0xCA, 1, 0]
                  + ([0xC7, 0xCC] + Four(22 + 5 * n + |tiles|) + [1, 0, 0xC2, 0xCA, 0, 0] + Two(f.properties) + [n, 64]
                     + Two(|f.tiles|) + Four(|tiles|) + R.QuantBytes(f.quants.values) + tiles
                     + [0xC5, 0xCC, 8, 0, 0, 0, 1, 0]))
  {
    hide Two, Four, U16, U32, R.RectBytes, R.TilesBytes, R.QuantBytes, R.ValidQuants, R.Block, R.FrameBeginBody,
        R.RegionBody,
      R.TilesetBody, R.FrameEndBody;
    BeginIs(f.index);
    RegionIs(f.rects);
    TilesetIs(f);
    EndIs();
  }

  lemma BeginIs(index: nat)
    ensures R.Block(R.WBT_FRAME_BEGIN, R.FrameBeginBody(index)) == [0xC4, 0xCC, 14, 0, 0, 0, 1, 0] + Four(index)
        + [1, 0]
  {
    hide Two, Four, U16, U32;
    Constants();
    BlockIs(R.WBT_FRAME_BEGIN, R.FrameBeginBody(index));
    FourIs(index);
    TwoIs(1);
  }

  lemma EndIs()
    ensures R.Block(R.WBT_FRAME_END, R.FrameEndBody()) == [0xC5, 0xCC, 8, 0, 0, 0, 1, 0]
  {
    hide Two, Four, U16, U32;
    Constants();
    BlockIs(R.WBT_FRAME_END, R.FrameEndBody());
  }

  lemma RegionIs(rects: seq<R.Rect>)
    ensures R.Block(R.WBT_REGION, R.RegionBody(rects))
         == [0xC6, 0xCC] + Four(15 + 8 * |rects|) + [1, 0, 1] + Two(|rects|) + R.RectBytes(rects) + [0xC1, 0xCA, 1, 0]
  {
    hide Two, Four, R.RectBytes, R.RegionBody, R.Block;
    Constants();
    var b, r := R.RegionBody(rects), R.RectBytes(rects);
    BlockIs(R.WBT_REGION, b);
    RegionBodyIs(rects);
    Joined([0xC6, 0xCC], Four(15 + 8 * |rects|), [1, 0, 1], Two(|rects|), r, [0xC1, 0xCA, 1, 0]);
  }

  lemma Joined(a: seq<byte>, b: seq<byte>, c: seq<byte>, d: seq<byte>, e: seq<byte>, f: seq<byte>)
    ensures a + b + (c + d + e + f) == a + b + c + d + e + f
  {
  }

  lemma RegionBodyIs(rects: seq<R.Rect>)
    ensures R.RegionBody(rects) == [1, 0, 1] + Two(|rects|) + R.RectBytes(rects) + [0xC1, 0xCA, 1, 0]
  {
    hide Two, U16, R.RectBytes;
    Constants();
    TwoIs(|rects|);
    TwoIs(0xCAC1);
    TwoIs(1);
    assert U16(0xCAC1) + U16(1) == [0xC1, 0xCA, 1, 0];
  }

  lemma TilesetIs(f: R.Frame)
    requires R.ValidQuants(f.quants)
    ensures var n, tiles := |f.quants.values| / 10, R.TilesBytes(f.tiles, f.quants);
            R.Block(R.WBT_EXTENSION, R.TilesetBody(f.properties, f.quants, f.tiles))
            == [0xC7, 0xCC] + Four(22 + 5 * n + |tiles|) + [1, 0, 0xC2, 0xCA, 0, 0] + Two(f.properties) + [n, 64]
               + Two(|f.tiles|) + Four(|tiles|) + R.QuantBytes(f.quants.values) + tiles
  {
    hide Two, Four, U16, U32, R.TilesBytes, R.QuantBytes;
    Constants();
    BlockIs(R.WBT_EXTENSION, R.TilesetBody(f.properties, f.quants, f.tiles));
    TwoIs(0xCAC2);
    TwoIs(0);
    TwoIs(f.properties);
    TwoIs(|f.tiles|);
    FourIs(|R.TilesBytes(f.tiles, f.quants)|);
  }

  /** A tile: its quantization indices, its place and the lengths and codes of its three components. */
  lemma TileIs(t: R.Tile, q: R.Quants)
    ensures R.Block(R.CBT_TILE, R.TileBody(t, q))
         == [0xC3, 0xCA] + Four(19 + |t.y| + |t.cb| + |t.cr|) + [q.y, q.cb, q.cr] + Two(t.xIdx) + Two(t.yIdx)
            + Two(|t.y|) + Two(|t.cb|) + Two(|t.cr|) + t.y + t.cb + t.cr
  {
    hide Two, Four, U16, U32;
    Constants();
    BlockIs(R.CBT_TILE, R.TileBody(t, q));
    TwoIs(t.xIdx);
    TwoIs(t.yIdx);
    TwoIs(|t.y|);
    TwoIs(|t.cb|);
    TwoIs(|t.cr|);
  }

  // ---- Fast-path output ----

  /** The update header of each fragment of an update that is not compressed. */
  lemma FragmentIs(code: byte, first: bool, last: bool)
    requires code < 16
    ensures F.UpdateHeader(code, F.Kind(first, last), 0)
         == code as int + (if first && last then 0 else if last then 16 else if first then 32 else 48)
  {
  }

  /** Which bits of an update header are the code, the fragmentation and the compression. */
  lemma HeaderBits(code: nat, frag: nat, comp: nat)
    requires code < 16 && frag < 4 && comp < 4
    ensures var h := code + 16 * frag + 64 * comp;
            F.HeaderCode(h) == code && F.HeaderFragmentation(h) == frag && F.HeaderCompression(h) == comp
  {
    F.Field16(code, frag + 4 * comp);
    F.Field4(frag, comp);
    F.Field64(code + 16 * frag, comp);
  }

  /** The output header and the two bytes of the length, which has 14 bits. */
  lemma PacketHeaderIs(secure: bool, length: nat)
    requires length <= 16383
    ensures F.PacketHeader(secure, length) == [if secure then 128 else 0, 128 + length / 256, length % 256]
    ensures F.MaxLength(0) == 16377 && F.MaxLength(8) == 16369 && F.MaxLength(12) == 16365
  {
  }

  // ---- Virtual channels ----

  /** The flags of a chunk: 3 for the only one, 1 for the first, 2 for the last, and 16 for the protocol. */
  lemma ChunkFlags(first: bool, last: bool, show: bool)
    ensures V.Flags(first, last, show)
         == (if first && last then 3 else if first then 1 else if last then 2 else 0) + (if show then 16 else 0)
  {
  }

  /** Total size, flags, data. */
  lemma ChunkIs(c: V.Chunk)
    ensures V.Wire(c) == Four(c.total) + Four(c.flags) + c.data
  {
    hide Four, U32;
    FourIs(c.total);
    FourIs(c.flags);
  }
}
