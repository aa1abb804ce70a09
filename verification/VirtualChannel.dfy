/** Static virtual channels: chunking by the sender and reassembly per channel
    (libfreerdp-core/channel.c, libfreerdp-channels/wtsvc.c). */
module VirtualChannel {
  import opened Words
  import opened LittleEndian

  const FLAG_FIRST := 1
  const FLAG_LAST := 2
  const FLAG_SHOW_PROTOCOL := 16

  // ---- Chunks on the wire ----

  datatype Chunk = Chunk(total: nat, flags: nat, data: seq<byte>)

  predicate Fits(c: Chunk) { c.total < 0x1_0000_0000 && c.flags < 256 }

  function Wire(c: Chunk): seq<byte>
  {
    U32(c.total) + U32(c.flags) + c.data
  }

  function Parse(b: seq<byte>): Chunk
    requires |b| >= 8
  {
    Chunk(ReadU32(b), ReadU32(b[4..]), b[8..])
  }

  lemma WireRoundTrip(c: Chunk)
    requires Fits(c)
    ensures |Wire(c)| >= 8 && Parse(Wire(c)) == c
  {
    hide U32, ReadU32;
    var b := Wire(c);
    assert b == U32(c.total) + (U32(c.flags) + c.data);
    assert b[4..] == U32(c.flags) + c.data && b[8..] == c.data;
    U32RoundTrip(c.total, U32(c.flags) + c.data);
    U32RoundTrip(c.flags, c.data);
  }

  predicate IsFirst(c: Chunk) { c.flags % 2 == 1 }

  predicate IsLast(c: Chunk) { (c.flags / 2) % 2 == 1 }

  function Flags(first: bool, last: bool, show: bool): nat
  {
    (if first then FLAG_FIRST else 0) + (if last then FLAG_LAST else 0) + (if show then FLAG_SHOW_PROTOCOL else 0)
  }

  /** The chunks of what is left of a message. */
  function Chunks(data: seq<byte>, total: nat, size: nat, first: bool, show: bool): seq<Chunk>
    requires size > 0
    decreases |data|
  {
    if data == [] then []
    else if |data| > size then
      [Chunk(total, Flags(first, false, show), data[..size])] + Chunks(data[size..], total, size, false, show)
    else [Chunk(total, Flags(first, true, show), data)]
  }

  // ---- Sender ----

  datatype ChannelDef = ChannelDef(id: nat, showProtocol: bool)

  datatype Packet = Packet(id: nat, bytes: seq<byte>)

  /** The packets of one message, each chunk behind its header. */
  function Packets(id: nat, chunks: seq<Chunk>): (r: seq<Packet>)
    ensures |r| == |chunks|
  {
    seq(|chunks|, i requires 0 <= i < |chunks| => Packet(id, Wire(chunks[i])))
  }

  lemma {:induction false} ChunksFit(data: seq<byte>, total: nat, size: nat, first: bool, show: bool)
    requires size > 0 && total < 0x1_0000_0000
    ensures forall i :: 0 <= i < |Chunks(data, total, size, first, show)| ==>
        Fits(Chunks(data, total, size, first, show)[i])
    decreases |data|
  {
    if |data| > size { ChunksFit(data[size..], total, size, false, show); }
  }

  class Transport {
    var sent: seq<Packet>

    /** False for an unknown channel; otherwise the chunks of the message go out in order. */
    method ChannelSend(channels: seq<ChannelDef>, id: nat, data: seq<byte>, chunkSize: nat) returns (ok: bool)
      requires chunkSize > 0 && |data| < 0x8000_0000
      modifies this
      ensures ok <==> exists i :: 0 <= i < |channels| && channels[i].id == id
      ensures !ok ==> sent == old(sent)
      ensures ok ==> exists i :: 0 <= i < |channels| && channels[i].id == id
                       && Sends(old(sent), sent, id, Chunks(data, |data|, chunkSize, true, channels[i].showProtocol))
    {
      hide Chunks, Sends;
      var i := 0;
      while i < |channels| && channels[i].id != id
        invariant 0 <= i <= |channels| && forall k :: 0 <= k < i ==> channels[k].id != id
      {
        i := i + 1;
      }
      if i == |channels| { return false; }
      SendChunks(id, data, chunkSize, channels[i].showProtocol);
      return true;
    }

    method SendChunks(id: nat, data: seq<byte>, chunkSize: nat, show: bool)
      requires chunkSize > 0 && |data| < 0x8000_0000
      modifies this
      ensures Sends(old(sent), sent, id, Chunks(data, |data|, chunkSize, true, show))
    {
      hide Wire, Chunks, Packets;
      ghost var all, done := Chunks(data, |data|, chunkSize, true, show), [];
      var first, pos := true, 0;
      assert data[0..] == data;
      NoPackets(id);
      while pos < |data|
        invariant 0 <= pos <= |data| && done + Chunks(data[pos..], |data|, chunkSize, first, show) == all
        invariant sent == old(sent) + Packets(id, done)
      {
        var left := |data| - pos;
        var size, last := chunkSize, false;
        if left <= chunkSize { size, last := left, true; }
        var chunk := Chunk(|data|, Flags(first, last, show), data[pos..pos + size]);
        NextChunk(data, pos, |data|, chunkSize, first, show);
        sent := sent + [Packet(id, Wire(chunk))];
        OneMorePacket(id, done, chunk);
        done := done + [chunk];
        pos := pos + size;
        first := false;
      }
      NoChunks(|data|, chunkSize, first, show);
      assert data[pos..] == [] && done + [] == done;
    }
  }

  lemma NoPackets(id: nat)
    ensures Packets(id, []) == []
  {
  }

  lemma OneMorePacket(id: nat, done: seq<Chunk>, c: Chunk)
    ensures Packets(id, done + [c]) == Packets(id, done) + [Packet(id, Wire(c))]
  {
    hide Wire;
  }

  lemma NoChunks(total: nat, size: nat, first: bool, show: bool)
    requires size > 0
    ensures Chunks([], total, size, first, show) == []
  {
  }

  ghost predicate Sends(before: seq<Packet>, after: seq<Packet>, id: nat, chunks: seq<Chunk>)
  {
    after == before + Packets(id, chunks)
  }

  lemma NextChunk(data: seq<byte>, pos: nat, total: nat, size: nat, first: bool, show: bool)
    requires size > 0 && pos < |data|
    ensures var left := |data| - pos;
            var n, last := if left > size then size else left, left <= size;
            Chunks(data[pos..], total, size, first, show)
            == [Chunk(total, Flags(first, last, show), data[pos..pos + n])]
                + Chunks(data[pos + n..], total, size, false, show)
  {
    var left := |data| - pos;
    if left > size {
      assert data[pos..][..size] == data[pos..pos + size] && data[pos..][size..] == data[pos + size..];
    } else {
      assert data[pos..] == data[pos..pos + left] && data[pos + left..] == [];
    }
  }

  // ---- Receiver ----

  /** A static channel: the reassembly stream, the queue of messages and how often the size check failed. */
  datatype Peer = Peer(receiveData: seq<byte>, queue: seq<seq<byte>>, errors: nat)

  function Process(p: Peer, c: Chunk): Peer
  {
    var data := (if IsFirst(c) then [] else p.receiveData) + c.data;
    if IsLast(c) then Peer([], p.queue + [data], p.errors + (if |data| != c.total then 1 else 0))
    else p.(receiveData := data)
  }

  class PeerChannel {
    var receiveData: seq<byte>
    var queue: seq<seq<byte>>
    var errors: nat

    ghost function View(): Peer
      reads this
    {
      Peer(receiveData, queue, errors)
    }

    method ProcessChannelData(c: Chunk)
      modifies this
      ensures View() == Process(old(View()), c)
    {
      if IsFirst(c) { receiveData := []; }
      receiveData := receiveData + c.data;
      if IsLast(c) {
        if |receiveData| != c.total { errors := errors + 1; }
        queue := queue + [receiveData];
        receiveData := [];
      }
    }
  }

  function ProcessAll(p: Peer, chunks: seq<Chunk>): Peer
    decreases |chunks|
  {
    if chunks == [] then p else ProcessAll(Process(p, chunks[0]), chunks[1..])
  }

  lemma FlagsRead(first: bool, last: bool, show: bool, total: nat, data: seq<byte>)
    ensures var c := Chunk(total, Flags(first, last, show), data); IsFirst(c) == first && IsLast(c) == last
  {
  }

  /** The rest of a message, however it is chunked, ends up in the queue behind what was received of it. */
  lemma {:induction false} MessageArrives(p: Peer, data: seq<byte>, total: nat, size: nat, first: bool, show: bool)
    requires size > 0 && data != [] && total == |data| + (if first then 0 else |p.receiveData|)
    ensures var q := ProcessAll(p, Chunks(data, total, size, first, show));
            q.queue == p.queue + [(if first then [] else p.receiveData) + data] && q.errors == p.errors
    decreases |data|
  {
    hide IsFirst, IsLast, Flags;
    var chunks := Chunks(data, total, size, first, show);
    var before := if first then [] else p.receiveData;
    if |data| > size {
      FlagsRead(first, false, show, total, data[..size]);
      var p1 := Process(p, chunks[0]);
      assert p1.receiveData == before + data[..size];
      assert chunks[1..] == Chunks(data[size..], total, size, false, show);
      MessageArrives(p1, data[size..], total, size, false, show);
      assert before + data[..size] + data[size..] == before + data;
    } else {
      FlagsRead(first, true, show, total, data);
      assert chunks[1..] == [];
    }
  }

  lemma {:induction false} ProcessConcat(p: Peer, a: seq<Chunk>, b: seq<Chunk>)
    ensures ProcessAll(p, a + b) == ProcessAll(ProcessAll(p, a), b)
    decreases |a|
  {
    if a == [] {
      assert a + b == b;
    } else {
      assert (a + b)[1..] == a[1..] + b;
      ProcessConcat(Process(p, a[0]), a[1..], b);
    }
  }

  /** The chunks of several messages one after the other. */
  function AllChunks(messages: seq<seq<byte>>, size: nat, show: bool): seq<Chunk>
    requires size > 0
  {
    if messages == [] then []
    else Chunks(messages[0], |messages[0]|, size, true, show) + AllChunks(messages[1..], size, show)
  }

  lemma {:induction false} MessagesArrive(p: Peer, messages: seq<seq<byte>>, size: nat, show: bool)
    requires size > 0 && forall i :: 0 <= i < |messages| ==> messages[i] != []
    ensures var q := ProcessAll(p, AllChunks(messages, size, show));
            q.queue == p.queue + messages && q.errors == p.errors
    decreases |messages|
  {
    hide Chunks;
    if messages != [] {
      var m := messages[0];
      var c := Chunks(m, |m|, size, true, show);
      MessageArrives(p, m, |m|, size, true, show);
      ProcessConcat(p, c, AllChunks(messages[1..], size, show));
      MessagesArrive(ProcessAll(p, c), messages[1..], size, show);
      assert [] + m == m;
      assert p.queue + [m] + messages[1..] == p.queue + messages;
    }
  }

  // ---- Channels side by side ----

  datatype Handle = NoHandle | Handle(peer: Peer)

  datatype Entry = Entry(id: nat, handle: Handle)

  function Find(table: seq<Entry>, id: nat): (i: nat)
    ensures i <= |table| && (i < |table| ==> table[i].id == id) && forall k :: 0 <= k < i ==> table[k].id != id
  {
    if table == [] || table[0].id == id then 0 else 1 + Find(table[1..], id)
  }

  /** A packet goes to the first channel with its id, if that channel is open. */
  function Deliver(table: seq<Entry>, p: Packet): (t: seq<Entry>)
    ensures |t| == |table|
  {
    var i := Find(table, p.id);
    if i == |table| || table[i].handle == NoHandle || |p.bytes| < 8 then table
    else table[i := table[i].(handle := Handle(Process(table[i].handle.peer, Parse(p.bytes))))]
  }

  function DeliverAll(table: seq<Entry>, trace: seq<Packet>): (t: seq<Entry>)
    ensures |t| == |table|
    decreases |trace|
  {
    if trace == [] then table else DeliverAll(Deliver(table, trace[0]), trace[1..])
  }

  /** The packets of one channel, in order. */
  function Only(trace: seq<Packet>, id: nat): seq<Packet>
  {
    if trace == [] then []
    else (if trace[0].id == id then [trace[0]] else []) + Only(trace[1..], id)
  }

  predicate DistinctIds(table: seq<Entry>) { forall i, j :: 0 <= i < j < |table| ==> table[i].id != table[j].id }

  lemma DeliverOne(table: seq<Entry>, p: Packet, k: nat)
    requires DistinctIds(table) && k < |table| && table[k].handle.Handle?
    ensures var t := Deliver(table, p);
            && DistinctIds(t) && t[k].id == table[k].id && t[k].handle.Handle?
            && t[k].handle.peer == if p.id == table[k].id
                && |p.bytes| >= 8 then Process(table[k].handle.peer, Parse(p.bytes))
                                   else table[k].handle.peer
  {
    hide Process, Parse;
  }

  /** What a channel receives depends on its own packets only. */
  lemma {:induction false} DeliverOnly(table: seq<Entry>, trace: seq<Packet>, k: nat, chunks: seq<Chunk>)
    requires DistinctIds(table) && k < |table| && table[k].handle.Handle?
    requires forall i :: 0 <= i < |chunks| ==> Fits(chunks[i])
    requires Only(trace, table[k].id) == Packets(table[k].id, chunks)
    ensures DeliverAll(table, trace)[k] == table[k].(handle := Handle(ProcessAll(table[k].handle.peer, chunks)))
    decreases |trace|
  {
    hide Process, Parse, Wire, Deliver, Fits;
    var id := table[k].id;
    if trace == [] {
      assert |Packets(id, chunks)| == 0;
    } else {
      var p := trace[0];
      DeliverOne(table, p, k);
      if p.id == id {
        assert Only(trace, id) == [p] + Only(trace[1..], id);
        assert Packets(id, chunks)[0] == p && Packets(id, chunks)[1..] == Packets(id, chunks[1..]);
        assert Only(trace, id)[1..] == Only(trace[1..], id);
        WireRoundTrip(chunks[0]);
        DeliverOnly(Deliver(table, p), trace[1..], k, chunks[1..]);
      } else {
        assert Only(trace, id) == Only(trace[1..], id);
        DeliverOnly(Deliver(table, p), trace[1..], k, chunks);
      }
    }
  }

  lemma {:induction false} AllChunksFit(messages: seq<seq<byte>>, size: nat, show: bool)
    requires size > 0 && forall i :: 0 <= i < |messages| ==> |messages[i]| < 0x8000_0000
    ensures forall i :: 0 <= i < |AllChunks(messages, size, show)| ==> Fits(AllChunks(messages, size, show)[i])
    decreases |messages|
  {
    hide Chunks, Fits;
    if messages != [] {
      ChunksFit(messages[0], |messages[0]|, size, true, show);
      AllChunksFit(messages[1..], size, show);
    }
  }

  /** Main result: for every chunk size and every interleaving of the packets of different channels, an open
      channel's queue grows by exactly the messages sent on it, in order, and the size check never fails. */
  lemma InterleavedArrive(table: seq<Entry>, trace: seq<Packet>, k: nat, messages: seq<seq<byte>>, size: nat,
      show: bool)
    requires DistinctIds(table) && k < |table| && table[k].handle.Handle? && size > 0
    requires forall i :: 0 <= i < |messages| ==> 0 < |messages[i]| < 0x8000_0000
    requires Only(trace, table[k].id) == Packets(table[k].id, AllChunks(messages, size, show))
    ensures var e := DeliverAll(table, trace)[k];
            && e.handle.Handle? && e.handle.peer.queue == table[k].handle.peer.queue + messages
            && e.handle.peer.errors == table[k].handle.peer.errors
  {
    hide ProcessAll, AllChunks, DeliverAll, Only, Packets;
    AllChunksFit(messages, size, show);
    DeliverOnly(table, trace, k, AllChunks(messages, size, show));
    MessagesArrive(table[k].handle.peer, messages, size, show);
  }

  // ---- The server's channels in place ----

  datatype Slot = Slot(id: nat, handle: PeerChannel?)

  class ServerPeer {
    const slots: seq<Slot>

    constructor (slots: seq<Slot>)
      ensures this.slots == slots
    {
      this.slots := slots;
    }

    /** Open channels have state of their own. */
    ghost predicate Valid()
    {
      forall i, j :: 0 <= i < j < |slots| && slots[i].handle != null ==> slots[i].handle != slots[j].handle
    }

    ghost function Open(): set<object> { set i | 0 <= i < |slots|
        && slots[i].handle != null :: slots[i].handle as object }

    ghost function EntryOf(i: nat): Entry
      requires i < |slots|
      reads slots[i].handle
    {
      Entry(slots[i].id, if slots[i].handle == null then NoHandle else Handle(slots[i].handle.View()))
    }

    ghost function Table(): (t: seq<Entry>)
      reads Open()
      ensures |t| == |slots| && forall i :: 0 <= i < |slots| ==> t[i] == EntryOf(i)
    {
      seq(|slots|, i requires 0 <= i < |slots| reads Open() => EntryOf(i))
    }

    method ReceiveChannelData(p: Packet) returns (ok: bool)
      requires Valid()
      modifies Open()
      ensures Table() == Deliver(old(Table()), p)
      ensures ok <==>
                |p.bytes| >= 8 && Find(old(Table()), p.id) < |slots| && slots[Find(old(Table()), p.id)].handle != null
    {
      hide Process, Parse;
      ghost var table := Table();
      var i := 0;
      while i < |slots| && slots[i].id != p.id
        invariant 0 <= i <= |slots| && forall k :: 0 <= k < i ==> slots[k].id != p.id
      {
        i := i + 1;
      }
      assert i == Find(table, p.id) by { FoundAt(table, p.id, i); }
      if i < |slots| && slots[i].handle != null && |p.bytes| >= 8 {
        slots[i].handle.ProcessChannelData(Parse(p.bytes));
        ok := true;
      } else {
        ok := false;
      }
    }

    /** Main result in place: packets of any channels in any order leave in an open channel's queue exactly the
        messages sent on it. */
    method ReceiveAll(trace: seq<Packet>, ghost k: nat, ghost messages: seq<seq<byte>>, ghost size: nat,
        ghost show: bool)
      requires Valid() && size > 0 && k < |slots| && slots[k].handle != null
      requires forall i, j :: 0 <= i < j < |slots| ==> slots[i].id != slots[j].id
      requires forall i :: 0 <= i < |messages| ==> 0 < |messages[i]| < 0x8000_0000
      requires Only(trace, slots[k].id) == Packets(slots[k].id, AllChunks(messages, size, show))
      modifies Open()
      ensures slots[k].handle.queue == old(slots[k].handle.queue) + messages
      ensures slots[k].handle.errors == old(slots[k].handle.errors)
    {
      hide Deliver, Only, AllChunks, Packets;
      ghost var table := Table();
      var n := 0;
      assert trace[0..] == trace;
      while n < |trace|
        invariant 0 <= n <= |trace| && DeliverAll(Table(), trace[n..]) == DeliverAll(table, trace)
      {
        assert trace[n..][1..] == trace[n + 1..];
        var _ := ReceiveChannelData(trace[n]);
        n := n + 1;
      }
      InterleavedArrive(table, trace, k, messages, size, show);
      assert Table()[k] == EntryOf(k);
    }
  }

  lemma FoundAt(table: seq<Entry>, id: nat, i: nat)
    requires i <= |table| && (i < |table| ==> table[i].id == id) && forall k :: 0 <= k < i ==> table[k].id != id
    ensures Find(table, id) == i
  {
  }
}
