/** Client and server joining channels over two queues of messages (libfreerdp-core/connection.c). */
module JoinHandshake {
  import opened Words
  import opened Connection

  /** The server's flags; joining is its state MCS_CHANNEL_JOIN. */
  datatype Server = Server(userId: nat, userJoined: bool, globalJoined: bool, channels: seq<Channel>, joining: bool)

  function Mark(channels: seq<Channel>, id: nat): (r: seq<Channel>)
    ensures |r| == |channels|
  {
    seq(|channels|, i requires 0 <= i < |channels| => if channels[i].id
        == id then channels[i].(joined := true) else channels[i])
  }

  /** A join request: the channel is marked, and the state changes once everything has joined. */
  function Accept(s: Server, id: nat): Server
  {
    var user := s.userJoined || id == s.userId;
    var global := s.globalJoined || (id != s.userId && id == GLOBAL_CHANNEL);
    var channels := Mark(s.channels, id);
    var all := forall i :: 0 <= i < |channels| ==> channels[i].joined;
    s.(userJoined := user, globalJoined := global, channels := channels, joining := s.joining
        || (user && global && all))
  }

  class RdpServer {
    var userId: nat
    var userJoined: bool
    var globalJoined: bool
    var channels: seq<Channel>
    var joining: bool
    var confirms: seq<nat>

    ghost function View(): Server
      reads this
    {
      Server(userId, userJoined, globalJoined, channels, joining)
    }

    /** One pass over the channels marks the one that was asked for and looks for one that is missing. */
    method AcceptChannelJoinRequest(channelId: nat)
      modifies this
      ensures View() == Accept(old(View()), channelId) && confirms == old(confirms) + [channelId]
    {
      confirms := confirms + [channelId];
      if channelId == userId {
        userJoined := true;
      } else if channelId == GLOBAL_CHANNEL {
        globalJoined := true;
      }
      var allJoined := MarkChannels(channelId);
      if userJoined && globalJoined && allJoined { joining := true; }
    }

    method MarkChannels(channelId: nat) returns (allJoined: bool)
      modifies this`channels
      ensures channels == Mark(old(channels), channelId)
      ensures allJoined <==> forall k :: 0 <= k < |channels| ==> channels[k].joined
    {
      hide Mark;
      ghost var before := channels;
      MarkAt(before, channelId);
      allJoined := true;
      var i := 0;
      while i < |channels|
        invariant 0 <= i <= |channels| == |before|
        invariant forall k :: 0 <= k < i ==> channels[k] == Mark(before, channelId)[k]
        invariant forall k :: i <= k < |before| ==> channels[k] == before[k]
        invariant allJoined <==> forall k :: 0 <= k < i ==> channels[k].joined
      {
        if channels[i].id == channelId { channels := channels[i := channels[i].(joined := true)]; }
        if !channels[i].joined { allJoined := false; }
        i := i + 1;
      }
    }
  }

  lemma MarkAt(channels: seq<Channel>, id: nat)
    ensures forall i :: 0 <= i < |channels| ==>
              Mark(channels, id)[i] == if channels[i].id == id then channels[i].(joined := true) else channels[i]
  {
  }

  // ---- The two parties and the messages between them ----

  datatype World = World(client: Client, server: Server, toServer: seq<nat>, toClient: seq<Packet>)

  datatype Party = ClientSide | ServerSide

  predicate Enabled(w: World, p: Party)
  {
    match p
    case ClientSide => w.toClient != []
    case ServerSide => w.toServer != []
  }

  function Do(w: World, p: Party): World
    requires Enabled(w, p)
  {
    match p
    case ClientSide =>
      var c := Receive(w.client, w.toClient[0], true).1;
      var sent := if |c.requests| >= |w.client.requests| then c.requests[|w.client.requests|..] else [];
      World(c, w.server, w.toServer + sent, w.toClient[1..])
    case ServerSide =>
      World(w.client, Accept(w.server, w.toServer[0]), w.toServer[1..], w.toClient + [JoinConfirm(w.toServer[0])])
  }

  /** What is to be requested, in order. */
  function Wanted(u: nat, ids: seq<nat>): (e: seq<nat>)
    ensures |e| == |ids| + 2
  {
    [u, GLOBAL_CHANNEL] + ids
  }

  predicate Distinct(s: seq<nat>) { forall i, j :: 0 <= i < j < |s| ==> s[i] != s[j] }

  ghost predicate Start(w: World, u: nat, ids: seq<nat>)
  {
    && Distinct(Wanted(u, ids))
    && w.client.phase == AttachUser && w.client.requests == [] && !w.client.userJoined && !w.client.globalJoined
    && w.server.userId == u && !w.server.userJoined && !w.server.globalJoined && !w.server.joining
    && w.toServer == [] && w.toClient == [AttachConfirm(u)]
    && |w.client.channels| == |w.server.channels| == |ids|
    && forall i :: 0 <= i < |ids| ==> w.client.channels[i] == w.server.channels[i] == Channel(ids[i], false)
  }

  /** The first k wanted channels are marked. */
  predicate Marked(user: bool, global: bool, channels: seq<Channel>, ids: seq<nat>, k: nat)
  {
    && (user <==> k >= 1) && (global <==> k >= 2) && |channels| == |ids|
    && forall i :: 0 <= i < |ids| ==> channels[i] == Channel(ids[i], k >= i + 3)
  }

  function Confirms(s: seq<nat>): (r: seq<Packet>)
    ensures |r| == |s|
  {
    seq(|s|, i requires 0 <= i < |s| => JoinConfirm(s[i]))
  }

  /** a requests have been answered by the server and b confirms have reached the client, which always has one
      request more under way until everything is asked for. */
  ghost predicate Inv(w: World, u: nat, ids: seq<nat>, a: nat, b: nat)
  {
    var e := Wanted(u, ids);
    var k := Min(b + 1, |e|);
    && Distinct(e) && b <= a <= k
    && w.client.requests == e[..k] && w.toServer == e[a..k] && w.toClient == Confirms(e[b..a])
    && w.client.userId == u && w.server.userId == u
    && w.client.phase == (if b == |e| then Licensing else ChannelJoin)
    && Marked(w.client.userJoined, w.client.globalJoined, w.client.channels, ids, b)
    && Marked(w.server.userJoined, w.server.globalJoined, w.server.channels, ids, a)
    && (w.server.joining <==> a == |e|)
  }

  // ---- What every step keeps ----

  lemma WantedAt(u: nat, ids: seq<nat>, k: nat)
    requires k < |ids| + 2
    ensures var e := Wanted(u, ids);
            |e| == |ids| + 2 && e[k] == if k == 0 then u else if k == 1 then GLOBAL_CHANNEL else ids[k - 2]
  {
  }

  /** Marking wanted channel k on top of the first k marks the first k + 1. */
  lemma MarkNext(channels: seq<Channel>, u: nat, ids: seq<nat>, k: nat, user: bool, global: bool)
    requires Distinct(Wanted(u, ids)) && k < |ids| + 2 && Marked(user, global, channels, ids, k)
    ensures var id := Wanted(u, ids)[k];
            Marked(user || id == u, global || (id != u && id == GLOBAL_CHANNEL), Mark(channels, id), ids, k + 1)
  {
    var e := Wanted(u, ids);
    WantedAt(u, ids, k);
    forall i | 0 <= i < |ids| ensures ids[i] == e[k] <==> i + 2 == k {
      WantedAt(u, ids, i + 2);
    }
    assert e[0] == u && e[1] == GLOBAL_CHANNEL;
  }

  lemma ServerStep(w: World, u: nat, ids: seq<nat>, a: nat, b: nat)
    requires Inv(w, u, ids, a, b) && w.toServer != []
    ensures Inv(Do(w, ServerSide), u, ids, a + 1, b)
  {
    hide Distinct, Marked, Mark, Receive, Wanted;
    var e := Wanted(u, ids);
    WantedAt(u, ids, a);
    var k := Min(b + 1, |e|);
    assert e[a..k][0] == e[a] && e[a..k][1..] == e[a + 1..k];
    assert e[b..a] + [e[a]] == e[b..a + 1];
    assert Confirms(e[b..a]) + [JoinConfirm(e[a])] == Confirms(e[b..a + 1]);
    MarkNext(w.server.channels, u, ids, a, w.server.userJoined, w.server.globalJoined);
    AllMarked(Accept(w.server, e[a]), ids, a + 1);
  }

  lemma AllMarked(s: Server, ids: seq<nat>, k: nat)
    requires Marked(s.userJoined, s.globalJoined, s.channels, ids, k) && k <= |ids| + 2
    ensures (s.userJoined && s.globalJoined && forall i :: 0 <= i < |s.channels| ==> s.channels[i].joined) <==>
        k == |ids| + 2
  {
    if k < |ids| + 2 && k >= 2 { assert !s.channels[k - 2].joined; }
  }

  lemma FirstUnjoinedIs(channels: seq<Channel>, i: nat)
    requires i <= |channels| && (forall k :: 0 <= k < i ==> channels[k].joined)
        && (i < |channels| ==> !channels[i].joined)
    ensures FirstUnjoined(channels) == i
  {
    hide FirstUnjoined;
  }

  lemma JoinStepIs(c: Client, u: nat, ids: seq<nat>, b: nat)
    requires Distinct(Wanted(u, ids)) && b < |ids| + 2 && c.userId == u && c.phase == ChannelJoin
    requires Marked(c.userJoined, c.globalJoined, c.channels, ids, b)
    ensures var e := Wanted(u, ids);
            var (ok, d) := JoinStep(c, e[b], true);
            && ok && Marked(d.userJoined, d.globalJoined, d.channels, ids, b + 1) && d.userId == u
            && d.requests == c.requests + (if b + 1 < |e| then [e[b + 1]] else [])
            && d.phase == (if b + 1 == |e| then Licensing else ChannelJoin)
  {
    hide Distinct, FirstUnjoined, Wanted;
    WantedAt(u, ids, b);
    if b + 1 < |ids| + 2 { WantedAt(u, ids, b + 1); }
    if b >= 2 { FirstUnjoinedIs(c.channels, b - 2); }
    assert c.requests + [] == c.requests;
  }

  lemma ClientStep(w: World, u: nat, ids: seq<nat>, a: nat, b: nat)
    requires Inv(w, u, ids, a, b) && w.toClient != []
    ensures Inv(Do(w, ClientSide), u, ids, a, b + 1)
    ensures Receive(w.client, w.toClient[0], true).0
  {
    hide Distinct, Marked, JoinStep, Wanted, Accept;
    var e := Wanted(u, ids);
    WantedAt(u, ids, b);
    assert e[b..a][0] == e[b] && e[b..a][1..] == e[b + 1..a];
    assert Confirms(e[b..a])[0] == JoinConfirm(e[b]);
    assert Confirms(e[b..a])[1..] == Confirms(e[b + 1..a]);
    JoinStepIs(w.client, u, ids, b);
    var k, k' := Min(b + 1, |e|), Min(b + 2, |e|);
    var sent := if b + 1 < |e| then [e[b + 1]] else [];
    assert e[..k] + sent == e[..k'];
    assert (e[..k] + sent)[|e[..k]|..] == sent;
    assert e[a..k] + sent == e[a..k'];
  }

  // ---- Every run ----

  predicate CanRun(w: World, parties: seq<Party>)
    decreases |parties|
  {
    parties == [] || (Enabled(w, parties[0]) && CanRun(Do(w, parties[0]), parties[1..]))
  }

  function Run(w: World, parties: seq<Party>): World
    requires CanRun(w, parties)
    decreases |parties|
  {
    if parties == [] then w else Run(Do(w, parties[0]), parties[1..])
  }

  lemma {:induction false} RunKeeps(w: World, u: nat, ids: seq<nat>, a: nat, b: nat, parties: seq<Party>)
    returns (a': nat, b': nat)
    requires Inv(w, u, ids, a, b) && CanRun(w, parties)
    ensures Inv(Run(w, parties), u, ids, a', b')
    decreases |parties|
  {
    hide Inv, Do;
    if parties == [] {
      a', b' := a, b;
    } else if parties[0] == ClientSide {
      ClientStep(w, u, ids, a, b);
      a', b' := RunKeeps(Do(w, ClientSide), u, ids, a, b + 1, parties[1..]);
    } else {
      ServerStep(w, u, ids, a, b);
      a', b' := RunKeeps(Do(w, ServerSide), u, ids, a + 1, b, parties[1..]);
    }
  }

  /** The first step is the client's: the attach confirm makes it ask for the user channel. */
  lemma FirstStep(w: World, u: nat, ids: seq<nat>)
    requires Start(w, u, ids)
    ensures Inv(Do(w, ClientSide), u, ids, 0, 0)
  {
    hide Distinct, JoinStep, Accept, Wanted;
    var e := Wanted(u, ids);
    WantedAt(u, ids, 0);
    assert e[..1] == [u] && e[0..1] == [u] && e[0..0] == [];
    assert Confirms([]) == [];
    var c := Receive(w.client, AttachConfirm(u), true).1;
    assert c.requests == [u] && c.requests[0..] == [u];
  }

  /** Main result: in every run of the two parties the requests are a front part of user, global, channel 0 .. n - 1,
      each asked for once; when the client is licensing they are all of it and the server has marked every one and
      changed state; and until then some party can step. */
  lemma HandshakeSafe(w: World, u: nat, ids: seq<nat>, parties: seq<Party>)
    requires Start(w, u, ids) && CanRun(w, parties)
    ensures var v, e := Run(w, parties), Wanted(u, ids);
            && v.client.requests <= e && Distinct(e)
            && (v.client.phase == Licensing ==>
                  v.client.requests == e && v.server.joining && v.server.userJoined && v.server.globalJoined
                  && |v.server.channels| == |ids| && forall i :: 0 <= i < |ids| ==>
                      v.server.channels[i] == Channel(ids[i], true))
            && (v.client.phase != Licensing ==> Enabled(v, ClientSide) || Enabled(v, ServerSide))
  {
    hide Do, CanRun, Run;
    var v := Run(w, parties);
    if parties == [] {
      RunNothing(w);
    } else {
      RunFirst(w, parties);
      FirstStep(w, u, ids);
      var a, b := RunKeeps(Do(w, ClientSide), u, ids, 0, 0, parties[1..]);
      SafeState(v, u, ids, a, b);
    }
  }

  lemma RunNothing(w: World)
    ensures CanRun(w, []) && Run(w, []) == w
  {
  }

  lemma RunFirst(w: World, parties: seq<Party>)
    requires CanRun(w, parties) && parties != [] && w.toServer == []
    ensures Enabled(w, ClientSide) && CanRun(Do(w, ClientSide), parties[1..])
        && Run(w, parties) == Run(Do(w, ClientSide), parties[1..])
  {
    hide Do;
  }

  lemma SafeState(v: World, u: nat, ids: seq<nat>, a: nat, b: nat)
    requires Inv(v, u, ids, a, b)
    ensures var e := Wanted(u, ids);
            && v.client.requests <= e
            && (v.client.phase == Licensing ==>
                  v.client.requests == e && v.server.joining && v.server.userJoined && v.server.globalJoined
                  && |v.server.channels| == |ids| && forall i :: 0 <= i < |ids| ==>
                      v.server.channels[i] == Channel(ids[i], true))
            && (v.client.phase != Licensing ==> Enabled(v, ClientSide) || Enabled(v, ServerSide))
  {
    hide Distinct;
    var e := Wanted(u, ids);
    assert e[..|e|] == e;
    assert b < |e| && a == b ==> |e[a..Min(b + 1, |e|)]| == 1;
  }
}
