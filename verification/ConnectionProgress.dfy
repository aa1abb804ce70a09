/** When the connection sequence moves on, and that an ordinary one gets to the end (libfreerdp-core/connection.c,
    rdp.c). */
module ConnectionProgress {
  import opened Words
  import opened Masks
  import opened Connection

  // ---- Every change of state ----

  lemma NegoIff(c: Client, p: Packet, sendOk: bool)
    requires c.phase == Nego
    ensures var n := Receive(c, p, sendOk).1.phase;
            (n == AttachUser || n == Nego) && (n == AttachUser <==> p == ConnectResponse && sendOk)
  {
  }

  lemma AttachUserIff(c: Client, p: Packet, sendOk: bool)
    requires c.phase == AttachUser
    ensures var d := Receive(c, p, sendOk).1;
            && (d.phase == ChannelJoin || d.phase == AttachUser)
                && (d.phase == ChannelJoin <==> p.AttachConfirm? && sendOk)
            && (d.phase == ChannelJoin ==> d.userId == p.userId && d.requests == c.requests + [p.userId])
  {
  }

  /** The confirm that completes the joins: the global channel's when there are no others, or that of the last
      channel. */
  predicate LastJoin(c: Client, id: nat)
  {
    && c.userJoined
    && if !c.globalJoined then c.channels == [] && id == 1003
       else
         && (forall k :: 0 <= k < |c.channels| - 1 ==> c.channels[k].joined)
         && (c.channels == [] || c.channels[|c.channels| - 1].joined || c.channels[|c.channels| - 1].id == id)
  }

  lemma ChannelJoinIff(c: Client, p: Packet, sendOk: bool)
    requires c.phase == ChannelJoin && Inv(c)
    ensures var n := Receive(c, p, sendOk).1.phase;
            (n == Licensing || n == ChannelJoin)
                && (n == Licensing <==> p.JoinConfirm? && sendOk && LastJoin(c, p.channelId))
  {
    hide BitsMatch;
    var i := FirstUnjoined(c.channels);
    if i + 1 < |c.channels| { assert !c.channels[i].joined; }
  }

  /** Data that is taken out of sequence. */
  predicate EarlyData(p: Packet)
  {
    p.Pdus? && p.pdus != [] && p.pdus[0] != BadData && p.pdus[0] != Deactivate && p.pdus[0] != Unknown
  }

  lemma LicensingIff(c: Client, p: Packet, sendOk: bool)
    requires c.phase == Licensing
    ensures var n := Receive(c, p, sendOk).1.phase;
            && (n == Capability || n == Licensing)
            && (n == Capability <==> p == License(Completed) || (c.license == Completed && EarlyData(p)))
  {
    hide Or;
  }

  lemma CapabilityIff(c: Client, p: Packet, sendOk: bool)
    requires c.phase == Capability
    ensures var n := Receive(c, p, sendOk).1.phase;
            (n == Finalization || n == Capability)
                && (n == Finalization <==> p == DemandActive && sendOk && !c.disconnect)
  {
    hide Or;
  }

  /** A deactivation is reached before data that cannot be decompressed. */
  predicate Deactivates(c: Client, p: Packet) { !c.disconnect && p.Pdus? && ReachesDeactivate(p.pdus) }

  predicate ReachesDeactivate(pdus: seq<Pdu>)
  {
    exists i :: 0 <= i < |pdus| && pdus[i] == Deactivate && BadData !in pdus[..i]
  }

  lemma ReachesNext(pdus: seq<Pdu>)
    requires pdus != []
    ensures ReachesDeactivate(pdus) <==> pdus[0] == Deactivate || (pdus[0] != BadData && ReachesDeactivate(pdus[1..]))
  {
    if ReachesDeactivate(pdus) && pdus[0] != Deactivate {
      var i :| 0 <= i < |pdus| && pdus[i] == Deactivate && BadData !in pdus[..i];
      assert pdus[0] == pdus[..i][0];
      assert pdus[1..][i - 1] == Deactivate && pdus[1..][..i - 1] == pdus[..i][1..];
    }
    if pdus[0] == Deactivate {
      assert pdus[..0] == [];
    } else if pdus[0] != BadData && ReachesDeactivate(pdus[1..]) {
      var j :| 0 <= j < |pdus[1..]| && pdus[1..][j] == Deactivate && BadData !in pdus[1..][..j];
      assert pdus[j + 1] == Deactivate && pdus[..j + 1] == [pdus[0]] + pdus[1..][..j];
    }
  }

  lemma {:induction false} PdusPhase(c: Client, pdus: seq<Pdu>)
    ensures PdusStep(c, pdus).1.phase == if ReachesDeactivate(pdus) then Capability else c.phase
    decreases |pdus|
  {
    hide ReachesDeactivate, Or;
    if pdus == [] {
      NothingReached();
    } else {
      ReachesNext(pdus);
      if pdus[0] == Deactivate {
        PdusPhase(c.(phase := Capability), pdus[1..]);
      } else if pdus[0] != BadData {
        PdusPhase(DataStep(c, pdus[0]), pdus[1..]);
      }
    }
  }

  lemma NothingReached()
    ensures !ReachesDeactivate([])
  {
  }

  /** Finalization: on to the end as FinalizationIff says, else back exactly on a deactivation. */
  lemma FinalizationBackIff(c: Client, p: Packet, sendOk: bool)
    requires c.phase == Finalization
    ensures var n := Receive(c, p, sendOk).1.phase;
            && (n == Active || n == Capability || n == Finalization)
            && (n == Capability <==> n != Active && Deactivates(c, p))
  {
    hide PdusStep, ReachesDeactivate;
    if p.Pdus? { PdusPhase(c, p.pdus); }
  }

  lemma ActiveIff(c: Client, p: Packet, sendOk: bool)
    requires c.phase == Active
    ensures var n := Receive(c, p, sendOk).1.phase;
            (n == Capability || n == Active) && (n == Capability <==> Deactivates(c, p))
  {
    hide PdusStep, ReachesDeactivate;
    if p.Pdus? { PdusPhase(c, p.pdus); }
  }

  /** The next state for every state and every packet. */
  predicate MovesOn(c: Client, p: Packet, sendOk: bool, n: Phase)
  {
    match c.phase
    case Nego => n == if p == ConnectResponse && sendOk then AttachUser else Nego
    case AttachUser => n == if p.AttachConfirm? && sendOk then ChannelJoin else AttachUser
    case ChannelJoin => n == if p.JoinConfirm? && sendOk && LastJoin(c, p.channelId) then Licensing else ChannelJoin
    case Licensing =>
      n == if p == License(Completed) || (c.license == Completed && EarlyData(p)) then Capability else Licensing
    case Capability => n == if p == DemandActive && sendOk && !c.disconnect then Finalization else Capability
    case Finalization =>
      n == if Accepted(c, p) && forall x :: x in FOUR_PDUS ==> Arrived(c, p, x) then Active
           else if Deactivates(c, p) then Capability else Finalization
    case Active => n == if Deactivates(c, p) then Capability else Active
  }

  /** Main result: the next state is exactly the one of this table, for every client that keeps the invariant. */
  lemma NextPhase(c: Client, p: Packet, sendOk: bool)
    requires Inv(c)
    ensures MovesOn(c, p, sendOk, Receive(c, p, sendOk).1.phase)
  {
    hide Receive, Inv, LastJoin, EarlyData, Deactivates, Accepted, Arrived;
    match c.phase {
      case Nego => NegoIff(c, p, sendOk);
      case AttachUser => AttachUserIff(c, p, sendOk);
      case ChannelJoin => ChannelJoinIff(c, p, sendOk);
      case Licensing => LicensingIff(c, p, sendOk);
      case Capability => CapabilityIff(c, p, sendOk);
      case Finalization =>
        InvBits(c);
        FinalizationIff(c, p, sendOk);
        FinalizationBackIff(c, p, sendOk);
      case Active => ActiveIff(c, p, sendOk);
    }
  }

  lemma InvBits(c: Client)
    requires Inv(c)
    ensures BitsMatch(c)
  {
  }

  // ---- Runs in which every packet is accepted ----

  predicate Accepts(c: Client, packets: seq<(Packet, bool)>)
    decreases |packets|
  {
    packets == []
    || (Receive(c, packets[0].0, packets[0].1).0 && Accepts(Receive(c, packets[0].0, packets[0].1).1, packets[1..]))
  }

  lemma {:induction false} RunAppend(c: Client, a: seq<(Packet, bool)>, b: seq<(Packet, bool)>)
    ensures Run(c, a + b) == Run(Run(c, a), b)
    ensures Accepts(c, a + b) <==> Accepts(c, a) && Accepts(Run(c, a), b)
    decreases |a|
  {
    hide Receive;
    if a == [] {
      assert a + b == b;
    } else {
      assert (a + b)[1..] == a[1..] + b;
      RunAppend(Receive(c, a[0].0, a[0].1).1, a[1..], b);
    }
  }

  lemma RunOne(c: Client, p: Packet)
    ensures Run(c, [(p, true)]) == Receive(c, p, true).1
    ensures Accepts(c, [(p, true)]) <==> Receive(c, p, true).0
  {
    hide Receive;
    assert [(p, true)][1..] == [];
  }

  /** d comes from c by these packets, all of them accepted. */
  ghost predicate Leads(c: Client, packets: seq<(Packet, bool)>, d: Client)
  {
    Accepts(c, packets) && Run(c, packets) == d
  }

  lemma LeadsOn(c: Client, a: seq<(Packet, bool)>, d: Client, b: seq<(Packet, bool)>, e: Client)
    requires Leads(c, a, d) && Leads(d, b, e)
    ensures Leads(c, a + b, e)
  {
    hide Run, Accepts;
    RunAppend(c, a, b);
  }

  lemma LeadsOne(c: Client, p: Packet)
    requires Receive(c, p, true).0
    ensures Leads(c, [(p, true)], Receive(c, p, true).1)
  {
    hide Receive, Run, Accepts;
    RunOne(c, p);
  }

  // ---- The joins ----

  function Ids(channels: seq<Channel>): (s: seq<nat>)
    ensures |s| == |channels|
  {
    seq(|channels|, i requires 0 <= i < |channels| => channels[i].id)
  }

  function Marked(channels: seq<Channel>, n: nat): (s: seq<Channel>)
    ensures |s| == |channels|
  {
    seq(|channels|, i requires 0 <= i < |channels| => if i < n then channels[i].(joined := true) else channels[i])
  }

  /** A fresh client whose user, global and first n channels have joined and which has asked for the next one. */
  function AfterJoins(c: Client, u: nat, n: nat): Client
    requires n <= |c.channels|
  {
    c.(phase := if n == |c.channels| then Licensing else ChannelJoin, userId := u, userJoined := true,
        globalJoined := true,
       channels := Marked(c.channels, n), requests := [u, 1003] + Ids(c.channels)[..Min(n + 1, |c.channels|)])
  }

  function FirstPackets(u: nat): seq<(Packet, bool)>
  {
    [(ConnectResponse, true)] + ([(AttachConfirm(u), true)] + ([(JoinConfirm(u), true)] + [(JoinConfirm(1003), true)]))
  }

  lemma FirstJoins(c: Client, u: nat)
    requires Fresh(c)
    ensures Leads(c, FirstPackets(u), AfterJoins(c, u, 0))
  {
    hide Leads;
    var c1 := c.(phase := AttachUser);
    var c2 := c1.(userId := u, requests := [u], phase := ChannelJoin);
    var c3 := c2.(userJoined := true, requests := [u, 1003]);
    LeadsOne(c, ConnectResponse);
    LeadsOne(c1, AttachConfirm(u));
    assert [] + [u] == [u];
    LeadsOne(c2, JoinConfirm(u));
    assert [u] + [1003] == [u, 1003];
    GlobalJoin(c, c3, u);
    LeadsOn(c2, [(JoinConfirm(u), true)], c3, [(JoinConfirm(1003), true)], AfterJoins(c, u, 0));
    LeadsOn(c1, [(AttachConfirm(u), true)], c2, [(JoinConfirm(u), true)] + [(JoinConfirm(1003), true)],
        AfterJoins(c, u, 0));
    LeadsOn(c, [(ConnectResponse, true)], c1,
        [(AttachConfirm(u), true)] + ([(JoinConfirm(u), true)] + [(JoinConfirm(1003), true)]),
            AfterJoins(c, u, 0));
  }

  lemma GlobalJoin(c: Client, c3: Client, u: nat)
    requires Fresh(c) && c3 == c.(phase := ChannelJoin, userId := u, userJoined := true, requests := [u, 1003])
    ensures Leads(c3, [(JoinConfirm(1003), true)], AfterJoins(c, u, 0))
  {
    hide Leads;
    LeadsOne(c3, JoinConfirm(1003));
    var d := Receive(c3, JoinConfirm(1003), true).1;
    assert Marked(c.channels, 0) == c.channels;
    if c.channels == [] {
      assert [u, 1003] + Ids(c.channels)[..0] == [u, 1003];
    } else {
      assert Ids(c.channels)[..1] == [c.channels[0].id];
    }
    assert d == AfterJoins(c, u, 0);
  }

  function JoinConfirms(ids: seq<nat>): (s: seq<(Packet, bool)>)
    ensures |s| == |ids|
  {
    seq(|ids|, i requires 0 <= i < |ids| => (JoinConfirm(ids[i]), true))
  }

  lemma OneJoin(c: Client, u: nat, n: nat)
    requires Fresh(c) && n < |c.channels|
    ensures Leads(AfterJoins(c, u, n), [(JoinConfirm(c.channels[n].id), true)], AfterJoins(c, u, n + 1))
  {
    hide Leads, FirstUnjoined;
    var a, p := AfterJoins(c, u, n), JoinConfirm(c.channels[n].id);
    FirstMarked(c, n);
    var d := Receive(a, p, true).1;
    assert a.channels[n := a.channels[n].(joined := true)] == Marked(c.channels, n + 1);
    if n + 1 < |c.channels| {
      assert Ids(c.channels)[..n + 2] == Ids(c.channels)[..n + 1] + [c.channels[n + 1].id];
      assert a.requests + [c.channels[n + 1].id] == [u, 1003] + Ids(c.channels)[..n + 2];
    }
    assert d == AfterJoins(c, u, n + 1);
    LeadsOne(a, p);
  }

  lemma FirstMarked(c: Client, n: nat)
    requires Fresh(c) && n < |c.channels|
    ensures FirstUnjoined(Marked(c.channels, n)) == n
  {
    var m := Marked(c.channels, n);
    var i := FirstUnjoined(m);
    assert !m[n].joined;
  }

  lemma {:induction false} AllJoins(c: Client, u: nat, n: nat)
    requires Fresh(c) && n <= |c.channels|
    ensures Leads(AfterJoins(c, u, 0), JoinConfirms(Ids(c.channels)[..n]), AfterJoins(c, u, n))
    decreases n
  {
    hide AfterJoins;
    var ids := Ids(c.channels);
    if n > 0 {
      AllJoins(c, u, n - 1);
      OneJoin(c, u, n - 1);
      LeadsOn(AfterJoins(c, u, 0), JoinConfirms(ids[..n - 1]), AfterJoins(c, u, n - 1),
          [(JoinConfirm(c.channels[n - 1].id), true)],
              AfterJoins(c, u, n));
      assert JoinConfirms(ids[..n]) == JoinConfirms(ids[..n - 1]) + [(JoinConfirm(c.channels[n - 1].id), true)];
    }
  }

  // ---- Licensing and capabilities ----

  function Pendings(n: nat): (s: seq<(Packet, bool)>)
    ensures |s| == n
  {
    seq(n, _ => (License(Pending), true))
  }

  lemma {:induction false} WaitForLicense(c: Client, n: nat)
    requires c.phase == Licensing && c.license == Pending
    ensures Leads(c, Pendings(n), c)
    decreases n
  {
    if n > 0 {
      WaitForLicense(c, n - 1);
      LeadsOne(c, License(Pending));
      assert c.(license := Pending) == c;
      LeadsOn(c, [(License(Pending), true)], c, Pendings(n - 1), c);
      assert Pendings(n) == [(License(Pending), true)] + Pendings(n - 1);
    }
  }

  lemma Licensed(c: Client)
    requires c.phase == Licensing && !c.disconnect
    ensures Leads(c, [(License(Completed), true)] + [(DemandActive, true)],
        c.(phase := Finalization, license := Completed))
  {
    hide Leads;
    var d := c.(license := Completed, phase := Capability);
    LeadsOne(c, License(Completed));
    LeadsOne(d, DemandActive);
    LeadsOn(c, [(License(Completed), true)], d, [(DemandActive, true)], d.(phase := Finalization));
  }

  // ---- Finalization ----

  /** Neither a deactivation nor data that cannot be decompressed. */
  predicate Clean(pdus: seq<Pdu>) { Deactivate !in pdus && BadData !in pdus }

  predicate AllClean(groups: seq<seq<Pdu>>) { forall i :: 0 <= i < |groups| ==> Clean(groups[i]) }

  function Groups(groups: seq<seq<Pdu>>): (s: seq<(Packet, bool)>)
    ensures |s| == |groups|
  {
    seq(|groups|, i requires 0 <= i < |groups| => (Pdus(groups[i]), true))
  }

  /** Received, or in one of the packets to come. */
  predicate Comes(c: Client, groups: seq<seq<Pdu>>, x: Pdu)
  {
    x in c.received || exists i :: 0 <= i < |groups| && x in groups[i]
  }

  lemma {:induction false} PdusOnly(c: Client, pdus: seq<Pdu>)
    ensures var d := PdusStep(c, pdus).1; d == c.(phase := d.phase, finalize := d.finalize, received := d.received)
    ensures PdusStep(c, pdus).0 <==> BadData !in pdus
    decreases |pdus|
  {
    hide Or;
    if pdus != [] && pdus[0] != BadData {
      assert BadData in pdus <==> BadData in pdus[1..];
      PdusOnly(if pdus[0] == Deactivate then c.(phase := Capability) else DataStep(c, pdus[0]), pdus[1..]);
    }
  }

  lemma CleanReaches(pdus: seq<Pdu>)
    requires Clean(pdus)
    ensures !ReachesDeactivate(pdus)
  {
  }

  lemma GroupsFront(groups: seq<seq<Pdu>>)
    requires groups != []
    ensures Groups(groups) == [(Pdus(groups[0]), true)] + Groups(groups[1..])
  {
  }

  /** The fields that finalization leaves alone. */
  predicate SameRest(c: Client, d: Client) { d == c.(phase := d.phase, finalize := d.finalize, received := d.received) }

  lemma {:induction false} StaysActive(c: Client, groups: seq<seq<Pdu>>)
    requires c.phase == Active && !c.disconnect && AllClean(groups)
    ensures var d := Run(c, Groups(groups)); Accepts(c, Groups(groups)) && d.phase == Active && SameRest(c, d)
    decreases |groups|
  {
    hide PdusStep, ReachesDeactivate, Clean;
    if groups != [] {
      var g := groups[0];
      var d := PdusStep(c, g).1;
      PdusOnly(c, g);
      PdusPhase(c, g);
      CleanReaches(g);
      assert BadData !in g by { CleanHolds(g); }
      GroupsFront(groups);
      assert Groups(groups)[1..] == Groups(groups[1..]);
      StaysActive(d, groups[1..]);
    }
  }

  lemma CleanHolds(g: seq<Pdu>)
    requires Clean(g)
    ensures BadData !in g && Deactivate !in g
  {
  }

  lemma {:induction false} Finalizes(c: Client, groups: seq<seq<Pdu>>)
    requires c.phase == Finalization && !c.disconnect && BitsMatch(c) && AllClean(groups) && groups != []
    requires forall x :: x in FOUR_PDUS ==> Comes(c, groups, x)
    ensures var d := Run(c, Groups(groups)); Accepts(c, Groups(groups)) && d.phase == Active && SameRest(c, d)
    decreases |groups|
  {
    hide PdusStep, ReachesDeactivate, Clean, BitsMatch, Comes, Run, Accepts;
    var g, rest := groups[0], groups[1..];
    var p := Pdus(g);
    var d := Receive(c, p, true).1;
    GroupsFront(groups);
    PdusOnly(c, g);
    CleanHolds(g);
    CleanReaches(g);
    FinalizationIff(c, p, true);
    FinalizationBackIff(c, p, true);
    PdusOutcome(c, g);
    RunOne(c, p);
    RunAppend(c, [(p, true)], Groups(rest));
    if d.phase == Active {
      StaysActive(d, rest);
    } else {
      StillComes(c, d, groups);
      Finalizes(d, rest);
    }
  }

  /** What has not arrived with the first packet comes with the others. */
  lemma StillComes(c: Client, d: Client, groups: seq<seq<Pdu>>)
    requires groups != [] && (forall x :: x in FOUR_PDUS ==> Comes(c, groups, x))
    requires forall x :: x in d.received <==> x in c.received || (x in groups[0] && Finalizing(x))
    requires !forall x :: x in FOUR_PDUS ==> Arrived(c, Pdus(groups[0]), x)
    ensures groups[1..] != [] && forall x :: x in FOUR_PDUS ==> Comes(d, groups[1..], x)
  {
    forall x | x in FOUR_PDUS ensures Comes(d, groups[1..], x) {
      assert Comes(c, groups, x);
      if x !in d.received {
        var i :| 0 <= i < |groups| && x in groups[i];
        assert groups[1..][i - 1] == groups[i];
      }
    }
    var y :| y in FOUR_PDUS && !Arrived(c, Pdus(groups[0]), y);
    assert Comes(d, groups[1..], y);
  }

  // ---- The whole sequence ----

  /** Responses, joins of the user, the global and every channel in order, any number of pending licenses and a
      completed one, the demand active, and packets of PDUs. */
  function Ordinary(u: nat, ids: seq<nat>, pending: nat, groups: seq<seq<Pdu>>): seq<(Packet, bool)>
  {
    FirstPackets(u) + (JoinConfirms(ids)
    + (Pendings(pending) + ([(License(Completed), true)] + [(DemandActive, true)] + Groups(groups))))
  }

  /** The four PDUs in any order and grouping, with any other data among them. */
  predicate FourCome(groups: seq<seq<Pdu>>)
  {
    AllClean(groups) && forall x :: x in FOUR_PDUS ==> exists i :: 0 <= i < |groups| && x in groups[i]
  }

  lemma JoinedAll(c: Client, u: nat)
    requires Fresh(c)
    ensures Leads(c, FirstPackets(u) + JoinConfirms(Ids(c.channels)), AfterJoins(c, u, |c.channels|))
  {
    hide AfterJoins, FirstPackets, Leads;
    FirstJoins(c, u);
    AllJoins(c, u, |c.channels|);
    assert Ids(c.channels)[..|c.channels|] == Ids(c.channels);
    LeadsOn(c, FirstPackets(u), AfterJoins(c, u, 0), JoinConfirms(Ids(c.channels)), AfterJoins(c, u, |c.channels|));
  }

  /** Main result: from every fresh client, whatever its channels, an ordinary sequence is accepted packet by packet
      and ends in an active client that is ready and has asked for the user, the global and every channel once, in
      order. */
  lemma OrdinaryConnects(c: Client, u: nat, pending: nat, groups: seq<seq<Pdu>>)
    requires Fresh(c) && !c.disconnect && FourCome(groups)
    ensures var packets := Ordinary(u, Ids(c.channels), pending, groups);
            var d := Run(c, packets);
            && Accepts(c, packets) && d.phase == Active && Ready(d)
            && d.requests == [u, 1003] + Ids(c.channels) && d.userId == u
  {
    hide FirstPackets, Receive, Leads, Run, Accepts, Fresh, Inv, Ready, BitsMatch, AllClean;
    var ids, n := Ids(c.channels), |c.channels|;
    var a := FirstPackets(u) + JoinConfirms(ids);
    var d1 := AfterJoins(c, u, n);
    FreshHas(c);
    JoinedAll(c, u);
    WaitForLicense(d1, pending);
    Licensed(d1);
    var d2 := d1.(phase := Finalization, license := Completed);
    var b := [(License(Completed), true)] + [(DemandActive, true)];
    LeadsOn(d1, Pendings(pending), d1, b, d2);
    LeadsOn(c, a, d1, Pendings(pending) + b, d2);
    EachComes(c, d2, groups);
    Finalizes(d2, groups);
    var all := Ordinary(u, ids, pending, groups);
    assert all == a + (Pendings(pending) + b) + Groups(groups);
    LeadsIs(c, a + (Pendings(pending) + b), d2);
    RunAppend(c, a + (Pendings(pending) + b), Groups(groups));
    FreshInv(c);
    RunKeeps(c, all);
    ActiveReady(Run(c, all));
    assert ids[..n] == ids;
  }

  lemma LeadsIs(c: Client, packets: seq<(Packet, bool)>, d: Client)
    requires Leads(c, packets, d)
    ensures Accepts(c, packets) && Run(c, packets) == d
  {
  }

  lemma FreshHas(c: Client)
    requires Fresh(c)
    ensures c.license == Pending && c.finalize == 0 && c.received == {}
  {
  }

  lemma EachComes(c: Client, d: Client, groups: seq<seq<Pdu>>)
    requires FourCome(groups) && Fresh(c) && d.finalize == c.finalize && d.received == c.received
    ensures groups != [] && BitsMatch(d) && AllClean(groups) && forall x :: x in FOUR_PDUS ==> Comes(d, groups, x)
  {
    hide BitsMatch;
    FreshInv(c);
    BitsMatchOther(c, d);
    forall x | x in FOUR_PDUS ensures Comes(d, groups, x) {
      var i :| 0 <= i < |groups| && x in groups[i];
    }
    assert Synchronize in FOUR_PDUS;
  }
}
