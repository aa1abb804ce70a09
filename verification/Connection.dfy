/** The client connection sequence (libfreerdp-core/connection.c, rdp.c, activation.c): every received packet is
    dispatched on the connection state. */
module Connection {
  import opened Words
  import opened Masks

  const GLOBAL_CHANNEL := 1003

  datatype Phase = Nego | AttachUser | ChannelJoin | Licensing | Capability | Finalization | Active

  datatype Channel = Channel(id: nat, joined: bool)

  datatype LicenseState = Pending | Aborted | Completed

  /** A share control PDU: the four finalization PDUs, other data, data that cannot be decompressed,
      a deactivation and an unknown type. */
  datatype Pdu = Synchronize | Cooperate | Granted | FontMap | OtherData | BadData | Deactivate | Unknown

  /** What a packet parses as; it is a failure where the state expects something else. */
  datatype Packet = ConnectResponse | AttachConfirm(userId: nat) | JoinConfirm(channelId: nat)
                  | License(result: LicenseState) | DemandActive | Pdus(pdus: seq<Pdu>) | ChannelData
                  | FastPathUpdates | Ultimatum | Malformed

  /** The fields of rdp, mcs and settings that the sequence updates, the join requests sent, and which finalization PDUs
      have been received since the connect. */
  datatype Client = Client(phase: Phase, userId: nat, userJoined: bool, globalJoined: bool, channels: seq<Channel>,
                           requests: seq<nat>, license: LicenseState, finalize: nat, disconnect: bool,
                               received: set<Pdu>)

  // ---- One packet ----

  /** The first channel that has not joined. */
  function FirstUnjoined(channels: seq<Channel>): (i: nat)
    ensures i <= |channels| && (i < |channels| ==> !channels[i].joined)
    ensures forall k :: 0 <= k < i ==> channels[k].joined
  {
    if channels == [] || !channels[0].joined then 0 else 1 + FirstUnjoined(channels[1..])
  }

  /** A join confirm: the outcome and the client after it. */
  function JoinStep(c: Client, id: nat, sendOk: bool): (r: (bool, Client))
  {
    if !c.userJoined then
      if id != c.userId then (false, c)
      else
        var d := c.(userJoined := true);
        if !sendOk then (false, d) else Joined(d.(requests := d.requests + [GLOBAL_CHANNEL]), true, sendOk)
    else if !c.globalJoined then
      if id != GLOBAL_CHANNEL then (false, c)
      else
        var d := c.(globalJoined := true);
        if |d.channels| == 0 then Joined(d, true, sendOk)
        else if !sendOk then (false, d)
        else Joined(d.(requests := d.requests + [d.channels[0].id]), false, sendOk)
    else
      var i := FirstUnjoined(c.channels);
      if i < |c.channels| && c.channels[i].id != id then (false, c)
      else
        var d := if i < |c.channels| then c.(channels := c.channels[i := c.channels[i].(joined := true)]) else c;
        if i + 1 < |d.channels| then
          if !sendOk then (false, d) else Joined(d.(requests := d.requests + [d.channels[i + 1].id]), false, sendOk)
        else Joined(d, true, sendOk)
  }

  /** Keys and client info are sent once everything has joined. */
  function Joined(c: Client, allJoined: bool, sendOk: bool): (bool, Client)
  {
    if c.userJoined && c.globalJoined && allJoined then
      if !sendOk then (false, c) else (true, c.(phase := Licensing))
    else (true, c)
  }

  function FinalizeBit(p: Pdu): nat
  {
    match p
    case Synchronize => 1
    case Cooperate => 2
    case Granted => 4
    case FontMap => 8
    case _ => 0
  }

  const FOUR_PDUS: set<Pdu> := {Synchronize, Cooperate, Granted, FontMap}

  predicate Finalizing(p: Pdu) { p == Synchronize || p == Cooperate || p == Granted || p == FontMap }

  function DataStep(c: Client, p: Pdu): Client
  {
    if Finalizing(p) then c.(finalize := Or(c.finalize, FinalizeBit(p)), received := c.received + {p}) else c
  }

  /** The PDUs of one packet in order, up to one that fails. */
  function PdusStep(c: Client, pdus: seq<Pdu>): (bool, Client)
    decreases |pdus|
  {
    if pdus == [] then (true, c)
    else if pdus[0] == BadData then (false, c)
    else if pdus[0] == Deactivate then PdusStep(c.(phase := Capability), pdus[1..])
    else PdusStep(DataStep(c, pdus[0]), pdus[1..])
  }

  function ReceivePdu(c: Client, p: Packet): (bool, Client)
  {
    match p
    case Pdus(pdus) => if c.disconnect then (false, c) else PdusStep(c, pdus)
    case ChannelData => (!c.disconnect, c)
    case FastPathUpdates => (true, c)
    case Ultimatum => (false, c.(disconnect := true))
    case _ => (false, c)
  }

  /** A data PDU out of sequence: the first PDU of the packet, if it is data. */
  function OutOfSequence(c: Client, p: Packet): (bool, Client)
  {
    match p
    case Pdus(pdus) =>
      if pdus == [] || pdus[0] == BadData || pdus[0] == Deactivate || pdus[0] == Unknown then (false, c)
      else (true, DataStep(c, pdus[0]))
    case _ => (false, c)
  }

  function LicenseStep(c: Client, p: Packet): (bool, Client)
  {
    var (ok, d) :=
      if p.License? then (true, c.(license := p.result))
      else if p == Ultimatum then (false, c.(disconnect := true))
      else OutOfSequence(c, p);
    if !ok || d.license == Aborted then (false, d)
    else (true, if d.license == Completed then d.(phase := Capability) else d)
  }

  function CapabilityStep(c: Client, p: Packet, sendOk: bool): (bool, Client)
  {
    if p == Ultimatum then (true, c.(disconnect := true))
    else if c.disconnect then (p == DemandActive || p.Pdus? || p == ChannelData, c)
    else if p == DemandActive then (if !sendOk then (false, c) else (true, c.(phase := Finalization)))
    else OutOfSequence(c, p)
  }

  /** Dispatch on the state. */
  function Receive(c: Client, p: Packet, sendOk: bool): (bool, Client)
  {
    match c.phase
    case Nego => if p == ConnectResponse && sendOk then (true, c.(phase := AttachUser)) else (false, c)
    case AttachUser =>
      if !p.AttachConfirm? then (false, c)
      else
        var d := c.(userId := p.userId);
        if !sendOk then (false, d) else (true, d.(requests := d.requests + [p.userId], phase := ChannelJoin))
    case ChannelJoin => if p.JoinConfirm? then JoinStep(c, p.channelId, sendOk) else (false, c)
    case Licensing => LicenseStep(c, p)
    case Capability => CapabilityStep(c, p, sendOk)
    case Finalization =>
      var (ok, d) := ReceivePdu(c, p);
      (ok, if ok && d.finalize == 0x0F then d.(phase := Active) else d)
    case Active => ReceivePdu(c, p)
  }

  // ---- Safety over every run ----

  ghost predicate Fresh(c: Client)
  {
    && c.phase == Nego && !c.userJoined && !c.globalJoined && c.finalize == 0 && c.received == {}
        && c.license == Pending
    && c.requests == [] && forall k :: 0 <= k < |c.channels| ==> !c.channels[k].joined
  }

  function Run(c: Client, packets: seq<(Packet, bool)>): Client
    decreases |packets|
  {
    if packets == [] then c else Run(Receive(c, packets[0].0, packets[0].1).1, packets[1..])
  }

  predicate AllJoined(c: Client)
  {
    c.userJoined && c.globalJoined && forall k :: 0 <= k < |c.channels| ==> c.channels[k].joined
  }

  predicate PastJoin(p: Phase) { p == Licensing || p == Capability || p == Finalization || p == Active }

  /** The bits are those of the finalization PDUs received. */
  predicate BitsMatch(c: Client)
  {
    && c.finalize < 16
    && (Bit(c.finalize, 0) <==> Synchronize in c.received) && (Bit(c.finalize, 1) <==> Cooperate in c.received)
    && (Bit(c.finalize, 2) <==> Granted in c.received) && (Bit(c.finalize, 3) <==> FontMap in c.received)
  }

  /** Channels join from the front. */
  predicate Prefix(c: Client)
  {
    forall i, k :: 0 <= i < k < |c.channels| && c.channels[k].joined ==> c.channels[i].joined
  }

  ghost predicate Inv(c: Client)
  {
    && (PastJoin(c.phase) ==> AllJoined(c))
    && (c.phase == Capability || c.phase == Finalization || c.phase == Active ==> c.license == Completed)
    && (c.phase == Active ==> c.finalize == 0x0F)
    && (c.globalJoined ==> c.userJoined) && Prefix(c) && BitsMatch(c)
  }

  lemma FreshInv(c: Client)
    requires Fresh(c)
    ensures Inv(c)
  {
    BitOfZero(0);
    BitOfZero(1);
    BitOfZero(2);
    BitOfZero(3);
  }

  lemma PdusKeep(c: Client, p: Pdu)
    requires BitsMatch(c)
    ensures BitsMatch(DataStep(c, p))
  {
    hide Bit, Or;
    if Finalizing(p) {
      var k := if p == Synchronize then 0 else if p == Cooperate then 1 else if p == Granted then 2 else 3;
      assert Pow2(0) == 1 && Pow2(1) == 2 && Pow2(2) == 4 && Pow2(3) == 8 && Pow2(4) == 16;
      assert FinalizeBit(p) == Pow2(k);
      OrPow2(c.finalize, k, 0);
      OrPow2(c.finalize, k, 1);
      OrPow2(c.finalize, k, 2);
      OrPow2(c.finalize, k, 3);
      OrBelow(c.finalize, Pow2(k), 4);
    }
  }

  lemma {:induction false} PdusStepKeeps(c: Client, pdus: seq<Pdu>)
    requires AllJoined(c) && c.license == Completed && BitsMatch(c) && Prefix(c) && PastJoin(c.phase)
        && c.phase != Licensing
    ensures var d := PdusStep(c, pdus).1;
            && AllJoined(d) && d.license == Completed && BitsMatch(d) && Prefix(d)
            && (d.phase == c.phase || d.phase == Capability)
            && (c.finalize == 0x0F ==> d.finalize == 0x0F)
    decreases |pdus|
  {
    hide BitsMatch, Or;
    if pdus != [] && pdus[0] != BadData {
      if pdus[0] == Deactivate {
        PdusStepKeeps(c.(phase := Capability), pdus[1..]) by { BitsMatchOther(c, c.(phase := Capability)); }
        BitsMatchOther(c, c.(phase := Capability));
      } else {
        PdusKeep(c, pdus[0]);
        FullStays(c, pdus[0]);
        PdusStepKeeps(DataStep(c, pdus[0]), pdus[1..]);
      }
    }
  }

  lemma BitsMatchOther(c: Client, d: Client)
    requires BitsMatch(c) && d.finalize == c.finalize && d.received == c.received
    ensures BitsMatch(d)
  {
  }

  lemma FullStays(c: Client, p: Pdu)
    ensures c.finalize == 0x0F ==> DataStep(c, p).finalize == 0x0F
  {
    FullOr(1);
    FullOr(2);
    FullOr(4);
    FullOr(8);
  }

  lemma FullOr(b: nat)
    requires b == 1 || b == 2 || b == 4 || b == 8
    ensures Or(15, b) == 15
  {
    assert Or(1, 0) == 1 && Or(1, 1) == 1;
    assert Or(3, b / 4) == 3;
    assert Or(7, b / 2) == 7;
  }

  lemma JoinKeeps(c: Client, id: nat, sendOk: bool)
    requires Inv(c) && c.phase == ChannelJoin
    ensures Inv(JoinStep(c, id, sendOk).1)
  {
    hide BitsMatch;
    BitsMatchOther(c, JoinStep(c, id, sendOk).1);
  }

  lemma PduKeeps(c: Client, p: Packet)
    requires Inv(c) && (c.phase == Finalization || c.phase == Active)
    ensures Inv(Receive(c, p, true).1)
  {
    hide BitsMatch, PdusStep;
    if p.Pdus? && !c.disconnect { PdusStepKeeps(c, p.pdus); }
    var d := ReceivePdu(c, p).1;
    if !p.Pdus? { BitsMatchOther(c, d); }
    BitsMatchOther(d, d.(phase := Active));
  }

  lemma OutOfSequenceKeeps(c: Client, p: Packet)
    requires BitsMatch(c)
    ensures var d := OutOfSequence(c, p).1;
            BitsMatch(d) && d == c.(finalize := d.finalize, received := d.received)
  {
    hide BitsMatch;
    if p.Pdus? && p.pdus != [] { PdusKeep(c, p.pdus[0]); }
  }

  lemma EarlyKeeps(c: Client, p: Packet, sendOk: bool)
    requires Inv(c) && (c.phase == Nego || c.phase == AttachUser || c.phase == Licensing || c.phase == Capability)
    ensures Inv(Receive(c, p, sendOk).1)
  {
    hide BitsMatch, OutOfSequence;
    OutOfSequenceKeeps(c, p);
    var d := Receive(c, p, sendOk).1;
    if d.finalize == c.finalize && d.received == c.received { BitsMatchOther(c, d); }
    BitsMatchOther(OutOfSequence(c, p).1, OutOfSequence(c, p).1.(phase := Capability));
  }

  lemma StepKeeps(c: Client, p: Packet, sendOk: bool)
    requires Inv(c)
    ensures Inv(Receive(c, p, sendOk).1)
  {
    hide Inv, JoinStep;
    if c.phase == ChannelJoin {
      if p.JoinConfirm? { JoinKeeps(c, p.channelId, sendOk); }
    } else if c.phase == Finalization || c.phase == Active {
      PduKeeps(c, p);
    } else {
      EarlyKeeps(c, p, sendOk);
    }
  }

  lemma {:induction false} RunKeeps(c: Client, packets: seq<(Packet, bool)>)
    requires Inv(c)
    ensures Inv(Run(c, packets))
    decreases |packets|
  {
    hide Inv, Receive;
    if packets != [] {
      StepKeeps(c, packets[0].0, packets[0].1);
      RunKeeps(Receive(c, packets[0].0, packets[0].1).1, packets[1..]);
    }
  }

  lemma {:induction false} RunSnoc(c: Client, packets: seq<(Packet, bool)>, p: (Packet, bool))
    ensures Run(c, packets + [p]) == Receive(Run(c, packets), p.0, p.1).1
    decreases |packets|
  {
    hide Receive;
    if packets != [] {
      assert (packets + [p])[1..] == packets[1..] + [p];
      RunSnoc(Receive(c, packets[0].0, packets[0].1).1, packets[1..], p);
    } else {
      assert packets + [p] == [p] && [p][1..] == [];
    }
  }

  /** Connected: every channel joined, licensed, and all four finalization PDUs received. */
  predicate Ready(c: Client) { AllJoined(c) && c.license == Completed && FOUR_PDUS <= c.received }

  lemma ActiveReady(c: Client)
    requires Inv(c) && c.phase == Active
    ensures Ready(c)
  {
    hide Bit;
    AllBits();
  }

  /** Main result: whatever the server sends and whichever sends fail, an active client has joined the user, the
      global and every virtual channel, has completed licensing and has received all four finalization PDUs since the
      connect. */
  lemma ActiveIsSafe(c: Client, packets: seq<(Packet, bool)>)
    requires Fresh(c) && Run(c, packets).phase == Active
    ensures var d := Run(c, packets);
            AllJoined(d) && d.license == Completed && FOUR_PDUS <= d.received
  {
    hide Run, Receive, Inv;
    FreshInv(c);
    RunKeeps(c, packets);
    ActiveReady(Run(c, packets));
  }

  lemma AllBits()
    ensures Bit(15, 0) && Bit(15, 1) && Bit(15, 2) && Bit(15, 3)
  {
    assert Shr(15, 0) == 15 && Shr(15, 1) == 7;
    assert Shr(15, 2) == Shr(7, 1) == 3;
    assert Shr(15, 3) == Shr(7, 2) == Shr(3, 1) == 1;
  }

  // ---- When finalization ends ----

  lemma FullIff(c: Client)
    requires BitsMatch(c)
    ensures c.finalize == 0x0F <==> FOUR_PDUS <= c.received
  {
    hide Bit;
    AllBits();
    if FOUR_PDUS <= c.received { OnlyFull(c.finalize); }
  }

  lemma OnlyFull(v: nat)
    requires v < 16 && Bit(v, 0) && Bit(v, 1) && Bit(v, 2) && Bit(v, 3)
    ensures v == 15
  {
    assert Shr(v, 0) == v && Shr(v, 1) == v / 2;
    assert Shr(v, 2) == Shr(v / 2, 1) == v / 2 / 2;
    assert Shr(v, 3) == Shr(v / 2, 2) == Shr(v / 2 / 2, 1) == v / 2 / 2 / 2;
  }

  /** A packet's PDUs are accepted unless one of them cannot be decompressed, and the finalizing ones among them are
      recorded. */
  lemma {:induction false} PdusOutcome(c: Client, pdus: seq<Pdu>)
    requires BitsMatch(c) && (c.phase == Finalization || c.phase == Capability)
    ensures var (ok, d) := PdusStep(c, pdus);
            && (ok <==> BadData !in pdus) && BitsMatch(d) && (d.phase == Finalization || d.phase == Capability)
            && (ok ==> forall x :: x in d.received <==> x in c.received || (x in pdus && Finalizing(x)))
    decreases |pdus|
  {
    hide BitsMatch, Or;
    if pdus != [] && pdus[0] != BadData {
      assert forall x :: x in pdus <==> x == pdus[0] || x in pdus[1..];
      if pdus[0] == Deactivate {
        BitsMatchOther(c, c.(phase := Capability));
        PdusOutcome(c.(phase := Capability), pdus[1..]);
      } else {
        PdusKeep(c, pdus[0]);
        PdusOutcome(DataStep(c, pdus[0]), pdus[1..]);
      }
    }
  }

  /** Accepted during finalization. Fast-path packets are not held back by a disconnect. */
  predicate Accepted(c: Client, p: Packet)
  {
    p == FastPathUpdates || (!c.disconnect && (p == ChannelData || (p.Pdus? && BadData !in p.pdus)))
  }

  /** Received before the packet or with it. */
  predicate Arrived(c: Client, p: Packet, x: Pdu) { x in c.received || (p.Pdus? && x in p.pdus) }

  /** Main result: finalization ends exactly when a packet is accepted and the four PDUs have arrived by then,
      whatever else the packet holds: a deactivation in it does not count. */
  lemma FinalizationIff(c: Client, p: Packet, sendOk: bool)
    requires c.phase == Finalization && BitsMatch(c)
    ensures Receive(c, p, sendOk).1.phase == Active <==> Accepted(c, p) && forall x :: x in FOUR_PDUS ==>
        Arrived(c, p, x)
  {
    hide BitsMatch, PdusStep;
    FullIff(c);
    if p.Pdus? {
      PdusOutcome(c, p.pdus);
      FullIff(PdusStep(c, p.pdus).1);
    }
  }

  /** The four PDUs count since the connect and not since the last demand active: after a deactivation every accepted
      packet, even one that deactivates again, makes a reactivated client active, and no other packet does. */
  lemma ReactivatedAtOnce(c: Client, p: Packet, sendOk: bool)
    requires Inv(c) && c.phase == Active && !c.disconnect
    ensures var d := Receive(c, Pdus([Deactivate]), true).1;
            var e := Receive(d, DemandActive, true).1;
            e.phase == Finalization && (Receive(e, p, sendOk).1.phase == Active <==> Accepted(c, p))
  {
    hide Or, Bit, DataStep, PdusStep;
    ActiveFull(c);
    FullIff(c);
    var e := c.(phase := Finalization);
    OnePdu(c, Deactivate);
    BitsMatchOther(c, e);
    FinalizationIff(e, p, sendOk);
  }

  lemma ActiveFull(c: Client)
    requires Inv(c) && c.phase == Active
    ensures c.finalize == 0x0F
  {
  }

  lemma OnePdu(c: Client, p: Pdu)
    requires p != BadData
    ensures PdusStep(c, [p]) == (true, if p == Deactivate then c.(phase := Capability) else DataStep(c, p))
  {
    hide DataStep;
    assert [p][1..] == [];
  }
}
