/** The client's state as it is updated in place (libfreerdp-core/connection.c, rdp.c, activation.c). */
module RdpClient {
  import opened Words
  import opened Masks
  import opened Connection
  import opened ConnectionProgress

  class Rdp {
    var state: Phase
    var userId: nat
    var userJoined: bool
    var globalJoined: bool
    var channels: seq<Channel>
    var requests: seq<nat>
    var license: LicenseState
    var finalizeScPdus: nat
    var disconnect: bool
    ghost var received: set<Pdu>

    ghost function View(): Client
      reads this
    {
      Client(state, userId, userJoined, globalJoined, channels, requests, license, finalizeScPdus, disconnect, received)
    }

    /** The settings are fresh: no channel has joined. */
    constructor (ids: seq<nat>)
      ensures Fresh(View()) && Inv(View()) && !disconnect && Ids(channels) == ids
    {
      hide Inv;
      state, userId, userJoined, globalJoined := Nego, 0, false, false;
      channels := seq(|ids|, i requires 0 <= i < |ids| => Channel(ids[i], false));
      requests, license, finalizeScPdus, disconnect := [], Pending, 0, false;
      received := {};
      new;
      FreshInv(View());
    }

    method McsAttachUserConfirm(p: Packet, sendOk: bool) returns (ok: bool)
      requires state == AttachUser
      modifies this
      ensures (ok, View()) == Receive(old(View()), p, sendOk)
    {
      if !p.AttachConfirm? { return false; }
      userId := p.userId;
      if !sendOk { return false; }
      requests := requests + [userId];
      state := ChannelJoin;
      return true;
    }

    method McsChannelJoinConfirm(channelId: nat, sendOk: bool) returns (ok: bool)
      requires state == ChannelJoin
      modifies this
      ensures (ok, View()) == JoinStep(old(View()), channelId, sendOk)
    {
      var allJoined := true;
      if !userJoined {
        if channelId != userId { return false; }
        userJoined := true;
        if !sendOk { return false; }
        requests := requests + [GLOBAL_CHANNEL];
      } else if !globalJoined {
        if channelId != GLOBAL_CHANNEL { return false; }
        globalJoined := true;
        if |channels| > 0 {
          if !sendOk { return false; }
          requests := requests + [channels[0].id];
          allJoined := false;
        }
      } else {
        var i := 0;
        while i < |channels| && channels[i].joined
          invariant 0 <= i <= FirstUnjoined(channels)
          invariant View() == old(View())
        {
          i := i + 1;
        }
        assert i == FirstUnjoined(channels);
        if i < |channels| {
          if channels[i].id != channelId { return false; }
          channels := channels[i := channels[i].(joined := true)];
        }
        if i + 1 < |channels| {
          if !sendOk { return false; }
          requests := requests + [channels[i + 1].id];
          allJoined := false;
        }
      }
      if userJoined && globalJoined && allJoined {
        if !sendOk { return false; }
        state := Licensing;
      }
      return true;
    }

    method RecvDataPdu(p: Pdu)
      modifies this`finalizeScPdus, this`received
      ensures View() == DataStep(old(View()), p)
    {
      if Finalizing(p) {
        finalizeScPdus := Or(finalizeScPdus, FinalizeBit(p));
        received := received + {p};
      }
    }

    method RecvPdu(p: Packet) returns (ok: bool)
      modifies this
      ensures (ok, View()) == ReceivePdu(old(View()), p)
    {
      hide PdusStep, DataStep;
      if p == Ultimatum { disconnect := true; return false; }
      if p == ChannelData { return !disconnect; }
      if p == FastPathUpdates { return true; }
      if !p.Pdus? || disconnect { return false; }
      ok := RecvSharePdus(p.pdus);
    }

    method RecvSharePdus(pdus: seq<Pdu>) returns (ok: bool)
      modifies this
      ensures (ok, View()) == PdusStep(old(View()), pdus)
    {
      hide DataStep;
      var k := 0;
      assert pdus[0..] == pdus;
      while k < |pdus|
        invariant 0 <= k <= |pdus| && PdusStep(View(), pdus[k..]) == PdusStep(old(View()), pdus)
      {
        if pdus[k] == BadData { return false; }
        assert pdus[k..][1..] == pdus[k + 1..];
        if pdus[k] == Deactivate {
          state := Capability;
        } else {
          RecvDataPdu(pdus[k]);
        }
        k := k + 1;
      }
      return true;
    }

    method RecvOutOfSequence(p: Packet) returns (ok: bool)
      modifies this`finalizeScPdus, this`received
      ensures (ok, View()) == OutOfSequence(old(View()), p)
    {
      hide DataStep;
      if !p.Pdus? || p.pdus == [] || p.pdus[0] == BadData || p.pdus[0] == Deactivate
          || p.pdus[0] == Unknown { return false; }
      RecvDataPdu(p.pdus[0]);
      return true;
    }

    method ConnectLicense(p: Packet) returns (ok: bool)
      requires state == Licensing
      modifies this
      ensures (ok, View()) == LicenseStep(old(View()), p)
    {
      hide OutOfSequence;
      ok := true;
      if p.License? {
        license := p.result;
      } else if p == Ultimatum {
        disconnect := true;
        return false;
      } else {
        ok := RecvOutOfSequence(p);
      }
      if !ok || license == Aborted { return false; }
      if license == Completed { state := Capability; }
    }

    method ConnectDemandActive(p: Packet, sendOk: bool) returns (ok: bool)
      requires state == Capability
      modifies this
      ensures (ok, View()) == CapabilityStep(old(View()), p, sendOk)
    {
      hide OutOfSequence;
      if p == Ultimatum { disconnect := true; return true; }
      if disconnect { return p == DemandActive || p.Pdus? || p == ChannelData; }
      if p == DemandActive {
        if !sendOk { return false; }
        state := Finalization;
        return true;
      }
      ok := RecvOutOfSequence(p);
    }

    /** Every packet is dispatched on the state. Whatever the packet, the state moves exactly as MovesOn says, the
        invariant of the connection is kept, and an active client is ready. */
    method RecvCallback(p: Packet, sendOk: bool) returns (ok: bool)
      requires Inv(View())
      modifies this
      ensures (ok, View()) == Receive(old(View()), p, sendOk)
      ensures Inv(View()) && (state == Active ==> Ready(View())) && MovesOn(old(View()), p, sendOk, state)
    {
      hide JoinStep, LicenseStep, CapabilityStep, ReceivePdu, Inv, Ready, MovesOn;
      ghost var c := View();
      ok := Dispatch(p, sendOk);
      StepKeeps(c, p, sendOk);
      NextPhase(c, p, sendOk);
      if state == Active { ActiveReady(View()); }
    }

    method Dispatch(p: Packet, sendOk: bool) returns (ok: bool)
      modifies this
      ensures (ok, View()) == Receive(old(View()), p, sendOk)
    {
      hide JoinStep, LicenseStep, CapabilityStep, ReceivePdu;
      match state {
        case Nego =>
          if p != ConnectResponse || !sendOk { return false; }
          state := AttachUser;
          return true;
        case AttachUser => ok := McsAttachUserConfirm(p, sendOk);
        case ChannelJoin =>
          if !p.JoinConfirm? { return false; }
          ok := McsChannelJoinConfirm(p.channelId, sendOk);
        case Licensing => ok := ConnectLicense(p);
        case Capability => ok := ConnectDemandActive(p, sendOk);
        case Finalization =>
          ok := RecvPdu(p);
          if ok && finalizeScPdus == 0x0F { state := Active; }
        case Active => ok := RecvPdu(p);
      }
    }

    /** Packets are received after a restart, until the client is active or one fails. Connecting succeeds only with
        a client that is ready, and stops at the first packet that makes it active. */
    method ClientConnect(packets: seq<(Packet, bool)>) returns (outcome: Outcome, used: nat)
      requires Inv(View())
      modifies this
      ensures used <= |packets| && View() == Run(Restart(old(View())), packets[..used]) && Inv(View())
      ensures outcome == Connected <==> state == Active
      ensures outcome == Connected ==> Ready(View())
      ensures outcome == Waiting ==> used == |packets|
      ensures outcome == Failed ==>
                used > 0
                && !Receive(Run(Restart(old(View())), packets[..used - 1]), packets[used - 1].0, packets[used - 1].1).0
      ensures forall k :: 0 <= k < used ==> Run(Restart(old(View())), packets[..k]).phase != Active
      ensures var c := Restart(old(View())); Accepts(c, packets) && Run(c, packets).phase == Active ==>
          outcome == Connected
    {
      hide Run, Receive, Inv, Ready, Accepts, MovesOn;
      RestartInv(View());
      state, finalizeScPdus, received, used := Nego, 0, {}, 0;
      ghost var c := View();
      NoneYet(c, packets);
      assert packets[0..] == packets;
      while state != Active
        invariant used <= |packets| && View() == Run(c, packets[..used]) && Inv(View())
            && (state == Active ==> Ready(View()))
        invariant forall k :: 0 <= k < used ==> Run(c, packets[..k]).phase != Active
        invariant Accepts(c, packets) ==> Accepts(View(), packets[used..])
        decreases |packets| - used
      {
        if used == |packets| {
          assert packets[..used] == packets;
          return Waiting, used;
        }
        ghost var d := View();
        if Accepts(c, packets) { NextAccepted(d, packets, used); }
        var ok := RecvCallback(packets[used].0, packets[used].1);
        RunSnoc(c, packets[..used], packets[used]);
        assert packets[..used] + [packets[used]] == packets[..used + 1];
        used := used + 1;
        if !ok { FailedIdle(d, packets[used - 1]); return Failed, used; }
      }
      return Connected, used;
    }
  }

  /** A new client and an ordinary sequence of packets: it connects, ready and with every channel asked for in order. */
  method ConnectInOrder(ids: seq<nat>, u: nat, pending: nat, groups: seq<seq<Pdu>>) returns (rdp: Rdp, outcome: Outcome)
    requires FourCome(groups)
    ensures outcome == Connected && rdp.state == Active && Ready(rdp.View())
  {
    hide Run, Receive, Inv, Ready, Accepts, Fresh, Ordinary, FourCome;
    rdp := new Rdp(ids);
    ghost var c := rdp.View();
    RestartFresh(c);
    OrdinaryConnects(c, u, pending, groups);
    var used;
    outcome, used := rdp.ClientConnect(Ordinary(u, ids, pending, groups));
  }

  lemma RestartFresh(c: Client)
    requires Fresh(c)
    ensures Restart(c) == c
  {
  }

  lemma NextAccepted(c: Client, packets: seq<(Packet, bool)>, k: nat)
    requires k < |packets| && Accepts(c, packets[k..])
    ensures Receive(c, packets[k].0, packets[k].1).0
        && Accepts(Receive(c, packets[k].0, packets[k].1).1, packets[k + 1..])
  {
    hide Receive;
    assert packets[k..][1..] == packets[k + 1..];
  }

  datatype Outcome = Connected | Failed | Waiting

  /** The state and the finalization bits at the start of a connect. */
  function Restart(c: Client): Client { c.(phase := Nego, finalize := 0, received := {}) }

  lemma RestartInv(c: Client)
    requires Inv(c)
    ensures Inv(Restart(c))
  {
    BitOfZero(0);
    BitOfZero(1);
    BitOfZero(2);
    BitOfZero(3);
  }

  lemma NoneYet(c: Client, packets: seq<(Packet, bool)>)
    ensures Run(c, packets[..0]) == c
  {
  }

  /** A packet that fails does not make the client active. */
  lemma FailedIdle(c: Client, p: (Packet, bool))
    requires c.phase != Active && !Receive(c, p.0, p.1).0
    ensures Receive(c, p.0, p.1).1.phase != Active
  {
    if c.phase == Finalization && p.0.Pdus? { PdusIdle(c, p.0.pdus); }
  }

  lemma {:induction false} PdusIdle(c: Client, pdus: seq<Pdu>)
    requires c.phase != Active
    ensures PdusStep(c, pdus).1.phase != Active
    decreases |pdus|
  {
    hide Or;
    if pdus != [] && pdus[0] != BadData {
      PdusIdle(if pdus[0] == Deactivate then c.(phase := Capability) else DataStep(c, pdus[0]), pdus[1..]);
    }
  }
}
