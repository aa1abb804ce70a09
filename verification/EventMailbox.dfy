/** The one-slot event mailbox guarded by a semaphore (libfreerdp-channels/libchannels.c), as the atomic steps of
    any number of pushing threads and of one popping thread. */
module EventMailbox {

  datatype Option<T> = None | Some(value: T)

  /** A pusher is past freerdp_sem_wait, or has stored its event and not yet set the signal. */
  datatype Pusher = Outside | Waited(event: int) | Stored

  /** The popper has seen a non-null slot, read it, or cleared it and not yet signalled the semaphore. */
  datatype Popper = Idle | Saw | Read(event: int) | Cleared(event: int)

  datatype State = State(connected: bool, sem: nat, slot: Option<int>, pushers: map<nat, Pusher>, popper: Popper,
                         stored: seq<int>, popped: seq<int>)

  function At(s: State, p: nat): Pusher { if p in s.pushers then s.pushers[p] else Outside }

  datatype Action = Wait(p: nat, event: int) | Store(p: nat) | GiveBack(p: nat) | Signal(p: nat)
                  | Test | ReadSlot | ClearSlot | Release | Disconnect

  predicate Enabled(s: State, a: Action)
  {
    match a
    case Wait(p, _) => At(s, p) == Outside && s.sem > 0
    case Store(p) => At(s, p).Waited? && s.connected
    case GiveBack(p) => At(s, p).Waited? && !s.connected
    case Signal(p) => At(s, p) == Stored
    case Test => s.popper == Idle
    case ReadSlot => s.popper == Saw && s.slot.Some?
    case ClearSlot => s.popper.Read?
    case Release => s.popper.Cleared?
    case Disconnect => s.connected
  }

  function Do(s: State, a: Action): State
    requires Enabled(s, a)
  {
    match a
    case Wait(p, e) => s.(sem := s.sem - 1, pushers := s.pushers[p := Waited(e)])
    case Store(p) =>
      var e := At(s, p).event;
      s.(slot := Some(e), stored := s.stored + [e], pushers := s.pushers[p := Stored])
    case GiveBack(p) => s.(sem := s.sem + 1, pushers := s.pushers[p := Outside])
    case Signal(p) => s.(pushers := s.pushers[p := Outside])
    case Test => s.(popper := if s.slot.Some? then Saw else Idle)
    case ReadSlot => s.(popper := Read(s.slot.value))
    case ClearSlot => s.(slot := None, popper := Cleared(s.popper.event))
    case Release => s.(sem := s.sem + 1, popped := s.popped + [s.popper.event], popper := Idle)
    case Disconnect => s.(connected := false)
  }

  ghost predicate Init(s: State)
  {
    s.sem == 1 && s.slot == None && s.popper == Idle && s.stored == [] && s.popped == [] && s.pushers == map[]
  }

  predicate CanRun(s: State, acts: seq<Action>)
    decreases |acts|
  {
    acts == [] || (Enabled(s, acts[0]) && CanRun(Do(s, acts[0]), acts[1..]))
  }

  function Run(s: State, acts: seq<Action>): State
    requires CanRun(s, acts)
    decreases |acts|
  {
    if acts == [] then s else Run(Do(s, acts[0]), acts[1..])
  }

  // ---- What every step keeps ----

  /** Pushers between the wait and the store. */
  function Inside(s: State): set<nat> { set p | p in s.pushers && s.pushers[p].Waited? }

  function Occupied(s: State): nat { if s.slot.Some? then 1 else 0 }

  function Emptying(s: State): nat { if s.popper.Cleared? then 1 else 0 }

  /** Semaphore count, occupied slot, pushers about to store and a popper about to signal add up to one. */
  predicate OneToken(s: State) { s.sem + Occupied(s) + |Inside(s)| + Emptying(s) == 1 }

  predicate PopperSees(s: State)
  {
    (s.popper == Saw ==> s.slot.Some?) && (s.popper.Read? ==> s.slot == Some(s.popper.event))
  }

  function InHand(s: State): seq<int>
  {
    if s.popper.Cleared? then [s.popper.event] else if s.slot.Some? then [s.slot.value] else []
  }

  /** Every stored event has been popped or is the one in the slot or in the popper's hands. */
  predicate InOrder(s: State) { s.stored == s.popped + InHand(s) }

  predicate Inv(s: State) { OneToken(s) && PopperSees(s) && InOrder(s) }

  lemma EnterInside(s: State, p: nat, e: int)
    requires At(s, p) == Outside
    ensures Inside(s.(pushers := s.pushers[p := Waited(e)])) == Inside(s) + {p} && p !in Inside(s)
  {
  }

  lemma LeaveInside(s: State, p: nat, q: Pusher)
    requires At(s, p).Waited? && !q.Waited?
    ensures Inside(s.(pushers := s.pushers[p := q])) == Inside(s) - {p} && p in Inside(s)
  {
  }

  lemma SameInside(s: State, p: nat, q: Pusher)
    requires !At(s, p).Waited? && !q.Waited?
    ensures Inside(s.(pushers := s.pushers[p := q])) == Inside(s)
  {
  }

  lemma InsideOf(s: State, t: State)
    requires s.pushers == t.pushers
    ensures Inside(s) == Inside(t)
  {
  }

  lemma StepToken(s: State, a: Action)
    requires Inv(s) && Enabled(s, a)
    ensures OneToken(Do(s, a))
    ensures a.Store? ==> s.slot == None && s.popper == Idle
  {
    hide Inside;
    var t := Do(s, a);
    match a {
      case Wait(p, e) =>
        EnterInside(s, p, e);
        InsideOf(t, s.(pushers := s.pushers[p := Waited(e)]));
      case Store(p) =>
        LeaveInside(s, p, Stored);
        InsideOf(t, s.(pushers := s.pushers[p := Stored]));
      case GiveBack(p) =>
        LeaveInside(s, p, Outside);
        InsideOf(t, s.(pushers := s.pushers[p := Outside]));
      case Signal(p) =>
        SameInside(s, p, Outside);
      case Test => InsideOf(s, t);
      case ReadSlot => InsideOf(s, t);
      case ClearSlot => InsideOf(s, t);
      case Release => InsideOf(s, t);
      case Disconnect => InsideOf(s, t);
    }
  }

  lemma StepKeeps(s: State, a: Action)
    requires Inv(s) && Enabled(s, a)
    ensures Inv(Do(s, a))
  {
    hide Inside;
    StepToken(s, a);
  }

  lemma {:induction false} RunKeeps(s: State, acts: seq<Action>)
    requires Inv(s) && CanRun(s, acts)
    ensures Inv(Run(s, acts))
    decreases |acts|
  {
    hide Inv, Do, Enabled;
    if acts != [] {
      StepKeeps(s, acts[0]);
      RunKeeps(Do(s, acts[0]), acts[1..]);
    }
  }

  /** Main result: in every reachable state the token sum is one and events have been popped in the order stored;
      no store overwrites an event that has not been taken. */
  lemma MailboxSafe(s: State, acts: seq<Action>)
    requires Init(s) && CanRun(s, acts)
    ensures var t := Run(s, acts);
            && OneToken(t)
            && t.popped <= t.stored <= t.popped + InHand(t)
            && forall p :: Enabled(t, Store(p)) ==> t.slot == None
  {
    hide Do, CanRun, Run, Inside;
    InitInside(s);
    RunKeeps(s, acts);
    var t := Run(s, acts);
    forall p | Enabled(t, Store(p)) ensures t.slot == None {
      StepToken(t, Store(p));
    }
  }

  lemma InitInside(s: State)
    requires Init(s)
    ensures Inside(s) == {}
  {
  }

  // ---- Progress ----

  /** A test of the slot leads on exactly when it is occupied. */
  lemma TestIff(s: State)
    requires Enabled(s, Test)
    ensures Do(s, Test).popper == Saw <==> s.slot != None
    ensures Do(s, Test) == s.(popper := Do(s, Test).popper)
  {
  }

  /** What the popper does next. */
  function PopperAction(s: State): Action
  {
    match s.popper
    case Idle => Test
    case Saw => ReadSlot
    case Read(_) => ClearSlot
    case Cleared(_) => Release
  }

  predicate OfPopper(a: Action) { a == Test || a == ReadSlot || a == ClearSlot || a == Release }

  function Rank(s: State): nat
  {
    match s.popper
    case Idle => if s.slot.Some? then 5 else 0
    case Saw => 4 case Read(_) => 3 case Cleared(_) => 2
  }

  /** From every state that the invariant allows, the popper's own steps take whatever has been stored, empty the
      slot and give the token back. */
  lemma {:induction false} Pops(s: State) returns (acts: seq<Action>)
    requires Inv(s)
    ensures CanRun(s, acts) && forall i :: 0 <= i < |acts| ==> OfPopper(acts[i])
    ensures var t := Run(s, acts);
            && Inv(t) && t.popped == t.stored == s.stored && t.slot == None && t.popper == Idle
            && t.pushers == s.pushers && t.connected == s.connected && (Inside(t) == {} ==> t.sem == 1)
    decreases Rank(s)
  {
    hide Inside;
    if s.popper == Idle && s.slot == None {
      acts := [];
    } else {
      var a := PopperAction(s);
      StepKeeps(s, a);
      var rest := Pops(Do(s, a));
      acts := [a] + rest;
      assert acts[1..] == rest;
    }
  }

  lemma {:induction false} RunAppend(s: State, a: seq<Action>, b: seq<Action>)
    requires CanRun(s, a) && CanRun(Run(s, a), b)
    ensures CanRun(s, a + b) && Run(s, a + b) == Run(Run(s, a), b)
    decreases |a|
  {
    hide Do, Enabled;
    if a == [] {
      assert a + b == b;
    } else {
      assert (a + b)[1..] == a[1..] + b;
      RunAppend(Do(s, a[0]), a[1..], b);
    }
  }

  /** A pusher that holds the token stores its event and the popper takes it. */
  lemma StoresAndPops(s: State, q: nat) returns (acts: seq<Action>)
    requires Inv(s) && s.connected && At(s, q).Waited?
    ensures CanRun(s, acts)
    ensures var t := Run(s, acts);
            && Inv(t) && t.popped == t.stored == s.stored + [At(s, q).event] && t.slot == None && t.popper == Idle
                && t.connected
            && Inside(t) == {} && forall p :: p != q ==> At(t, p) == At(s, p)
  {
    hide Inside, Run, CanRun;
    StepKeeps(s, Store(q));
    StepToken(s, Store(q));
    var u := Do(s, Store(q));
    LeaveInside(s, q, Stored);
    InsideOf(u, s.(pushers := s.pushers[q := Stored]));
    OneInside(s, q);
    var rest := Pops(u);
    InsideOf(u, Run(u, rest));
    acts := [Store(q)] + rest;
    OneMore(s, Store(q), rest);
  }

  lemma OneMore(s: State, a: Action, rest: seq<Action>)
    requires Enabled(s, a) && CanRun(Do(s, a), rest)
    ensures CanRun(s, [a] + rest) && Run(s, [a] + rest) == Run(Do(s, a), rest)
  {
    assert ([a] + rest)[1..] == rest;
  }

  /** There is one token, so a pusher that holds it is alone. */
  lemma OneInside(s: State, q: nat)
    requires OneToken(s) && At(s, q).Waited?
    ensures Inside(s) == {q}
  {
    assert q in Inside(s);
    Singleton(Inside(s), q);
  }

  lemma Singleton(a: set<nat>, q: nat)
    requires q in a && |a| <= 1
    ensures a == {q}
  {
    assert |a - {q}| == |a| - 1;
    assert a - {q} == {};
  }

  /** Main result: while connected, every event that a thread wants to push can be popped: from every state that the
      invariant allows there is a run at whose end the events stored so far, the event of a pusher that holds the
      token, if any, and this one have been popped, in that order. */
  lemma PushArrives(s: State, p: nat, e: int) returns (acts: seq<Action>)
    requires Inv(s) && s.connected && At(s, p) == Outside
    ensures CanRun(s, acts)
    ensures var t := Run(s, acts);
            && t.popped == t.stored && t.slot == None && t.popper == Idle && |Inside(s)| <= 1
            && t.stored == s.stored + Held(s) + [e]
  {
    hide Inside, Run, CanRun, Do, Enabled;
    var first := Settles(s);
    var s1 := Run(s, first);
    HeldIs(s);
    NextPush(s1, p, e);
    var s2 := Do(s1, Wait(p, e));
    var last := StoresAndPops(s2, p);
    OneMore(s1, Wait(p, e), last);
    RunAppend(s, first, [Wait(p, e)] + last);
    acts := first + ([Wait(p, e)] + last);
  }

  /** The event of a pusher that holds the token. */
  ghost function Held(s: State): seq<int>
  {
    if exists q :: At(s, q).Waited? then (var q :| At(s, q).Waited?; [At(s, q).event]) else []
  }

  lemma InsideIff(s: State, q: nat)
    ensures q in Inside(s) <==> At(s, q).Waited?
  {
  }

  lemma HeldIs(s: State)
    requires OneToken(s)
    ensures |Inside(s)| <= 1
    ensures forall q: nat :: At(s, q).Waited? ==> Held(s) == [At(s, q).event]
    ensures Inside(s) == {} ==> Held(s) == []
  {
    hide Inside;
    forall q: nat | At(s, q).Waited? ensures Held(s) == [At(s, q).event] {
      OneInside(s, q);
      var r: nat :| At(s, r).Waited? && Held(s) == [At(s, r).event];
      InsideIff(s, r);
    }
    if Inside(s) == {} {
      forall q: nat ensures !At(s, q).Waited? {
        InsideIff(s, q);
      }
    }
  }

  /** The popper, and a pusher that holds the token, finish; other pushers stay where they are. */
  lemma Settles(s: State) returns (acts: seq<Action>)
    requires Inv(s) && s.connected
    ensures CanRun(s, acts)
    ensures var t := Run(s, acts);
            && Inv(t) && t.popped == t.stored == s.stored + Held(s) && t.slot == None && t.popper == Idle && t.connected
            && Inside(t) == {} && forall p :: At(s, p) == Outside ==> At(t, p) == Outside
  {
    hide Inside, Run, CanRun;
    HeldIs(s);
    if q :| At(s, q).Waited? {
      acts := StoresAndPops(s, q);
    } else {
      NobodyInside(s);
      acts := Pops(s);
      InsideOf(s, Run(s, acts));
    }
  }

  lemma NobodyInside(s: State)
    requires forall q: nat :: !At(s, q).Waited?
    ensures Inside(s) == {}
  {
    hide Inside;
    forall q: nat ensures q !in Inside(s) {
      InsideIff(s, q);
    }
  }

  lemma NextPush(s: State, p: nat, e: int)
    requires Inv(s) && s.slot == None && s.popper == Idle && Inside(s) == {} && At(s, p) == Outside
    ensures Enabled(s, Wait(p, e))
    ensures var t := Do(s, Wait(p, e));
            Inv(t) && t.stored == s.stored && t.connected == s.connected && At(t, p) == Waited(e)
  {
    hide Inside;
    assert s.sem == 1;
    StepKeeps(s, Wait(p, e));
  }

  // ---- Leaving, and the end of the connection ----

  /** A pusher gets out again: it stores its event and sets the signal, or, once disconnected, gives the token back. */
  lemma PusherReturns(s: State, p: nat) returns (acts: seq<Action>)
    requires Inv(s) && At(s, p) != Outside
    ensures CanRun(s, acts)
    ensures var t := Run(s, acts);
            && Inv(t) && At(t, p) == Outside && (forall q :: q != p ==> At(t, q) == At(s, q)) && t.popper == s.popper
            && t.stored == s.stored + (if At(s, p).Waited? && s.connected then [At(s, p).event] else [])
            && t.sem == s.sem + (if At(s, p).Waited? && !s.connected then 1 else 0)
  {
    hide Inside, Run, CanRun;
    if At(s, p) == Stored {
      acts := OneStep(s, Signal(p));
    } else if !s.connected {
      acts := OneStep(s, GiveBack(p));
    } else {
      StepKeeps(s, Store(p));
      var u := Do(s, Store(p));
      var rest := OneStep(u, Signal(p));
      OneMore(s, Store(p), rest);
      acts := [Store(p)] + rest;
    }
  }

  lemma OneStep(s: State, a: Action) returns (acts: seq<Action>)
    requires Inv(s) && Enabled(s, a)
    ensures CanRun(s, acts) && Run(s, acts) == Do(s, a) && Inv(Do(s, a))
  {
    hide Do, Enabled, Inv;
    StepKeeps(s, a);
    acts := [a];
    assert acts[1..] == [];
    assert CanRun(Do(s, a), []) && Run(Do(s, a), []) == Do(s, a);
  }

  /** A disconnect can come at any time, once, and from then on nothing is stored, whatever the threads do. */
  lemma DisconnectStops(s: State, acts: seq<Action>)
    requires s.connected
    ensures Enabled(s, Disconnect)
    ensures CanRun(Do(s, Disconnect), acts) ==>
              var t := Run(Do(s, Disconnect), acts); t.stored == s.stored && !t.connected
  {
    hide Run, CanRun;
    if CanRun(Do(s, Disconnect), acts) { NothingStored(Do(s, Disconnect), acts); }
  }

  lemma {:induction false} NothingStored(s: State, acts: seq<Action>)
    requires !s.connected && CanRun(s, acts)
    ensures Run(s, acts).stored == s.stored && !Run(s, acts).connected
    decreases |acts|
  {
    if acts != [] { NothingStored(Do(s, acts[0]), acts[1..]); }
  }
}
