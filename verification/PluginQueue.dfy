/** The plugin write queue and its wake-up pipe (libfreerdp-channels/libchannels.c, libfreerdp-utils/wait_obj.c),
    as the atomic steps of any number of writer threads, of threads that push events and of the main thread. */
module PluginQueue {

  datatype Item = Item(index: nat, data: seq<int>)

  /** Where a writer is in MyVirtualChannelWrite: holding the mutex before and after list_enqueue, past the unlock,
      and inside wait_obj_set after it found the pipe empty. */
  datatype Writer = Outside | Locked(item: Item) | Queued | Unlocked | Writing

  /** Where the main thread is in freerdp_channels_check_fds: past wait_obj_is_set, in the two halves of the
      wait_obj_clear loop, before the test of the list head, before, inside and behind the locked dequeue. */
  datatype Main = Idle | Seen | Clearing | Reading | Draining | Waiting | Holding
                | Taken(item: Item) | Sending(item: Item)

  datatype Owner = Nobody | MainThread | Thread(id: nat)

  /** pipe counts the signals not yet read; enqueued and sent are the histories. */
  datatype State = State(pipe: nat, queue: seq<Item>, mutex: Owner, writers: map<nat, Writer>, main: Main,
                         enqueued: seq<Item>, sent: seq<Item>)

  function At(s: State, w: nat): Writer { if w in s.writers then s.writers[w] else Outside }

  /** PushEvent is the signal of a thread that pushes an event: its test of the pipe may lie any time before it. */
  datatype Action = PushEvent | Lock(w: nat,
      item: Item) | Enqueue(w: nat) | Unlock(w: nat) | TestSignal(w: nat) | WriteSignal(w: nat)
                  | Poll | BeginClear | TestPipe | ReadPipe | TestHead | Take | Dequeue | Release | Send

  predicate Enabled(s: State, a: Action)
  {
    match a
    case PushEvent => true
    case Lock(w, _) => At(s, w) == Outside && s.mutex == Nobody
    case Enqueue(w) => At(s, w).Locked?
    case Unlock(w) => At(s, w) == Queued
    case TestSignal(w) => At(s, w) == Unlocked
    case WriteSignal(w) => At(s, w) == Writing
    case Poll => s.main == Idle
    case BeginClear => s.main == Seen
    case TestPipe => s.main == Clearing
    case ReadPipe => s.main == Reading && s.pipe > 0
    case TestHead => s.main == Draining
    case Take => s.main == Waiting && s.mutex == Nobody
    case Dequeue => s.main == Holding && s.queue != []
    case Release => s.main.Taken?
    case Send => s.main.Sending?
  }

  function Do(s: State, a: Action): State
    requires Enabled(s, a)
  {
    match a
    case PushEvent => s.(pipe := s.pipe + 1)
    case Lock(w, i) => s.(mutex := Thread(w), writers := s.writers[w := Locked(i)])
    case Enqueue(w) =>
      var i := At(s, w).item;
      s.(queue := s.queue + [i], enqueued := s.enqueued + [i], writers := s.writers[w := Queued])
    case Unlock(w) => s.(mutex := Nobody, writers := s.writers[w := Unlocked])
    case TestSignal(w) => s.(writers := s.writers[w := if s.pipe > 0 then Outside else Writing])
    case WriteSignal(w) => s.(pipe := s.pipe + 1, writers := s.writers[w := Outside])
    case Poll => s.(main := if s.pipe > 0 then Seen else Idle)
    case BeginClear => s.(main := Clearing)
    case TestPipe => s.(main := if s.pipe > 0 then Reading else Draining)
    case ReadPipe => s.(pipe := s.pipe - 1, main := Clearing)
    case TestHead => s.(main := if s.queue != [] then Waiting else Idle)
    case Take => s.(mutex := MainThread, main := Holding)
    case Dequeue => s.(queue := s.queue[1..], main := Taken(s.queue[0]))
    case Release => s.(mutex := Nobody, main := Sending(s.main.item))
    case Send => s.(sent := s.sent + [s.main.item], main := Draining)
  }

  ghost predicate Init(s: State)
  {
    s.pipe == 0 && s.queue == [] && s.mutex == Nobody && s.main == Idle && s.enqueued == [] && s.sent == []
    && forall w :: At(s, w) == Outside
  }

  /** A run: each action is enabled where it is taken. */
  predicate CanRun(s: State, acts: seq<Action>)
    decreases |acts|
  {
    acts == [] || (Enabled(s, acts[0]) && CanRun(Do(s, acts[0]), acts[1..]))
  }

  function Run(s: State, acts: seq<Action>): State
    requires CanRun(s, acts)
    decreases |acts|
  {
    if acts == [] then s else Run(Do(s, acts[0]), acts[1..])
  }

  // ---- What every step keeps ----

  predicate Signalling(p: Writer) { p == Queued || p == Unlocked || p == Writing }

  predicate Serving(m: Main) { m != Idle && m != Seen }

  /** No lost wake-up: a non-empty queue is announced by the pipe, by a writer between enqueue and signal,
      or by the main thread between the start of the clear and the end of its drain loop. */
  ghost predicate Announced(s: State)
  {
    s.queue != [] ==> s.pipe > 0 || Serving(s.main) || exists w :: Signalling(At(s, w))
  }

  function InHand(m: Main): seq<Item> { if m.Taken? || m.Sending? then [m.item] else [] }

  /** Everything enqueued has been sent, is in the main thread's hands or waits, in that order. */
  predicate Conserved(s: State) { s.enqueued == s.sent + InHand(s.main) + s.queue }

  ghost predicate MutexHeld(s: State)
  {
    && (s.mutex == MainThread <==> s.main == Holding || s.main.Taken?)
    && (forall w :: At(s, w).Locked? || At(s, w) == Queued <==> s.mutex == Thread(w))
  }

  predicate NeverStuck(s: State)
  {
    (s.main == Seen || s.main == Reading ==> s.pipe > 0) && (s.main == Waiting || s.main == Holding ==> s.queue != [])
  }

  ghost predicate Inv(s: State) { Announced(s) && Conserved(s) && MutexHeld(s) && NeverStuck(s) }

  lemma InitInv(s: State)
    requires Init(s)
    ensures Inv(s)
  {
  }

  lemma KeepsAnnounced(s: State, a: Action)
    requires Inv(s) && Enabled(s, a)
    ensures Announced(Do(s, a))
  {
    var t := Do(s, a);
    if t.queue != [] && t.pipe == 0 && !Serving(t.main) {
      match a {
        case Enqueue(w) => assert Signalling(At(t, w));
        case Unlock(w) => assert Signalling(At(t, w));
        case TestSignal(w) => assert Signalling(At(t, w));
        case TestHead => assert false;
        case BeginClear => assert false;
        case ReadPipe => assert false;
        case TestPipe => assert false;
        case Take => assert false;
        case Dequeue => assert false;
        case Release => assert false;
        case Send => assert false;
        case WriteSignal(w) => assert false;
        case PushEvent => assert false;
        case Lock(w, i) =>
          var v :| Signalling(At(s, v));
          assert Signalling(At(t, v));
        case Poll =>
          var v :| Signalling(At(s, v));
          assert Signalling(At(t, v));
      }
    }
  }

  lemma KeepsConserved(s: State, a: Action)
    requires Inv(s) && Enabled(s, a)
    ensures Conserved(Do(s, a))
  {
    if a == Dequeue {
      assert s.queue == [s.queue[0]] + s.queue[1..];
    }
  }

  lemma KeepsMutex(s: State, a: Action)
    requires Inv(s) && Enabled(s, a)
    ensures MutexHeld(Do(s, a))
  {
    var t := Do(s, a);
    forall w ensures At(t, w).Locked? || At(t, w) == Queued <==> t.mutex == Thread(w) {
      assert At(s, w).Locked? || At(s, w) == Queued <==> s.mutex == Thread(w);
    }
  }

  lemma KeepsMoving(s: State, a: Action)
    requires Inv(s) && Enabled(s, a)
    ensures NeverStuck(Do(s, a))
  {
  }

  lemma StepKeeps(s: State, a: Action)
    requires Inv(s) && Enabled(s, a)
    ensures Inv(Do(s, a))
  {
    hide Announced, Conserved, MutexHeld, NeverStuck, Do, Enabled;
    KeepsAnnounced(s, a);
    KeepsConserved(s, a);
    KeepsMutex(s, a);
    KeepsMoving(s, a);
  }

  lemma {:induction false} RunKeeps(s: State, acts: seq<Action>)
    requires Inv(s) && CanRun(s, acts)
    ensures Inv(Run(s, acts))
    decreases |acts|
  {
    hide Inv, Do, Enabled;
    if acts != [] {
      StepKeeps(s, acts[0]);
      RunKeeps(Do(s, acts[0]), acts[1..]);
    }
  }

  /** Main result: in every reachable state, items have been sent exactly once in the order they were enqueued, and
      when the main thread is about to wait with no writer at work, a non-empty queue has its signal set. */
  lemma NoLostWakeUp(s: State, acts: seq<Action>)
    requires Init(s) && CanRun(s, acts)
    ensures var t := Run(s, acts);
            && Inv(t)
            && t.sent <= t.enqueued
            && (t.main == Idle && (forall w :: !Signalling(At(t, w))) && t.queue != [] ==> t.pipe > 0)
            && (t.main == Idle && t.queue == [] ==> t.sent == t.enqueued)
  {
    hide Do, Enabled, CanRun, Run;
    InitInv(s);
    RunKeeps(s, acts);
  }

  /** An event can be announced at any time. */
  lemma PushSignals(s: State)
    ensures Enabled(s, PushEvent) && Do(s, PushEvent) == s.(pipe := s.pipe + 1)
  {
  }

  // ---- Progress ----

  /** What the main thread does next. */
  function MainAction(s: State): Action
  {
    match s.main
    case Idle => Poll
    case Seen => BeginClear
    case Clearing => TestPipe
    case Reading => ReadPipe
    case Draining => TestHead
    case Waiting => Take
    case Holding => Dequeue
    case Taken(_) => Release
    case Sending(_) => Send
  }

  function Rank(s: State): nat
  {
    match s.main
    case Clearing => if s.pipe == 0 then 12 else 6
    case Taken(_) => 11 case Sending(_) => 10 case Draining => 9 case Idle => 8 case Seen => 7 case Reading => 5
    case Waiting => 4 case Holding => 3
  }

  ghost predicate Quiet(s: State) { forall w :: At(s, w) == Outside }

  lemma MainCanStep(s: State)
    requires Inv(s) && Quiet(s)
    ensures Enabled(s, MainAction(s)) && Quiet(Do(s, MainAction(s)))
  {
    assert s.mutex.Thread? ==> At(s, s.mutex.id) == Outside;
    assert s.main == Waiting ==> s.mutex == Nobody;
    var t := Do(s, MainAction(s));
    forall w ensures At(t, w) == Outside {
      assert At(s, w) == Outside;
    }
  }

  /** The clear loop ends exactly when the pipe is empty, and the drain loop exactly when the queue is. */
  lemma LoopsEndIff(s: State)
    ensures s.main == Clearing ==> (Do(s, TestPipe).main == Draining <==> s.pipe == 0)
    ensures s.main == Draining ==> (Do(s, TestHead).main == Idle <==> s.queue == [])
  {
  }

  /** From every reachable state, once no writer is at work, the main thread alone sends all that is queued and takes
      back all signals. */
  lemma {:induction false} Drains(s: State) returns (acts: seq<Action>)
    requires Inv(s) && Quiet(s)
    ensures CanRun(s, acts)
    ensures var t := Run(s, acts);
            && t.main == Idle && t.queue == [] && t.pipe == 0 && t.enqueued == s.enqueued == t.sent
            && Inv(t) && Quiet(t)
    decreases |s.queue|, s.pipe, Rank(s)
  {
    if s.main == Idle && s.queue == [] && s.pipe == 0 {
      acts := [];
    } else {
      var a := MainAction(s);
      MainCanStep(s);
      StepKeeps(s, a);
      assert s.main == Idle ==> s.pipe > 0;
      var rest := Drains(Do(s, a));
      acts := [a] + rest;
      assert acts[1..] == rest;
    }
  }

  lemma {:induction false} RunAppend(s: State, a: seq<Action>, b: seq<Action>)
    requires CanRun(s, a) && CanRun(Run(s, a), b)
    ensures CanRun(s, a + b) && Run(s, a + b) == Run(Run(s, a), b)
    decreases |a|
  {
    hide Do, Enabled;
    if a == [] {
      assert a + b == b;
    } else {
      assert (a + b)[1..] == a[1..] + b;
      RunAppend(Do(s, a[0]), a[1..], b);
    }
  }

  lemma OneMore(s: State, a: Action, rest: seq<Action>)
    requires Enabled(s, a) && CanRun(Do(s, a), rest)
    ensures CanRun(s, [a] + rest) && Run(s, [a] + rest) == Run(Do(s, a), rest)
  {
    assert ([a] + rest)[1..] == rest;
  }

  /** A writer's steps, from a state without others at work: they leave a signal, and not a second one. */
  lemma Writes(s: State, w: nat, item: Item) returns (acts: seq<Action>)
    requires Inv(s) && Quiet(s) && s.main == Idle
    ensures CanRun(s, acts)
    ensures var t := Run(s, acts);
            && Inv(t) && Quiet(t) && t.enqueued == s.enqueued + [item] && t.main == Idle && t.sent == s.sent
            && t.pipe == if s.pipe > 0 then s.pipe else 1
  {
    hide Inv;
    FreeMutex(s);
    StepKeeps(s, Lock(w, item));
    var s1 := Do(s, Lock(w, item));
    StepKeeps(s1, Enqueue(w));
    var s2 := Do(s1, Enqueue(w));
    StepKeeps(s2, Unlock(w));
    var s3 := Do(s2, Unlock(w));
    StepKeeps(s3, TestSignal(w));
    var s4 := Do(s3, TestSignal(w));
    acts := [];
    if s4.pipe == 0 {
      StepKeeps(s4, WriteSignal(w));
      var s5 := Do(s4, WriteSignal(w));
      BackOutside(s, s5, w);
      OneMore(s4, WriteSignal(w), acts);
      acts := [WriteSignal(w)] + acts;
    } else {
      BackOutside(s, s4, w);
    }
    OneMore(s3, TestSignal(w), acts);
    OneMore(s2, Unlock(w), [TestSignal(w)] + acts);
    OneMore(s1, Enqueue(w), [Unlock(w)] + ([TestSignal(w)] + acts));
    OneMore(s, Lock(w, item), [Enqueue(w)] + ([Unlock(w)] + ([TestSignal(w)] + acts)));
    acts := [Lock(w, item)] + ([Enqueue(w)] + ([Unlock(w)] + ([TestSignal(w)] + acts)));
  }

  lemma FreeMutex(s: State)
    requires Inv(s) && Quiet(s) && s.main == Idle
    ensures s.mutex == Nobody
  {
    assert s.mutex.Thread? ==> At(s, s.mutex.id) == Outside;
  }

  lemma BackOutside(s: State, t: State, w: nat)
    requires Quiet(s) && At(t, w) == Outside && forall v :: v != w ==> At(t, v) == At(s, v)
    ensures Quiet(t)
  {
  }

  /** Main result: whatever a plugin writes can be sent: from every reachable state without writers at work there is
      a run at whose end everything enqueued before and then this item have been sent. */
  lemma WriteArrives(s: State, w: nat, item: Item) returns (acts: seq<Action>)
    requires Inv(s) && Quiet(s)
    ensures CanRun(s, acts)
    ensures var t := Run(s, acts); t.sent == t.enqueued == s.enqueued + [item] && t.main == Idle && t.queue == []
  {
    hide Inv, Quiet, Do, Enabled, CanRun, Run;
    var first := Drains(s);
    var s1 := Run(s, first);
    var write := Writes(s1, w, item);
    var s2 := Run(s1, write);
    var last := Drains(s2);
    RunAppend(s1, write, last);
    RunAppend(s, first, write + last);
    acts := first + (write + last);
  }
}
