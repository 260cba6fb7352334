/**
 The two messengers as objects.  `MessengerRedis` does, method by method, exactly the turns of `MessengerState`, and
 `MessengerMemory` is the in-process messenger.  Who hears a message is said in the terms of the callers' own calls.
 */
module Messenger {
  import opened MessengerState
  import opened MessengerRuns

  // ----- the callers' view -----

  /** The registry that a series of calls builds. */
  function RegistryAfter(events: seq<Event>): Registry {
    if events == [] then map[]
    else
      var before := RegistryAfter(events[..|events| - 1]);
      match events[|events| - 1]
      case SubscribeCall(c, cb) => AddCallback(before, c, cb)
      case UnsubscribeCall(c, cb) => RemoveCallback(before, c, cb)
      case _ => before
  }

  /** The callback was subscribed by some call and not unsubscribed since. */
  ghost predicate Hears(events: seq<Event>, c: Channel, cb: Callback) {
    exists i :: Subscribed(events, c, cb, i)
  }

  predicate Subscribed(events: seq<Event>, c: Channel, cb: Callback, i: int) {
    && 0 <= i < |events| && events[i] == SubscribeCall(c, cb)
    && forall j :: i < j < |events| ==> events[j] != UnsubscribeCall(c, cb)
  }

  /** The first such call: later ones changed nothing. */
  ghost predicate HearsSince(events: seq<Event>, c: Channel, cb: Callback, i: int) {
    Subscribed(events, c, cb, i) && forall j :: 0 <= j < i ==> !Subscribed(events, c, cb, j)
  }

  /** That call, or -1. */
  function Since(events: seq<Event>, c: Channel, cb: Callback): (i: int)
    ensures -1 <= i < |events|
  {
    if events == [] then -1
    else
      var before := Since(events[..|events| - 1], c, cb);
      if events[|events| - 1] == UnsubscribeCall(c, cb) then -1
      else if events[|events| - 1] == SubscribeCall(c, cb) && before == -1 then |events| - 1
      else before
  }

  lemma SubscribedBefore(events: seq<Event>, c: Channel, cb: Callback, i: int)
    requires events != [] && i < |events| - 1
    ensures Subscribed(events, c, cb, i)
            <==> Subscribed(events[..|events| - 1], c, cb, i) && events[|events| - 1] != UnsubscribeCall(c, cb)
  {
    var front := events[..|events| - 1];
    if Subscribed(front, c, cb, i) && events[|events| - 1] != UnsubscribeCall(c, cb) {
      forall j | i < j < |events| ensures events[j] != UnsubscribeCall(c, cb) {
        assert j < |front| ==> events[j] == front[j];
      }
    }
  }

  lemma {:induction false} SinceIsFirst(events: seq<Event>, c: Channel, cb: Callback)
    ensures Since(events, c, cb) >= 0 ==> HearsSince(events, c, cb, Since(events, c, cb))
    ensures Since(events, c, cb) == -1 ==> !Hears(events, c, cb)
  {
    if events != [] {
      var n := |events| - 1;
      var front := events[..n];
      SinceIsFirst(front, c, cb);
      forall i | i < n
        ensures Subscribed(events, c, cb, i) <==> Subscribed(front, c, cb, i) && events[n] != UnsubscribeCall(c, cb)
      {
        SubscribedBefore(events, c, cb, i);
      }
      assert Subscribed(events, c, cb, n) <==> events[n] == SubscribeCall(c, cb);
    }
  }

  ghost predicate Increasing(callbacks: seq<Callback>, rank: Callback -> int) {
    forall p, q :: 0 <= p < q < |callbacks| ==> rank(callbacks[p]) < rank(callbacks[q])
  }

  function SinceIn(events: seq<Event>, c: Channel): Callback -> int {
    cb => Since(events, c, cb)
  }

  ghost predicate InOrderOfCalls(events: seq<Event>, c: Channel, callbacks: seq<Callback>) {
    (forall cb :: cb in callbacks <==> Since(events, c, cb) >= 0) && Increasing(callbacks, SinceIn(events, c))
  }

  lemma {:induction false} RemoveKeepsOrder(callbacks: seq<Callback>, cb: Callback, rank: Callback -> int)
    requires Increasing(callbacks, rank)
    ensures Increasing(Remove(callbacks, cb), rank)
  {
    if callbacks != [] {
      var tail := callbacks[1..];
      RemoveKeepsOrder(tail, cb, rank);
      if callbacks[0] != cb {
        PrependKeepsOrder(callbacks, Remove(tail, cb), rank);
      }
    }
  }

  lemma PrependKeepsOrder(callbacks: seq<Callback>, rest: seq<Callback>, rank: Callback -> int)
    requires callbacks != [] && Increasing(callbacks, rank) && Increasing(rest, rank)
    requires forall x :: x in rest ==> x in callbacks[1..]
    ensures Increasing([callbacks[0]] + rest, rank)
  {
    forall q | 0 <= q < |rest| ensures rank(callbacks[0]) < rank(rest[q]) {
      assert rest[q] in callbacks[1..];
    }
  }

  /** The callbacks of one channel after one more call. */
  function AfterCall(before: seq<Callback>, c: Channel, e: Event): seq<Callback> {
    if e.SubscribeCall? && e.channel == c then Insert(before, e.callback)
    else if e.UnsubscribeCall? && e.channel == c then Remove(before, e.callback)
    else before
  }

  lemma UnsubscribesInOrder(events: seq<Event>, c: Channel, before: seq<Callback>)
    requires events != [] && InOrderOfCalls(events[..|events| - 1], c, before)
    requires events[|events| - 1].UnsubscribeCall? && events[|events| - 1].channel == c
    ensures InOrderOfCalls(events, c, Remove(before, events[|events| - 1].callback))
  {
    var front := events[..|events| - 1];
    var cb := events[|events| - 1].callback;
    RemoveKeepsOrder(before, cb, SinceIn(front, c));
    SameOrder(Remove(before, cb), SinceIn(front, c), SinceIn(events, c));
  }

  lemma SubscribesInOrder(events: seq<Event>, c: Channel, before: seq<Callback>)
    requires events != [] && InOrderOfCalls(events[..|events| - 1], c, before)
    requires events[|events| - 1].SubscribeCall? && events[|events| - 1].channel == c
    ensures InOrderOfCalls(events, c, Insert(before, events[|events| - 1].callback))
  {
    var cb := events[|events| - 1].callback;
    SameOrder(before, SinceIn(events[..|events| - 1], c), SinceIn(events, c));
    if cb !in before {
      forall x | x in before ensures SinceIn(events, c)(x) < SinceIn(events, c)(cb) {
        assert Since(events, c, x) == Since(events[..|events| - 1], c, x);
      }
      hide Since;
      AppendKeepsOrder(before, cb, SinceIn(events, c));
    }
  }

  lemma AppendKeepsOrder(callbacks: seq<Callback>, cb: Callback, rank: Callback -> int)
    requires Increasing(callbacks, rank)
    requires forall x :: x in callbacks ==> rank(x) < rank(cb)
    ensures Increasing(callbacks + [cb], rank)
  {
  }

  lemma CallsInOrder(events: seq<Event>, c: Channel, before: seq<Callback>)
    requires events != [] && InOrderOfCalls(events[..|events| - 1], c, before)
    ensures InOrderOfCalls(events, c, AfterCall(before, c, events[|events| - 1]))
  {
    var last := events[|events| - 1];
    if last.UnsubscribeCall? && last.channel == c {
      hide InOrderOfCalls;
      UnsubscribesInOrder(events, c, before);
    } else if last.SubscribeCall? && last.channel == c {
      hide InOrderOfCalls;
      SubscribesInOrder(events, c, before);
    } else {
      SameOrder(before, SinceIn(events[..|events| - 1], c), SinceIn(events, c));
    }
  }

  lemma SameOrder(callbacks: seq<Callback>, rank: Callback -> int, rank': Callback -> int)
    requires Increasing(callbacks, rank)
    requires forall x :: x in callbacks ==> rank(x) == rank'(x)
    ensures Increasing(callbacks, rank')
  {
  }

  lemma {:induction false} RegistryInOrder(events: seq<Event>, c: Channel)
    ensures InOrderOfCalls(events, c, Dispatch(RegistryAfter(events), c))
  {
    if events != [] {
      hide InOrderOfCalls, Insert, Remove;
      RegistryInOrder(events[..|events| - 1], c);
      var before := Dispatch(RegistryAfter(events[..|events| - 1]), c);
      CallsInOrder(events, c, before);
      assert Dispatch(RegistryAfter(events), c) == AfterCall(before, c, events[|events| - 1]);
    } else {
      assert Dispatch(RegistryAfter(events), c) == [];
    }
  }

  ghost predicate HeardInOrder(events: seq<Event>, c: Channel, heard: seq<Callback>) {
    forall p, q, m, n :: 0 <= p < q < |heard| && HearsSince(events, c, heard[p], m) && HearsSince(events, c, heard[q], n) ==> m < n
  }

  lemma RegistryIsHeard(events: seq<Event>, c: Channel)
    ensures forall cb :: cb in Dispatch(RegistryAfter(events), c) <==> Hears(events, c, cb)
    ensures HeardInOrder(events, c, Dispatch(RegistryAfter(events), c))
  {
    RegistryInOrder(events, c);
    var heard := Dispatch(RegistryAfter(events), c);
    forall cb ensures cb in heard <==> Hears(events, c, cb) {
      SinceIsFirst(events, c, cb);
    }
    forall p, q, m, n | 0 <= p < q < |heard| && HearsSince(events, c, heard[p], m) && HearsSince(events, c, heard[q], n)
      ensures m < n
    {
      SinceIsFirst(events, c, heard[p]);
      SinceIsFirst(events, c, heard[q]);
      assert m == Since(events, c, heard[p]) && n == Since(events, c, heard[q]);
    }
  }

  // ----- the messengers -----

  /** Hands a message to the callbacks as they were when it came.  `fails` says which of them throw or
      reject: every one is called all the same, once and in order, and each failure is one warning. */
  method DispatchToCallbacks(callbacks: seq<Callback>, fails: Callback -> bool)
    returns (called: seq<Callback>, warnings: seq<Callback>)
    ensures called == callbacks
    ensures forall cb :: cb in warnings <==> cb in callbacks && fails(cb)
    ensures |warnings| <= |called|
  {
    called, warnings := [], [];
    for i := 0 to |callbacks|
      invariant called == callbacks[..i]
      invariant forall cb :: cb in warnings <==> cb in callbacks[..i] && fails(cb)
      invariant |warnings| <= i
    {
      assert callbacks[..i + 1] == callbacks[..i] + [callbacks[i]];
      called := called + [callbacks[i]];
      if fails(callbacks[i]) {
        warnings := warnings + [callbacks[i]];
      }
    }
    assert callbacks[..|callbacks|] == callbacks;
  }

  class MessengerMemory {
    var handlers: Registry
    ghost var calls: seq<Event>

    ghost predicate Valid()
      reads this
    {
      handlers == RegistryAfter(calls)
    }

    constructor ()
      ensures Valid() && calls == []
    {
      handlers := map[];
      calls := [];
    }

    /** Whichever of them fail, the callbacks called are those subscribed to the channel and not
        unsubscribed since, once each, in the order of the calls that made them hear. */
    method Publish(c: Channel, fails: Callback -> bool) returns (called: seq<Callback>, warnings: seq<Callback>)
      requires Valid()
      ensures forall cb :: cb in called <==> Hears(calls, c, cb)
      ensures HeardInOrder(calls, c, called)
      ensures forall cb :: cb in warnings <==> cb in called && fails(cb)
    {
      RegistryIsHeard(calls, c);
      if c !in handlers {
        return [], [];
      }
      called, warnings := DispatchToCallbacks(handlers[c], fails);
    }

    method Subscribe(c: Channel, cb: Callback)
      requires Valid()
      modifies this
      ensures Valid() && calls == old(calls) + [SubscribeCall(c, cb)]
      ensures handlers == AddCallback(old(handlers), c, cb)
    {
      var callbacks := [];
      if c in handlers {
        callbacks := handlers[c];
      }
      if cb !in callbacks {
        callbacks := callbacks + [cb];
      }
      handlers := handlers[c := callbacks];
      calls := calls + [SubscribeCall(c, cb)];
      assert calls[..|calls| - 1] == old(calls);
    }

    method Unsubscribe(c: Channel, cb: Callback)
      requires Valid()
      modifies this
      ensures Valid() && calls == old(calls) + [UnsubscribeCall(c, cb)]
      ensures handlers == RemoveCallback(old(handlers), c, cb)
    {
      calls := calls + [UnsubscribeCall(c, cb)];
      assert calls[..|calls| - 1] == old(calls);
      if c !in handlers {
        return;
      }
      var callbacks := Remove(handlers[c], cb);
      if |callbacks| == 0 {
        handlers := handlers - {c};
      } else {
        handlers := handlers[c := callbacks];
      }
    }
  }

  class MessengerRedis {
    var failed: bool
    var desired: Registry
    var order: seq<Channel>
    var acked: set<Channel>
    var pendingUnsub: seq<Channel>
    var subGeneration: nat
    var pubGeneration: nat
    var subReady: bool
    var pubReady: bool
    var pubHealthy: bool
    var status: Status
    var sawFailure: bool
    var degraded: bool
    var recoveryTimer: bool
    var recoveryAttempt: nat
    var recovering: bool
    var destroyed: bool
    var commands: seq<Command>
    var frame: Frame
    var log: seq<Notice>

    ghost function View(): State
      reads this
    {
      State(failed, desired, order, acked, pendingUnsub, subGeneration, pubGeneration, subReady, pubReady,
            pubHealthy, status, sawFailure, degraded, recoveryTimer, recoveryAttempt, recovering, destroyed,
            commands, frame, log)
    }

    /** What every turn keeps, in every interleaving: beliefs are fenced by generations, one recovery runs
        at a time, the status says how things stand, and nothing that has to be done is left unarmed. */
    ghost predicate Valid()
      reads this
    {
      Inv(View())
    }

    /** `invalid` is the outcome of building the two clients. */
    constructor (invalid: bool)
      ensures Valid() && View() == Fresh(invalid)
    {
      failed := invalid;
      desired, order, acked, pendingUnsub := map[], [], {}, [];
      subGeneration, pubGeneration := 0, 0;
      subReady, pubReady, pubHealthy := false, false, false;
      status := Unavailable;
      sawFailure, degraded := false, false;
      recoveryTimer, recoveryAttempt, recovering := false, 0, false;
      destroyed := false;
      commands, frame, log := [], Idle, [];
    }

    // ----- public calls -----

    method Publish()
      requires Valid()
      modifies this
      ensures Valid()
      ensures View() == MessengerState.Publish(old(View()))
      ensures commands == old(commands) + (if old(failed) then []
                                           else [Command(Publishing, old(pubGeneration), old(pubReady), InFlight)])
    {
      hide Inv;
      if !failed {
        var _ := Send(Publishing);
      }
      assert View() == MessengerState.Publish(old(View()));
      hide *;
      PublishKeeps(old(View()));
    }

    method Subscribe(full: Channel, callback: Callback)
      requires Valid()
      modifies this
      ensures Valid()
      ensures View() == MessengerState.Subscribe(old(View()), full, callback)
    {
      hide MessengerState.UpdateStatus, Issue, Inv, SameRegistry;
      if !failed {
        if full in desired {
          desired := desired[full := Insert(desired[full], callback)];
        } else {
          AddChannel(full, callback);
          if subReady {
            var _ := Send(Subscribing(full));
          }
        }
        UpdateStatus();
      }
      assert View() == MessengerState.Subscribe(old(View()), full, callback);
      hide *;
      SubscribeKeeps(old(View()), full, callback);
    }

    method AddChannel(full: Channel, callback: Callback)
      requires full !in desired
      modifies this
      ensures View() == MessengerState.AddChannel(old(View()), full, callback)
    {
      assert Insert([], callback) == [callback];
      hide Remove, Insert, MessengerState.Forget;
      desired := desired[full := [callback]];
      order := order + [full];
      Forget(full);
    }

    method Forget(full: Channel)
      modifies this
      ensures View() == MessengerState.Forget(old(View()), full)
    {
      hide Remove;
      pendingUnsub := Remove(pendingUnsub, full);
      acked := acked - {full};
    }

    method Unsubscribe(full: Channel, callback: Callback)
      requires Valid()
      modifies this
      ensures Valid()
      ensures View() == MessengerState.Unsubscribe(old(View()), full, callback)
    {
      hide MessengerState.UpdateStatus, Issue, Inv, SameRegistry;
      if !failed && full in desired {
        var callbacks := Remove(desired[full], callback);
        if |callbacks| != 0 {
          desired := desired[full := callbacks];
        } else {
          DropChannel(full);
          if subReady {
            var _ := Send(Unsubscribing(full));
          }
          UpdateStatus();
        }
      }
      assert View() == MessengerState.Unsubscribe(old(View()), full, callback);
      hide *;
      UnsubscribeKeeps(old(View()), full, callback);
    }

    method DropChannel(full: Channel)
      modifies this`desired, this`order, this`frame, this`acked
      ensures View() == MessengerState.DropChannel(old(View()), full)
    {
      hide Remove, IndexOf;
      desired := desired - {full};
      frame := if frame.AwaitSubscribe? && IndexOf(order, full) < frame.next then frame.(next := frame.next - 1) else frame;
      order := Remove(order, full);
      acked := acked - {full};
    }

    /** A message from Redis. */
    method OnMessage(full: Channel, fails: Callback -> bool) returns (called: seq<Callback>, warnings: seq<Callback>)
      ensures called == Dispatch(desired, full)
      ensures forall cb :: cb in warnings <==> cb in called && fails(cb)
    {
      called, warnings := DispatchToCallbacks(if full in desired then desired[full] else [], fails);
    }

    method GetStatus() returns (s: Status)
      ensures s == View().status
    {
      s := status;
    }

    method Destroy()
      requires Valid()
      modifies this
      ensures Valid()
      ensures View() == MessengerState.Destroy(old(View()))
    {
      hide Inv, SameRegistry;
      destroyed := true;
      if !failed {
        pubGeneration := pubGeneration + 1;
        subGeneration := subGeneration + 1;
        ClearRecoveryTimer();
      }
      assert View() == MessengerState.Destroy(old(View()));
      hide *;
      DestroyKeeps(old(View()));
    }

    // ----- connection events -----

    method OnError()
      requires Valid() && Enabled(View(), ErrorEvent)
      modifies this
      ensures Valid()
      ensures View() == MessengerState.OnError(old(View()))
    {
      hide MessengerState.UpdateStatus, Inv, SameRegistry;
      sawFailure := true;
      UpdateStatus();
      assert View() == Step(old(View()), ErrorEvent);
      hide *;
      StepKeeps(old(View()), ErrorEvent);
    }

    method OnReady(kind: Kind)
      requires Valid() && Enabled(View(), ReadyEvent(kind))
      modifies this
      ensures Valid()
      ensures View() == MessengerState.OnReady(old(View()), kind)
    {
      hide MessengerState.AttemptRecovery, Inv, SameRegistry;
      if kind == Pub {
        pubReady := true;
      } else {
        subReady := true;
      }
      recoveryAttempt := 0;
      ClearRecoveryTimer();
      AttemptRecovery();
      assert View() == MessengerState.OnReady(old(View()), kind);
      hide *;
      ReadyKeeps(old(View()), kind);
    }

    method OnDown(kind: Kind)
      requires Valid() && Enabled(View(), DownEvent(kind))
      modifies this
      ensures Valid()
      ensures View() == MessengerState.OnDown(old(View()), kind)
    {
      hide MessengerState.UpdateStatus, MessengerState.DropConnection, Inv, SameRegistry;
      sawFailure := true;
      if kind == Pub {
        if pubReady {
          DropConnection(Pub);
        }
      } else if subReady {
        DropConnection(Sub);
      }
      UpdateStatus();
      assert View() == MessengerState.OnDown(old(View()), kind);
      hide *;
      DownKeeps(old(View()), kind);
    }

    method DropConnection(kind: Kind)
      modifies this
      ensures View() == MessengerState.DropConnection(old(View()), kind)
    {
      if kind == Pub {
        DropPublisher();
      } else {
        DropSubscriber();
      }
    }

    method DropPublisher()
      modifies this`pubGeneration, this`pubReady, this`pubHealthy
      ensures pubGeneration == old(pubGeneration) + 1 && !pubReady && !pubHealthy
    {
      pubGeneration := pubGeneration + 1;
      pubReady := false;
      pubHealthy := false;
    }

    method DropSubscriber()
      modifies this`subGeneration, this`subReady, this`acked
      ensures subGeneration == old(subGeneration) + 1 && !subReady && acked == {}
    {
      subGeneration := subGeneration + 1;
      subReady := false;
      acked := {};
    }

    method TimerFires()
      requires Valid() && Enabled(View(), TimerEvent)
      modifies this
      ensures Valid()
      ensures View() == MessengerState.TimerFires(old(View()))
    {
      hide MessengerState.AttemptRecovery, Inv, SameRegistry;
      recoveryTimer := false;
      AttemptRecovery();
      assert View() == Step(old(View()), TimerEvent);
      hide *;
      StepKeeps(old(View()), TimerEvent);
    }

    // ----- commands -----

    method Send(purpose: Purpose) returns (id: nat)
      modifies this
      ensures id == old(|commands|) && View() == Issue(old(View()), purpose)
    {
      id := |commands|;
      var publishing := purpose.Connection() == Pub;
      commands := commands + [Command(purpose, if publishing then pubGeneration else subGeneration,
                                      if publishing then pubReady else subReady, InFlight)];
    }

    method Reply(id: nat, ok: bool)
      requires Valid() && Enabled(View(), ReplyEvent(id, ok))
      modifies this
      ensures Valid()
      ensures View() == MessengerState.Reply(old(View()), id, ok)
    {
      hide Inv;
      commands := commands[id := commands[id].(phase := Settled(ok))];
      assert View() == MessengerState.Reply(old(View()), id, ok);
      hide *;
      ReplyKeeps(old(View()), id, ok);
    }

    method Deadline(id: nat)
      requires Valid() && Enabled(View(), DeadlineEvent(id))
      modifies this
      ensures Valid()
      ensures View() == MessengerState.Deadline(old(View()), id)
    {
      hide MessengerState.Recycle, Inv, SameRegistry;
      var command := commands[id];
      Reply(id, false);
      Recycle(command.purpose.Connection(), command.generation);
      assert View() == MessengerState.Deadline(old(View()), id);
      hide *;
      DeadlineKeeps(old(View()), id);
    }

    method Recycle(kind: Kind, generation: nat)
      modifies this
      ensures View() == MessengerState.Recycle(old(View()), kind, generation)
    {
      hide MessengerState.UpdateStatus, MessengerState.DropConnection;
      if destroyed || generation != (if kind == Pub then pubGeneration else subGeneration) {
        return;
      }
      sawFailure := true;
      DropConnection(kind);
      UpdateStatus();
    }

    method Consume(id: nat)
      requires id < |commands| && commands[id].phase.Settled?
      modifies this
      ensures View() == MessengerState.Consume(old(View()), id)
    {
      commands := commands[id := commands[id].(phase := Consumed(commands[id].phase.ok))];
    }

    method Resume(id: nat)
      requires Valid() && Enabled(View(), ResumeEvent(id))
      modifies this
      ensures Valid()
      ensures View() == MessengerState.Resume(old(View()), id)
    {
      hide MessengerState.PublishSettled, MessengerState.SubscribeSettled, MessengerState.UnsubscribeSettled, Inv, SameRegistry;
      var command := commands[id];
      Consume(id);
      match command.purpose {
        case Publishing => PublishSettled(command.generation, command.phase.ok);
        case Subscribing(full) => SubscribeSettled(full, command.generation, command.phase.ok);
        case Unsubscribing(full) => UnsubscribeSettled(full, command.generation, command.phase.ok);
        case _ =>
      }
      assert View() == MessengerState.Resume(old(View()), id);
      hide *;
      ResumeKeeps(old(View()), id);
    }

    method PublishSettled(generation: nat, ok: bool)
      modifies this
      ensures View() == MessengerState.PublishSettled(old(View()), generation, ok)
    {
      hide MessengerState.UpdateStatus;
      if !ok {
        sawFailure := true;
        pubHealthy := false;
        UpdateStatus();
      } else if generation == pubGeneration {
        pubHealthy := true;
        UpdateStatus();
      }
    }

    method SubscribeSettled(full: Channel, generation: nat, ok: bool)
      modifies this
      ensures View() == MessengerState.SubscribeSettled(old(View()), full, generation, ok)
    {
      hide MessengerState.UpdateStatus;
      if generation == subGeneration {
        if !ok {
          sawFailure := true;
          UpdateStatus();
        } else if full in desired {
          acked := acked + {full};
          UpdateStatus();
        }
      }
    }

    method UnsubscribeSettled(full: Channel, generation: nat, ok: bool)
      modifies this
      ensures View() == MessengerState.UnsubscribeSettled(old(View()), full, generation, ok)
    {
      hide MessengerState.UpdateStatus;
      if !ok && generation == subGeneration {
        sawFailure := true;
        pendingUnsub := Insert(pendingUnsub, full);
        UpdateStatus();
      }
    }

    // ----- recovery -----

    method AttemptRecovery()
      modifies this
      ensures View() == MessengerState.AttemptRecovery(old(View()))
    {
      hide RetryUnsubscribes, MessengerState.ProbeOrFinish;
      if destroyed || recovering {
        return;
      }
      recovering := true;
      if subReady {
        ReconcileUnsubscribes(pendingUnsub);
      } else {
        ProbeOrFinish();
      }
    }

    method ReconcileUnsubscribes(snapshot: seq<Channel>)
      modifies this
      ensures View() == RetryUnsubscribes(old(View()), snapshot)
    {
      hide RetryUnsubscribes, RetrySubscribes;
      var i := 0;
      assert snapshot[0..] == snapshot;
      while i < |snapshot|
        invariant i <= |snapshot|
        invariant RetryUnsubscribes(View(), snapshot[i..]) == RetryUnsubscribes(old(View()), snapshot)
      {
        var full := snapshot[i];
        RetryUnsubscribesUnfolds(View(), snapshot[i..]);
        assert snapshot[i..][1..] == snapshot[i + 1..];
        if full in desired {
          pendingUnsub := Remove(pendingUnsub, full);
          i := i + 1;
          continue;
        }
        var id := Send(RetryUnsubscribe(full));
        frame := AwaitUnsubscribe(id, full, snapshot[i + 1..]);
        return;
      }
      RetryUnsubscribesUnfolds(View(), snapshot[i..]);
      ReconcileSubscribes(0);
    }

    method ReconcileSubscribes(from: nat)
      modifies this
      ensures View() == RetrySubscribes(old(View()), from)
    {
      var next := from;
      while next < |order|
        invariant View() == old(View())
        invariant RetrySubscribes(View(), next) == RetrySubscribes(old(View()), from)
      {
        var full := order[next];
        next := next + 1;
        if full in acked {
          continue;
        }
        var id := Send(RetrySubscribe(full));
        frame := AwaitSubscribe(id, full, next);
        return;
      }
      frame := AfterReconcile;
    }

    method ProbeOrFinish()
      modifies this
      ensures View() == MessengerState.ProbeOrFinish(old(View()))
    {
      if pubReady && !pubHealthy {
        var id := Send(Probing);
        frame := AwaitProbe(id);
      } else {
        FinishRecovery();
      }
    }

    method FinishRecovery()
      modifies this
      ensures View() == MessengerState.FinishRecovery(old(View()))
    {
      hide MessengerState.UpdateStatus;
      recovering := false;
      frame := Idle;
      UpdateStatus();
    }

    method ResumeRecovery()
      requires Valid() && Enabled(View(), RecoveryEvent)
      modifies this
      ensures Valid()
      ensures View() == MessengerState.ResumeRecovery(old(View()))
    {
      hide MessengerState.UnsubscribeAnswered, MessengerState.SubscribeAnswered, MessengerState.ProbeAnswered,
        MessengerState.ProbeOrFinish, MessengerState.FinishRecovery, Inv, SameRegistry;
      match frame {
        case AwaitUnsubscribe(id, full, rest) =>
          Consume(id);
          UnsubscribeAnswered(full, rest, commands[id].phase.ok);
        case AwaitSubscribe(id, full, next) =>
          Consume(id);
          SubscribeAnswered(full, next, commands[id].generation, commands[id].phase.ok);
        case AfterReconcile =>
          ProbeOrFinish();
        case AwaitProbe(id) =>
          Consume(id);
          ProbeAnswered(commands[id].generation, commands[id].phase.ok);
        case AfterProbe =>
          FinishRecovery();
        case Throwing =>
          sawFailure := true;
          FinishRecovery();
      }
      assert View() == MessengerState.ResumeRecovery(old(View()));
      hide *;
      RecoveryResumes(old(View()));
    }

    method UnsubscribeAnswered(full: Channel, rest: seq<Channel>, ok: bool)
      modifies this
      ensures View() == MessengerState.UnsubscribeAnswered(old(View()), full, rest, ok)
    {
      hide RetryUnsubscribes;
      if ok {
        pendingUnsub := Remove(pendingUnsub, full);
        ReconcileUnsubscribes(rest);
      } else {
        frame := Throwing;
      }
    }

    method SubscribeAnswered(full: Channel, next: nat, generation: nat, ok: bool)
      modifies this
      ensures View() == MessengerState.SubscribeAnswered(old(View()), full, next, generation, ok)
    {
      hide RetrySubscribes;
      if ok {
        if generation == subGeneration {
          acked := acked + {full};
        }
        ReconcileSubscribes(next);
      } else {
        frame := Throwing;
      }
    }

    method ProbeAnswered(generation: nat, ok: bool)
      modifies this
      ensures View() == MessengerState.ProbeAnswered(old(View()), generation, ok)
    {
      if ok {
        if generation == pubGeneration {
          pubHealthy := true;
        }
        frame := AfterProbe;
      } else {
        frame := Throwing;
      }
    }

    // ----- status -----

    method UpdateStatus()
      modifies this
      ensures View() == MessengerState.UpdateStatus(old(View()))
    {
      hide MessengerState.MarkAvailable, MessengerState.MarkUnavailable, MessengerState.ScheduleRecovery;
      if destroyed {
        return;
      }
      var subscriberHealthy := subReady && pendingUnsub == [] && AllAcked(desired, acked);
      var publisherHealthy := pubReady && pubHealthy;
      if subscriberHealthy && publisherHealthy {
        MarkAvailable();
        return;
      }
      var subNeedsWork := subReady && !subscriberHealthy;
      var pubNeedsWork := pubReady && !publisherHealthy;
      MarkUnavailable();
      if subNeedsWork || pubNeedsWork {
        ScheduleRecovery();
      }
    }

    method MarkAvailable()
      modifies this
      ensures View() == MessengerState.MarkAvailable(old(View()))
    {
      ReportRecovery();
      status := Available;
      sawFailure := false;
      recoveryAttempt := 0;
      ClearRecoveryTimer();
    }

    method ReportRecovery()
      modifies this
      ensures View() == old(View()).(log := if old(degraded) then old(log) + [InfoRecovered] else old(log),
                                     degraded := false)
    {
      if degraded {
        degraded := false;
        log := log + [InfoRecovered];
      }
    }

    method ClearRecoveryTimer()
      modifies this
      ensures View() == MessengerState.ClearRecoveryTimer(old(View()))
    {
      recoveryTimer := false;
    }

    method MarkUnavailable()
      modifies this
      ensures View() == MessengerState.MarkUnavailable(old(View()))
    {
      status := Unavailable;
      if sawFailure && !degraded {
        degraded := true;
        log := log + [WarnUnavailable];
      }
    }

    method ScheduleRecovery()
      modifies this
      ensures View() == MessengerState.ScheduleRecovery(old(View()))
    {
      if recoveryTimer || recovering || destroyed {
        return;
      }
      recoveryAttempt := recoveryAttempt + 1;
      recoveryTimer := true;
    }
  }

  // ----- after any run -----

  lemma StepRegistry(s: State, e: Event)
    requires Enabled(s, e) && !s.failed
    ensures !Step(s, e).failed
    ensures Step(s, e).desired ==
            match e
            case SubscribeCall(c, cb) => AddCallback(s.desired, c, cb)
            case UnsubscribeCall(c, cb) => RemoveCallback(s.desired, c, cb)
            case _ => s.desired
  {
    hide Publish, Destroy, Subscribe, Unsubscribe, OnError, OnReady, OnDown, TimerFires, Reply, Deadline, Resume, ResumeRecovery;
  }

  /** Outages, generations and recoveries never change who hears a message: after any run the Redis messenger
      holds the registry that the subscribes and unsubscribes alone would have built. */
  lemma {:induction false} DispatchesLikeMemory(run: seq<State>, events: seq<Event>, i: nat)
    requires IsRun(run, events) && i < |run| && !run[0].failed
    ensures !run[i].failed && run[i].desired == RegistryAfter(events[..i])
  {
    if i > 0 {
      DispatchesLikeMemory(run, events, i - 1);
      StepRegistry(run[i - 1], events[i - 1]);
      assert events[..i][..i - 1] == events[..i - 1];
    }
  }

  /** Who hears a message after any run, in the terms of the callers alone: exactly the callbacks that were
      subscribed and not unsubscribed since, each once, in the order of the calls that made them hear. */
  lemma WhoHears(run: seq<State>, events: seq<Event>, i: nat, c: Channel)
    requires IsRun(run, events) && i < |run| && !run[0].failed
    ensures forall cb :: cb in Dispatch(run[i].desired, c) <==> Hears(events[..i], c, cb)
    ensures HeardInOrder(events[..i], c, Dispatch(run[i].desired, c))
  {
    DispatchesLikeMemory(run, events, i);
    RegistryIsHeard(events[..i], c);
  }
}
