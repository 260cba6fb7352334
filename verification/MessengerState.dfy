/**
 The Redis messenger as a state machine.  One value of `State` is everything the
 messenger keeps between two turns of the event loop: the fields of the object,
 the commands whose promises have not been consumed yet, and the suspended frame
 of `attemptRecovery`.  Every function below is one atomic turn: a public call, a
 connection event, a timer, a settled promise, or a continuation after an `await`.
 */
module MessengerState {

  /** The full name of a Redis channel, namespace included. */
  datatype Channel = Channel(name: string)
  /** A callback, known by its identity alone. */
  datatype Callback = Callback(identity: int)

  datatype Kind = Pub | Sub
  datatype Status = Available | Unavailable

  /** What the process log says about the connection. */
  datatype Notice = WarnUnavailable | InfoRecovered

  /** Why a command was sent.  The last three are awaited by the recovery itself. */
  datatype Purpose =
    | Publishing
    | Subscribing(channel: Channel)
    | Unsubscribing(channel: Channel)
    | RetryUnsubscribe(channel: Channel)
    | RetrySubscribe(channel: Channel)
    | Probing
  {
    function Connection(): Kind {
      if Publishing? || Probing? then Pub else Sub
    }

    predicate Subscribes(c: Channel) {
      (Subscribing? && channel == c) || (RetrySubscribe? && channel == c)
    }

    predicate OfRecovery() {
      RetryUnsubscribe? || RetrySubscribe? || Probing?
    }
  }

  /** A promise: pending, settled but its continuation has not run, or consumed. */
  datatype Phase = InFlight | Settled(ok: bool) | Consumed(ok: bool)

  /** `live` records that the connection was ready when the command was sent; with the
      offline queue disabled only such a command can succeed. */
  datatype Command = Command(purpose: Purpose, generation: nat, live: bool, phase: Phase)
  {
    predicate Succeeded() {
      phase == Settled(true) || phase == Consumed(true)
    }
  }

  /** Where `attemptRecovery` is suspended. */
  datatype Frame =
    | Idle
    | AwaitUnsubscribe(id: nat, channel: Channel, rest: seq<Channel>)
    | AwaitSubscribe(id: nat, channel: Channel, next: nat)
    | AfterReconcile
    | AwaitProbe(id: nat)
    | AfterProbe
    | Throwing

  /** The callbacks of each channel, JavaScript Sets in insertion order; `MessengerMemory` keeps
      nothing else. */
  type Registry = map<Channel, seq<Callback>>

  datatype State = State(
    failed: bool,
    desired: Registry,
    order: seq<Channel>,            // the insertion order of the keys of `desired`
    acked: set<Channel>,
    pendingUnsub: seq<Channel>,     // a JavaScript Set, in insertion order
    subGeneration: nat,
    pubGeneration: nat,
    subReady: bool,
    pubReady: bool,
    pubHealthy: bool,
    status: Status,
    sawFailure: bool,
    degraded: bool,
    timer: bool,
    recoveryAttempt: nat,
    recovering: bool,
    destroyed: bool,
    commands: seq<Command>,
    frame: Frame,
    log: seq<Notice>)
  {
    function Generation(kind: Kind): nat {
      if kind == Pub then pubGeneration else subGeneration
    }

    predicate Ready(kind: Kind) {
      if kind == Pub then pubReady else subReady
    }

    predicate SubscriberHealthy() {
      subReady && pendingUnsub == [] && AllAcked(desired, acked)
    }

    predicate PublisherHealthy() {
      pubReady && pubHealthy
    }

    predicate Healthy() {
      SubscriberHealthy() && PublisherHealthy()
    }

    /** A ready connection that is not in the shape it should be in. */
    predicate NeedsWork() {
      (subReady && !SubscriberHealthy()) || (pubReady && !PublisherHealthy())
    }

    /** Before `destroy`, and constructed with a valid configuration. */
    predicate Live() {
      !destroyed && !failed
    }
  }

  predicate AllAcked(desired: Registry, acked: set<Channel>) {
    forall c :: c in desired ==> c in acked
  }

  function Fresh(failed: bool): State {
    State(failed, map[], [], {}, [], 0, 0, false, false, false, Unavailable, false, false,
          false, 0, false, false, [], Idle, [])
  }

  // ----- ordered sets -----

  function Remove<T(==,!new)>(s: seq<T>, c: T): (r: seq<T>)
    ensures forall x :: x in r <==> x in s && x != c
    ensures |r| <= |s|
  {
    if s == [] then []
    else if s[0] == c then Remove(s[1..], c)
    else [s[0]] + Remove(s[1..], c)
  }

  function Insert<T(==,!new)>(s: seq<T>, c: T): (r: seq<T>)
    ensures forall x :: x in r <==> x in s || x == c
  {
    if c in s then s else s + [c]
  }

  /** The position of `c` among the keys, which is where a live iterator sees it leave. */
  function IndexOf(s: seq<Channel>, c: Channel): (i: nat)
    ensures i <= |s|
    ensures i < |s| ==> s[i] == c
    ensures c in s ==> i < |s|
    ensures c !in s[..i]
  {
    if s == [] || s[0] == c then 0 else 1 + IndexOf(s[1..], c)
  }

  // ----- the callback registry -----

  function AddCallback(r: Registry, c: Channel, cb: Callback): Registry {
    r[c := Insert(Dispatch(r, c), cb)]
  }

  function RemoveCallback(r: Registry, c: Channel, cb: Callback): Registry {
    var left := Remove(Dispatch(r, c), cb);
    if c !in r then r else if left == [] then r - {c} else r[c := left]
  }

  /** The callbacks a message on `c` is handed to, in order. */
  function Dispatch(r: Registry, c: Channel): seq<Callback> {
    if c in r then r[c] else []
  }

  /** The turn changed nothing about who is registered. */
  predicate SameRegistry(s: State, t: State) {
    t.desired == s.desired && t.failed == s.failed
  }

  // ----- status and timer -----

  function ClearRecoveryTimer(s: State): (t: State)
    ensures SameRegistry(s, t)
  {
    s.(timer := false)
  }

  function ScheduleRecovery(s: State): (t: State)
    ensures SameRegistry(s, t)
  {
    if s.timer || s.recovering || s.destroyed then s
    else s.(recoveryAttempt := s.recoveryAttempt + 1, timer := true)
  }

  function MarkAvailable(s: State): (t: State)
    ensures SameRegistry(s, t)
  {
    s.(status := Available,
       log := if s.degraded then s.log + [InfoRecovered] else s.log,
       degraded := false,
       sawFailure := false,
       recoveryAttempt := 0,
       timer := false)
  }

  function MarkUnavailable(s: State): (t: State)
    ensures SameRegistry(s, t)
  {
    s.(status := Unavailable,
       log := if s.sawFailure && !s.degraded then s.log + [WarnUnavailable] else s.log,
       degraded := s.degraded || s.sawFailure)
  }

  function UpdateStatus(s: State): (t: State)
    ensures SameRegistry(s, t)
  {
    if s.destroyed then s
    else if s.Healthy() then MarkAvailable(s)
    else if s.NeedsWork() then ScheduleRecovery(MarkUnavailable(s))
    else MarkUnavailable(s)
  }

  // ----- commands -----

  function Issue(s: State, purpose: Purpose): (t: State)
    ensures SameRegistry(s, t)
  {
    var kind := purpose.Connection();
    s.(commands := s.commands + [Command(purpose, s.Generation(kind), s.Ready(kind), InFlight)])
  }

  function SetPhase(s: State, id: nat, phase: Phase): (t: State)
    requires id < |s.commands|
    ensures SameRegistry(s, t)
  {
    s.(commands := s.commands[id := s.commands[id].(phase := phase)])
  }

  /** The connection is gone, and with it everything believed about it. */
  function DropConnection(s: State, kind: Kind): (t: State)
    ensures SameRegistry(s, t)
  {
    if kind == Pub
    then s.(pubGeneration := s.pubGeneration + 1, pubReady := false, pubHealthy := false)
    else s.(subGeneration := s.subGeneration + 1, subReady := false, acked := {})
  }

  /** A stalled command recycles the connection it was sent on, unless that is already gone. */
  function Recycle(s: State, kind: Kind, generation: nat): (t: State)
    ensures SameRegistry(s, t)
  {
    if s.destroyed || generation != s.Generation(kind) then s
    else UpdateStatus(DropConnection(s.(sawFailure := true), kind))
  }

  // ----- recovery -----

  function FinishRecovery(s: State): (t: State)
    ensures SameRegistry(s, t)
  {
    UpdateStatus(s.(recovering := false, frame := Idle))
  }

  function ProbeOrFinish(s: State): (t: State)
    ensures SameRegistry(s, t)
  {
    if s.pubReady && !s.pubHealthy
    then Issue(s, Probing).(frame := AwaitProbe(|s.commands|))
    else FinishRecovery(s)
  }

  /** The second loop of `reconcileSubscriber`, from position `next` of the live iteration. */
  function RetrySubscribes(s: State, next: nat): (t: State)
    ensures SameRegistry(s, t)
    decreases |s.order| - next
  {
    if next >= |s.order| then s.(frame := AfterReconcile)
    else if s.order[next] in s.acked then RetrySubscribes(s, next + 1)
    else Issue(s, RetrySubscribe(s.order[next])).(frame := AwaitSubscribe(|s.commands|, s.order[next], next + 1))
  }

  /** The first loop of `reconcileSubscriber`, over what is left of the snapshot. */
  function RetryUnsubscribes(s: State, rest: seq<Channel>): (t: State)
    ensures SameRegistry(s, t)
    decreases |rest|
  {
    if rest == [] then RetrySubscribes(s, 0)
    else if rest[0] in s.desired
    then RetryUnsubscribes(s.(pendingUnsub := Remove(s.pendingUnsub, rest[0])), rest[1..])
    else Issue(s, RetryUnsubscribe(rest[0])).(frame := AwaitUnsubscribe(|s.commands|, rest[0], rest[1..]))
  }

  function AttemptRecovery(s: State): (t: State)
    ensures SameRegistry(s, t)
  {
    if s.destroyed || s.recovering then s
    else
      var running := s.(recovering := true);
      if s.subReady then RetryUnsubscribes(running, s.pendingUnsub) else ProbeOrFinish(running)
  }

  function UnsubscribeAnswered(s: State, channel: Channel, rest: seq<Channel>, ok: bool): (t: State)
    ensures SameRegistry(s, t)
  {
    if ok then RetryUnsubscribes(s.(pendingUnsub := Remove(s.pendingUnsub, channel)), rest)
    else s.(frame := Throwing)
  }

  function SubscribeAnswered(s: State, channel: Channel, next: nat, generation: nat, ok: bool): (t: State)
    ensures SameRegistry(s, t)
  {
    if !ok then s.(frame := Throwing)
    else if generation == s.subGeneration then RetrySubscribes(s.(acked := s.acked + {channel}), next)
    else RetrySubscribes(s, next)
  }

  function ProbeAnswered(s: State, generation: nat, ok: bool): (t: State)
    ensures SameRegistry(s, t)
  {
    if !ok then s.(frame := Throwing)
    else if generation == s.pubGeneration then s.(pubHealthy := true, frame := AfterProbe)
    else s.(frame := AfterProbe)
  }

  /** The recovery runs on after the promise or microtask it is suspended on. */
  function ResumeRecovery(s: State): (t: State)
    requires CanResumeRecovery(s)
    ensures SameRegistry(s, t)
  {
    hide UnsubscribeAnswered, SubscribeAnswered, ProbeAnswered, ProbeOrFinish, FinishRecovery, Consume;
    match s.frame
    case AwaitUnsubscribe(id, channel, rest) =>
      UnsubscribeAnswered(Consume(s, id), channel, rest, s.commands[id].phase.ok)
    case AwaitSubscribe(id, channel, next) =>
      SubscribeAnswered(Consume(s, id), channel, next, s.commands[id].generation, s.commands[id].phase.ok)
    case AfterReconcile => ProbeOrFinish(s)
    case AwaitProbe(id) => ProbeAnswered(Consume(s, id), s.commands[id].generation, s.commands[id].phase.ok)
    case AfterProbe => FinishRecovery(s)
    case Throwing => FinishRecovery(s.(sawFailure := true))
    case Idle => s
  }

  /** The continuation of a settled promise has run. */
  function Consume(s: State, id: nat): (t: State)
    requires id < |s.commands| && s.commands[id].phase.Settled?
    ensures SameRegistry(s, t)
  {
    SetPhase(s, id, Consumed(s.commands[id].phase.ok))
  }

  predicate CanResumeRecovery(s: State) {
    match s.frame
    case AwaitUnsubscribe(id, _, _) => id < |s.commands| && s.commands[id].phase.Settled?
    case AwaitSubscribe(id, _, _) => id < |s.commands| && s.commands[id].phase.Settled?
    case AwaitProbe(id) => id < |s.commands| && s.commands[id].phase.Settled?
    case Idle => false
    case _ => true
  }

  // ----- public calls -----

  function Publish(s: State): (t: State)
    ensures SameRegistry(s, t)
  {
    if s.failed then s else Issue(s, Publishing)
  }

  /** The first callback of a channel supersedes its pending removal and any old acknowledgement. */
  function AddChannel(s: State, c: Channel, cb: Callback): (t: State)
    ensures t.desired == AddCallback(s.desired, c, cb) && t.failed == s.failed
  {
    Forget(s.(desired := AddCallback(s.desired, c, cb), order := s.order + [c]), c)
  }

  function Forget(s: State, c: Channel): (t: State)
    ensures SameRegistry(s, t)
  {
    s.(pendingUnsub := Remove(s.pendingUnsub, c), acked := s.acked - {c})
  }

  function Subscribe(s: State, c: Channel, cb: Callback): (t: State)
    ensures t.failed == s.failed
    ensures !s.failed ==> t.desired == AddCallback(s.desired, c, cb)
  {
    hide UpdateStatus, Issue, AddChannel, AddCallback;
    if s.failed then s
    else if c in s.desired then UpdateStatus(s.(desired := AddCallback(s.desired, c, cb)))
    else
      var added := AddChannel(s, c, cb);
      UpdateStatus(if s.subReady then Issue(added, Subscribing(c)) else added)
  }

  /** The iterator of a suspended subscribe loop, once `c` has been deleted from the Map. */
  function ForgetInFrame(s: State, c: Channel): Frame {
    if s.frame.AwaitSubscribe? && IndexOf(s.order, c) < s.frame.next
    then s.frame.(next := s.frame.next - 1)
    else s.frame
  }

  function DropChannel(s: State, c: Channel): (t: State)
    ensures t.desired == s.desired - {c} && t.failed == s.failed
  {
    s.(desired := s.desired - {c},
       order := Remove(s.order, c),
       frame := ForgetInFrame(s, c),
       acked := s.acked - {c})
  }

  function Unsubscribe(s: State, c: Channel, cb: Callback): (t: State)
    ensures t.failed == s.failed
    ensures !s.failed ==> t.desired == RemoveCallback(s.desired, c, cb)
  {
    hide UpdateStatus, Issue, DropChannel, Remove;
    if s.failed || c !in s.desired then s
    else if Remove(s.desired[c], cb) != [] then s.(desired := RemoveCallback(s.desired, c, cb))
    else
      var dropped := DropChannel(s, c);
      UpdateStatus(if s.subReady then Issue(dropped, Unsubscribing(c)) else dropped)
  }

  function Destroy(s: State): (t: State)
    ensures SameRegistry(s, t)
  {
    if s.failed then s.(destroyed := true)
    else s.(destroyed := true, pubGeneration := s.pubGeneration + 1,
            subGeneration := s.subGeneration + 1, timer := false)
  }

  // ----- connection events, timers and settled promises -----

  function OnError(s: State): (t: State)
    ensures SameRegistry(s, t)
  {
    UpdateStatus(s.(sawFailure := true))
  }

  function OnReady(s: State, kind: Kind): (t: State)
    ensures SameRegistry(s, t)
  {
    var ready := if kind == Pub then s.(pubReady := true) else s.(subReady := true);
    AttemptRecovery(ready.(recoveryAttempt := 0, timer := false))
  }

  function OnDown(s: State, kind: Kind): (t: State)
    ensures SameRegistry(s, t)
  {
    var seen := s.(sawFailure := true);
    UpdateStatus(if s.Ready(kind) then DropConnection(seen, kind) else seen)
  }

  function TimerFires(s: State): (t: State)
    ensures SameRegistry(s, t)
  {
    AttemptRecovery(s.(timer := false))
  }

  function Reply(s: State, id: nat, ok: bool): (t: State)
    requires id < |s.commands|
    ensures SameRegistry(s, t)
  {
    SetPhase(s, id, Settled(ok))
  }

  function Deadline(s: State, id: nat): (t: State)
    requires id < |s.commands|
    ensures SameRegistry(s, t)
  {
    var c := s.commands[id];
    Recycle(SetPhase(s, id, Settled(false)), c.purpose.Connection(), c.generation)
  }

  /** The `then` callbacks attached by `publish`, `subscribe` and `unsubscribe`. */
  function PublishSettled(s: State, generation: nat, ok: bool): (t: State)
    ensures SameRegistry(s, t)
  {
    hide UpdateStatus;
    if !ok then UpdateStatus(s.(sawFailure := true, pubHealthy := false))
    else if generation == s.pubGeneration then UpdateStatus(s.(pubHealthy := true))
    else s
  }

  function SubscribeSettled(s: State, c: Channel, generation: nat, ok: bool): (t: State)
    ensures SameRegistry(s, t)
  {
    hide UpdateStatus;
    if generation != s.subGeneration || (ok && c !in s.desired) then s
    else
      var seen := if ok then s.(acked := s.acked + {c}) else s.(sawFailure := true);
      UpdateStatus(seen)
  }

  function UnsubscribeSettled(s: State, c: Channel, generation: nat, ok: bool): (t: State)
    ensures SameRegistry(s, t)
  {
    if !ok && generation == s.subGeneration
    then UpdateStatus(s.(sawFailure := true, pendingUnsub := Insert(s.pendingUnsub, c)))
    else s
  }

  function Resume(s: State, id: nat): (t: State)
    requires id < |s.commands| && s.commands[id].phase.Settled?
    ensures SameRegistry(s, t)
  {
    hide PublishSettled, SubscribeSettled, UnsubscribeSettled, Consume;
    var command := s.commands[id];
    var consumed := Consume(s, id);
    match command.purpose
    case Publishing => PublishSettled(consumed, command.generation, command.phase.ok)
    case Subscribing(c) => SubscribeSettled(consumed, c, command.generation, command.phase.ok)
    case Unsubscribing(c) => UnsubscribeSettled(consumed, c, command.generation, command.phase.ok)
    case _ => consumed
  }
}
