/**
 Whole runs of the messenger: any interleaving of public calls, connection events,
 deadlines, late replies and continuations, and what every reachable state satisfies.

 The invariant has five parts.  `Owed`: what is believed of a connection was answered on
 it.  `Fenced`: no command is of a later generation.  `Registered` and `Framed`: the keys
 in order, and what a suspended recovery waits for.  `Logged`: one line for each outage.
 On top of them come `StatusExact` and `WakeupPending`.  Each kind of turn has its own
 lemma; `StepKeeps` puts them together.
 */
module MessengerRuns {
  import opened MessengerState

  datatype Event =
    | PublishCall
    | SubscribeCall(channel: Channel, callback: Callback)
    | UnsubscribeCall(channel: Channel, callback: Callback)
    | DestroyCall
    | ErrorEvent
    | ReadyEvent(kind: Kind)
    | DownEvent(kind: Kind)
    | ReplyEvent(id: nat, ok: bool)
    | DeadlineEvent(id: nat)
    | ResumeEvent(id: nat)
    | RecoveryEvent
    | TimerEvent

  /** What the runtime may do next.  The one fact about Redis that is used: a command sent
      on a connection that was not ready cannot succeed. */
  predicate Enabled(s: State, e: Event) {
    if e.PublishCall? || e.SubscribeCall? || e.UnsubscribeCall? || e.DestroyCall? then true
    else
      && !s.failed
      && match e
         case ReplyEvent(id, ok) => id < |s.commands| && s.commands[id].phase == InFlight && (ok ==> s.commands[id].live)
         case DeadlineEvent(id) => id < |s.commands| && s.commands[id].phase == InFlight
         case ResumeEvent(id) =>
           id < |s.commands| && s.commands[id].phase.Settled? && !s.commands[id].purpose.OfRecovery()
         case RecoveryEvent => CanResumeRecovery(s)
         case TimerEvent => s.timer
         case _ => true
  }

  function Step(s: State, e: Event): State
    requires Enabled(s, e)
  {
    match e
    case PublishCall => Publish(s)
    case SubscribeCall(c, cb) => Subscribe(s, c, cb)
    case UnsubscribeCall(c, cb) => Unsubscribe(s, c, cb)
    case DestroyCall => Destroy(s)
    case ErrorEvent => OnError(s)
    case ReadyEvent(kind) => OnReady(s, kind)
    case DownEvent(kind) => OnDown(s, kind)
    case ReplyEvent(id, ok) => Reply(s, id, ok)
    case DeadlineEvent(id) => Deadline(s, id)
    case ResumeEvent(id) => Resume(s, id)
    case RecoveryEvent => ResumeRecovery(s)
    case TimerEvent => TimerFires(s)
  }

  /** A run visits the states `run`, one event at a time, from a fresh messenger. */
  ghost predicate IsRun(run: seq<State>, events: seq<Event>) {
    && |run| == |events| + 1
    && (run[0] == Fresh(true) || run[0] == Fresh(false))
    && forall i :: 0 <= i < |events| ==> Enabled(run[i], events[i]) && run[i + 1] == Step(run[i], events[i])
  }

  // ----- the invariant -----

  /** Command `id` was sent and answered on the connection `kind` that has this generation. */
  predicate Answered(commands: seq<Command>, id: nat, kind: Kind, generation: nat) {
    && id < |commands|
    && commands[id].Succeeded()
    && commands[id].live
    && commands[id].purpose.Connection() == kind
    && commands[id].generation == generation
  }

  ghost predicate AckOwed(commands: seq<Command>, generation: nat, c: Channel) {
    exists id: nat :: Answered(commands, id, Sub, generation) && commands[id].purpose.Subscribes(c)
  }

  ghost predicate PublisherOwed(commands: seq<Command>, generation: nat) {
    exists id: nat :: Answered(commands, id, Pub, generation)
  }

  /** Everything the messenger believes about its connections is owed to a command that was
      sent and answered on the connection it has now. */
  ghost predicate Owed(acked: set<Channel>, pubHealthy: bool, commands: seq<Command>, subGen: nat, pubGen: nat) {
    && (forall c :: c in acked ==> AckOwed(commands, subGen, c))
    && (pubHealthy ==> PublisherOwed(commands, pubGen))
  }

  /** A generation is a fence: no command is from the future, one sent live on the current
      generation is still on a ready connection, and only live commands succeed. */
  ghost predicate Fenced(commands: seq<Command>, pubGen: nat, subGen: nat, pubReady: bool, subReady: bool) {
    forall id: nat :: id < |commands| ==>
      var c := commands[id];
      var generation := if c.purpose.Connection() == Pub then pubGen else subGen;
      var ready := if c.purpose.Connection() == Pub then pubReady else subReady;
      && c.generation <= generation
      && (c.live && c.generation == generation ==> ready)
      && (c.Succeeded() ==> c.live)
  }

  /** The `Map` of callbacks and its key order describe one another. */
  ghost predicate Registered(desired: Registry, order: seq<Channel>) {
    && (forall c :: c in order <==> c in desired)
    && (forall i, j :: 0 <= i < j < |order| ==> order[i] != order[j])
    && (forall c :: c in desired ==> desired[c] != [])
  }

  predicate Awaits(commands: seq<Command>, id: nat, purpose: Purpose) {
    id < |commands| && commands[id].purpose == purpose && !commands[id].phase.Consumed?
  }

  predicate Framed(commands: seq<Command>, keys: nat, frame: Frame) {
    match frame
    case AwaitUnsubscribe(id, c, _) => Awaits(commands, id, RetryUnsubscribe(c))
    case AwaitSubscribe(id, c, next) => Awaits(commands, id, RetrySubscribe(c)) && next <= keys
    case AwaitProbe(id) => Awaits(commands, id, Probing)
    case _ => true
  }

  /** The log reports each outage once and each recovery once, in turn. */
  ghost predicate Logged(log: seq<Notice>, degraded: bool, status: Status) {
    && (forall i :: 0 <= i < |log| ==> log[i] == if i % 2 == 0 then WarnUnavailable else InfoRecovered)
    && (degraded <==> |log| % 2 == 1)
    && (degraded ==> status == Unavailable)
  }

  /** What every turn keeps, whatever the recovery is doing. */
  ghost predicate Base(s: State) {
    && !s.failed
    && Fenced(s.commands, s.pubGeneration, s.subGeneration, s.pubReady, s.subReady)
    && (!s.destroyed ==> Owed(s.acked, s.pubHealthy, s.commands, s.subGeneration, s.pubGeneration))
    && Registered(s.desired, s.order)
    && Logged(s.log, s.degraded, s.status)
    && (s.destroyed ==> !s.timer)
  }

  /** `Base`, and the suspended recovery awaits a command of its own. */
  ghost predicate Core(s: State) {
    && Base(s)
    && Framed(s.commands, |s.order|, s.frame)
    && (s.recovering <==> s.frame != Idle)
  }

  predicate StatusSound(s: State) {
    s.Live() && s.status == Available ==> s.Healthy()
  }

  predicate StatusExact(s: State) {
    && StatusSound(s)
    && (s.Live() && !s.recovering && s.Healthy() ==> s.status == Available)
  }

  predicate WakeupPending(s: State) {
    s.Live() && s.NeedsWork() ==> s.timer || s.recovering
  }

  /** An instance whose clients could not be built keeps its first state, destroyed or not. */
  predicate Failed(s: State) {
    s == Fresh(true) || s == Fresh(true).(destroyed := true)
  }

  ghost predicate Inv(s: State) {
    if s.failed then Failed(s) else Core(s) && StatusExact(s) && WakeupPending(s)
  }

  // ----- small facts about one field at a time -----

  /** Commands are only added, and a success is never taken back. */
  ghost predicate CommandsKept(before: seq<Command>, after: seq<Command>) {
    && |before| <= |after|
    && forall id: nat :: id < |before| ==>
         && after[id] == before[id].(phase := after[id].phase)
         && (before[id].Succeeded() ==> after[id].Succeeded())
  }

  lemma OwedKept(acked: set<Channel>, pubHealthy: bool, before: seq<Command>, after: seq<Command>, subGen: nat, pubGen: nat)
    requires CommandsKept(before, after)
    requires Owed(acked, pubHealthy, before, subGen, pubGen)
    ensures Owed(acked, pubHealthy, after, subGen, pubGen)
  {
    forall c | c in acked ensures AckOwed(after, subGen, c) {
      var id: nat :| Answered(before, id, Sub, subGen) && before[id].purpose.Subscribes(c);
      assert Answered(after, id, Sub, subGen);
    }
    if pubHealthy {
      var id: nat :| Answered(before, id, Pub, pubGen);
      assert Answered(after, id, Pub, pubGen);
    }
  }

  lemma {:induction false} RemoveKeeps(s: seq<Channel>, c: Channel)
    requires forall i, j :: 0 <= i < j < |s| ==> s[i] != s[j]
    ensures forall i, j :: 0 <= i < j < |Remove(s, c)| ==> Remove(s, c)[i] != Remove(s, c)[j]
    ensures |Remove(s, c)| == if c in s then |s| - 1 else |s|
  {
    if s != [] {
      var tail := s[1..];
      RemoveKeeps(tail, c);
      if s[0] == c {
        assert c !in tail;
      } else {
        assert c in s <==> c in tail;
        assert s[0] !in Remove(tail, c);
      }
    }
  }

  lemma NoticeLogged(log: seq<Notice>, degraded: bool, status: Status)
    requires Logged(log, degraded, status)
    ensures Logged(log, degraded, Unavailable)
    ensures !degraded ==> Logged(log, false, Available) && Logged(log + [WarnUnavailable], true, Unavailable)
    ensures degraded ==> Logged(log + [InfoRecovered], false, Available)
  {
    forall n: Notice, i | 0 <= i < |log|
      ensures (log + [n])[i] == if i % 2 == 0 then WarnUnavailable else InfoRecovered
    {
      assert (log + [n])[i] == log[i];
    }
  }

  /** Sending a command: nothing that was owed is lost, and it is fenced like the others. */
  lemma IssueKeeps(s: State, purpose: Purpose)
    requires Base(s)
    ensures Base(Issue(s, purpose))
    ensures CommandsKept(s.commands, Issue(s, purpose).commands)
    ensures Awaits(Issue(s, purpose).commands, |s.commands|, purpose)
  {
    hide Registered, Logged;
    if !s.destroyed {
      OwedKept(s.acked, s.pubHealthy, s.commands, Issue(s, purpose).commands, s.subGeneration, s.pubGeneration);
    }
  }

  /** Settling a promise, or running its continuation. */
  lemma PhaseKeeps(s: State, id: nat, phase: Phase)
    requires id < |s.commands| && Base(s)
    requires s.commands[id].Succeeded() ==> phase == Consumed(true)
    requires phase == Settled(true) || phase == Consumed(true) ==> s.commands[id].live
    ensures Base(SetPhase(s, id, phase))
    ensures CommandsKept(s.commands, SetPhase(s, id, phase).commands)
  {
    hide Registered, Logged;
    if !s.destroyed {
      OwedKept(s.acked, s.pubHealthy, s.commands, SetPhase(s, id, phase).commands, s.subGeneration, s.pubGeneration);
    }
  }

  lemma FrameKept(before: seq<Command>, id: nat, phase: Phase, keys: nat, frame: Frame)
    requires id < |before| && Framed(before, keys, frame)
    requires phase.Consumed? ==> !before[id].purpose.OfRecovery()
    ensures Framed(before[id := before[id].(phase := phase)], keys, frame)
  {
  }

  /** A success consumed on the generation it was sent on may be recorded. */
  lemma AckRecorded(s: State, id: nat, c: Channel)
    requires Base(s) && id < |s.commands|
    requires s.commands[id].phase == Consumed(true) && s.commands[id].purpose.Subscribes(c)
    requires s.commands[id].generation == s.subGeneration
    ensures Base(s.(acked := s.acked + {c}))
    ensures StatusSound(s) ==> StatusSound(s.(acked := s.acked + {c}))
  {
    hide Registered, Logged;
    assert Answered(s.commands, id, Sub, s.subGeneration);
  }

  lemma HealthRecorded(s: State, id: nat)
    requires Base(s) && id < |s.commands|
    requires s.commands[id].phase == Consumed(true) && s.commands[id].purpose.Connection() == Pub
    requires s.commands[id].generation == s.pubGeneration
    ensures Base(s.(pubHealthy := true))
  {
    hide Registered, Logged;
    assert Answered(s.commands, id, Pub, s.pubGeneration);
  }

  // ----- what every turn keeps -----

  lemma MarkedKeeps(s: State)
    requires Core(s)
    ensures Core(MarkUnavailable(s))
    ensures !s.destroyed && s.NeedsWork() ==> Core(ScheduleRecovery(MarkUnavailable(s)))
    ensures !s.destroyed ==> Core(MarkAvailable(s))
  {
    hide Fenced, Owed, Registered, Framed, Logged, AllAcked;
    NoticeLogged(s.log, s.degraded, s.status);
  }

  lemma StatusUpdated(s: State)
    requires Core(s)
    ensures Inv(UpdateStatus(s)) && !UpdateStatus(s).failed
  {
    MarkedKeeps(s);
    assert !s.failed;
    hide Core, AllAcked;
  }

  /** A running recovery owes nothing but the facts of `Base`: the wakeup is itself. */
  lemma Suspended(s: State)
    requires Base(s) && s.recovering && StatusSound(s)
    requires s.frame != Idle && Framed(s.commands, |s.order|, s.frame)
    ensures Inv(s)
  {
    hide Fenced, Owed, Registered, Framed, Logged, AllAcked;
  }

  lemma {:induction false} RetrySubscribesKeeps(s: State, next: nat)
    requires Base(s) && s.recovering && next <= |s.order| && StatusSound(s)
    ensures Inv(RetrySubscribes(s, next))
    decreases |s.order| - next
  {
    hide Fenced, Owed, Registered, Logged;
    if next < |s.order| {
      if s.order[next] in s.acked {
        RetrySubscribesKeeps(s, next + 1);
      } else {
        IssueKeeps(s, RetrySubscribe(s.order[next]));
      }
    }
  }

  lemma PendingIsFree(s: State, pending: seq<Channel>)
    requires Base(s)
    ensures Base(s.(pendingUnsub := pending))
  {
    hide Fenced, Owed, Registered, Logged;
  }

  /** One turn of the first loop of `reconcileSubscriber`. */
  lemma RetryUnsubscribesUnfolds(s: State, rest: seq<Channel>)
    ensures rest == [] ==> RetryUnsubscribes(s, rest) == RetrySubscribes(s, 0)
    ensures rest != [] && rest[0] in s.desired ==>
              RetryUnsubscribes(s, rest)
              == RetryUnsubscribes(s.(pendingUnsub := Remove(s.pendingUnsub, rest[0])), rest[1..])
    ensures rest != [] && rest[0] !in s.desired ==>
              RetryUnsubscribes(s, rest)
              == Issue(s, RetryUnsubscribe(rest[0])).(frame := AwaitUnsubscribe(|s.commands|, rest[0], rest[1..]))
  {
    hide RetrySubscribes, Issue;
  }

  /** One turn of the second loop of `reconcileSubscriber`. */
  lemma RetrySubscribesUnfolds(s: State, next: nat)
    ensures next >= |s.order| ==> RetrySubscribes(s, next) == s.(frame := AfterReconcile)
    ensures next < |s.order| && s.order[next] in s.acked ==> RetrySubscribes(s, next) == RetrySubscribes(s, next + 1)
    ensures next < |s.order| && s.order[next] !in s.acked ==>
              RetrySubscribes(s, next)
              == Issue(s, RetrySubscribe(s.order[next])).(frame := AwaitSubscribe(|s.commands|, s.order[next], next + 1))
  {
    hide Issue;
  }

  lemma {:induction false} RetryUnsubscribesKeeps(s: State, rest: seq<Channel>)
    requires Base(s) && s.recovering && StatusSound(s)
    ensures Inv(RetryUnsubscribes(s, rest))
    decreases |rest|
  {
    hide Base, Inv, AllAcked, RetryUnsubscribes, RetrySubscribes;
    RetryUnsubscribesUnfolds(s, rest);
    if rest == [] {
      RetrySubscribesKeeps(s, 0);
    } else if rest[0] in s.desired {
      var t := s.(pendingUnsub := Remove(s.pendingUnsub, rest[0]));
      assert s.pendingUnsub == [] ==> t.pendingUnsub == [];
      PendingIsFree(s, t.pendingUnsub);
      RetryUnsubscribesKeeps(t, rest[1..]);
    } else {
      var t := Issue(s, RetryUnsubscribe(rest[0]));
      IssueKeeps(s, RetryUnsubscribe(rest[0]));
      FrameIsFree(t, AwaitUnsubscribe(|s.commands|, rest[0], rest[1..]));
      Suspended(t.(frame := AwaitUnsubscribe(|s.commands|, rest[0], rest[1..])));
    }
  }

  lemma FrameIsFree(s: State, frame: Frame)
    requires Base(s)
    ensures Base(s.(frame := frame))
  {
    hide Fenced, Owed, Registered, Logged;
  }

  lemma ProbeOrFinishKeeps(s: State)
    requires Base(s) && s.recovering && StatusSound(s)
    ensures Inv(ProbeOrFinish(s))
  {
    hide Fenced, Owed, Registered, Logged;
    if s.pubReady && !s.pubHealthy {
      IssueKeeps(s, Probing);
    } else {
      StatusUpdated(s.(recovering := false, frame := Idle));
    }
  }

  lemma AttemptRecoveryKeeps(s: State)
    requires Core(s) && StatusSound(s)
    ensures Inv(AttemptRecovery(s))
  {
    hide Fenced, Owed, Registered, Framed, Logged, AllAcked;
    if !s.destroyed && !s.recovering {
      var running := s.(recovering := true);
      if s.subReady {
        RetryUnsubscribesKeeps(running, s.pendingUnsub);
      } else {
        ProbeOrFinishKeeps(running);
      }
    }
  }

  // ----- every event keeps the invariant -----

  lemma ConnectionDropped(s: State, kind: Kind)
    requires Core(s)
    ensures Core(DropConnection(s.(sawFailure := true), kind))
  {
    hide Registered, Framed, Logged;
  }

  lemma RecycleKeeps(s: State, kind: Kind, generation: nat)
    requires Inv(s) && !s.failed
    ensures Inv(Recycle(s, kind, generation))
  {
    hide Core, StatusExact, WakeupPending, DropConnection, UpdateStatus;
    ConnectionDropped(s, kind);
    StatusUpdated(DropConnection(s.(sawFailure := true), kind));
  }

  lemma DownKeeps(s: State, kind: Kind)
    requires Inv(s) && !s.failed
    ensures Inv(OnDown(s, kind))
  {
    hide Fenced, Owed, Registered, Framed, Logged, AllAcked, DropConnection, UpdateStatus;
    ConnectionDropped(s, kind);
    hide Core;
    assert Core(s.(sawFailure := true)) by { FailureIsFree(s); }
    StatusUpdated(DropConnection(s.(sawFailure := true), kind));
    StatusUpdated(s.(sawFailure := true));
  }

  lemma FailureIsFree(s: State)
    requires Core(s)
    ensures Core(s.(sawFailure := true))
  {
    hide Fenced, Owed, Registered, Framed, Logged;
  }

  lemma ReplyKeeps(s: State, id: nat, ok: bool)
    requires Inv(s) && Enabled(s, ReplyEvent(id, ok))
    ensures Inv(Reply(s, id, ok))
  {
    hide Fenced, Owed, Registered, Framed, Logged, AllAcked;
    PhaseKeeps(s, id, Settled(ok));
    FrameKept(s.commands, id, Settled(ok), |s.order|, s.frame);
  }

  lemma DeadlineKeeps(s: State, id: nat)
    requires Inv(s) && Enabled(s, DeadlineEvent(id))
    ensures Inv(Deadline(s, id))
  {
    hide Fenced, Owed, Registered, Framed, Logged, AllAcked;
    PhaseKeeps(s, id, Settled(false));
    FrameKept(s.commands, id, Settled(false), |s.order|, s.frame);
    RecycleKeeps(SetPhase(s, id, Settled(false)), s.commands[id].purpose.Connection(), s.commands[id].generation);
  }

  /** The continuation of a public call consumes its answer and starts from a sound state. */
  lemma AnswerConsumed(s: State, id: nat)
    requires Inv(s) && Enabled(s, ResumeEvent(id))
    ensures Inv(Consume(s, id)) && Core(Consume(s, id))
  {
    hide Owed, Registered, Framed, Logged, AllAcked;
    PhaseKeeps(s, id, Consumed(s.commands[id].phase.ok));
    FrameKept(s.commands, id, Consumed(s.commands[id].phase.ok), |s.order|, s.frame);
  }

  lemma FailureSeen(s: State, pending: seq<Channel>)
    requires Core(s)
    ensures Inv(UpdateStatus(s.(sawFailure := true)))
    ensures Inv(UpdateStatus(s.(sawFailure := true, pendingUnsub := pending)))
    ensures Inv(UpdateStatus(s.(sawFailure := true, pubHealthy := false)))
  {
    hide Fenced, Registered, Framed, Logged, AllAcked, UpdateStatus;
    StatusUpdated(s.(sawFailure := true));
    StatusUpdated(s.(sawFailure := true, pendingUnsub := pending));
    StatusUpdated(s.(sawFailure := true, pubHealthy := false));
  }

  lemma PublishResumes(s: State, id: nat)
    requires Inv(s) && Enabled(s, ResumeEvent(id)) && s.commands[id].purpose.Publishing?
    ensures Inv(Resume(s, id))
  {
    hide Base, Inv, Framed, UpdateStatus;
    var command := s.commands[id];
    var t := Consume(s, id);
    AnswerConsumed(s, id);
    FailureSeen(t, []);
    if command.phase.ok && command.generation == s.pubGeneration {
      HealthRecorded(t, id);
      StatusUpdated(t.(pubHealthy := true));
    }
  }

  lemma SubscribeResumes(s: State, id: nat)
    requires Inv(s) && Enabled(s, ResumeEvent(id)) && s.commands[id].purpose.Subscribing?
    ensures Inv(Resume(s, id))
  {
    hide Base, Inv, Framed, UpdateStatus;
    var command := s.commands[id];
    var t := Consume(s, id);
    AnswerConsumed(s, id);
    FailureSeen(t, []);
    if command.phase.ok && command.generation == s.subGeneration && command.purpose.channel in s.desired {
      AckRecorded(t, id, command.purpose.channel);
      StatusUpdated(t.(acked := t.acked + {command.purpose.channel}));
    }
  }

  lemma UnsubscribeResumes(s: State, id: nat)
    requires Inv(s) && Enabled(s, ResumeEvent(id)) && s.commands[id].purpose.Unsubscribing?
    ensures Inv(Resume(s, id))
  {
    hide Base, Inv, Framed, UpdateStatus;
    AnswerConsumed(s, id);
    FailureSeen(Consume(s, id), Insert(s.pendingUnsub, s.commands[id].purpose.channel));
  }

  lemma ResumeKeeps(s: State, id: nat)
    requires Inv(s) && Enabled(s, ResumeEvent(id))
    ensures Inv(Resume(s, id))
  {
    hide Inv, Resume;
    match s.commands[id].purpose {
      case Publishing => PublishResumes(s, id);
      case Subscribing(_) => SubscribeResumes(s, id);
      case Unsubscribing(_) => UnsubscribeResumes(s, id);
      case _ =>
    }
  }

  lemma ThrowKeeps(s: State)
    requires Base(s) && s.recovering && StatusSound(s)
    ensures Inv(s.(frame := Throwing))
  {
    hide Fenced, Owed, Registered, Logged, AllAcked;
    Suspended(s.(frame := Throwing));
  }

  lemma ProbedKeeps(s: State)
    requires Base(s) && s.recovering && StatusSound(s)
    ensures Inv(s.(frame := AfterProbe))
  {
    hide Fenced, Owed, Registered, Logged, AllAcked;
    Suspended(s.(frame := AfterProbe));
  }

  /** The recovery consumes the answer it awaited; its frame is about to be replaced. */
  lemma OwnAnswerConsumed(s: State, id: nat)
    requires Inv(s) && !s.failed && s.recovering && id < |s.commands| && s.commands[id].phase.Settled?
    ensures Base(Consume(s, id)) && StatusSound(Consume(s, id))
  {
    hide Owed, Registered, Framed, Logged, AllAcked;
    PhaseKeeps(s, id, Consumed(s.commands[id].phase.ok));
  }

  lemma UnsubscribeAnswerKeeps(s: State, channel: Channel, rest: seq<Channel>, ok: bool)
    requires Base(s) && s.recovering && StatusSound(s)
    ensures Inv(UnsubscribeAnswered(s, channel, rest, ok))
  {
    hide Base, Inv, AllAcked, RetryUnsubscribes;
    if ok {
      var u := s.(pendingUnsub := Remove(s.pendingUnsub, channel));
      assert s.pendingUnsub == [] ==> u.pendingUnsub == [];
      PendingIsFree(s, u.pendingUnsub);
      RetryUnsubscribesKeeps(u, rest);
    } else {
      ThrowKeeps(s);
    }
  }

  lemma SubscribeAnswerKeeps(s: State, id: nat, channel: Channel, next: nat)
    requires Base(s) && s.recovering && StatusSound(s) && next <= |s.order|
    requires Awaited(s, id, RetrySubscribe(channel))
    ensures Inv(SubscribeAnswered(s, channel, next, s.commands[id].generation, s.commands[id].phase.ok))
  {
    hide Base, Inv, AllAcked, RetrySubscribes;
    if !s.commands[id].phase.ok {
      ThrowKeeps(s);
    } else if s.commands[id].generation == s.subGeneration {
      AckRecorded(s, id, channel);
      RetrySubscribesKeeps(s.(acked := s.acked + {channel}), next);
    } else {
      RetrySubscribesKeeps(s, next);
    }
  }

  /** The answer the recovery was waiting for has just been consumed. */
  predicate Awaited(s: State, id: nat, purpose: Purpose) {
    id < |s.commands| && s.commands[id].purpose == purpose && s.commands[id].phase.Consumed?
  }

  lemma ProbeAnswerKeeps(s: State, id: nat)
    requires Base(s) && s.recovering && StatusSound(s)
    requires Awaited(s, id, Probing)
    ensures Inv(ProbeAnswered(s, s.commands[id].generation, s.commands[id].phase.ok))
  {
    hide Base, Inv, AllAcked;
    if !s.commands[id].phase.ok {
      ThrowKeeps(s);
    } else if s.commands[id].generation == s.pubGeneration {
      HealthRecorded(s, id);
      ProbedKeeps(s.(pubHealthy := true));
    } else {
      ProbedKeeps(s);
    }
  }

  lemma RecoveryFinishes(s: State)
    requires Inv(s) && !s.failed && (s.frame.AfterReconcile? || s.frame.AfterProbe? || s.frame.Throwing?)
    ensures Inv(ResumeRecovery(s))
  {
    hide Fenced, Owed, Registered, Logged, AllAcked, ProbeOrFinish, UpdateStatus;
    match s.frame {
      case AfterReconcile => ProbeOrFinishKeeps(s);
      case AfterProbe => StatusUpdated(s.(recovering := false, frame := Idle));
      case Throwing => StatusUpdated(s.(sawFailure := true, recovering := false, frame := Idle));
    }
  }

  lemma RecoveryRunsOn(s: State)
    requires Inv(s) && Enabled(s, RecoveryEvent)
    requires s.frame.AwaitUnsubscribe? || s.frame.AwaitSubscribe? || s.frame.AwaitProbe?
    ensures Inv(ResumeRecovery(s))
  {
    assert s.recovering && Framed(s.commands, |s.order|, s.frame) && !s.failed;
    hide Inv, Base, StatusSound, UnsubscribeAnswered, SubscribeAnswered, ProbeAnswered, ProbeOrFinish, FinishRecovery;
    OwnAnswerConsumed(s, s.frame.id);
    match s.frame {
      case AwaitUnsubscribe(id, channel, rest) =>
        UnsubscribeAnswerKeeps(Consume(s, id), channel, rest, s.commands[id].phase.ok);
      case AwaitSubscribe(id, channel, next) =>
        SubscribeAnswerKeeps(Consume(s, id), id, channel, next);
      case AwaitProbe(id) =>
        ProbeAnswerKeeps(Consume(s, id), id);
    }
  }

  lemma RecoveryResumes(s: State)
    requires Inv(s) && Enabled(s, RecoveryEvent)
    ensures Inv(ResumeRecovery(s))
  {
    hide Inv, ResumeRecovery;
    if s.frame.AfterReconcile? || s.frame.AfterProbe? || s.frame.Throwing? {
      RecoveryFinishes(s);
    } else {
      RecoveryRunsOn(s);
    }
  }

  lemma ChannelAdded(s: State, c: Channel, cb: Callback)
    requires Core(s)
    ensures c in s.desired ==> Core(s.(desired := AddCallback(s.desired, c, cb)))
    ensures c !in s.desired ==> Core(AddChannel(s, c, cb))
  {
    hide Fenced, Logged;
  }

  lemma IssuedUpdate(s: State, purpose: Purpose)
    requires Core(s)
    ensures Inv(UpdateStatus(if s.subReady then Issue(s, purpose) else s))
  {
    hide Fenced, Owed, Registered, Logged, AllAcked, UpdateStatus;
    if s.subReady {
      IssueKeeps(s, purpose);
      assert Framed(Issue(s, purpose).commands, |s.order|, s.frame);
      StatusUpdated(Issue(s, purpose));
    } else {
      StatusUpdated(s);
    }
  }

  lemma SubscribeKeeps(s: State, c: Channel, cb: Callback)
    requires Inv(s)
    ensures Inv(Subscribe(s, c, cb))
  {
    hide Fenced, Owed, Registered, Framed, Logged, AllAcked, UpdateStatus;
    if !s.failed {
      ChannelAdded(s, c, cb);
      hide Base;
      if c in s.desired {
        StatusUpdated(s.(desired := AddCallback(s.desired, c, cb)));
      } else {
        IssuedUpdate(AddChannel(s, c, cb), Subscribing(c));
      }
    }
  }

  lemma RegistryDropped(desired: Registry, order: seq<Channel>, c: Channel)
    requires Registered(desired, order) && c in desired
    ensures Registered(desired - {c}, Remove(order, c))
    ensures |Remove(order, c)| == |order| - 1
  {
    RemoveKeeps(order, c);
  }

  lemma InOrder(desired: Registry, order: seq<Channel>, c: Channel)
    requires Registered(desired, order)
    ensures c in desired ==> c in order && IndexOf(order, c) < |order|
  {
  }

  lemma ChannelDropped(s: State, c: Channel)
    requires Core(s) && c in s.desired
    ensures Core(DropChannel(s, c))
  {
    hide Fenced, Registered, Logged;
    RegistryDropped(s.desired, s.order, c);
    assert c in s.order by { InOrder(s.desired, s.order, c); }
    assert Framed(s.commands, |s.order| - 1, ForgetInFrame(s, c));
  }

  lemma CallbackDropped(s: State, c: Channel, cb: Callback)
    requires Inv(s) && !s.failed && c in s.desired && Remove(s.desired[c], cb) != []
    ensures Inv(s.(desired := RemoveCallback(s.desired, c, cb)))
  {
    hide Fenced, Owed, Framed, Logged;
  }

  lemma UnsubscribeKeeps(s: State, c: Channel, cb: Callback)
    requires Inv(s)
    ensures Inv(Unsubscribe(s, c, cb))
  {
    hide Fenced, Owed, Registered, Framed, Logged, AllAcked, UpdateStatus;
    if !s.failed && c in s.desired {
      if Remove(s.desired[c], cb) != [] {
        CallbackDropped(s, c, cb);
      } else {
        ChannelDropped(s, c);
        IssuedUpdate(DropChannel(s, c), Unsubscribing(c));
      }
    }
  }

  lemma ReadyKeeps(s: State, kind: Kind)
    requires Inv(s) && !s.failed
    ensures Inv(OnReady(s, kind))
  {
    hide Owed, Registered, Framed, Logged, AllAcked;
    var ready := if kind == Pub then s.(pubReady := true) else s.(subReady := true);
    AttemptRecoveryKeeps(ready.(recoveryAttempt := 0, timer := false));
  }

  lemma PublishKeeps(s: State)
    requires Inv(s)
    ensures Inv(Publish(s))
  {
    hide Fenced, Owed, Registered, Logged, AllAcked;
    if !s.failed {
      IssueKeeps(s, Publishing);
    }
  }

  lemma DestroyKeeps(s: State)
    requires Inv(s)
    ensures Inv(Destroy(s))
  {
    hide Owed, Registered, Framed, Logged, AllAcked;
  }

  lemma StepKeeps(s: State, e: Event)
    requires Inv(s) && Enabled(s, e)
    ensures Inv(Step(s, e))
  {
    hide Fenced, Owed, Registered, Framed, Logged, AllAcked;
    match e {
      case PublishCall => PublishKeeps(s);
      case SubscribeCall(c, cb) => SubscribeKeeps(s, c, cb);
      case UnsubscribeCall(c, cb) => UnsubscribeKeeps(s, c, cb);
      case DestroyCall => DestroyKeeps(s);
      case ErrorEvent => StatusUpdated(s.(sawFailure := true));
      case ReadyEvent(kind) => ReadyKeeps(s, kind);
      case DownEvent(kind) => DownKeeps(s, kind);
      case ReplyEvent(id, ok) => ReplyKeeps(s, id, ok);
      case DeadlineEvent(id) => DeadlineKeeps(s, id);
      case ResumeEvent(id) => ResumeKeeps(s, id);
      case RecoveryEvent => RecoveryResumes(s);
      case TimerEvent => AttemptRecoveryKeeps(s.(timer := false));
    }
  }

  lemma {:induction false} RunKeeps(run: seq<State>, events: seq<Event>, i: nat)
    requires IsRun(run, events) && i < |run|
    ensures Inv(run[i])
  {
    if i > 0 {
      RunKeeps(run, events, i - 1);
      StepKeeps(run[i - 1], events[i - 1]);
    }
  }
}
