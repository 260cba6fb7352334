/**
 What the messenger makes of what happens to it: which events end a connection and which bring it back,
 what a failure and an answer leave behind, that a failed unsubscribe is not forgotten, and that a destroyed
 messenger keeps quiet.
 */
module MessengerOutages {
  import opened MessengerState
  import opened MessengerRuns

  // ----- turns that leave the connections alone -----

  predicate SameLines(s: State, t: State) {
    && t.pubReady == s.pubReady && t.subReady == s.subReady
    && t.pubGeneration == s.pubGeneration && t.subGeneration == s.subGeneration
    && t.destroyed == s.destroyed && t.failed == s.failed
  }

  /** After `destroy` nothing is said, armed or started any more. */
  predicate Quiet(s: State, t: State) {
    s.destroyed ==>
      && t.status == s.status && t.log == s.log
      && (t.timer ==> s.timer) && (t.recovering ==> s.recovering)
  }

  /** A failed unsubscribe is still to be done, unless the channel is desired again. */
  ghost predicate StillPending(s: State, t: State) {
    forall c :: c in s.pendingUnsub ==> c in t.pendingUnsub || c in t.desired
  }

  ghost predicate Calm(s: State, t: State) {
    SameLines(s, t) && Quiet(s, t) && StillPending(s, t)
  }

  lemma CalmInTurn(a: State, b: State, c: State)
    requires Calm(a, b) && Calm(b, c) && b.desired == c.desired
    ensures Calm(a, c)
  {
  }

  lemma StatusIsCalm(s: State)
    ensures Calm(s, UpdateStatus(s))
    ensures !s.destroyed && s.sawFailure ==> UpdateStatus(s).status == Available || UpdateStatus(s).degraded
  {
    hide AllAcked;
  }

  lemma IssueIsCalm(s: State, purpose: Purpose, frame: Frame)
    ensures Calm(s, Issue(s, purpose))
    ensures Calm(s, Issue(s, purpose).(frame := frame))
  {
    var t := Issue(s, purpose);
    assert Calm(s, t);
    FrameIsCalm(t, frame);
    hide Calm, Issue;
    CalmInTurn(s, t, t.(frame := frame));
  }

  lemma FrameIsCalm(s: State, frame: Frame)
    ensures Calm(s, s.(frame := frame))
  {
  }

  lemma {:induction false} RetrySubscribesIsCalm(s: State, next: nat)
    ensures Calm(s, RetrySubscribes(s, next))
    decreases |s.order| - next
  {
    hide RetrySubscribes, Issue, Calm;
    RetrySubscribesUnfolds(s, next);
    FrameIsCalm(s, AfterReconcile);
    if next < |s.order| {
      if s.order[next] in s.acked {
        RetrySubscribesIsCalm(s, next + 1);
      } else {
        IssueIsCalm(s, RetrySubscribe(s.order[next]), AwaitSubscribe(|s.commands|, s.order[next], next + 1));
      }
    }
  }

  lemma SupersededIsCalm(s: State, c: Channel)
    requires c in s.desired
    ensures Calm(s, s.(pendingUnsub := Remove(s.pendingUnsub, c)))
  {
  }

  lemma {:induction false} RetryUnsubscribesIsCalm(s: State, rest: seq<Channel>)
    ensures Calm(s, RetryUnsubscribes(s, rest))
    decreases |rest|
  {
    hide RetryUnsubscribes, RetrySubscribes, Remove, Issue, Calm;
    RetryUnsubscribesUnfolds(s, rest);
    if rest == [] {
      RetrySubscribesIsCalm(s, 0);
    } else if rest[0] in s.desired {
      var t := s.(pendingUnsub := Remove(s.pendingUnsub, rest[0]));
      SupersededIsCalm(s, rest[0]);
      RetryUnsubscribesIsCalm(t, rest[1..]);
      CalmInTurn(s, t, RetryUnsubscribes(t, rest[1..]));
    } else {
      IssueIsCalm(s, RetryUnsubscribe(rest[0]), AwaitUnsubscribe(|s.commands|, rest[0], rest[1..]));
    }
  }

  lemma FinishIsCalm(s: State)
    ensures Calm(s, FinishRecovery(s))
    ensures !s.destroyed && s.sawFailure ==> FinishRecovery(s).status == Available || FinishRecovery(s).degraded
  {
    hide UpdateStatus;
    var t := s.(recovering := false, frame := Idle);
    assert Calm(s, t);
    StatusIsCalm(t);
    hide Calm;
    CalmInTurn(s, t, UpdateStatus(t));
  }

  lemma ProbeIsCalm(s: State)
    ensures Calm(s, ProbeOrFinish(s))
  {
    hide FinishRecovery, Issue, Calm;
    FinishIsCalm(s);
    IssueIsCalm(s, Probing, AwaitProbe(|s.commands|));
  }

  lemma AttemptIsCalm(s: State)
    ensures Calm(s, AttemptRecovery(s))
  {
    hide RetryUnsubscribes, ProbeOrFinish;
    assert Calm(s, s);
    if !s.destroyed && !s.recovering {
      var running := s.(recovering := true);
      assert Calm(s, running);
      RetryUnsubscribesIsCalm(running, s.pendingUnsub);
      ProbeIsCalm(running);
      hide Calm;
      CalmInTurn(s, running, RetryUnsubscribes(running, s.pendingUnsub));
      CalmInTurn(s, running, ProbeOrFinish(running));
    }
  }

  lemma PhaseIsCalm(s: State, id: nat, phase: Phase)
    requires id < |s.commands|
    ensures Calm(s, SetPhase(s, id, phase))
  {
  }

  lemma FailureIsCalm(s: State)
    ensures Calm(s, s.(sawFailure := true))
    ensures Calm(s, s.(sawFailure := true, pubHealthy := false))
  {
  }

  lemma BeliefIsCalm(s: State, c: Channel)
    ensures Calm(s, s.(pubHealthy := true))
    ensures Calm(s, s.(acked := s.acked + {c}))
  {
  }

  lemma PendingIsCalm(s: State, c: Channel)
    ensures Calm(s, s.(sawFailure := true, pendingUnsub := Insert(s.pendingUnsub, c)))
  {
  }

  // ----- what an answer leaves behind -----

  lemma PublishLeaves(s: State, generation: nat, ok: bool)
    ensures var t := PublishSettled(s, generation, ok);
            && Calm(s, t)
            && (ok && generation == s.pubGeneration ==> t.pubHealthy)
            && (!ok ==> !t.pubHealthy && (s.destroyed || t.status == Available || t.degraded))
  {
    hide UpdateStatus, Calm;
    var failed, well := s.(sawFailure := true, pubHealthy := false), s.(pubHealthy := true);
    FailureIsCalm(s);
    BeliefIsCalm(s, Channel(""));
    assert Calm(s, s) by { NothingIsCalm(s); }
    StatusIsCalm(failed);
    StatusIsCalm(well);
    StatusBelieves(failed);
    StatusBelieves(well);
    CalmInTurn(s, failed, UpdateStatus(failed));
    CalmInTurn(s, well, UpdateStatus(well));
  }

  lemma NothingIsCalm(s: State)
    ensures Calm(s, s)
  {
  }

  lemma StatusBelieves(s: State)
    ensures var t := UpdateStatus(s);
            t.pubHealthy == s.pubHealthy && t.acked == s.acked && t.pendingUnsub == s.pendingUnsub
  {
    hide AllAcked;
    if s.destroyed {
    } else if s.Healthy() {
    } else if s.NeedsWork() {
      var t := MarkUnavailable(s);
      assert t.pubHealthy == s.pubHealthy && t.acked == s.acked && t.pendingUnsub == s.pendingUnsub;
    }
  }

  lemma SubscribeLeaves(s: State, c: Channel, generation: nat, ok: bool)
    ensures var t := SubscribeSettled(s, c, generation, ok);
            && Calm(s, t)
            && (ok && generation == s.subGeneration && c in s.desired ==> c in t.acked)
            && (!ok && generation == s.subGeneration ==> s.destroyed || t.status == Available || t.degraded)
  {
    hide UpdateStatus, Calm;
    var failed, well := s.(sawFailure := true), s.(acked := s.acked + {c});
    FailureIsCalm(s);
    BeliefIsCalm(s, c);
    NothingIsCalm(s);
    StatusIsCalm(failed);
    StatusIsCalm(well);
    StatusBelieves(well);
    CalmInTurn(s, failed, UpdateStatus(failed));
    CalmInTurn(s, well, UpdateStatus(well));
  }

  lemma UnsubscribeLeaves(s: State, c: Channel, generation: nat, ok: bool)
    ensures var t := UnsubscribeSettled(s, c, generation, ok);
            && Calm(s, t)
            && (!ok && generation == s.subGeneration ==>
                  c in t.pendingUnsub && (s.destroyed || t.status == Available || t.degraded))
  {
    hide UpdateStatus, Calm;
    var failed := s.(sawFailure := true, pendingUnsub := Insert(s.pendingUnsub, c));
    PendingIsCalm(s, c);
    NothingIsCalm(s);
    StatusIsCalm(failed);
    StatusBelieves(failed);
    CalmInTurn(s, failed, UpdateStatus(failed));
  }

  // ----- the recovery runs on -----

  /** The recovery has the answer to its unsubscribe of a channel. */
  predicate UnsubscribeDone(s: State, c: Channel) {
    && s.frame.AwaitUnsubscribe? && s.frame.channel == c
    && s.frame.id < |s.commands| && s.commands[s.frame.id].phase == Settled(true)
  }

  ghost predicate CalmButDone(s: State, t: State) {
    && SameLines(s, t) && Quiet(s, t)
    && forall c :: c in s.pendingUnsub ==> c in t.pendingUnsub || c in t.desired || UnsubscribeDone(s, c)
  }

  lemma DoneIsCalm(s: State, t: State, channel: Channel, u: State)
    requires Calm(s, t) && t.desired == s.desired && t.pendingUnsub == s.pendingUnsub
    requires UnsubscribeDone(s, channel) && Calm(t.(pendingUnsub := Remove(t.pendingUnsub, channel)), u)
    requires u.desired == s.desired
    ensures CalmButDone(s, u)
  {
  }

  lemma ConsumeKeeps(s: State, id: nat)
    requires id < |s.commands| && s.commands[id].phase.Settled?
    ensures Calm(s, Consume(s, id))
    ensures var t := Consume(s, id);
            t.pendingUnsub == s.pendingUnsub && t.frame == s.frame
  {
  }

  lemma UnsubscribeRunsOn(s: State)
    requires CanResumeRecovery(s) && s.frame.AwaitUnsubscribe?
    ensures CalmButDone(s, ResumeRecovery(s))
  {
    hide RetryUnsubscribes, Remove, Consume, Calm;
    var t := Consume(s, s.frame.id);
    ConsumeKeeps(s, s.frame.id);
    if s.commands[s.frame.id].phase.ok {
      var u := t.(pendingUnsub := Remove(t.pendingUnsub, s.frame.channel));
      RetryUnsubscribesIsCalm(u, s.frame.rest);
      DoneIsCalm(s, t, s.frame.channel, RetryUnsubscribes(u, s.frame.rest));
    } else {
      FrameIsCalm(t, Throwing);
      CalmInTurn(s, t, t.(frame := Throwing));
      assert CalmButDone(s, t.(frame := Throwing)) by { CalmIsDone(s, t.(frame := Throwing)); }
    }
  }

  lemma CalmIsDone(s: State, t: State)
    requires Calm(s, t)
    ensures CalmButDone(s, t)
  {
  }

  lemma SubscribeRunsOn(s: State)
    requires CanResumeRecovery(s) && s.frame.AwaitSubscribe?
    ensures Calm(s, ResumeRecovery(s))
  {
    hide RetrySubscribes, Consume, Calm;
    var t := Consume(s, s.frame.id);
    ConsumeKeeps(s, s.frame.id);
    var u := t.(acked := t.acked + {s.frame.channel});
    BeliefIsCalm(t, s.frame.channel);
    CalmInTurn(s, t, u);
    RetrySubscribesIsCalm(t, s.frame.next);
    RetrySubscribesIsCalm(u, s.frame.next);
    FrameIsCalm(t, Throwing);
    CalmInTurn(s, t, t.(frame := Throwing));
    CalmInTurn(s, t, RetrySubscribes(t, s.frame.next));
    CalmInTurn(s, u, RetrySubscribes(u, s.frame.next));
  }

  lemma ProbeRunsOn(s: State)
    requires CanResumeRecovery(s) && s.frame.AwaitProbe?
    ensures Calm(s, ResumeRecovery(s))
  {
    hide Consume, Calm;
    var t := Consume(s, s.frame.id);
    ConsumeKeeps(s, s.frame.id);
    var u := t.(pubHealthy := true);
    BeliefIsCalm(t, Channel(""));
    CalmInTurn(s, t, u);
    FrameIsCalm(t, Throwing);
    FrameIsCalm(t, AfterProbe);
    FrameIsCalm(u, AfterProbe);
    CalmInTurn(s, t, t.(frame := Throwing));
    CalmInTurn(s, t, t.(frame := AfterProbe));
    CalmInTurn(s, u, u.(frame := AfterProbe));
  }

  lemma RecoveryIsCalm(s: State)
    requires CanResumeRecovery(s)
    ensures CalmButDone(s, ResumeRecovery(s))
    ensures s.frame.Throwing? && !s.destroyed ==> ResumeRecovery(s).status == Available || ResumeRecovery(s).degraded
  {
    hide Calm, CalmButDone, ProbeOrFinish, FinishRecovery, Consume;
    match s.frame {
      case AwaitUnsubscribe(_, _, _) => UnsubscribeRunsOn(s);
      case AwaitSubscribe(_, _, _) =>
        SubscribeRunsOn(s);
        CalmIsDone(s, ResumeRecovery(s));
      case AfterReconcile =>
        ProbeIsCalm(s);
        CalmIsDone(s, ProbeOrFinish(s));
      case AwaitProbe(_) =>
        ProbeRunsOn(s);
        CalmIsDone(s, ResumeRecovery(s));
      case AfterProbe =>
        FinishIsCalm(s);
        CalmIsDone(s, FinishRecovery(s));
      case Throwing =>
        var t := s.(sawFailure := true);
        FailureIsCalm(s);
        FinishIsCalm(t);
        CalmInTurn(s, t, FinishRecovery(t));
        CalmIsDone(s, FinishRecovery(t));
    }
  }

  // ----- what ends a connection and what brings it back -----

  /** The connection closes while it is ready, or a command that was sent on it times out. */
  predicate Ends(s: State, e: Event, kind: Kind) {
    match e
    case DownEvent(k) => k == kind && s.Ready(kind)
    case DeadlineEvent(id) =>
      && !s.destroyed && id < |s.commands| && s.commands[id].purpose.Connection() == kind
      && s.commands[id].generation == s.Generation(kind)
    case _ => false
  }

  /** What a turn does to a connection. */
  predicate LineAfter(s: State, e: Event, t: State, kind: Kind) {
    && t.Ready(kind) == (e == ReadyEvent(kind) || (s.Ready(kind) && !Ends(s, e, kind)))
    && t.Generation(kind) == s.Generation(kind) + (if Ends(s, e, kind) || (e.DestroyCall? && !s.failed) then 1 else 0)
  }

  ghost predicate TurnIs(s: State, e: Event, t: State) {
    && LineAfter(s, e, t, Pub) && LineAfter(s, e, t, Sub)
    && t.destroyed == (s.destroyed || e.DestroyCall?)
    && Quiet(s, t)
    && (forall c :: c in s.pendingUnsub ==>
          c in t.pendingUnsub || c in t.desired || (e.RecoveryEvent? && UnsubscribeDone(s, c)))
  }

  lemma CalmTurn(s: State, e: Event, t: State)
    requires Calm(s, t)
    requires !e.ReadyEvent? && !e.DownEvent? && !e.DeadlineEvent? && !e.DestroyCall?
    ensures TurnIs(s, e, t)
  {
  }

  predicate OtherLineKept(s: State, t: State, kind: Kind) {
    var other := if kind == Pub then Sub else Pub;
    t.Ready(other) == s.Ready(other) && t.Generation(other) == s.Generation(other)
  }

  lemma DropLeaves(s: State, kind: Kind)
    ensures var t := DropConnection(s, kind);
            && !t.Ready(kind) && t.Generation(kind) == s.Generation(kind) + 1
            && OtherLineKept(s, t, kind)
            && t.destroyed == s.destroyed && t.failed == s.failed && Quiet(s, t)
            && t.pendingUnsub == s.pendingUnsub && t.sawFailure == s.sawFailure
  {
  }

  lemma DownTurn(s: State, kind: Kind)
    ensures TurnIs(s, DownEvent(kind), OnDown(s, kind))
    ensures !s.destroyed ==> OnDown(s, kind).status == Available || OnDown(s, kind).degraded
  {
    hide UpdateStatus, DropConnection;
    var seen := s.(sawFailure := true);
    DropLeaves(seen, kind);
    StatusIsCalm(seen);
    StatusIsCalm(DropConnection(seen, kind));
  }

  lemma RecycleTurn(s: State, kind: Kind, generation: nat)
    ensures var t := Recycle(s, kind, generation);
            if s.destroyed || generation != s.Generation(kind) then t == s
            else
              && !t.Ready(kind) && t.Generation(kind) == s.Generation(kind) + 1
              && OtherLineKept(s, t, kind)
              && !t.destroyed && t.pendingUnsub == s.pendingUnsub
              && (t.status == Available || t.degraded)
  {
    hide UpdateStatus, DropConnection;
    var seen := s.(sawFailure := true);
    DropLeaves(seen, kind);
    StatusIsCalm(DropConnection(seen, kind));
    StatusBelieves(DropConnection(seen, kind));
  }

  lemma DeadlineTurn(s: State, id: nat)
    requires id < |s.commands|
    ensures TurnIs(s, DeadlineEvent(id), Deadline(s, id))
    ensures Ends(s, DeadlineEvent(id), s.commands[id].purpose.Connection()) ==>
              Deadline(s, id).status == Available || Deadline(s, id).degraded
  {
    hide Recycle;
    RecycleTurn(SetPhase(s, id, Settled(false)), s.commands[id].purpose.Connection(), s.commands[id].generation);
  }

  lemma ReadyTurn(s: State, kind: Kind)
    ensures TurnIs(s, ReadyEvent(kind), OnReady(s, kind))
  {
    hide AttemptRecovery;
    var ready := (if kind == Pub then s.(pubReady := true) else s.(subReady := true)).(recoveryAttempt := 0, timer := false);
    AttemptIsCalm(ready);
  }

  lemma TimerTurn(s: State)
    ensures Calm(s, TimerFires(s))
  {
    hide AttemptRecovery;
    var t := s.(timer := false);
    assert Calm(s, t);
    AttemptIsCalm(t);
    hide Calm;
    CalmInTurn(s, t, AttemptRecovery(t));
  }

  lemma ErrorTurn(s: State)
    ensures Calm(s, OnError(s))
    ensures !s.destroyed ==> OnError(s).status == Available || OnError(s).degraded
  {
    hide UpdateStatus, Calm;
    FailureIsCalm(s);
    StatusIsCalm(s.(sawFailure := true));
    CalmInTurn(s, s.(sawFailure := true), OnError(s));
  }

  lemma DestroyTurn(s: State)
    ensures TurnIs(s, DestroyCall, Destroy(s))
  {
    var t := Destroy(s);
    assert t.pubReady == s.pubReady && t.subReady == s.subReady && t.status == s.status && t.log == s.log;
    assert t.pendingUnsub == s.pendingUnsub && t.recovering == s.recovering && t.destroyed && (t.timer ==> s.timer);
    assert t.pubGeneration == s.pubGeneration + (if s.failed then 0 else 1);
    assert t.subGeneration == s.subGeneration + (if s.failed then 0 else 1);
    hide Destroy;
  }

  lemma PublishTurn(s: State)
    ensures Calm(s, Publish(s))
  {
    hide Calm, Issue;
    NothingIsCalm(s);
    IssueIsCalm(s, Publishing, s.frame);
  }

  lemma AddedIsCalm(s: State, c: Channel, cb: Callback)
    requires !s.failed
    ensures Calm(s, s.(desired := AddCallback(s.desired, c, cb)))
    ensures Calm(s, AddChannel(s, c, cb))
    ensures AddChannel(s, c, cb).desired == AddCallback(s.desired, c, cb)
  {
    hide Remove, Dispatch, MessengerState.Insert;
    var t := s.(desired := AddCallback(s.desired, c, cb), order := s.order + [c]);
    assert Forget(t, c).pendingUnsub == Remove(t.pendingUnsub, c);
  }

  lemma SubscribeTurn(s: State, c: Channel, cb: Callback)
    ensures Calm(s, Subscribe(s, c, cb))
  {
    hide Calm, UpdateStatus, Issue, AddChannel, AddCallback;
    if s.failed {
      NothingIsCalm(s);
    } else {
      AddedIsCalm(s, c, cb);
      var t := s.(desired := AddCallback(s.desired, c, cb));
      var added := AddChannel(s, c, cb);
      var sent := Issue(added, Subscribing(c));
      StatusIsCalm(t);
      CalmInTurn(s, t, UpdateStatus(t));
      StatusIsCalm(added);
      CalmInTurn(s, added, UpdateStatus(added));
      IssueIsCalm(added, Subscribing(c), added.frame);
      StatusIsCalm(sent);
      CalmInTurn(s, added, sent);
      CalmInTurn(s, sent, UpdateStatus(sent));
    }
  }

  lemma DroppedIsCalm(s: State, c: Channel, cb: Callback)
    ensures Calm(s, s.(desired := RemoveCallback(s.desired, c, cb)))
    ensures Calm(s, DropChannel(s, c))
  {
    hide Remove, ForgetInFrame, RemoveCallback;
    var t := DropChannel(s, c);
    assert SameLines(s, t) && Quiet(s, t) && t.pendingUnsub == s.pendingUnsub;
    hide DropChannel;
  }

  lemma UnsubscribeTurn(s: State, c: Channel, cb: Callback)
    ensures Calm(s, Unsubscribe(s, c, cb))
  {
    hide Calm, UpdateStatus, Issue, DropChannel, Remove, RemoveCallback;
    NothingIsCalm(s);
    if !s.failed && c in s.desired {
      DroppedIsCalm(s, c, cb);
      var dropped := DropChannel(s, c);
      var sent := Issue(dropped, Unsubscribing(c));
      StatusIsCalm(dropped);
      CalmInTurn(s, dropped, UpdateStatus(dropped));
      IssueIsCalm(dropped, Unsubscribing(c), dropped.frame);
      StatusIsCalm(sent);
      CalmInTurn(s, dropped, sent);
      CalmInTurn(s, sent, UpdateStatus(sent));
    }
  }

  lemma ResumeTurn(s: State, id: nat)
    requires id < |s.commands| && s.commands[id].phase.Settled?
    ensures Calm(s, Resume(s, id))
  {
    hide Calm, Consume, PublishSettled, SubscribeSettled, UnsubscribeSettled;
    var t, command := Consume(s, id), s.commands[id];
    ConsumeKeeps(s, id);
    match command.purpose {
      case Publishing =>
        PublishLeaves(t, command.generation, command.phase.ok);
        CalmInTurn(s, t, PublishSettled(t, command.generation, command.phase.ok));
      case Subscribing(c) =>
        SubscribeLeaves(t, c, command.generation, command.phase.ok);
        CalmInTurn(s, t, SubscribeSettled(t, c, command.generation, command.phase.ok));
      case Unsubscribing(c) =>
        UnsubscribeLeaves(t, c, command.generation, command.phase.ok);
        CalmInTurn(s, t, UnsubscribeSettled(t, c, command.generation, command.phase.ok));
      case _ =>
    }
  }

  lemma AnyTurn(s: State, e: Event)
    requires Enabled(s, e)
    ensures TurnIs(s, e, Step(s, e))
  {
    hide Calm, TurnIs, CalmButDone, Publish, Subscribe, Unsubscribe, Destroy, OnError, OnReady, OnDown, Reply, TimerFires, Resume,
         ResumeRecovery, Deadline;
    match e {
      case PublishCall => PublishTurn(s); CalmTurn(s, e, Publish(s));
      case SubscribeCall(c, cb) => SubscribeTurn(s, c, cb); CalmTurn(s, e, Subscribe(s, c, cb));
      case UnsubscribeCall(c, cb) => UnsubscribeTurn(s, c, cb); CalmTurn(s, e, Unsubscribe(s, c, cb));
      case DestroyCall => DestroyTurn(s);
      case ErrorEvent => ErrorTurn(s); CalmTurn(s, e, OnError(s));
      case ReadyEvent(kind) => ReadyTurn(s, kind);
      case DownEvent(kind) => DownTurn(s, kind);
      case ReplyEvent(id, ok) => ReplyTurn(s, id, ok); CalmTurn(s, e, Reply(s, id, ok));
      case DeadlineEvent(id) => DeadlineTurn(s, id);
      case ResumeEvent(id) => ResumeTurn(s, id); CalmTurn(s, e, Resume(s, id));
      case RecoveryEvent => RecoveryIsCalm(s); RecoveryTurn(s, ResumeRecovery(s));
      case TimerEvent => TimerTurn(s); CalmTurn(s, e, TimerFires(s));
    }
  }

  lemma RecoveryTurn(s: State, t: State)
    requires CalmButDone(s, t)
    ensures TurnIs(s, RecoveryEvent, t)
  {
  }

  lemma ReplyTurn(s: State, id: nat, ok: bool)
    requires id < |s.commands|
    ensures Calm(s, Reply(s, id, ok))
  {
    hide Calm, SetPhase;
    PhaseIsCalm(s, id, Settled(ok));
  }

  // ----- whole runs -----

  lemma TurnOfRun(run: seq<State>, events: seq<Event>, e: nat)
    requires IsRun(run, events) && e < |events|
    ensures TurnIs(run[e], events[e], run[e + 1])
  {
    hide TurnIs, Step;
    AnyTurn(run[e], events[e]);
  }

  /** Nothing since `e` has ended the connection. */
  ghost predicate UpSince(run: seq<State>, events: seq<Event>, kind: Kind, e: int, j: int)
    requires 0 <= j <= |events| <= |run|
  {
    && 0 <= e < j && events[e] == ReadyEvent(kind)
    && forall m :: e < m < j ==> !Ends(run[m], events[m], kind)
  }

  /** A connection is taken to be ready exactly when its client said so and has not closed since, nor has
      a command sent on it timed out. */
  lemma {:induction false} ReadyMeansUp(run: seq<State>, events: seq<Event>, kind: Kind, j: nat)
    requires IsRun(run, events) && j < |run|
    ensures run[j].Ready(kind) <==> exists e :: UpSince(run, events, kind, e, j)
  {
    hide Step, Enabled, Ends;
    if j > 0 {
      ReadyMeansUp(run, events, kind, j - 1);
      TurnOfRun(run, events, j - 1);
      if run[j].Ready(kind) {
        if events[j - 1] == ReadyEvent(kind) {
          assert UpSince(run, events, kind, j - 1, j);
        } else {
          var e :| UpSince(run, events, kind, e, j - 1);
          assert UpSince(run, events, kind, e, j);
        }
      }
      if e :| UpSince(run, events, kind, e, j) {
        assert e < j - 1 ==> UpSince(run, events, kind, e, j - 1);
      }
    }
  }

  lemma {:induction false} GenerationsGrow(run: seq<State>, events: seq<Event>, kind: Kind, i: nat, j: nat)
    requires IsRun(run, events) && i <= j < |run|
    ensures run[i].Generation(kind) <= run[j].Generation(kind)
    decreases j - i
  {
    hide Step, Enabled, Ends;
    if i < j {
      GenerationsGrow(run, events, kind, i, j - 1);
      TurnOfRun(run, events, j - 1);
    }
  }

  /** Once a command has timed out, the connection it was sent on is never the current one again: whatever
      Redis still says on it is not believed. */
  lemma TimedOutIsOver(run: seq<State>, events: seq<Event>, e: nat, j: nat)
    requires IsRun(run, events) && e < j < |run| && events[e].DeadlineEvent? && !run[e].destroyed
    ensures var c := run[e].commands[events[e].id];
            c.generation < run[j].Generation(c.purpose.Connection())
  {
    hide Step, Inv;
    var c := run[e].commands[events[e].id];
    RunKeeps(run, events, e);
    SentBefore(run[e], events[e].id);
    TurnOfRun(run, events, e);
    GenerationsGrow(run, events, c.purpose.Connection(), e + 1, j);
  }

  lemma SentBefore(s: State, id: nat)
    requires Inv(s) && id < |s.commands|
    ensures s.commands[id].generation <= s.Generation(s.commands[id].purpose.Connection())
  {
  }

  /** What the messenger takes for a failure. */
  predicate Fails(s: State, e: Event) {
    match e
    case ErrorEvent => true
    case DownEvent(_) => true
    case DeadlineEvent(id) => id < |s.commands| && Ends(s, e, s.commands[id].purpose.Connection())
    case ResumeEvent(id) =>
      && id < |s.commands| && s.commands[id].phase == Settled(false)
      && (s.commands[id].purpose.Publishing?
          || s.commands[id].generation == s.Generation(s.commands[id].purpose.Connection()))
      && !s.commands[id].purpose.OfRecovery()
    case RecoveryEvent => s.frame.Throwing?
    case _ => false
  }

  lemma FailureTurn(s: State, e: Event)
    requires Enabled(s, e) && Fails(s, e) && !s.destroyed
    ensures Step(s, e).status == Available || Step(s, e).degraded
  {
    hide TurnIs, Calm, CalmButDone, OnError, OnDown, Resume, ResumeRecovery, Deadline;
    match e {
      case ErrorEvent => ErrorTurn(s);
      case DownEvent(kind) => DownTurn(s, kind);
      case DeadlineEvent(id) => DeadlineTurn(s, id);
      case ResumeEvent(id) => FailedAnswer(s, id);
      case RecoveryEvent => RecoveryIsCalm(s);
      case _ =>
    }
  }

  lemma FailedAnswer(s: State, id: nat)
    requires Enabled(s, ResumeEvent(id)) && Fails(s, ResumeEvent(id)) && !s.destroyed
    ensures Resume(s, id).status == Available || Resume(s, id).degraded
  {
    hide Calm, PublishSettled, SubscribeSettled, UnsubscribeSettled;
    var t, command := Consume(s, id), s.commands[id];
    match command.purpose {
      case Publishing => PublishLeaves(t, command.generation, command.phase.ok);
      case Subscribing(c) => SubscribeLeaves(t, c, command.generation, command.phase.ok);
      case Unsubscribing(c) => UnsubscribeLeaves(t, c, command.generation, command.phase.ok);
      case _ =>
    }
  }

  /** Every failure is reported: after it the messenger is available all the same, or the last line of the
      log is the warning. */
  lemma FailuresAreReported(run: seq<State>, events: seq<Event>, e: nat)
    requires IsRun(run, events) && e < |events| && !run[e].destroyed && Fails(run[e], events[e])
    ensures run[e + 1].status == Available
            || (run[e + 1].log != [] && run[e + 1].log[|run[e + 1].log| - 1] == WarnUnavailable)
  {
    hide Step, Inv, Fails;
    FailureTurn(run[e], events[e]);
    RunKeeps(run, events, e + 1);
    assert Inv(run[e + 1]) && (run[e + 1].degraded ==> !run[e + 1].failed) by { DegradedWorks(run[e + 1]); }
    if run[e + 1].degraded {
      LastLine(run[e + 1]);
    }
  }

  lemma DegradedWorks(s: State)
    requires Inv(s)
    ensures s.degraded ==> !s.failed
  {
  }

  lemma LastLine(s: State)
    requires Inv(s) && s.degraded && !s.failed
    ensures s.log != [] && s.log[|s.log| - 1] == WarnUnavailable
  {
    assert Logged(s.log, s.degraded, s.status);
  }

  /** An answer on the current generation is believed: a successful publish makes the publisher healthy, a
      successful subscribe acknowledges a channel that is still desired; a failed publish makes the
      publisher unhealthy, and a failed unsubscribe is kept to be retried. */
  lemma AnswersAreBelieved(run: seq<State>, events: seq<Event>, e: nat)
    requires IsRun(run, events) && e < |events| && events[e].ResumeEvent?
    ensures var s, t, c := run[e], run[e + 1], run[e].commands[events[e].id];
            && (c.purpose.Publishing? ==>
                  if c.phase == Settled(true) then c.generation == s.pubGeneration ==> t.pubHealthy else !t.pubHealthy)
            && (c.purpose.Subscribing? && c.phase == Settled(true) && c.purpose.channel in s.desired ==>
                  c.generation == s.subGeneration ==> c.purpose.channel in t.acked)
            && (c.purpose.Unsubscribing? && c.phase == Settled(false) ==>
                  c.generation == s.subGeneration ==> c.purpose.channel in t.pendingUnsub)
  {
    hide Calm, PublishSettled, SubscribeSettled, UnsubscribeSettled;
    var s, id := run[e], events[e].id;
    assert Enabled(s, events[e]) && run[e + 1] == Step(s, events[e]);
    var t, command := Consume(s, id), s.commands[id];
    match command.purpose {
      case Publishing => PublishLeaves(t, command.generation, command.phase.ok);
      case Subscribing(c) => SubscribeLeaves(t, c, command.generation, command.phase.ok);
      case Unsubscribing(c) => UnsubscribeLeaves(t, c, command.generation, command.phase.ok);
      case _ =>
    }
  }

  /** And it stays to be retried until the channel is desired again or Redis has answered the retry. */
  lemma FailedUnsubscribeStays(run: seq<State>, events: seq<Event>, e: nat, c: Channel)
    requires IsRun(run, events) && e < |events| && c in run[e].pendingUnsub
    ensures c in run[e + 1].pendingUnsub || c in run[e + 1].desired
            || (events[e] == RecoveryEvent && UnsubscribeDone(run[e], c))
  {
    hide Step, UnsubscribeDone;
    TurnOfRun(run, events, e);
  }

  /** A destroyed messenger keeps quiet: no line in the log, no other status, no timer and no recovery but
      one that was running. */
  lemma {:induction false} DestroyedStaysQuiet(run: seq<State>, events: seq<Event>, i: nat, j: nat)
    requires IsRun(run, events) && i < j < |run| && events[i] == DestroyCall
    ensures run[j].destroyed && !run[j].timer
    ensures run[j].status == run[i].status && run[j].log == run[i].log
    ensures run[j].recovering ==> run[i].recovering
    decreases j - i
  {
    hide Step, Inv, LineAfter;
    TurnOfRun(run, events, j - 1);
    RunKeeps(run, events, j);
    if i < j - 1 {
      DestroyedStaysQuiet(run, events, i, j - 1);
    } else {
      assert run[j] == Destroy(run[i]) by { DestroyStep(run, events, i); }
    }
    assert !run[j].timer by { DestroyedIsDisarmed(run[j]); }
  }

  lemma DestroyStep(run: seq<State>, events: seq<Event>, i: nat)
    requires IsRun(run, events) && i < |events| && events[i] == DestroyCall
    ensures run[i + 1] == Destroy(run[i])
  {
  }

  lemma DestroyedIsDisarmed(s: State)
    requires Inv(s) && s.destroyed
    ensures !s.timer
  {
  }
}
