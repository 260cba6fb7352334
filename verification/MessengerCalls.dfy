/**
 What the messenger sends for its callers: one command for each call that needs one, in their order, and else retries.
 */
module MessengerCalls {
  import opened MessengerState
  import opened MessengerRuns
  import opened Messenger

  /** What a call asks to be sent, in the terms of the calls before it: a publish always; a subscribe
      if nobody hears the channel yet, an unsubscribe if nobody else does, on a ready connection. */
  ghost predicate Asks(s: State, before: seq<Event>, e: Event, purpose: Purpose) {
    match purpose
    case Publishing => e.PublishCall?
    case Subscribing(c) =>
      e.SubscribeCall? && e.channel == c && s.subReady && forall cb :: !Hears(before, c, cb)
    case Unsubscribing(c) =>
      && e.UnsubscribeCall? && e.channel == c && s.subReady
      && Hears(before, c, e.callback) && forall cb :: Hears(before, c, cb) ==> cb == e.callback
    case _ => false
  }

  /** What a command says for good, whatever becomes of it. */
  predicate SentAs(command: Command, purpose: Purpose, s: State) {
    && command.purpose == purpose
    && command.generation == s.Generation(purpose.Connection())
    && command.live == s.Ready(purpose.Connection())
  }

  // ----- one turn -----

  /** Commands stay what they are, and those added are the recovery's own. */
  ghost predicate OnlyRecovery(before: seq<Command>, after: seq<Command>) {
    && StillSent(before, after)
    && forall id :: |before| <= id < |after| ==> after[id].purpose.OfRecovery()
  }

  ghost predicate StillSent(before: seq<Command>, after: seq<Command>) {
    && |before| <= |after|
    && forall id :: 0 <= id < |before| ==> after[id] == before[id].(phase := after[id].phase)
  }

  lemma IssueSends(s: State, purpose: Purpose, frame: Frame)
    requires purpose.OfRecovery()
    ensures OnlyRecovery(s.commands, Issue(s, purpose).(frame := frame).commands)
  {
  }

  lemma {:induction false} RetrySubscribesSends(s: State, next: nat)
    ensures OnlyRecovery(s.commands, RetrySubscribes(s, next).commands)
    decreases |s.order| - next
  {
    hide RetrySubscribes, Issue, OnlyRecovery;
    RetrySubscribesUnfolds(s, next);
    NothingSent(s.commands);
    if next < |s.order| {
      if s.order[next] in s.acked {
        RetrySubscribesSends(s, next + 1);
      } else {
        IssueSends(s, RetrySubscribe(s.order[next]), AwaitSubscribe(|s.commands|, s.order[next], next + 1));
      }
    }
  }

  lemma {:induction false} RetryUnsubscribesSends(s: State, rest: seq<Channel>)
    ensures OnlyRecovery(s.commands, RetryUnsubscribes(s, rest).commands)
    decreases |rest|
  {
    hide RetryUnsubscribes, RetrySubscribes, Remove;
    RetryUnsubscribesUnfolds(s, rest);
    if rest == [] {
      RetrySubscribesSends(s, 0);
    } else if rest[0] in s.desired {
      RetryUnsubscribesSends(s.(pendingUnsub := Remove(s.pendingUnsub, rest[0])), rest[1..]);
    }
  }

  lemma StatusSendsNothing(s: State)
    ensures UpdateStatus(s).commands == s.commands
  {
    hide AllAcked;
  }

  lemma ProbeSends(s: State)
    ensures OnlyRecovery(s.commands, ProbeOrFinish(s).commands)
    ensures FinishRecovery(s).commands == s.commands
  {
    hide UpdateStatus;
    StatusSendsNothing(s.(recovering := false, frame := Idle));
  }

  lemma AttemptSends(s: State)
    ensures OnlyRecovery(s.commands, AttemptRecovery(s).commands)
  {
    hide RetryUnsubscribes, ProbeOrFinish, OnlyRecovery;
    assert OnlyRecovery(s.commands, s.commands) by { NothingSent(s.commands); }
    if !s.destroyed && !s.recovering {
      var running := s.(recovering := true);
      RetryUnsubscribesSends(running, s.pendingUnsub);
      ProbeSends(running);
    }
  }

  lemma NothingSent(commands: seq<Command>)
    ensures OnlyRecovery(commands, commands)
  {
  }

  lemma SentInTurn(a: seq<Command>, b: seq<Command>, c: seq<Command>)
    requires OnlyRecovery(a, b) && OnlyRecovery(b, c)
    ensures OnlyRecovery(a, c)
  {
  }

  lemma UnsubscribeAnswerSends(s: State, channel: Channel, rest: seq<Channel>, ok: bool)
    ensures OnlyRecovery(s.commands, UnsubscribeAnswered(s, channel, rest, ok).commands)
  {
    hide OnlyRecovery, RetryUnsubscribes, Remove;
    NothingSent(s.commands);
    RetryUnsubscribesSends(s.(pendingUnsub := Remove(s.pendingUnsub, channel)), rest);
  }

  lemma SubscribeAnswerSends(s: State, channel: Channel, next: nat, generation: nat, ok: bool)
    ensures OnlyRecovery(s.commands, SubscribeAnswered(s, channel, next, generation, ok).commands)
  {
    hide OnlyRecovery, RetrySubscribes;
    NothingSent(s.commands);
    RetrySubscribesSends(s, next);
    RetrySubscribesSends(s.(acked := s.acked + {channel}), next);
  }

  lemma ProbeAnswerSends(s: State, generation: nat, ok: bool)
    ensures ProbeAnswered(s, generation, ok).commands == s.commands
  {
    hide SameRegistry;
    if !ok {
      assert ProbeAnswered(s, generation, ok) == s.(frame := Throwing);
    } else if generation == s.pubGeneration {
      assert ProbeAnswered(s, generation, ok) == s.(pubHealthy := true, frame := AfterProbe);
    }
  }

  /** A recovery that runs on after an answer. */
  lemma AnswerSends(s: State)
    requires CanResumeRecovery(s) && (s.frame.AwaitUnsubscribe? || s.frame.AwaitSubscribe? || s.frame.AwaitProbe?)
    ensures OnlyRecovery(s.commands, ResumeRecovery(s).commands)
  {
    hide OnlyRecovery, Consume, UnsubscribeAnswered, SubscribeAnswered, ProbeAnswered, SameRegistry;
    var t := Consume(s, s.frame.id);
    ConsumeSends(s, s.frame.id);
    match s.frame {
      case AwaitUnsubscribe(id, channel, rest) =>
        UnsubscribeAnswerSends(t, channel, rest, s.commands[id].phase.ok);
        SentInTurn(s.commands, t.commands, ResumeRecovery(s).commands);
      case AwaitSubscribe(id, channel, next) =>
        SubscribeAnswerSends(t, channel, next, s.commands[id].generation, s.commands[id].phase.ok);
        SentInTurn(s.commands, t.commands, ResumeRecovery(s).commands);
      case AwaitProbe(id) =>
        ProbeAnswerSends(t, s.commands[id].generation, s.commands[id].phase.ok);
    }
  }

  lemma RecoverySends(s: State)
    requires CanResumeRecovery(s)
    ensures OnlyRecovery(s.commands, ResumeRecovery(s).commands)
  {
    hide OnlyRecovery, ProbeOrFinish, FinishRecovery, Consume, UnsubscribeAnswered, SubscribeAnswered, ProbeAnswered;
    if s.frame.AwaitUnsubscribe? || s.frame.AwaitSubscribe? || s.frame.AwaitProbe? {
      hide ResumeRecovery;
      AnswerSends(s);
    } else {
      NothingSent(s.commands);
      ProbeSends(s);
      ProbeSends(s.(sawFailure := true));
    }
  }

  lemma ConsumeSends(s: State, id: nat)
    requires id < |s.commands| && s.commands[id].phase.Settled?
    ensures OnlyRecovery(s.commands, Consume(s, id).commands)
  {
  }

  lemma PublishSettledSends(s: State, generation: nat, ok: bool)
    ensures PublishSettled(s, generation, ok).commands == s.commands
  {
    hide UpdateStatus;
    StatusSendsNothing(s.(sawFailure := true, pubHealthy := false));
    StatusSendsNothing(s.(pubHealthy := true));
  }

  lemma SubscribeSettledSends(s: State, c: Channel, generation: nat, ok: bool)
    ensures SubscribeSettled(s, c, generation, ok).commands == s.commands
  {
    hide UpdateStatus;
    StatusSendsNothing(s.(acked := s.acked + {c}));
    StatusSendsNothing(s.(sawFailure := true));
  }

  lemma UnsubscribeSettledSends(s: State, c: Channel, generation: nat, ok: bool)
    ensures UnsubscribeSettled(s, c, generation, ok).commands == s.commands
  {
    hide UpdateStatus, Insert;
    StatusSendsNothing(s.(sawFailure := true, pendingUnsub := Insert(s.pendingUnsub, c)));
  }

  lemma ResumeSends(s: State, id: nat)
    requires id < |s.commands| && s.commands[id].phase.Settled?
    ensures OnlyRecovery(s.commands, Resume(s, id).commands)
  {
    hide OnlyRecovery, Consume, PublishSettled, SubscribeSettled, UnsubscribeSettled, SameRegistry;
    var t := Consume(s, id);
    var command := s.commands[id];
    ConsumeSends(s, id);
    match command.purpose {
      case Publishing => PublishSettledSends(t, command.generation, command.phase.ok);
      case Subscribing(c) => SubscribeSettledSends(t, c, command.generation, command.phase.ok);
      case Unsubscribing(c) => UnsubscribeSettledSends(t, c, command.generation, command.phase.ok);
      case _ =>
    }
  }

  lemma RecycleSends(s: State, kind: Kind, generation: nat)
    ensures Recycle(s, kind, generation).commands == s.commands
  {
    hide UpdateStatus, DropConnection;
    DropSendsNothing(s.(sawFailure := true), kind);
    StatusSendsNothing(DropConnection(s.(sawFailure := true), kind));
  }

  lemma DeadlineSends(s: State, id: nat)
    requires id < |s.commands|
    ensures OnlyRecovery(s.commands, Deadline(s, id).commands)
  {
    hide Recycle, OnlyRecovery, SetPhase;
    PhaseSends(s, id, Settled(false));
    RecycleSends(SetPhase(s, id, Settled(false)), s.commands[id].purpose.Connection(), s.commands[id].generation);
  }

  lemma DownSends(s: State, kind: Kind)
    ensures OnDown(s, kind).commands == s.commands
  {
    hide UpdateStatus, DropConnection;
    var seen := s.(sawFailure := true);
    StatusSendsNothing(seen);
    DropSendsNothing(seen, kind);
    StatusSendsNothing(DropConnection(seen, kind));
  }

  lemma ReadySends(s: State, kind: Kind)
    ensures OnlyRecovery(s.commands, OnReady(s, kind).commands)
  {
    hide AttemptRecovery, OnlyRecovery;
    var ready := if kind == Pub then s.(pubReady := true) else s.(subReady := true);
    AttemptSends(ready.(recoveryAttempt := 0, timer := false));
  }

  lemma TimerSends(s: State)
    ensures OnlyRecovery(s.commands, TimerFires(s).commands)
  {
    hide AttemptRecovery, OnlyRecovery;
    AttemptSends(s.(timer := false));
  }

  lemma ErrorSends(s: State)
    ensures OnError(s).commands == s.commands
  {
    hide UpdateStatus;
    StatusSendsNothing(s.(sawFailure := true));
  }

  lemma DestroySends(s: State)
    ensures Destroy(s).commands == s.commands
  {
  }

  /** Connection events, timers and settled promises send nothing but what the recovery retries. */
  lemma OtherTurnsSend(s: State, e: Event)
    requires Enabled(s, e) && !e.PublishCall? && !e.SubscribeCall? && !e.UnsubscribeCall?
    ensures OnlyRecovery(s.commands, Step(s, e).commands)
  {
    hide OnlyRecovery, Destroy, OnError, OnReady, OnDown, Reply, TimerFires, Resume, ResumeRecovery, Deadline;
    NothingSent(s.commands);
    match e {
      case DestroyCall => DestroySends(s);
      case ErrorEvent => ErrorSends(s);
      case ReadyEvent(kind) => ReadySends(s, kind);
      case DownEvent(kind) => DownSends(s, kind);
      case ReplyEvent(id, ok) => ReplySends(s, id, ok);
      case DeadlineEvent(id) => DeadlineSends(s, id);
      case ResumeEvent(id) => ResumeSends(s, id);
      case RecoveryEvent => RecoverySends(s);
      case TimerEvent => TimerSends(s);
    }
  }

  lemma ReplySends(s: State, id: nat, ok: bool)
    requires id < |s.commands|
    ensures OnlyRecovery(s.commands, Reply(s, id, ok).commands)
  {
    hide OnlyRecovery, SetPhase;
    PhaseSends(s, id, Settled(ok));
  }

  lemma DropSendsNothing(s: State, kind: Kind)
    ensures DropConnection(s, kind).commands == s.commands
  {
  }

  lemma PhaseSends(s: State, id: nat, phase: Phase)
    requires id < |s.commands|
    ensures OnlyRecovery(s.commands, SetPhase(s, id, phase).commands)
  {
  }

  /** One more command, in flight, or none. */
  predicate SendsOne(s: State, t: State, sends: bool, purpose: Purpose) {
    t.commands ==
    if sends
    then s.commands + [Command(purpose, s.Generation(purpose.Connection()), s.Ready(purpose.Connection()), InFlight)]
    else s.commands
  }

  lemma PublishSends(s: State)
    ensures SendsOne(s, Publish(s), !s.failed, Publishing)
  {
  }

  lemma SubscribeSends(s: State, c: Channel, cb: Callback)
    requires !s.failed
    ensures SendsOne(s, Subscribe(s, c, cb), s.subReady && c !in s.desired, Subscribing(c))
  {
    hide UpdateStatus, AddCallback, Forget;
    var added := AddChannel(s, c, cb);
    if c in s.desired {
      StatusSendsNothing(s.(desired := AddCallback(s.desired, c, cb)));
    } else {
      ForgetSendsNothing(s.(desired := AddCallback(s.desired, c, cb), order := s.order + [c]), c);
      StatusSendsNothing(added);
      StatusSendsNothing(Issue(added, Subscribing(c)));
    }
  }

  lemma ForgetSendsNothing(s: State, c: Channel)
    ensures var t := Forget(s, c);
            t.commands == s.commands && t.subGeneration == s.subGeneration && t.subReady == s.subReady
  {
    hide Remove;
  }

  lemma DropChannelSendsNothing(s: State, c: Channel)
    ensures var t := DropChannel(s, c);
            t.commands == s.commands && t.subGeneration == s.subGeneration && t.subReady == s.subReady
  {
    hide Remove, ForgetInFrame;
  }

  lemma UnsubscribeSends(s: State, c: Channel, cb: Callback)
    requires !s.failed
    ensures SendsOne(s, Unsubscribe(s, c, cb),
                     s.subReady && c in s.desired && Remove(s.desired[c], cb) == [], Unsubscribing(c))
  {
    hide UpdateStatus, RemoveCallback, DropChannel, Remove;
    if c in s.desired && Remove(s.desired[c], cb) == [] {
      var dropped := DropChannel(s, c);
      DropChannelSendsNothing(s, c);
      StatusSendsNothing(dropped);
      StatusSendsNothing(Issue(dropped, Unsubscribing(c)));
    }
  }

  // ----- whole runs -----

  /** The registry in the terms of the calls. */
  lemma HeardByCalls(run: seq<State>, events: seq<Event>, i: nat, c: Channel)
    requires IsRun(run, events) && i < |run| && !run[0].failed
    ensures !run[i].failed
    ensures c in run[i].desired <==> exists cb :: Hears(events[..i], c, cb)
    ensures c in run[i].desired ==> forall cb :: cb in run[i].desired[c] <==> Hears(events[..i], c, cb)
  {
    hide Inv, RegistryAfter;
    DispatchesLikeMemory(run, events, i);
    WhoHears(run, events, i, c);
    RunKeeps(run, events, i);
    var s := run[i];
    if c in s.desired {
      KeyHasCallbacks(s, c);
      assert s.desired[c][0] in Dispatch(s.desired, c);
    }
  }

  lemma KeyHasCallbacks(s: State, c: Channel)
    requires Inv(s) && !s.failed && c in s.desired
    ensures s.desired[c] != []
  {
  }

  lemma {:induction false} NobodyElse(callbacks: seq<Callback>, cb: Callback)
    ensures Remove(callbacks, cb) == [] <==> forall x :: x in callbacks ==> x == cb
  {
    var left := Remove(callbacks, cb);
    if left != [] {
      assert left[0] in left;
    }
  }

  /** What has been sent since was asked for, except by the recovery. */
  ghost predicate AllAsked(s: State, before: seq<Event>, e: Event, after: seq<Command>) {
    forall id :: |s.commands| <= id < |after| && !after[id].purpose.OfRecovery() ==> Asks(s, before, e, after[id].purpose)
  }

  /** One turn of a run sends what was asked for, one command, and nothing else but retries. */
  lemma TurnSends(run: seq<State>, events: seq<Event>, e: nat)
    requires IsRun(run, events) && e < |events| && !run[0].failed
    ensures StillSent(run[e].commands, run[e + 1].commands)
    ensures forall p :: Asks(run[e], events[..e], events[e], p) ==>
              && |run[e + 1].commands| == |run[e].commands| + 1
              && SentAs(run[e + 1].commands[|run[e].commands|], p, run[e])
              && run[e + 1].commands[|run[e].commands|].phase == InFlight
    ensures AllAsked(run[e], events[..e], events[e], run[e + 1].commands)
  {
    hide Hears, Inv, Publish, Subscribe, Unsubscribe, Remove;
    var s, call := run[e], events[e];
    DispatchesLikeMemory(run, events, e);
    if call.PublishCall? || call.SubscribeCall? || call.UnsubscribeCall? {
      match call {
        case PublishCall => PublishSends(s);
        case SubscribeCall(c, cb) => SubscribeSends(s, c, cb);
        case UnsubscribeCall(c, cb) => UnsubscribeSends(s, c, cb);
        case _ =>
      }
      if !call.PublishCall? {
        HeardByCalls(run, events, e, call.channel);
        if call.channel in s.desired {
          NobodyElse(s.desired[call.channel], call.callback);
          if call.UnsubscribeCall? {
            KeyHears(run, events, e, call.channel);
          }
        }
      }
      PrefixStillSent(s.commands, run[e + 1].commands);
    } else {
      OtherTurnsSend(s, call);
    }
  }

  lemma KeyHears(run: seq<State>, events: seq<Event>, e: nat, c: Channel)
    requires IsRun(run, events) && e < |run| && !run[0].failed && c in run[e].desired
    ensures exists cb :: cb in run[e].desired[c]
  {
    hide Inv;
    RunKeeps(run, events, e);
    DispatchesLikeMemory(run, events, e);
    KeyHasCallbacks(run[e], c);
    assert run[e].desired[c][0] in run[e].desired[c];
  }

  lemma PrefixStillSent(before: seq<Command>, after: seq<Command>)
    requires |before| <= |after| && after[..|before|] == before
    ensures StillSent(before, after)
  {
    forall id | 0 <= id < |before| ensures after[id] == before[id] {
      assert after[..|before|][id] == after[id];
    }
  }

  lemma {:induction false} SentForGood(run: seq<State>, events: seq<Event>, i: nat, j: nat)
    requires IsRun(run, events) && i <= j < |run| && !run[0].failed
    ensures StillSent(run[i].commands, run[j].commands)
    decreases j - i
  {
    if i < j {
      hide IsRun, Asks, SentAs;
      assert j - 1 < |events| by { RunIsLong(run, events); }
      SentForGood(run, events, i, j - 1);
      TurnSends(run, events, j - 1);
    }
  }

  lemma RunIsLong(run: seq<State>, events: seq<Event>)
    requires IsRun(run, events)
    ensures |run| == |events| + 1
  {
  }

  /** Every call is sent: the command of a publish, of the first subscribe or of the last unsubscribe of
      a channel is the next one, in flight at once, and from then on it says what was asked for and the
      generation and readiness of its connection at the call. */
  lemma CallsAreSent(run: seq<State>, events: seq<Event>, e: nat, purpose: Purpose, j: nat)
    requires IsRun(run, events) && e < j < |run| && !run[0].failed
    requires Asks(run[e], events[..e], events[e], purpose)
    ensures |run[e + 1].commands| == |run[e].commands| + 1
    ensures run[e + 1].commands[|run[e].commands|].phase == InFlight
    ensures |run[e].commands| < |run[j].commands|
    ensures SentAs(run[j].commands[|run[e].commands|], purpose, run[e])
  {
    TurnSends(run, events, e);
    hide IsRun, Asks;
    SentForGood(run, events, e + 1, j);
  }

  /** And nothing else is: every command that the recovery does not retry for itself was asked for by
      the call that made it, and two calls never share one. */
  lemma {:induction false} SentByCalls(run: seq<State>, events: seq<Event>, j: nat, id: nat) returns (e: nat)
    requires IsRun(run, events) && j < |run| && !run[0].failed
    requires id < |run[j].commands| && !run[j].commands[id].purpose.OfRecovery()
    ensures e < j && |run[e].commands| == id
    ensures Asks(run[e], events[..e], events[e], run[j].commands[id].purpose)
  {
    if j == 0 {
      assert false;
    } else {
      hide Asks, Step, SentAs;
      TurnSends(run, events, j - 1);
      if id < |run[j - 1].commands| {
        e := SentByCalls(run, events, j - 1, id);
      } else {
        e := j - 1;
        assert |run[j].commands| == |run[e].commands| + 1;
      }
    }
  }

  /** The commands of two calls stand in the order of the calls. */
  lemma CallsInOrderSent(run: seq<State>, events: seq<Event>, e: nat, e': nat, purpose: Purpose)
    requires IsRun(run, events) && e < e' < |run| && !run[0].failed
    requires Asks(run[e], events[..e], events[e], purpose)
    ensures |run[e].commands| < |run[e'].commands|
  {
    CallsAreSent(run, events, e, purpose, e');
  }
}
