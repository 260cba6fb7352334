/**
 What the messenger promises its callers over whole runs: a status of `available` is
 earned, no wakeup is lost, and once both connections stay up the messenger heals itself.
 */
module MessengerRecovery {
  import opened MessengerState
  import opened MessengerRuns

  /** In every reachable live state, `available` means both connections are ready, no channel
      is still to be unsubscribed, and every desired channel and the publisher itself are owed
      to a command sent and answered on the connection held now.  When no recovery is running,
      the status says exactly that. */
  lemma AvailableIsEarned(run: seq<State>, events: seq<Event>, i: nat)
    requires IsRun(run, events) && i < |run| && run[i].Live()
    ensures var s := run[i];
            s.status == Available ==>
              && s.pubReady && s.subReady && s.pubHealthy && s.pendingUnsub == []
              && (forall c :: c in s.desired ==> c in s.acked && AckOwed(s.commands, s.subGeneration, c))
              && PublisherOwed(s.commands, s.pubGeneration)
    ensures !run[i].recovering && run[i].Healthy() ==> run[i].status == Available
  {
    RunKeeps(run, events, i);
  }

  /** Generation fencing, whatever the status: nothing acknowledged outlives its connection. */
  lemma BeliefsAreFenced(run: seq<State>, events: seq<Event>, i: nat)
    requires IsRun(run, events) && i < |run| && run[i].Live()
    ensures var s := run[i];
            && (forall c :: c in s.acked ==> s.subReady && AckOwed(s.commands, s.subGeneration, c))
            && (s.pubHealthy ==> s.pubReady && PublisherOwed(s.commands, s.pubGeneration))
  {
    RunKeeps(run, events, i);
    var s := run[i];
    forall c | c in s.acked ensures s.subReady {
      assert AckOwed(s.commands, s.subGeneration, c);
      var id: nat :| Answered(s.commands, id, Sub, s.subGeneration) && s.commands[id].purpose.Subscribes(c);
    }
    if s.pubHealthy {
      var id: nat :| Answered(s.commands, id, Pub, s.pubGeneration);
    }
  }

  /** A ready connection with work left always has a timer armed or a recovery running, and
      only one recovery at a time. */
  lemma NoWakeupIsLost(run: seq<State>, events: seq<Event>, i: nat)
    requires IsRun(run, events) && i < |run| && run[i].Live() && run[i].NeedsWork()
    ensures run[i].timer || (run[i].recovering && run[i].frame != Idle)
  {
    RunKeeps(run, events, i);
  }

  /** Over any run the log is warning, recovery, warning, recovery: one line for each change. */
  lemma OutagesAreReportedOnce(run: seq<State>, events: seq<Event>, i: nat, k: nat)
    requires IsRun(run, events) && i < |run| && k < |run[i].log|
    ensures run[i].log[k] == if k % 2 == 0 then WarnUnavailable else InfoRecovered
    ensures run[i].degraded <==> |run[i].log| % 2 == 1
  {
    RunKeeps(run, events, i);
  }

  // ----- healing -----

  /** With the connections left alone: an awaited command that can succeed does, a suspended
      recovery runs on, and an armed timer fires. */
  function QuietEvent(s: State): Event {
    match s.frame
    case AwaitUnsubscribe(id, _, _) => AnswerOrResume(s, id)
    case AwaitSubscribe(id, _, _) => AnswerOrResume(s, id)
    case AwaitProbe(id) => AnswerOrResume(s, id)
    case Idle => TimerEvent
    case _ => RecoveryEvent
  }

  function AnswerOrResume(s: State, id: nat): Event {
    if id < |s.commands| && s.commands[id].phase == InFlight
    then ReplyEvent(id, s.commands[id].live)
    else RecoveryEvent
  }

  ghost predicate QuietRun(run: seq<State>) {
    && |run| > 0
    && forall i :: 0 <= i < |run| - 1 ==>
         Enabled(run[i], QuietEvent(run[i])) && run[i + 1] == Step(run[i], QuietEvent(run[i]))
  }

  predicate Connected(s: State) {
    s.Live() && s.pubReady && s.subReady
  }

  function Waiting(s: State, id: nat): nat {
    if id < |s.commands| && s.commands[id].phase == InFlight then 1 else 0
  }

  /** How many turns a recovery has left at most. */
  function Rank(s: State): int {
    match s.frame
    case AwaitUnsubscribe(id, _, rest) => 2 * |rest| + 2 * |s.order| + 8 + Waiting(s, id)
    case AwaitSubscribe(id, _, next) => 2 * (|s.order| - next) + 6 + Waiting(s, id)
    case AfterReconcile => 4
    case AwaitProbe(id) => 2 + Waiting(s, id)
    case AfterProbe => 1
    case Throwing => 1
    case Idle => 0
  }

  /** The awaited command was sent on the connection that is still up. */
  predicate Hopeful(s: State, id: nat) {
    && id < |s.commands|
    && s.commands[id].live
    && (s.commands[id].phase == InFlight || s.commands[id].phase == Settled(true))
    && s.commands[id].generation == s.Generation(s.commands[id].purpose.Connection())
  }

  ghost predicate AckedUpTo(s: State, n: nat) {
    forall i :: 0 <= i < n && i < |s.order| ==> s.order[i] in s.acked
  }

  /** A recovery that started after the last disturbance. */
  ghost predicate Undisturbed(s: State) {
    && Connected(s)
    && match s.frame
       case AwaitUnsubscribe(id, c, rest) => Hopeful(s, id) && forall x :: x in s.pendingUnsub ==> x == c || x in rest
       case AwaitSubscribe(id, c, next) =>
         && Hopeful(s, id) && s.pendingUnsub == []
         && 1 <= next <= |s.order| && s.order[next - 1] == c && AckedUpTo(s, next - 1)
       case AfterReconcile => s.SubscriberHealthy()
       case AwaitProbe(id) => Hopeful(s, id) && s.SubscriberHealthy()
       case AfterProbe => s.Healthy()
       case _ => false
  }

  predicate SameConnections(s: State, t: State) {
    t.failed == s.failed && t.destroyed == s.destroyed && t.pubReady == s.pubReady && t.subReady == s.subReady
  }

  lemma {:induction false} RetrySubscribesShortens(s: State, next: nat)
    requires next <= |s.order|
    ensures SameConnections(s, RetrySubscribes(s, next))
    ensures Rank(RetrySubscribes(s, next)) <= 2 * (|s.order| - next) + 5
    decreases |s.order| - next
  {
    if next < |s.order| && s.order[next] in s.acked {
      RetrySubscribesShortens(s, next + 1);
    }
  }

  lemma {:induction false} RetryUnsubscribesShortens(s: State, rest: seq<Channel>)
    ensures SameConnections(s, RetryUnsubscribes(s, rest))
    ensures Rank(RetryUnsubscribes(s, rest)) <= 2 * |rest| + 2 * |s.order| + 7
    decreases |rest|
  {
    hide RetryUnsubscribes, RetrySubscribes;
    RetryUnsubscribesUnfolds(s, rest);
    if rest == [] {
      RetrySubscribesShortens(s, 0);
    } else if rest[0] in s.desired {
      RetryUnsubscribesShortens(s.(pendingUnsub := Remove(s.pendingUnsub, rest[0])), rest[1..]);
    }
  }

  lemma {:induction false} RetrySubscribesUndisturbed(s: State, next: nat)
    requires next <= |s.order| && Registered(s.desired, s.order)
    requires Connected(s) && s.pendingUnsub == [] && AckedUpTo(s, next)
    ensures Undisturbed(RetrySubscribes(s, next))
    decreases |s.order| - next
  {
    if next < |s.order| && s.order[next] in s.acked {
      RetrySubscribesUndisturbed(s, next + 1);
    }
  }

  lemma FirstIsIn(s: seq<Channel>)
    ensures s == [] || s[0] in s
  {
  }

  lemma {:induction false} RetryUnsubscribesUndisturbed(s: State, rest: seq<Channel>)
    requires Registered(s.desired, s.order) && Connected(s)
    requires forall x :: x in s.pendingUnsub ==> x in rest
    ensures Undisturbed(RetryUnsubscribes(s, rest))
    decreases |rest|
  {
    hide Registered, RetryUnsubscribes, RetrySubscribes;
    RetryUnsubscribesUnfolds(s, rest);
    if rest == [] {
      FirstIsIn(s.pendingUnsub);
      RetrySubscribesUndisturbed(s, 0);
    } else if rest[0] in s.desired {
      RetryUnsubscribesUndisturbed(s.(pendingUnsub := Remove(s.pendingUnsub, rest[0])), rest[1..]);
    }
  }

  /** A recovery that finishes undisturbed finishes healthy. */
  lemma FinishesAvailable(s: State)
    requires Connected(s)
    ensures SameConnections(s, FinishRecovery(s)) && FinishRecovery(s).frame == Idle
    ensures s.Healthy() ==> FinishRecovery(s).status == Available
  {
  }

  lemma AwaitedAnswerArrives(s: State, id: nat)
    requires Inv(s) && Connected(s) && QuietEvent(s) == AnswerOrResume(s, id)
    requires s.frame.AwaitUnsubscribe? || s.frame.AwaitSubscribe? || s.frame.AwaitProbe?
    requires s.frame.id == id && id < |s.commands| && s.commands[id].phase == InFlight
    ensures Enabled(s, QuietEvent(s))
    ensures var t := Step(s, QuietEvent(s));
            Connected(t) && Rank(t) < Rank(s) && t.frame != Idle && (Undisturbed(s) ==> Undisturbed(t))
  {
    hide Inv;
  }

  lemma UnsubscribeRunsOn(s: State)
    requires Core(s) && Connected(s) && s.frame.AwaitUnsubscribe?
    requires s.frame.id < |s.commands| && s.commands[s.frame.id].phase.Settled?
    ensures var t := ResumeRecovery(s);
            Connected(t) && Rank(t) < Rank(s) && (Undisturbed(s) ==> Undisturbed(t))
  {
    hide Fenced, Owed, Registered, Logged, RetryUnsubscribes, RetrySubscribes;
    var u := Consume(s, s.frame.id).(pendingUnsub := Remove(s.pendingUnsub, s.frame.channel));
    RetryUnsubscribesShortens(u, s.frame.rest);
    if Undisturbed(s) {
      RetryUnsubscribesUndisturbed(u, s.frame.rest);
    }
  }

  lemma SubscribeRunsOn(s: State)
    requires Core(s) && Connected(s) && s.frame.AwaitSubscribe?
    requires s.frame.id < |s.commands| && s.commands[s.frame.id].phase.Settled?
    ensures var t := ResumeRecovery(s);
            Connected(t) && Rank(t) < Rank(s) && (Undisturbed(s) ==> Undisturbed(t))
  {
    hide Fenced, Owed, Registered, Logged, RetryUnsubscribes, RetrySubscribes;
    var AwaitSubscribe(id, c, next) := s.frame;
    var t := Consume(s, id);
    var u := t.(acked := s.acked + {c});
    RetrySubscribesShortens(t, next);
    RetrySubscribesShortens(u, next);
    if Undisturbed(s) {
      RetrySubscribesUndisturbed(u, next);
    }
  }

  lemma ProbeRunsOn(s: State)
    requires Core(s) && Connected(s) && s.frame.AwaitProbe?
    requires s.frame.id < |s.commands| && s.commands[s.frame.id].phase.Settled?
    ensures var t := ResumeRecovery(s);
            Connected(t) && Rank(t) < Rank(s) && (Undisturbed(s) ==> Undisturbed(t))
  {
    hide Fenced, Owed, Registered, Logged, AllAcked;
  }

  lemma AnswerRunsOn(s: State)
    requires Inv(s) && Connected(s)
    requires s.frame.AwaitUnsubscribe? || s.frame.AwaitSubscribe? || s.frame.AwaitProbe?
    requires s.frame.id < |s.commands| && s.commands[s.frame.id].phase.Settled?
    ensures CanResumeRecovery(s)
    ensures var t := ResumeRecovery(s);
            Connected(t) && Rank(t) < Rank(s) && (Undisturbed(s) ==> Undisturbed(t))
  {
    hide Core, ResumeRecovery, Undisturbed;
    match s.frame {
      case AwaitUnsubscribe(_, _, _) => UnsubscribeRunsOn(s);
      case AwaitSubscribe(_, _, _) => SubscribeRunsOn(s);
      case AwaitProbe(_) => ProbeRunsOn(s);
    }
  }

  lemma QuietTurn(s: State)
    requires Inv(s) && Connected(s) && s.frame != Idle
    ensures Enabled(s, QuietEvent(s))
    ensures var t := Step(s, QuietEvent(s));
            && Inv(t) && Connected(t) && 0 <= Rank(t) < Rank(s)
            && (Undisturbed(s) ==> Undisturbed(t) || (t.frame == Idle && t.status == Available))
  {
    if s.frame.AwaitUnsubscribe? || s.frame.AwaitSubscribe? || s.frame.AwaitProbe? {
      var id := s.frame.id;
      if s.commands[id].phase == InFlight {
        AwaitedAnswerArrives(s, id);
      } else {
        AnswerRunsOn(s);
      }
    } else {
      LastTurns(s);
    }
    StepKeeps(s, QuietEvent(s));
  }

  lemma LastTurns(s: State)
    requires Connected(s) && (s.frame.AfterReconcile? || s.frame.AfterProbe? || s.frame.Throwing?)
    ensures var t := ResumeRecovery(s);
            && Connected(t) && Rank(t) < Rank(s)
            && (Undisturbed(s) ==> Undisturbed(t) || (t.frame == Idle && t.status == Available))
  {
    FinishesAvailable(s);
    FinishesAvailable(s.(sawFailure := true));
  }

  /** The recovery that is running comes to its end. */
  lemma {:induction false} RecoveryEnds(s: State) returns (run: seq<State>)
    requires Inv(s) && Connected(s)
    ensures QuietRun(run) && run[0] == s
    ensures var t := run[|run| - 1];
            && Inv(t) && Connected(t) && t.frame == Idle
            && (Undisturbed(s) ==> t.status == Available)
    ensures s.frame == Idle ==> run == [s]
    decreases Rank(s)
  {
    if s.frame == Idle {
      run := [s];
    } else {
      QuietTurn(s);
      var t := Step(s, QuietEvent(s));
      var tail := RecoveryEnds(t);
      run := [s] + tail;
      assert run[1] == t && run[|run| - 1] == tail[|tail| - 1];
      forall i | 0 <= i < |run| - 1
        ensures Enabled(run[i], QuietEvent(run[i])) && run[i + 1] == Step(run[i], QuietEvent(run[i]))
      {
        if i > 0 {
          assert run[i] == tail[i - 1] && run[i + 1] == tail[i];
        }
      }
    }
  }

  lemma RecoveryStarts(s: State)
    requires Inv(s) && Connected(s) && s.frame == Idle && s.timer
    ensures Enabled(s, TimerEvent)
    ensures Inv(TimerFires(s)) && Undisturbed(TimerFires(s))
  {
    hide Fenced, Owed, Registered, Logged, RetryUnsubscribes;
    StepKeeps(s, TimerEvent);
    RetryUnsubscribesUndisturbed(s.(timer := false, recovering := true), s.pendingUnsub);
  }

  lemma QuietRunsJoin(a: seq<State>, b: seq<State>)
    requires QuietRun(a) && QuietRun(b)
    requires Enabled(a[|a| - 1], QuietEvent(a[|a| - 1])) && b[0] == Step(a[|a| - 1], QuietEvent(a[|a| - 1]))
    ensures QuietRun(a + b) && (a + b)[0] == a[0] && (a + b)[|a + b| - 1] == b[|b| - 1]
  {
    var c := a + b;
    forall i | 0 <= i < |c| - 1
      ensures Enabled(c[i], QuietEvent(c[i])) && c[i + 1] == Step(c[i], QuietEvent(c[i]))
    {
      if i < |a| - 1 {
        assert c[i] == a[i] && c[i + 1] == a[i + 1];
      } else if i >= |a| {
        assert c[i] == b[i - |a|] && c[i + 1] == b[i + 1 - |a|];
      }
    }
  }

  /** From every reachable live state with both connections ready, whatever is in flight: if the
      connections are then left alone and every command that can succeed does, the messenger
      becomes available within the running recovery and one more. */
  lemma HealsWhenLeftAlone(run: seq<State>, events: seq<Event>, i: nat) returns (quiet: seq<State>)
    requires IsRun(run, events) && i < |run| && Connected(run[i])
    ensures QuietRun(quiet) && quiet[0] == run[i]
    ensures quiet[|quiet| - 1].status == Available && quiet[|quiet| - 1].Healthy()
  {
    RunKeeps(run, events, i);
    quiet := RecoveryEnds(run[i]);
    var t := quiet[|quiet| - 1];
    if t.status != Available {
      assert t.timer;
      RecoveryStarts(t);
      var second := RecoveryEnds(TimerFires(t));
      QuietRunsJoin(quiet, second);
      quiet := quiet + second;
    }
  }

  /** One uninterrupted recovery is enough when none was running. */
  lemma OneRecoveryIsEnough(run: seq<State>, events: seq<Event>, i: nat) returns (quiet: seq<State>)
    requires IsRun(run, events) && i < |run| && Connected(run[i]) && run[i].frame == Idle && run[i].timer
    ensures QuietRun(quiet) && quiet[0] == TimerFires(run[i])
    ensures quiet[|quiet| - 1].status == Available && quiet[|quiet| - 1].frame == Idle
  {
    RunKeeps(run, events, i);
    RecoveryStarts(run[i]);
    quiet := RecoveryEnds(TimerFires(run[i]));
  }
}
