/**
 Whole runs of one replica: what is true of the scheduler's status in every reachable state,
 across outages, stale probes and claims, and destroy followed by a new start.
 No wakeup is lost, and one timer and one probe heal.
 */
module ScheduleRuns {
  import opened Wrappers
  import opened ScheduleState

  datatype Event =
    | InitializeCall(built: bool)
    | InitDeadlineEvent(init: nat)
    | InitAnswersEvent(init: nat)
    | DestroyCall
    | ReadyEvent(client: nat)
    | DownEvent(client: nat)
    | TimerEvent
    | ClaimCall(schedule: string, occurrence: Option<int>)
    | SettleEvent(id: nat, outcome: Outcome)
    | ResumeEvent(id: nat)

  predicate Enabled(s: State, e: Event) {
    match e
    case InitDeadlineEvent(i) => i < |s.inits| && s.inits[i].phase == Waiting
    case InitAnswersEvent(i) => i < |s.inits| && s.inits[i].phase == Finished
    case TimerEvent => s.timer
    case SettleEvent(id, _) => id < |s.commands| && s.commands[id].phase == InFlight
    case ResumeEvent(id) => id < |s.commands| && s.commands[id].phase.Settled?
    case _ => true
  }

  function Step(s: State, e: Event): State
    requires Enabled(s, e)
  {
    match e
    case InitializeCall(built) => Initialize(s, built)
    case InitDeadlineEvent(i) => InitDeadline(s, i)
    case InitAnswersEvent(i) => InitAnswers(s, i)
    case DestroyCall => Destroy(s)
    case ReadyEvent(c) => OnReady(s, c)
    case DownEvent(c) => OnDown(s, c)
    case TimerEvent => TimerFires(s)
    case ClaimCall(schedule, occurrence) => StartClaim(s, schedule, occurrence).0
    case SettleEvent(id, outcome) => SetPhase(s, id, Settled(outcome))
    case ResumeEvent(id) => Resume(s, id)
  }

  function Resume(s: State, id: nat): State
    requires id < |s.commands| && s.commands[id].phase.Settled?
  {
    var outcome := s.commands[id].phase.outcome;
    var done := SetPhase(s, id, Done(outcome));
    match s.commands[id].request
    case Probe(generation, initGeneration) => ProbeSettled(done, generation, initGeneration, outcome.Reply?)
    case Claim(_, _) => ClaimSettled(done, outcome)
  }

  ghost predicate IsRun(run: seq<State>, events: seq<Event>) {
    && |run| == |events| + 1
    && run[0] == BOOT
    && forall i :: 0 <= i < |events| ==> Enabled(run[i], events[i]) && run[i + 1] == Step(run[i], events[i])
  }

  // ----- the invariant -----

  /** A probe started on this generation whose end `attemptProbe` has not seen yet. */
  predicate Probing(commands: seq<Command>, id: nat, generation: nat) {
    && id < |commands|
    && commands[id].request.Probe? && commands[id].request.generation == generation
    && !commands[id].phase.Done?
  }

  /** A probe of this generation that came back. */
  predicate Proved(commands: seq<Command>, id: nat, generation: nat) {
    && id < |commands|
    && commands[id].request.Probe? && commands[id].request.generation == generation
    && commands[id].phase.Done? && commands[id].phase.outcome.Reply?
  }

  ghost predicate HasProof(commands: seq<Command>, generation: nat) {
    exists id: nat :: Proved(commands, id, generation)
  }

  /** No probe is from the future. */
  ghost predicate Fenced(commands: seq<Command>, generation: nat) {
    forall id: nat :: id < |commands| && commands[id].request.Probe? ==> commands[id].request.generation <= generation
  }

  /** The flag says exactly whether the one probe of the current generation is under way. */
  ghost predicate SingleFlight(commands: seq<Command>, generation: nat, recovering: bool) {
    && (recovering ==> exists id: nat :: Probing(commands, id, generation))
    && (forall id: nat :: Probing(commands, id, generation) ==> recovering)
    && (forall i: nat, j: nat :: Probing(commands, i, generation) && Probing(commands, j, generation) ==> i == j)
  }

  predicate Waking(s: State) {
    s.connected && s.mode != Ready ==> s.recovering || s.timer
  }

  predicate Placed(s: State) {
    && (s.connected ==> s.client.Some?)
    && (s.client.Some? ==> s.named && s.client.value < s.clients)
    && (s.timer || s.recovering ==> s.connected)
    && !(s.timer && s.recovering)
    && (s.mode == Ready ==> s.connected)
    && (s.degraded <==> s.mode == Unavailable)
    && (s.firstSettle.Some? ==>
          && s.firstSettle.value < |s.inits|
          && s.inits[s.firstSettle.value].generation == s.initGeneration)
  }

  ghost predicate Inv(s: State) {
    && Fenced(s.commands, s.probeGeneration)
    && SingleFlight(s.commands, s.probeGeneration, s.recovering)
    && (s.mode == Ready ==> HasProof(s.commands, s.probeGeneration))
    && Placed(s)
    && Waking(s)
  }

  // ----- what every turn keeps -----

  lemma Fence(commands: seq<Command>, generation: nat)
    requires Fenced(commands, generation)
    ensures SingleFlight(commands, generation + 1, false) && Fenced(commands, generation + 1)
  {
  }

  /** A claim on its way, or settled, is no business of the probes. */
  lemma AppendKeeps(commands: seq<Command>, generation: nat, recovering: bool, c: Command)
    requires Fenced(commands, generation) && SingleFlight(commands, generation, recovering)
    requires c.request.Claim?
    ensures Fenced(commands + [c], generation) && SingleFlight(commands + [c], generation, recovering)
    ensures HasProof(commands, generation) ==> HasProof(commands + [c], generation)
  {
    var more := commands + [c];
    forall id: nat ensures Probing(more, id, generation) <==> Probing(commands, id, generation) { }
    if HasProof(commands, generation) {
      var id: nat :| Proved(commands, id, generation);
      assert Proved(more, id, generation);
    }
  }

  lemma ProbeLaunched(commands: seq<Command>, generation: nat, initGeneration: nat)
    requires Fenced(commands, generation) && SingleFlight(commands, generation, false)
    ensures var more := commands + [Command(Probe(generation, initGeneration), InFlight)];
            && Fenced(more, generation) && SingleFlight(more, generation, true)
            && (HasProof(commands, generation) ==> HasProof(more, generation))
  {
    var more := commands + [Command(Probe(generation, initGeneration), InFlight)];
    assert Probing(more, |commands|, generation);
    forall id: nat ensures Probing(more, id, generation) <==> Probing(commands, id, generation) || id == |commands| { }
    if HasProof(commands, generation) {
      var id: nat :| Proved(commands, id, generation);
      assert Proved(more, id, generation);
    }
  }

  /** A promise settling does not end a probe; `attemptProbe` has to see it. */
  lemma SettleKeeps(commands: seq<Command>, generation: nat, recovering: bool, id: nat, outcome: Outcome)
    requires Fenced(commands, generation) && SingleFlight(commands, generation, recovering)
    requires id < |commands| && commands[id].phase == InFlight
    ensures var after := commands[id := commands[id].(phase := Settled(outcome))];
            && Fenced(after, generation) && SingleFlight(after, generation, recovering)
            && (HasProof(commands, generation) ==> HasProof(after, generation))
  {
    var after := commands[id := commands[id].(phase := Settled(outcome))];
    forall i: nat ensures Probing(after, i, generation) <==> Probing(commands, i, generation) { }
    if HasProof(commands, generation) {
      var i: nat :| Proved(commands, i, generation);
      assert Proved(after, i, generation);
    }
  }

  /** Seeing the end of a command releases the flag if it was the current probe, and only then. */
  lemma DoneKeeps(commands: seq<Command>, generation: nat, recovering: bool, id: nat)
    requires Fenced(commands, generation) && SingleFlight(commands, generation, recovering)
    requires id < |commands| && commands[id].phase.Settled?
    ensures var after := commands[id := commands[id].(phase := Done(commands[id].phase.outcome))];
            var current := Probing(commands, id, generation);
            && Fenced(after, generation)
            && SingleFlight(after, generation, if current then false else recovering)
            && (current ==> recovering)
            && (HasProof(commands, generation) ==> HasProof(after, generation))
            && (current && commands[id].phase.outcome.Reply? ==> HasProof(after, generation))
  {
    var after := commands[id := commands[id].(phase := Done(commands[id].phase.outcome))];
    forall i: nat ensures Probing(after, i, generation) <==> Probing(commands, i, generation) && i != id { }
    if HasProof(commands, generation) {
      var i: nat :| Proved(commands, i, generation);
      assert Proved(after, i, generation);
    }
    if Probing(commands, id, generation) && commands[id].phase.outcome.Reply? {
      assert Proved(after, id, generation);
    }
    if recovering && !Probing(commands, id, generation) {
      var i: nat :| Probing(commands, i, generation);
      assert Probing(after, i, generation);
    }
  }

  /** Everything but `Waking`, which the caller of `AttemptProbe` and `ScheduleRecovery` restores. */
  ghost predicate Core(s: State) {
    && Fenced(s.commands, s.probeGeneration)
    && SingleFlight(s.commands, s.probeGeneration, s.recovering)
    && (s.mode == Ready ==> HasProof(s.commands, s.probeGeneration))
    && Placed(s)
  }

  lemma AttemptKeeps(s: State)
    requires Core(s) && !s.timer
    ensures Inv(AttemptProbe(s))
  {
    hide Fenced, SingleFlight, HasProof;
    if !s.recovering {
      ProbeLaunched(s.commands, s.probeGeneration, s.initGeneration);
    }
  }

  lemma ProbeResumes(s: State, id: nat)
    requires Inv(s) && Enabled(s, ResumeEvent(id)) && s.commands[id].request.Probe?
    ensures Inv(Resume(s, id))
  {
    hide Fenced, SingleFlight, HasProof;
    DoneKeeps(s.commands, s.probeGeneration, s.recovering, id);
  }

  lemma ClaimResumes(s: State, id: nat)
    requires Inv(s) && Enabled(s, ResumeEvent(id)) && s.commands[id].request.Claim?
    ensures Inv(Resume(s, id))
  {
    hide Fenced, SingleFlight, HasProof;
    DoneKeeps(s.commands, s.probeGeneration, s.recovering, id);
  }

  lemma InitializeKeeps(s: State, built: bool)
    requires Inv(s)
    ensures Inv(Initialize(s, built))
  {
    hide Fenced, SingleFlight, HasProof;
  }

  lemma DeadlineKeeps(s: State, i: nat)
    requires Inv(s) && i < |s.inits|
    ensures Inv(InitDeadline(s, i)) && Inv(InitAnswers(s, i))
  {
    hide Fenced, SingleFlight, HasProof;
  }

  lemma DownKeeps(s: State, client: nat)
    requires Inv(s)
    ensures Inv(OnDown(s, client)) && Inv(Destroy(s))
  {
    hide Fenced, SingleFlight, HasProof;
    Fence(s.commands, s.probeGeneration);
  }

  lemma StepKeeps(s: State, e: Event)
    requires Inv(s) && Enabled(s, e)
    ensures Inv(Step(s, e))
  {
    hide Fenced, SingleFlight, HasProof, Initialize, InitDeadline, InitAnswers, Destroy, OnDown, Resume;
    match e {
      case ReadyEvent(c) =>
        if s.client == Some(c) {
          AttemptKeeps(s.(connected := true, timer := false));
        }
      case TimerEvent => AttemptKeeps(s.(timer := false));
      case ClaimCall(schedule, occurrence) =>
        AppendKeeps(s.commands, s.probeGeneration, s.recovering,
                    Command(Claim(schedule, if occurrence.Some? then occurrence.value else 0), InFlight));
      case SettleEvent(id, outcome) => SettleKeeps(s.commands, s.probeGeneration, s.recovering, id, outcome);
      case ResumeEvent(id) =>
        if s.commands[id].request.Probe? { ProbeResumes(s, id); } else { ClaimResumes(s, id); }
      case InitializeCall(built) => InitializeKeeps(s, built);
      case InitDeadlineEvent(i) => DeadlineKeeps(s, i);
      case InitAnswersEvent(i) => DeadlineKeeps(s, i);
      case DownEvent(c) => DownKeeps(s, c);
      case DestroyCall => DownKeeps(s, 0);
    }
  }

  lemma {:induction false} RunKeeps(run: seq<State>, events: seq<Event>, i: nat)
    requires IsRun(run, events) && i < |run|
    ensures Inv(run[i])
  {
    if i > 0 {
      RunKeeps(run, events, i - 1);
      StepKeeps(run[i - 1], events[i - 1]);
    }
  }

  // ----- what the status means -----

  /** `ready` is earned: the client is connected and a probe came back since the connection it
      has now was established; and the flag guards one probe of the current generation. */
  lemma ReadyIsEarned(run: seq<State>, events: seq<Event>, i: nat)
    requires IsRun(run, events) && i < |run|
    ensures var s := run[i];
            && (s.mode == Ready ==> s.connected && HasProof(s.commands, s.probeGeneration))
            && (forall a: nat, b: nat ::
                  Probing(s.commands, a, s.probeGeneration) && Probing(s.commands, b, s.probeGeneration) ==> a == b)
            && (s.recovering <==> exists a: nat :: Probing(s.commands, a, s.probeGeneration))
            && (s.timer ==> s.connected && !s.recovering)
  {
    RunKeeps(run, events, i);
  }

  /** Connected but not ready: a probe is on its way or a timer is armed, also after a destroy
      and a new start. */
  lemma NoWakeupIsLost(run: seq<State>, events: seq<Event>, i: nat)
    requires IsRun(run, events) && i < |run| && run[i].connected && run[i].mode != Ready
    ensures run[i].timer || exists a: nat :: Probing(run[i].commands, a, run[i].probeGeneration)
  {
    RunKeeps(run, events, i);
  }

  /** The events that bring a connected replica back: its probe's reply, its continuation, or
      the timer and then those. */
  ghost predicate Path(run: seq<State>, events: seq<Event>) {
    && |run| == |events| + 1
    && forall i :: 0 <= i < |events| ==> Enabled(run[i], events[i]) && run[i + 1] == Step(run[i], events[i])
  }

  lemma ProbeSucceeds(s: State) returns (run: seq<State>, events: seq<Event>)
    requires Inv(s) && s.connected && s.recovering
    requires forall id: nat :: Probing(s.commands, id, s.probeGeneration) ==> s.commands[id].phase != Settled(Failure)
    ensures Path(run, events) && run[0] == s && run[|run| - 1].mode == Ready && |events| <= 2
  {
    var id: nat :| Probing(s.commands, id, s.probeGeneration);
    if s.commands[id].phase == InFlight {
      var t := Step(s, SettleEvent(id, Reply(0)));
      run := [s, t, Step(t, ResumeEvent(id))];
      events := [SettleEvent(id, Reply(0)), ResumeEvent(id)];
    } else {
      run := [s, Step(s, ResumeEvent(id))];
      events := [ResumeEvent(id)];
    }
  }

  /** From every reachable state with an armed timer, one timer and one probe that comes back make
      the replica ready. */
  lemma HealsAfterTimer(run: seq<State>, events: seq<Event>, i: nat) returns (quiet: seq<State>, steps: seq<Event>)
    requires IsRun(run, events) && i < |run| && run[i].timer
    ensures Path(quiet, steps) && quiet[0] == run[i] && |steps| <= 3
    ensures quiet[|quiet| - 1].mode == Ready
  {
    RunKeeps(run, events, i);
    var s := run[i];
    StepKeeps(s, TimerEvent);
    var t := Step(s, TimerEvent);
    var launched: nat := |s.commands|;
    assert Probing(t.commands, launched, t.probeGeneration);
    var tail, after := ProbeSucceeds(t);
    quiet := [s] + tail;
    steps := [TimerEvent] + after;
    forall k | 0 <= k < |steps| ensures Enabled(quiet[k], steps[k]) && quiet[k + 1] == Step(quiet[k], steps[k]) {
      if k > 0 {
        assert quiet[k] == tail[k - 1] && quiet[k + 1] == tail[k] && steps[k] == after[k - 1];
      }
    }
  }
}
