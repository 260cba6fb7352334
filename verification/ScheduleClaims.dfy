/**
 What becomes of a claim, that a later occurrence can always be granted, and what makes a replica ready or unavailable.
 */
module ScheduleClaims {
  import opened Wrappers
  import opened ScheduleState
  import opened ScheduleCluster
  import Local = ScheduleRuns

  // ----- every replica -----

  /** Each replica of a run is in a state that its own turns reach. */
  lemma {:induction false} ReplicasKeep(run: seq<Cluster>, events: seq<Event>, i: nat, r: nat)
    requires ScheduleCluster.IsRun(run, events) && i < |run| && r < |run[i].replicas|
    ensures Local.Inv(run[i].replicas[r])
    ensures |run[i].replicas| == |run[0].replicas|
  {
    hide Local.Inv, Local.Step, Local.Enabled;
    if i == 0 {
      assert Local.Inv(BOOT) by { BootKeeps(); }
    } else {
      assert Enabled(run[i - 1], events[i - 1]) && run[i] == Step(run[i - 1], events[i - 1]);
      ReplicasKeep(run, events, i - 1, r);
      match events[i - 1] {
        case Turn(q, e) =>
          if q == r {
            Local.StepKeeps(run[i - 1].replicas[r], e);
          }
        case Execute(_, _) =>
      }
    }
  }

  lemma BootKeeps()
    ensures Local.Inv(BOOT)
  {
  }

  // ----- claims are sent -----

  /** A call is on its way: a timestamp was read off the key, and the replica is not known to be out of
      touch. */
  predicate MayClaim(s: State, occurrence: Option<int>) {
    s.mode != Unavailable && occurrence.Some? && s.client.Some? && s.named
  }

  lemma ClaimTurn(s: State, schedule: string, occurrence: Option<int>)
    ensures Local.Step(s, Local.ClaimCall(schedule, occurrence)).commands ==
            if MayClaim(s, occurrence) then s.commands + [Command(Claim(schedule, occurrence.value), InFlight)] else s.commands
  {
  }

  lemma ReadyMayClaim(s: State)
    requires Local.Inv(s) && s.mode == Ready
    ensures s.client.Some? && s.named
  {
  }

  /** On a ready replica every call sends exactly one command, which names its schedule and occurrence; on
      one that is unavailable none does. */
  lemma ClaimIsSent(run: seq<Cluster>, events: seq<Event>, e: nat, r: nat, schedule: string, occurrence: int)
    requires ScheduleCluster.IsRun(run, events) && e < |events|
    requires events[e] == Turn(r, Local.ClaimCall(schedule, Some(occurrence)))
    ensures r < |run[e].replicas| && r < |run[e + 1].replicas|
    ensures run[e].replicas[r].mode == Ready ==>
              run[e + 1].replicas[r].commands == run[e].replicas[r].commands + [Command(Claim(schedule, occurrence), InFlight)]
    ensures run[e].replicas[r].mode == Unavailable ==> run[e + 1].replicas[r].commands == run[e].replicas[r].commands
  {
    hide Local.Inv, Local.Step;
    assert Enabled(run[e], events[e]) && run[e + 1] == Step(run[e], events[e]);
    ReplicasKeep(run, events, e, r);
    ClaimTurn(run[e].replicas[r], schedule, Some(occurrence));
    if run[e].replicas[r].mode == Ready {
      ReadyMayClaim(run[e].replicas[r]);
    }
  }

  /** What is added by anything but a call is not a claim. */
  ghost predicate OnlyProbes(before: seq<Command>, after: seq<Command>) {
    forall id :: |before| <= id < |after| ==> after[id].request.Probe?
  }

  lemma OthersSendProbes(s: State, e: Local.Event)
    requires Local.Enabled(s, e) && !e.ClaimCall?
    ensures OnlyProbes(s.commands, Local.Step(s, e).commands)
  {
    hide Initialize, InitDeadline, InitAnswers, Destroy, OnReady, OnDown, TimerFires, StartClaim, ProbeSettled, ClaimSettled;
    match e {
      case InitializeCall(built) => CallsSendNothing(s, built);
      case DestroyCall => CallsSendNothing(s, false);
      case InitDeadlineEvent(i) => InitsSendNothing(s, i);
      case InitAnswersEvent(i) => InitsSendNothing(s, i);
      case ReadyEvent(c) => ProbesSent(s, c);
      case DownEvent(c) => ConnectionsSend(s, c);
      case TimerEvent => ProbesSent(s, 0);
      case SettleEvent(_, _) =>
      case ResumeEvent(id) =>
        var outcome := s.commands[id].phase.outcome;
        ResumeSendsNothing(SetPhase(s, id, Done(outcome)), s.commands[id].request, outcome);
    }
  }

  lemma ProbesSent(s: State, c: nat)
    ensures OnlyProbes(s.commands, OnReady(s, c).commands) && OnlyProbes(s.commands, TimerFires(s).commands)
  {
    hide AttemptProbe;
    AttemptSendsProbe(s.(connected := true, timer := false));
    AttemptSendsProbe(s.(timer := false));
  }

  lemma AttemptSendsProbe(s: State)
    ensures OnlyProbes(s.commands, AttemptProbe(s).commands)
  {
  }

  /** And every claim there is was sent by a call of its schedule and occurrence, one for each. */
  lemma {:induction false} ClaimedByACall(run: seq<Cluster>, events: seq<Event>, j: nat, r: nat, id: nat) returns (e: nat)
    requires ScheduleCluster.IsRun(run, events) && j < |run| && r < |run[j].replicas| && id < |run[j].replicas[r].commands|
    requires run[j].replicas[r].commands[id].request.Claim?
    ensures e < j && r < |run[e].replicas| && |run[e].replicas[r].commands| == id
    ensures var request := run[j].replicas[r].commands[id].request;
            events[e] == Turn(r, Local.ClaimCall(request.schedule, Some(request.occurrence)))
  {
    hide Local.Inv, Local.Step, Local.Enabled;
    ReplicasKeep(run, events, j, r);
    if j == 0 {
      assert false;
    } else {
      assert Enabled(run[j - 1], events[j - 1]) && run[j] == Step(run[j - 1], events[j - 1]);
      ReplicasKeep(run, events, j - 1, 0) by { assert r < |run[j - 1].replicas|; }
      if id < |run[j - 1].replicas[r].commands| {
        if events[j - 1].Turn? && events[j - 1].replica == r {
          TurnKeepsCommands(run[j - 1].replicas[r], events[j - 1].event);
        }
        e := ClaimedByACall(run, events, j - 1, r, id);
      } else {
        e := j - 1;
        assert events[e].Turn? && events[e].replica == r;
        var s, turn := run[e].replicas[r], events[e].event;
        if turn.ClaimCall? {
          ClaimTurn(s, turn.schedule, turn.occurrence);
        } else {
          OthersSendProbes(s, turn);
        }
      }
    }
  }

  // ----- claims are answered -----

  /** The answer to a claim that was executed is true exactly when its occurrence is above what its schedule
      started from and above every execution for it before. */
  lemma AnsweredClaims(run: seq<Cluster>, events: seq<Event>, i: nat, r: nat, id: nat) returns (k: nat)
    requires ScheduleCluster.IsRun(run, events) && i < |run| && r < |run[i].replicas| && id < |run[i].replicas[r].commands|
    requires run[i].replicas[r].commands[id].request.Claim?
    requires run[i].replicas[r].commands[id].phase.Done? && run[i].replicas[r].commands[id].phase.outcome.Reply?
    ensures k < |run[i].log| && run[i].log[k].replica == r && run[i].log[k].id == id
    ensures var c := run[i].replicas[r].commands[id].request;
            ScheduleCluster.Granted(run[i], r, id) <==>
              && (c.schedule in run[0].zset ==> run[0].zset[c.schedule] < c.occurrence)
              && forall j :: 0 <= j < k && run[i].log[j].member == c.schedule ==> run[i].log[j].score < c.occurrence
  {
    RunKeeps(run, events, i);
    var c := run[i].replicas[r].commands[id];
    assert Outcomes(c.phase) == Some(c.phase.outcome);
    assert Executed(run[i].log, r, id, c.phase.outcome.changed);
    k :| 0 <= k < |run[i].log| && run[i].log[k].replica == r && run[i].log[k].id == id
         && run[i].log[k].changed == c.phase.outcome.changed;
    assert run[i].log[k].changed == 1 <==> Above(run[0].zset, run[i].log, k);
  }

  ghost predicate Continues(run: seq<Cluster>, events: seq<Event>) {
    && |run| == |events| + 1
    && forall i :: 0 <= i < |events| ==> Enabled(run[i], events[i]) && run[i + 1] == Step(run[i], events[i])
  }

  lemma ContinuedRun(run: seq<Cluster>, events: seq<Event>, i: nat, more: seq<Cluster>, steps: seq<Event>)
    requires ScheduleCluster.IsRun(run, events) && i < |run| && Continues(more, steps) && more[0] == run[i]
    ensures ScheduleCluster.IsRun(run[..i] + more, events[..i] + steps)
  {
    var all, turns := run[..i] + more, events[..i] + steps;
    assert all[0] == run[0];
    forall k | 0 <= k < |turns| ensures Enabled(all[k], turns[k]) && all[k + 1] == Step(all[k], turns[k]) {
      if k < i {
        assert all[k] == run[k] && turns[k] == events[k] && all[k + 1] == run[k + 1];
      } else {
        assert all[k] == more[k - i] && turns[k] == steps[k - i] && all[k + 1] == more[k - i + 1];
      }
    }
  }

  /** An occurrence later than all that the schedule started from or had executed. */
  ghost predicate IsLater(start: map<string, int>, log: seq<Execution>, schedule: string, occurrence: int) {
    && (schedule in start ==> start[schedule] < occurrence)
    && forall k :: 0 <= k < |log| && log[k].member == schedule ==> log[k].score < occurrence
  }

  lemma Called(c: Cluster, r: nat, schedule: string, occurrence: int)
    requires r < |c.replicas| && MayClaim(c.replicas[r], Some(occurrence))
    ensures var t := Step(c, Turn(r, Local.ClaimCall(schedule, Some(occurrence))));
            && t.zset == c.zset && t.log == c.log && r < |t.replicas|
            && t.replicas[r].commands == c.replicas[r].commands + [Command(Claim(schedule, occurrence), InFlight)]
  {
    ClaimTurn(c.replicas[r], schedule, Some(occurrence));
  }

  lemma ExecutedFirst(c: Cluster, r: nat, id: nat)
    requires r < |c.replicas| && id < |c.replicas[r].commands| && c.replicas[r].commands[id].request.Claim?
    requires forall k :: 0 <= k < |c.log| ==> !(c.log[k].replica == r && c.log[k].id == id)
    requires var request := c.replicas[r].commands[id].request;
             request.schedule in c.zset ==> c.zset[request.schedule] < request.occurrence
    ensures Enabled(c, Execute(r, id))
    ensures var t := Step(c, Execute(r, id));
            t.replicas == c.replicas && Executed(t.log, r, id, 1)
  {
    var t := Step(c, Execute(r, id));
    assert t.log[|c.log|].changed == 1 && t.log[|c.log|].replica == r && t.log[|c.log|].id == id;
  }

  lemma Replied(c: Cluster, r: nat, id: nat)
    requires r < |c.replicas| && id < |c.replicas[r].commands| && c.replicas[r].commands[id].phase == InFlight
    requires Executed(c.log, r, id, 1)
    ensures var e := Turn(r, Local.SettleEvent(id, Reply(1)));
            Enabled(c, e) && r < |Step(c, e).replicas|
            && Step(c, e).replicas[r].commands
               == c.replicas[r].commands[id := c.replicas[r].commands[id].(phase := Settled(Reply(1)))]
  {
  }

  lemma Returned(c: Cluster, r: nat, id: nat)
    requires r < |c.replicas| && id < |c.replicas[r].commands|
    requires c.replicas[r].commands[id].request.Claim? && c.replicas[r].commands[id].phase == Settled(Reply(1))
    ensures Enabled(c, Turn(r, Local.ResumeEvent(id)))
    ensures ScheduleCluster.Granted(Step(c, Turn(r, Local.ResumeEvent(id))), r, id)
  {
  }

  /** The score in the set is at or below all that is known of a member. */
  lemma ScoreIsLower(start: map<string, int>, c: Cluster, schedule: string, occurrence: int)
    requires ScheduleCluster.Inv(start, c) && IsLater(start, c.log, schedule, occurrence)
    ensures schedule in c.zset ==> c.zset[schedule] < occurrence
  {
    if schedule in c.zset {
      assert Sourced(start, c.zset, c.log, schedule);
    }
  }

  lemma NewIdIsNotLogged(start: map<string, int>, c: Cluster, r: nat, k: int)
    requires ScheduleCluster.Inv(start, c) && r < |c.replicas| && 0 <= k < |c.log|
    ensures !(c.log[k].replica == r && c.log[k].id == |c.replicas[r].commands|)
  {
  }

  /** The claim of a later occurrence, sent and executed. */
  lemma ClaimIsExecuted(start: map<string, int>, c: Cluster, r: nat, schedule: string, occurrence: int)
    requires ScheduleCluster.Inv(start, c) && r < |c.replicas| && MayClaim(c.replicas[r], Some(occurrence))
    requires IsLater(start, c.log, schedule, occurrence)
    ensures var e, id := Turn(r, Local.ClaimCall(schedule, Some(occurrence))), |c.replicas[r].commands|;
            && Enabled(c, e) && Enabled(Step(c, e), Execute(r, id))
            && var t := Step(Step(c, e), Execute(r, id));
               && r < |t.replicas| && id < |t.replicas[r].commands| && Executed(t.log, r, id, 1)
               && t.replicas[r].commands[id] == Command(Claim(schedule, occurrence), InFlight)
  {
    var id := |c.replicas[r].commands|;
    ScoreIsLower(start, c, schedule, occurrence);
    forall k | 0 <= k < |c.log| ensures !(c.log[k].replica == r && c.log[k].id == id) {
      NewIdIsNotLogged(start, c, r, k);
    }
    assert Enabled(c, Turn(r, Local.ClaimCall(schedule, Some(occurrence))));
    hide ScheduleCluster.Inv, Step, Enabled, Executed;
    Called(c, r, schedule, occurrence);
    ExecutedFirst(Step(c, Turn(r, Local.ClaimCall(schedule, Some(occurrence)))), r, id);
  }

  /** And answered and resumed. */
  lemma ClaimSucceeds(start: map<string, int>, c: Cluster, r: nat, schedule: string, occurrence: int)
    returns (more: seq<Cluster>, steps: seq<Event>)
    requires ScheduleCluster.Inv(start, c) && r < |c.replicas| && MayClaim(c.replicas[r], Some(occurrence))
    requires IsLater(start, c.log, schedule, occurrence)
    ensures Continues(more, steps) && more[0] == c && |steps| == 4
    ensures steps[0] == Turn(r, Local.ClaimCall(schedule, Some(occurrence)))
    ensures ScheduleCluster.Granted(more[4], r, |c.replicas[r].commands|)
  {
    hide *;
    var id := |c.replicas[r].commands|;
    var called := Turn(r, Local.ClaimCall(schedule, Some(occurrence)));
    ClaimIsExecuted(start, c, r, schedule, occurrence);
    var c2 := Step(Step(c, called), Execute(r, id));
    Replied(c2, r, id);
    Returned(Step(c2, Turn(r, Local.SettleEvent(id, Reply(1)))), r, id);
    more, steps := FourSteps(c, called, Execute(r, id), Turn(r, Local.SettleEvent(id, Reply(1))), Turn(r, Local.ResumeEvent(id)));
  }

  lemma FourSteps(c: Cluster, e1: Event, e2: Event, e3: Event, e4: Event) returns (more: seq<Cluster>, steps: seq<Event>)
    requires Enabled(c, e1) && Enabled(Step(c, e1), e2) && Enabled(Step(Step(c, e1), e2), e3)
    requires Enabled(Step(Step(Step(c, e1), e2), e3), e4)
    ensures Continues(more, steps) && more[0] == c && steps == [e1, e2, e3, e4]
    ensures |more| == 5 && more[4] == Step(Step(Step(Step(c, e1), e2), e3), e4)
  {
    hide Step, Enabled;
    var c1 := Step(c, e1);
    var c2 := Step(c1, e2);
    var c3 := Step(c2, e3);
    more, steps := [c, c1, c2, c3, Step(c3, e4)], [e1, e2, e3, e4];
  }

  /** Nothing that has happened keeps a ready replica from running a later occurrence: from every reachable
      state there is a run in which it claims it and is granted it. */
  lemma LaterOccurrenceIsGranted(run: seq<Cluster>, events: seq<Event>, i: nat, r: nat, schedule: string, occurrence: int)
    returns (more: seq<Cluster>, steps: seq<Event>)
    requires ScheduleCluster.IsRun(run, events) && i < |run| && r < |run[i].replicas| && run[i].replicas[r].mode == Ready
    requires IsLater(run[0].zset, run[i].log, schedule, occurrence)
    ensures |steps| == 4 && |more| == 5 && more[0] == run[i] && ScheduleCluster.IsRun(run[..i] + more, events[..i] + steps)
    ensures steps[0] == Turn(r, Local.ClaimCall(schedule, Some(occurrence)))
    ensures ScheduleCluster.Granted(more[4], r, |run[i].replicas[r].commands|)
  {
    hide Local.Inv, ScheduleCluster.Inv, ScheduleCluster.Granted;
    RunKeeps(run, events, i);
    ReplicasKeep(run, events, i, r);
    ReadyMayClaim(run[i].replicas[r]);
    more, steps := ClaimSucceeds(run[0].zset, run[i], r, schedule, occurrence);
    ContinuedRun(run, events, i, more, steps);
  }

  // ----- what makes a replica ready -----

  /** The status after a turn: ready after the current generation's probe came back, unavailable when the
      connection closes, when that probe or a claim fails, and when a start fails or takes too long. */
  function StatusAfter(s: State, e: Local.Event): Mode
    requires Local.Enabled(s, e)
  {
    match e
    case InitializeCall(built) => if s.mode == Uninitialized && !s.initPending && !built then Unavailable else s.mode
    case InitDeadlineEvent(i) =>
      if s.mode == Uninitialized && s.inits[i].generation == s.initGeneration then Unavailable else s.mode
    case DestroyCall => Uninitialized
    case DownEvent(c) => if s.client == Some(c) then Unavailable else s.mode
    case ResumeEvent(id) =>
      (match s.commands[id].request
       case Probe(generation, _) =>
         if generation != s.probeGeneration then s.mode
         else if s.commands[id].phase.outcome.Reply? then Ready
         else Unavailable
       case Claim(_, _) => if s.commands[id].phase.outcome.Failure? && s.connected then Unavailable else s.mode)
    case _ => s.mode
  }

  lemma StatusTurn(s: State, e: Local.Event)
    requires Local.Enabled(s, e)
    ensures Local.Step(s, e).mode == StatusAfter(s, e)
  {
    hide SetPhase;
    if e.ResumeEvent? {
      var outcome := s.commands[e.id].phase.outcome;
      var done := SetPhase(s, e.id, Done(outcome));
      SettledStatus(done, s.commands[e.id].request, outcome);
      assert done.mode == s.mode && done.probeGeneration == s.probeGeneration && done.connected == s.connected by {
        PhaseLeaves(s, e.id, Done(outcome));
      }
    } else if e.SettleEvent? {
      PhaseLeaves(s, e.id, Settled(e.outcome));
    }
  }

  lemma PhaseLeaves(s: State, id: nat, phase: Phase)
    requires id < |s.commands|
    ensures var t := SetPhase(s, id, phase);
            t.mode == s.mode && t.probeGeneration == s.probeGeneration && t.connected == s.connected
  {
  }

  lemma SettledStatus(s: State, request: Request, outcome: Outcome)
    ensures request.Probe? ==>
              ProbeSettled(s, request.generation, request.initGeneration, outcome.Reply?).mode ==
              if request.generation != s.probeGeneration then s.mode else if outcome.Reply? then Ready else Unavailable
    ensures ClaimSettled(s, outcome).mode == if outcome.Failure? && s.connected then Unavailable else s.mode
  {
  }

  /** Over a run the status of a replica is what its events made it. */
  lemma StatusIsMade(run: seq<State>, events: seq<Local.Event>, e: nat)
    requires Local.IsRun(run, events) && e < |events|
    ensures run[e + 1].mode == StatusAfter(run[e], events[e])
  {
    StatusTurn(run[e], events[e]);
  }

  lemma {:induction false} PathsJoin(a: seq<State>, x: seq<Local.Event>, b: seq<State>, y: seq<Local.Event>)
    requires Local.Path(a, x) && Local.Path(b, y) && b[0] == a[|a| - 1]
    ensures Local.Path(a + b[1..], x + y)
    ensures (a + b[1..])[0] == a[0] && (a + b[1..])[|x| + |y|] == b[|y|]
  {
    var c, z := a + b[1..], x + y;
    forall i | 0 <= i < |z| ensures Local.Enabled(c[i], z[i]) && c[i + 1] == Local.Step(c[i], z[i]) {
      if i < |x| {
        assert c[i] == a[i] && c[i + 1] == a[i + 1] && z[i] == x[i];
      } else {
        assert c[i] == b[i - |x|] && c[i + 1] == b[i - |x| + 1] && z[i] == y[i - |x|];
      }
    }
  }

  lemma OneStep(s: State, e: Local.Event)
    requires Local.Enabled(s, e)
    ensures Local.Path([s, Local.Step(s, e)], [e])
  {
  }

  /** Connecting starts a probe, or one is on its way. */
  lemma ReadyProbes(s: State)
    requires Local.Inv(s) && s.client.Some?
    ensures Local.Inv(OnReady(s, s.client.value))
    ensures var t := OnReady(s, s.client.value);
            t.connected && t.recovering && t.client == s.client && (!s.recovering ==> FreshProbe(s, t))
  {
    hide Local.Inv;
    assert s.named by { NamedClient(s); }
    Local.StepKeeps(s, Local.ReadyEvent(s.client.value));
  }

  predicate FreshProbe(s: State, t: State) {
    t.probeGeneration == s.probeGeneration
    && t.commands == s.commands + [Command(Probe(s.probeGeneration, s.initGeneration), InFlight)]
  }

  lemma NamedClient(s: State)
    requires Local.Inv(s) && s.client.Some?
    ensures s.named
  {
  }

  /** A replica that is started again becomes ready: nothing that happened before stands in its way. */
  lemma Restarted(s: State) returns (path: seq<State>, steps: seq<Local.Event>)
    requires Local.Inv(s)
    ensures Local.Path(path, steps) && path[0] == s && |steps| == 3
    ensures steps[0] == Local.DestroyCall && steps[1] == Local.InitializeCall(true)
    ensures var t := path[3];
            && Local.Inv(t) && t.connected && t.recovering
            && forall id: nat :: Local.Probing(t.commands, id, t.probeGeneration) ==> t.commands[id].phase == InFlight
  {
    hide Local.Inv;
    var a := Destroy(s);
    Local.StepKeeps(s, Local.DestroyCall);
    var b := Initialize(a, true);
    Local.StepKeeps(a, Local.InitializeCall(true));
    var c := OnReady(b, b.client.value);
    ReadyProbes(b);
    assert !b.recovering;
    path, steps := [s, a, b, c], [Local.DestroyCall, Local.InitializeCall(true), Local.ReadyEvent(b.client.value)];
    OnlyOneProbe(c, |b.commands|);
  }

  lemma OnlyOneProbe(s: State, id: nat)
    requires Local.Inv(s) && Local.Probing(s.commands, id, s.probeGeneration)
    ensures forall other: nat :: Local.Probing(s.commands, other, s.probeGeneration) ==> other == id
  {
  }

  /** From every reachable state a restart of the replica, its connection and one probe that comes back
      make it ready. */
  lemma RestartMakesReady(run: seq<State>, events: seq<Local.Event>, i: nat)
    returns (path: seq<State>, steps: seq<Local.Event>)
    requires Local.IsRun(run, events) && i < |run|
    ensures Local.Path(path, steps) && path[0] == run[i] && path[|path| - 1].mode == Ready
    ensures 2 <= |steps| <= 5 && steps[..2] == [Local.DestroyCall, Local.InitializeCall(true)]
  {
    hide Local.Inv;
    Local.RunKeeps(run, events, i);
    var a, x := Restarted(run[i]);
    var b, y := Local.ProbeSucceeds(a[3]);
    PathsJoin(a, x, b, y);
    path, steps := a + b[1..], x + y;
  }

  /** A new connection makes a ready replica of one that is not, if no probe was under way. */
  lemma ConnectionMakesReady(run: seq<State>, events: seq<Local.Event>, i: nat)
    returns (path: seq<State>, steps: seq<Local.Event>)
    requires Local.IsRun(run, events) && i < |run| && run[i].client.Some? && !run[i].recovering
    ensures Local.Path(path, steps) && path[0] == run[i] && path[|path| - 1].mode == Ready
    ensures 1 <= |steps| <= 3 && steps[0] == Local.ReadyEvent(run[i].client.value)
  {
    hide Local.Inv;
    Local.RunKeeps(run, events, i);
    var s := run[i];
    ReadyProbes(s);
    var t := OnReady(s, s.client.value);
    OneStep(s, Local.ReadyEvent(s.client.value));
    OnlyOneProbe(t, |s.commands|);
    var b, y := Local.ProbeSucceeds(t);
    PathsJoin([s, t], [Local.ReadyEvent(s.client.value)], b, y);
    path, steps := [s, t] + b[1..], [Local.ReadyEvent(s.client.value)] + y;
  }

  // ----- clients that were replaced -----

  lemma ClientTurn(s: State, e: Local.Event)
    requires Local.Enabled(s, e)
    ensures var t := Local.Step(s, e);
            s.clients <= t.clients && (t.client == s.client || t.client == None || t.client == Some(s.clients))
  {
    hide SetPhase;
    if e.ResumeEvent? {
      var outcome := s.commands[e.id].phase.outcome;
      ClientKept(s, e.id, Done(outcome));
      SettledClient(SetPhase(s, e.id, Done(outcome)), s.commands[e.id].request, outcome);
    } else if e.SettleEvent? {
      ClientKept(s, e.id, Settled(e.outcome));
    }
  }

  lemma ClientKept(s: State, id: nat, phase: Phase)
    requires id < |s.commands|
    ensures var t := SetPhase(s, id, phase);
            t.client == s.client && t.clients == s.clients
  {
  }

  predicate SameClient(s: State, t: State) {
    t.client == s.client && t.clients == s.clients
  }

  lemma MarksLeaveClient(s: State)
    ensures SameClient(s, MarkReady(s)) && SameClient(s, MarkUnavailable(s))
  {
  }

  lemma SettleLeavesClient(s: State, generation: nat)
    ensures SameClient(s, SettleInit(s, generation)) && SameClient(s, s.(recovering := false))
  {
  }

  lemma RecoveryLeavesClient(s: State)
    ensures SameClient(s, ScheduleRecovery(s))
  {
  }

  lemma SettledClient(s: State, request: Request, outcome: Outcome)
    ensures request.Probe? ==>
              SameClient(s, ProbeSettled(s, request.generation, request.initGeneration, outcome.Reply?))
    ensures SameClient(s, ClaimSettled(s, outcome))
  {
    hide ScheduleRecovery, MarkReady, MarkUnavailable, SettleInit;
    MarksLeaveClient(s);
    RecoveryLeavesClient(MarkUnavailable(s));
    if request.Probe? {
      var marked := if request.generation != s.probeGeneration then s else if outcome.Reply? then MarkReady(s) else MarkUnavailable(s);
      var settled := SettleInit(marked, request.initGeneration);
      SettleLeavesClient(marked, request.initGeneration);
      SettleLeavesClient(settled, request.initGeneration);
      RecoveryLeavesClient(settled.(recovering := false));
    }
  }

  lemma {:induction false} ReplacedForGood(run: seq<State>, events: seq<Local.Event>, client: nat, i: nat, j: nat)
    requires Local.IsRun(run, events) && i <= j < |run|
    requires client < run[i].clients && run[i].client != Some(client)
    ensures client < run[j].clients && run[j].client != Some(client)
    decreases j - i
  {
    hide Local.Step, Local.Enabled;
    if i < j {
      ReplacedForGood(run, events, client, i, j - 1);
      ClientTurn(run[j - 1], events[j - 1]);
    }
  }

  /** What a client that was replaced or given up still reports changes nothing, ever. */
  lemma ReplacedClientsAreIgnored(run: seq<State>, events: seq<Local.Event>, client: nat, i: nat, j: nat)
    requires Local.IsRun(run, events) && i <= j < |events|
    requires client < run[i].clients && run[i].client != Some(client)
    requires events[j] == Local.ReadyEvent(client) || events[j] == Local.DownEvent(client)
    ensures run[j + 1] == run[j]
  {
    ReplacedForGood(run, events, client, i, j);
  }

  // ----- how a start is answered -----

  /** The start that the first settlement is for is finished by it. */
  predicate SettlesFirst(s: State, e: Local.Event)
    requires Local.Enabled(s, e)
  {
    match e
    case DestroyCall => true
    case DownEvent(c) => s.client == Some(c)
    case ResumeEvent(id) => s.commands[id].request.Probe? && s.commands[id].request.initGeneration == s.initGeneration
    case _ => false
  }

  /** How far start `i` is after a turn: finished by its deadline or by the first settlement, and answered
      with the status unless the scheduler was destroyed since or has none. */
  function StartAfter(s: State, e: Local.Event, i: nat): InitPhase
    requires Local.Enabled(s, e) && i < |s.inits|
  {
    var init := s.inits[i];
    if e == Local.InitAnswersEvent(i) then
      Answered(if init.generation == s.initGeneration && s.mode != Uninitialized then Some(s.mode) else None)
    else if init.phase == Waiting && (e == Local.InitDeadlineEvent(i) || (s.firstSettle == Some(i) && SettlesFirst(s, e))) then Finished
    else init.phase
  }

  ghost predicate StartsAre(s: State, e: Local.Event, t: State)
    requires Local.Enabled(s, e)
  {
    && |s.inits| <= |t.inits|
    && (forall i: nat :: i < |s.inits| ==>
          t.inits[i].generation == s.inits[i].generation && t.inits[i].phase == StartAfter(s, e, i))
    && t.initGeneration == s.initGeneration + (if e.DestroyCall? then 1 else 0)
    && (forall i: nat :: |s.inits| <= i < |t.inits| ==>
          t.inits[i].generation == t.initGeneration && !t.inits[i].phase.Answered?)
  }

  lemma StartTurn(s: State, e: Local.Event)
    requires Local.Enabled(s, e)
    ensures StartsAre(s, e, Local.Step(s, e))
  {
    hide StartsAre, SetPhase, ProbeSettled, ClaimSettled, Initialize, InitDeadline, InitAnswers, Destroy, OnDown, OnReady, TimerFires, StartClaim;
    match e {
      case InitializeCall(built) => NewStart(s, built);
      case InitDeadlineEvent(i) => LateStart(s, i);
      case InitAnswersEvent(i) => AnsweredStart(s, i);
      case DestroyCall => DestroyedStarts(s);
      case DownEvent(c) => DownStarts(s, c);
      case SettleEvent(id, outcome) => SettledLeaveStarts(s, id, outcome);
      case ResumeEvent(id) => ResumeStarts(s, id);
      case _ => OthersLeaveStarts(s, e);
    }
  }

  lemma NewStart(s: State, built: bool)
    ensures StartsAre(s, Local.InitializeCall(built), Initialize(s, built))
  {
  }

  lemma LateStart(s: State, i: nat)
    requires Local.Enabled(s, Local.InitDeadlineEvent(i))
    ensures StartsAre(s, Local.InitDeadlineEvent(i), InitDeadline(s, i))
  {
    hide MarkUnavailable;
    MarksLeaveStarts(s);
  }

  lemma AnsweredStart(s: State, i: nat)
    requires Local.Enabled(s, Local.InitAnswersEvent(i))
    ensures StartsAre(s, Local.InitAnswersEvent(i), InitAnswers(s, i))
  {
  }

  lemma DestroyedStarts(s: State)
    ensures StartsAre(s, Local.DestroyCall, Destroy(s))
  {
    var t := Destroy(s);
    assert t.inits == (if s.firstSettle.Some? then Finish(s.inits, s.firstSettle.value) else s.inits);
    assert t.initGeneration == s.initGeneration + 1;
    hide Destroy;
  }

  lemma DownStarts(s: State, client: nat)
    ensures StartsAre(s, Local.DownEvent(client), OnDown(s, client))
  {
    hide SettleInit, MarkUnavailable;
    var down := s.(connected := false, recovering := false, probeGeneration := s.probeGeneration + 1, timer := false);
    MarksLeaveStarts(down);
    SettleFinishes(MarkUnavailable(down), s.initGeneration);
  }

  lemma SettledLeaveStarts(s: State, id: nat, outcome: Outcome)
    requires Local.Enabled(s, Local.SettleEvent(id, outcome))
    ensures StartsAre(s, Local.SettleEvent(id, outcome), SetPhase(s, id, Settled(outcome)))
  {
    hide SetPhase;
    PhaseLeavesStarts(s, id, Settled(outcome));
  }

  lemma OthersLeaveStarts(s: State, e: Local.Event)
    requires Local.Enabled(s, e) && (e.ReadyEvent? || e.TimerEvent? || e.ClaimCall?)
    ensures StartsAre(s, e, Local.Step(s, e))
  {
    var t := Local.Step(s, e);
    assert t.inits == s.inits && t.initGeneration == s.initGeneration;
    hide Local.Step;
  }

  lemma ResumeStarts(s: State, id: nat)
    requires Local.Enabled(s, Local.ResumeEvent(id))
    ensures StartsAre(s, Local.ResumeEvent(id), Local.Resume(s, id))
  {
    hide SetPhase, ProbeSettled, ClaimSettled;
    var outcome := s.commands[id].phase.outcome;
    PhaseLeavesStarts(s, id, Done(outcome));
    match s.commands[id].request {
      case Probe(generation, initGeneration) =>
        ProbeStarts(SetPhase(s, id, Done(outcome)), generation, initGeneration, outcome.Reply?);
      case Claim(_, _) =>
        ClaimStarts(SetPhase(s, id, Done(outcome)), outcome);
    }
  }

  lemma RecoveryLeavesStarts(s: State)
    ensures var t := ScheduleRecovery(s);
            t.inits == s.inits && t.initGeneration == s.initGeneration
  {
  }

  lemma MarksLeaveStarts(s: State)
    ensures MarkReady(s).inits == s.inits && MarkReady(s).initGeneration == s.initGeneration
    ensures MarkReady(s).firstSettle == s.firstSettle && MarkUnavailable(s).firstSettle == s.firstSettle
    ensures MarkUnavailable(s).inits == s.inits && MarkUnavailable(s).initGeneration == s.initGeneration
  {
  }

  lemma PhaseLeavesStarts(s: State, id: nat, phase: Phase)
    requires id < |s.commands|
    ensures var t := SetPhase(s, id, phase);
            t.inits == s.inits && t.initGeneration == s.initGeneration && t.firstSettle == s.firstSettle
  {
  }

  lemma SettleFinishes(s: State, generation: nat)
    ensures var t := SettleInit(s, generation);
            && t.initGeneration == s.initGeneration
            && t.inits == if generation == s.initGeneration && s.firstSettle.Some? then Finish(s.inits, s.firstSettle.value) else s.inits
  {
  }

  lemma ReleaseLeavesStarts(s: State)
    ensures var t := s.(recovering := false);
            t.inits == s.inits && t.initGeneration == s.initGeneration
  {
  }

  lemma ClaimStarts(s: State, outcome: Outcome)
    ensures ClaimSettled(s, outcome).inits == s.inits && ClaimSettled(s, outcome).initGeneration == s.initGeneration
  {
    hide ScheduleRecovery, MarkUnavailable;
    MarksLeaveStarts(s);
    RecoveryLeavesStarts(MarkUnavailable(s));
  }

  lemma ProbeStarts(s: State, generation: nat, initGeneration: nat, ok: bool)
    ensures var t := ProbeSettled(s, generation, initGeneration, ok);
            && t.initGeneration == s.initGeneration
            && t.inits == if initGeneration == s.initGeneration && s.firstSettle.Some?
                          then Finish(s.inits, s.firstSettle.value) else s.inits
  {
    hide ScheduleRecovery, MarkReady, MarkUnavailable, SettleInit, Finish;
    MarksLeaveStarts(s);
    var marked := if generation != s.probeGeneration then s else if ok then MarkReady(s) else MarkUnavailable(s);
    var settled := SettleInit(marked, initGeneration);
    SettleFinishes(marked, initGeneration);
    ReleaseLeavesStarts(settled);
    RecoveryLeavesStarts(settled.(recovering := false));
  }

  /** A start that has not been answered when the scheduler is destroyed is never answered with a status. */
  lemma {:induction false} SupersededStartsFail(run: seq<State>, events: seq<Local.Event>, d: nat, i: nat, j: nat)
    requires Local.IsRun(run, events) && d < j < |run| && events[d] == Local.DestroyCall
    requires i < |run[d].inits| && !run[d].inits[i].phase.Answered?
    ensures i < |run[j].inits| && run[j].inits[i].generation < run[j].initGeneration
    ensures run[j].inits[i].phase.Answered? ==> run[j].inits[i].phase == Answered(None)
    decreases j
  {
    hide Local.Step, SettlesFirst;
    StartTurn(run[j - 1], events[j - 1]);
    if d == j - 1 {
      StartsAreKnown(run, events, d, i);
    } else {
      SupersededStartsFail(run, events, d, i, j - 1);
    }
  }

  /** No start is of a later generation. */
  lemma {:induction false} StartsAreKnown(run: seq<State>, events: seq<Local.Event>, j: nat, i: nat)
    requires Local.IsRun(run, events) && j < |run| && i < |run[j].inits|
    ensures run[j].inits[i].generation <= run[j].initGeneration
  {
    hide Local.Step, StartAfter;
    if j > 0 {
      StartTurn(run[j - 1], events[j - 1]);
      if i < |run[j - 1].inits| {
        StartsAreKnown(run, events, j - 1, i);
      }
    }
  }
}
