/**
 Any number of replicas over one sorted set, whose server executes each command at most once, at any time after it was sent.
 */
module ScheduleCluster {
  import opened Wrappers
  import opened ScheduleState
  import Local = ScheduleRuns

  const PROBE_MEMBER: string := "__probe__"
  const PROBE_SCORE: int := 0

  /** One `ZADD key GT CH score member` as the server ran it. */
  datatype Execution = Execution(replica: nat, id: nat, member: string, score: int, changed: int)

  datatype Cluster = Cluster(zset: map<string, int>, replicas: seq<State>, log: seq<Execution>)

  function Member(r: Request): string {
    if r.Probe? then PROBE_MEMBER else r.schedule
  }

  function Score(r: Request): int {
    if r.Probe? then PROBE_SCORE else r.occurrence
  }

  /** The number of members `GT CH` adds or raises. */
  function Changed(zset: map<string, int>, member: string, score: int): int {
    if member !in zset || score > zset[member] then 1 else 0
  }

  function Zadd(zset: map<string, int>, member: string, score: int): map<string, int> {
    if Changed(zset, member, score) == 1 then zset[member := score] else zset
  }

  datatype Event =
    | Turn(replica: nat, event: Local.Event)
    | Execute(replica: nat, id: nat)

  predicate Executed(log: seq<Execution>, replica: nat, id: nat, changed: int) {
    exists k :: 0 <= k < |log| && log[k].replica == replica && log[k].id == id && log[k].changed == changed
  }

  predicate Enabled(c: Cluster, e: Event) {
    match e
    case Turn(r, event) =>
      && r < |c.replicas| && Local.Enabled(c.replicas[r], event)
      && (event.SettleEvent? && event.outcome.Reply? ==> Executed(c.log, r, event.id, event.outcome.changed))
    case Execute(r, id) =>
      && r < |c.replicas| && id < |c.replicas[r].commands|
      && forall k :: 0 <= k < |c.log| ==> !(c.log[k].replica == r && c.log[k].id == id)
  }

  function Step(c: Cluster, e: Event): Cluster
    requires Enabled(c, e)
  {
    match e
    case Turn(r, event) => c.(replicas := c.replicas[r := Local.Step(c.replicas[r], event)])
    case Execute(r, id) =>
      var request := c.replicas[r].commands[id].request;
      var changed := Changed(c.zset, Member(request), Score(request));
      c.(zset := Zadd(c.zset, Member(request), Score(request)),
         log := c.log + [Execution(r, id, Member(request), Score(request), changed)])
  }

  /** A run of any number of replicas, all started, over an empty or a used sorted set. */
  ghost predicate IsRun(run: seq<Cluster>, events: seq<Event>) {
    && |run| == |events| + 1
    && run[0].log == []
    && (forall r :: 0 <= r < |run[0].replicas| ==> run[0].replicas[r] == BOOT)
    && forall i :: 0 <= i < |events| ==> Enabled(run[i], events[i]) && run[i + 1] == Step(run[i], events[i])
  }

  // ----- one replica's commands -----

  function Outcomes(p: Phase): Option<Outcome> {
    if p.InFlight? then None else Some(p.outcome)
  }

  predicate IsAppended(before: seq<Command>, after: seq<Command>) {
    |after| == |before| + 1 && after[..|before|] == before && after[|before|].phase == InFlight
  }

  lemma TurnCommands(s: State, e: Local.Event)
    requires Local.Enabled(s, e)
    ensures var after := Local.Step(s, e).commands;
            match e
            case SettleEvent(id, outcome) => after == SetPhase(s, id, Settled(outcome)).commands
            case ResumeEvent(id) => after == SetPhase(s, id, Done(s.commands[id].phase.outcome)).commands
            case _ => after == s.commands || IsAppended(s.commands, after)
  {
    hide Initialize, InitDeadline, InitAnswers, Destroy, OnReady, OnDown, TimerFires, StartClaim, ProbeSettled,
         ClaimSettled, SetPhase, IsAppended;
    match e {
      case InitializeCall(built) => CallsSendNothing(s, built);
      case DestroyCall => CallsSendNothing(s, false);
      case InitDeadlineEvent(i) => InitsSendNothing(s, i);
      case InitAnswersEvent(i) => InitsSendNothing(s, i);
      case ReadyEvent(c) => ConnectionsSend(s, c);
      case DownEvent(c) => ConnectionsSend(s, c);
      case TimerEvent => ConnectionsSend(s, 0);
      case ClaimCall(schedule, occurrence) => ClaimSends(s, schedule, occurrence);
      case SettleEvent(_, _) =>
      case ResumeEvent(id) =>
        var outcome := s.commands[id].phase.outcome;
        ResumeSendsNothing(SetPhase(s, id, Done(outcome)), s.commands[id].request, outcome);
    }
  }

  lemma CallsSendNothing(s: State, built: bool)
    ensures Initialize(s, built).commands == s.commands && Destroy(s).commands == s.commands
  {
  }

  lemma InitsSendNothing(s: State, i: nat)
    requires i < |s.inits|
    ensures InitDeadline(s, i).commands == s.commands && InitAnswers(s, i).commands == s.commands
  {
  }

  lemma AttemptSends(s: State)
    ensures AttemptProbe(s).commands == s.commands || IsAppended(s.commands, AttemptProbe(s).commands)
  {
  }

  lemma ConnectionsSend(s: State, c: nat)
    ensures OnReady(s, c).commands == s.commands || IsAppended(s.commands, OnReady(s, c).commands)
    ensures OnDown(s, c).commands == s.commands
    ensures TimerFires(s).commands == s.commands || IsAppended(s.commands, TimerFires(s).commands)
  {
    hide AttemptProbe, IsAppended;
    AttemptSends(s.(connected := true, timer := false));
    AttemptSends(s.(timer := false));
  }

  lemma ClaimSends(s: State, schedule: string, occurrence: Option<int>)
    ensures var after := StartClaim(s, schedule, occurrence).0.commands;
            after == s.commands || IsAppended(s.commands, after)
  {
  }

  lemma ResumeSendsNothing(s: State, request: Request, outcome: Outcome)
    ensures request.Probe? ==>
              ProbeSettled(s, request.generation, request.initGeneration, outcome.Reply?).commands == s.commands
    ensures ClaimSettled(s, outcome).commands == s.commands
  {
  }

  /** A turn sends new commands, may settle one, and never changes an answer. */
  lemma TurnKeepsCommands(s: State, e: Local.Event)
    requires Local.Enabled(s, e)
    ensures var t := Local.Step(s, e);
            && |s.commands| <= |t.commands|
            && (forall id: nat :: id < |s.commands| ==>
                  && t.commands[id].request == s.commands[id].request
                  && (!(e.SettleEvent? && e.id == id) ==>
                        Outcomes(t.commands[id].phase) == Outcomes(s.commands[id].phase)))
            && (e.SettleEvent? ==> t.commands[e.id].phase == Settled(e.outcome))
            && (forall id: nat :: |s.commands| <= id < |t.commands| ==> t.commands[id].phase == InFlight)
  {
    hide Local.Step;
    TurnCommands(s, e);
    var after := Local.Step(s, e).commands;
    if IsAppended(s.commands, after) {
      assert forall id: nat :: id < |s.commands| ==> after[id] == after[..|s.commands|][id];
    }
  }

  // ----- the invariant -----

  /** The log tells each command's one execution, as the command asked for it. */
  ghost predicate Recorded(log: seq<Execution>, replicas: seq<State>) {
    && (forall k :: 0 <= k < |log| ==>
          && log[k].replica < |replicas|
          && log[k].id < |replicas[log[k].replica].commands|
          && var request := replicas[log[k].replica].commands[log[k].id].request;
             log[k].member == Member(request) && log[k].score == Score(request))
    && (forall j, k :: 0 <= j < k < |log| ==> !(log[j].replica == log[k].replica && log[j].id == log[k].id))
  }

  /** A reply a replica has is the reply of its command's execution. */
  ghost predicate Truthful(log: seq<Execution>, replicas: seq<State>) {
    forall r: nat, id: nat ::
      r < |replicas| && id < |replicas[r].commands|
      && Outcomes(replicas[r].commands[id].phase).Some?
      && Outcomes(replicas[r].commands[id].phase).value.Reply? ==>
        Executed(log, r, id, Outcomes(replicas[r].commands[id].phase).value.changed)
  }

  /** Where a member's score in the set comes from. */
  ghost predicate Sourced(start: map<string, int>, zset: map<string, int>, log: seq<Execution>, m: string)
    requires m in zset
  {
    (m in start && start[m] == zset[m]) || exists k :: 0 <= k < |log| && log[k].member == m && log[k].score == zset[m]
  }

  /** Scores only rise: every execution so far is at or below the set, and an execution changed
      the set exactly when it was above the start and everything before it. */
  ghost predicate Rising(start: map<string, int>, zset: map<string, int>, log: seq<Execution>) {
    && (forall m :: m in start ==> m in zset && start[m] <= zset[m])
    && (forall k :: 0 <= k < |log| ==> log[k].member in zset && log[k].score <= zset[log[k].member])
    && (forall m :: m in zset ==> Sourced(start, zset, log, m))
    && (forall k :: 0 <= k < |log| ==> (log[k].changed == 1 <==> Above(start, log, k)))
  }

  /** Execution `k` was for a later time than its member ever had. */
  ghost predicate Above(start: map<string, int>, log: seq<Execution>, k: int)
    requires 0 <= k < |log|
  {
    && (log[k].member in start ==> start[log[k].member] < log[k].score)
    && forall j :: 0 <= j < k && log[j].member == log[k].member ==> log[j].score < log[k].score
  }

  ghost predicate Inv(start: map<string, int>, c: Cluster) {
    && Recorded(c.log, c.replicas)
    && Truthful(c.log, c.replicas)
    && Rising(start, c.zset, c.log)
  }

  lemma AboveKept(start: map<string, int>, log: seq<Execution>, x: Execution, k: int)
    requires 0 <= k < |log|
    ensures Above(start, log + [x], k) <==> Above(start, log, k)
  {
    assert forall j :: 0 <= j < |log| ==> (log + [x])[j] == log[j];
    if Above(start, log + [x], k) {
      forall j | 0 <= j < k && log[j].member == log[k].member ensures log[j].score < log[k].score {
        assert (log + [x])[j] == log[j];
      }
    }
  }

  lemma SourcedKept(start: map<string, int>, zset: map<string, int>, log: seq<Execution>, x: Execution, m: string)
    requires Rising(start, zset, log) && x.changed == Changed(zset, x.member, x.score)
    requires m in Zadd(zset, x.member, x.score)
    ensures Sourced(start, Zadd(zset, x.member, x.score), log + [x], m)
  {
    var more := log + [x];
    if m == x.member && x.changed == 1 {
      assert more[|log|].member == m;
    } else if !(m in start && start[m] == zset[m]) {
      assert m in zset;
      var j :| 0 <= j < |log| && log[j].member == m && log[j].score == zset[m];
      assert more[j] == log[j];
    }
  }

  lemma ChangedIffAbove(start: map<string, int>, zset: map<string, int>, log: seq<Execution>, x: Execution)
    requires Rising(start, zset, log) && x.changed == Changed(zset, x.member, x.score)
    ensures x.changed == 1 <==> Above(start, log + [x], |log|)
  {
    var more := log + [x];
    assert forall j :: 0 <= j < |log| ==> more[j] == log[j];
    if x.changed != 1 && !(x.member in start && start[x.member] == zset[x.member]) {
      var j :| 0 <= j < |log| && log[j].member == x.member && log[j].score == zset[x.member];
      assert more[j] == log[j];
    }
  }

  lemma ExecuteRises(start: map<string, int>, zset: map<string, int>, log: seq<Execution>, x: Execution)
    requires Rising(start, zset, log) && x.changed == Changed(zset, x.member, x.score)
    ensures Rising(start, Zadd(zset, x.member, x.score), log + [x])
  {
    hide Above;
    var more := log + [x];
    var after := Zadd(zset, x.member, x.score);
    forall k | 0 <= k < |more| ensures more[k].changed == 1 <==> Above(start, more, k) {
      if k < |log| {
        AboveKept(start, log, x, k);
      } else {
        ChangedIffAbove(start, zset, log, x);
      }
    }
    forall m | m in after ensures Sourced(start, after, more, m) {
      SourcedKept(start, zset, log, x, m);
    }
    assert forall k :: 0 <= k < |log| ==> more[k] == log[k];
  }

  lemma ExecuteKeeps(start: map<string, int>, c: Cluster, r: nat, id: nat)
    requires Inv(start, c) && Enabled(c, Execute(r, id))
    ensures Inv(start, Step(c, Execute(r, id)))
  {
    hide Rising, Above;
    var request := c.replicas[r].commands[id].request;
    var x := Execution(r, id, Member(request), Score(request), Changed(c.zset, Member(request), Score(request)));
    ExecuteRises(start, c.zset, c.log, x);
    var t := Step(c, Execute(r, id));
    assert forall k :: 0 <= k < |c.log| ==> t.log[k] == c.log[k];
    forall q: nat, i: nat, changed: int | Executed(c.log, q, i, changed) ensures Executed(t.log, q, i, changed) {
      var k :| 0 <= k < |c.log| && c.log[k].replica == q && c.log[k].id == i && c.log[k].changed == changed;
      assert t.log[k] == c.log[k];
    }
  }

  lemma TurnKeeps(start: map<string, int>, c: Cluster, r: nat, e: Local.Event)
    requires Inv(start, c) && Enabled(c, Turn(r, e))
    ensures Inv(start, Step(c, Turn(r, e)))
  {
    hide Rising, Above, Local.Step;
    TurnKeepsCommands(c.replicas[r], e);
  }

  lemma {:induction false} RunKeeps(run: seq<Cluster>, events: seq<Event>, i: nat)
    requires IsRun(run, events) && i < |run|
    ensures Inv(run[0].zset, run[i])
  {
    if i > 0 {
      RunKeeps(run, events, i - 1);
      match events[i - 1] {
        case Turn(r, e) => TurnKeeps(run[0].zset, run[i - 1], r, e);
        case Execute(r, id) => ExecuteKeeps(run[0].zset, run[i - 1], r, id);
      }
    }
  }

  // ----- the promise -----

  /** `shouldRun` returned true to replica `r` for its command `id`. */
  predicate Granted(c: Cluster, r: nat, id: nat) {
    && r < |c.replicas| && id < |c.replicas[r].commands|
    && c.replicas[r].commands[id].request.Claim?
    && c.replicas[r].commands[id].phase.Done?
    && ClaimVerdict(c.replicas[r].commands[id].phase.outcome) == ScheduleState.Granted(true)
  }

  lemma GrantWasExecuted(c: Cluster, r: nat, id: nat) returns (k: nat)
    requires Recorded(c.log, c.replicas) && Truthful(c.log, c.replicas) && Granted(c, r, id)
    ensures k < |c.log| && c.log[k].replica == r && c.log[k].id == id && c.log[k].changed == 1
    ensures var request := c.replicas[r].commands[id].request;
            c.log[k].member == request.schedule && c.log[k].score == request.occurrence
  {
    assert Outcomes(c.replicas[r].commands[id].phase) == Some(Reply(1));
    assert Executed(c.log, r, id, 1);
    k :| 0 <= k < |c.log| && c.log[k].replica == r && c.log[k].id == id && c.log[k].changed == 1;
  }

  /** At most once: across all replicas and all interleavings of claims, timeouts, late replies,
      probes, reconnects and restarts, no two calls run the same occurrence of a schedule. */
  lemma AtMostOnce(run: seq<Cluster>, events: seq<Event>, i: nat, r1: nat, id1: nat, r2: nat, id2: nat)
    requires IsRun(run, events) && i < |run|
    requires Granted(run[i], r1, id1) && Granted(run[i], r2, id2)
    requires run[i].replicas[r1].commands[id1].request == run[i].replicas[r2].commands[id2].request
    ensures r1 == r2 && id1 == id2
  {
    RunKeeps(run, events, i);
    var start := run[0].zset;
    var k1 := GrantWasExecuted(run[i], r1, id1);
    var k2 := GrantWasExecuted(run[i], r2, id2);
    assert Above(start, run[i].log, k1) && Above(start, run[i].log, k2);
  }

  /** The occurrences granted for one schedule are strictly increasing in the order in which the
      server executed the claims. */
  lemma GrantsIncrease(run: seq<Cluster>, events: seq<Event>, i: nat, a: nat, b: nat)
    requires IsRun(run, events) && i < |run| && a < b < |run[i].log|
    requires run[i].log[a].member == run[i].log[b].member && run[i].log[b].changed == 1
    ensures run[i].log[a].score < run[i].log[b].score
  {
    RunKeeps(run, events, i);
    assert Above(run[0].zset, run[i].log, b);
  }

  lemma {:induction false} LogGrows(run: seq<Cluster>, events: seq<Event>, i: nat, j: nat)
    requires IsRun(run, events) && i <= j < |run|
    ensures run[i].log <= run[j].log
  {
    if i < j {
      LogGrows(run, events, i, j - 1);
      assert run[j] == Step(run[j - 1], events[j - 1]);
    }
  }

  /** For calls that do not overlap the order is the callers' too: once an occurrence has been granted,
      a claim sent later for the same schedule is granted only for a later occurrence. */
  lemma LaterClaimsGetLater(run: seq<Cluster>, events: seq<Event>, i: nat, r1: nat, id1: nat, j: nat, r2: nat, id2: nat)
    requires IsRun(run, events) && i <= j < |run|
    requires Granted(run[i], r1, id1) && Granted(run[j], r2, id2)
    requires r2 < |run[i].replicas| ==> |run[i].replicas[r2].commands| <= id2
    requires run[i].replicas[r1].commands[id1].request.schedule == run[j].replicas[r2].commands[id2].request.schedule
    ensures run[i].replicas[r1].commands[id1].request.occurrence < run[j].replicas[r2].commands[id2].request.occurrence
  {
    RunKeeps(run, events, i);
    RunKeeps(run, events, j);
    LogGrows(run, events, i, j);
    var k1 := GrantWasExecuted(run[i], r1, id1);
    var k2 := GrantWasExecuted(run[j], r2, id2);
    assert run[i].log[k1] == run[j].log[k1];
    assert forall k :: 0 <= k < |run[i].log| ==> run[i].log[k] == run[j].log[k];
    assert k2 >= |run[i].log|;
    assert Above(run[0].zset, run[j].log, k2);
  }

  /** What a claim's execution answers is decided by the earlier executions for its own schedule
      alone, so a probe never consumes a claim: probes write another member, unless a schedule
      has the probe's name, and then they only stand for occurrence 0. */
  lemma ClaimsAnswerForTheirSchedule(run: seq<Cluster>, events: seq<Event>, i: nat, k: nat)
    requires IsRun(run, events) && i < |run| && k < |run[i].log|
    ensures var log := run[i].log;
            var x := log[k];
            var start := run[0].zset;
            x.changed == 1 <==>
              && (x.member in start ==> start[x.member] < x.score)
              && (forall j :: 0 <= j < k && log[j].member == x.member && IsClaim(run[i], log[j]) ==> log[j].score < x.score)
              && (x.member == PROBE_MEMBER && (exists j :: 0 <= j < k && !IsClaim(run[i], log[j])) ==> PROBE_SCORE < x.score)
  {
    RunKeeps(run, events, i);
    var log := run[i].log;
    assert log[k].changed == 1 <==> Above(run[0].zset, log, k);
    forall j | 0 <= j < k && !IsClaim(run[i], log[j]) ensures log[j].member == PROBE_MEMBER && log[j].score == PROBE_SCORE { }
  }

  predicate IsClaim(c: Cluster, x: Execution) {
    && x.replica < |c.replicas| && x.id < |c.replicas[x.replica].commands|
    && c.replicas[x.replica].commands[x.id].request.Claim?
  }

  /** Nine turns in which the older of two occurrences is executed first but answered last. */
  function OldestAnswersLast(): seq<Event> {
    [ Turn(0, Local.InitializeCall(true)),
      Turn(0, Local.ClaimCall("nightly", Some(1))),
      Turn(0, Local.ClaimCall("nightly", Some(2))),
      Execute(0, 0),
      Execute(0, 1),
      Turn(0, Local.SettleEvent(1, Reply(1))),
      Turn(0, Local.ResumeEvent(1)),
      Turn(0, Local.SettleEvent(0, Reply(1))),
      Turn(0, Local.ResumeEvent(0)) ]
  }

  function Claiming(first: Phase, second: Phase): State {
    Initialize(BOOT, true).(commands := [Command(Claim("nightly", 1), first), Command(Claim("nightly", 2), second)])
  }

  lemma BothClaimed() returns (run: seq<Cluster>)
    ensures |run| == 6 && run[0] == Cluster(map[], [BOOT], [])
    ensures forall i :: 0 <= i < 5 ==>
              Enabled(run[i], OldestAnswersLast()[i]) && run[i + 1] == Step(run[i], OldestAnswersLast()[i])
    ensures run[5].replicas == [Claiming(InFlight, InFlight)]
    ensures run[5].log == [Execution(0, 0, "nightly", 1, 1), Execution(0, 1, "nightly", 2, 1)]
  {
    var events := OldestAnswersLast();
    var c := Cluster(map[], [BOOT], []);
    var c1 := Step(c, events[0]);
    var c2 := Step(c1, events[1]);
    var c3 := Step(c2, events[2]);
    assert c3.replicas[0].commands == [Command(Claim("nightly", 1), InFlight), Command(Claim("nightly", 2), InFlight)];
    assert c3.replicas[0] == Claiming(InFlight, InFlight);
    var c4 := Step(c3, events[3]);
    var c5 := Step(c4, events[4]);
    run := [c, c1, c2, c3, c4, c5];
  }

  lemma BothAnswered(c: Cluster) returns (run: seq<Cluster>)
    requires c.replicas == [Claiming(InFlight, InFlight)]
    requires c.log == [Execution(0, 0, "nightly", 1, 1), Execution(0, 1, "nightly", 2, 1)]
    ensures |run| == 5 && run[0] == c
    ensures forall i :: 0 <= i < 4 ==>
              Enabled(run[i], OldestAnswersLast()[5 + i]) && run[i + 1] == Step(run[i], OldestAnswersLast()[5 + i])
    ensures run[2].replicas == [Claiming(InFlight, Done(Reply(1)))]
    ensures run[4].replicas == [Claiming(Done(Reply(1)), Done(Reply(1)))]
  {
    var events := OldestAnswersLast();
    assert c.log[0].changed == 1 && c.log[1].changed == 1;
    var c1 := Step(c, events[5]);
    assert c1.replicas[0] == Claiming(InFlight, Settled(Reply(1)));
    var c2 := Step(c1, events[6]);
    assert c2.replicas[0] == Claiming(InFlight, Done(Reply(1)));
    var c3 := Step(c2, events[7]);
    assert c3.replicas[0] == Claiming(Settled(Reply(1)), Done(Reply(1)));
    var c4 := Step(c3, events[8]);
    assert c4.replicas[0] == Claiming(Done(Reply(1)), Done(Reply(1)));
    run := [c, c1, c2, c3, c4];
  }

  /** The order is the server's, not the callers': `shouldRun` may answer true for an occurrence
      after it answered true for a later one. */
  lemma AnswersMayBeOutOfOrder() returns (run: seq<Cluster>)
    ensures IsRun(run, OldestAnswersLast()) && |run| == 10
    ensures run[7].replicas == [Claiming(InFlight, Done(Reply(1)))]
    ensures run[9].replicas == [Claiming(Done(Reply(1)), Done(Reply(1)))]
    ensures Granted(run[7], 0, 1) && !Granted(run[7], 0, 0) && Granted(run[9], 0, 0)
  {
    var first := BothClaimed();
    var second := BothAnswered(first[5]);
    run := first + second[1..];
    forall i | 0 <= i < 9
      ensures Enabled(run[i], OldestAnswersLast()[i]) && run[i + 1] == Step(run[i], OldestAnswersLast()[i])
    {
      if i < 5 {
        assert run[i] == first[i] && run[i + 1] == first[i + 1];
      } else {
        assert run[i] == second[i - 5] && run[i + 1] == second[i - 4];
      }
    }
  }
}
