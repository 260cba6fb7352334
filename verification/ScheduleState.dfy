/**
 Schedule coordination in one replica: the module-level variables of
 `schedule-coordination.ts` as one value, and every turn of the event loop that
 touches them as a function.  Coordination is enabled throughout; when it is not,
 the status is `inactive` and nothing below ever runs.
 */
module ScheduleState {
  import opened Wrappers

  datatype Mode = Uninitialized | Ready | Unavailable

  /** What a promise of a Redis command settles with: a reply, or an error or a deadline. */
  datatype Outcome = Reply(changed: int) | Failure

  datatype Phase = InFlight | Settled(outcome: Outcome) | Done(outcome: Outcome)

  /** A probe remembers the generations it was started on; a claim its schedule and the
      occurrence, in milliseconds, that its key names. */
  datatype Request =
    | Probe(generation: nat, initGeneration: nat)
    | Claim(schedule: string, occurrence: int)

  datatype Command = Command(request: Request, phase: Phase)

  /** One call of `runInit`: waiting for the first settlement or its deadline, finished but
      its continuation has not run, or returned. */
  datatype InitPhase = Waiting | Finished | Answered(mode: Option<Mode>)
  datatype Init = Init(generation: nat, phase: InitPhase)

  datatype State = State(
    mode: Mode,
    client: Option<nat>,
    named: bool,                 // `namespace` is set
    initPending: bool,           // `initPromise` is set
    initGeneration: nat,
    probeGeneration: nat,
    connected: bool,
    degraded: bool,
    recovering: bool,
    timer: bool,
    firstSettle: Option<nat>,
    inits: seq<Init>,
    clients: nat,
    commands: seq<Command>)

  const BOOT := State(Uninitialized, None, false, false, 0, 0, false, false, false, false, None, [], 0, [])

  function MarkReady(s: State): State {
    s.(mode := Ready, timer := false, degraded := false)
  }

  function MarkUnavailable(s: State): State {
    s.(mode := Unavailable, degraded := true)
  }

  /** `finish` of one `runInit`; calling it twice changes nothing. */
  function Finish(inits: seq<Init>, i: nat): seq<Init> {
    if i < |inits| && inits[i].phase == Waiting then inits[i := inits[i].(phase := Finished)] else inits
  }

  function SettleInit(s: State, generation: nat): State {
    if generation != s.initGeneration || s.firstSettle.None? then s
    else s.(firstSettle := None, inits := Finish(s.inits, s.firstSettle.value))
  }

  function ScheduleRecovery(s: State): State {
    if s.timer || s.recovering || !s.connected then s else s.(timer := true)
  }

  /** The synchronous part of `attemptProbe`, up to its first `await`. */
  function AttemptProbe(s: State): State {
    if s.recovering || !s.connected || s.client.None? || !s.named then s
    else s.(recovering := true,
            commands := s.commands + [Command(Probe(s.probeGeneration, s.initGeneration), InFlight)])
  }

  function SetPhase(s: State, id: nat, phase: Phase): State
    requires id < |s.commands|
  {
    s.(commands := s.commands[id := s.commands[id].(phase := phase)])
  }

  /** The rest of `attemptProbe`, once its command has settled. */
  function ProbeSettled(s: State, generation: nat, initGeneration: nat, ok: bool): State {
    var marked := if generation != s.probeGeneration then s else if ok then MarkReady(s) else MarkUnavailable(s);
    var settled := SettleInit(marked, initGeneration);
    if generation != s.probeGeneration then settled
    else
      var released := settled.(recovering := false);
      if released.mode != Ready && released.connected then ScheduleRecovery(released) else released
  }

  function OnReady(s: State, target: nat): State {
    if s.client != Some(target) then s
    else AttemptProbe(s.(connected := true, timer := false))
  }

  function OnDown(s: State, target: nat): State {
    if s.client != Some(target) then s
    else
      var down := MarkUnavailable(s.(connected := false, recovering := false,
                                     probeGeneration := s.probeGeneration + 1, timer := false));
      SettleInit(down, s.initGeneration)
  }

  function TimerFires(s: State): State {
    AttemptProbe(s.(timer := false))
  }

  /** `initScheduleCoordination`; `built` is whether the client could be constructed. */
  function Initialize(s: State, built: bool): State {
    if s.mode != Uninitialized || s.initPending then s
    else if !built then
      s.(named := true, initPending := true, mode := Unavailable, degraded := true,
         inits := s.inits + [Init(s.initGeneration, Finished)])
    else
      s.(named := true, initPending := true, client := Some(s.clients), clients := s.clients + 1,
         firstSettle := Some(|s.inits|), inits := s.inits + [Init(s.initGeneration, Waiting)])
  }

  /** The ten-second readiness deadline of one `runInit`. */
  function InitDeadline(s: State, i: nat): State
    requires i < |s.inits|
  {
    var marked := if s.inits[i].generation == s.initGeneration && s.mode == Uninitialized then MarkUnavailable(s) else s;
    marked.(inits := Finish(s.inits, i))
  }

  /** The continuation of `runInit`: a status, or the error that it was superseded. */
  function InitAnswers(s: State, i: nat): State
    requires i < |s.inits|
  {
    var init := s.inits[i];
    if init.generation != s.initGeneration || s.mode == Uninitialized
    then s.(inits := s.inits[i := init.(phase := Answered(None))])
    else s.(inits := s.inits[i := init.(phase := Answered(Some(s.mode)))], initPending := false)
  }

  function Destroy(s: State): State {
    s.(initGeneration := s.initGeneration + 1, probeGeneration := s.probeGeneration + 1,
       connected := false, recovering := false, timer := false,
       inits := if s.firstSettle.Some? then Finish(s.inits, s.firstSettle.value) else s.inits,
       firstSettle := None, client := None, named := false, mode := Uninitialized,
       initPending := false, degraded := false)
  }

  // ----- shouldRun -----

  datatype Verdict = Granted(run: bool) | Thrown

  /** The part of `shouldRun` before its command: an answer at once, or a claim on its way.
      `occurrence` is absent when the key does not end in a canonical timestamp. */
  function StartClaim(s: State, schedule: string, occurrence: Option<int>): (State, Option<Verdict>) {
    if s.mode == Unavailable then (s, Some(Granted(false)))
    else if occurrence.None? then (s, Some(Thrown))
    else if s.client.None? || !s.named then (s, Some(Thrown))
    else (s.(commands := s.commands + [Command(Claim(schedule, occurrence.value), InFlight)]), None)
  }

  /** What `shouldRun` does with the settled claim. */
  function ClaimVerdict(outcome: Outcome): Verdict {
    match outcome
    case Reply(changed) => Granted(changed == 1)
    case Failure => Thrown
  }

  function ClaimSettled(s: State, outcome: Outcome): State {
    if outcome.Failure? && s.connected then ScheduleRecovery(MarkUnavailable(s)) else s
  }
}
