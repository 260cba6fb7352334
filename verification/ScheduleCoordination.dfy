/**
 Schedule coordination as an object: the module-level variables are its fields, and every
 handler is proved to take exactly the turn `ScheduleState` describes, so what `ScheduleRuns`
 and `ScheduleCluster` say of runs holds of it.
 */
module ScheduleCoordination {
  import opened Wrappers
  import opened ScheduleState
  import Runs = ScheduleRuns

  class Coordinator {
    var mode: Mode
    var client: Option<nat>
    var named: bool
    var initPending: bool
    var initGeneration: nat
    var probeGeneration: nat
    var connected: bool
    var degraded: bool
    var recovering: bool
    var recoveryTimer: bool
    var firstSettle: Option<nat>
    var inits: seq<Init>
    var clients: nat
    var commands: seq<Command>

    ghost function View(): State
      reads this
    {
      State(mode, client, named, initPending, initGeneration, probeGeneration, connected, degraded, recovering,
            recoveryTimer, firstSettle, inits, clients, commands)
    }

    /** What every turn keeps: ready is proved on the current generation, at most one probe of it is in
        flight, and whoever is connected without being ready will be woken. */
    ghost predicate Valid()
      reads this
    {
      Runs.Inv(View())
    }

    constructor ()
      ensures Valid() && View() == BOOT
    {
      mode, client, named, initPending := Uninitialized, None, false, false;
      initGeneration, probeGeneration := 0, 0;
      connected, degraded, recovering, recoveryTimer := false, false, false, false;
      firstSettle, inits, clients, commands := None, [], 0, [];
    }

    // ----- status -----

    method MarkReady()
      modifies this
      ensures View() == ScheduleState.MarkReady(old(View()))
    {
      mode := Ready;
      recoveryTimer := false;
      degraded := false;
    }

    method MarkUnavailable()
      modifies this
      ensures View() == ScheduleState.MarkUnavailable(old(View()))
    {
      mode := Unavailable;
      degraded := true;
    }

    method ScheduleRecovery()
      modifies this
      ensures View() == ScheduleState.ScheduleRecovery(old(View()))
    {
      if recoveryTimer || recovering || !connected {
        return;
      }
      recoveryTimer := true;
    }

    // ----- initialization -----

    method FinishInit(i: nat)
      modifies this
      ensures View() == old(View()).(inits := Finish(old(inits), i))
    {
      if i < |inits| && inits[i].phase == Waiting {
        inits := inits[i := inits[i].(phase := Finished)];
      }
    }

    method SettleInit(generation: nat)
      modifies this
      ensures View() == ScheduleState.SettleInit(old(View()), generation)
    {
      if generation != initGeneration {
        return;
      }
      var settle := firstSettle;
      firstSettle := None;
      if settle.Some? {
        FinishInit(settle.value);
      }
    }

    method Initialize(built: bool)
      requires Valid()
      modifies this
      ensures Valid()
      ensures View() == ScheduleState.Initialize(old(View()), built)
    {
      hide Runs.Inv;
      Runs.StepKeeps(View(), Runs.InitializeCall(built));
      if mode == Ready || mode == Unavailable || initPending {
        return;
      }
      named := true;
      initPending := true;
      if !built {
        MarkUnavailable();
        inits := inits + [Init(initGeneration, Finished)];
        return;
      }
      client := Some(clients);
      clients := clients + 1;
      firstSettle := Some(|inits|);
      inits := inits + [Init(initGeneration, Waiting)];
    }

    method InitDeadline(i: nat)
      requires Valid() && i < |inits| && inits[i].phase == Waiting
      modifies this
      ensures Valid()
      ensures View() == ScheduleState.InitDeadline(old(View()), i)
    {
      hide Runs.Inv;
      Runs.StepKeeps(View(), Runs.InitDeadlineEvent(i));
      if inits[i].generation == initGeneration && mode == Uninitialized {
        MarkUnavailable();
      }
      FinishInit(i);
    }

    method InitAnswers(i: nat) returns (status: Option<Mode>)
      requires Valid() && i < |inits| && inits[i].phase == Finished
      modifies this
      ensures Valid()
      ensures View() == ScheduleState.InitAnswers(old(View()), i)
      ensures status == if old(inits[i].generation == initGeneration) && mode != Uninitialized then Some(mode) else None
    {
      hide Runs.Inv;
      Runs.StepKeeps(View(), Runs.InitAnswersEvent(i));
      var superseded := inits[i].generation != initGeneration || mode == Uninitialized;
      status := if superseded then None else Some(mode);
      inits := inits[i := inits[i].(phase := Answered(status))];
      if !superseded {
        initPending := false;
      }
    }

    method Destroy()
      requires Valid()
      modifies this
      ensures Valid()
      ensures View() == ScheduleState.Destroy(old(View()))
    {
      hide Runs.Inv;
      Runs.StepKeeps(View(), Runs.DestroyCall);
      StopRecovery();
      var settle := firstSettle;
      firstSettle := None;
      if settle.Some? {
        FinishInit(settle.value);
      }
      client := None;
      named := false;
      mode := Uninitialized;
      initPending := false;
      degraded := false;
    }

    method StopRecovery()
      modifies this
      ensures View() == old(View()).(initGeneration := old(initGeneration) + 1,
                                     probeGeneration := old(probeGeneration) + 1,
                                     connected := false, recovering := false, timer := false)
    {
      initGeneration := initGeneration + 1;
      probeGeneration := probeGeneration + 1;
      connected := false;
      recovering := false;
      recoveryTimer := false;
    }

    // ----- connection events and probes -----

    method OnReady(target: nat)
      requires Valid()
      modifies this
      ensures Valid()
      ensures View() == ScheduleState.OnReady(old(View()), target)
      ensures client == Some(target) ==> recovering && !recoveryTimer
    {
      assert Runs.Placed(View());
      hide Runs.Inv;
      Runs.StepKeeps(View(), Runs.ReadyEvent(target));
      if client != Some(target) {
        return;
      }
      connected := true;
      recoveryTimer := false;
      AttemptProbe();
    }

    method OnDown(target: nat)
      requires Valid()
      modifies this
      ensures Valid()
      ensures View() == ScheduleState.OnDown(old(View()), target)
      ensures client == Some(target) ==> mode == Unavailable && !connected && !recovering
    {
      hide Runs.Inv;
      Runs.StepKeeps(View(), Runs.DownEvent(target));
      if client != Some(target) {
        return;
      }
      connected := false;
      recovering := false;
      probeGeneration := probeGeneration + 1;
      recoveryTimer := false;
      MarkUnavailable();
      SettleInit(initGeneration);
    }

    method TimerFires()
      requires Valid() && recoveryTimer
      modifies this
      ensures Valid()
      ensures View() == ScheduleState.TimerFires(old(View()))
      ensures recovering && !recoveryTimer
    {
      assert Runs.Placed(View());
      hide Runs.Inv;
      Runs.StepKeeps(View(), Runs.TimerEvent);
      recoveryTimer := false;
      AttemptProbe();
    }

    method AttemptProbe()
      modifies this
      ensures View() == ScheduleState.AttemptProbe(old(View()))
    {
      if recovering || !connected || client.None? || !named {
        return;
      }
      recovering := true;
      commands := commands + [Command(Probe(probeGeneration, initGeneration), InFlight)];
    }

    method ProbeSettled(generation: nat, startedIn: nat, ok: bool)
      modifies this
      ensures View() == ScheduleState.ProbeSettled(old(View()), generation, startedIn, ok)
    {
      hide ScheduleState.SettleInit;
      if generation == probeGeneration {
        if ok {
          MarkReady();
        } else {
          MarkUnavailable();
        }
      }
      var current := generation == probeGeneration;
      SettleInit(startedIn);
      assert View().probeGeneration == old(probeGeneration) by { SettleKeepsGeneration(old(View()), startedIn, ok); }
      if current {
        recovering := false;
        if mode != Ready && connected {
          ScheduleRecovery();
        }
      }
    }

    lemma SettleKeepsGeneration(s: State, startedIn: nat, ok: bool)
      ensures ScheduleState.SettleInit(s, startedIn).probeGeneration == s.probeGeneration
      ensures ScheduleState.SettleInit(ScheduleState.MarkReady(s), startedIn).probeGeneration == s.probeGeneration
      ensures ScheduleState.SettleInit(ScheduleState.MarkUnavailable(s), startedIn).probeGeneration == s.probeGeneration
    {
    }

    // ----- shouldRun -----

    /** Until its command is sent; an answer means no command was sent at all. */
    method ShouldRun(schedule: string, occurrence: Option<int>) returns (answer: Option<Verdict>)
      requires Valid()
      modifies this
      ensures Valid()
      ensures (View(), answer) == StartClaim(old(View()), schedule, occurrence)
      ensures old(mode) == Unavailable ==> answer == Some(Granted(false)) && commands == old(commands)
      ensures old(mode) == Ready && occurrence.Some? ==>
                answer == None && commands == old(commands) + [Command(Claim(schedule, occurrence.value), InFlight)]
      ensures old(mode) != Unavailable && (occurrence.None? || old(client).None? || !old(named)) ==>
                answer == Some(Thrown) && commands == old(commands)
    {
      assert Runs.Placed(View());
      hide Runs.Inv;
      Runs.StepKeeps(View(), Runs.ClaimCall(schedule, occurrence));
      if mode == Unavailable {
        return Some(Granted(false));
      }
      if occurrence.None? {
        return Some(Thrown);
      }
      if client.None? || !named {
        return Some(Thrown);
      }
      commands := commands + [Command(Claim(schedule, occurrence.value), InFlight)];
      return None;
    }

    method Settle(id: nat, outcome: Outcome)
      requires Valid() && id < |commands| && commands[id].phase == InFlight
      modifies this
      ensures Valid()
      ensures View() == SetPhase(old(View()), id, Settled(outcome))
    {
      hide Runs.Inv;
      Runs.StepKeeps(View(), Runs.SettleEvent(id, outcome));
      commands := commands[id := commands[id].(phase := Settled(outcome))];
    }

    /** The continuation of a probe, or of `shouldRun`, which then has its verdict. */
    method Resume(id: nat) returns (verdict: Option<Verdict>)
      requires Valid() && id < |commands| && commands[id].phase.Settled?
      modifies this
      ensures Valid()
      ensures View() == Runs.Resume(old(View()), id)
      ensures verdict ==
              if old(commands)[id].request.Probe? then None
              else if old(commands)[id].phase.outcome.Failure? then Some(Thrown)
              else Some(Granted(old(commands)[id].phase.outcome.changed == 1))
    {
      hide Runs.Inv;
      Runs.StepKeeps(View(), Runs.ResumeEvent(id));
      hide ScheduleState.ProbeSettled;
      var outcome := commands[id].phase.outcome;
      commands := commands[id := commands[id].(phase := Done(outcome))];
      match commands[id].request {
        case Probe(generation, startedIn) =>
          ProbeSettled(generation, startedIn, outcome.Reply?);
          verdict := None;
        case Claim(_, _) =>
          if outcome.Failure? && connected {
            MarkUnavailable();
            ScheduleRecovery();
          }
          verdict := Some(ClaimVerdict(outcome));
      }
    }
  }
}
