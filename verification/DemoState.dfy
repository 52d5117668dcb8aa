/** The controller object of the demo stand, updated in place; every method has exactly the
    effect of its transition function. */
module DemoState {
  import opened Commands
  import opened Controller
  import opened Options
  import opened Plans

  class DemoState {
    var running: bool
    var frequency: real
    var mode: Mode
    var sequence: nat
    var executions: nat
    var program: Option<Program>
    var ledger: map<nat, Entry>

    constructor ()
      ensures Device() == INITIAL
    {
      running, frequency, mode, sequence, executions := false, 40.0, Normal, 0, 0;
      program, ledger := None, map[];
    }

    function Device(): State
      reads this
    {
      State(running, frequency, mode, sequence, executions, program, ledger)
    }

    method FinishProgram(reason: Ending)
      modifies this
      ensures Device() == Finish(old(Device()), reason)
    {
      if program.None? || !program.value.phase.Holding? {
        return;
      }
      var row := program.value;
      var completed := reason.ProgramCompleted?;
      var count := |row.steps|;
      var result := Verdict(completed, StepsDone(if completed then count else row.step, count), EndingCode(reason));
      program := Some(row.(phase := EndingPhase(reason), remaining := 0, ending := Some(reason)));
      running := false;
      if row.id in ledger {
        ledger := ledger[row.id := ledger[row.id].(verdict := Some(result), pending := true)];
      }
    }

    method Boot()
      modifies this
      ensures Device() == Finish(old(Device()), RestartRecovery)
    {
      FinishProgram(RestartRecovery);
    }

    method ChangeMode(m: Mode)
      modifies this
      ensures Device() == SetMode(old(Device()), m)
    {
      if m.Fault? {
        FinishProgram(DriveFault);
      } else if m.Offline? {
        FinishProgram(NetworkLost);
      }
      mode := m;
      if m.Fault? {
        running := false;
      }
    }

    /** Why a new command is refused: the checks in their order, later ones replacing earlier. */
    method Check(e: Envelope, now: int) returns (error: Option<Code>)
      requires ValidKind(e.kind)
      ensures error == Refusal(Device(), e, now)
    {
      error := None;
      if e.sequence <= sequence {
        error := Some(OutOfOrder);
      } else {
        if mode.Fault? && !e.kind.Stop? {
          error := Some(DriveFaulted);
        }
        if e.kind.SetFrequency? && !(0.0 <= e.kind.hz <= 50.0) {
          error := Some(FrequencyOutOfRange);
        }
      }
      if error.None? && program.Some? && program.value.phase.Holding? && !e.kind.Stop? {
        error := Some(Busy);
      }
      if error.None? && StartsProgram(e.kind) {
        var steps := StepsOf(e.kind);
        if e.kind.StartSchedule? && !(0 <= now - e.kind.run.startsAt * SECOND < Min(30, steps[0].seconds) * SECOND) {
          error := Some(WindowMissed);
        }
        if running || exists i | 0 <= i < |steps| :: steps[i].hz > 50.0 {
          error := Some(ProgramInvalid);
        }
      }
    }

    /** The effect of an accepted command and the data of its reply. */
    method Execute(e: Envelope, now: int, mono: real) returns (result: Data)
      requires ValidKind(e.kind)
      modifies this
      ensures Device() == Perform(old(Device()), e, now, mono)
      ensures result == Outcome(e.kind)
    {
      result := NoData;
      if StartsProgram(e.kind) {
        program := Some(NewProgram(e, now, mono));
        running := true;
        frequency := StepsOf(e.kind)[0].hz;
      } else if e.kind.SetFrequency? {
        frequency := e.kind.hz;
        result := FrequencyIs(e.kind.hz);
      } else {
        if e.kind.Stop? {
          FinishProgram(StopCommand);
        }
        running := e.kind.Start?;
        result := PumpRunning(running);
      }
      executions := executions + 1;
    }

    method Command(e: Envelope, now: int, mono: real) returns (reception: Reception)
      modifies this
      ensures (Device(), reception) == Accept(old(Device()), e, now, mono)
    {
      hide Refusal, Perform, ValidKind;
      if !ValidKind(e.kind) {
        return Dropped;
      }
      if e.id in ledger {
        var stored := ledger[e.id];
        if stored.envelope != e {
          return Dropped;
        }
        ledger := ledger[e.id := stored.(pending := true)];
        return Replayed;
      }
      if e.version != 2 || now >= e.expiresAt || e.issuedAt > now || mode.Offline? {
        return Dropped;
      }
      var error := Check(e, now);
      if e.sequence > sequence {
        sequence := e.sequence;
      }
      var result := NoData;
      if error.None? {
        result := Execute(e, now, mono);
      }
      var terminal := Some(Verdict(error.None?, result, error));
      if error.None? && StartsProgram(e.kind) {
        terminal := None;
      }
      ledger := ledger[e.id := Entry(e, terminal, true)];
      return Recorded;
    }

    method TickProgram(mono: real)
      requires StateOk(Device())
      modifies this
      ensures Device() == Tick(old(Device()), mono)
    {
      if program.None? || !program.value.phase.Holding? {
        return;
      }
      var row := program.value;
      var steps := row.steps;
      if row.calendar {
        var elapsed := mono - row.holdStarted;
        var total := 0;
        for index := 0 to |steps|
          invariant total == Through(steps, index)
          invariant StepAt(steps, elapsed, 0) == StepAt(steps, elapsed, index)
          invariant Device() == old(Device())
        {
          total := total + steps[index].seconds;
          if elapsed < total as real {
            program := Some(row.(step := index, remaining := Ceil(total as real - elapsed)));
            frequency := steps[index].hz;
            return;
          }
        }
        program := Some(row.(step := |steps| - 1));
        FinishProgram(ProgramCompleted);
        return;
      }
      var remaining := Max(0, Ceil(steps[row.step].seconds as real - (mono - row.holdStarted)));
      if remaining > 0 {
        if remaining != row.remaining {
          program := Some(row.(remaining := remaining));
        }
      } else if row.step + 1 == |steps| {
        FinishProgram(ProgramCompleted);
      } else {
        var step := row.step + 1;
        program := Some(row.(step := step, remaining := steps[step].seconds, holdStarted := mono));
        frequency := steps[step].hz;
      }
    }

    method Confirm(id: nat)
      modifies this`ledger
      ensures Device() == Delivered(old(Device()), id)
    {
      if id in ledger {
        ledger := ledger[id := ledger[id].(pending := false)];
      }
    }
  }
}
