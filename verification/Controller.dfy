/** The controller with its durable ledger, anti-replay number, program executor and reply
    outbox, and what every run of it keeps. Monotonic time is in seconds. */
module Controller {
  import opened Commands
  import opened Options
  import opened Plans

  datatype Mode = Normal | Fault | Offline

  datatype Phase = Holding | Finished | Interrupted | Aborted

  /** The stored program; `calendar` marks a plan that carries its own UTC bounds. */
  datatype Program = Program(
    id: nat, steps: seq<Step>, calendar: bool, phase: Phase, step: nat, remaining: int, holdStarted: real,
      ending: Option<Ending>)

  /** One ledger row: the envelope stands for its fingerprint, a missing verdict for the null
      result of a program that still runs. */
  datatype Entry = Entry(envelope: Envelope, verdict: Option<Verdict>, pending: bool)

  datatype State = State(
    running: bool, frequency: real, mode: Mode, sequence: nat, executions: nat, program: Option<Program>,
      ledger: map<nat, Entry>)

  const INITIAL := State(false, 40.0, Normal, 0, 0, None, map[])

  function Ceil(x: real): int { -((-x).Floor) }

  predicate Active(s: State) { s.program.Some? && s.program.value.phase.Holding? }

  predicate StartsProgram(k: Kind) { k.StartProgram? || k.StartSchedule? }

  function StepsOf(k: Kind): seq<Step>
  {
    match k case StartProgram(steps) => steps case StartSchedule(run) => run.steps case _ => []
  }

  // ---------------------------------------------------------------- the transitions

  function EndingCode(e: Ending): Option<Code>
  {
    match e
    case ProgramCompleted => None
    case StopCommand => Some(ProgramCancelled)
    case LocalDisarm => Some(ProgramCancelled)
    case RestartRecovery => Some(RestartDuringExecution)
    case _ => Some(EndedBy(e))
  }

  function EndingPhase(e: Ending): Phase
  {
    match e
    case ProgramCompleted => Finished
    case StopCommand => Interrupted
    case LocalDisarm => Interrupted
    case RestartRecovery => Interrupted
    case _ => Aborted
  }

  function FinalVerdict(p: Program, e: Ending): Verdict
  {
    Verdict(e.ProgramCompleted?, StepsDone(if e.ProgramCompleted? then |p.steps| else p.step, |p.steps|), EndingCode(e))
  }

  /** Ends the active program, if any: the pump stops and its reply becomes final. */
  function Finish(s: State, e: Ending): State
  {
    if !Active(s) then s
    else
      var p := s.program.value;
      s.(running := false,
         program := Some(p.(phase := EndingPhase(e), remaining := 0, ending := Some(e))),
         ledger := if p.id in s.ledger
           then s.ledger[p.id := s.ledger[p.id].(verdict := Some(FinalVerdict(p, e)), pending := true)] else s.ledger)
  }

  /** Microseconds since the scheduled start. */
  function Lateness(run: Run, now: int): int { now - run.startsAt * SECOND }

  /** Why a new command is refused, if it is; later checks replace earlier ones where the code does. */
  function Refusal(s: State, e: Envelope, now: int): Option<Code>
  {
    var order :=
      if e.sequence <= s.sequence then Some(OutOfOrder)
      else if e.kind.SetFrequency? && !(0.0 <= e.kind.hz <= 50.0) then Some(FrequencyOutOfRange)
      else if s.mode.Fault? && !e.kind.Stop? then Some(DriveFaulted)
      else None;
    if order.Some? then order
    else if Active(s) && !e.kind.Stop? then Some(Busy)
    else if StartsProgram(e.kind) then
      if s.running || (exists i | 0 <= i < |StepsOf(e.kind)| :: StepsOf(e.kind)[i].hz > 50.0) then Some(ProgramInvalid)
      else if e.kind.StartSchedule? && |e.kind.run.steps| > 0
              && !(0 <= Lateness(e.kind.run, now) < Min(30, e.kind.run.steps[0].seconds) * SECOND)
                then Some(WindowMissed)
      else None
    else None
  }

  function NewProgram(e: Envelope, now: int, mono: real): Program
    requires |StepsOf(e.kind)| > 0
  {
    var started := if e.kind.StartSchedule? then mono - Lateness(e.kind.run, now) as real / SECOND as real else mono;
    Program(e.id, StepsOf(e.kind), e.kind.StartSchedule?, Holding, 0, StepsOf(e.kind)[0].seconds, started, None)
  }

  /** The effect of an accepted command on the virtual device. */
  function Perform(s: State, e: Envelope, now: int, mono: real): State
  {
    var done :=
      if StartsProgram(e.kind) then
        if |StepsOf(e.kind)| == 0 then s
        else s.(program := Some(NewProgram(e, now, mono)), running := true, frequency := StepsOf(e.kind)[0].hz)
      else if e.kind.SetFrequency? then s.(frequency := e.kind.hz)
      else (if e.kind.Stop? then Finish(s, StopCommand) else s).(running := e.kind.Start?);
    done.(executions := s.executions + 1)
  }

  function Outcome(k: Kind): Data
  {
    match k
    case SetFrequency(hz) => FrequencyIs(hz)
    case StartProgram(_) => NoData
    case StartSchedule(_) => NoData
    case _ => PumpRunning(k.Start?)
  }

  datatype Reception = Replayed | Dropped | Recorded

  /** One command message: replayed from the ledger, dropped, or recorded with its replies. */
  function Accept(s: State, e: Envelope, now: int, mono: real): (State, Reception)
  {
    if !ValidKind(e.kind) then (s, Dropped)
    else if e.id in s.ledger then
      if s.ledger[e.id].envelope != e then (s, Dropped)
      else (s.(ledger := s.ledger[e.id := s.ledger[e.id].(pending := true)]), Replayed)
    else if e.version != 2 || now >= e.expiresAt || e.issuedAt > now || s.mode.Offline? then (s, Dropped)
    else
      var refusal := Refusal(s, e, now);
      var numbered := if e.sequence > s.sequence then s.(sequence := e.sequence) else s;
      var done := if refusal.None? then Perform(numbered, e, now, mono) else numbered;
      var verdict :=
        if refusal.Some? then Some(Verdict(false, NoData, refusal))
        else if StartsProgram(e.kind) then None
        else Some(Verdict(true, Outcome(e.kind), None));
      (done.(ledger := done.ledger[e.id := Entry(e, verdict, true)]), Recorded)
  }

  /** The step a calendar run is in after `elapsed` seconds: the first one not yet over. */
  function StepAt(steps: seq<Step>, elapsed: real, from: nat): (k: nat)
    requires from <= |steps|
    ensures from <= k <= |steps|
    decreases |steps| - from
  {
    if from == |steps| || elapsed < Through(steps, from + 1) as real then from else StepAt(steps, elapsed, from + 1)
  }

  function Tick(s: State, mono: real): State
  {
    if !Active(s) then s
    else
      var p := s.program.value;
      var n := |p.steps|;
      var elapsed := mono - p.holdStarted;
      if p.calendar then
        var k := StepAt(p.steps, elapsed, 0);
        if k < n then
          s.(program := Some(p.(step := k, remaining := Ceil(Through(p.steps, k + 1) as real - elapsed))),
            frequency := p.steps[k].hz)
        else Finish(s.(program := Some(p.(step := if n > 0 then n - 1 else 0))), ProgramCompleted)
      else if p.step >= n then s
      else
        var remaining := Max(0, Ceil(p.steps[p.step].seconds as real - elapsed));
        if remaining > 0 then s.(program := Some(p.(remaining := remaining)))
        else if p.step + 1 == n then Finish(s, ProgramCompleted)
        else
          s.(program := Some(p.(step := p.step + 1, remaining := p.steps[p.step + 1].seconds, holdStarted := mono)),
             frequency := p.steps[p.step + 1].hz)
  }

  function ModeEnding(m: Mode): Ending { if m.Fault? then DriveFault else NetworkLost }

  function SetMode(s: State, m: Mode): State
  {
    var cut := if m.Normal? then s else Finish(s, ModeEnding(m));
    cut.(mode := m, running := if m.Fault? then false else cut.running)
  }

  function Delivered(s: State, id: nat): State
  {
    if id in s.ledger then s.(ledger := s.ledger[id := s.ledger[id].(pending := false)]) else s
  }

  // ---------------------------------------------------------------- runs

  /** What can happen to a controller. `Cut` covers a lost connection and a shutdown. */
  datatype Event =
    | Deliver(envelope: Envelope, now: int, mono: real)
    | TickAt(mono: real)
    | Boot(mono: real)
    | ModeChange(mode: Mode)
    | Cut(ending: Ending)
    | Acked(id: nat)

  /** One executed command. */
  datatype Execution = Execution(id: nat, sequence: nat, kind: Kind, at: int, expiresAt: int)

  /** A controller with its history: the commands it executed, its monotonic clock, and the
      moment its program began (for a calendar run, the scheduled one). */
  datatype Trace = Trace(state: State, log: seq<Execution>, clock: real, began: real)

  const START := Trace(INITIAL, [], 0.0, 0.0)

  /** One event. The monotonic clock only restarts at boot; the readings of any other event
      that would turn it back do not occur. */
  function Advance(t: Trace, ev: Event): Trace
  {
    match ev
    case Deliver(e, now, mono) =>
      if mono < t.clock then t
      else
        var s := Accept(t.state, e, now, mono).0;
        Trace(s,
              if s.executions == t.state.executions then t.log
                else t.log + [Execution(e.id, e.sequence, e.kind, now, e.expiresAt)],
              mono,
              if Active(s) && !Active(t.state) then s.program.value.holdStarted else t.began)
    case TickAt(mono) => if mono < t.clock then t else t.(state := Tick(t.state, mono), clock := mono)
    case Boot(mono) => t.(state := Finish(t.state, RestartRecovery), clock := mono)
    case ModeChange(m) => t.(state := SetMode(t.state, m))
    case Cut(ending) => if ending.ProgramCompleted? then t else t.(state := Finish(t.state, ending))
    case Acked(id) => t.(state := Delivered(t.state, id))
  }

  function Run(t: Trace, events: seq<Event>): Trace
  {
    if events == [] then t else Advance(Run(t, events[..|events| - 1]), events[|events| - 1])
  }

  // ---------------------------------------------------------------- the invariant

  /** The program row agrees with the command that started it. */
  ghost predicate ProgramOk(s: State)
  {
    s.program.Some? ==>
      var p := s.program.value;
      && p.id in s.ledger
      && StartsProgram(s.ledger[p.id].envelope.kind)
      && p.steps == StepsOf(s.ledger[p.id].envelope.kind)
      && p.calendar == s.ledger[p.id].envelope.kind.StartSchedule?
      && |p.steps| > 0 && p.step < |p.steps|
      && (forall i | 0 <= i < |p.steps| :: p.steps[i].seconds >= 10)
  }

  /** A reply is null exactly for the active program; every row is filed under its own id. */
  ghost predicate LedgerOk(s: State)
  {
    forall id | id in s.ledger ::
      && s.ledger[id].envelope.id == id && s.ledger[id].envelope.version == 2
      && (s.ledger[id].verdict.None? <==> Active(s) && s.program.value.id == id)
  }

  /** While a program holds, the pump runs at exactly the frequency of its current step. */
  ghost predicate PumpOk(s: State)
  {
    Active(s) ==>
      && s.running && s.program.value.step < |s.program.value.steps|
      && s.frequency == s.program.value.steps[s.program.value.step].hz
  }

  /** Executions come in strictly increasing order, each within its command's time to live, and
      each is the ledger's own command. */
  ghost predicate LogOk(t: Trace)
  {
    && t.state.executions == |t.log|
    && (forall i, j | 0 <= i < j < |t.log| :: t.log[i].sequence < t.log[j].sequence)
    && (forall i | 0 <= i < |t.log| ::
          && t.log[i].sequence <= t.state.sequence && t.log[i].at < t.log[i].expiresAt
          && t.log[i].id in t.state.ledger
          && t.log[i].sequence == t.state.ledger[t.log[i].id].envelope.sequence
          && t.log[i].kind == t.state.ledger[t.log[i].id].envelope.kind
          && t.log[i].expiresAt == t.state.ledger[t.log[i].id].envelope.expiresAt)
  }

  predicate TurnsOn(k: Kind) { k.Start? || StartsProgram(k) }

  /** Execution `i` turned the pump on and no Stop was executed after it. */
  ghost predicate StandingStart(log: seq<Execution>, i: nat)
  {
    i < |log| && TurnsOn(log[i].kind) && forall j | i < j < |log| :: !log[j].kind.Stop?
  }

  ghost predicate PumpExplained(t: Trace)
  {
    t.state.running || Active(t.state) ==> exists i: nat :: StandingStart(t.log, i)
  }

  /** The executor's clock: a plain program has held every earlier step for its full time. */
  ghost predicate TimeOk(t: Trace)
  {
    Active(t.state) ==>
      var p := t.state.program.value;
      && p.holdStarted <= t.clock && p.step < |p.steps|
      && (p.calendar ==> p.holdStarted == t.began)
      && (!p.calendar ==> t.began + Through(p.steps, p.step) as real <= p.holdStarted)
  }

  ghost predicate StateOk(s: State) { ProgramOk(s) && LedgerOk(s) && PumpOk(s) }

  ghost predicate Inv(t: Trace) { StateOk(t.state) && LogOk(t) && PumpExplained(t) && TimeOk(t) }

  /** Ledger rows are never lost, and a reply, once given, is never changed. */
  ghost predicate LedgerKept(a: State, b: State)
  {
    && a.sequence <= b.sequence
    && forall id | id in a.ledger ::
         && id in b.ledger && b.ledger[id].envelope == a.ledger[id].envelope
         && (a.ledger[id].verdict.Some? ==> b.ledger[id].verdict == a.ledger[id].verdict)
  }

  lemma FinishKeeps(s: State, e: Ending)
    requires StateOk(s)
    ensures StateOk(Finish(s, e)) && LedgerKept(s, Finish(s, e)) && !Active(Finish(s, e))
  {
  }

  lemma TickKeeps(s: State, mono: real)
    requires StateOk(s)
    ensures StateOk(Tick(s, mono)) && LedgerKept(s, Tick(s, mono))
  {
    if Active(s) {
      var p := s.program.value;
      var q := s.(program := Some(p.(step := |p.steps| - 1)));
      if p.calendar && StepAt(p.steps, mono - p.holdStarted, 0) == |p.steps| {
        assert ProgramOk(q) && LedgerOk(q);
      }
    }
  }

  lemma PlanStepsAreLong(k: Kind)
    requires ValidKind(k) && StartsProgram(k)
    ensures |StepsOf(k)| > 0 && forall i | 0 <= i < |StepsOf(k)| :: StepsOf(k)[i].seconds >= 10
  {
  }

  /** Filing an answered command keeps everything. */
  lemma FilingKeeps(s: State, e: Envelope, v: Verdict)
    requires StateOk(s) && e.id !in s.ledger && e.version == 2
    ensures
      var t := s.(ledger := s.ledger[e.id := Entry(e, Some(v), true)]);
      StateOk(t) && LedgerKept(s, t)
  {
  }

  lemma StartingKeeps(s: State, e: Envelope, now: int, mono: real)
    requires StateOk(s) && !Active(s) && e.id !in s.ledger && e.version == 2 && ValidKind(e.kind)
    requires StartsProgram(e.kind)
    ensures
      var done := Perform(s, e, now, mono);
      var t := done.(ledger := done.ledger[e.id := Entry(e, None, true)]);
      StateOk(t) && LedgerKept(s, t) && Active(t) && t.program.value == NewProgram(e, now, mono)
  {
    PlanStepsAreLong(e.kind);
  }

  lemma PerformKeeps(s: State, e: Envelope, now: int, mono: real)
    requires StateOk(s) && !StartsProgram(e.kind) && (Active(s) ==> e.kind.Stop?)
    ensures
      var done := Perform(s, e, now, mono);
      StateOk(done) && LedgerKept(s, done) && done.ledger.Keys == s.ledger.Keys && !Active(done)
      && (done.running ==> e.kind.Start? || (e.kind.SetFrequency? && s.running))
  {
    FinishKeeps(s, StopCommand);
  }

  lemma AcceptKeeps(s: State, e: Envelope, now: int, mono: real)
    requires StateOk(s)
    ensures StateOk(Accept(s, e, now, mono).0) && LedgerKept(s, Accept(s, e, now, mono).0)
  {
    if Accept(s, e, now, mono).1.Recorded? {
      hide StateOk, Perform, ValidKind;
      var numbered := if e.sequence > s.sequence then s.(sequence := e.sequence) else s;
      NumberingKeeps(s, numbered.sequence);
      var refusal := Refusal(s, e, now);
      if refusal.Some? {
        FilingKeeps(numbered, e, Verdict(false, NoData, refusal));
      } else if StartsProgram(e.kind) {
        StartingKeeps(numbered, e, now, mono);
      } else {
        PerformKeeps(numbered, e, now, mono);
        FilingKeeps(Perform(numbered, e, now, mono), e, Verdict(true, Outcome(e.kind), None));
      }
    } else {
      ReplayingKeeps(s, e);
    }
  }

  lemma NumberingKeeps(s: State, sequence: nat)
    requires StateOk(s) && s.sequence <= sequence
    ensures StateOk(s.(sequence := sequence)) && LedgerKept(s, s.(sequence := sequence))
  {
  }

  lemma ReplayingKeeps(s: State, e: Envelope)
    requires StateOk(s)
    ensures e.id in s.ledger ==>
      var t := s.(ledger := s.ledger[e.id := s.ledger[e.id].(pending := true)]);
      StateOk(t) && LedgerKept(s, t)
  {
  }

  // ---------------------------------------------------------------- every run

  /** What one message can do to the history. */
  lemma AcceptEffect(s: State, e: Envelope, now: int, mono: real)
    requires StateOk(s)
    ensures
      var t := Accept(s, e, now, mono).0;
      && (t.executions == s.executions ==> t.running == s.running && t.program == s.program)
      && (t.executions != s.executions ==>
            && t.executions == s.executions + 1 && s.sequence < e.sequence == t.sequence && now < e.expiresAt
            && e.id in t.ledger && t.ledger[e.id].envelope == e
            && (t.running || Active(t) ==> TurnsOn(e.kind) || (!e.kind.Stop? && s.running)))
      && (Active(t) && Active(s) ==> t.program == s.program)
      && (Active(t) && !Active(s) ==>
            && StartsProgram(e.kind) && |StepsOf(e.kind)| > 0 && t.program.value == NewProgram(e, now, mono)
            && (e.kind.StartSchedule? ==> 0 <= Lateness(e.kind.run, now)))
  {
    if Accept(s, e, now, mono).1.Recorded? && Refusal(s, e, now).None? {
      if StartsProgram(e.kind) {
        PlanStepsAreLong(e.kind);
      } else {
        PerformKeeps(s.(sequence := e.sequence), e, now, mono);
      }
    }
  }

  lemma DeliverKeeps(t: Trace, e: Envelope, now: int, mono: real)
    requires Inv(t)
    ensures Inv(Advance(t, Deliver(e, now, mono))) && LedgerKept(t.state, Advance(t, Deliver(e, now, mono)).state)
  {
    if t.clock <= mono {
      AcceptEffect(t.state, e, now, mono);
      AcceptKeeps(t.state, e, now, mono);
      hide Accept;
      var u := Advance(t, Deliver(e, now, mono));
      DeliverKeepsLog(t, e, now, u);
      DeliverKeepsPump(t, e, u);
      DeliverKeepsTime(t, e, now, mono, u);
    }
  }

  lemma DeliverKeepsLog(t: Trace, e: Envelope, now: int, u: Trace)
    requires LogOk(t) && LedgerKept(t.state, u.state) && u.state.executions == |u.log|
    requires u.log == t.log || u.log == t.log + [Execution(e.id, e.sequence, e.kind, now, e.expiresAt)]
    requires u.log != t.log ==> t.state.sequence < e.sequence == u.state.sequence && now < e.expiresAt
                                && e.id in u.state.ledger && u.state.ledger[e.id].envelope == e
    ensures LogOk(u)
  {
    forall i | 0 <= i < |u.log|
      ensures u.log[i].sequence <= u.state.sequence && u.log[i].at < u.log[i].expiresAt && u.log[i].id in u.state.ledger
      ensures u.log[i].sequence == u.state.ledger[u.log[i].id].envelope.sequence
      ensures u.log[i].kind == u.state.ledger[u.log[i].id].envelope.kind
      ensures u.log[i].expiresAt == u.state.ledger[u.log[i].id].envelope.expiresAt
    {
      if i < |t.log| { assert u.log[i] == t.log[i]; }
    }
  }

  lemma DeliverKeepsPump(t: Trace, e: Envelope, u: Trace)
    requires PumpExplained(t)
    requires u.log == t.log || (|u.log| == |t.log| + 1 && u.log[..|t.log|] == t.log && u.log[|t.log|].kind == e.kind)
    requires u.log == t.log ==> u.state.running == t.state.running && u.state.program == t.state.program
    requires u.log != t.log ==> (u.state.running || Active(u.state)
      ==> TurnsOn(e.kind) || (!e.kind.Stop? && t.state.running))
    ensures PumpExplained(u)
  {
    if (u.state.running || Active(u.state)) && u.log != t.log {
      if TurnsOn(e.kind) {
        assert StandingStart(u.log, |t.log|);
      } else {
        var i: nat :| StandingStart(t.log, i);
        assert u.log[..|t.log|][i] == t.log[i];
        assert forall j | i < j < |t.log| :: u.log[..|t.log|][j] == t.log[j];
        assert StandingStart(u.log, i);
      }
    }
  }

  lemma DeliverKeepsTime(t: Trace, e: Envelope, now: int, mono: real, u: Trace)
    requires TimeOk(t) && t.clock <= mono == u.clock
    requires Active(u.state) && Active(t.state) ==> u.state.program == t.state.program
    requires Active(u.state) && !Active(t.state) ==>
               && StartsProgram(e.kind) && |StepsOf(e.kind)| > 0 && u.state.program.value == NewProgram(e, now, mono)
               && (e.kind.StartSchedule? ==> 0 <= Lateness(e.kind.run, now))
    requires u.began == if Active(u.state) && !Active(t.state) then u.state.program.value.holdStarted else t.began
    ensures TimeOk(u)
  {
  }

  lemma TickKeepsTime(t: Trace, mono: real)
    requires Inv(t) && t.clock <= mono
    ensures Inv(t.(state := Tick(t.state, mono), clock := mono))
  {
    TickKeeps(t.state, mono);
  }

  /** A step that only ends the program, stops the pump or marks replies keeps the history. */
  lemma QuietStepKeeps(t: Trace, s: State, clock: real)
    requires Inv(t) && StateOk(s) && LedgerKept(t.state, s)
    requires s.executions == t.state.executions && s.sequence == t.state.sequence
    requires s.running ==> t.state.running
    requires Active(s) ==> s.program == t.state.program && clock == t.clock
    ensures Inv(t.(state := s, clock := clock))
  {
    hide StateOk;
  }

  lemma AckedKeeps(s: State, id: nat)
    requires StateOk(s)
    ensures StateOk(Delivered(s, id)) && LedgerKept(s, Delivered(s, id))
  {
  }

  lemma SetModeKeeps(s: State, m: Mode)
    requires StateOk(s)
    ensures StateOk(SetMode(s, m)) && LedgerKept(s, SetMode(s, m))
  {
    FinishKeeps(s, ModeEnding(m));
  }

  lemma AdvanceKeeps(t: Trace, ev: Event)
    requires Inv(t)
    ensures Inv(Advance(t, ev)) && LedgerKept(t.state, Advance(t, ev).state)
  {
    hide StateOk, LedgerKept, LogOk, PumpExplained, TimeOk;
    match ev
    case Deliver(e, now, mono) => DeliverKeeps(t, e, now, mono);
    case TickAt(mono) =>
      if t.clock <= mono {
        TickKeepsTime(t, mono);
        TickKeeps(t.state, mono);
      } else {
        NothingKeeps(t.state);
      }
    case Boot(mono) =>
      FinishKeeps(t.state, RestartRecovery);
      QuietStepKeeps(t, Finish(t.state, RestartRecovery), mono);
    case ModeChange(m) =>
      SetModeKeeps(t.state, m);
      QuietStepKeeps(t, SetMode(t.state, m), t.clock);
    case Cut(ending) =>
      NothingKeeps(t.state);
      FinishKeeps(t.state, ending);
      QuietStepKeeps(t, Finish(t.state, ending), t.clock);
    case Acked(id) =>
      AckedKeeps(t.state, id);
      QuietStepKeeps(t, Delivered(t.state, id), t.clock);
  }

  lemma NothingKeeps(s: State)
    ensures LedgerKept(s, s)
  {
  }

  /** New ledger rows come from the delivered message, and every change to a reply puts its row
      back into the outbox. */
  lemma LedgerNews(t: Trace, ev: Event)
    requires StateOk(t.state)
    ensures
      var a, b := t.state.ledger, Advance(t, ev).state.ledger;
      && (forall id | id in b :: id in a || (ev.Deliver? && id == ev.envelope.id && b[id].envelope == ev.envelope))
      && (!ev.Acked? ==> forall id | id in b && !b[id].pending ::
        id in a && !a[id].pending && b[id].verdict == a[id].verdict)
      && (ev.Acked? ==> b.Keys == a.Keys && forall id | id in b ::
        b[id].verdict == a[id].verdict && (id != ev.id ==> b[id] == a[id]))
  {
    match ev
    case Deliver(e, now, mono) => AcceptNews(t.state, e, now, mono);
    case _ =>
  }

  lemma AcceptNews(s: State, e: Envelope, now: int, mono: real)
    ensures
      var a, b := s.ledger, Accept(s, e, now, mono).0.ledger;
      && (forall id | id in b :: id in a || (id == e.id && b[id].envelope == e))
      && (forall id | id in b && !b[id].pending :: id in a && !a[id].pending && b[id].verdict == a[id].verdict)
  {
  }

  /** Every run, whatever arrives in whatever order and however often the controller restarts. */
  lemma {:induction false} RunKeeps(events: seq<Event>)
    ensures Inv(Run(START, events))
  {
    if events != [] {
      var n := |events| - 1;
      RunKeeps(events[..n]);
      AdvanceKeeps(Run(START, events[..n]), events[n]);
    }
  }

  /** A reply is null only for the one active program, changes at most once, and never again
      after it has been given: the ledger of any later moment agrees with the one now. */
  lemma {:induction false} RepliesNeverChange(events: seq<Event>, more: seq<Event>)
    ensures LedgerKept(Run(START, events).state, Run(START, events + more).state)
    ensures LedgerOk(Run(START, events + more).state)
  {
    RunKeeps(events + more);
    if more == [] {
      assert events + more == events;
    } else {
      var n := |more| - 1;
      RepliesNeverChange(events, more[..n]);
      assert (events + more)[..|events + more| - 1] == events + more[..n];
      RunKeeps(events + more[..n]);
      AdvanceKeeps(Run(START, events + more[..n]), more[n]);
    }
  }

  /** Each command id is executed at most once, and in the order of the control numbers. */
  lemma ExecutedAtMostOnce(events: seq<Event>, i: nat, j: nat)
    requires i <= j < |Run(START, events).log|
    ensures
      var log := Run(START, events).log;
      && log[i].at < log[i].expiresAt
      && (i < j ==> log[i].sequence < log[j].sequence)
      && (log[i].id == log[j].id ==> i == j)
  {
    RunKeeps(events);
  }

  /** After an executed Stop the pump stays off, and no program is active, until a command with
      a larger number has started it again. */
  lemma StopHolds(events: seq<Event>, i: nat)
    requires i < |Run(START, events).log| && Run(START, events).log[i].kind.Stop?
    ensures
      var t := Run(START, events);
      t.state.running || Active(t.state) ==>
        exists j :: i < j < |t.log| && TurnsOn(t.log[j].kind) && t.log[i].sequence < t.log[j].sequence
  {
    RunKeeps(events);
    var t := Run(START, events);
    if t.state.running || Active(t.state) {
      var j: nat :| StandingStart(t.log, j);
      assert i < j;
    }
  }

  // ---------------------------------------------------------------- what may be executed, and when

  /** With a faulted drive nothing runs, and a program is only ever active in normal mode. */
  ghost predicate ModeOk(s: State)
  {
    && (s.mode.Fault? ==> !s.running)
    && (Active(s) ==> s.mode.Normal?)
  }

  lemma ModeKeeps(s: State, ev: Event, t: Trace)
    requires ModeOk(s) && t.state == s
    ensures ModeOk(Advance(t, ev).state)
  {
    match ev
    case Deliver(e, now, mono) =>
      ExecutedExactlyIf(s, e, now, mono);
      AcceptMode(s, e, now, mono);
    case _ =>
  }

  lemma AcceptMode(s: State, e: Envelope, now: int, mono: real)
    requires ModeOk(s)
    ensures ModeOk(Accept(s, e, now, mono).0)
  {
  }

  /** In every run: a faulted drive is stopped, and neither a fault nor a lost connection leaves a
      program behind. */
  lemma {:induction false} FaultStopsEverything(events: seq<Event>)
    ensures ModeOk(Run(START, events).state)
  {
    hide ModeOk, Advance;
    if events == [] {
      assert ModeOk(INITIAL) by { StartIsQuiet(); }
    } else {
      var n := |events| - 1;
      FaultStopsEverything(events[..n]);
      ModeKeeps(Run(START, events[..n]).state, events[n], Run(START, events[..n]));
    }
  }

  lemma StartIsQuiet()
    ensures ModeOk(INITIAL) && !INITIAL.running && INITIAL.frequency == 40.0 && INITIAL.mode.Normal?
    ensures INITIAL.sequence == 0 && INITIAL.executions == 0 && INITIAL.program.None? && INITIAL.ledger == map[]
  {
  }

  /** What the virtual device can be asked to do: nothing above 50 Hz, and a calendar run only
      within thirty seconds, and within its first step, of the scheduled start. */
  ghost predicate Feasible(k: Kind, at: int)
  {
    match k
    case SetFrequency(hz) => 0.0 <= hz <= 50.0
    case StartProgram(steps) => forall i | 0 <= i < |steps| :: 0.0 < steps[i].hz <= 50.0
    case StartSchedule(run) =>
      && (forall i | 0 <= i < |run.steps| :: 0.0 < run.steps[i].hz <= 50.0)
      && run.startsAt * SECOND <= at < run.startsAt * SECOND + 30 * SECOND
      && (run.steps != [] ==> at < run.startsAt * SECOND + run.steps[0].seconds * SECOND)
    case _ => true
  }

  /** A message is executed exactly if it is new, well formed, of version 2 and within its time to live,
      numbered above everything seen, and can be done now: a Stop always; anything else only in normal
      mode, with no program active; a program only while the pump is off. */
  lemma ExecutedExactlyIf(s: State, e: Envelope, now: int, mono: real)
    ensures
      Accept(s, e, now, mono).0.executions == s.executions + 1 <==>
        && ValidKind(e.kind) && e.id !in s.ledger && e.version == 2 && e.issuedAt <= now < e.expiresAt
        && !s.mode.Offline? && s.sequence < e.sequence
        && (e.kind.Stop? || (s.mode.Normal? && !Active(s)))
        && (StartsProgram(e.kind) ==> !s.running) && Feasible(e.kind, now)
    ensures Accept(s, e, now, mono).0.executions == s.executions
            || Accept(s, e, now, mono).0.executions == s.executions + 1
  {
    if StartsProgram(e.kind) && ValidKind(e.kind) { PlanStepsAreLong(e.kind); }
  }

  /** Every executed command was feasible when it was executed. */
  ghost predicate AllFeasible(t: Trace)
  {
    forall i | 0 <= i < |t.log| :: Feasible(t.log[i].kind, t.log[i].at)
  }

  lemma {:induction false} OnlyFeasibleIsExecuted(events: seq<Event>)
    ensures AllFeasible(Run(START, events))
  {
    hide Accept, Feasible;
    if events != [] {
      var n := |events| - 1;
      var t := Run(START, events[..n]);
      OnlyFeasibleIsExecuted(events[..n]);
      if events[n].Deliver? { ExecutedExactlyIf(t.state, events[n].envelope, events[n].now, events[n].mono); }
    }
  }

  /** Why a new message of version 2 is refused; of several reasons the first counts. */
  lemma RefusedBecause(s: State, e: Envelope, now: int, mono: real)
    requires ValidKind(e.kind) && e.id !in s.ledger && e.version == 2 && e.issuedAt <= now < e.expiresAt
    requires !s.mode.Offline?
    ensures
      var t := Accept(s, e, now, mono).0;
      && e.id in t.ledger && t.sequence == Max(s.sequence, e.sequence)
      && var v := t.ledger[e.id].verdict;
         var error := if v.Some? then v.value.error else None;
         && (error == Some(OutOfOrder) <==> e.sequence <= s.sequence)
         && (error == Some(FrequencyOutOfRange) <==>
               s.sequence < e.sequence && e.kind.SetFrequency? && !Feasible(e.kind, now))
         && (error == Some(DriveFaulted) <==>
               s.sequence < e.sequence && s.mode.Fault? && !e.kind.Stop?
               && (e.kind.SetFrequency? ==> Feasible(e.kind, now)))
         && (error == Some(Busy) <==>
               s.sequence < e.sequence && s.mode.Normal? && Active(s) && !e.kind.Stop?
               && (e.kind.SetFrequency? ==> Feasible(e.kind, now)))
         && (error == Some(ProgramInvalid) || error == Some(WindowMissed) <==>
               s.sequence < e.sequence && s.mode.Normal? && !Active(s) && StartsProgram(e.kind)
               && (s.running || !Feasible(e.kind, now)))
         && (error == Some(WindowMissed) ==> !s.running && e.kind.StartSchedule? && !Feasible(e.kind, now))
         && (error.Some? <==> Accept(s, e, now, mono).0.executions == s.executions)
         && (error.Some? ==> v == Some(Verdict(false, NoData, error)) && t.ledger[e.id].pending)
         && (error.Some? ==> t == s.(sequence := t.sequence, ledger := s.ledger[e.id := t.ledger[e.id]]))
  {
    if StartsProgram(e.kind) { PlanStepsAreLong(e.kind); }
  }

  /** What an executed command does, and the reply it gets. */
  lemma ExecutionTakesEffect(s: State, e: Envelope, now: int, mono: real)
    requires StateOk(s) && Accept(s, e, now, mono).0.executions != s.executions
    ensures
      var t := Accept(s, e, now, mono).0;
      && t.sequence == e.sequence && t.mode == s.mode && e.id in t.ledger && t.ledger[e.id].pending
      && (if StartsProgram(e.kind) then
            && t.running && Active(t) && t.program.value.id == e.id && t.program.value.step == 0
            && t.program.value.steps == StepsOf(e.kind) && t.frequency == StepsOf(e.kind)[0].hz
            && t.ledger[e.id].verdict.None?
            && (if e.kind.StartSchedule?
                then (mono - t.program.value.holdStarted) * SECOND as real
                  == (now - e.kind.run.startsAt * SECOND) as real
                else t.program.value.holdStarted == mono)
          else
            && !Active(t) && t.ledger[e.id].verdict.Some?
            && t.ledger[e.id].verdict.value.succeeded && t.ledger[e.id].verdict.value.error.None?)
      && (e.kind.Start? ==> t.running && t.frequency == s.frequency)
      && (e.kind.Stop? || e.kind.SetSource? || e.kind.SetParameter? ==> !t.running && t.frequency == s.frequency)
      && (e.kind.Start? || e.kind.Stop? || e.kind.SetSource? || e.kind.SetParameter? ==>
            t.ledger[e.id].verdict.value.data == PumpRunning(t.running))
      && (e.kind.SetFrequency? ==>
            t.running == s.running && t.frequency == e.kind.hz
            && t.ledger[e.id].verdict.value.data == FrequencyIs(t.frequency))
  {
    if StartsProgram(e.kind) { PlanStepsAreLong(e.kind); }
  }

  /** A repeated message only asks for its reply again; what is dropped changes nothing. */
  lemma RepeatsAreReplayed(s: State, e: Envelope, now: int, mono: real)
    requires e.id in s.ledger || !ValidKind(e.kind) || e.version != 2 || !(e.issuedAt <= now < e.expiresAt)
      || s.mode.Offline?
    ensures
      var (t, reception) := Accept(s, e, now, mono);
      && (reception.Replayed? <==> ValidKind(e.kind) && e.id in s.ledger && s.ledger[e.id].envelope == e)
      && (reception.Replayed? ==>
            t == s.(ledger := t.ledger) && t.ledger == s.ledger[e.id := Entry(e, s.ledger[e.id].verdict, true)])
      && (!reception.Replayed? ==> reception.Dropped? && t == s)
  {
  }

  /** How a program ends: the pump is off, and the reply counts all steps of a completed program and
      otherwise the steps before the current one, with the reason. */
  lemma EndedProgramReports(s: State, e: Ending)
    requires StateOk(s) && Active(s)
    ensures
      var t, p := Finish(s, e), s.program.value;
      && !t.running && !Active(t) && t.frequency == s.frequency && t.mode == s.mode && t.sequence == s.sequence
      && t.program.value.steps == p.steps && t.program.value.step == p.step && t.program.value.ending == Some(e)
      && p.id in t.ledger && t.ledger[p.id].pending && t.ledger[p.id].verdict.Some?
      && var v := t.ledger[p.id].verdict.value;
         && (v.succeeded <==> e.ProgramCompleted?) && (v.error.None? <==> e.ProgramCompleted?)
         && v.data == StepsDone(if e.ProgramCompleted? then |p.steps| else p.step, |p.steps|)
         && (t.program.value.phase.Finished? <==> e.ProgramCompleted?)
         && (t.program.value.phase.Aborted? <==> e.DriveFault? || e.NetworkLost?)
         && (v.error == Some(ProgramCancelled) <==> e.StopCommand? || e.LocalDisarm?)
         && (v.error == Some(RestartDuringExecution) <==> e.RestartRecovery?)
         && (e.DriveFault? || e.NetworkLost? ==> v.error == Some(EndedBy(e)))
  {
  }

  /** A fault ends the program as a fault, a lost connection as that, and normal mode ends nothing. */
  lemma ModeEndsProgram(s: State, m: Mode)
    requires StateOk(s)
    ensures SetMode(s, m).mode == m
    ensures m.Normal? ==> SetMode(s, m) == s.(mode := Normal)
    ensures Active(s) && m.Fault? ==> SetMode(s, m).program.value.ending == Some(DriveFault)
    ensures Active(s) && m.Offline? ==> SetMode(s, m).program.value.ending == Some(NetworkLost)
    ensures !Active(s) ==> SetMode(s, m).ledger == s.ledger && SetMode(s, m).program == s.program
    ensures !Active(s) && !m.Fault? ==> SetMode(s, m).running == s.running
  {
  }

  /** The whole seconds that are left, rounded up. */
  predicate Rounded(n: int, x: real) { (n - 1) as real < x <= n as real }

  /** While a program holds, a tick reports the time left of its step. */
  lemma RemainingIsTimeLeft(s: State, mono: real)
    requires StateOk(s) && Active(s) && Active(Tick(s, mono)) && s.program.value.holdStarted <= mono
    ensures
      var p, q := s.program.value, Tick(s, mono).program.value;
      && (p.calendar ==> Rounded(q.remaining, Through(p.steps, q.step + 1) as real - (mono - p.holdStarted)))
      && (!p.calendar ==> Rounded(q.remaining, q.steps[q.step].seconds as real - (mono - q.holdStarted)))
  {
    hide Through;
    var p := s.program.value;
    TickKeeps(s, mono);
    CeilRounds(Through(p.steps, Tick(s, mono).program.value.step + 1) as real - (mono - p.holdStarted));
    CeilRounds(p.steps[p.step].seconds as real - (mono - p.holdStarted));
  }

  lemma CeilRounds(x: real)
    ensures Rounded(Ceil(x), x)
  {
  }

  // ---------------------------------------------------------------- the program executor

  lemma {:induction false} StepAtMeans(steps: seq<Step>, elapsed: real, from: nat)
    requires from <= |steps| && Through(steps, from) as real <= elapsed
    requires forall i | 0 <= i < |steps| :: steps[i].seconds >= 10
    ensures
      var k := StepAt(steps, elapsed, from);
      && Through(steps, k) as real <= elapsed
      && (k < |steps| ==> elapsed < Through(steps, k + 1) as real)
      && (k == |steps| <==> Total(steps) as real <= elapsed)
    decreases |steps| - from
  {
    if from < |steps| {
      if elapsed < Through(steps, from + 1) as real {
        ThroughIncreases(steps, from + 1, |steps|);
      } else {
        StepAtMeans(steps, elapsed, from + 1);
      }
    }
  }

  /** A calendar run is in the step whose prefix-sum interval holds the elapsed time, at that
      step's frequency, and it ends exactly when the elapsed time reaches the total. */
  lemma CalendarStepIsElapsedTime(t: Trace, mono: real)
    requires Inv(t) && Active(t.state) && t.state.program.value.calendar && t.clock <= mono
    ensures
      var p, s := t.state.program.value, Tick(t.state, mono);
      var elapsed := mono - t.began;
      && (Active(s) <==> elapsed < Total(p.steps) as real)
      && (Active(s) ==>
            var k := s.program.value.step;
            && k < |p.steps| && Through(p.steps, k) as real <= elapsed < Through(p.steps, k + 1) as real
            && s.frequency == p.steps[k].hz && s.running)
      && (!Active(s) ==> s.program.value.phase.Finished? && !s.running && s.ledger[p.id].verdict.value.succeeded)
  {
    var p := t.state.program.value;
    StepAtMeans(p.steps, mono - p.holdStarted, 0);
    TickKeeps(t.state, mono);
  }

  /** A plain program leaves a step exactly when it has held it for its full duration. */
  lemma PlainStepIsHeld(s: State, mono: real)
    requires StateOk(s) && Active(s) && !s.program.value.calendar
    ensures
      var p, u := s.program.value, Tick(s, mono);
      var held := mono - p.holdStarted >= p.steps[p.step].seconds as real;
      && (!held ==> Active(u) && u.program.value.step == p.step && u.program.value.holdStarted == p.holdStarted)
      && (held && p.step + 1 < |p.steps| ==>
            Active(u) && u.program.value.step == p.step + 1 && u.program.value.holdStarted == mono
              && u.frequency == p.steps[p.step + 1].hz)
      && (held && p.step + 1 == |p.steps| ==> !Active(u) && u.program.value.phase.Finished?)
  {
  }

  function TickAll(s: State, ticks: seq<real>): State
  {
    if ticks == [] then s else Tick(TickAll(s, ticks[..|ticks| - 1]), ticks[|ticks| - 1])
  }

  /** The same device to every observer: the set frequency counts only while the pump runs. */
  ghost predicate SameRun(a: State, b: State)
  {
    a.(frequency := 0.0) == b.(frequency := 0.0) && (Active(a) ==> a.frequency == b.frequency)
  }

  lemma {:induction false} StepAtGrows(steps: seq<Step>, x: real, y: real, from: nat)
    requires from <= |steps| && x <= y
    ensures StepAt(steps, x, from) <= StepAt(steps, y, from)
    decreases |steps| - from
  {
    if from < |steps| && Through(steps, from + 1) as real <= x { StepAtGrows(steps, x, y, from + 1); }
  }

  lemma TwoTicks(s: State, x: real, y: real)
    requires StateOk(s) && Active(s) && s.program.value.calendar && x <= y
    ensures SameRun(Tick(Tick(s, x), y), Tick(s, y))
  {
    var p := s.program.value;
    StepAtGrows(p.steps, x - p.holdStarted, y - p.holdStarted, 0);
  }

  /** The tick pattern does not matter: any ticks before the last one leave no trace. */
  lemma {:induction false} TickPatternIsIrrelevant(s: State, ticks: seq<real>, last: real)
    requires StateOk(s) && Active(s) && s.program.value.calendar && forall x | x in ticks :: x <= last
    ensures SameRun(Tick(TickAll(s, ticks), last), Tick(s, last))
    decreases |ticks|
  {
    hide Tick, SameRun, StateOk;
    if ticks == [] {
      SameAsItself(Tick(s, last));
    } else {
      var n := |ticks| - 1;
      var x := ticks[n];
      assert x in ticks && forall y | y in ticks[..n] :: y in ticks;
      TickPatternIsIrrelevant(s, ticks[..n], last);
      var u := TickAll(s, ticks[..n]);
      TicksKeepCalendar(s, ticks[..n]);
      if Active(u) {
        TwoTicks(u, x, last);
        SameAsBoth(Tick(Tick(u, x), last), Tick(u, last), Tick(s, last));
      } else {
        IdleTick(u, x);
      }
    }
  }

  lemma SameAsItself(a: State)
    ensures SameRun(a, a)
  {
  }

  lemma SameAsBoth(a: State, b: State, c: State)
    requires SameRun(a, b) && SameRun(b, c)
    ensures SameRun(a, c)
  {
  }

  lemma IdleTick(s: State, mono: real)
    requires !Active(s)
    ensures Tick(s, mono) == s
  {
  }

  lemma {:induction false} TicksKeepCalendar(s: State, ticks: seq<real>)
    requires StateOk(s) && Active(s) && s.program.value.calendar
    ensures StateOk(TickAll(s, ticks)) && (Active(TickAll(s, ticks)) ==> TickAll(s, ticks).program.value.calendar)
  {
    if ticks != [] {
      var n := |ticks| - 1;
      TicksKeepCalendar(s, ticks[..n]);
      TickKeeps(TickAll(s, ticks[..n]), ticks[n]);
    }
  }

  /** Reported as a success. */
  ghost predicate ReportsSuccess(s: State, id: nat)
  {
    id in s.ledger && s.ledger[id].verdict.Some? && s.ledger[id].verdict.value.succeeded
  }

  /** A program of either sort is reported as succeeded only after its whole length: every step
      of a plain program was held for at least its duration before the next one began. */
  lemma SuccessTakesFullTime(events: seq<Event>, ev: Event)
    requires Active(Run(START, events).state)
    ensures
      var t, u := Run(START, events), Advance(Run(START, events), ev);
      var p := t.state.program.value;
      !ReportsSuccess(t.state, p.id) && (ReportsSuccess(u.state, p.id) ==> u.clock - u.began >= Total(p.steps) as real)
  {
    RunKeeps(events);
    var t := Run(START, events);
    hide Run;
    match ev
    case Deliver(e, now, mono) => OnlyTimeSucceeds(t.state, e, now, mono);
    case TickAt(mono) => if t.clock <= mono { TickSucceedsInTime(t, mono); }
    case _ =>
  }

  lemma TickSucceedsInTime(t: Trace, mono: real)
    requires Inv(t) && Active(t.state) && t.clock <= mono
    ensures ReportsSuccess(Tick(t.state, mono), t.state.program.value.id)
      ==> mono - t.began >= Total(t.state.program.value.steps) as real
  {
    var p := t.state.program.value;
    if p.calendar { StepAtMeans(p.steps, mono - p.holdStarted, 0); }
    assert Through(p.steps, p.step + 1) == Through(p.steps, p.step) + p.steps[p.step].seconds;
  }

  lemma OnlyTimeSucceeds(s: State, e: Envelope, now: int, mono: real)
    requires StateOk(s) && Active(s)
    ensures !ReportsSuccess(Accept(s, e, now, mono).0, s.program.value.id)
  {
  }
}
