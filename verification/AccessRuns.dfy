/** Runs of one controller's life: requests interleave between their transactions, processes stop
    anywhere, the broker answers or not, and retries come in any order. */
module AccessRuns {
  import opened Access
  import opened ControllerBroker
  import opened Options
  import Commands

  /** A request between its two transactions; `synced` once its broker call was confirmed. */
  datatype Session =
    | Bootstrapping(device: nat, synced: bool)
    | Transferring(device: nat, generation: nat, synced: bool)
    | Resetting(was: Option<nat>, generation: nat, synced: bool)

  /** `replies` are the configurations told to the controller, `released` the devices handed over. */
  datatype World = World(records: Records, sessions: map<nat, Session>, replies: seq<Reply>, released: set<nat>)

  const FACTORY := World(Records(Controller(Ready, 1, None, 0, None, CanRead, false, 0), map[], map[],
    Broker(map[], {})), map[], [], {})

  datatype Step =
    | DoClaim(device: nat)
    | DoAddDrive(device: nat, drive: nat, acceptable: bool)
    | DoConfigure(device: nat, setup: Setup)
    | DoReplace(device: nat, expected: nat, was: nat, becomes: nat, acceptable: bool, stopped: bool)
    | DoCommission(device: nat, approval: Approval)
    | DoGreet(session: nat, capability: Capability, sameNetwork: bool)
    | DoAnswer(session: nat, host: bool)
    | DoOperate(session: nat, request: Access.Request)
    | DoFinishRelease(session: nat)
    | DoStartReset(session: nat, generation: nat)
    | DoFinishReset(session: nat)
    | DoQuarantine
    | SyncOwn(session: nat, budget: nat, lost: bool)
    | SyncAny(device: nat, budget: nat, lost: bool)
    | Crash(session: nat)
    | SetControl(device: nat, on: bool)
    | SetLifecycle(device: nat, lifecycle: Lifecycle)

  function Commit(w: World, r: Option<Records>): World { if r.Some? then w.(records := r.value) else w }

  /** A new session starts with a committed transaction. */
  function Begin(w: World, s: nat, r: Option<Records>, session: Session): World
  {
    if r.Some? then w.(records := r.value, sessions := w.sessions[s := session]) else w
  }

  function End(w: World, s: nat): World { w.(sessions := w.sessions - {s}) }

  function Synced(s: Session): Session
  {
    match s
    case Bootstrapping(d, _) => Bootstrapping(d, true)
    case Transferring(d, g, _) => Transferring(d, g, true)
    case Resetting(d, g, _) => Resetting(d, g, true)
  }

  function DeviceOf(s: Session): Option<nat>
  {
    match s case Bootstrapping(d, _) => Some(d) case Transferring(d, _, _) => Some(d) case Resetting(d, _, _) => d
  }

  function Next(w: World, step: Step): World
  {
    var r := w.records;
    match step
    case DoClaim(d) => Commit(w, Claim(r, d))
    case DoAddDrive(d, drive, acceptable) => Commit(w, AddDrive(r, d, drive, acceptable))
    case DoConfigure(d, setup) => Commit(w, Configure(r, d, setup))
    case DoReplace(d, expected, was, becomes, acceptable, stopped) =>
      Commit(w, Replace(r, d, expected, was, becomes, acceptable, stopped))
    case DoCommission(d, approval) => Commit(w, Commission(r, d, approval))
    case DoGreet(s, capability, sameNetwork) =>
      if s in w.sessions then w
      else
        var (t, greeting) := Greet(r, capability, sameNetwork);
        if greeting.Proceeds? then Begin(w, s, Some(t), Bootstrapping(greeting.device, false)) else Commit(w, Some(t))
    case DoAnswer(s, host) =>
      if s !in w.sessions || !w.sessions[s].Bootstrapping? || !w.sessions[s].synced then w
      else
        var answer := Answer(r, w.sessions[s].device, host);
        if answer.None? then End(w, s)
        else
          var (t, reply) := answer.value;
          End(w, s).(records := t, replies := if reply.Some? then w.replies + [reply.value] else w.replies)
    case DoOperate(s, q) =>
      if s in w.sessions then w
      else if q.operation.Release? && r.row.device.Some? then
        Begin(w, s, Operate(r, q), Transferring(r.row.device.value, q.generation, false))
      else Commit(w, Operate(r, q))
    case DoFinishRelease(s) =>
      if s !in w.sessions || !w.sessions[s].Transferring? || !w.sessions[s].synced then w
      else
        var d := w.sessions[s].device;
        var after := FinishRelease(r, d, w.sessions[s].generation);
        if after.None? then End(w, s) else End(w, s).(records := after.value, released := w.released + {d})
    case DoStartReset(s, generation) =>
      if s in w.sessions then w
        else Begin(w, s, StartReset(r, generation), Resetting(r.row.device, generation, r.row.device.None?))
    case DoFinishReset(s) =>
      if s !in w.sessions || !w.sessions[s].Resetting? || !w.sessions[s].synced then w
      else Commit(End(w, s), FinishReset(r, w.sessions[s].generation))
    case DoQuarantine => Commit(w, Quarantine(r))
    case SyncOwn(s, budget, lost) =>
      if s !in w.sessions || DeviceOf(w.sessions[s]).None? then w
      else
        var (t, done) := Synchronize(r, DeviceOf(w.sessions[s]).value, budget, lost);
        w.(records := t, sessions := if done then w.sessions[s := Synced(w.sessions[s])] else w.sessions)
    case SyncAny(d, budget, lost) => Commit(w, Some(Synchronize(r, d, budget, lost).0))
    case Crash(s) => End(w, s)
    case SetControl(d, on) =>
      if d in r.devices then Commit(w, Some(r.(devices := r.devices[d := r.devices[d].(control := on)]))) else w
    case SetLifecycle(d, l) =>
      if d in r.devices then Commit(w, Some(r.(devices := r.devices[d := r.devices[d].(lifecycle := l)]))) else w
  }

  function Run(w: World, steps: seq<Step>): World
  {
    if steps == [] then w else Next(Run(w, steps[..|steps| - 1]), steps[|steps| - 1])
  }

  // ---------------------------------------------------------------- the invariant

  /** A commissioned reply of the current revision is the current grant. */
  ghost predicate ReplyOk(r: Records, p: Reply)
  {
    p.commissioned ==>
      p.hash.Some? && p.revision <= r.row.revision
        && (p.revision == r.row.revision ==> r.row.grant == Some(Grant(p.mode, p.hash.value)))
  }

  ghost predicate SessionOk(r: Records, s: Session)
  {
    !s.Bootstrapping? && DeviceOf(s).Some? ==>
      Former(r, DeviceOf(s).value) && (s.synced ==> ConfirmedOff(r, DeviceOf(s).value))
  }

  ghost predicate ReleasedOk(r: Records, d: nat) { Former(r, d) && ConfirmedOff(r, d) }

  ghost predicate Inv(w: World)
  {
    && RecordsOk(w.records)
    && (forall k | 0 <= k < |w.replies| :: ReplyOk(w.records, w.replies[k]))
    && (forall s | s in w.sessions :: SessionOk(w.records, w.sessions[s]))
    && (forall d | d in w.released :: ReleasedOk(w.records, d))
  }

  lemma GrownStaysOk(r: Records, s: Records)
    requires Grows(r, s)
    ensures forall p: Reply | ReplyOk(r, p) :: ReplyOk(s, p)
    ensures forall x: Session | SessionOk(r, x) :: SessionOk(s, x)
    ensures forall d: nat | ReleasedOk(r, d) :: ReleasedOk(s, d)
  {
  }

  lemma CommitKeeps(w: World, r: Records)
    requires Inv(w) && RecordsOk(r) && Grows(w.records, r)
    ensures Inv(w.(records := r))
  {
    hide RecordsOk, Grows, ReplyOk, SessionOk, ReleasedOk;
    GrownStaysOk(w.records, r);
  }

  lemma BeginKeeps(w: World, s: nat, r: Records, session: Session)
    requires Inv(w) && RecordsOk(r) && Grows(w.records, r) && SessionOk(r, session)
    ensures Inv(w.(records := r, sessions := w.sessions[s := session]))
  {
    hide RecordsOk, Grows, ReplyOk, SessionOk, ReleasedOk;
    GrownStaysOk(w.records, r);
  }

  lemma EndKeeps(w: World, s: nat)
    requires Inv(w)
    ensures Inv(End(w, s))
  {
  }

  /** Equipment and environment steps. */
  lemma EquipmentKeeps(w: World, step: Step)
    requires Inv(w)
    requires step.DoClaim? || step.DoAddDrive? || step.DoConfigure? || step.DoReplace? || step.DoCommission?
      || step.DoQuarantine?
    ensures Inv(Next(w, step)) && Grows(w.records, Next(w, step).records)
  {
    hide Inv, RecordsOk, Grows, Claim, AddDrive, Configure, Replace, Commission, Quarantine;
    var r := w.records;
    RecordsOf(w);
    GrowsItself(r);
    var s := Next(w, step).records;
    match step {
      case DoClaim(d) => if Claim(r, d).Some? { ClaimKeeps(r, d); }
      case DoAddDrive(d, drive, acceptable) =>
        if AddDrive(r, d, drive, acceptable).Some? { AddDriveKeeps(r, d, drive, acceptable); }
      case DoConfigure(d, setup) => if Configure(r, d, setup).Some? { ConfigureKeeps(r, d, setup); }
      case DoReplace(d, expected, was, becomes, acceptable, stopped) =>
        if Replace(r, d, expected, was, becomes, acceptable, stopped).Some? {
          ReplaceKeeps(r, d, expected, was, becomes, acceptable, stopped);
        }
      case DoCommission(d, approval) => if Commission(r, d, approval).Some? { CommissionKeeps(r, d, approval); }
      case DoQuarantine => if Quarantine(r).Some? { QuarantineKeeps(r); }
    }
    CommitKeeps(w, s);
  }

  lemma RecordsOf(w: World)
    requires Inv(w)
    ensures RecordsOk(w.records)
  {
  }

  lemma EnvironmentKeeps(w: World, step: Step)
    requires Inv(w) && (step.SetControl? || step.SetLifecycle? || step.Crash? || step.SyncAny?)
    ensures Inv(Next(w, step)) && Grows(w.records, Next(w, step).records)
  {
    hide Inv, RecordsOk, Grows, Gapless, Synchronize;
    var r := w.records;
    RecordsOf(w);
    GrowsItself(r);
    match step
    case SetControl(d, on) =>
      if d in r.devices {
        GaplessOf(r, d);
        DeviceChange(r, d, r.devices[d].(control := on));
        CommitKeeps(w, Next(w, step).records);
      }
    case SetLifecycle(d, l) =>
      if d in r.devices {
        GaplessOf(r, d);
        DeviceChange(r, d, r.devices[d].(lifecycle := l));
        CommitKeeps(w, Next(w, step).records);
      }
    case Crash(s) => EndKeeps(w, s);
    case SyncAny(d, budget, lost) =>
      SynchronizeKeeps(r, d, budget, lost);
      CommitKeeps(w, Next(w, step).records);
  }

  lemma GreetStepKeeps(w: World, s: nat, capability: Capability, sameNetwork: bool)
    requires Inv(w)
    ensures
      var v := Next(w, DoGreet(s, capability, sameNetwork));
      Inv(v) && Grows(w.records, v.records)
  {
    hide Inv, RecordsOk, Grows, Greet;
    RecordsOf(w);
    GrowsItself(w.records);
    GreetKeeps(w.records, capability, sameNetwork);
    var (t, greeting) := Greet(w.records, capability, sameNetwork);
    if greeting.Proceeds? {
      BeginKeeps(w, s, t, Bootstrapping(greeting.device, false));
    } else {
      CommitKeeps(w, t);
    }
  }

  /** What the second part of a bootstrap stores and tells. */
  lemma AnswerKeeps(r: Records, d: nat, host: bool)
    requires RecordsOk(r) && Answer(r, d, host).Some?
    ensures
      var (s, reply) := Answer(r, d, host).value;
      RecordsOk(s) && Grows(r, s) && (reply.Some? ==> ReplyOk(s, reply.value))
  {
    hide RecordsOk, Grows, Recheck;
    GrowsItself(r);
    if d in r.devices && Recheck(r, d).Some? {
      RecheckKeeps(r, d);
    }
  }

  lemma AnswerStepKeeps(w: World, s: nat, host: bool)
    requires Inv(w)
    ensures
      var v := Next(w, DoAnswer(s, host));
      Inv(v) && Grows(w.records, v.records)
  {
    hide RecordsOk, Grows, Answer, ReplyOk, SessionOk, ReleasedOk;
    GrowsItself(w.records);
    if s in w.sessions && w.sessions[s].Bootstrapping? && Answer(w.records, w.sessions[s].device, host).Some? {
      AnswerKeeps(w.records, w.sessions[s].device, host);
      GrownStaysOk(w.records, Answer(w.records, w.sessions[s].device, host).value.0);
    }
  }

  lemma OperateStepKeeps(w: World, s: nat, q: Access.Request)
    requires Inv(w)
    ensures
      var v := Next(w, DoOperate(s, q));
      Inv(v) && Grows(w.records, v.records)
  {
    hide Inv, RecordsOk, Grows, Operate, Former;
    RecordsOf(w);
    GrowsItself(w.records);
    if s !in w.sessions && Operate(w.records, q).Some? {
      OperateKeeps(w.records, q);
      var t := Operate(w.records, q).value;
      if q.operation.Release? {
        BeginKeeps(w, s, t, Transferring(w.records.row.device.value, q.generation, false));
      } else {
        CommitKeeps(w, t);
      }
    }
  }

  lemma FinishReleaseStepKeeps(w: World, s: nat)
    requires Inv(w)
    ensures
      var v := Next(w, DoFinishRelease(s));
      Inv(v) && Grows(w.records, v.records)
  {
    hide RecordsOk, Grows, FinishRelease, ReplyOk;
    GrowsItself(w.records);
    if s in w.sessions && w.sessions[s].Transferring? && w.sessions[s].synced {
      var d, generation := w.sessions[s].device, w.sessions[s].generation;
      if FinishRelease(w.records, d, generation).Some? {
        FinishReleaseKeeps(w.records, d, generation);
        var t := FinishRelease(w.records, d, generation).value;
        assert SessionOk(w.records, w.sessions[s]);
        assert ReleasedOk(w.records, d);
        GrownStaysOk(w.records, t);
      }
    }
  }

  lemma ResetStepsKeep(w: World, step: Step)
    requires Inv(w) && (step.DoStartReset? || step.DoFinishReset?)
    ensures Inv(Next(w, step)) && Grows(w.records, Next(w, step).records)
  {
    hide Inv, RecordsOk, Grows, StartReset, FinishReset, Former;
    RecordsOf(w);
    GrowsItself(w.records);
    match step
    case DoStartReset(s, generation) =>
      if s !in w.sessions && StartReset(w.records, generation).Some? {
        StartResetKeeps(w.records, generation);
        var device := w.records.row.device;
        BeginKeeps(w, s, StartReset(w.records, generation).value, Resetting(device, generation, device.None?));
      }
    case DoFinishReset(s) =>
      EndKeeps(w, s);
      if s in w.sessions && w.sessions[s].Resetting? && w.sessions[s].synced
        && FinishReset(w.records, w.sessions[s].generation).Some?
      {
        FinishResetKeeps(w.records, w.sessions[s].generation);
        CommitKeeps(End(w, s), FinishReset(w.records, w.sessions[s].generation).value);
      }
  }

  lemma SyncOwnKeeps(w: World, s: nat, budget: nat, lost: bool)
    requires Inv(w)
    ensures
      var v := Next(w, SyncOwn(s, budget, lost));
      Inv(v) && Grows(w.records, v.records)
  {
    hide RecordsOk, Grows, Synchronize, ReplyOk, ReleasedOk;
    GrowsItself(w.records);
    if s in w.sessions && DeviceOf(w.sessions[s]).Some? {
      var d := DeviceOf(w.sessions[s]).value;
      SynchronizeKeeps(w.records, d, budget, lost);
      var (t, done) := Synchronize(w.records, d, budget, lost);
      GrownStaysOk(w.records, t);
      KeyOfFormer(t, d);
      SynchronizedKey(w.records, d, budget, lost);
    }
  }

  lemma KeyOfFormer(r: Records, d: nat)
    requires RecordsOk(r)
    ensures Former(r, d) && d in r.credentials ==> r.credentials[d].revoked
  {
  }

  lemma SynchronizedKey(r: Records, d: nat, budget: nat, lost: bool)
    ensures
      var (s, done) := Synchronize(r, d, budget, lost);
      done && d in s.credentials ==> s.credentials[d].applied == s.credentials[d].revision
  {
  }

  lemma NextKeeps(w: World, step: Step)
    requires Inv(w)
    ensures Inv(Next(w, step)) && Grows(w.records, Next(w, step).records)
  {
    hide Inv, Next, Grows;
    match step
    case DoGreet(s, capability, sameNetwork) => GreetStepKeeps(w, s, capability, sameNetwork);
    case DoAnswer(s, host) => AnswerStepKeeps(w, s, host);
    case DoOperate(s, q) => OperateStepKeeps(w, s, q);
    case DoFinishRelease(s) => FinishReleaseStepKeeps(w, s);
    case DoStartReset(_, _) => ResetStepsKeep(w, step);
    case DoFinishReset(_) => ResetStepsKeep(w, step);
    case SyncOwn(s, budget, lost) => SyncOwnKeeps(w, s, budget, lost);
    case SyncAny(_, _, _) => EnvironmentKeeps(w, step);
    case Crash(_) => EnvironmentKeeps(w, step);
    case SetControl(_, _) => EnvironmentKeeps(w, step);
    case SetLifecycle(_, _) => EnvironmentKeeps(w, step);
    case _ => EquipmentKeeps(w, step);
  }

  /** Every run keeps the invariant, and its records only grow. */
  lemma {:induction false} RunKeeps(w: World, steps: seq<Step>)
    requires Inv(w)
    ensures Inv(Run(w, steps)) && Grows(w.records, Run(w, steps).records)
  {
    hide Inv, Next, Grows;
    if steps == [] {
      GrowsItself(w.records);
    } else {
      var n := |steps| - 1;
      RunKeeps(w, steps[..n]);
      NextKeeps(Run(w, steps[..n]), steps[n]);
      GrowsTransitive(w.records, Run(w, steps[..n]).records, Run(w, steps).records);
    }
  }

  lemma FactoryInv()
    ensures Inv(FACTORY)
  {
  }

  // ---------------------------------------------------------------- the theorems

  lemma Reachable(steps: seq<Step>)
    ensures Inv(Run(FACTORY, steps))
  {
    FactoryInv();
    RunKeeps(FACTORY, steps);
  }

  /** The control number never falls, and a grant that changed between any two moments of a run
      has a larger one. */
  lemma GrantChangesAreNumbered(steps: seq<Step>, more: seq<Step>)
    ensures
      var was, becomes := Run(FACTORY, steps).records.row, Run(Run(FACTORY, steps), more).records.row;
      was.revision <= becomes.revision && (was.grant != becomes.grant ==> was.revision < becomes.revision)
  {
    Reachable(steps);
    RunKeeps(Run(FACTORY, steps), more);
  }

  /** Two commissioned replies with the same control number say the same. */
  lemma {:induction false} RepliesAgree(steps: seq<Step>, i: nat, j: nat)
    requires i < |Run(FACTORY, steps).replies| && j < |Run(FACTORY, steps).replies|
    requires Run(FACTORY, steps).replies[i].commissioned && Run(FACTORY, steps).replies[j].commissioned
    requires Run(FACTORY, steps).replies[i].revision == Run(FACTORY, steps).replies[j].revision
    ensures
      var p, q := Run(FACTORY, steps).replies[i], Run(FACTORY, steps).replies[j];
      p.mode == q.mode && p.hash == q.hash && p.hash.Some?
  {
    hide Next, RecordsOk, Grows, SessionOk, ReleasedOk;
    var n := |steps| - 1;
    var before, after := Run(FACTORY, steps[..n]), Run(FACTORY, steps);
    RepliesGrow(before, steps[n]);
    Reachable(steps[..n]);
    Reachable(steps);
    if i < |before.replies| && j < |before.replies| {
      RepliesAgree(steps[..n], i, j);
    } else {
      AnsweredIsCurrent(before, steps[n]);
      assert ReplyOk(after.records, after.replies[i]) && ReplyOk(after.records, after.replies[j]);
    }
  }

  lemma RepliesGrow(w: World, step: Step)
    ensures w.replies <= Next(w, step).replies && |Next(w, step).replies| <= |w.replies| + 1
  {
    hide Claim, AddDrive, Configure, Replace, Commission, Greet, Answer, Operate;
    hide FinishRelease, StartReset, FinishReset, Quarantine, Synchronize;
  }

  /** A new reply carries the control number in force. */
  lemma AnsweredIsCurrent(w: World, step: Step)
    ensures
      var v := Next(w, step);
      |v.replies| > |w.replies| ==> v.replies[|w.replies|].revision == v.records.row.revision
  {
    hide Claim, AddDrive, Configure, Replace, Commission, Greet, Operate, Recheck, RuntimeGrant;
    hide FinishRelease, StartReset, FinishReset, Quarantine, Synchronize;
  }

  /** Step `k` of the run commissioned this grant: on site verified and stopped, for the configuration
      that was then the latest of the claimed device. */
  ghost predicate Approved(steps: seq<Step>, k: nat, g: Grant, revision: nat)
  {
    && k < |steps| && steps[k].DoCommission?
    && var r, d, a := Run(FACTORY, steps[..k]).records, steps[k].device, steps[k].approval;
       && a.verified && a.stopped && a.mode == g.mode && (a.mode.ExtendedTest? ==> a.motor) && CurrentBinding(r, d)
       && r.devices[d].configs != [] && r.devices[d].configs[|r.devices[d].configs| - 1].hash == g.hash
       && r.devices[d].configs[|r.devices[d].configs| - 1].revision == a.expected
       && revision == r.row.revision + 1
  }

  /** Only commissioning grants control. */
  lemma OnlyCommissionGrants(w: World, step: Step)
    requires
      var row := Next(w, step).records.row;
      row.grant.Some? && (row.grant != w.records.row.grant || row.revision != w.records.row.revision)
    ensures step.DoCommission? && Commission(w.records, step.device, step.approval) == Some(Next(w, step).records)
  {
    hide Commission, Greet, Answer, Operate, HashIsNew, NextConfig, Synchronize, SwitchOff;
    match step
    case SyncOwn(s, budget, lost) =>
      if s in w.sessions && DeviceOf(w.sessions[s]).Some? {
        SynchronizeSameRow(w.records, DeviceOf(w.sessions[s]).value, budget, lost);
      }
    case SyncAny(d, budget, lost) => SynchronizeSameRow(w.records, d, budget, lost);
    case DoGreet(_, capability, sameNetwork) => GreetGrantsNothing(w.records, capability, sameNetwork);
    case DoAnswer(s, host) =>
      if s in w.sessions && w.sessions[s].Bootstrapping? { AnswerGrantsNothing(w.records, w.sessions[s].device, host); }
    case DoOperate(_, q) => OperateGrantsNothing(w.records, q);
    case _ =>
  }

  /** A grant that is there was there before, under the same number. */
  predicate NothingGranted(a: Controller, b: Controller)
  {
    b.grant.Some? ==> b.grant == a.grant && b.revision == a.revision
  }

  lemma GreetGrantsNothing(r: Records, capability: Capability, sameNetwork: bool)
    ensures NothingGranted(r.row, Greet(r, capability, sameNetwork).0.row)
  {
    hide SwitchOff, Supports;
  }

  lemma AnswerGrantsNothing(r: Records, d: nat, host: bool)
    ensures Answer(r, d, host).Some? ==> NothingGranted(r.row, Answer(r, d, host).value.0.row)
  {
    hide SwitchOff, OfferedConfig, RuntimeGrant;
  }

  lemma OperateGrantsNothing(r: Records, q: Access.Request)
    ensures Operate(r, q).Some? ==> NothingGranted(r.row, Operate(r, q).value.row)
  {
    hide SwitchOff, HashIsNew;
  }

  /** A grant in force was commissioned in this run, with the control number in force. */
  lemma {:induction false} GrantWasApproved(steps: seq<Step>) returns (k: nat)
    requires Run(FACTORY, steps).records.row.grant.Some?
    ensures Approved(steps, k, Run(FACTORY, steps).records.row.grant.value, Run(FACTORY, steps).records.row.revision)
  {
    hide Next, Supports, CurrentBinding;
    var n := |steps| - 1;
    var before, after := Run(FACTORY, steps[..n]), Run(FACTORY, steps);
    if after.records.row.grant == before.records.row.grant
      && after.records.row.revision == before.records.row.revision
    {
      k := GrantWasApproved(steps[..n]);
      assert steps[..n][..k] == steps[..k];
    } else {
      OnlyCommissionGrants(before, steps[n]);
      k := n;
    }
  }

  /** A controller is told that it is commissioned only with the mode and configuration that were
      approved under the same control number. */
  lemma {:induction false} CommissionedWasApproved(steps: seq<Step>, i: nat) returns (k: nat)
    requires i < |Run(FACTORY, steps).replies| && Run(FACTORY, steps).replies[i].commissioned
    ensures
      var p := Run(FACTORY, steps).replies[i];
      p.hash.Some? && Approved(steps, k, Grant(p.mode, p.hash.value), p.revision)
  {
    hide Next, Approved, RecordsOk;
    var n := |steps| - 1;
    var before, after := Run(FACTORY, steps[..n]), Run(FACTORY, steps);
    RepliesGrow(before, steps[n]);
    if i < |before.replies| {
      k := CommissionedWasApproved(steps[..n], i);
      ApprovedLater(steps, n, k, Grant(after.replies[i].mode, after.replies[i].hash.value), after.replies[i].revision);
    } else {
      Reachable(steps);
      AnsweredIsCurrent(before, steps[n]);
      assert ReplyOk(after.records, after.replies[i]);
      k := GrantWasApproved(steps);
    }
  }

  lemma ApprovedLater(steps: seq<Step>, n: nat, k: nat, g: Grant, revision: nat)
    requires n <= |steps| && Approved(steps[..n], k, g, revision)
    ensures Approved(steps, k, g, revision)
  {
    assert steps[..n][..k] == steps[..k];
  }

  /** Every change of equipment, access or ownership that takes effect ends the grant. */
  lemma ChangesEndTheGrant(w: World, step: Step)
    requires step.DoConfigure? || step.DoReplace? || step.DoOperate? || step.DoQuarantine? || step.DoFinishReset?
    requires Next(w, step).records != w.records
    ensures Next(w, step).records.row.grant.None? && Next(w, step).records.row.revision == w.records.row.revision + 1
    ensures
      var devices := Next(w, step).records.devices;
      step.DoConfigure? || step.DoReplace? ==> step.device in devices && !devices[step.device].control
  {
    hide HashIsNew, NextConfig;
  }

  /** A claimed controller with a confirmed key is told that it is commissioned exactly if its grant
      is for the latest configuration of an active device and, beyond reading, control is still
      switched on; it is then told exactly the grant. */
  lemma ToldExactlyTheGrant(r: Records, d: nat)
    requires RecordsOk(r) && r.row.status.Claimed? && !r.row.accessRevoked && r.row.device == Some(d)
    requires r.row.revision < LIMIT
    requires d in r.credentials && !r.credentials[d].revoked && r.credentials[d].applied == r.credentials[d].revision
    ensures d in r.devices && Answer(r, d, true).Some? && Answer(r, d, true).value.1.Some?
    ensures
      var p, device := Answer(r, d, true).value.1.value, r.devices[d];
      && (p.commissioned <==>
            && r.row.grant.Some? && device.lifecycle.Active? && device.configs != []
            && device.configs[|device.configs| - 1].hash == r.row.grant.value.hash
            && (r.row.grant.value.mode.ReadOnly? || device.control))
      && (p.commissioned ==> r.row.grant == Some(Grant(p.mode, p.hash.GetOr(0))) && p.revision == r.row.revision)
      && (!p.commissioned ==> p.mode.ReadOnly?) && p.key == r.credentials[d].revision
  {
    DeviceIsKnown(r);
    GrantNeedsDevice(r);
    hide RecordsOk, KeysOk, BrokerOk, ConfigsOk, Supports;
  }

  /** A stored mode is within what the firmware last said it supports: the extended test needs the full
      capability, and anything beyond reading more than reading. It belongs to a claimed controller
      whose access is not revoked. */
  lemma GrantIsSupported(steps: seq<Step>)
    ensures
      var row := Run(FACTORY, steps).records.row;
      row.grant.Some? ==>
        && (row.grant.value.mode.ExtendedTest? ==> row.capability.CanFull?)
        && (!row.grant.value.mode.ReadOnly? ==> !row.capability.CanRead?)
        && row.status.Claimed? && !row.accessRevoked
  {
    Reachable(steps);
    GrantNeedsDevice(Run(FACTORY, steps).records);
  }

  predicate AccountOff(b: Broker, d: nat) { d in b.clients ==> !b.clients[d].enabled }

  lemma ConfirmedMeansOff(r: Records, d: nat)
    requires RecordsOk(r) && ConfirmedOff(r, d)
    ensures AccountOff(r.broker, d)
  {
  }

  /** A released device is cut off at the broker, from the hand-over on and for ever. */
  lemma ReleaseIsConfirmed(steps: seq<Step>, more: seq<Step>, d: nat)
    requires d in Run(FACTORY, steps).released
    ensures
      var r := Run(Run(FACTORY, steps), more).records;
      ConfirmedOff(r, d) && AccountOff(r.broker, d) && Former(r, d)
  {
    hide RecordsOk, Grows;
    Reachable(steps);
    RunKeeps(Run(FACTORY, steps), more);
    assert ReleasedOk(Run(FACTORY, steps).records, d);
    GrownStaysOk(Run(FACTORY, steps).records, Run(Run(FACTORY, steps), more).records);
    RecordsOf(Run(Run(FACTORY, steps), more));
    ConfirmedMeansOff(Run(Run(FACTORY, steps), more).records, d);
  }

  /** The reset session was opened for the device that the row holds now. */
  predicate SameDevice(w: World, step: Step)
  {
    step.DoFinishReset? && step.session in w.sessions ==> DeviceOf(w.sessions[step.session]) == w.records.row.device
  }

  /** A new generation begins only with the second part of a release or a reset. The key of the
      device left behind is revoked by then; and the broker has confirmed that it is off, unless
      it is a reset whose first part saw another device. */
  lemma NewGenerationIsSafe(steps: seq<Step>, step: Step)
    requires
      var w := Run(FACTORY, steps);
      w.records.row.generation != Next(w, step).records.row.generation
    ensures step.DoFinishRelease? || step.DoFinishReset?
    ensures
      var w := Run(FACTORY, steps);
      w.records.row.device.Some? ==>
        var d := w.records.row.device.value;
        && (d in w.records.credentials ==> w.records.credentials[d].revoked)
        && (SameDevice(w, step) ==> ConfirmedOff(w.records, d) && AccountOff(w.records.broker, d))
  {
    hide RecordsOk, ReplyOk, ReleasedOk;
    var w := Run(FACTORY, steps);
    Reachable(steps);
    OnlyEndingsAdvance(w, step);
    if w.records.row.device.Some? {
      var d := w.records.row.device.value;
      DeviceIsKnown(w.records);
      KeyOfFormer(w.records, d);
      assert SessionOk(w.records, w.sessions[step.session]);
      if SameDevice(w, step) {
        ConfirmedMeansOff(w.records, d);
      }
    }
  }

  lemma OnlyEndingsAdvance(w: World, step: Step)
    requires w.records.row.generation != Next(w, step).records.row.generation
    ensures step.DoFinishRelease? || step.DoFinishReset?
    ensures step.session in w.sessions && w.sessions[step.session].synced && !w.records.row.status.Claimed?
    ensures step.DoFinishRelease?
      ==> w.sessions[step.session].Transferring? && w.records.row.device == DeviceOf(w.sessions[step.session])
    ensures step.DoFinishReset? ==> w.sessions[step.session].Resetting?
  {
    hide Greet, Answer, Operate, Synchronize;
    match step
    case DoAnswer(s, host) =>
      if s in w.sessions && w.sessions[s].Bootstrapping? {
        AnswerSameGeneration(w.records, w.sessions[s].device, host);
      }
    case DoOperate(_, q) => OperateSameGeneration(w.records, q);
    case DoGreet(_, capability, sameNetwork) => GreetSameGeneration(w.records, capability, sameNetwork);
    case SyncOwn(s, budget, lost) =>
      if s in w.sessions && DeviceOf(w.sessions[s]).Some? {
        SynchronizeSameRow(w.records, DeviceOf(w.sessions[s]).value, budget, lost);
      }
    case SyncAny(d, budget, lost) => SynchronizeSameRow(w.records, d, budget, lost);
    case _ =>
  }

  lemma AnswerSameGeneration(r: Records, d: nat, host: bool)
    ensures Answer(r, d, host).Some? ==> Answer(r, d, host).value.0.row.generation == r.row.generation
  {
  }

  lemma OperateSameGeneration(r: Records, q: Access.Request)
    ensures Operate(r, q).Some? ==> Operate(r, q).value.row.generation == r.row.generation
  {
  }

  lemma GreetSameGeneration(r: Records, capability: Capability, sameNetwork: bool)
    ensures Greet(r, capability, sameNetwork).0.row.generation == r.row.generation
  {
  }

  lemma SynchronizeSameRow(r: Records, d: nat, budget: nat, lost: bool)
    ensures Synchronize(r, d, budget, lost).0.row == r.row
  {
  }

  /** Whatever a request that ended early left behind, one synchronisation that reaches the broker
      cuts off a former device for good. */
  lemma RetryCutsOff(steps: seq<Step>, d: nat, budget: nat, more: seq<Step>)
    requires Former(Run(FACTORY, steps).records, d) && 6 <= budget
    ensures
      var r := Run(Next(Run(FACTORY, steps), SyncAny(d, budget, false)), more).records;
      ConfirmedOff(r, d) && AccountOff(r.broker, d)
  {
    hide RecordsOk, Grows, Synchronize;
    var w := Run(FACTORY, steps);
    Reachable(steps);
    NextKeeps(w, SyncAny(d, budget, false));
    var v := Next(w, SyncAny(d, budget, false));
    KeyOfFormer(v.records, d);
    LongEnough(w.records, d, budget);
    SynchronizedKey(w.records, d, budget, false);
    assert Former(v.records, d) by { SynchronizeKeeps(w.records, d, budget, false); }
    RunKeeps(v, more);
    assert ReleasedOk(v.records, d);
    GrownStaysOk(v.records, Run(v, more).records);
    RecordsOf(Run(v, more));
    ConfirmedMeansOff(Run(v, more).records, d);
  }

  lemma LongEnough(r: Records, d: nat, budget: nat)
    requires 6 <= budget
    ensures Synchronize(r, d, budget, false).1
  {
  }

  /** The account is not open with any password up to this revision. */
  predicate ClosedTo(b: Broker, d: nat, p: nat) { d in b.clients && b.clients[d].enabled ==> p < b.clients[d].password }

  lemma ApplyStaysClosed(b: Broker, d: nat, password: nat, revoked: bool, budget: nat, lost: bool, p: nat)
    requires ClosedTo(b, d, p) && p < password
    ensures ClosedTo(Applied(b, d, password, revoked, budget, lost).0, d, p)
  {
    var plan := Plan(b, d, password, revoked);
    OldPasswordStaysOff(b, d, password, revoked, 0, Effective(budget, lost, |plan|));
  }

  lemma SynchronizeStaysClosed(r: Records, e: nat, budget: nat, lost: bool, d: nat, p: nat)
    requires ClosedTo(r.broker, d, p) && d in r.credentials && p < r.credentials[d].revision
    ensures ClosedTo(Synchronize(r, e, budget, lost).0.broker, d, p)
  {
    hide Applied;
    if e in r.credentials {
      var c := r.credentials[e];
      if e == d {
        ApplyStaysClosed(r.broker, d, c.revision, c.revoked, budget, lost, p);
      } else {
        ApplyElsewhere(r.broker, e, c.revision, c.revoked, budget, lost, d);
      }
    }
  }

  lemma OnlySyncReachesBroker(w: World, step: Step)
    requires !step.SyncOwn? && !step.SyncAny?
    ensures Next(w, step).records.broker == w.records.broker
  {
    hide Recheck, RecordCapability, Renew, Invalidate;
    match step
    case DoGreet(_, capability, _) => CapabilityLeavesBroker(w.records, capability);
    case DoAnswer(s, _) =>
      if s in w.sessions && w.sessions[s].Bootstrapping? && w.sessions[s].device in w.records.devices {
        RecheckLeavesBroker(w.records, w.sessions[s].device);
      }
    case DoOperate(_, q) => OperateLeavesBroker(w.records, q);
    case _ =>
  }

  lemma CapabilityLeavesBroker(r: Records, capability: Capability)
    ensures RecordCapability(r, capability).Some? ==> RecordCapability(r, capability).value.broker == r.broker
  {
  }

  lemma RecheckLeavesBroker(r: Records, d: nat)
    requires d in r.devices
    ensures Recheck(r, d).Some? ==> Recheck(r, d).value.broker == r.broker
  {
  }

  lemma OperateLeavesBroker(r: Records, q: Access.Request)
    ensures Operate(r, q).Some? ==> Operate(r, q).value.broker == r.broker
  {
  }

  /** Once the account is closed to the passwords below the current key, for instance because the
      disabling request for a newer revision took effect, nothing in any run opens it to them again. */
  lemma {:induction false} OldPasswordNeverReturns(w: World, more: seq<Step>, d: nat, p: nat)
    requires Inv(w) && d in w.records.credentials && p < w.records.credentials[d].revision
    requires ClosedTo(w.records.broker, d, p)
    ensures
      var r := Run(w, more).records;
      ClosedTo(r.broker, d, p) && d in r.credentials && p < r.credentials[d].revision
  {
    hide Inv, Next, ClosedTo, RecordsOk;
    if more != [] {
      var n := |more| - 1;
      var v, step := Run(w, more[..n]), more[n];
      OldPasswordNeverReturns(w, more[..n], d, p);
      RunKeeps(w, more[..n]);
      NextKeeps(v, step);
      if step.SyncOwn? || step.SyncAny? {
        SyncStepStaysClosed(v, step, d, p);
      } else {
        OnlySyncReachesBroker(v, step);
      }
    }
  }

  lemma SyncStepStaysClosed(w: World, step: Step, d: nat, p: nat)
    requires step.SyncOwn? || step.SyncAny?
    requires ClosedTo(w.records.broker, d, p) && d in w.records.credentials && p < w.records.credentials[d].revision
    ensures ClosedTo(Next(w, step).records.broker, d, p)
  {
    hide Synchronize, ClosedTo;
    match step
    case SyncAny(e, budget, lost) => SynchronizeStaysClosed(w.records, e, budget, lost, d, p);
    case SyncOwn(s, budget, lost) =>
      if s in w.sessions && DeviceOf(w.sessions[s]).Some? {
        SynchronizeStaysClosed(w.records, DeviceOf(w.sessions[s]).value, budget, lost, d, p);
      }
  }

  /** Configuration revisions of a device are 1, 2, 3, ... and no revision ever comes back. */
  lemma RevisionsAreGapless(steps: seq<Step>, more: seq<Step>, d: nat)
    requires d in Run(FACTORY, steps).records.devices
    ensures
      var w := Run(FACTORY, steps);
      var v := Run(w, more);
      && d in v.records.devices && w.records.devices[d].configs <= v.records.devices[d].configs
      && forall i | 0 <= i < |v.records.devices[d].configs| :: v.records.devices[d].configs[i].revision == i + 1
  {
    Reachable(steps);
    RunKeeps(Run(FACTORY, steps), more);
    GaplessOf(Run(Run(FACTORY, steps), more).records, d);
  }

  // ---------------------------------------------------------------- what spans a broker call can be completed

  /** A synchronisation that reaches the broker marks the session as done, and leaves the row alone. */
  lemma SyncMarksSession(w: World, s: nat, budget: nat)
    requires s in w.sessions && DeviceOf(w.sessions[s]).Some? && 6 <= budget
    ensures
      var v, d := Next(w, SyncOwn(s, budget, false)), DeviceOf(w.sessions[s]).value;
      && s in v.sessions && v.sessions[s] == Synced(w.sessions[s]) && v.sessions[s].synced
      && DeviceOf(v.sessions[s]) == Some(d) && v.sessions[s].Transferring? == w.sessions[s].Transferring?
      && v.sessions[s].Resetting? == w.sessions[s].Resetting?
      && (!w.sessions[s].Bootstrapping? ==> v.sessions[s].generation == w.sessions[s].generation)
      && v.records.row == w.records.row && v.records.devices == w.records.devices
      && v.replies == w.replies && v.released == w.released
      && (d in v.records.credentials <==> d in w.records.credentials)
      && (d in v.records.credentials ==>
            && v.records.credentials[d].revoked == w.records.credentials[d].revoked
            && v.records.credentials[d].applied == v.records.credentials[d].revision)
  {
    var d := DeviceOf(w.sessions[s]).value;
    LongEnough(w.records, d, budget);
    hide Applied;
  }

  lemma ThreeSteps(w: World, a: Step, b: Step, c: Step)
    ensures Run(w, [a, b, c]) == Next(Next(Next(w, a), b), c)
  {
    hide Next;
    var all := [a, b, c];
    assert all[..2] == [a, b] && all[..2][..1] == [a] && all[..2][..1][..0] == [];
    assert Run(w, all[..2][..1][..0]) == w;
    assert Run(w, all[..2][..1]) == Next(w, a);
    assert Run(w, all[..2]) == Next(Next(w, a), b);
  }

  /** A release that is asked for with the generation and key in force, of a stopped device, can be
      completed: the device is let go, and the controller is ready in its next generation. */
  lemma ReleaseCanBeCompleted(w: World, s: nat, q: Access.Request)
    requires Inv(w) && s !in w.sessions && q.operation.Release? && q.stopped && w.records.row.status.Claimed?
    requires q.generation == w.records.row.generation && q.key == w.records.row.credentialRevision
    requires w.records.row.revision < LIMIT && w.records.row.device.Some?
    requires |w.records.devices[w.records.row.device.value].configs| < LIMIT
    ensures
      var v, d := Run(w, [DoOperate(s, q), SyncOwn(s, 6, false), DoFinishRelease(s)]), w.records.row.device.value;
      && d in v.released && v.records.row.device.None? && v.records.row.status.Ready?
      && v.records.row.generation == w.records.row.generation + 1 && s !in v.sessions
  {
    hide Operate, FinishRelease, Synchronize, Greet, Answer;
    var d := w.records.row.device.value;
    ThreeSteps(w, DoOperate(s, q), SyncOwn(s, 6, false), DoFinishRelease(s));
    OperateExactlyIf(w.records, q);
    OperateDoes(w.records, q);
    var a := Next(w, DoOperate(s, q));
    assert a.sessions[s] == Transferring(d, q.generation, false);
    SyncMarksSession(a, s, 6);
    var b := Next(a, SyncOwn(s, 6, false));
    assert b.sessions[s] == Transferring(d, q.generation, true);
    FinishReleaseExactlyIf(b.records, d, q.generation);
  }

  /** A reset of a quarantined controller can be completed: the next generation begins. */
  lemma ResetCanBeCompleted(w: World, s: nat)
    requires Inv(w) && s !in w.sessions && w.records.row.status.Quarantined? && w.records.row.device.Some?
    requires w.records.row.revision < LIMIT
    ensures
      var g := w.records.row.generation;
      var v := Run(w, [DoStartReset(s, g), SyncOwn(s, 6, false), DoFinishReset(s)]);
      && v.records.row.generation == g + 1 && v.records.row.device.None? && v.records.row.status.Ready?
      && s !in v.sessions
  {
    hide Inv, RecordsOk, Grows, Operate, StartReset, FinishReset, Synchronize, Greet, Answer;
    RecordsOf(w);
    var g := w.records.row.generation;
    ThreeSteps(w, DoStartReset(s, g), SyncOwn(s, 6, false), DoFinishReset(s));
    ResetDoes(w.records, g);
    ResetLeavesTheRow(w.records, g);
    var a := Next(w, DoStartReset(s, g));
    assert a.sessions[s] == Resetting(w.records.row.device, g, false);
    SyncMarksSession(a, s, 6);
    var b := Next(a, SyncOwn(s, 6, false));
    assert b.sessions[s] == Resetting(w.records.row.device, g, true);
    NextKeeps(w, DoStartReset(s, g));
    NextKeeps(a, SyncOwn(s, 6, false));
    RecordsOf(b);
    ResetDoes(b.records, g);
  }

  lemma ResetLeavesTheRow(r: Records, generation: nat)
    requires StartReset(r, generation).Some?
    ensures StartReset(r, generation).Some? && StartReset(r, generation).value.row.revision == r.row.revision
  {
  }

  /** A claimed controller with access and a valid key that reports in on its network gets its answer. */
  lemma BootstrapIsAnswered(w: World, s: nat, capability: Capability)
    requires Inv(w) && s !in w.sessions && w.records.row.status.Claimed? && !w.records.row.accessRevoked
    requires w.records.row.revision + 1 < LIMIT
    requires forall d | d in w.records.credentials && w.records.row.device == Some(d) ::
      !w.records.credentials[d].revoked
    ensures
      var v := Run(w, [DoGreet(s, capability, true), SyncOwn(s, 6, false), DoAnswer(s, true)]);
      |v.replies| == |w.replies| + 1 && w.replies <= v.replies && s !in v.sessions
  {
    hide Operate, Greet, Answer, Synchronize, RecordsOk;
    var steps := [DoGreet(s, capability, true), SyncOwn(s, 6, false), DoAnswer(s, true)];
    ThreeSteps(w, steps[0], steps[1], steps[2]);
    RecordsOf(w);
    GreetingMeans(w.records, capability, true);
    GreetKeepsRow(w.records, capability);
    var a := Next(w, steps[0]);
    var d := Greet(w.records, capability, true).1.device;
    assert a.sessions[s] == Bootstrapping(d, false);
    SyncMarksSession(a, s, 6);
    var b := Next(a, steps[1]);
    assert b.sessions[s] == Bootstrapping(d, true);
    NextKeeps(w, steps[0]);
    NextKeeps(a, steps[1]);
    RecordsOf(b);
    AnsweredExactlyIf(b.records, d, true);
  }

  /** The first key of a device comes with its first greeting, and the row stays claimed. */
  lemma GreetKeepsRow(r: Records, capability: Capability)
    requires RecordsOk(r) && r.row.status.Claimed? && !r.row.accessRevoked && r.row.revision < LIMIT
    ensures
      var (s, greeting) := Greet(r, capability, true);
      && greeting.Proceeds? && s.row.status.Claimed? && !s.row.accessRevoked && s.row.device == Some(greeting.device)
      && s.row.revision <= r.row.revision + 1 && greeting.device in s.credentials
      && s.credentials[greeting.device].revoked
         == (greeting.device in r.credentials && r.credentials[greeting.device].revoked)
  {
  }

  /** An answer waits for the broker: a session that is not synchronised changes nothing. */
  lemma NoAnswerBeforeSync(w: World, s: nat, host: bool)
    requires s in w.sessions && !w.sessions[s].synced
    ensures Next(w, DoAnswer(s, host)) == w && Next(w, DoFinishRelease(s)) == w && Next(w, DoFinishReset(s)) == w
  {
  }

  /** A hash names one configuration of one device. */
  ghost predicate HashesApart(devices: map<nat, Device>)
  {
    forall d, e, i, j | d in devices && e in devices && 0 <= i < |devices[d].configs| && 0 <= j < |devices[e].configs|
      && devices[d].configs[i].hash == devices[e].configs[j].hash :: d == e && i == j
  }

  /** No configuration was added. */
  ghost predicate SameConfigs(before: map<nat, Device>, after: map<nat, Device>)
  {
    forall d | d in after :: after[d].configs == if d in before then before[d].configs else []
  }

  /** One device got one more, with a hash never seen. */
  ghost predicate OneMore(before: map<nat, Device>, after: map<nat, Device>, d: nat)
  {
    && after.Keys == before.Keys && d in before && |after[d].configs| == |before[d].configs| + 1
    && before[d].configs == after[d].configs[..|before[d].configs|]
    && HashIsNew(before, after[d].configs[|before[d].configs|].hash)
    && forall e | e in before && e != d :: after[e].configs == before[e].configs
  }

  lemma SameStayApart(before: map<nat, Device>, after: map<nat, Device>)
    requires HashesApart(before) && SameConfigs(before, after)
    ensures HashesApart(after)
  {
  }

  lemma OneMoreStaysApart(before: map<nat, Device>, after: map<nat, Device>, d: nat)
    requires HashesApart(before) && OneMore(before, after, d)
    ensures HashesApart(after)
  {
    var n := |before[d].configs|;
    forall x, y, i, j | x in after && y in after && 0 <= i < |after[x].configs| && 0 <= j < |after[y].configs|
      && after[x].configs[i].hash == after[y].configs[j].hash
      ensures x == y && i == j
    {
      assert x != d || i < n ==> after[x].configs[i] == before[x].configs[i];
      assert y != d || j < n ==> after[y].configs[j] == before[y].configs[j];
    }
  }

  lemma ConfigureAddsOne(r: Records, d: nat, s: Setup)
    requires Configure(r, d, s).Some?
    ensures OneMore(r.devices, Configure(r, d, s).value.devices, d)
  {
    hide HashIsNew;
  }

  lemma RenewAddsOne(r: Records, d: nat, hash: nat)
    requires Renew(r, d, hash).Some?
    ensures
      var after := Renew(r, d, hash).value.devices;
      SameConfigs(r.devices, after) || OneMore(r.devices, after, d)
  {
    hide HashIsNew;
  }

  lemma OperateAddsOne(r: Records, q: Access.Request)
    requires Operate(r, q).Some?
    ensures
      var after := Operate(r, q).value.devices;
      r.row.device.Some? && (SameConfigs(r.devices, after) || OneMore(r.devices, after, r.row.device.value))
  {
    hide HashIsNew, Renew;
    if q.operation.Rotate? {
      RenewAddsOne(r.(row := Invalidate(r.row).value), r.row.device.value, q.hash);
    }
  }

  lemma GreetAddsNone(r: Records, capability: Capability, sameNetwork: bool)
    ensures SameConfigs(r.devices, Greet(r, capability, sameNetwork).0.devices)
  {
  }

  lemma AnswerAddsNone(r: Records, d: nat, host: bool)
    requires Answer(r, d, host).Some?
    ensures SameConfigs(r.devices, Answer(r, d, host).value.0.devices)
  {
    hide RuntimeGrant;
  }

  lemma SynchronizeAddsNone(r: Records, d: nat, budget: nat, lost: bool)
    ensures Synchronize(r, d, budget, lost).0.devices == r.devices
  {
  }

  lemma OfficeAddsNone(w: World, step: Step)
    requires step.DoClaim? || step.DoAddDrive? || step.DoReplace? || step.DoCommission? || step.SetControl?
      || step.SetLifecycle?
    ensures SameConfigs(w.records.devices, Next(w, step).records.devices)
  {
  }

  lemma OthersAddNone(w: World, step: Step)
    requires !step.DoConfigure? && !step.DoOperate?
    ensures SameConfigs(w.records.devices, Next(w, step).records.devices)
  {
    hide Greet, Answer, Synchronize, AddDrive, Replace, Commission, Claim;
    match step
    case DoGreet(_, capability, sameNetwork) => GreetAddsNone(w.records, capability, sameNetwork);
    case DoAnswer(s, host) =>
      if s in w.sessions && w.sessions[s].Bootstrapping? && Answer(w.records, w.sessions[s].device, host).Some? {
        AnswerAddsNone(w.records, w.sessions[s].device, host);
      }
    case SyncOwn(s, budget, lost) =>
      if s in w.sessions && DeviceOf(w.sessions[s]).Some? {
        SynchronizeAddsNone(w.records, DeviceOf(w.sessions[s]).value, budget, lost);
      }
    case SyncAny(d, budget, lost) => SynchronizeAddsNone(w.records, d, budget, lost);
    case DoClaim(_) => OfficeAddsNone(w, step);
    case DoAddDrive(_, _, _) => OfficeAddsNone(w, step);
    case DoReplace(_, _, _, _, _, _) => OfficeAddsNone(w, step);
    case DoCommission(_, _) => OfficeAddsNone(w, step);
    case SetControl(_, _) => OfficeAddsNone(w, step);
    case SetLifecycle(_, _) => OfficeAddsNone(w, step);
    case _ =>
  }

  lemma StepStaysApart(w: World, step: Step)
    requires HashesApart(w.records.devices)
    ensures HashesApart(Next(w, step).records.devices)
  {
    hide HashesApart, Configure, Operate;
    var r := w.records;
    if step.DoConfigure? {
      if Configure(r, step.device, step.setup).Some? {
        ConfigureAddsOne(r, step.device, step.setup);
        OneMoreStaysApart(r.devices, Configure(r, step.device, step.setup).value.devices, step.device);
      }
    } else if step.DoOperate? {
      if Operate(r, step.request).Some? {
        OperateAddsOne(r, step.request);
        var after := Operate(r, step.request).value.devices;
        if SameConfigs(r.devices, after) {
          SameStayApart(r.devices, after);
        } else {
          OneMoreStaysApart(r.devices, after, r.row.device.value);
        }
      }
    } else {
      OthersAddNone(w, step);
      SameStayApart(r.devices, Next(w, step).records.devices);
    }
  }

  /** In every run a hash names one configuration, so a grant is for exactly the one it was given for. */
  lemma {:induction false} HashesStayApart(steps: seq<Step>)
    ensures HashesApart(Run(FACTORY, steps).records.devices)
  {
    hide Next, HashesApart;
    if steps == [] {
      NothingToTellApart();
    } else {
      var n := |steps| - 1;
      HashesStayApart(steps[..n]);
      StepStaysApart(Run(FACTORY, steps[..n]), steps[n]);
    }
  }

  lemma NothingToTellApart()
    ensures HashesApart(FACTORY.records.devices)
  {
  }

  function TargetOf(c: Config): Commands.Target { Commands.Target(c.binding, c.revision, c.hash) }

  /** The equipment check of a dispatch: refused while the configuration is unconfirmed, and for
      any other target than the latest one. */
  function EquipmentRejection(target: Option<Commands.Target>, latest: Option<Commands.Target>,
      confirmed: bool): Option<nat>
  {
    if !confirmed then Some(0) else if target == latest then None else Some(1)
  }

  /** A command bound to one configuration gets no new attempt once the next one exists, at any
      later time and whatever else the dispatch is told. */
  lemma OldBindingGetsNoAttempt(
      steps: seq<Step>, more: seq<Step>, d: nat, i: nat,
      cfg: Commands.Config, c: Commands.Row, now: int, allowRetry: bool, confirmed: bool, online: bool)
    requires d in Run(FACTORY, steps).records.devices && i + 1 < |Run(FACTORY, steps).records.devices[d].configs|
    requires c.target == Some(TargetOf(Run(FACTORY, steps).records.devices[d].configs[i]))
    ensures
      var devices := Run(Run(FACTORY, steps), more).records.devices;
      && d in devices && devices[d].configs != []
      && var rejection := EquipmentRejection(c.target, Some(TargetOf(devices[d].configs[|devices[d].configs| - 1])),
        confirmed);
         var (after, step) := Commands.BeginDispatch(cfg, c, now, allowRetry, rejection, online);
         rejection.Some? && !step.Sending? && after.attempts == c.attempts
  {
    hide Commands.BeginDispatch, Next;
    RevisionsAreGapless(steps, [], d);
    RevisionsAreGapless(steps, more, d);
    var configs := Run(Run(FACTORY, steps), more).records.devices[d].configs;
    RefusedIsNotSent(cfg, c, now, allowRetry,
                     EquipmentRejection(c.target, Some(TargetOf(configs[|configs| - 1])), confirmed), online);
  }

  lemma RefusedIsNotSent(cfg: Commands.Config, c: Commands.Row, now: int, allowRetry: bool, rejection: Option<nat>,
      online: bool)
    requires rejection.Some?
    ensures
      var (after, step) := Commands.BeginDispatch(cfg, c, now, allowRetry, rejection, online);
      !step.Sending? && after.attempts == c.attempts
  {
  }

  // ---------------------------------------------------------------- exactly when a reset is safe

  /** In the rest of the run the session is neither cut short nor finished. */
  ghost predicate Alive(more: seq<Step>, s: nat)
  {
    forall k | 0 <= k < |more| :: more[k] != Crash(s) && more[k] != DoFinishReset(s)
  }

  /** The second half of the reset takes effect here. */
  predicate FinishesReset(w: World, s: nat)
  {
    Next(w, DoFinishReset(s)).records.row.generation != w.records.row.generation
  }

  /** The broker has confirmed that the key of the device left behind is off. */
  predicate LeavesNoKey(r: Records)
  {
    r.row.device.Some? ==> ConfirmedOff(r, r.row.device.value) && AccountOff(r.broker, r.row.device.value)
  }

  /** However the run continues, this reset session leaves no key behind when it finishes. */
  ghost predicate ResetIsSafe(w: World, s: nat)
  {
    forall more: seq<Step> | Alive(more, s) :: FinishesReset(Run(w, more), s) ==> LeavesNoKey(Run(w, more).records)
  }

  /** A row leaves quarantine only into a new generation, and keeps its device until then. */
  lemma QuarantineIsSticky(w: World, step: Step)
    requires w.records.row.status.Quarantined?
    ensures
      var row := Next(w, step).records.row;
      row.generation > w.records.row.generation
      || (row.status.Quarantined? && row.device == w.records.row.device && row.generation == w.records.row.generation)
  {
    hide Answer, Synchronize, Operate, RecordCapability, Invalidate;
    match step
    case SyncOwn(s, budget, lost) =>
      if s in w.sessions && DeviceOf(w.sessions[s]).Some? {
        SynchronizeSameRow(w.records, DeviceOf(w.sessions[s]).value, budget, lost);
      }
    case SyncAny(d, budget, lost) => SynchronizeSameRow(w.records, d, budget, lost);
    case DoGreet(_, capability, _) => CapabilityOnly(w.records, capability);
    case DoAnswer(s, host) =>
      if s in w.sessions && w.sessions[s].Bootstrapping? {
        NoAnswerInQuarantine(w.records, w.sessions[s].device, host);
      }
    case DoOperate(_, q) => NoOperationInQuarantine(w.records, q);
    case DoQuarantine => InvalidatedIfSome(w.records.row);
    case DoFinishReset(s) =>
      if s in w.sessions && w.sessions[s].Resetting? {
        InvalidatedIfSome(ResetRow(w.records.row, w.sessions[s].generation));
      }
    case _ =>
  }

  function ResetRow(row: Controller, generation: nat): Controller
  {
    row.(generation := generation + 1, device := None, status := Ready, accessRevoked := false)
  }

  lemma InvalidatedIfSome(c: Controller)
    ensures Invalidate(c).Some?
      ==> c.revision < LIMIT && Invalidate(c).value == c.(revision := c.revision + 1, grant := None)
  {
  }

  lemma CapabilityOnly(r: Records, capability: Capability)
    ensures
      RecordCapability(r, capability).Some? ==>
        var row := RecordCapability(r, capability).value.row;
        row == r.row.(capability := capability, revision := row.revision, grant := row.grant)
  {
  }

  lemma NoAnswerInQuarantine(r: Records, d: nat, host: bool)
    requires r.row.status.Quarantined?
    ensures Answer(r, d, host) == Some((r, None))
  {
  }

  lemma NoOperationInQuarantine(r: Records, q: Access.Request)
    requires r.row.status.Quarantined?
    ensures Operate(r, q).None?
  {
  }

  lemma {:induction false} QuarantineLasts(w: World, more: seq<Step>)
    requires w.records.row.status.Quarantined?
    ensures
      var row := Run(w, more).records.row;
      row.generation > w.records.row.generation
      || (row.status.Quarantined? && row.device == w.records.row.device && row.generation == w.records.row.generation)
  {
    hide Next;
    if more != [] {
      var n := |more| - 1;
      QuarantineLasts(w, more[..n]);
      var v := Run(w, more[..n]);
      if v.records.row.generation == w.records.row.generation {
        QuarantineIsSticky(v, more[n]);
      } else {
        GenerationGrows(v, more[n]);
      }
    }
  }

  lemma GenerationGrows(w: World, step: Step)
    ensures w.records.row.generation <= Next(w, step).records.row.generation
  {
    if w.records.row.generation != Next(w, step).records.row.generation {
      OnlyEndingsAdvance(w, step);
    }
  }

  /** Only a quarantine, which costs a control number, leads into quarantine. */
  lemma QuarantineCosts(w: World, step: Step)
    requires !w.records.row.status.Quarantined? && Next(w, step).records.row.status.Quarantined?
    ensures Next(w, step).records.row.revision == w.records.row.revision + 1
  {
    hide Greet, Answer, Operate, Synchronize, Invalidate;
    match step
    case SyncOwn(s, budget, lost) =>
      if s in w.sessions && DeviceOf(w.sessions[s]).Some? {
        SynchronizeSameRow(w.records, DeviceOf(w.sessions[s]).value, budget, lost);
      }
    case SyncAny(d, budget, lost) => SynchronizeSameRow(w.records, d, budget, lost);
    case DoGreet(_, capability, sameNetwork) => GreetNoQuarantine(w.records, capability, sameNetwork);
    case DoAnswer(s, host) =>
      if s in w.sessions && w.sessions[s].Bootstrapping? { AnswerNoQuarantine(w.records, w.sessions[s].device, host); }
    case DoOperate(_, q) => OperateNoQuarantine(w.records, q);
    case DoFinishReset(s) =>
      if s in w.sessions && w.sessions[s].Resetting? {
        InvalidatedIfSome(ResetRow(w.records.row, w.sessions[s].generation));
      }
    case _ => InvalidatedIfSome(w.records.row);
  }

  lemma GreetNoQuarantine(r: Records, capability: Capability, sameNetwork: bool)
    ensures Greet(r, capability, sameNetwork).0.row.status == r.row.status
  {
  }

  lemma AnswerNoQuarantine(r: Records, d: nat, host: bool)
    ensures Answer(r, d, host).Some? ==> Answer(r, d, host).value.0.row.status == r.row.status
  {
  }

  lemma OperateNoQuarantine(r: Records, q: Access.Request)
    ensures Operate(r, q).Some?
      ==> Operate(r, q).value.row.status == r.row.status || Operate(r, q).value.row.status.Releasing?
  {
  }

  lemma {:induction false} LaterQuarantineCosts(w: World, more: seq<Step>)
    requires Inv(w) && !w.records.row.status.Quarantined?
    ensures
      var row := Run(w, more).records.row;
      row.generation == w.records.row.generation && row.status.Quarantined? ==>
        w.records.row.revision + 1 <= row.revision
  {
    hide Inv, Next, Grows;
    if more != [] {
      var n := |more| - 1;
      var v := Run(w, more[..n]);
      LaterQuarantineCosts(w, more[..n]);
      RunKeeps(w, more[..n]);
      NextKeeps(v, more[n]);
      NumbersGrow(w.records, v.records);
      NumbersGrow(v.records, Next(v, more[n]).records);
      if !v.records.row.status.Quarantined? && Next(v, more[n]).records.row.status.Quarantined? {
        QuarantineCosts(v, more[n]);
      }
    }
  }

  lemma NumbersGrow(r: Records, s: Records)
    requires Grows(r, s)
    ensures r.row.revision <= s.row.revision && r.row.generation <= s.row.generation
  {
  }

  /** A living reset session keeps what it saw. */
  lemma ResettingStays(w: World, step: Step, s: nat)
    requires s in w.sessions && w.sessions[s].Resetting? && step != Crash(s) && step != DoFinishReset(s)
    ensures
      var sessions := Next(w, step).sessions;
      s in sessions && sessions[s].Resetting? && sessions[s].was == w.sessions[s].was
        && sessions[s].generation == w.sessions[s].generation
  {
    hide Claim, AddDrive, Configure, Replace, Commission, Greet, Answer, Operate;
    hide FinishRelease, StartReset, FinishReset, Quarantine, Synchronize;
  }

  lemma {:induction false} SessionLasts(w: World, more: seq<Step>, s: nat)
    requires s in w.sessions && w.sessions[s].Resetting? && Alive(more, s)
    ensures
      var sessions := Run(w, more).sessions;
      s in sessions && sessions[s].Resetting? && sessions[s].was == w.sessions[s].was
        && sessions[s].generation == w.sessions[s].generation
  {
    hide Next;
    if more != [] {
      var n := |more| - 1;
      assert Alive(more[..n], s);
      SessionLasts(w, more[..n], s);
      ResettingStays(Run(w, more[..n]), more[n], s);
    }
  }

  /** What finishing a reset needs. */
  lemma FinishNeeds(w: World, s: nat)
    requires FinishesReset(w, s) && s in w.sessions && w.sessions[s].Resetting?
    ensures w.sessions[s].synced && w.sessions[s].generation == w.records.row.generation
    ensures w.records.row.revision < LIMIT
    ensures w.records.row.status.Ready? || w.records.row.status.Quarantined?
  {
  }

  lemma SafeInQuarantine(w: World, s: nat, more: seq<Step>)
    requires Inv(w) && w.records.row.status.Quarantined? && Alive(more, s)
    requires s in w.sessions && w.sessions[s].Resetting? && w.sessions[s].was == w.records.row.device
    requires w.sessions[s].generation == w.records.row.generation
    requires FinishesReset(Run(w, more), s)
    ensures LeavesNoKey(Run(w, more).records)
  {
    hide Next, RecordsOk, Grows, ReplyOk, ReleasedOk;
    var v := Run(w, more);
    SessionLasts(w, more, s);
    FinishNeeds(v, s);
    QuarantineLasts(w, more);
    RunKeeps(w, more);
    if v.records.row.device.Some? {
      assert SessionOk(v.records, v.sessions[s]);
      ConfirmedMeansOff(v.records, v.records.row.device.value);
    }
  }

  lemma SafeNearTheLimit(w: World, s: nat, more: seq<Step>)
    requires Inv(w) && w.records.row.status.Ready? && w.records.row.revision + 2 > LIMIT && Alive(more, s)
    requires s in w.sessions && w.sessions[s].Resetting? && w.sessions[s].generation == w.records.row.generation
    requires FinishesReset(Run(w, more), s)
    ensures LeavesNoKey(Run(w, more).records)
  {
    hide Inv, Next;
    SessionLasts(w, more, s);
    FinishNeeds(Run(w, more), s);
    LaterQuarantineCosts(w, more);
    RunKeeps(w, more);
    RecordsOf(Run(w, more));
    ReadyIsFree(Run(w, more).records);
  }

  // ---------------------------------------------------------------- and when it is not

  /** A claim, a bootstrap whose key reaches the broker, and a quarantine that does not. */
  function Between(d: nat, t: nat): seq<Step>
  {
    [DoClaim(d), DoGreet(t, CanRead, true), SyncOwn(t, 6, false), DoQuarantine]
  }

  lemma FourSteps(w: World, a: Step, b: Step, c: Step, e: Step)
    ensures Run(w, [a, b, c, e]) == Next(Next(Next(Next(w, a), b), c), e)
  {
    hide Next;
    var all := [a, b, c, e];
    assert all[..3] == [a, b, c] && all[..3][..2] == [a, b] && all[..3][..2][..1] == [a]
      && all[..3][..2][..1][..0] == [];
    assert Run(w, all[..3][..2][..1][..0]) == w;
    assert Run(w, all[..3][..2][..1]) == Next(w, a);
    assert Run(w, all[..3][..2]) == Next(Next(w, a), b);
    assert Run(w, all[..3]) == Next(Next(Next(w, a), b), c);
  }

  lemma ClaimAndGreet(w: World, d: nat, t: nat)
    requires RecordsOk(w.records) && w.records.row.status.Ready? && d !in w.records.devices && t !in w.sessions
    ensures
      var r := w.records;
      var v := Next(Next(w, DoClaim(d)), DoGreet(t, CanRead, true));
      && v.sessions == w.sessions[t := Bootstrapping(d, false)] && v.records.broker == r.broker
      && v.records.row.status.Claimed? && v.records.row.device == Some(d) && v.records.row.revision == r.row.revision
      && v.records.row.generation == r.row.generation
      && d in v.records.credentials && !v.records.credentials[d].revoked
      && v.records.credentials[d].applied < v.records.credentials[d].revision
  {
    hide BrokerOk, ConfigsOk, Supports;
    GrantNeedsDevice(w.records);
    ReadyIsFree(w.records);
  }

  lemma SyncOpens(w: World, d: nat, t: nat)
    requires t in w.sessions && w.sessions[t] == Bootstrapping(d, false)
    requires d in w.records.credentials && !w.records.credentials[d].revoked
    requires w.records.credentials[d].applied != w.records.credentials[d].revision
    ensures
      var v := Next(w, SyncOwn(t, 6, false));
      && v.records.row == w.records.row && v.sessions == w.sessions[t := Bootstrapping(d, true)]
      && d in v.records.credentials && !v.records.credentials[d].revoked && !AccountOff(v.records.broker, d)
  {
    hide Execute;
    var c := w.records.credentials[d];
    FullApplySettles(w.records.broker, d, c.revision, c.revoked, 6, false);
  }

  lemma QuarantineLeavesOpen(w: World, d: nat)
    requires w.records.row.device == Some(d) && w.records.row.revision < LIMIT
    requires d in w.records.credentials && !w.records.credentials[d].revoked
    requires w.records.credentials[d].applied <= w.records.credentials[d].revision
    requires w.records.credentials[d].revision <= w.records.row.credentialRevision
    ensures
      var v := Next(w, DoQuarantine);
      && v.sessions == w.sessions && v.records.broker == w.records.broker && v.records.row.status.Quarantined?
      && v.records.row.device == Some(d) && v.records.row.generation == w.records.row.generation
      && v.records.row.revision == w.records.row.revision + 1 && !ConfirmedOff(v.records, d)
  {
  }

  lemma KeyIsNumbered(r: Records, d: nat)
    requires RecordsOk(r) && d in r.credentials
    ensures r.credentials[d].applied <= r.credentials[d].revision <= r.row.credentialRevision
  {
  }

  /** From any ready row with two control numbers left: a reset that began there can start a new
      generation while the key of a device it never saw still opens the account. */
  lemma ResetCanLeaveAKeyOpen(w: World, s: nat, d: nat, t: nat)
    requires Inv(w) && w.records.row.status.Ready? && w.records.row.revision + 2 <= LIMIT
    requires s in w.sessions && w.sessions[s] == Resetting(None, w.records.row.generation, true)
    requires d !in w.records.devices && t !in w.sessions
    ensures
      var v := Run(w, Between(d, t));
      FinishesReset(v, s) && v.records.row.device == Some(d) && !ConfirmedOff(v.records, d)
        && !AccountOff(v.records.broker, d)
  {
    hide Inv, Next, RecordsOk, Grows, ConfirmedOff, AccountOff, FinishesReset;
    FourSteps(w, DoClaim(d), DoGreet(t, CanRead, true), SyncOwn(t, 6, false), DoQuarantine);
    RecordsOf(w);
    ClaimAndGreet(w, d, t);
    var a := Next(w, DoClaim(d));
    var b := Next(a, DoGreet(t, CanRead, true));
    SyncOpens(b, d, t);
    var c := Next(b, SyncOwn(t, 6, false));
    NextKeeps(w, DoClaim(d));
    NextKeeps(a, DoGreet(t, CanRead, true));
    NextKeeps(b, SyncOwn(t, 6, false));
    RecordsOf(c);
    KeyIsNumbered(c.records, d);
    QuarantineLeavesOpen(c, d);
    CanFinish(Next(c, DoQuarantine), s);
  }

  lemma CanFinish(w: World, s: nat)
    requires s in w.sessions && w.sessions[s].Resetting?
    requires w.sessions[s] == Resetting(w.sessions[s].was, w.records.row.generation, true)
    requires w.records.row.status.Quarantined? && w.records.row.revision < LIMIT
    ensures FinishesReset(w, s)
  {
  }

  lemma {:induction false} SomeNumberIsNew(used: set<nat>) returns (n: nat)
    ensures n !in used && forall m | m in used :: m < n
  {
    if used == {} {
      n := 0;
    } else {
      var m :| m in used;
      var k := SomeNumberIsNew(used - {m});
      n := if m < k then k else m + 1;
      forall i | i in used ensures i < n {
        if i != m { assert i in used - {m}; }
      }
    }
  }

  /** Exactly when a factory reset is safe, for every reachable state in which it may begin: if the
      row is already in quarantine, or has no two control numbers left. A caller can see that
      before the call; for any other row there is a continuation that leaves a key open. */
  lemma ResetSafety(steps: seq<Step>, s: nat, generation: nat)
    requires s !in Run(FACTORY, steps).sessions && MayReset(Run(FACTORY, steps).records, generation)
    ensures
      var w := Run(FACTORY, steps);
      ResetIsSafe(Next(w, DoStartReset(s, generation)), s)
      <==> w.records.row.status.Quarantined? || w.records.row.revision + 2 > LIMIT
  {
    hide Inv, FinishesReset, LeavesNoKey, RecordsOk, Grows, Run;
    var w := Run(FACTORY, steps);
    Reachable(steps);
    RecordsOf(w);
    NextKeeps(w, DoStartReset(s, generation));
    var v := Next(w, DoStartReset(s, generation));
    ResetBegins(w, s, generation);
    if w.records.row.status.Quarantined? {
      forall more: seq<Step> | Alive(more, s) && FinishesReset(Run(v, more), s)
        ensures LeavesNoKey(Run(v, more).records)
      {
        SafeInQuarantine(v, s, more);
      }
    } else if w.records.row.revision + 2 > LIMIT {
      forall more: seq<Step> | Alive(more, s) && FinishesReset(Run(v, more), s)
        ensures LeavesNoKey(Run(v, more).records)
      {
        SafeNearTheLimit(v, s, more);
      }
    } else {
      var d := SomeNumberIsNew(v.records.devices.Keys);
      var t := SomeNumberIsNew(v.sessions.Keys);
      ResetCanLeaveAKeyOpen(v, s, d, t);
      assert Alive(Between(d, t), s);
      assert !LeavesNoKey(Run(v, Between(d, t)).records) by { OpenKeyStays(Run(v, Between(d, t)).records, d); }
    }
  }

  lemma OpenKeyStays(r: Records, d: nat)
    requires r.row.device == Some(d) && !ConfirmedOff(r, d)
    ensures !LeavesNoKey(r)
  {
  }

  lemma ResetBegins(w: World, s: nat, generation: nat)
    requires RecordsOk(w.records) && s !in w.sessions && MayReset(w.records, generation)
    ensures
      var v := Next(w, DoStartReset(s, generation));
      && v.records.row == w.records.row.(accessRevoked := v.records.row.accessRevoked,
        credentialRevision := v.records.row.credentialRevision)
      && s in v.sessions && v.sessions[s] == Resetting(v.records.row.device, generation, v.records.row.device.None?)
      && (w.records.row.status.Ready? ==> v.records.row.device.None?)
  {
    ReadyOrHeld(w.records);
    hide RecordsOk;
  }

  lemma ReadyOrHeld(r: Records)
    requires RecordsOk(r)
    ensures r.row.status.Ready? ==> r.row.device.None?
  {
  }
}
