/** Equipment and commands together: the records of one controller and the delivery of commands run
    interleaved, and both transactions of a command look at the configuration in force. */
module Bindings {
  import opened Access
  import opened AccessRuns
  import opened Options
  import C = Commands
  import D = Delivery

  datatype Joint = Joint(access: World, delivery: D.World)

  const START := Joint(FACTORY, D.EMPTY)

  /** `confirmed` says whether the controller confirms its configuration at that moment. */
  datatype Turn = OfAccess(step: Step) | OfDelivery(move: D.Move, confirmed: bool)

  function ConfigsOf(j: Joint, d: nat): seq<Config>
    requires d in j.access.records.devices
  {
    j.access.records.devices[d].configs
  }

  function Latest(configs: seq<Config>): Option<C.Target>
  {
    if configs == [] then None else Some(TargetOf(configs[|configs| - 1]))
  }

  /** What the equipment has to say about a move of the command service: the target a new command
      must name, and whether an attempt is refused. Devices that were never claimed here may have
      any target. */
  function Checked(j: Joint, m: D.Move, confirmed: bool): D.Move
  {
    var rows, devices := j.delivery.store.rows, j.access.records.devices;
    if m.Register? && m.request.device in devices then
      var latest := Latest(ConfigsOf(j, m.request.device));
      m.(binding := if confirmed && latest.Some? then Some(latest) else None)
    else if m.Begin? && m.rejection.None? && m.id in rows && rows[m.id].device in devices then
      var latest := Latest(ConfigsOf(j, rows[m.id].device));
      m.(rejection := EquipmentRejection(rows[m.id].target, latest, confirmed && latest.Some?))
    else m
  }

  /** For a claimed device a new command must name the confirmed latest configuration, and an attempt goes
      through exactly if nothing else refuses it and the command is bound to that configuration. */
  lemma CheckedMeans(j: Joint, m: D.Move, confirmed: bool)
    ensures
      var devices, rows := j.access.records.devices, j.delivery.store.rows;
      && (m.Register? && m.request.device in devices ==>
            var latest := Latest(ConfigsOf(j, m.request.device));
            && Checked(j, m, confirmed).Register? && Checked(j, m, confirmed).request == m.request
            && (Checked(j, m, confirmed).binding.Some? <==> confirmed && latest.Some?)
            && (Checked(j, m, confirmed).binding.Some? ==> Checked(j, m, confirmed).binding.value == latest))
      && (m.Begin? && m.id in rows && rows[m.id].device in devices ==>
            var latest := Latest(ConfigsOf(j, rows[m.id].device));
            && Checked(j, m, confirmed).Begin? && Checked(j, m, confirmed).id == m.id
            && (m.rejection.Some? ==> Checked(j, m, confirmed) == m)
            && (Checked(j, m, confirmed).rejection.None? <==>
                  m.rejection.None? && confirmed && latest.Some? && rows[m.id].target == latest))
      && (!m.Register? && !m.Begin? ==> Checked(j, m, confirmed) == m)
  {
  }

  /** A claim makes a new device, for which no command has been filed. */
  predicate ClaimsUnused(j: Joint, step: Step)
  {
    var rows := j.delivery.store.rows;
    forall id | id in rows && rows[id].device in Next(j.access, step).records.devices ::
      rows[id].device in j.access.records.devices
  }

  function Take(cfg: C.Config, j: Joint, t: Turn): Joint
  {
    match t
    case OfAccess(step) => if ClaimsUnused(j, step) then j.(access := Next(j.access, step)) else j
    case OfDelivery(move, confirmed) => j.(delivery := D.Next(cfg, j.delivery, Checked(j, move, confirmed)))
  }

  function After(cfg: C.Config, j: Joint, turns: seq<Turn>): Joint
  {
    if turns == [] then j else Take(cfg, After(cfg, j, turns[..|turns| - 1]), turns[|turns| - 1])
  }

  // ---------------------------------------------------------------- the invariant

  ghost predicate BoundTo(configs: seq<Config>, target: Option<C.Target>)
  {
    exists i | 0 <= i < |configs| :: target == Some(TargetOf(configs[i]))
  }

  /** Every command of a claimed device is bound to one of its configurations. */
  ghost predicate AllBound(j: Joint)
  {
    var rows := j.delivery.store.rows;
    forall id | id in rows && rows[id].device in j.access.records.devices ::
      BoundTo(ConfigsOf(j, rows[id].device), rows[id].target)
  }

  ghost predicate JointInv(cfg: C.Config, j: Joint)
  {
    Inv(j.access) && D.Inv(cfg, j.delivery) && AllBound(j)
  }

  /** How the two may develop together. */
  ghost predicate Develops(j: Joint, k: Joint)
  {
    && (forall d | d in j.access.records.devices ::
          d in k.access.records.devices && ConfigsOf(j, d) <= ConfigsOf(k, d))
    && (forall id | id in j.delivery.store.rows ::
          id in k.delivery.store.rows && C.Progress(j.delivery.store.rows[id], k.delivery.store.rows[id]))
  }

  lemma BoundGrows(a: seq<Config>, b: seq<Config>, target: Option<C.Target>)
    requires a <= b && BoundTo(a, target)
    ensures BoundTo(b, target)
  {
    var i :| 0 <= i < |a| && target == Some(TargetOf(a[i]));
    assert b[i] == a[i];
  }

  lemma AccessTurnKeeps(cfg: C.Config, j: Joint, step: Step)
    requires JointInv(cfg, j) && ClaimsUnused(j, step)
    ensures
      var k := j.(access := Next(j.access, step));
      JointInv(cfg, k) && Develops(j, k)
  {
    hide Inv, Next, D.Inv, BoundTo, C.Progress;
    NextKeeps(j.access, step);
    var k := j.(access := Next(j.access, step));
    var rows := j.delivery.store.rows;
    forall id | id in rows ensures C.Progress(rows[id], rows[id]) { ProgressItself(rows[id]); }
    forall id | id in rows && rows[id].device in k.access.records.devices
      ensures BoundTo(ConfigsOf(k, rows[id].device), rows[id].target)
    {
      BoundGrows(ConfigsOf(j, rows[id].device), ConfigsOf(k, rows[id].device), rows[id].target);
    }
  }

  lemma ProgressItself(c: C.Row)
    ensures C.Progress(c, c)
  {
  }

  lemma DeliveryTurnKeeps(cfg: C.Config, j: Joint, move: D.Move, confirmed: bool)
    requires C.ValidConfig(cfg) && JointInv(cfg, j)
    ensures
      var k := Take(cfg, j, OfDelivery(move, confirmed));
      JointInv(cfg, k) && Develops(j, k)
  {
    hide Inv, D.Inv, D.Next, Checked, BoundTo, C.Progress;
    var m := Checked(j, move, confirmed);
    D.NextKeeps(cfg, j.delivery, m);
    var rows, after := j.delivery.store.rows, D.Next(cfg, j.delivery, m).store.rows;
    forall id | id in after && after[id].device in j.access.records.devices
      ensures BoundTo(ConfigsOf(j, after[id].device), after[id].target)
    {
      if id in rows {
        Unchanged(rows[id], after[id]);
      } else {
        NewCommandIsBound(cfg, j, move, confirmed, id);
      }
    }
  }

  lemma Unchanged(a: C.Row, b: C.Row)
    requires C.Progress(a, b)
    ensures a.device == b.device && a.target == b.target
  {
  }

  lemma NewCommandIsBound(cfg: C.Config, j: Joint, move: D.Move, confirmed: bool, id: nat)
    requires
      var after := D.Next(cfg, j.delivery, Checked(j, move, confirmed)).store.rows;
      id !in j.delivery.store.rows && id in after && after[id].device in j.access.records.devices
    ensures
      var c := D.Next(cfg, j.delivery, Checked(j, move, confirmed)).store.rows[id];
      BoundTo(ConfigsOf(j, c.device), c.target)
  {
    hide D.Next, C.Create, C.SupersedingStop;
    var m := Checked(j, move, confirmed);
    D.NewRowsAreRegistered(cfg, j.delivery, m, id);
    RegisterIsCreate(cfg, j.delivery, m);
    CreatedIsBound(j.delivery.store, m, id);
    var configs := ConfigsOf(j, m.request.device);
    assert m.binding == Some(Latest(configs)) && configs[|configs| - 1] in configs;
  }

  lemma RegisterIsCreate(cfg: C.Config, w: D.World, m: D.Move)
    requires m.Register?
    ensures
      var t := D.Next(cfg, w, m).store;
      t == w.store || t == C.Create(w.store, m.id, m.request, m.createdAt, m.unavailable, m.refused, m.binding).0
  {
    hide C.Create;
  }

  lemma CreatedIsBound(s: C.Store, m: D.Move, id: nat)
    requires m.Register? && id == m.id && id !in s.rows
    requires id in C.Create(s, m.id, m.request, m.createdAt, m.unavailable, m.refused, m.binding).0.rows
    ensures
      var c := C.Create(s, m.id, m.request, m.createdAt, m.unavailable, m.refused, m.binding).0.rows[id];
      c.target == m.request.target && c.device == m.request.device && m.binding == Some(c.target)
  {
    hide C.SupersedingStop, C.StopPending, C.MatchesRequest;
  }

  lemma TurnKeeps(cfg: C.Config, j: Joint, t: Turn)
    requires C.ValidConfig(cfg) && JointInv(cfg, j)
    ensures JointInv(cfg, Take(cfg, j, t)) && Develops(j, Take(cfg, j, t))
  {
    hide JointInv, Develops, ClaimsUnused, D.Next, Next;
    match t
    case OfAccess(step) => if ClaimsUnused(j, step) { AccessTurnKeeps(cfg, j, step); } else { DevelopsItself(j); }
    case OfDelivery(move, confirmed) => DeliveryTurnKeeps(cfg, j, move, confirmed);
  }

  lemma DevelopsItself(j: Joint)
    ensures Develops(j, j)
  {
    forall id | id in j.delivery.store.rows ensures C.Progress(j.delivery.store.rows[id], j.delivery.store.rows[id]) {
      ProgressItself(j.delivery.store.rows[id]);
    }
  }

  lemma DevelopsOn(j: Joint, k: Joint, l: Joint)
    requires Develops(j, k) && Develops(k, l)
    ensures Develops(j, l)
  {
    hide C.Progress;
    forall id | id in j.delivery.store.rows ensures C.Progress(j.delivery.store.rows[id], l.delivery.store.rows[id]) {
      C.ProgressIsTransitive(j.delivery.store.rows[id], k.delivery.store.rows[id], l.delivery.store.rows[id]);
    }
  }

  /** Whatever the interleaving, every command stays bound to a configuration of its device, and
      both halves keep all they promise alone. */
  lemma {:induction false} JointRunKeeps(cfg: C.Config, j: Joint, turns: seq<Turn>)
    requires C.ValidConfig(cfg) && JointInv(cfg, j)
    ensures JointInv(cfg, After(cfg, j, turns)) && Develops(j, After(cfg, j, turns))
  {
    hide JointInv, Develops, Take;
    if turns == [] {
      DevelopsItself(j);
    } else {
      var before := turns[..|turns| - 1];
      JointRunKeeps(cfg, j, before);
      TurnKeeps(cfg, After(cfg, j, before), turns[|turns| - 1]);
      DevelopsOn(j, After(cfg, j, before), After(cfg, j, turns));
    }
  }

  lemma StartIsOk(cfg: C.Config)
    requires C.ValidConfig(cfg)
    ensures JointInv(cfg, START)
  {
    hide Inv, D.Inv;
    Reachable([]);
    D.RunKeeps(cfg, []);
  }

  // ---------------------------------------------------------------- superseded commands

  /** The command is bound to a configuration that is not the latest. */
  predicate Superseded(j: Joint, id: nat)
  {
    var rows := j.delivery.store.rows;
    && id in rows && rows[id].device in j.access.records.devices
    && Latest(ConfigsOf(j, rows[id].device)) != rows[id].target
  }

  /** No attempt and no envelope of this command in `k` that was not there in `j`. */
  ghost predicate NothingNew(j: Joint, k: Joint, id: nat)
    requires id in j.delivery.store.rows
  {
    && id in k.delivery.store.rows && k.delivery.store.rows[id].attempts == j.delivery.store.rows[id].attempts
    && forall e | e in k.delivery.launched && e.id == id :: e in j.delivery.launched
  }

  /** Only a dispatch that is not refused makes an attempt. */
  lemma OnlyDispatchAttempts(cfg: C.Config, w: D.World, m: D.Move, id: nat)
    requires id in w.store.rows && (m.Begin? && m.id == id ==> m.rejection.Some?)
    ensures
      var v := D.Next(cfg, w, m);
      && id in v.store.rows && v.store.rows[id].attempts == w.store.rows[id].attempts
      && forall e | e in v.launched && e.id == id :: e in w.launched
  {
    hide D.Next;
    if m.Register? {
      RegisterAttemptsNothing(cfg, w, m, id);
    } else if m.Begin? {
      BeginAttemptsNothing(cfg, w, m, id);
    } else if Answering(m) {
      AnswersAttemptNothing(cfg, w, m, id);
    } else {
      OthersAttemptNothing(cfg, w, m, id);
    }
  }

  lemma RegisterAttemptsNothing(cfg: C.Config, w: D.World, m: D.Move, id: nat)
    requires id in w.store.rows && m.Register?
    ensures
      var v := D.Next(cfg, w, m);
      && id in v.store.rows && v.store.rows[id].attempts == w.store.rows[id].attempts
      && forall e | e in v.launched && e.id == id :: e in w.launched
  {
    hide C.Create;
    if m.id !in w.store.rows { CreateAttemptsNothing(w.store, m, id); }
  }

  lemma BeginAttemptsNothing(cfg: C.Config, w: D.World, m: D.Move, id: nat)
    requires id in w.store.rows && m.Begin? && (m.id == id ==> m.rejection.Some?)
    ensures
      var v := D.Next(cfg, w, m);
      && id in v.store.rows && v.store.rows[id].attempts == w.store.rows[id].attempts
      && forall e | e in v.launched && e.id == id :: e in w.launched
  {
    hide C.BeginDispatch;
    if m.id == id { RefusedIsNotSent(cfg, w.store.rows[id], w.now, m.allowRetry, m.rejection, m.online); }
  }

  predicate Answering(m: D.Move) { m.ReceiveAck? || m.ReceiveResult? || m.ForeignAck? || m.ForeignResult? }

  lemma AnswersAttemptNothing(cfg: C.Config, w: D.World, m: D.Move, id: nat)
    requires id in w.store.rows && Answering(m)
    ensures
      var v := D.Next(cfg, w, m);
      && id in v.store.rows && v.store.rows[id].attempts == w.store.rows[id].attempts
      && forall e | e in v.launched && e.id == id :: e in w.launched
  {
    hide D.AckFrom, D.ResultFrom;
    match m
    case ReceiveAck(i) => AckAttemptsNothing(cfg, w.store, D.PUMP, i, w.now, id);
    case ForeignAck(device, i) => AckAttemptsNothing(cfg, w.store, device, i, w.now, id);
    case ReceiveResult(i, v) => ResultAttemptsNothing(cfg, w.store, D.PUMP, i, v, w.now, id);
    case ForeignResult(device, i, v) => ResultAttemptsNothing(cfg, w.store, device, i, v, w.now, id);
  }

  lemma AckAttemptsNothing(cfg: C.Config, s: C.Store, device: nat, i: nat, now: int, id: nat)
    requires id in s.rows
    ensures
      var rows := D.AckFrom(cfg, s, device, i, now).rows;
      id in rows && rows[id].attempts == s.rows[id].attempts
  {
    hide C.Acknowledge;
    RepliesAttemptNothing(cfg, s.rows[id]);
  }

  lemma ResultAttemptsNothing(cfg: C.Config, s: C.Store, device: nat, i: nat, v: C.Verdict, now: int, id: nat)
    requires id in s.rows
    ensures
      var rows := D.ResultFrom(s, device, i, v, now).rows;
      id in rows && rows[id].attempts == s.rows[id].attempts
  {
    hide C.Complete;
    RepliesAttemptNothing(cfg, s.rows[id]);
  }

  lemma OthersAttemptNothing(cfg: C.Config, w: D.World, m: D.Move, id: nat)
    requires id in w.store.rows && !m.Register? && !m.Begin? && !Answering(m)
    ensures
      var v := D.Next(cfg, w, m);
      && id in v.store.rows && v.store.rows[id].attempts == w.store.rows[id].attempts
      && forall e | e in v.launched && e.id == id :: e in w.launched
  {
    hide C.FinishDispatch;
    RepliesAttemptNothing(cfg, w.store.rows[id]);
  }

  lemma CreateAttemptsNothing(s: C.Store, m: D.Move, id: nat)
    requires m.Register? && m.id !in s.rows && id in s.rows
    ensures
      var t := C.Create(s, m.id, m.request, m.createdAt, m.unavailable, m.refused, m.binding).0;
      id in t.rows && t.rows[id].attempts == s.rows[id].attempts
  {
    hide C.SupersedingStop, C.MatchesRequest, C.FirstRow;
  }

  lemma RepliesAttemptNothing(cfg: C.Config, c: C.Row)
    ensures forall now: int :: C.Acknowledge(cfg, c, now).0.attempts == c.attempts
    ensures forall v: C.Verdict, now: int :: C.Complete(c, v, now).0.attempts == c.attempts
    ensures forall n: nat, failure: Option<nat> :: C.FinishDispatch(c, n, failure).attempts == c.attempts
  {
  }

  lemma LatestIsAhead(a: seq<Config>, b: seq<Config>, target: Option<C.Target>)
    requires a <= b && Gapless(b) && BoundTo(a, target) && Latest(a) != target
    ensures Latest(b) != target && target.Some?
  {
    var i :| 0 <= i < |a| && target == Some(TargetOf(a[i]));
    assert i < |a| - 1;
    assert b[i] == a[i] && b[i].revision == i + 1 && b[|b| - 1].revision == |b|;
  }

  /** Once superseded, superseded for good. */
  lemma StaysSuperseded(cfg: C.Config, j: Joint, k: Joint, id: nat)
    requires JointInv(cfg, j) && JointInv(cfg, k) && Develops(j, k) && Superseded(j, id)
    ensures Superseded(k, id)
  {
    hide D.Inv, C.Progress, BoundTo, Latest, Gapless;
    var c := j.delivery.store.rows[id];
    Unchanged(c, k.delivery.store.rows[id]);
    ConfigsGapless(k, c.device);
    LatestIsAhead(ConfigsOf(j, c.device), ConfigsOf(k, c.device), c.target);
  }

  lemma ConfigsGapless(j: Joint, d: nat)
    requires Inv(j.access) && d in j.access.records.devices
    ensures Gapless(ConfigsOf(j, d))
  {
    GaplessOf(j.access.records, d);
  }

  /** Whoever dispatches it is refused. */
  lemma SupersededIsRefused(cfg: C.Config, j: Joint, t: Turn, id: nat)
    requires JointInv(cfg, j) && Superseded(j, id)
    ensures NothingNew(j, Take(cfg, j, t), id)
  {
    hide JointInv, D.Next, Next, ClaimsUnused, Latest;
    if t.OfDelivery? {
      var m := Checked(j, t.move, t.confirmed);
      assert m.Begin? && m.id == id ==> m.rejection.Some?;
      OnlyDispatchAttempts(cfg, j.delivery, m, id);
    }
  }

  lemma {:induction false} SupersededRun(cfg: C.Config, j: Joint, turns: seq<Turn>, id: nat)
    requires C.ValidConfig(cfg) && JointInv(cfg, j) && Superseded(j, id)
    ensures NothingNew(j, After(cfg, j, turns), id) && Superseded(After(cfg, j, turns), id)
  {
    hide JointInv, Latest, ConfigsOf, Develops, Take;
    if turns != [] {
      var before, t := turns[..|turns| - 1], turns[|turns| - 1];
      var k := After(cfg, j, before);
      SupersededRun(cfg, j, before, id);
      JointRunKeeps(cfg, j, before);
      TurnKeeps(cfg, k, t);
      StaysSuperseded(cfg, k, Take(cfg, k, t), id);
      SupersededIsRefused(cfg, k, t, id);
    }
  }

  /** In every run, a command whose configuration is no longer the latest is never attempted again:
      its attempts and its possible envelopes are what they are, whatever retries, dispatchers,
      restarts and access changes follow. */
  lemma SupersededIsFrozen(cfg: C.Config, turns: seq<Turn>, more: seq<Turn>, id: nat)
    requires C.ValidConfig(cfg) && Superseded(After(cfg, START, turns), id)
    ensures NothingNew(After(cfg, START, turns), After(cfg, After(cfg, START, turns), more), id)
  {
    hide JointInv, After, Superseded, NothingNew;
    StartIsOk(cfg);
    JointRunKeeps(cfg, START, turns);
    SupersededRun(cfg, After(cfg, START, turns), more, id);
  }

  /** So a new configuration ends the delivery of everything filed for the device before it. */
  lemma NewConfigurationEndsDelivery(cfg: C.Config, turns: seq<Turn>, change: seq<Turn>, more: seq<Turn>, id: nat)
    requires C.ValidConfig(cfg)
    requires
      var j, k := After(cfg, START, turns), After(cfg, After(cfg, START, turns), change);
      && id in j.delivery.store.rows && j.delivery.store.rows[id].device in j.access.records.devices
      && j.delivery.store.rows[id].device in k.access.records.devices
      && |ConfigsOf(j, j.delivery.store.rows[id].device)| < |ConfigsOf(k, j.delivery.store.rows[id].device)|
    ensures
      var k := After(cfg, After(cfg, START, turns), change);
      id in k.delivery.store.rows && NothingNew(k, After(cfg, k, more), id)
  {
    hide After, NothingNew, D.Inv, C.Progress, BoundTo, Gapless, Latest;
    var j, k := After(cfg, START, turns), After(cfg, After(cfg, START, turns), change);
    StartIsOk(cfg);
    JointRunKeeps(cfg, START, turns);
    JointRunKeeps(cfg, j, change);
    var c := j.delivery.store.rows[id];
    Unchanged(c, k.delivery.store.rows[id]);
    ConfigsGapless(k, c.device);
    OlderIsNotLatest(ConfigsOf(j, c.device), ConfigsOf(k, c.device), c.target);
    SupersededRun(cfg, k, more, id);
  }

  lemma OlderIsNotLatest(a: seq<Config>, b: seq<Config>, target: Option<C.Target>)
    requires a <= b && |a| < |b| && Gapless(b) && BoundTo(a, target)
    ensures Latest(b) != target
  {
    var i :| 0 <= i < |a| && target == Some(TargetOf(a[i]));
    assert b[i] == a[i] && b[i].revision == i + 1 && b[|b| - 1].revision == |b|;
  }
}
