/** The command services over row objects that are updated in place. Each transaction is proved
    to have exactly the effect its function on the table describes, on that row and no other. */
module CommandService {
  import opened Commands
  import opened Options
  import opened Plans

  /** A row object. What is fixed at creation is constant; the lifecycle fields change in place. */
  class DeviceCommand {
    const request: nat
    const device: nat
    const actor: nat
    const supersedes: Option<nat>
    const kind: Kind
    const sequence: nat
    const target: Option<Target>
    const ttl: nat
    const createdAt: int
    const expiresAt: int
    var status: Status
    var attempts: nat
    var publishedAt: Option<int>
    var lastAttemptAt: Option<int>
    var publishError: Option<nat>
    var acknowledgedAt: Option<int>
    var resultDeadlineAt: Option<int>
    var timedOutAt: Option<int>
    var completedAt: Option<int>
    var data: Data
    var error: Option<Code>

    constructor (r: Request, sequence: nat, createdAt: int)
      ensures Value() == NewRow(r, sequence, createdAt) && request == r.request
    {
      this.request, this.device, this.actor, this.supersedes, this.kind := r.request, r.device, r.actor, r.supersedes,
        r.kind;
      this.sequence, this.target, this.ttl, this.createdAt := sequence, r.target, r.ttl, createdAt;
      this.expiresAt := createdAt + r.ttl * SECOND;
      status, attempts, data := Queued, 0, NoData;
      publishedAt, lastAttemptAt, publishError, acknowledgedAt := None, None, None, None;
      resultDeadlineAt, timedOutAt, completedAt, error := None, None, None, None;
    }

    function Value(): Row
      reads this
    {
      Row(request, device, actor, supersedes, kind, sequence, target, ttl, createdAt, expiresAt,
          status, attempts, publishedAt, lastAttemptAt, publishError,
          acknowledgedAt, resultDeadlineAt, timedOutAt, completedAt, data, error)
    }

    method StopDelivery(now: int, code: Code, unsent: Status)
      modifies this
      ensures Value() == Commands.StopDelivery(old(Value()), now, code, unsent)
    {
      hide MaybeSent;
      var attempted := MaybeSent(Value());
      error := Some(code);
      if attempted {
        status, completedAt, timedOutAt := ResultUnknown, None, Some(now);
      } else {
        status, completedAt := unsent, Some(now);
      }
    }

    /** The first transaction of a dispatch. */
    method BeginDispatch(cfg: Config, now: int, allowRetry: bool, rejection: Option<nat>, online: bool)
      returns (step: DispatchStep)
      modifies this
      ensures (Value(), step) == Commands.BeginDispatch(cfg, old(Value()), now, allowRetry, rejection, online)
    {
      if status.Acknowledged? {
        if resultDeadlineAt.None? {
          var since := if acknowledgedAt.Some? then acknowledgedAt.value
            else if publishedAt.Some? then publishedAt.value else createdAt;
          resultDeadlineAt := Some(since + ResultTimeoutSeconds(cfg, Value()) * SECOND);
        }
        if resultDeadlineAt.value <= now {
          StopDelivery(now, ResultTimeout, Cancelled);
          return TimedOut;
        }
        return AwaitingResult;
      }
      if !status.Queued? && !status.Published? {
        return NotPending;
      }
      if status.Published? && !allowRetry {
        return AlreadyPublished;
      }
      if expiresAt <= now {
        StopDelivery(now, DeliveryExpired, Expired);
        return DeliveryOver;
      }
      if allowRetry && lastAttemptAt.Some? && now - lastAttemptAt.value < cfg.retryInterval * SECOND {
        return RetryNotDue;
      }
      if rejection.Some? {
        StopDelivery(now, Rejected(rejection.value), Cancelled);
        return Refused;
      }
      if !online {
        return DeviceOffline;
      }
      status := Published;
      attempts := attempts + 1;
      lastAttemptAt := Some(now);
      if publishedAt.None? {
        publishedAt := Some(now);
      }
      publishError := None;
      return Sending(attempts);
    }

    /** The second transaction, after the network call. */
    method FinishDispatch(attempt: nat, failure: Option<nat>)
      modifies this`publishError
      ensures Value() == Commands.FinishDispatch(old(Value()), attempt, failure)
    {
      if attempts == attempt {
        publishError := failure;
      }
    }

    method Acknowledge(cfg: Config, now: int) returns (reply: AckReply)
      modifies this
      ensures (Value(), reply) == Commands.Acknowledge(cfg, old(Value()), now)
    {
      if acknowledgedAt.Some? || status.Succeeded? || status.Failed? {
        return AlreadyAcknowledged;
      }
      var attempted := attempts > 0 || publishedAt.Some? || (status.ResultUnknown? && error == Some(UpgradeQuarantine));
      if !(status.Published? || status.ResultUnknown? || status.Expired?) || !attempted {
        return AckNotAllowed;
      }
      var late := expiresAt <= now || status.ResultUnknown? || status.Expired?;
      acknowledgedAt := Some(now);
      if late {
        if !status.ResultUnknown? {
          StopDelivery(now, LateAck, Cancelled);
        }
        return AcknowledgedLate;
      }
      status := Acknowledged;
      resultDeadlineAt := Some(now + ResultTimeoutSeconds(cfg, Value()) * SECOND);
      return AcknowledgedOnTime;
    }

    method Complete(v: Verdict, now: int) returns (reply: ResultReply)
      modifies this
      ensures (Value(), reply) == Commands.Complete(old(Value()), v, now)
    {
      if status.Succeeded? || status.Failed? {
        return if status == VerdictStatus(v) && data == v.data && error == v.error then AlreadyCompleted
          else ResultConflict;
      }
      var legacyAttempted := status.Expired? && (attempts > 0 || publishedAt.Some?);
      if !(status.Published? || status.Acknowledged? || status.ResultUnknown?) && !legacyAttempted {
        return ResultNotAllowed;
      }
      if acknowledgedAt.None? {
        acknowledgedAt := Some(now);
      }
      status := VerdictStatus(v);
      completedAt := Some(now);
      data := v.data;
      error := v.error;
      return Completed;
    }
  }

  /** The table of row objects with its unique request index and the device counters. */
  class CommandService {
    var rows: map<nat, DeviceCommand>
    var byRequest: map<nat, nat>
    var sequence: map<nat, nat>
    var lastStop: map<nat, int>

    constructor ()
      ensures Valid() && Table() == Store(map[], map[], map[], map[])
    {
      rows, byRequest, sequence, lastStop := map[], map[], map[], map[];
    }

    /** Different ids are different objects. */
    ghost predicate Valid()
      reads this`rows
    {
      forall i, j | i in rows && j in rows && i != j :: rows[i] != rows[j]
    }

    ghost function Rows(): map<nat, Row>
      reads this`rows, rows.Values
    {
      map i | i in rows :: rows[i].Value()
    }

    ghost function Table(): Store
      reads this, rows.Values
    {
      Store(Rows(), byRequest, sequence, lastStop)
    }

    method Dispatch(cfg: Config, id: nat, now: int, allowRetry: bool, rejection: Option<nat>, online: bool)
      returns (step: DispatchStep)
      requires Valid() && id in rows
      modifies rows[id]
      ensures Valid() && rows == old(rows)
      ensures
        var was := old(Table());
        var (c, s) := Commands.BeginDispatch(cfg, was.rows[id], now, allowRetry, rejection, online);
        Table() == was.(rows := was.rows[id := c]) && step == s
    {
      step := rows[id].BeginDispatch(cfg, now, allowRetry, rejection, online);
    }

    method FinishDispatch(id: nat, attempt: nat, failure: Option<nat>)
      requires Valid() && id in rows
      modifies rows[id]
      ensures Valid() && rows == old(rows)
      ensures
        var was := old(Table());
        Table() == was.(rows := was.rows[id := Commands.FinishDispatch(was.rows[id], attempt, failure)])
    {
      rows[id].FinishDispatch(attempt, failure);
    }

    method Acknowledge(cfg: Config, device: nat, id: nat, now: int) returns (reply: Option<AckReply>)
      requires Valid()
      modifies rows.Values
      ensures Valid() && rows == old(rows)
      ensures
        var was := old(Table());
        if id in was.rows && was.rows[id].device == device
        then
          var (c, r) := Commands.Acknowledge(cfg, was.rows[id], now);
          Table() == was.(rows := was.rows[id := c]) && reply == Some(r)
        else Table() == was && reply.None?
    {
      if id !in rows || rows[id].device != device {
        return None;
      }
      var r := rows[id].Acknowledge(cfg, now);
      return Some(r);
    }

    method Complete(device: nat, id: nat, v: Verdict, now: int) returns (reply: Option<ResultReply>)
      requires Valid()
      modifies rows.Values
      ensures Valid() && rows == old(rows)
      ensures
        var was := old(Table());
        if id in was.rows && was.rows[id].device == device
        then
          var (c, r) := Commands.Complete(was.rows[id], v, now);
          Table() == was.(rows := was.rows[id := c]) && reply == Some(r)
        else Table() == was && reply.None?
    {
      if id !in rows || rows[id].device != device {
        return None;
      }
      var r := rows[id].Complete(v, now);
      return Some(r);
    }

    /** Stops the delivery of every pending command of a device. */
    method StopPending(device: nat, now: int)
      requires Valid()
      modifies rows.Values
      ensures Valid() && rows == old(rows)
      ensures Rows() == Commands.StopPending(old(Rows()), device, now)
    {
      hide Commands.StopDelivery, Pending, DeviceCommand.Value;
      var todo := set i | i in rows && rows[i].Value().device == device && Pending(rows[i].Value());
      ghost var was := Rows();
      ghost var target := Commands.StopPending(was, device, now);
      assert forall i | i in rows && i !in todo :: target[i] == was[i];
      while todo != {}
        invariant rows == old(rows) && todo <= rows.Keys
        invariant forall i | i in todo :: Pending(was[i]) && was[i].device == device
        invariant forall i | i in rows :: rows[i].Value() == if i in todo then was[i] else target[i]
        decreases todo
      {
        var i :| i in todo;
        rows[i].StopDelivery(now, SupersededByStop, Cancelled);
        todo := todo - {i};
      }
    }

    /** A stored Stop of the same author and device names this request. */
    method FindSupersedingStop(r: Request) returns (found: bool)
      ensures found == SupersedingStop(Rows(), r)
    {
      found := exists i | i in rows ::
        rows[i].device == r.device && rows[i].supersedes == Some(r.request) && rows[i].actor == r.actor
          && rows[i].kind.Stop?;
      assert forall i | i in rows :: Rows()[i] == rows[i].Value();
    }

    /** Adds a new row object to the table. */
    method Insert(id: nat, command: DeviceCommand)
      requires Valid() && id !in rows && forall i | i in rows :: rows[i] != command
      modifies this`rows, this`byRequest
      ensures Valid() && Rows() == old(Rows())[id := command.Value()]
      ensures byRequest == old(byRequest)[command.request := id]
    {
      rows := rows[id := command];
      byRequest := byRequest[command.request := id];
    }

    method Create(id: nat, r: Request, createdAt: int, unavailable: bool, refused: bool,
        binding: Option<Option<Target>>)
      returns (reply: CreateReply)
      requires Valid() && id !in rows
      modifies this, rows.Values
      ensures Valid()
      ensures (Table(), reply) == Commands.Create(old(Table()), id, r, createdAt, unavailable, refused, binding)
    {
      hide Commands.Register, MatchesRequest;
      if unavailable {
        return Unavailable;
      }
      if r.request in byRequest {
        var known := byRequest[r.request];
        return if known in rows && MatchesRequest(rows[known].Value(), r) then Existing(known) else RequestConflict;
      }
      if refused {
        return NotAllowed;
      }
      if binding != Some(r.target) {
        return BindingChanged;
      }
      var next := (if r.device in sequence then sequence[r.device] else 0) + 1;
      if next > MAX_SEQUENCE {
        return Exhausted;
      }
      Register(id, r, createdAt, next);
      return Created(id);
    }

    /** The writing part of `Create`, under the device lock. */
    method Register(id: nat, r: Request, createdAt: int, next: nat)
      requires Valid() && id !in rows && next == LastSequence(Table(), r.device) + 1
      modifies this, rows.Values
      ensures Valid()
      ensures Table() == Commands.Register(old(Table()), id, r, createdAt)
    {
      hide Commands.StopDelivery, SupersedingStop, Commands.StopPending, Commands.Register, NewRow, Valid, Rows;
      ghost var was := Table();
      var superseded := EndOlder(r, createdAt);
      ghost var rest := Rows();
      File(id, r, next, createdAt, superseded);
      RegisterParts(was, id, r, createdAt, rest, Table());
    }

    /** Numbers the new command and stores its row. */
    method File(id: nat, r: Request, next: nat, createdAt: int, superseded: bool)
      requires Valid() && id !in rows
      modifies this`rows, this`byRequest, this`sequence
      ensures Valid()
      ensures Rows() == old(Rows())[id := FirstValue(r, next, createdAt, superseded)]
      ensures byRequest == old(byRequest)[r.request := id] && sequence == old(sequence)[r.device := next]
    {
      hide Commands.StopDelivery, NewRow, FirstValue, Valid;
      var command := NewCommand(r, next, createdAt, superseded);
      sequence := sequence[r.device := next];
      Insert(id, command);
    }

    static function FirstValue(r: Request, next: nat, createdAt: int, superseded: bool): Row
    {
      var c := NewRow(r, next, createdAt);
      if superseded then Commands.StopDelivery(c, createdAt, SupersededByStop, Cancelled) else c
    }

    /** The table after ending older commands, numbering and filing the new one. */
    static lemma RegisterParts(was: Store, id: nat, r: Request, createdAt: int, rest: map<nat, Row>, t: Store)
      requires
        var superseded, next := SupersedingStop(was.rows, r), LastSequence(was, r.device) + 1;
        && rest == (if r.kind.Stop?
          && !superseded then Commands.StopPending(was.rows, r.device, createdAt) else was.rows)
        && t.rows == rest[id := FirstValue(r, next, createdAt, superseded)]
        && t.byRequest == was.byRequest[r.request := id]
        && t.sequence == was.sequence[r.device := next]
        && t.lastStop == if r.kind.Stop? && !superseded then was.lastStop[r.device := createdAt] else was.lastStop
      ensures t == Commands.Register(was, id, r, createdAt)
    {
      hide SupersedingStop, Commands.StopPending, NewRow, Commands.StopDelivery;
    }

    /** A Stop that no other Stop supersedes ends the delivery of what is pending. */
    method EndOlder(r: Request, createdAt: int) returns (superseded: bool)
      requires Valid()
      modifies this`lastStop, rows.Values
      ensures superseded == SupersedingStop(old(Rows()), r)
      ensures
        if r.kind.Stop? && !superseded
        then Rows() == Commands.StopPending(old(Rows()), r.device, createdAt)
          && lastStop == old(lastStop)[r.device := createdAt]
        else Rows() == old(Rows()) && lastStop == old(lastStop)
    {
      hide Commands.StopPending, SupersedingStop, DeviceCommand.Value, Valid;
      superseded := FindSupersedingStop(r);
      if r.kind.Stop? && !superseded {
        lastStop := lastStop[r.device := createdAt];
        StopPending(r.device, createdAt);
      }
    }

    static method NewCommand(r: Request, next: nat, createdAt: int, superseded: bool) returns (command: DeviceCommand)
      ensures fresh(command) && command.request == r.request
      ensures command.Value() == FirstValue(r, next, createdAt, superseded)
    {
      command := new DeviceCommand(r, next, createdAt);
      if superseded {
        command.StopDelivery(createdAt, SupersededByStop, Cancelled);
      }
    }
  }
}
