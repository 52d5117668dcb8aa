/** The durable command row and what every transaction does to it: creation, the two halves of
    a dispatch, acknowledgement, result, and the end of delivery. Times are integer microseconds,
    the resolution of the timestamps. */
module Commands {
  import opened Options
  import opened Plans

  const SECOND := 1_000_000
  const MAX_SEQUENCE := 9007199254740991

  datatype Kind =
    | Start
    | Stop
    | SetFrequency(hz: real)
    | StartProgram(steps: seq<Step>)
    | StartSchedule(run: Run)
    | SetSource
    | SetParameter

  datatype Status = Queued | Published | Acknowledged | ResultUnknown | Succeeded | Failed | Cancelled | Expired

  /** Why a controller ended a program. */
  datatype Ending = ProgramCompleted | StopCommand | LocalDisarm | RestartRecovery | DriveFault | NetworkLost

  datatype Code =
    | ResultTimeout | DeliveryExpired | SupersededByStop | LateAck | UpgradeQuarantine | Rejected(reason: nat)
    | OutOfOrder | DriveFaulted | FrequencyOutOfRange | Busy | WindowMissed | ProgramInvalid
    | ProgramCancelled | RestartDuringExecution | EndedBy(ending: Ending)

  datatype Data = NoData | PumpRunning(on: bool) | FrequencyIs(hz: real) | StepsDone(done: nat, count: nat)

  /** A controller's final answer to one command. */
  datatype Verdict = Verdict(succeeded: bool, data: Data, error: Option<Code>)

  /** The equipment binding a command was created for. */
  datatype Target = Target(binding: nat, revision: nat, hash: nat)

  /** One row of the command table. The first ten fields never change after creation. */
  datatype Row = Row(
    request: nat, device: nat, actor: nat, supersedes: Option<nat>, kind: Kind, sequence: nat, target: Option<Target>,
    ttl: nat, createdAt: int, expiresAt: int,
    status: Status, attempts: nat, publishedAt: Option<int>, lastAttemptAt: Option<int>, publishError: Option<nat>,
    acknowledgedAt: Option<int>, resultDeadlineAt: Option<int>, timedOutAt: Option<int>, completedAt: Option<int>,
    data: Data, error: Option<Code>)

  /** Deployment settings, in seconds; both must be positive. */
  datatype Config = Config(retryInterval: nat, resultTimeout: nat)

  predicate ValidConfig(cfg: Config) { cfg.retryInterval >= 1 && cfg.resultTimeout >= 1 }

  predicate Pending(c: Row) { c.status.Queued? || c.status.Published? }

  predicate Terminal(s: Status) { s.Succeeded? || s.Failed? || s.Cancelled? || s.Expired? }

  // ---------------------------------------------------------------- transactions on one row

  predicate MaybeSent(c: Row)
  {
    c.status.Published? || c.status.Acknowledged? || c.attempts > 0 || c.publishedAt.Some? || c.acknowledgedAt.Some?
  }

  /** Delivery ends; nothing is assumed about a command that may have been sent. */
  function StopDelivery(c: Row, now: int, code: Code, unsent: Status): Row
  {
    if MaybeSent(c)
    then c.(status := ResultUnknown, error := Some(code), completedAt := None, timedOutAt := Some(now))
    else c.(status := unsent, error := Some(code), completedAt := Some(now))
  }

  /** Seconds an acknowledged command may take to report its result. */
  function ResultTimeoutSeconds(cfg: Config, c: Row): int
  {
    match c.kind
    case StartSchedule(run) => Max(0, (run.stopsAt * SECOND - c.createdAt) / SECOND) + 180
    case StartProgram(steps) => ProgramTimeout(steps)
    case _ => cfg.resultTimeout
  }

  datatype DispatchStep =
    | TimedOut | AwaitingResult | NotPending | AlreadyPublished | DeliveryOver | RetryNotDue | Refused | DeviceOffline
    | Sending(attempt: nat)

  /** The first transaction of a dispatch, up to the commit before the network call. */
  function BeginDispatch(cfg: Config, c: Row, now: int, allowRetry: bool, rejection: Option<nat>,
      online: bool): (Row, DispatchStep)
  {
    if c.status.Acknowledged? then
      var deadline := c.resultDeadlineAt.GetOr(
                        c.acknowledgedAt.GetOr(c.publishedAt.GetOr(c.createdAt))
                          + ResultTimeoutSeconds(cfg, c) * SECOND);
      var d := c.(resultDeadlineAt := Some(deadline));
      if deadline <= now then (StopDelivery(d, now, ResultTimeout, Cancelled), TimedOut) else (d, AwaitingResult)
    else if !Pending(c) then (c, NotPending)
    else if c.status.Published? && !allowRetry then (c, AlreadyPublished)
    else if c.expiresAt <= now then (StopDelivery(c, now, DeliveryExpired, Expired), DeliveryOver)
    else if allowRetry && c.lastAttemptAt.Some? && now - c.lastAttemptAt.value < cfg.retryInterval * SECOND
      then (c, RetryNotDue)
    else if rejection.Some? then (StopDelivery(c, now, Rejected(rejection.value), Cancelled), Refused)
    else if !online then (c, DeviceOffline)
    else
      (c.(status := Published, attempts := c.attempts + 1, lastAttemptAt := Some(now),
          publishedAt := Some(c.publishedAt.GetOr(now)), publishError := None),
       Sending(c.attempts + 1))
  }

  /** The second transaction: only the newest attempt may report its transport error. */
  function FinishDispatch(c: Row, attempt: nat, failure: Option<nat>): Row
  {
    if c.attempts == attempt then c.(publishError := failure) else c
  }

  datatype AckReply = AlreadyAcknowledged | AckNotAllowed | AcknowledgedLate | AcknowledgedOnTime

  function Acknowledge(cfg: Config, c: Row, now: int): (Row, AckReply)
  {
    if c.acknowledgedAt.Some? || c.status.Succeeded? || c.status.Failed? then (c, AlreadyAcknowledged)
    else
      var attempted := c.attempts > 0 || c.publishedAt.Some?
        || (c.status.ResultUnknown? && c.error == Some(UpgradeQuarantine));
      if !(c.status.Published? || c.status.ResultUnknown? || c.status.Expired?) || !attempted then (c, AckNotAllowed)
      else
        var a := c.(acknowledgedAt := Some(now));
        if c.status.ResultUnknown? then (a, AcknowledgedLate)
        else if c.expiresAt <= now || c.status.Expired?
          then (StopDelivery(a, now, LateAck, Cancelled), AcknowledgedLate)
        else
          (a.(status := Acknowledged, resultDeadlineAt := Some(now + ResultTimeoutSeconds(cfg, c) * SECOND)),
            AcknowledgedOnTime)
  }

  datatype ResultReply = ResultConflict | AlreadyCompleted | ResultNotAllowed | Completed

  function VerdictStatus(v: Verdict): Status { if v.succeeded then Succeeded else Failed }

  predicate Records(c: Row, v: Verdict)
  {
    c.status == VerdictStatus(v) && c.data == v.data && c.error == v.error
  }

  function Complete(c: Row, v: Verdict, now: int): (Row, ResultReply)
  {
    if c.status.Succeeded? || c.status.Failed? then (c, if Records(c, v) then AlreadyCompleted else ResultConflict)
    else
      var legacyAttempted := c.status.Expired? && (c.attempts > 0 || c.publishedAt.Some?);
      if !(c.status.Published? || c.status.Acknowledged? || c.status.ResultUnknown?) && !legacyAttempted
        then (c, ResultNotAllowed)
      else
        (c.(acknowledgedAt := Some(c.acknowledgedAt.GetOr(now)), status := VerdictStatus(v), completedAt := Some(now),
            data := v.data, error := v.error),
         Completed)
  }

  /** The message a command travels in, addressed to one device. */
  datatype Envelope = Envelope(
    device: nat, version: nat, target: Option<Target>, sequence: nat, id: nat, request: nat,
    issuedAt: int, expiresAt: int, ttl: nat, kind: Kind)

  function EnvelopeOf(id: nat, c: Row): Envelope
  {
    Envelope(c.device, if c.target.Some? then 3 else 2, c.target, c.sequence, id, c.request, c.createdAt, c.expiresAt,
      c.ttl, c.kind)
  }

  // ---------------------------------------------------------------- transactions on the table

  /** The command table of the database, its unique index on requests, and the counters kept on
      the device rows. */
  datatype Store = Store(rows: map<nat, Row>, byRequest: map<nat, nat>, sequence: map<nat, nat>,
    lastStop: map<nat, int>)

  datatype Request = Request(request: nat, device: nat, actor: nat, supersedes: Option<nat>, kind: Kind, ttl: nat,
    target: Option<Target>)

  /** The payload a command of each kind must carry. */
  predicate ValidKind(k: Kind)
  {
    match k
    case SetFrequency(hz) => 0.0 <= hz <= 100.0
    case StartProgram(steps) => ValidSteps(steps, MAX_PROGRAM_SECONDS)
    case StartSchedule(run) => ValidRun(run)
    case _ => true
  }

  /** A well-formed request: only a Stop may supersede, and never itself. */
  predicate ValidRequest(r: Request)
  {
    ValidKind(r.kind) && 5 <= r.ttl <= 300 && (r.supersedes.Some? ==> r.kind.Stop? && r.supersedes.value != r.request)
  }

  predicate MatchesRequest(c: Row, r: Request)
  {
    c.device == r.device && c.kind == r.kind && c.ttl == r.ttl && c.supersedes == r.supersedes
    && c.target == r.target && c.actor == r.actor
  }

  datatype CreateReply = Unavailable | RequestConflict | Existing(id: nat) | NotAllowed | BindingChanged | Exhausted
    | Created(id: nat)

  function LastSequence(s: Store, device: nat): nat { if device in s.sequence then s.sequence[device] else 0 }

  /** A stored Stop of the same author already cancels this request. */
  predicate SupersedingStop(rows: map<nat, Row>, r: Request)
  {
    exists i | i in rows ::
      rows[i].device == r.device && rows[i].supersedes == Some(r.request) && rows[i].actor == r.actor
        && rows[i].kind.Stop?
  }

  function StopPending(rows: map<nat, Row>, device: nat, now: int): map<nat, Row>
  {
    map i | i in rows ::
      if rows[i].device == device && Pending(rows[i]) then StopDelivery(rows[i], now, SupersededByStop, Cancelled)
        else rows[i]
  }

  function NewRow(r: Request, sequence: nat, createdAt: int): Row
  {
    Row(r.request, r.device, r.actor, r.supersedes, r.kind, sequence, r.target, r.ttl, createdAt,
      createdAt + r.ttl * SECOND,
        Queued, 0, None, None, None, None, None, None, None, NoData, None)
  }

  /** The row as it is first stored. */
  function FirstRow(s: Store, r: Request, createdAt: int): Row
  {
    var c := NewRow(r, LastSequence(s, r.device) + 1, createdAt);
    if SupersedingStop(s.rows, r) then StopDelivery(c, createdAt, SupersededByStop, Cancelled) else c
  }

  /** Numbers and files a new command; a Stop that is not superseded itself ends the delivery of
      everything pending on the device. */
  function Register(s: Store, id: nat, r: Request, createdAt: int): Store
  {
    var stops := r.kind.Stop? && !SupersedingStop(s.rows, r);
    Store((if stops then StopPending(s.rows, r.device, createdAt) else s.rows)[id := FirstRow(s, r, createdAt)],
          s.byRequest[r.request := id],
          s.sequence[r.device := LastSequence(s, r.device) + 1],
          if stops then s.lastStop[r.device := createdAt] else s.lastStop)
  }

  /** Creates a command. `unavailable`, `refused` and `binding` stand for the checks made
      elsewhere: capability, policy, and the equipment binding in force (None if unconfirmed). */
  function Create(s: Store, id: nat, r: Request, createdAt: int, unavailable: bool, refused: bool,
      binding: Option<Option<Target>>): (Store, CreateReply)
  {
    if unavailable then (s, Unavailable)
    else if r.request in s.byRequest then
      var known := s.byRequest[r.request];
      if known in s.rows && MatchesRequest(s.rows[known], r) then (s, Existing(known)) else (s, RequestConflict)
    else if refused then (s, NotAllowed)
    else if binding != Some(r.target) then (s, BindingChanged)
    else if LastSequence(s, r.device) + 1 > MAX_SEQUENCE then (s, Exhausted)
    else (Register(s, id, r, createdAt), Created(id))
  }

  // ---------------------------------------------------------------- what every row satisfies

  /** The honest reading of a row: untouched by the network exactly while it has no attempt. */
  ghost predicate Honest(c: Row)
  {
    && (c.attempts == 0 <==> c.status.Queued? || c.status.Cancelled? || c.status.Expired?)
    && (c.attempts > 0 <==> c.publishedAt.Some?) && (c.attempts > 0 <==> c.lastAttemptAt.Some?)
    && (c.attempts == 0 ==> c.acknowledgedAt.None?) && (c.acknowledgedAt.None? ==> c.resultDeadlineAt.None?)
    && (c.status.Published? ==> c.acknowledgedAt.None?)
    && (c.status.Acknowledged? || c.status.Succeeded? || c.status.Failed? ==> c.acknowledgedAt.Some?)
    && (c.status.Acknowledged? ==> c.resultDeadlineAt.Some?)
  }

  /** Attempts are at least the retry interval apart, none before creation, all before expiry. */
  ghost predicate Spaced(cfg: Config, c: Row)
  {
    && c.expiresAt == c.createdAt + c.ttl * SECOND
    && (c.attempts > 0 ==> c.lastAttemptAt.Some?
                           && c.createdAt + Interval(cfg, c.attempts - 1) <= c.lastAttemptAt.value < c.expiresAt)
  }

  /** `n` retry intervals. */
  function Interval(cfg: Config, n: nat): nat
  {
    if n == 0 then 0 else Interval(cfg, n - 1) + cfg.retryInterval * SECOND
  }

  lemma {:induction false} IntervalIsProduct(cfg: Config, n: nat)
    ensures Interval(cfg, n) == n * (cfg.retryInterval * SECOND)
  {
    if n > 0 { IntervalIsProduct(cfg, n - 1); }
  }

  /** At most ttl / interval attempts, rounded up. */
  lemma AttemptsAreBounded(cfg: Config, c: Row)
    requires ValidConfig(cfg) && Spaced(cfg, c)
    ensures c.attempts <= (c.ttl + cfg.retryInterval - 1) / cfg.retryInterval
  {
    if c.attempts > 0 {
      var n, i := c.attempts - 1, cfg.retryInterval;
      IntervalIsProduct(cfg, n);
      assert n * (i * SECOND) == n * i * SECOND;
      assert n * i < c.ttl;
      CeilingOf(c.ttl, i, n);
    }
  }

  lemma CeilingOf(t: nat, i: nat, n: nat)
    requires i >= 1 && n * i < t
    ensures n + 1 <= (t + i - 1) / i
  {
    var q, r := (t + i - 1) / i, (t + i - 1) % i;
    assert q * i + r == t + i - 1;
    assert q <= n ==> q * i <= n * i;
  }

  // ---------------------------------------------------------------- lifecycle order

  function Rank(s: Status): nat
  {
    match s
    case Queued => 0
    case Published => 1
    case Acknowledged => 2
    case ResultUnknown => 3
    case _ => 4
  }

  predicate SameIdentity(a: Row, b: Row)
  {
    a.request == b.request && a.device == b.device && a.actor == b.actor && a.supersedes == b.supersedes
      && a.kind == b.kind
    && a.sequence == b.sequence && a.target == b.target && a.ttl == b.ttl && a.createdAt == b.createdAt
    && a.expiresAt == b.expiresAt
  }

  /** How a row may develop: statuses only climb, a final row is frozen, attempts stop for good
      once delivery has ended, and the first acknowledgement and its deadline stay. */
  ghost predicate Progress(a: Row, b: Row)
  {
    && SameIdentity(a, b)
    && Rank(a.status) <= Rank(b.status)
    && (Terminal(a.status) ==>
          b.status == a.status && b.data == a.data && b.error == a.error && b.completedAt == a.completedAt)
    && a.attempts <= b.attempts && (!Pending(a) ==> a.attempts == b.attempts && !Pending(b))
    && (a.acknowledgedAt.Some? ==> b.acknowledgedAt == a.acknowledgedAt)
    && (a.resultDeadlineAt.Some? ==> b.resultDeadlineAt == a.resultDeadlineAt)
  }

  lemma ProgressIsTransitive(a: Row, b: Row, c: Row)
    requires Progress(a, b) && Progress(b, c)
    ensures Progress(a, c)
  {
  }

  lemma StopDeliveryProgresses(cfg: Config, c: Row, now: int, code: Code, unsent: Status)
    requires Honest(c) && Spaced(cfg, c) && !Terminal(c.status) && (unsent.Cancelled? || unsent.Expired?)
    ensures
      var d := StopDelivery(c, now, code, unsent);
      Honest(d) && Spaced(cfg, d) && Progress(c, d) && !Pending(d)
  {
  }

  lemma BeginDispatchProgresses(cfg: Config, c: Row, now: int, allowRetry: bool, rejection: Option<nat>, online: bool)
    requires ValidConfig(cfg) && Honest(c) && Spaced(cfg, c) && c.createdAt <= now
    ensures
      var (d, step) := BeginDispatch(cfg, c, now, allowRetry, rejection, online);
      && Honest(d) && Spaced(cfg, d) && Progress(c, d)
      && (step.Sending? <==> d.attempts == c.attempts + 1)
      && (step.Sending? ==> d.attempts == step.attempt && d.status.Published? && now < c.expiresAt)
      && (step.Sending? && c.attempts > 0 ==> c.lastAttemptAt.value + cfg.retryInterval * SECOND <= now)
      && (!step.Sending? ==> d.attempts == c.attempts)
  {
    var (d, step) := BeginDispatch(cfg, c, now, allowRetry, rejection, online);
    if step.Sending? && c.attempts > 0 {
      assert Interval(cfg, c.attempts) == Interval(cfg, c.attempts - 1) + cfg.retryInterval * SECOND;
    }
  }

  /** Whatever happened while the lock was free, the second half of a dispatch leaves the
      lifecycle alone and reports an error only for the newest attempt. */
  lemma FinishDispatchIsSafe(cfg: Config, c: Row, attempt: nat, failure: Option<nat>)
    requires Honest(c) && Spaced(cfg, c)
    ensures
      var d := FinishDispatch(c, attempt, failure);
      && Honest(d) && Spaced(cfg, d) && Progress(c, d) && Progress(d, c)
      && d.(publishError := c.publishError) == c
      && (d.publishError != c.publishError ==> attempt == c.attempts && d.publishError == failure)
  {
  }

  lemma AcknowledgeProgresses(cfg: Config, c: Row, now: int)
    requires Honest(c) && Spaced(cfg, c)
    ensures
      var (d, reply) := Acknowledge(cfg, c, now);
      && Honest(d) && Spaced(cfg, d) && Progress(c, d) && d.attempts == c.attempts
      && (reply.AckNotAllowed? <==> c.attempts == 0)
      && (!reply.AckNotAllowed? ==> d.acknowledgedAt.Some?)
  {
  }

  lemma CompleteProgresses(cfg: Config, c: Row, v: Verdict, now: int)
    requires Honest(c) && Spaced(cfg, c)
    ensures
      var (d, reply) := Complete(c, v, now);
      && Honest(d) && Spaced(cfg, d) && Progress(c, d) && d.attempts == c.attempts
      && (reply.ResultNotAllowed? <==> c.attempts == 0)
      && (reply.Completed? || reply.AlreadyCompleted? ==> Records(d, v))
  {
  }

  // ---------------------------------------------------------------- when a dispatch sends, and how long it waits

  /** A dispatch sends exactly if the row is to be delivered, is not over its time to live, is new or
      may be retried a full interval after its last attempt, is not refused, and the device is there. */
  lemma SendsExactlyIf(cfg: Config, c: Row, now: int, allowRetry: bool, rejection: Option<nat>, online: bool)
    requires Honest(c)
    ensures
      BeginDispatch(cfg, c, now, allowRetry, rejection, online).1.Sending? <==>
        && now < c.expiresAt && rejection.None? && online
        && (c.status.Queued? || (c.status.Published? && allowRetry
                                 && c.lastAttemptAt.value + cfg.retryInterval * SECOND <= now))
  {
  }

  /** The service starts with any positive settings. */
  lemma PositiveSettings(cfg: Config)
    ensures ValidConfig(cfg) <==> cfg.retryInterval != 0 && cfg.resultTimeout != 0
  {
  }

  /** What a dispatch leaves behind when it does not send. */
  lemma EndsExactlyIf(cfg: Config, c: Row, now: int, allowRetry: bool, rejection: Option<nat>, online: bool)
    requires Honest(c)
    ensures
      var (d, step) := BeginDispatch(cfg, c, now, allowRetry, rejection, online);
      && (step.TimedOut? <==> c.status.Acknowledged? && c.resultDeadlineAt.value <= now)
      && (step.TimedOut? ==> d == c.(status := ResultUnknown, error := Some(ResultTimeout), completedAt := None,
                                     timedOutAt := Some(now)))
      && (step.DeliveryOver? <==> (c.status.Queued? || (c.status.Published? && allowRetry)) && c.expiresAt <= now)
      && (step.DeliveryOver? ==> d.error == Some(DeliveryExpired))
      && (step.DeliveryOver? ==> d.status == if c.attempts == 0 then Expired else ResultUnknown)
      && (step.Refused? ==> rejection.Some? && d.error == Some(Rejected(rejection.value)))
      && (step.Refused? ==> d.status == if c.attempts == 0 then Cancelled else ResultUnknown)
      && (!step.Sending? && !step.TimedOut? && !step.DeliveryOver? && !step.Refused? ==> d == c)
  {
  }

  /** Every step may take a transition besides its own time, and so may the final stop. */
  function Allowance(steps: seq<Step>): int
  {
    if steps == [] then 60
    else
      var n := |steps| - 1;
      Allowance(steps[..n]) + steps[n].seconds + 60
  }

  lemma {:induction false} TimeoutIsAllowance(steps: seq<Step>, k: nat)
    requires k <= |steps|
    ensures Through(steps, k) + (k + 1) * TRANSITION_SECONDS == Allowance(steps[..k])
  {
    if k > 0 {
      TimeoutIsAllowance(steps, k - 1);
      assert steps[..k][..k - 1] == steps[..k - 1];
    }
  }

  /** A deadline that was set at `since` waits for the whole plan: for every step of a program with its
      transitions and two minutes more, until three minutes after the end of a calendar run, and for
      the configured time otherwise. */
  ghost predicate Patient(cfg: Config, c: Row, since: int, deadline: int)
  {
    match c.kind
    case StartProgram(steps) => deadline == since + (Allowance(steps) + 120) * SECOND
    case StartSchedule(run) =>
      if run.stopsAt * SECOND < c.createdAt then deadline == since + 180 * SECOND
      else
        var late := deadline - run.stopsAt * SECOND - (since - c.createdAt);
        179 * SECOND < late <= 180 * SECOND
    case _ => deadline == since + cfg.resultTimeout * SECOND
  }

  lemma TimeoutIsPatient(cfg: Config, c: Row, since: int)
    ensures Patient(cfg, c, since, since + ResultTimeoutSeconds(cfg, c) * SECOND)
  {
    match c.kind
    case StartProgram(steps) =>
      TimeoutIsAllowance(steps, |steps|);
      assert steps[..|steps|] == steps;
    case StartSchedule(run) =>
      var left := run.stopsAt * SECOND - c.createdAt;
      assert left == left / SECOND * SECOND + left % SECOND;
    case _ =>
  }

  /** In plain terms: never before the steps are over, nor before the end of the calendar run. */
  lemma PatienceOutlastsThePlan(cfg: Config, c: Row, since: int, deadline: int)
    requires Patient(cfg, c, since, deadline) && c.createdAt <= since
    ensures c.kind.StartProgram? ==> since + (Total(c.kind.steps) + 120) * SECOND <= deadline
    ensures c.kind.StartSchedule? ==> c.kind.run.stopsAt * SECOND < deadline && since + 179 * SECOND < deadline
  {
    if c.kind.StartProgram? {
      var steps := c.kind.steps;
      TimeoutIsAllowance(steps, |steps|);
      assert steps[..|steps|] == steps;
    }
  }

  /** An acknowledgement on time starts exactly that wait. */
  lemma AcknowledgementIsPatient(cfg: Config, c: Row, now: int)
    requires Honest(c)
    ensures
      var (d, reply) := Acknowledge(cfg, c, now);
      && (reply.AcknowledgedOnTime? <==> c.status.Published? && now < c.expiresAt)
      && (reply.AcknowledgedOnTime? ==>
            && d.status.Acknowledged? && d.acknowledgedAt == Some(now) && d.resultDeadlineAt.Some?
            && Patient(cfg, c, now, d.resultDeadlineAt.value))
      && (reply.AcknowledgedLate? ==> d.status.ResultUnknown? && d.acknowledgedAt == Some(now))
  {
    TimeoutIsPatient(cfg, c, now);
  }

  /** The row has waited as long as its plan takes before its result counts as missing. */
  ghost predicate WaitOk(cfg: Config, c: Row)
  {
    && (c.acknowledgedAt.Some? ==> c.createdAt <= c.acknowledgedAt.value)
    && (c.resultDeadlineAt.Some? ==>
          c.acknowledgedAt.Some? && Patient(cfg, c, c.acknowledgedAt.value, c.resultDeadlineAt.value))
    && (c.status.ResultUnknown? && c.error == Some(ResultTimeout) ==>
          c.resultDeadlineAt.Some? && c.timedOutAt.Some? && c.resultDeadlineAt.value <= c.timedOutAt.value)
  }

  lemma WaitSurvivesDispatch(cfg: Config, c: Row, now: int, allowRetry: bool, rejection: Option<nat>, online: bool)
    requires Honest(c) && WaitOk(cfg, c)
    ensures WaitOk(cfg, BeginDispatch(cfg, c, now, allowRetry, rejection, online).0)
  {
    hide Patient, ResultTimeoutSeconds;
    KeepsKind(cfg, c);
  }

  /** The wait depends on the plan and the creation alone. */
  lemma KeepsKind(cfg: Config, c: Row)
    ensures forall d: Row, since: int, deadline: int | d.kind == c.kind && d.createdAt == c.createdAt ::
      Patient(cfg, c, since, deadline) == Patient(cfg, d, since, deadline)
  {
  }

  lemma WaitSurvivesReplies(cfg: Config, c: Row, now: int)
    requires Honest(c) && WaitOk(cfg, c) && c.createdAt <= now
    ensures WaitOk(cfg, Acknowledge(cfg, c, now).0)
    ensures forall v: Verdict :: WaitOk(cfg, Complete(c, v, now).0)
  {
    hide Patient, ResultTimeoutSeconds;
    KeepsKind(cfg, c);
    TimeoutIsPatient(cfg, c, now);
  }

  lemma WaitSurvivesTheRest(cfg: Config, c: Row, now: int, attempt: nat, failure: Option<nat>)
    requires WaitOk(cfg, c)
    ensures WaitOk(cfg, FinishDispatch(c, attempt, failure))
    ensures WaitOk(cfg, StopDelivery(c, now, SupersededByStop, Cancelled))
  {
    hide Patient;
    KeepsKind(cfg, c);
  }

  // ---------------------------------------------------------------- every row, also one of an older version

  /** Any trace of the network keeps the end of a delivery from claiming that nothing happened. */
  lemma StoppedMeans(c: Row, now: int, code: Code, unsent: Status)
    ensures
      var d := StopDelivery(c, now, code, unsent);
      var touched := c.attempts > 0 || c.publishedAt.Some? || c.acknowledgedAt.Some? || c.status.Published?
        || c.status.Acknowledged?;
      && (touched ==> d == c.(status := ResultUnknown, error := Some(code), completedAt := None,
        timedOutAt := Some(now)))
      && (!touched ==> d == c.(status := unsent, error := Some(code), completedAt := Some(now)))
  {
  }

  /** The row has been attempted, or may have been under an older version of the protocol. */
  ghost predicate MayHaveRun(c: Row)
  {
    c.attempts > 0 || c.publishedAt.Some? || (c.status.ResultUnknown? && c.error == Some(UpgradeQuarantine))
  }

  /** What an acknowledgement means for each row, and what it changes. */
  lemma AcknowledgeDoes(cfg: Config, c: Row, now: int)
    ensures
      var (d, reply) := Acknowledge(cfg, c, now);
      var done := c.acknowledgedAt.Some? || c.status.Succeeded? || c.status.Failed?;
      var open := (c.status.Published? || c.status.ResultUnknown? || c.status.Expired?) && MayHaveRun(c);
      && (reply.AlreadyAcknowledged? <==> done) && (reply.AckNotAllowed? <==> !done && !open)
      && (reply.AcknowledgedOnTime? <==> !done && open && c.status.Published? && now < c.expiresAt)
      && (reply.AlreadyAcknowledged? || reply.AckNotAllowed? ==> d == c)
      && (reply.AcknowledgedOnTime? ==>
            d == c.(status := Status.Acknowledged, acknowledgedAt := Some(now), resultDeadlineAt := d.resultDeadlineAt))
      && (reply.AcknowledgedLate? && c.status.ResultUnknown? ==> d == c.(acknowledgedAt := Some(now)))
      && (reply.AcknowledgedLate? && !c.status.ResultUnknown? ==>
            d == c.(status := ResultUnknown, acknowledgedAt := Some(now), error := Some(LateAck), completedAt := None,
                    timedOutAt := Some(now)))
  {
  }

  /** What a result means for each row: success and failure are told apart, the first one counts, and it
      stands for the acknowledgement if that never came. */
  lemma CompleteDoes(c: Row, v: Verdict, now: int)
    ensures
      var (d, reply) := Complete(c, v, now);
      var final := c.status.Succeeded? || c.status.Failed?;
      var same := (c.status.Succeeded? <==> v.succeeded) && c.data == v.data && c.error == v.error;
      var open := c.status.Published? || c.status.Acknowledged? || c.status.ResultUnknown?
        || (c.status.Expired? && (c.attempts > 0 || c.publishedAt.Some?));
      && (reply.AlreadyCompleted? <==> final && same) && (reply.ResultConflict? <==> final && !same)
      && (reply.ResultNotAllowed? <==> !final && !open) && (reply.Completed? <==> !final && open)
      && (!reply.Completed? ==> d == c)
      && (reply.Completed? ==>
            && (v.succeeded ==> d.status.Succeeded?) && (!v.succeeded ==> d.status.Failed?)
            && d.acknowledgedAt == (if c.acknowledgedAt.Some? then c.acknowledgedAt else Some(now))
            && d == c.(status := d.status, acknowledgedAt := d.acknowledgedAt, completedAt := Some(now), data := v.data,
                       error := v.error))
  {
  }

  /** An acknowledged row of an older version has no deadline yet: its wait counts from the
      acknowledgement, or else from the first attempt, or else from its creation. */
  lemma OlderRowsWaitToo(cfg: Config, c: Row, now: int, allowRetry: bool, rejection: Option<nat>, online: bool)
    requires c.status.Acknowledged? && c.resultDeadlineAt.None?
    ensures
      var d := BeginDispatch(cfg, c, now, allowRetry, rejection, online).0;
      var since := if c.acknowledgedAt.Some? then c.acknowledgedAt.value
        else if c.publishedAt.Some? then c.publishedAt.value else c.createdAt;
      && d.resultDeadlineAt.Some? && Patient(cfg, c, since, d.resultDeadlineAt.value)
      && (d.status.ResultUnknown? <==> d.resultDeadlineAt.value <= now)
      && (d.status.ResultUnknown? ==> d.error == Some(ResultTimeout) && d.timedOutAt == Some(now))
      && (!d.status.ResultUnknown? ==> d == c.(resultDeadlineAt := d.resultDeadlineAt))
  {
    hide Patient;
    TimeoutIsPatient(cfg, c, if c.acknowledgedAt.Some? then c.acknowledgedAt.value
        else if c.publishedAt.Some? then c.publishedAt.value else c.createdAt);
  }

  // ---------------------------------------------------------------- what creation does

  /** Which requests are well formed: a time to live of 5 to 300 seconds, a frequency up to 100 Hz, a program
      of one to eight steps of at least ten seconds within a day, a calendar run within a week that fills its
      bounds; and only a Stop names another request. */
  lemma RequestIsValidExactlyIf(r: Request)
    ensures
      ValidRequest(r) <==>
        && 5 <= r.ttl && r.ttl <= 300
        && (r.supersedes.None? || (r.kind == Stop && r.supersedes != Some(r.request)))
        && match r.kind
           case SetFrequency(hz) => 0.0 <= hz && hz <= 100.0
           case StartProgram(steps) => PlanWithin(steps, 86400)
           case StartSchedule(run) => PlanWithin(run.steps, 604800) && run.startsAt + Total(run.steps) == run.stopsAt
           case Start => true
           case Stop => true
           case SetSource => true
           case SetParameter => true
  {
  }

  ghost predicate PlanWithin(steps: seq<Step>, longest: int)
  {
    && steps != [] && |steps| <= 8 && Total(steps) <= longest
    && forall i | 0 <= i < |steps| ::
          0.0 < steps[i].hz && steps[i].hz <= 100.0 && 10 <= steps[i].seconds && steps[i].seconds <= longest
  }

  /** The stored row is just what this request would have stored. */
  ghost predicate SameRequest(c: Row, r: Request)
  {
    c.request == r.request ==>
      c.device == r.device && c.actor == r.actor && c.supersedes == r.supersedes && c.kind == r.kind
      && c.ttl == r.ttl && c.target == r.target
  }

  /** Which answer a request gets; only a creation has an effect. A known request is answered before
      anything is checked but the capability, and equipment before the end of the numbers. */
  lemma CreateAnswers(s: Store, id: nat, r: Request, createdAt: int, unavailable: bool, refused: bool,
      binding: Option<Option<Target>>)
    requires forall q | q in s.byRequest :: s.byRequest[q] in s.rows && s.rows[s.byRequest[q]].request == q
    ensures
      var (t, reply) := Create(s, id, r, createdAt, unavailable, refused, binding);
      var known := r.request in s.byRequest;
      && (reply.Unavailable? <==> unavailable)
      && (reply.Existing? <==> !unavailable && known && SameRequest(s.rows[s.byRequest[r.request]], r))
      && (reply.Existing? ==> reply.id == s.byRequest[r.request])
      && (reply.RequestConflict? <==> !unavailable && known && !SameRequest(s.rows[s.byRequest[r.request]], r))
      && (reply.NotAllowed? <==> !unavailable && !known && refused)
      && (reply.BindingChanged? <==> !unavailable && !known && !refused && (binding.None? || binding.value != r.target))
      && (reply.Exhausted? <==>
            !unavailable && !known && !refused && binding == Some(r.target)
              && LastSequence(s, r.device) >= 9007199254740991)
      && (reply.Created? ==> reply.id == id && r.request !in s.byRequest)
      && (reply.Created? ==> LastSequence(s, r.device) < 9007199254740991)
      && (!reply.Created? ==> t == s)
  {
    hide Register, LastSequence;
  }

  /** A row that is stopped: what was never sent is cancelled, the rest is left open for its result. */
  ghost predicate StoppedAt(c: Row, d: Row, at: int)
  {
    && d.error == Some(SupersededByStop) && d.attempts == c.attempts && SameIdentity(c, d)
    && (c.attempts == 0 ==> d.status.Cancelled? && d.completedAt == Some(at))
    && (c.attempts > 0 ==> d.status.ResultUnknown? && d.timedOutAt == Some(at) && d.completedAt.None?)
  }

  /** A Stop of this author and device has named the request. */
  ghost predicate Named(rows: map<nat, Row>, r: Request)
  {
    exists i | i in rows ::
      && rows[i].kind.Stop? && rows[i].supersedes == Some(r.request) && rows[i].device == r.device
      && rows[i].actor == r.actor
  }

  /** The row that is stored first: the next number of the device, the request as it came, and its
      expiry; cancelled at once if a Stop has named it. */
  lemma FirstRowIs(s: Store, r: Request, createdAt: int)
    ensures
      var c := FirstRow(s, r, createdAt);
      && c.sequence == LastSequence(s, r.device) + 1 && c.request == r.request && c.device == r.device
      && c.attempts == 0 && SameRequest(c, r) && Honest(c)
      && c.createdAt == createdAt && c.expiresAt == createdAt + r.ttl * SECOND
      && (Named(s.rows, r) ==> c.status.Cancelled? && c.error == Some(SupersededByStop))
      && (!Named(s.rows, r) ==> c.status.Queued? && c.error.None?)
  {
    NamedMeans(s.rows, r);
    hide SupersedingStop, Named;
  }

  lemma NamedMeans(rows: map<nat, Row>, r: Request)
    ensures Named(rows, r) <==> SupersedingStop(rows, r)
  {
  }

  /** Filing it: a Stop that no Stop has named ends all that is pending on its device; nothing else
      changes but the index and the number of the device. */
  lemma CreateDoes(s: Store, id: nat, r: Request, createdAt: int)
    requires id !in s.rows && forall i | i in s.rows :: Honest(s.rows[i])
    ensures
      var t := Register(s, id, r, createdAt);
      var stops := r.kind.Stop? && !Named(s.rows, r);
      && t.rows.Keys == s.rows.Keys + {id} && t.rows[id] == FirstRow(s, r, createdAt)
      && t.byRequest == s.byRequest[r.request := id]
      && t.sequence == s.sequence[r.device := LastSequence(s, r.device) + 1]
      && t.lastStop == (if stops then s.lastStop[r.device := createdAt] else s.lastStop)
      && (forall i | i in s.rows ::
            if stops && s.rows[i].device == r.device && (s.rows[i].status.Queued? || s.rows[i].status.Published?)
            then StoppedAt(s.rows[i], t.rows[i], createdAt)
            else t.rows[i] == s.rows[i])
  {
    StopEndsPending(s.rows, r.device, createdAt);
    NamedMeans(s.rows, r);
    hide StopPending, FirstRow, StoppedAt, SupersedingStop, Named, Honest;
  }

  lemma StopEndsPending(rows: map<nat, Row>, device: nat, now: int)
    requires forall i | i in rows :: Honest(rows[i])
    ensures
      var t := StopPending(rows, device, now);
      && t.Keys == rows.Keys
      && forall i | i in rows ::
           if rows[i].device == device && (rows[i].status.Queued? || rows[i].status.Published?)
           then StoppedAt(rows[i], t[i], now) else t[i] == rows[i]
  {
  }

  /** The same request again, whatever the policy says by then, finds the first and changes nothing. */
  lemma RepeatedRequestIsIdempotent(s: Store, id: nat, r: Request, createdAt: int, binding: Option<Option<Target>>,
      other: nat, later: int, refused: bool, latest: Option<Option<Target>>)
    requires Create(s, id, r, createdAt, false, false, binding).1.Created?
    ensures
      var t := Create(s, id, r, createdAt, false, false, binding).0;
      Create(t, other, r, later, false, refused, latest) == (t, Existing(id))
  {
    hide SupersedingStop, StopPending;
  }

  /** The message carries the command as it was stored, in version 3 exactly with an equipment target. */
  lemma EnvelopeCarriesTheRow(id: nat, c: Row)
    ensures
      var e := EnvelopeOf(id, c);
      && e.id == id && e.device == c.device && e.request == c.request && e.sequence == c.sequence
      && e.kind == c.kind && e.target == c.target && e.issuedAt == c.createdAt && e.expiresAt == c.expiresAt
      && e.ttl == c.ttl
      && (e.version == 3 <==> e.target.Some?) && (e.version == 2 <==> e.target.None?)
  {
  }

  // ---------------------------------------------------------------- replayed replies

  datatype Packet = AckPacket | ResultPacket(verdict: Verdict)

  /** A packet as it is processed: the time is the receiver's. */
  datatype Arrival = Arrival(packet: Packet, at: int)

  function Receive(cfg: Config, c: Row, a: Arrival): Row
  {
    match a.packet
    case AckPacket => Acknowledge(cfg, c, a.at).0
    case ResultPacket(v) => Complete(c, v, a.at).0
  }

  function ReceiveAll(cfg: Config, c: Row, arrivals: seq<Arrival>): Row
  {
    if arrivals == [] then c else Receive(cfg, ReceiveAll(cfg, c, arrivals[..|arrivals| - 1]), arrivals[|arrivals| - 1])
  }

  /** The row has taken all it will ever take from this packet. */
  ghost predicate Absorbs(cfg: Config, c: Row, p: Packet)
  {
    forall at: int :: Receive(cfg, c, Arrival(p, at)) == c
  }

  lemma ReceivedIsAbsorbed(cfg: Config, c: Row, a: Arrival)
    requires Honest(c)
    ensures Absorbs(cfg, Receive(cfg, c, a), a.packet)
  {
  }

  lemma AbsorbedStaysAbsorbed(cfg: Config, c: Row, p: Packet, a: Arrival)
    requires Honest(c) && Absorbs(cfg, c, p)
    ensures Absorbs(cfg, Receive(cfg, c, a), p)
  {
    assert Receive(cfg, c, Arrival(p, 0)) == c;
  }

  lemma {:induction false} ReceiveAllHonest(cfg: Config, c: Row, arrivals: seq<Arrival>)
    requires Honest(c)
    ensures Honest(ReceiveAll(cfg, c, arrivals))
  {
    if arrivals != [] {
      var n := |arrivals| - 1;
      ReceiveAllHonest(cfg, c, arrivals[..n]);
    }
  }

  /** Replaying any packet that was already processed, at any later time and after any other
      packets, changes nothing at all: in particular it never extends a deadline. */
  lemma {:induction false} ReplayChangesNothing(cfg: Config, c: Row, arrivals: seq<Arrival>, again: Arrival)
    requires Honest(c)
    requires exists a :: a in arrivals && a.packet == again.packet
    ensures Absorbs(cfg, ReceiveAll(cfg, c, arrivals), again.packet)
    ensures ReceiveAll(cfg, c, arrivals + [again]) == ReceiveAll(cfg, c, arrivals)
  {
    var n := |arrivals| - 1;
    var before := ReceiveAll(cfg, c, arrivals[..n]);
    ReceiveAllHonest(cfg, c, arrivals[..n]);
    if arrivals[n].packet == again.packet {
      ReceivedIsAbsorbed(cfg, before, arrivals[n]);
    } else {
      var a :| a in arrivals && a.packet == again.packet;
      var k :| 0 <= k < |arrivals| && arrivals[k] == a;
      assert arrivals[..n][k] == a;
      ReplayChangesNothing(cfg, c, arrivals[..n], again);
      AbsorbedStaysAbsorbed(cfg, before, again.packet, arrivals[n]);
    }
    assert (arrivals + [again])[..|arrivals|] == arrivals;
  }

  /** One controller sends one verdict: every arrival agrees with it, and it does arrive. */
  ghost predicate Agree(arrivals: seq<Arrival>, v: Verdict)
  {
    && (forall a | a in arrivals :: a.packet == AckPacket || a.packet == ResultPacket(v))
    && exists a :: a in arrivals && a.packet == ResultPacket(v)
  }

  /** The row has been attempted, and records the verdict exactly if it has arrived. */
  ghost predicate Holds(c: Row, v: Verdict, arrived: bool)
  {
    Honest(c) && c.attempts > 0 && if arrived then Records(c, v) else !Terminal(c.status)
  }

  lemma VerdictStep(cfg: Config, c: Row, a: Arrival, v: Verdict, arrived: bool)
    requires Holds(c, v, arrived) && (a.packet == AckPacket || a.packet == ResultPacket(v))
    ensures Holds(Receive(cfg, c, a), v, arrived || a.packet == ResultPacket(v))
  {
    hide ResultTimeoutSeconds;
  }

  lemma {:induction false} VerdictArrives(cfg: Config, c: Row, arrivals: seq<Arrival>, v: Verdict)
    requires Honest(c) && c.attempts > 0 && !Terminal(c.status)
    requires forall a | a in arrivals :: a.packet == AckPacket || a.packet == ResultPacket(v)
    ensures Holds(ReceiveAll(cfg, c, arrivals), v, exists a :: a in arrivals && a.packet == ResultPacket(v))
  {
    hide Honest, Receive, Records;
    if arrivals != [] {
      var n := |arrivals| - 1;
      forall a | a in arrivals[..n] ensures a in arrivals {}
      VerdictArrives(cfg, c, arrivals[..n], v);
      assert arrivals[n] in arrivals;
      assert arrivals == arrivals[..n] + [arrivals[n]];
      VerdictStep(cfg, ReceiveAll(cfg, c, arrivals[..n]), arrivals[n], v,
        exists a :: a in arrivals[..n] && a.packet == ResultPacket(v));
    }
  }

  /** Acknowledgements and results in any order, any number of times and at any times lead to
      the same final status and the same stored result. */
  lemma FinalStateIsOrderFree(cfg: Config, c: Row, one: seq<Arrival>, other: seq<Arrival>, v: Verdict)
    requires Honest(c) && c.attempts > 0 && !Terminal(c.status)
    requires Agree(one, v) && Agree(other, v)
    ensures
      var x, y := ReceiveAll(cfg, c, one), ReceiveAll(cfg, c, other);
      Records(x, v) && x.status == y.status && x.data == y.data && x.error == y.error
  {
    VerdictArrives(cfg, c, one, v);
    VerdictArrives(cfg, c, other, v);
  }
}
