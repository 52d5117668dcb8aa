/** The reliability worker: which commands one cycle picks, what the cycle does to them, and why
    no command is starved and an idle queue drains. */
module Worker {
  import opened Commands
  import opened CommandService
  import opened Options

  /** One clock reading of a cycle, and when each device was last seen (microseconds). */
  datatype View = View(now: int, seen: map<nat, int>, window: nat)

  predicate Online(v: View, device: nat) { device in v.seen && v.seen[device] >= v.now - v.window }

  predicate RetryDue(cfg: Config, c: Row, now: int)
  {
    c.lastAttemptAt.None? || c.lastAttemptAt.value <= now - cfg.retryInterval * SECOND
  }

  /** The filter of the candidate query. */
  predicate Due(cfg: Config, c: Row, v: View)
  {
    || (Pending(c) && (c.expiresAt <= v.now || (Online(v, c.device) && RetryDue(cfg, c, v.now))))
    || (c.status.Acknowledged? && (c.resultDeadlineAt.None? || c.resultDeadlineAt.value <= v.now))
  }

  /** Ending a time to live or a wait for a result comes before delivery. */
  predicate Urgent(c: Row, now: int) { c.expiresAt <= now || c.status.Acknowledged? }

  predicate Deliverable(cfg: Config, c: Row, v: View) { Due(cfg, c, v) && !Urgent(c, v.now) }

  /** The sort key of the candidate query. */
  datatype Key = Key(group: nat, first: int, deadline: int, created: int, id: nat)

  function ReadyAt(cfg: Config, c: Row): int
  {
    if c.lastAttemptAt.Some? then c.lastAttemptAt.value + cfg.retryInterval * SECOND else c.createdAt
  }

  function KeyOf(cfg: Config, id: nat, c: Row, now: int): Key
  {
    var deadline := c.resultDeadlineAt.GetOr(c.expiresAt);
    if Urgent(c, now) then Key(0, deadline, deadline, c.createdAt, id)
      else Key(1, ReadyAt(cfg, c), deadline, c.createdAt, id)
  }

  predicate Less(a: Key, b: Key)
  {
    if a.group != b.group then a.group < b.group
    else if a.first != b.first then a.first < b.first
    else if a.deadline != b.deadline then a.deadline < b.deadline
    else if a.created != b.created then a.created < b.created
    else a.id < b.id
  }

  predicate Before(cfg: Config, rows: map<nat, Row>, now: int, i: nat, j: nat)
    requires i in rows && j in rows
  {
    Less(KeyOf(cfg, i, rows[i], now), KeyOf(cfg, j, rows[j], now))
  }

  function Candidates(cfg: Config, rows: map<nat, Row>, v: View): set<nat> { set i | i in rows && Due(cfg, rows[i], v) }

  /** `batch` lists the first `limit` candidates in order. */
  ghost predicate IsBatch(cfg: Config, rows: map<nat, Row>, v: View, limit: nat, batch: seq<nat>)
  {
    && |batch| == Min(limit, |Candidates(cfg, rows, v)|)
    && (forall k | 0 <= k < |batch| :: batch[k] in Candidates(cfg, rows, v))
    && (forall j, k | 0 <= j < k < |batch| :: Before(cfg, rows, v.now, batch[j], batch[k]))
    && (forall k, i | 0 <= k < |batch| && i in Candidates(cfg, rows, v) && i !in batch ::
          Before(cfg, rows, v.now, batch[k], i))
  }

  // ---------------------------------------------------------------- what the query means

  /** A device counts as online for the window after it was last seen. */
  lemma OnlineForAWindow(seen: map<nat, int>, window: nat, device: nat, now: int)
    ensures Online(View(now, seen, window), device) <==> device in seen && now <= seen[device] + window
  {
  }

  /** The query finds exactly the rows for which a dispatch at that reading has something to do: an
      attempt, the end of a time to live, or the end of a wait. */
  lemma DueIsWork(cfg: Config, c: Row, v: View)
    requires ValidConfig(cfg) && Honest(c)
    ensures
      var step := BeginDispatch(cfg, c, v.now, true, None, Online(v, c.device)).1;
      Due(cfg, c, v) <==> step.Sending? || step.DeliveryOver? || step.TimedOut?
  {
  }

  /** The order of the query: what has run out comes first, by its deadline; then deliveries, by the time
      they became ready and then by their expiry; equal ones in the order of creation, then by id. */
  lemma OrderMeans(cfg: Config, rows: map<nat, Row>, v: View, i: nat, j: nat)
    requires i in rows && j in rows && i != j && Honest(rows[i]) && Honest(rows[j])
    requires Due(cfg, rows[i], v) && Due(cfg, rows[j], v)
    ensures
      var a, b := rows[i], rows[j];
      var over, done := a.expiresAt <= v.now || a.status.Acknowledged?, b.expiresAt <= v.now || b.status.Acknowledged?;
      var first, other := Limit(a), Limit(b);
      Before(cfg, rows, v.now, i, j) <==>
        || (over && !done)
        || (over && done && (first < other || (first == other && EarlierFiled(i, a, j, b))))
        || (!over && !done
            && (|| ReadyAt(cfg, a) < ReadyAt(cfg, b)
                || (ReadyAt(cfg, a) == ReadyAt(cfg, b) && a.expiresAt < b.expiresAt)
                || (ReadyAt(cfg, a) == ReadyAt(cfg, b) && a.expiresAt == b.expiresAt && EarlierFiled(i, a, j, b))))
  {
  }

  /** When the row runs out: the deadline of its result once it has one, and its expiry before. */
  function Limit(c: Row): int { if c.resultDeadlineAt.Some? then c.resultDeadlineAt.value else c.expiresAt }

  predicate EarlierFiled(i: nat, a: Row, j: nat, b: Row)
  {
    a.createdAt < b.createdAt || (a.createdAt == b.createdAt && i < j)
  }

  /** A new command is ready at once, another one a full interval after its last attempt. */
  lemma ReadyMeans(cfg: Config, c: Row)
    requires Honest(c)
    ensures c.attempts == 0 ==> ReadyAt(cfg, c) == c.createdAt
    ensures c.attempts > 0 ==> ReadyAt(cfg, c) == c.lastAttemptAt.value + cfg.retryInterval * SECOND
  {
  }

  // ---------------------------------------------------------------- one cycle

  /** What happens to one dispatch: it raises before its first commit, it raises between its two
      transactions, or it is carried through. Each dispatch takes its own reading of the clock and
      of the device's presence under the lock. */
  datatype Answer =
    | Raises
    | RaisesBetween(now: int, online: bool, rejection: Option<nat>)
    | Answers(now: int, online: bool, rejection: Option<nat>, failure: Option<nat>)

  function AnswerTo(answers: map<nat, Answer>, id: nat): Answer { if id in answers then answers[id] else Raises }

  function DispatchRow(cfg: Config, c: Row, a: Answer): Row
  {
    if a.Raises? then c
    else
      var (b, step) := BeginDispatch(cfg, c, a.now, true, a.rejection, a.online);
      if step.Sending? && a.Answers? then FinishDispatch(b, step.attempt, a.failure) else b
  }

  /** The attempt is made and the transport accepts it. */
  predicate Transmits(cfg: Config, c: Row, a: Answer)
  {
    a.Answers? && BeginDispatch(cfg, c, a.now, true, a.rejection, a.online).1.Sending? && a.failure.None?
  }

  function AfterCycle(cfg: Config, rows: map<nat, Row>, batch: seq<nat>, answers: map<nat, Answer>): map<nat, Row>
  {
    map i | i in rows :: if i in batch then DispatchRow(cfg, rows[i], AnswerTo(answers, i)) else rows[i]
  }

  method Least(cfg: Config, rows: map<nat, Row>, now: int, ids: set<nat>) returns (least: nat)
    requires ids <= rows.Keys && ids != {}
    ensures least in ids && forall i | i in ids && i != least :: Before(cfg, rows, now, least, i)
  {
    hide KeyOf;
    least :| least in ids;
    var rest := ids - {least};
    while rest != {}
      invariant least in ids && rest <= ids
      invariant forall i | i in ids && i !in rest && i != least :: Before(cfg, rows, now, least, i)
      invariant least !in rest
      decreases rest
    {
      var i :| i in rest;
      KeysDiffer(cfg, i, rows[i], least, rows[least], now);
      if Before(cfg, rows, now, i, least) {
        least := i;
      }
      rest := rest - {i};
    }
  }

  lemma KeysDiffer(cfg: Config, i: nat, a: Row, j: nat, b: Row, now: int)
    ensures KeyOf(cfg, i, a, now).id == i && KeyOf(cfg, j, b, now).id == j
  {
  }

  /** The candidate query. */
  method ListCandidates(cfg: Config, rows: map<nat, Row>, v: View, limit: nat) returns (batch: seq<nat>)
    ensures IsBatch(cfg, rows, v, limit, batch)
  {
    hide Due, Before;
    var all := Candidates(cfg, rows, v);
    var rest := all;
    batch := [];
    while |batch| < limit && rest != {}
      invariant |batch| + |rest| == |all| && |batch| <= limit
      invariant rest <= all && forall i | i in all :: i in rest || i in batch
      invariant forall k | 0 <= k < |batch| :: batch[k] in all
      invariant forall j, k | 0 <= j < k < |batch| :: Before(cfg, rows, v.now, batch[j], batch[k])
      invariant forall k, i | 0 <= k < |batch| && i in rest :: Before(cfg, rows, v.now, batch[k], i)
      decreases rest
    {
      var next := Least(cfg, rows, v.now, rest);
      rest := rest - {next};
      batch := batch + [next];
    }
    assert rest == {} ==> |rest| == 0;
  }

  /** How many of the listed commands are transmitted. */
  function CountTransmitted(cfg: Config, rows: map<nat, Row>, ids: seq<nat>, answers: map<nat, Answer>): nat
    requires forall k | 0 <= k < |ids| :: ids[k] in rows
  {
    if ids == [] then 0
    else
      var n := |ids| - 1;
      CountTransmitted(cfg, rows, ids[..n], answers)
      + if Transmits(cfg, rows[ids[n]], AnswerTo(answers, ids[n])) then 1 else 0
  }

  /** One dispatch of the worker: both transactions and the network call between them. */
  method DispatchOne(cfg: Config, service: CommandService, id: nat, a: Answer) returns (transmitted: bool)
    requires service.Valid() && id in service.rows
    modifies service.rows.Values
    ensures service.Valid() && service.rows == old(service.rows)
    ensures service.Rows() == old(service.Rows())[id := DispatchRow(cfg, old(service.Rows())[id], a)]
    ensures transmitted == Transmits(cfg, old(service.Rows())[id], a)
  {
    hide Commands.BeginDispatch, Commands.FinishDispatch, DeviceCommand.Value;
    if a.Raises? {
      return false;
    }
    var step := service.Dispatch(cfg, id, a.now, true, a.rejection, a.online);
    if !step.Sending? || !a.Answers? {
      return false;
    }
    service.FinishDispatch(id, step.attempt, a.failure);
    return a.failure.None?;
  }

  /** One cycle over the command table; a dispatch that raises is counted and skipped. */
  method RunCycle(cfg: Config, service: CommandService, v: View, limit: nat, answers: map<nat, Answer>)
    returns (batch: seq<nat>, published: nat)
    requires service.Valid()
    modifies service.rows.Values
    ensures service.Valid() && service.rows == old(service.rows)
    ensures IsBatch(cfg, old(service.Rows()), v, limit, batch)
    ensures forall k | 0 <= k < |batch| :: batch[k] in old(service.Rows())
    ensures service.Rows() == AfterCycle(cfg, old(service.Rows()), batch, answers)
    ensures published == CountTransmitted(cfg, old(service.Rows()), batch, answers)
  {
    hide IsBatch, Transmits, DispatchRow, Due, DeviceCommand.Value, AfterCycle;
    var rows := map i | i in service.rows :: service.rows[i].Value();
    batch := ListCandidates(cfg, rows, v, limit);
    BatchIsDistinct(cfg, rows, v, limit, batch);
    NoCycleYet(cfg, rows, answers);
    published := 0;
    for k := 0 to |batch|
      invariant service.Valid() && service.rows == old(service.rows)
      invariant service.Rows() == AfterCycle(cfg, rows, batch[..k], answers)
      invariant published == CountTransmitted(cfg, rows, batch[..k], answers)
    {
      CycleStep(cfg, rows, batch, answers, k);
      var transmitted := DispatchOne(cfg, service, batch[k], AnswerTo(answers, batch[k]));
      if transmitted {
        published := published + 1;
      }
    }
    assert batch[..|batch|] == batch;
  }

  /** A cycle changes exactly the rows it picked, each by its own answer; without one the dispatch raised. */
  lemma CycleDoes(cfg: Config, rows: map<nat, Row>, batch: seq<nat>, answers: map<nat, Answer>, i: nat)
    requires i in rows
    ensures
      var after := AfterCycle(cfg, rows, batch, answers);
      && after.Keys == rows.Keys
      && (i !in batch ==> after[i] == rows[i])
      && (i in batch && i !in answers ==> after[i] == rows[i])
      && (i in batch && i in answers ==> after[i] == DispatchRow(cfg, rows[i], answers[i]))
  {
  }

  /** The picked commands whose dispatch is transmitted. */
  ghost function TransmittedOnes(cfg: Config, rows: map<nat, Row>, ids: seq<nat>, answers: map<nat, Answer>): set<nat>
    requires forall k | 0 <= k < |ids| :: ids[k] in rows
  {
    set i | i in ids && i in answers && Transmits(cfg, rows[i], answers[i])
  }

  lemma OneMoreTransmitted(cfg: Config, rows: map<nat, Row>, ids: seq<nat>, answers: map<nat, Answer>)
    requires ids != [] && forall k | 0 <= k < |ids| :: ids[k] in rows
    requires forall j, k | 0 <= j < k < |ids| :: ids[j] != ids[k]
    ensures
      var n := |ids| - 1;
      var before := TransmittedOnes(cfg, rows, ids[..n], answers);
      && ids[n] !in before
      && TransmittedOnes(cfg, rows, ids, answers)
         == if Transmits(cfg, rows[ids[n]], AnswerTo(answers, ids[n])) then before + {ids[n]} else before
  {
    hide Transmits;
    var n := |ids| - 1;
    assert ids == ids[..n] + [ids[n]] && ids[n] !in ids[..n];
    RaisesTransmitsNothing(cfg, rows[ids[n]]);
  }

  lemma RaisesTransmitsNothing(cfg: Config, c: Row)
    ensures !Transmits(cfg, c, Raises)
  {
  }

  /** The count of a cycle is the number of commands it transmitted. */
  lemma {:induction false} CountMeans(cfg: Config, rows: map<nat, Row>, ids: seq<nat>, answers: map<nat, Answer>)
    requires forall k | 0 <= k < |ids| :: ids[k] in rows
    requires forall j, k | 0 <= j < k < |ids| :: ids[j] != ids[k]
    ensures CountTransmitted(cfg, rows, ids, answers) == |TransmittedOnes(cfg, rows, ids, answers)|
  {
    hide Transmits, AnswerTo;
    if ids == [] {
      assert TransmittedOnes(cfg, rows, ids, answers) == {};
    } else {
      hide TransmittedOnes;
      CountMeans(cfg, rows, ids[..|ids| - 1], answers);
      OneMoreTransmitted(cfg, rows, ids, answers);
    }
  }

  lemma NoCycleYet(cfg: Config, rows: map<nat, Row>, answers: map<nat, Answer>)
    ensures AfterCycle(cfg, rows, [], answers) == rows
  {
  }

  lemma CycleStep(cfg: Config, rows: map<nat, Row>, batch: seq<nat>, answers: map<nat, Answer>, k: nat)
    requires k < |batch| && (forall k | 0 <= k < |batch| :: batch[k] in rows)
    requires forall j, k | 0 <= j < k < |batch| :: batch[j] != batch[k]
    ensures
      var done, a := AfterCycle(cfg, rows, batch[..k], answers), AnswerTo(answers, batch[k]);
      && batch[k] in done && done[batch[k]] == rows[batch[k]]
      && AfterCycle(cfg, rows, batch[..k + 1], answers) == done[batch[k] := DispatchRow(cfg, rows[batch[k]], a)]
    ensures
      CountTransmitted(cfg, rows, batch[..k + 1], answers)
      == CountTransmitted(cfg, rows, batch[..k], answers)
        + if Transmits(cfg, rows[batch[k]], AnswerTo(answers, batch[k])) then 1 else 0
  {
    hide DispatchRow, Transmits;
    assert batch[..k + 1] == batch[..k] + [batch[k]];
    assert batch[..k + 1][..k] == batch[..k];
  }

  lemma BatchIsDistinct(cfg: Config, rows: map<nat, Row>, v: View, limit: nat, batch: seq<nat>)
    requires IsBatch(cfg, rows, v, limit, batch)
    ensures forall k | 0 <= k < |batch| :: batch[k] in rows
    ensures forall j, k | 0 <= j < k < |batch| :: batch[j] != batch[k]
  {
  }

  /** The query has one answer. */
  lemma {:induction false} BatchIsUnique(cfg: Config, rows: map<nat, Row>, v: View, limit: nat, one: seq<nat>,
      other: seq<nat>)
    requires IsBatch(cfg, rows, v, limit, one) && IsBatch(cfg, rows, v, limit, other)
    ensures one == other
  {
    hide Due;
    for k := 0 to |one|
      invariant one[..k] == other[..k]
    {
      Precedes(cfg, rows, v, limit, one, other, k);
      Precedes(cfg, rows, v, limit, other, one, k);
      assert one[..k + 1] == one[..k] + [one[k]] && other[..k + 1] == other[..k] + [other[k]];
    }
    assert one[..|one|] == one && other[..|other|] == other;
  }

  lemma Precedes(cfg: Config, rows: map<nat, Row>, v: View, limit: nat, one: seq<nat>, other: seq<nat>, k: nat)
    requires IsBatch(cfg, rows, v, limit, one) && IsBatch(cfg, rows, v, limit, other)
    requires k < |one| && one[..k] == other[..k]
    ensures one[k] in rows && other[k] in rows && (one[k] == other[k] || Before(cfg, rows, v.now, one[k], other[k]))
  {
    hide Due, Before;
    BatchIsDistinct(cfg, rows, v, limit, other);
    if other[k] in one && one[k] != other[k] {
      var m :| 0 <= m < |one| && one[m] == other[k];
      if m < k {
        assert one[..k][m] == other[..k][m];
      }
    }
  }

  // ---------------------------------------------------------------- what one cycle achieves

  /** A dispatch counts as transmitted exactly if it made an attempt, was carried through, and the row
      shows no transport error; one that raises before its commit leaves the row as it was. */
  lemma TransmittedMeans(cfg: Config, c: Row, a: Answer)
    requires Honest(c)
    ensures
      var d := DispatchRow(cfg, c, a);
      && (a.Raises? ==> d == c)
      && (Transmits(cfg, c, a) <==> a.Answers? && d.attempts == c.attempts + 1 && d.publishError.None?)
      && (a.Answers? && d.attempts == c.attempts + 1 ==> d.publishError == a.failure)
      && (d.attempts == c.attempts || d.attempts == c.attempts + 1)
      && (a.RaisesBetween? && d.attempts == c.attempts + 1 ==> d.publishError.None? && d.status.Published?)
  {
  }

  /** A row as it may have changed by the hands of others since it was read at `since`. */
  ghost predicate Later(a: Row, b: Row, since: int)
  {
    && Progress(a, b)
    && (a.attempts == b.attempts ==> b.lastAttemptAt == a.lastAttemptAt)
    && (a.attempts < b.attempts ==> b.lastAttemptAt.Some? && b.lastAttemptAt.value >= since)
  }

  /** The command was attempted, has left the queue, or has got a deadline. */
  predicate Moved(a: Row, b: Row)
  {
    || b.attempts > a.attempts
    || (Pending(a) && !Pending(b))
    || (a.status.Acknowledged? && !b.status.Acknowledged?)
    || (a.resultDeadlineAt.None? && b.resultDeadlineAt.Some?)
  }

  /** The dispatch reaches its row, not before the cycle's reading, and the device has not gone
      offline in between. */
  predicate InTime(v: View, device: nat, a: Answer) { !a.Raises? && v.now <= a.now && (Online(v, device) ==> a.online) }

  /** Every selected candidate whose dispatch commits moves, even if others dispatched or answered it
      in between, and is no longer due at the cycle's own clock reading; only a device that has gone
      offline since can leave its row as it is. */
  lemma SelectedMoves(cfg: Config, selected: Row, c: Row, v: View, a: Answer)
    requires ValidConfig(cfg) && Honest(selected) && Honest(c)
    requires Due(cfg, selected, v) && Later(selected, c, v.now) && !a.Raises? && v.now <= a.now
    ensures
      var d := DispatchRow(cfg, c, a);
      || (Moved(selected, d) && !Due(cfg, d, v)
          && (Pending(d) ==> d.lastAttemptAt.Some? && d.lastAttemptAt.value + cfg.retryInterval * SECOND > v.now))
      || (Online(v, c.device) && !a.online && d == c)
  {
    hide Due, Later, Moved, DispatchRow, Honest;
    if Pending(c) { PendingMoves(cfg, selected, c, v, a); } else { ClosedMoves(cfg, selected, c, v, a); }
  }

  lemma PendingMoves(cfg: Config, selected: Row, c: Row, v: View, a: Answer)
    requires ValidConfig(cfg) && Honest(selected) && Honest(c) && Pending(c)
    requires Due(cfg, selected, v) && Later(selected, c, v.now) && !a.Raises? && v.now <= a.now
    ensures
      var d := DispatchRow(cfg, c, a);
      || (Moved(selected, d) && !Due(cfg, d, v)
          && (Pending(d) ==> d.lastAttemptAt.Some? && d.lastAttemptAt.value + cfg.retryInterval * SECOND > v.now))
      || (Online(v, c.device) && !a.online && d == c)
  {
    assert cfg.retryInterval * SECOND > 0;
  }

  lemma ClosedMoves(cfg: Config, selected: Row, c: Row, v: View, a: Answer)
    requires ValidConfig(cfg) && Honest(selected) && Honest(c) && !Pending(c)
    requires Due(cfg, selected, v) && Later(selected, c, v.now) && !a.Raises? && v.now <= a.now
    ensures
      var d := DispatchRow(cfg, c, a);
      || (Moved(selected, d) && !Due(cfg, d, v)
          && (Pending(d) ==> d.lastAttemptAt.Some? && d.lastAttemptAt.value + cfg.retryInterval * SECOND > v.now))
      || (Online(v, c.device) && !a.online && d == c)
  {
  }

  // ---------------------------------------------------------------- fairness

  /** A cycle with what it read and picked, the rows that its dispatches found if others had changed
      them by then, and what it heard. */
  datatype Round = Round(view: View, rows: map<nat, Row>, batch: seq<nat>, seen: map<nat, Row>,
    answers: map<nat, Answer>)

  function Meanwhile(r: Round): map<nat, Row>
  {
    map i | i in r.rows :: if i in r.batch && i in r.seen then r.seen[i] else r.rows[i]
  }

  function After(cfg: Config, r: Round): (rows: map<nat, Row>)
    ensures rows.Keys == r.rows.Keys
  {
    AfterCycle(cfg, Meanwhile(r), r.batch, r.answers)
  }

  /** The dispatch of a pick finds a row that has only progressed, and the clock has not gone back. */
  ghost predicate PickOk(r: Round, i: nat)
    requires i in r.rows
  {
    var a := AnswerTo(r.answers, i);
    Honest(Meanwhile(r)[i]) && Later(r.rows[i], Meanwhile(r)[i], r.view.now) && (!a.Raises? ==> r.view.now <= a.now)
  }

  ghost predicate RoundOk(cfg: Config, limit: nat, r: Round)
  {
    && IsBatch(cfg, r.rows, r.view, limit, r.batch)
    && (forall i | i in r.batch && i in r.rows :: PickOk(r, i))
    && forall i | i in r.rows :: Honest(r.rows[i]) && Spaced(cfg, r.rows[i]) && r.rows[i].createdAt <= r.view.now
  }

  /** The picks whose dispatch raised before its commit, or whose device went offline in between. */
  function Stalled(r: Round): set<nat>
  {
    set j | j in r.batch && j in r.rows && !InTime(r.view, r.rows[j].device, AnswerTo(r.answers, j))
  }

  /** Between two cycles anything may happen to the rows, commands may be filed with any creation
      time, and devices may come and go. */
  ghost predicate Between(cfg: Config, r: Round, s: Round)
  {
    && r.view.now <= s.view.now
    && (forall i | i in After(cfg, r) :: i in s.rows && Later(After(cfg, r)[i], s.rows[i], r.view.now))
  }

  /** The deliverable commands that can have overtaken others: their device was offline in the
      earlier cycle, or they were filed since, with a creation time not after its reading. */
  function Overtakers(cfg: Config, r: Round, s: Round): set<nat>
  {
    set j | j in s.rows && Deliverable(cfg, s.rows[j], s.view)
            && if j in r.rows then !Online(r.view, s.rows[j].device) else s.rows[j].createdAt <= r.view.now
  }

  /** What may hold a waiting command back from one cycle to the next. */
  function Setbacks(cfg: Config, r: Round, s: Round): set<nat> { Overtakers(cfg, r, s) + Stalled(r) }

  /** Every pick is dispatched in time, no device comes back online, and new commands are created
      after the reading. */
  ghost predicate Steady(r: Round, s: Round)
  {
    && (forall j | j in r.batch && j in r.rows :: InTime(r.view, r.rows[j].device, AnswerTo(r.answers, j)))
    && (forall device: nat | Online(s.view, device) :: Online(r.view, device))
    && (forall i | i in s.rows && i !in r.rows :: r.view.now < s.rows[i].createdAt)
  }

  lemma NobodyOvertakes(cfg: Config, r: Round, s: Round)
    requires Steady(r, s)
    ensures Overtakers(cfg, r, s) == {}
  {
  }

  lemma NobodyStalls(r: Round, s: Round)
    requires Steady(r, s)
    ensures Stalled(r) == {}
  {
    hide InTime;
  }

  lemma NoSetback(cfg: Config, r: Round, s: Round)
    requires Steady(r, s)
    ensures Setbacks(cfg, r, s) == {}
  {
    hide Steady, Overtakers, Stalled;
    NobodyOvertakes(cfg, r, s);
    NobodyStalls(r, s);
  }

  function UrgentOnes(cfg: Config, r: Round): set<nat>
  {
    set i | i in r.rows && Due(cfg, r.rows[i], r.view) && Urgent(r.rows[i], r.view.now)
  }

  /** The deliverable commands before this one. */
  function Ahead(cfg: Config, r: Round, i: nat): set<nat>
    requires i in r.rows
  {
    set j | j in r.rows && Deliverable(cfg, r.rows[j], r.view) && Before(cfg, r.rows, r.view.now, j, i)
  }

  /** The command waits: it can be delivered but was not picked. */
  ghost predicate Waits(cfg: Config, r: Round, i: nat)
  {
    i in r.rows && Deliverable(cfg, r.rows[i], r.view) && i !in r.batch
  }

  /** What the key of a deliverable command consists of. */
  lemma DeliverableKey(cfg: Config, id: nat, c: Row, v: View)
    requires Honest(c) && Deliverable(cfg, c, v) && c.createdAt <= v.now
    ensures KeyOf(cfg, id, c, v.now) == Key(1, ReadyAt(cfg, c), c.expiresAt, c.createdAt, id)
    ensures ReadyAt(cfg, c) <= v.now
  {
  }

  /** Whoever is ahead in the next cycle, did not overtake and was not stalled, was ahead before and
      was not picked. */
  lemma StillAhead(cfg: Config, limit: nat, r: Round, s: Round, i: nat, j: nat)
    requires ValidConfig(cfg) && RoundOk(cfg, limit, r) && RoundOk(cfg, limit, s) && Between(cfg, r, s)
    requires Waits(cfg, r, i) && i in s.rows && Deliverable(cfg, s.rows[i], s.view)
    requires s.rows[i].attempts == r.rows[i].attempts
    requires j in Ahead(cfg, s, i) && j !in Setbacks(cfg, r, s)
    ensures j in Ahead(cfg, r, i) && j !in r.batch
  {
    hide IsBatch, Honest, Spaced, Progress, After, Stalled, PickOk, Later;
    var a, b, c := r.rows[i], After(cfg, r)[i], s.rows[i];
    NotPicked(cfg, r, i);
    assert Later(b, c, r.view.now);
    SameRow(b, c, r.view.now);
    DeliverableKey(cfg, i, a, r.view);
    DeliverableKey(cfg, i, c, s.view);
    DeliverableKey(cfg, j, s.rows[j], s.view);
    assert ReadyAt(cfg, s.rows[j]) <= ReadyAt(cfg, c) == ReadyAt(cfg, a) <= r.view.now;
    ReadyAfterCreation(cfg, s.rows[j]);
    WasAhead(cfg, limit, r, s, j);
    DeliverableKey(cfg, j, r.rows[j], r.view);
  }

  /** A command that was ready at the reading, and is deliverable in the next cycle without having
      overtaken or stalled, was deliverable and not picked. */
  lemma WasAhead(cfg: Config, limit: nat, r: Round, s: Round, j: nat)
    requires ValidConfig(cfg) && RoundOk(cfg, limit, r) && Between(cfg, r, s) && j in s.rows
    requires j !in Setbacks(cfg, r, s)
    requires Deliverable(cfg, s.rows[j], s.view) && s.rows[j].createdAt <= ReadyAt(cfg, s.rows[j]) <= r.view.now
    ensures j in r.rows && j !in r.batch && Deliverable(cfg, r.rows[j], r.view)
    ensures ReadyAt(cfg, r.rows[j]) == ReadyAt(cfg, s.rows[j]) && KeptRow(r.rows[j], s.rows[j])
  {
    hide RoundOk, After, Stalled, Later;
    assert j in r.rows;
    var b, c := After(cfg, r)[j], s.rows[j];
    assert j in After(cfg, r) && Later(b, c, r.view.now);
    SameAttempts(cfg, b, c, r.view.now);
    if j in r.batch {
      PickIsNotReady(cfg, limit, r, j);
      assert false;
    }
    NotPicked(cfg, r, j);
  }

  lemma NotPicked(cfg: Config, r: Round, i: nat)
    requires i in r.rows && i !in r.batch
    ensures After(cfg, r)[i] == r.rows[i]
  {
  }

  /** What no transaction ever changes of a row. */
  predicate KeptRow(a: Row, b: Row)
  {
    a.createdAt == b.createdAt && a.expiresAt == b.expiresAt && a.device == b.device
  }

  /** A row that is ready at a reading has not been attempted since. */
  lemma SameAttempts(cfg: Config, b: Row, c: Row, now: int)
    requires ValidConfig(cfg) && Later(b, c, now) && Pending(c) && ReadyAt(cfg, c) <= now
    ensures Pending(b) && ReadyAt(cfg, b) == ReadyAt(cfg, c) && KeptRow(b, c)
  {
    assert cfg.retryInterval * SECOND > 0;
  }

  lemma SameRow(a: Row, b: Row, since: int)
    requires Later(a, b, since)
    ensures KeptRow(a, b) && (a.attempts == b.attempts ==> a.lastAttemptAt == b.lastAttemptAt)
  {
  }

  lemma ReadyAfterCreation(cfg: Config, c: Row)
    requires Honest(c) && Spaced(cfg, c)
    ensures c.createdAt <= ReadyAt(cfg, c)
  {
  }

  /** A pick that was not stalled has moved on: if it is still to be delivered, then not now. */
  lemma PickIsNotReady(cfg: Config, limit: nat, r: Round, j: nat)
    requires ValidConfig(cfg) && RoundOk(cfg, limit, r) && j in r.batch && j !in Stalled(r)
    ensures j in r.rows && (Pending(After(cfg, r)[j]) ==> ReadyAt(cfg, After(cfg, r)[j]) > r.view.now)
  {
    hide IsBatch, Honest, Spaced, Progress, DispatchRow, Due, Later;
    InBatchIsDue(cfg, limit, r, j);
    SameRow(r.rows[j], Meanwhile(r)[j], r.view.now);
    SelectedMoves(cfg, r.rows[j], Meanwhile(r)[j], r.view, AnswerTo(r.answers, j));
  }

  lemma InBatchIsDue(cfg: Config, limit: nat, r: Round, j: nat)
    requires RoundOk(cfg, limit, r) && j in r.batch
    ensures j in r.rows && Due(cfg, r.rows[j], r.view) && PickOk(r, j)
  {
  }

  /** A waiting command's place among the deliverable ones improves by every place of the batch
      that urgent commands leave over, except for those who overtake it or were picked and stalled. */
  lemma PlaceImproves(cfg: Config, limit: nat, r: Round, s: Round, i: nat)
    requires ValidConfig(cfg) && RoundOk(cfg, limit, r) && RoundOk(cfg, limit, s) && Between(cfg, r, s)
    requires Waits(cfg, r, i) && i in s.rows && Deliverable(cfg, s.rows[i], s.view)
    requires s.rows[i].attempts == r.rows[i].attempts
    ensures |Ahead(cfg, s, i)| + Max(0, limit - |UrgentOnes(cfg, r)|) <= |Ahead(cfg, r, i)| + |Setbacks(cfg, r, s)|
  {
    hide Before, Between, RoundOk, Setbacks;
    var picked := set j | j in r.batch && j !in UrgentOnes(cfg, r);
    var setbacks := Setbacks(cfg, r, s);
    PickedAreAhead(cfg, limit, r, i, picked);
    forall j | j in Ahead(cfg, s, i) - setbacks ensures j in Ahead(cfg, r, i) - picked {
      StillAhead(cfg, limit, r, s, i, j);
    }
    SubsetIsSmaller(Ahead(cfg, s, i) - setbacks, Ahead(cfg, r, i) - picked);
    SubsetIsSmaller(Ahead(cfg, s, i), (Ahead(cfg, s, i) - setbacks) + setbacks);
    SubsetIsSmaller(picked, Ahead(cfg, r, i));
  }

  lemma PickedAreAhead(cfg: Config, limit: nat, r: Round, i: nat, picked: set<nat>)
    requires RoundOk(cfg, limit, r) && Waits(cfg, r, i)
    requires picked == set j | j in r.batch && j !in UrgentOnes(cfg, r)
    ensures picked <= Ahead(cfg, r, i) && limit - |UrgentOnes(cfg, r)| <= |picked|
  {
    hide Before, Honest, Spaced, Due, Urgent;
    var ids := Ids(r.batch);
    BatchSize(cfg, r.rows, r.view, limit, r.batch);
    assert ids <= picked + UrgentOnes(cfg, r);
    SubsetIsSmaller(ids, picked + UrgentOnes(cfg, r));
    assert i in Candidates(cfg, r.rows, r.view) && i !in ids;
    forall j | j in picked ensures j in Ahead(cfg, r, i) {
      assert j in Candidates(cfg, r.rows, r.view);
    }
    if |r.batch| < limit {
      SubsetIsSmaller(ids + {i}, Candidates(cfg, r.rows, r.view));
    }
  }

  function Ids(batch: seq<nat>): set<nat> { set j | j in batch }

  lemma BatchSize(cfg: Config, rows: map<nat, Row>, v: View, limit: nat, batch: seq<nat>)
    requires IsBatch(cfg, rows, v, limit, batch)
    ensures Ids(batch) <= Candidates(cfg, rows, v) && |Ids(batch)| == |batch|
  {
    BatchIsDistinct(cfg, rows, v, limit, batch);
    DistinctSize(batch);
  }

  lemma {:induction false} DistinctSize(ids: seq<nat>)
    requires forall j, k | 0 <= j < k < |ids| :: ids[j] != ids[k]
    ensures |Ids(ids)| == |ids|
  {
    if ids != [] {
      var n := |ids| - 1;
      DistinctSize(ids[..n]);
      assert ids == ids[..n] + [ids[n]];
      assert ids[n] !in ids[..n];
      assert Ids(ids) == Ids(ids[..n]) + {ids[n]};
    }
  }

  lemma {:induction false} SubsetIsSmaller<T>(a: set<T>, b: set<T>)
    requires a <= b
    ensures |a| <= |b|
  {
    if a != {} {
      var x :| x in a;
      SubsetIsSmaller(a - {x}, b - {x});
    }
  }

  ghost predicate Consecutive(cfg: Config, limit: nat, rounds: seq<Round>)
  {
    && (forall k | 0 <= k < |rounds| :: RoundOk(cfg, limit, rounds[k]))
    && (forall k | 0 <= k < |rounds| - 1 :: Between(cfg, rounds[k], rounds[k + 1]))
  }

  /** How often anything overtook or stalled during these cycles. */
  function SetbackCount(cfg: Config, rounds: seq<Round>): nat
  {
    if |rounds| < 2 then 0 else |Setbacks(cfg, rounds[0], rounds[1])| + SetbackCount(cfg, rounds[1..])
  }

  /** No command is starved: if each cycle leaves at least `room` places to deliveries, a command
      waits through at most (commands ahead of it + setbacks) / room cycles. */
  lemma {:induction false} NoStarvation(cfg: Config, limit: nat, rounds: seq<Round>, i: nat, room: nat)
    requires ValidConfig(cfg) && |rounds| > 0 && Consecutive(cfg, limit, rounds)
    requires forall k | 0 <= k < |rounds| :: Waits(cfg, rounds[k], i) && |UrgentOnes(cfg, rounds[k])| + room <= limit
    requires i in rounds[0].rows
    requires forall k | 0 <= k < |rounds| ::
      i in rounds[k].rows && rounds[k].rows[i].attempts == rounds[0].rows[i].attempts
    ensures |rounds| * room <= |Ahead(cfg, rounds[0], i)| + SetbackCount(cfg, rounds)
  {
    hide RoundOk, Between, Deliverable, Before, UrgentOnes, Setbacks;
    if |rounds| == 1 {
      var r := rounds[0];
      var picked := set j | j in r.batch && j !in UrgentOnes(cfg, r);
      PickedAreAhead(cfg, limit, r, i, picked);
      SubsetIsSmaller(picked, Ahead(cfg, r, i));
    } else {
      assert Between(cfg, rounds[0], rounds[1]);
      assert Waits(cfg, rounds[1], i);
      NoStarvation(cfg, limit, rounds[1..], i, room);
      PlaceImproves(cfg, limit, rounds[0], rounds[1], i);
      assert |rounds| * room == |rounds[1..]| * room + room;
    }
  }

  /** Where nothing overtakes or stalls, the wait is bounded by the place alone. */
  lemma {:induction false} SteadyWait(cfg: Config, limit: nat, rounds: seq<Round>, i: nat, room: nat)
    requires ValidConfig(cfg) && |rounds| > 0 && Consecutive(cfg, limit, rounds)
    requires forall k | 0 <= k < |rounds| :: Waits(cfg, rounds[k], i) && |UrgentOnes(cfg, rounds[k])| + room <= limit
    requires i in rounds[0].rows
    requires forall k | 0 <= k < |rounds| ::
      i in rounds[k].rows && rounds[k].rows[i].attempts == rounds[0].rows[i].attempts
    requires forall k | 0 <= k < |rounds| - 1 :: Steady(rounds[k], rounds[k + 1])
    ensures |rounds| * room <= |Ahead(cfg, rounds[0], i)|
  {
    hide Consecutive, Waits, UrgentOnes, Setbacks, Ahead, Steady;
    NoStarvation(cfg, limit, rounds, i, room);
    forall k | 0 <= k < |rounds| - 1 ensures Setbacks(cfg, rounds[k], rounds[k + 1]) == {} {
      NoSetback(cfg, rounds[k], rounds[k + 1]);
    }
    NoneCounted(cfg, rounds);
  }

  lemma {:induction false} NoneCounted(cfg: Config, rounds: seq<Round>)
    requires forall k | 0 <= k < |rounds| - 1 :: Setbacks(cfg, rounds[k], rounds[k + 1]) == {}
    ensures SetbackCount(cfg, rounds) == 0
  {
    hide Setbacks;
    if |rounds| >= 2 {
      assert Setbacks(cfg, rounds[0], rounds[1]) == {};
      forall k | 0 <= k < |rounds[1..]| - 1 ensures Setbacks(cfg, rounds[1..][k], rounds[1..][k + 1]) == {} {
        assert Setbacks(cfg, rounds[k + 1], rounds[k + 1 + 1]) == {};
      }
      NoneCounted(cfg, rounds[1..]);
    }
  }

  // ---------------------------------------------------------------- draining

  /** Neither delivered to the end nor given up. */
  predicate Open(c: Row) { Pending(c) || c.status.Acknowledged? }

  function OpenOnes(rows: map<nat, Row>): set<nat> { set i | i in rows && Open(rows[i]) }

  predicate PastDeadline(c: Row, now: int)
  {
    (Pending(c) ==> c.expiresAt <= now)
      && (c.status.Acknowledged? && c.resultDeadlineAt.Some? ==> c.resultDeadlineAt.value <= now)
  }

  /** No new commands, and the others only answer. */
  ghost predicate Quiet(cfg: Config, r: Round, s: Round)
  {
    After(cfg, r).Keys == s.rows.Keys && forall i | i in s.rows :: Progress(After(cfg, r)[i], s.rows[i])
  }

  /** The picks that are left open because their dispatch raised before its commit. */
  function LeftOpen(r: Round): set<nat>
  {
    set i | i in r.batch && i in r.rows && AnswerTo(r.answers, i).Raises? && Open(Meanwhile(r)[i])
  }

  ghost predicate AllPast(r: Round)
  {
    forall i | i in r.rows :: PastDeadline(r.rows[i], r.view.now) && PastDeadline(Meanwhile(r)[i], r.view.now)
  }

  /** One cycle past every deadline closes a whole batch, or everything, but for what raises. */
  lemma RoundCloses(cfg: Config, limit: nat, r: Round)
    requires RoundOk(cfg, limit, r) && AllPast(r)
    ensures |OpenOnes(After(cfg, r))| == |OpenOnes(r.rows)| - Min(limit, |OpenOnes(r.rows)|) + |LeftOpen(r)|
  {
    hide RoundOk, Due, Open, PastDeadline, After, LeftOpen, IsBatch;
    var ids, left := Ids(r.batch), LeftOpen(r);
    BatchOf(cfg, limit, r);
    BatchSize(cfg, r.rows, r.view, limit, r.batch);
    forall i | i in r.rows ensures Due(cfg, r.rows[i], r.view) <==> Open(r.rows[i]) {
      OverdueIsDue(cfg, r.rows[i], r.view);
    }
    assert Candidates(cfg, r.rows, r.view) == OpenOnes(r.rows);
    forall i | i in r.rows ensures Open(After(cfg, r)[i]) <==> if i in ids then i in left else Open(r.rows[i]) {
      OpenAfterRound(cfg, limit, r, i);
    }
    LeftArePicked(r);
    assert OpenOnes(After(cfg, r)) == OpenOnes(r.rows) - ids + left;
  }

  lemma BatchOf(cfg: Config, limit: nat, r: Round)
    requires RoundOk(cfg, limit, r)
    ensures IsBatch(cfg, r.rows, r.view, limit, r.batch) && After(cfg, r).Keys == r.rows.Keys
    ensures |r.batch| == Min(limit, |Candidates(cfg, r.rows, r.view)|)
  {
  }

  lemma LeftArePicked(r: Round)
    ensures LeftOpen(r) <= Ids(r.batch) && LeftOpen(r) <= r.rows.Keys
  {
    hide Open;
  }

  lemma OpenAfterRound(cfg: Config, limit: nat, r: Round, i: nat)
    requires RoundOk(cfg, limit, r) && AllPast(r) && i in r.rows
    ensures Open(After(cfg, r)[i]) <==> if i in r.batch then i in LeftOpen(r) else Open(r.rows[i])
  {
    hide IsBatch, Spaced, DispatchRow, Open, PastDeadline, Later, Honest;
    if i in r.batch {
      assert PickOk(r, i);
      OverdueIsClosed(cfg, Meanwhile(r)[i], r.view, AnswerTo(r.answers, i));
    }
  }

  lemma OverdueIsDue(cfg: Config, c: Row, v: View)
    requires PastDeadline(c, v.now)
    ensures Due(cfg, c, v) <==> Open(c)
  {
  }

  lemma OverdueIsClosed(cfg: Config, c: Row, v: View, a: Answer)
    requires Honest(c) && PastDeadline(c, v.now) && (!a.Raises? ==> v.now <= a.now)
    ensures Open(DispatchRow(cfg, c, a)) <==> a.Raises? && Open(c)
  {
  }

  lemma ClosedStaysClosed(cfg: Config, r: Round, s: Round)
    requires Quiet(cfg, r, s)
    ensures |OpenOnes(s.rows)| <= |OpenOnes(After(cfg, r))|
  {
    forall i | i in OpenOnes(s.rows) ensures i in OpenOnes(After(cfg, r)) {
      assert Progress(After(cfg, r)[i], s.rows[i]);
    }
    SubsetIsSmaller(OpenOnes(s.rows), OpenOnes(After(cfg, r)));
  }

  /** How many picks raised and were left open during these cycles. */
  function LeftCount(rounds: seq<Round>): nat
  {
    if rounds == [] then 0 else |LeftOpen(rounds[0])| + LeftCount(rounds[1..])
  }

  /** The queue drains: past all deadlines and with no new commands, `n` cycles close n * limit
      commands but for those whose dispatch raised, so without raising nothing stays queued,
      published or acknowledged after ceil(count / limit). */
  lemma {:induction false} QueueDrains(cfg: Config, limit: nat, rounds: seq<Round>)
    requires |rounds| > 0
    requires forall k | 0 <= k < |rounds| :: RoundOk(cfg, limit, rounds[k]) && AllPast(rounds[k])
    requires forall k | 0 <= k < |rounds| - 1 :: Quiet(cfg, rounds[k], rounds[k + 1])
    ensures
      var left := OpenOnes(After(cfg, rounds[|rounds| - 1]));
      |left| <= Max(0, |OpenOnes(rounds[0].rows)| - |rounds| * limit) + LeftCount(rounds)
      && (|OpenOnes(rounds[0].rows)| <= |rounds| * limit && LeftCount(rounds) == 0 ==> left == {})
  {
    hide RoundOk, Quiet, AllPast, OpenOnes, After, LeftOpen;
    RoundCloses(cfg, limit, rounds[0]);
    assert |rounds| * limit == (|rounds| - 1) * limit + limit;
    if |rounds| > 1 {
      assert Quiet(cfg, rounds[0], rounds[1]);
      ClosedStaysClosed(cfg, rounds[0], rounds[1]);
      QueueDrains(cfg, limit, rounds[1..]);
    } else {
      assert LeftCount(rounds[1..]) == 0;
    }
  }
}
