/** The whole protocol: interleaved dispatchers, a network that loses, repeats, delays and
    reorders, a controller that restarts, and the replies back. A run is any list of moves;
    a move whose guard fails does nothing. */
module Delivery {
  import opened Commands
  import opened Options
  import opened Plans
  import C = Controller

  /** The one device whose controller is followed; every other device may send anything. */
  const PUMP: nat := 0

  /** A dispatch between its two transactions. */
  datatype Flight = Flight(id: nat, attempt: nat)

  /** One row of the outbox as the sending loop read it, and what it has published of it. */
  datatype Outgoing = Outgoing(verdict: Option<Verdict>, acked: bool, told: bool)

  /** Acknowledgement and result, if the row that was read had one, are out. */
  predicate SentOut(o: Outgoing) { o.acked && (o.verdict.Some? ==> o.told) }

  /** `launched` holds the envelopes committed as attempts, which may be sent at any later time;
      `sent` those that have been on the network, from which anything may arrive any number of
      times; `acks` and `results` likewise hold the replies ever published, and `outgoing` the
      outbox rows the controller's sending loop is working on. */
  datatype World = World(
    now: int, store: Store, flights: map<nat, Flight>, launched: set<Envelope>, sent: set<Envelope>,
    controller: C.Trace, outgoing: map<nat, Outgoing>, acks: set<nat>, results: set<(nat, Verdict)>)

  const EMPTY := World(0, Store(map[], map[], map[], map[]), map[], {}, {}, C.START, map[], {}, {})

  datatype Move =
    | Wait(until: int)
    | Register(id: nat, request: Request, createdAt: int, unavailable: bool, refused: bool,
      binding: Option<Option<Target>>)
    | RaiseFloor(device: nat, floor: nat)
    | Begin(dispatcher: nat, id: nat, allowRetry: bool, rejection: Option<nat>, online: bool)
    | Send(envelope: Envelope)
    | Finish(dispatcher: nat, failure: Option<nat>)
    | Crash(dispatcher: nat)
    | Control(event: C.Event)
    | ReadReply(id: nat)
    | PublishAck(id: nat)
    | PublishResult(id: nat)
    | Confirm(id: nat)
    | Abandon(id: nat)
    | ReceiveAck(id: nat)
    | ReceiveResult(id: nat, verdict: Verdict)
    | ForeignAck(device: nat, id: nat)
    | ForeignResult(device: nat, id: nat, verdict: Verdict)

  function AckFrom(cfg: Config, s: Store, device: nat, id: nat, now: int): Store
  {
    if id in s.rows && s.rows[id].device == device then s.(rows := s.rows[id := Acknowledge(cfg, s.rows[id], now).0])
      else s
  }

  function ResultFrom(s: Store, device: nat, id: nat, v: Verdict, now: int): Store
  {
    if id in s.rows && s.rows[id].device == device then s.(rows := s.rows[id := Complete(s.rows[id], v, now).0]) else s
  }

  /** What the controller may do here: it receives only what was sent to it, and its outbox is
      confirmed only by `Confirm`. */
  predicate Possible(w: World, ev: C.Event)
  {
    match ev
    case Deliver(e, _, _) => e in w.sent && e.device == PUMP
    case Acked(_) => false
    case _ => true
  }

  function Next(cfg: Config, w: World, m: Move): World
  {
    match m
    case Wait(until) => if until < w.now then w else w.(now := until)
    case Register(id, r, createdAt, unavailable, refused, binding) =>
      if id in w.store.rows || !ValidRequest(r) || createdAt > w.now then w
      else w.(store := Create(w.store, id, r, createdAt, unavailable, refused, binding).0)
    case RaiseFloor(device, floor) =>
      w.(store := w.store.(sequence := w.store.sequence[device := Max(LastSequence(w.store, device), floor)]))
    case Begin(d, id, allowRetry, rejection, online) =>
      if id !in w.store.rows || d in w.flights then w
      else
        var c := w.store.rows[id];
        var (b, step) := BeginDispatch(cfg, c, w.now, allowRetry, rejection, online);
        var v := w.(store := w.store.(rows := w.store.rows[id := b]));
        if step.Sending? then v.(flights := w.flights[d := Flight(id, step.attempt)],
          launched := w.launched + {EnvelopeOf(id, b)}) else v
    case Send(e) => if e in w.launched then w.(sent := w.sent + {e}) else w
    case Finish(d, failure) =>
      if d !in w.flights || w.flights[d].id !in w.store.rows then w
      else
        var f := w.flights[d];
        w.(store := w.store.(rows := w.store.rows[f.id := FinishDispatch(w.store.rows[f.id], f.attempt, failure)]),
          flights := w.flights - {d})
    case Crash(d) => w.(flights := w.flights - {d})
    case Control(ev) =>
      if Possible(w, ev) then w.(controller := C.Advance(w.controller, ev),
        outgoing := if ev.Boot? then map[] else w.outgoing) else w
    case ReadReply(id) =>
      var ledger := w.controller.state.ledger;
      if id in ledger && ledger[id].pending
        then w.(outgoing := w.outgoing[id := Outgoing(ledger[id].verdict, false, false)]) else w
    case PublishAck(id) =>
      if id !in w.outgoing || w.controller.state.mode.Offline? then w
      else w.(acks := w.acks + {id}, outgoing := w.outgoing[id := w.outgoing[id].(acked := true)])
    case PublishResult(id) =>
      if id !in w.outgoing || !w.outgoing[id].acked || w.outgoing[id].verdict.None? then w
      else
        w.(results := w.results + {(id, w.outgoing[id].verdict.value)},
          outgoing := w.outgoing[id := w.outgoing[id].(told := true)])
    case Confirm(id) =>
      if id !in w.outgoing || !SentOut(w.outgoing[id]) then w
      else w.(controller := C.Advance(w.controller, C.Acked(id)), outgoing := w.outgoing - {id})
    case Abandon(id) => w.(outgoing := w.outgoing - {id})
    case ReceiveAck(id) => if id in w.acks then w.(store := AckFrom(cfg, w.store, PUMP, id, w.now)) else w
    case ReceiveResult(id, v) =>
      if (id, v) in w.results then w.(store := ResultFrom(w.store, PUMP, id, v, w.now)) else w
    case ForeignAck(device, id) => if device == PUMP then w else w.(store := AckFrom(cfg, w.store, device, id, w.now))
    case ForeignResult(device, id, v) =>
      if device == PUMP then w else w.(store := ResultFrom(w.store, device, id, v, w.now))
  }

  function Run(cfg: Config, moves: seq<Move>): World
  {
    if moves == [] then EMPTY else Next(cfg, Run(cfg, moves[..|moves| - 1]), moves[|moves| - 1])
  }

  // ---------------------------------------------------------------- the invariant

  ghost predicate RowOk(cfg: Config, s: Store, now: int, id: nat)
    requires id in s.rows
  {
    Honest(s.rows[id]) && Spaced(cfg, s.rows[id]) && s.rows[id].createdAt <= now
  }

  ghost predicate FiledOk(s: Store, id: nat)
    requires id in s.rows
  {
    && 1 <= s.rows[id].sequence <= LastSequence(s, s.rows[id].device)
    && s.rows[id].request in s.byRequest && s.byRequest[s.rows[id].request] == id
  }

  /** Rows are honest and filed under their request. */
  ghost predicate StoreOk(cfg: Config, s: Store, now: int)
  {
    && (forall id | id in s.rows :: RowOk(cfg, s, now, id))
    && (forall id | id in s.rows :: FiledOk(s, id))
    && (forall r | r in s.byRequest :: s.byRequest[r] in s.rows && s.rows[s.byRequest[r]].request == r)
    && NumberedApart(s)
  }

  /** Control numbers are unique within a device. */
  ghost predicate NumberedApart(s: Store)
  {
    forall i, j | i in s.rows && j in s.rows && s.rows[i].device == s.rows[j].device
      && s.rows[i].sequence == s.rows[j].sequence :: i == j
  }

  /** Only attempted commands can be on the network, and only as their own envelope. */
  ghost predicate NetworkOk(w: World)
  {
    && w.sent <= w.launched
    && (forall e | e in w.launched ::
          e.id in w.store.rows && e == EnvelopeOf(e.id, w.store.rows[e.id]) && w.store.rows[e.id].attempts > 0)
    && (forall d | d in w.flights ::
          w.flights[d].id in w.store.rows && w.flights[d].attempt <= w.store.rows[w.flights[d].id].attempts)
  }

  /** The ledger holds only what was sent to the pump; published replies are ledger replies, and
      what left the outbox was acknowledged. */
  ghost predicate LedgerOk(w: World)
  {
    var ledger := w.controller.state.ledger;
    && C.Inv(w.controller)
    && (forall id | id in ledger ::
          ledger[id].envelope in w.sent && ledger[id].envelope.device == PUMP && ledger[id].envelope.id == id)
    && (forall id | id in w.acks :: id in ledger)
    && (forall r | r in w.results :: r.0 in ledger && ledger[r.0].verdict == Some(r.1))
    && (forall id | id in ledger && !ledger[id].pending :: id in w.acks)
  }

  /** What the sending loop has read is true of the ledger, except that a result may have come in
      since; of a row read without a result none was ever published. */
  ghost predicate OutboxOk(w: World)
  {
    var ledger := w.controller.state.ledger;
    forall id | id in w.outgoing ::
      && id in ledger && (w.outgoing[id].acked ==> id in w.acks)
      && (w.outgoing[id].verdict.Some? ==> ledger[id].verdict == w.outgoing[id].verdict)
      && (w.outgoing[id].verdict.None? ==> forall v: Verdict :: (id, v) !in w.results)
      && (w.outgoing[id].told ==> w.outgoing[id].verdict.Some? && (id, w.outgoing[id].verdict.value) in w.results)
  }

  /** A final status of a pump command is the ledger's verdict. */
  ghost predicate AgreementOk(w: World)
  {
    forall id | id in w.store.rows && w.store.rows[id].device == PUMP
      && (w.store.rows[id].status.Succeeded? || w.store.rows[id].status.Failed?) ::
      var ledger := w.controller.state.ledger;
      id in ledger && ledger[id].verdict.Some? && Records(w.store.rows[id], ledger[id].verdict.value)
  }

  ghost predicate Inv(cfg: Config, w: World)
  {
    StoreOk(cfg, w.store, w.now) && NetworkOk(w) && LedgerOk(w) && OutboxOk(w) && AgreementOk(w)
  }

  /** How the table may develop: rows stay, each making progress; numbers only go up, and a new
      row is numbered after everything its device had. */
  ghost predicate TableGrows(a: Store, b: Store)
  {
    && (forall id | id in a.rows :: id in b.rows && Progress(a.rows[id], b.rows[id]))
    && (forall id | id in b.rows && id !in a.rows :: LastSequence(a, b.rows[id].device) < b.rows[id].sequence)
    && (forall d: nat :: LastSequence(a, d) <= LastSequence(b, d))
  }

  lemma GrowthIsTransitive(a: Store, b: Store, c: Store)
    requires TableGrows(a, b) && TableGrows(b, c)
    ensures TableGrows(a, c)
  {
    forall id | id in a.rows ensures id in c.rows && Progress(a.rows[id], c.rows[id]) {
      ProgressIsTransitive(a.rows[id], b.rows[id], c.rows[id]);
    }
    forall id | id in c.rows && id !in a.rows ensures LastSequence(a, c.rows[id].device) < c.rows[id].sequence {
      var d := c.rows[id].device;
      assert LastSequence(a, d) <= LastSequence(b, d);
      if id in b.rows { assert Progress(b.rows[id], c.rows[id]); }
    }
    forall d: nat ensures LastSequence(a, d) <= LastSequence(c, d) {
      assert LastSequence(a, d) <= LastSequence(b, d) <= LastSequence(c, d);
    }
  }

  lemma ProgressFacts(c: Row, d: Row)
    requires Progress(c, d)
    ensures SameIdentity(c, d) && c.attempts <= d.attempts
    ensures forall id: nat :: EnvelopeOf(id, c) == EnvelopeOf(id, d)
  {
  }

  // ---------------------------------------------------------------- transactions keep the table

  /** Changing rows without touching their identity leaves the filing alone. */
  lemma FilingIsIdentity(s: Store, rows: map<nat, Row>)
    requires rows.Keys == s.rows.Keys && NumberedApart(s)
    requires forall i | i in s.rows :: FiledOk(s, i) && SameIdentity(s.rows[i], rows[i])
    requires forall r | r in s.byRequest :: s.byRequest[r] in s.rows && s.rows[s.byRequest[r]].request == r
    ensures
      var t := s.(rows := rows);
      && NumberedApart(t)
      && (forall i | i in t.rows :: FiledOk(t, i))
      && (forall r | r in t.byRequest :: t.byRequest[r] in t.rows && t.rows[t.byRequest[r]].request == r)
  {
    var t := s.(rows := rows);
    forall i, j | i in t.rows && j in t.rows && t.rows[i].device == t.rows[j].device
      && t.rows[i].sequence == t.rows[j].sequence
      ensures i == j
    {
      assert SameIdentity(s.rows[i], rows[i]) && SameIdentity(s.rows[j], rows[j]);
    }
    forall i | i in t.rows ensures FiledOk(t, i) {
      assert FiledOk(s, i) && SameIdentity(s.rows[i], rows[i]);
    }
    forall r | r in t.byRequest ensures t.byRequest[r] in t.rows && t.rows[t.byRequest[r]].request == r {
      assert SameIdentity(s.rows[t.byRequest[r]], rows[t.byRequest[r]]);
    }
  }

  /** Replacing every row by its progress. */
  lemma RowsStep(cfg: Config, s: Store, now: int, rows: map<nat, Row>)
    requires StoreOk(cfg, s, now) && rows.Keys == s.rows.Keys
    requires forall i | i in rows :: Progress(s.rows[i], rows[i]) && Honest(rows[i]) && Spaced(cfg, rows[i])
    ensures StoreOk(cfg, s.(rows := rows), now) && TableGrows(s, s.(rows := rows))
  {
    hide Honest, Spaced, Progress, RowOk, FiledOk, NumberedApart, SameIdentity;
    var t := s.(rows := rows);
    forall i | i in t.rows ensures RowOk(cfg, t, now, i) && SameIdentity(s.rows[i], rows[i]) {
      OneRowStep(cfg, s, now, i, rows[i], t);
    }
    FilingIsIdentity(s, rows);
  }

  lemma OneRowStep(cfg: Config, s: Store, now: int, i: nat, d: Row, t: Store)
    requires i in s.rows && i in t.rows && t.rows[i] == d
    requires RowOk(cfg, s, now, i) && Progress(s.rows[i], d) && Honest(d) && Spaced(cfg, d)
    ensures RowOk(cfg, t, now, i) && SameIdentity(s.rows[i], d)
  {
  }

  lemma Stays(cfg: Config, s: Store, now: int, i: nat)
    requires i in s.rows && RowOk(cfg, s, now, i)
    ensures Progress(s.rows[i], s.rows[i]) && Honest(s.rows[i]) && Spaced(cfg, s.rows[i])
  {
  }

  /** Replacing one row by its progress. */
  lemma RowStep(cfg: Config, s: Store, now: int, id: nat, d: Row)
    requires StoreOk(cfg, s, now) && id in s.rows && Progress(s.rows[id], d) && Honest(d) && Spaced(cfg, d)
    ensures StoreOk(cfg, s.(rows := s.rows[id := d]), now) && TableGrows(s, s.(rows := s.rows[id := d]))
  {
    hide Honest, Spaced, Progress, RowOk, FiledOk, NumberedApart;
    forall i | i in s.rows && i != id
      ensures Progress(s.rows[i], s.rows[i]) && Honest(s.rows[i]) && Spaced(cfg, s.rows[i])
    {
      Stays(cfg, s, now, i);
    }
    RowsStep(cfg, s, now, s.rows[id := d]);
  }

  /** No command becomes succeeded or failed. */
  ghost predicate NoNewResults(a: Store, b: Store)
  {
    forall id | id in b.rows && (b.rows[id].status.Succeeded? || b.rows[id].status.Failed?) ::
      id in a.rows && (a.rows[id].status.Succeeded? || a.rows[id].status.Failed?)
  }

  lemma StopPendingKeeps(cfg: Config, s: Store, now: int, device: nat, at: int)
    requires StoreOk(cfg, s, now)
    ensures
      var t := s.(rows := StopPending(s.rows, device, at));
      StoreOk(cfg, t, now) && TableGrows(s, t) && NoNewResults(s, t)
  {
    hide Spaced, RowOk, FiledOk, NumberedApart, Progress, Honest;
    var rows := StopPending(s.rows, device, at);
    forall i | i in rows
      ensures Progress(s.rows[i], rows[i]) && Honest(rows[i]) && Spaced(cfg, rows[i])
      ensures rows[i].status.Succeeded? || rows[i].status.Failed? ==> rows[i] == s.rows[i]
    {
      Stays(cfg, s, now, i);
      if Pending(s.rows[i]) { StopDeliveryProgresses(cfg, s.rows[i], at, SupersededByStop, Cancelled); }
    }
    RowsStep(cfg, s, now, rows);
  }

  /** Filing a new row under the next number. */
  lemma AddRowKeeps(cfg: Config, s: Store, now: int, id: nat, c: Row, lastStop: map<nat, int>)
    requires StoreOk(cfg, s, now) && id !in s.rows && c.request !in s.byRequest
    requires c.sequence == LastSequence(s, c.device) + 1
    requires Honest(c) && Spaced(cfg, c) && c.createdAt <= now && (c.status.Queued? || c.status.Cancelled?)
    ensures
      var t := Store(s.rows[id := c], s.byRequest[c.request := id], s.sequence[c.device := c.sequence], lastStop);
      StoreOk(cfg, t, now) && TableGrows(s, t) && NoNewResults(s, t)
  {
    hide Honest, Spaced, Progress, FiledOk, NumberedApart, RowOk;
    var t := Store(s.rows[id := c], s.byRequest[c.request := id], s.sequence[c.device := c.sequence], lastStop);
    forall i | i in t.rows ensures RowOk(cfg, t, now, i) && (i != id ==> Progress(s.rows[i], t.rows[i])) {
      if i == id {
        NewRowOk(cfg, t, now, id);
      } else {
        Stays(cfg, s, now, i);
        OneRowStep(cfg, s, now, i, s.rows[i], t);
      }
    }
    AddRowFiling(s, id, c, t);
  }

  lemma NewRowOk(cfg: Config, t: Store, now: int, id: nat)
    requires id in t.rows && Honest(t.rows[id]) && Spaced(cfg, t.rows[id]) && t.rows[id].createdAt <= now
    ensures RowOk(cfg, t, now, id)
  {
  }

  lemma AddRowFiling(s: Store, id: nat, c: Row, t: Store)
    requires id !in s.rows && c.request !in s.byRequest && c.sequence == LastSequence(s, c.device) + 1
    requires NumberedApart(s)
    requires forall i | i in s.rows :: FiledOk(s, i)
    requires forall r | r in s.byRequest :: s.byRequest[r] in s.rows && s.rows[s.byRequest[r]].request == r
    requires t.rows == s.rows[id := c] && t.byRequest == s.byRequest[c.request := id]
    requires t.sequence == s.sequence[c.device := c.sequence]
    ensures NumberedApart(t)
    ensures forall i | i in t.rows :: FiledOk(t, i)
    ensures forall r | r in t.byRequest :: t.byRequest[r] in t.rows && t.rows[t.byRequest[r]].request == r
  {
    forall i | i in t.rows ensures FiledOk(t, i) {
      if i != id { assert FiledOk(s, i); }
    }
    forall i, j | i in t.rows && j in t.rows && t.rows[i].device == t.rows[j].device
      && t.rows[i].sequence == t.rows[j].sequence
      ensures i == j
    {
      if i in s.rows { assert FiledOk(s, i); }
      if j in s.rows { assert FiledOk(s, j); }
    }
  }

  lemma NewRowIsHonest(cfg: Config, r: Request, sequence: nat, createdAt: int)
    ensures
      var c := NewRow(r, sequence, createdAt);
      var d := StopDelivery(c, createdAt, SupersededByStop, Cancelled);
      Honest(c) && Spaced(cfg, c) && Honest(d) && Spaced(cfg, d) && SameIdentity(c, d)
      && c.attempts == 0 && d.attempts == 0 && d.status.Cancelled?
  {
  }

  lemma CreateKeeps(cfg: Config, s: Store, now: int, id: nat, r: Request, createdAt: int, unavailable: bool,
      refused: bool, binding: Option<Option<Target>>)
    requires StoreOk(cfg, s, now) && id !in s.rows && createdAt <= now
    ensures
      var t := Create(s, id, r, createdAt, unavailable, refused, binding).0;
      StoreOk(cfg, t, now) && TableGrows(s, t) && NoNewResults(s, t)
  {
    hide StoreOk, TableGrows, NoNewResults, Honest, Spaced, SupersedingStop;
    var (t, reply) := Create(s, id, r, createdAt, unavailable, refused, binding);
    NothingGrows(cfg, s, now);
    if reply.Created? {
      StopPendingKeeps(cfg, s, now, r.device, createdAt);
      var superseded := SupersedingStop(s.rows, r);
      var base := if r.kind.Stop? && !superseded then s.(rows := StopPending(s.rows, r.device, createdAt)) else s;
      var c := NewRow(r, LastSequence(s, r.device) + 1, createdAt);
      NewRowIsHonest(cfg, r, c.sequence, createdAt);
      AddRowKeeps(cfg, base, now, id, if superseded then StopDelivery(c, createdAt, SupersededByStop, Cancelled) else c,
        t.lastStop);
      GrowthIsTransitive(s, base, t);
      NoResultsTwice(s, base, t);
    }
  }

  lemma NoResultsTwice(a: Store, b: Store, c: Store)
    requires NoNewResults(a, b) && NoNewResults(b, c)
    ensures NoNewResults(a, c)
  {
  }

  lemma NothingGrows(cfg: Config, s: Store, now: int)
    requires StoreOk(cfg, s, now)
    ensures TableGrows(s, s) && NoNewResults(s, s)
  {
    hide RowOk, FiledOk, NumberedApart, Progress;
    forall i | i in s.rows ensures Progress(s.rows[i], s.rows[i]) { Stays(cfg, s, now, i); }
  }

  // ---------------------------------------------------------------- every move keeps the invariant

  lemma NetworkSurvives(w: World, t: Store)
    requires NetworkOk(w) && TableGrows(w.store, t)
    ensures NetworkOk(w.(store := t))
  {
    hide Progress;
    var v := w.(store := t);
    forall e | e in v.launched
      ensures e.id in t.rows && e == EnvelopeOf(e.id, t.rows[e.id]) && t.rows[e.id].attempts > 0
    {
      ProgressFacts(w.store.rows[e.id], t.rows[e.id]);
    }
    forall d | d in v.flights
      ensures v.flights[d].id in t.rows && v.flights[d].attempt <= t.rows[v.flights[d].id].attempts
    {
      ProgressFacts(w.store.rows[v.flights[d].id], t.rows[v.flights[d].id]);
    }
  }

  lemma AgreementSurvives(w: World, t: Store)
    requires AgreementOk(w) && TableGrows(w.store, t) && NoNewResults(w.store, t)
    ensures AgreementOk(w.(store := t))
  {
    forall id | id in t.rows && t.rows[id].device == PUMP && (t.rows[id].status.Succeeded? || t.rows[id].status.Failed?)
      ensures
        var ledger := w.controller.state.ledger;
        id in ledger && ledger[id].verdict.Some? && Records(t.rows[id], ledger[id].verdict.value)
    {
      assert Progress(w.store.rows[id], t.rows[id]);
    }
  }

  lemma StoreChangeKeeps(cfg: Config, w: World, t: Store)
    requires Inv(cfg, w) && StoreOk(cfg, t, w.now) && TableGrows(w.store, t) && AgreementOk(w.(store := t))
    ensures Inv(cfg, w.(store := t))
  {
    hide StoreOk, TableGrows, AgreementOk, NetworkOk;
    NetworkSurvives(w, t);
  }

  lemma OneRowNoResult(s: Store, id: nat, d: Row)
    requires id in s.rows
    requires d.status.Succeeded? || d.status.Failed? ==> s.rows[id].status.Succeeded? || s.rows[id].status.Failed?
    ensures NoNewResults(s, s.(rows := s.rows[id := d]))
  {
  }

  lemma QuietRowChangeKeeps(cfg: Config, w: World, id: nat, d: Row)
    requires Inv(cfg, w) && id in w.store.rows && Progress(w.store.rows[id], d) && Honest(d) && Spaced(cfg, d)
    requires d.status.Succeeded? || d.status.Failed?
      ==> w.store.rows[id].status.Succeeded? || w.store.rows[id].status.Failed?
    ensures
      var t := w.store.(rows := w.store.rows[id := d]);
      Inv(cfg, w.(store := t)) && TableGrows(w.store, t)
  {
    hide StoreOk, NetworkOk, LedgerOk, AgreementOk, Progress, Honest, Spaced, TableGrows, NoNewResults;
    RowStep(cfg, w.store, w.now, id, d);
    OneRowNoResult(w.store, id, d);
    AgreementSurvives(w, w.store.(rows := w.store.rows[id := d]));
    StoreChangeKeeps(cfg, w, w.store.(rows := w.store.rows[id := d]));
  }

  lemma RowFacts(cfg: Config, w: World, id: nat)
    requires Inv(cfg, w) && id in w.store.rows
    ensures Honest(w.store.rows[id]) && Spaced(cfg, w.store.rows[id]) && w.store.rows[id].createdAt <= w.now
  {
    assert RowOk(cfg, w.store, w.now, id);
  }

  lemma BeginKeeps(cfg: Config, w: World, d: nat, id: nat, allowRetry: bool, rejection: Option<nat>, online: bool)
    requires ValidConfig(cfg) && Inv(cfg, w) && id in w.store.rows && d !in w.flights
    ensures
      var v := Next(cfg, w, Begin(d, id, allowRetry, rejection, online));
      Inv(cfg, v) && TableGrows(w.store, v.store)
  {
    hide StoreOk, LedgerOk, AgreementOk, Progress, Honest, Spaced, TableGrows;
    RowFacts(cfg, w, id);
    var c := w.store.rows[id];
    BeginDispatchProgresses(cfg, c, w.now, allowRetry, rejection, online);
    var (b, step) := BeginDispatch(cfg, c, w.now, allowRetry, rejection, online);
    QuietRowChangeKeeps(cfg, w, id, b);
    var v := w.(store := w.store.(rows := w.store.rows[id := b]));
    if step.Sending? { LaunchKeeps(cfg, v, d, id); }
  }

  lemma LaunchKeeps(cfg: Config, w: World, d: nat, id: nat)
    requires Inv(cfg, w) && id in w.store.rows && w.store.rows[id].attempts > 0
    ensures Inv(cfg, w.(flights := w.flights[d := Flight(id, w.store.rows[id].attempts)],
      launched := w.launched + {EnvelopeOf(id, w.store.rows[id])}))
  {
    hide StoreOk, C.Inv, Records;
  }

  lemma AckKeeps(cfg: Config, w: World, device: nat, id: nat)
    requires ValidConfig(cfg) && Inv(cfg, w)
    ensures
      var t := AckFrom(cfg, w.store, device, id, w.now);
      Inv(cfg, w.(store := t)) && TableGrows(w.store, t)
  {
    if id in w.store.rows && w.store.rows[id].device == device {
      RowFacts(cfg, w, id);
      AcknowledgeProgresses(cfg, w.store.rows[id], w.now);
      hide StoreOk, NetworkOk, LedgerOk, AgreementOk, Progress, Honest, Spaced, TableGrows;
      QuietRowChangeKeeps(cfg, w, id, Acknowledge(cfg, w.store.rows[id], w.now).0);
    } else {
      NothingGrows(cfg, w.store, w.now);
    }
  }

  lemma ResultKeeps(cfg: Config, w: World, device: nat, id: nat, v: Verdict)
    requires ValidConfig(cfg) && Inv(cfg, w) && (device == PUMP ==> (id, v) in w.results)
    ensures
      var t := ResultFrom(w.store, device, id, v, w.now);
      Inv(cfg, w.(store := t)) && TableGrows(w.store, t)
  {
    hide StoreOk, NetworkOk, Progress, Honest, Spaced, TableGrows;
    if id in w.store.rows && w.store.rows[id].device == device {
      RowFacts(cfg, w, id);
      var c := w.store.rows[id];
      CompleteProgresses(cfg, c, v, w.now);
      var d := Complete(c, v, w.now).0;
      var t := w.store.(rows := w.store.rows[id := d]);
      RowStep(cfg, w.store, w.now, id, d);
      assert AgreementOk(w.(store := t)) by { VerdictAgrees(w, id, v); }
      StoreChangeKeeps(cfg, w, t);
    } else {
      NothingGrows(cfg, w.store, w.now);
    }
  }

  lemma VerdictAgrees(w: World, id: nat, v: Verdict)
    requires LedgerOk(w) && AgreementOk(w) && id in w.store.rows
    requires w.store.rows[id].device == PUMP ==> (id, v) in w.results
    ensures AgreementOk(w.(store := w.store.(rows := w.store.rows[id := Complete(w.store.rows[id], v, w.now).0])))
  {
  }

  lemma RegisterKeeps(cfg: Config, w: World, id: nat, r: Request, createdAt: int, unavailable: bool, refused: bool,
      binding: Option<Option<Target>>)
    requires Inv(cfg, w) && id !in w.store.rows && createdAt <= w.now
    ensures
      var t := Create(w.store, id, r, createdAt, unavailable, refused, binding).0;
      Inv(cfg, w.(store := t)) && TableGrows(w.store, t)
  {
    hide StoreOk, NetworkOk, LedgerOk, AgreementOk, TableGrows, NoNewResults, Create;
    CreateKeeps(cfg, w.store, w.now, id, r, createdAt, unavailable, refused, binding);
    var t := Create(w.store, id, r, createdAt, unavailable, refused, binding).0;
    AgreementSurvives(w, t);
    StoreChangeKeeps(cfg, w, t);
  }

  /** A counter reported by the controller only moves the numbering up. */
  lemma FloorKeeps(cfg: Config, w: World, device: nat, floor: nat)
    requires Inv(cfg, w)
    ensures
      var v := Next(cfg, w, RaiseFloor(device, floor));
      Inv(cfg, v) && TableGrows(w.store, v.store)
  {
    hide NetworkOk, LedgerOk, AgreementOk, Progress, Honest, Spaced, NumberedApart;
    NothingGrows(cfg, w.store, w.now);
    var t := Next(cfg, w, RaiseFloor(device, floor)).store;
    FloorKeepsStore(cfg, w.store, w.now, t, device);
    AgreementSurvives(w, t);
    StoreChangeKeeps(cfg, w, t);
  }

  lemma FloorKeepsStore(cfg: Config, s: Store, now: int, t: Store, device: nat)
    requires StoreOk(cfg, s, now) && LastSequence(s, device) <= LastSequence(t, device)
    requires t == s.(sequence := s.sequence[device := LastSequence(t, device)])
    ensures StoreOk(cfg, t, now) && TableGrows(s, t) && NoNewResults(s, t)
  {
    hide Progress, Honest, Spaced;
    NothingGrows(cfg, s, now);
    forall id | id in t.rows
      ensures RowOk(cfg, t, now, id) && FiledOk(t, id)
    {
      assert RowOk(cfg, s, now, id) && FiledOk(s, id);
    }
    assert NumberedApart(t);
  }

  /** A controller event keeps the ledger honest: rows come from the network, replies stand. */
  lemma ControlKeeps(cfg: Config, w: World, ev: C.Event)
    requires Inv(cfg, w) && Possible(w, ev)
    ensures Inv(cfg, Next(cfg, w, Control(ev)))
    ensures C.LedgerKept(w.controller.state, C.Advance(w.controller, ev).state)
  {
    hide StoreOk, LedgerOk, OutboxOk, AgreementOk, C.Advance;
    ControllerOk(w);
    C.AdvanceKeeps(w.controller, ev);
    C.LedgerNews(w.controller, ev);
    LedgerSurvives(w, ev, C.Advance(w.controller, ev));
    OutboxSurvives(w, C.Advance(w.controller, ev), ev.Boot?);
    SameLedger(w.(controller := C.Advance(w.controller, ev)), Next(cfg, w, Control(ev)));
  }

  lemma ControllerOk(w: World)
    requires LedgerOk(w)
    ensures C.Inv(w.controller) && C.StateOk(w.controller.state)
  {
  }

  /** These parts of the invariant do not look at the outbox rows being sent. */
  lemma SameLedger(w: World, v: World)
    requires v == w.(outgoing := v.outgoing)
    ensures LedgerOk(w) == LedgerOk(v) && AgreementOk(w) == AgreementOk(v)
  {
  }

  lemma LedgerSurvives(w: World, ev: C.Event, t: C.Trace)
    requires LedgerOk(w) && AgreementOk(w) && Possible(w, ev) && C.Inv(t) && C.LedgerKept(w.controller.state, t.state)
    requires
      var a, b := w.controller.state.ledger, t.state.ledger;
      && (forall id | id in b :: id in a || (ev.Deliver? && id == ev.envelope.id && b[id].envelope == ev.envelope))
      && (forall id | id in b && !b[id].pending :: id in a && !a[id].pending && b[id].verdict == a[id].verdict)
    ensures LedgerOk(w.(controller := t)) && AgreementOk(w.(controller := t))
  {
    hide C.Inv;
  }

  lemma OutboxSurvives(w: World, t: C.Trace, restart: bool)
    requires OutboxOk(w) && C.LedgerKept(w.controller.state, t.state)
    ensures OutboxOk(w.(controller := t, outgoing := if restart then map[] else w.outgoing))
  {
  }

  predicate SendingMove(m: Move) { m.ReadReply? || m.PublishAck? || m.PublishResult? || m.Abandon? }

  /** The moves of the sending loop. */
  lemma SendingKeeps(cfg: Config, w: World, m: Move)
    requires Inv(cfg, w) && SendingMove(m)
    ensures Inv(cfg, Next(cfg, w, m)) && Next(cfg, w, m).controller == w.controller && Next(cfg, w, m).store == w.store
  {
    hide StoreOk, NetworkOk, LedgerOk, OutboxOk, AgreementOk;
    SendingEffect(cfg, w, m);
    SendingKeepsReplies(cfg, w, m);
    SameTables(w, Next(cfg, w, m));
  }

  lemma SendingEffect(cfg: Config, w: World, m: Move)
    requires SendingMove(m)
    ensures
      var v := Next(cfg, w, m);
      v == w.(outgoing := v.outgoing, acks := v.acks, results := v.results)
  {
  }

  lemma SameTables(w: World, v: World)
    requires v == w.(outgoing := v.outgoing, acks := v.acks, results := v.results)
    ensures NetworkOk(w) == NetworkOk(v) && AgreementOk(w) == AgreementOk(v)
  {
  }

  lemma SendingKeepsReplies(cfg: Config, w: World, m: Move)
    requires LedgerOk(w) && OutboxOk(w) && SendingMove(m)
    ensures LedgerOk(Next(cfg, w, m)) && OutboxOk(Next(cfg, w, m))
  {
    hide Next, LedgerOk, OutboxOk;
    match m
    case ReadReply(id) => ReadingKeeps(cfg, w, id);
    case PublishAck(id) => AckingKeeps(cfg, w, id);
    case PublishResult(id) => TellingKeeps(cfg, w, id);
    case Abandon(id) => AbandoningKeeps(cfg, w, id);
  }

  lemma ReadingKeeps(cfg: Config, w: World, id: nat)
    requires LedgerOk(w) && OutboxOk(w)
    ensures LedgerOk(Next(cfg, w, ReadReply(id))) && OutboxOk(Next(cfg, w, ReadReply(id)))
  {
    hide C.Inv;
  }

  lemma AckingKeeps(cfg: Config, w: World, id: nat)
    requires LedgerOk(w) && OutboxOk(w)
    ensures LedgerOk(Next(cfg, w, PublishAck(id))) && OutboxOk(Next(cfg, w, PublishAck(id)))
  {
    hide C.Inv;
  }

  lemma TellingKeeps(cfg: Config, w: World, id: nat)
    requires LedgerOk(w) && OutboxOk(w)
    ensures LedgerOk(Next(cfg, w, PublishResult(id))) && OutboxOk(Next(cfg, w, PublishResult(id)))
  {
    hide C.Inv;
  }

  lemma AbandoningKeeps(cfg: Config, w: World, id: nat)
    requires LedgerOk(w) && OutboxOk(w)
    ensures LedgerOk(Next(cfg, w, Abandon(id))) && OutboxOk(Next(cfg, w, Abandon(id)))
  {
    hide C.Inv;
  }

  lemma ConfirmKeeps(cfg: Config, w: World, id: nat)
    requires Inv(cfg, w)
    ensures Inv(cfg, Next(cfg, w, Confirm(id)))
    ensures C.LedgerKept(w.controller.state, Next(cfg, w, Confirm(id)).controller.state)
  {
    hide StoreOk, LedgerOk, OutboxOk, AgreementOk, C.Inv, C.Advance, C.LedgerKept, Records;
    ControllerOk(w);
    C.NothingKeeps(w.controller.state);
    if id in w.outgoing && SentOut(w.outgoing[id]) {
      C.LedgerNews(w.controller, C.Acked(id));
      C.AdvanceKeeps(w.controller, C.Acked(id));
      ConfirmationKeepsReplies(w, id, C.Advance(w.controller, C.Acked(id)));
    }
  }

  lemma ConfirmationKeepsReplies(w: World, id: nat, t: C.Trace)
    requires LedgerOk(w) && OutboxOk(w) && AgreementOk(w) && id in w.outgoing && SentOut(w.outgoing[id])
    requires C.Inv(t) && C.LedgerKept(w.controller.state, t.state) && t == C.Advance(w.controller, C.Acked(id))
    ensures
      var v := w.(controller := t, outgoing := w.outgoing - {id});
      LedgerOk(v) && OutboxOk(v) && AgreementOk(v)
  {
    hide C.Inv;
  }

  /** The moves of the backend up to sending. */
  predicate DispatchMove(m: Move)
  {
    m.Wait? || m.Register? || m.RaiseFloor? || m.Begin? || m.Send? || m.Finish? || m.Crash?
  }

  lemma DispatchKeeps(cfg: Config, w: World, m: Move)
    requires ValidConfig(cfg) && Inv(cfg, w) && DispatchMove(m)
    ensures
      var v := Next(cfg, w, m);
      Inv(cfg, v) && TableGrows(w.store, v.store) && C.LedgerKept(w.controller.state, v.controller.state)
        && w.launched <= v.launched
  {
    hide StoreOk, NetworkOk, LedgerOk, AgreementOk, OutboxOk, TableGrows, C.LedgerKept, C.Advance, BeginDispatch,
      FinishDispatch, Create;
    NothingGrows(cfg, w.store, w.now);
    C.NothingKeeps(w.controller.state);
    match m
    case Wait(until) => if w.now <= until { WaitKeeps(cfg, w, until); }
    case Register(id, r, createdAt, unavailable, refused, binding) =>
      if id !in w.store.rows && createdAt <= w.now {
        RegisterKeeps(cfg, w, id, r, createdAt, unavailable, refused, binding);
      }
    case RaiseFloor(device, floor) => FloorKeeps(cfg, w, device, floor);
    case Begin(d, id, allowRetry, rejection, online) =>
      if id in w.store.rows && d !in w.flights { BeginKeeps(cfg, w, d, id, allowRetry, rejection, online); }
    case Send(e) => if e in w.launched { SendKeeps(cfg, w, e); }
    case Finish(d, failure) =>
      if d in w.flights && w.flights[d].id in w.store.rows { FinishKeeps(cfg, w, d, failure); }
    case Crash(d) => LandingKeeps(cfg, w, d);
  }

  /** Every move keeps the invariant, and nothing it stores is ever taken back. */
  lemma NextKeeps(cfg: Config, w: World, m: Move)
    requires ValidConfig(cfg) && Inv(cfg, w)
    ensures
      var v := Next(cfg, w, m);
      Inv(cfg, v) && TableGrows(w.store, v.store) && C.LedgerKept(w.controller.state, v.controller.state)
        && w.launched <= v.launched
  {
    hide StoreOk, NetworkOk, LedgerOk, AgreementOk, OutboxOk, TableGrows, C.LedgerKept, C.Advance, BeginDispatch,
      FinishDispatch, Create;
    NothingGrows(cfg, w.store, w.now);
    C.NothingKeeps(w.controller.state);
    if DispatchMove(m) {
      DispatchKeeps(cfg, w, m);
    } else if SendingMove(m) {
      SendingKeeps(cfg, w, m);
    } else {
      match m
      case Control(ev) => if Possible(w, ev) { ControlKeeps(cfg, w, ev); }
      case Confirm(id) => ConfirmKeeps(cfg, w, id);
      case ReceiveAck(id) => AckKeeps(cfg, w, PUMP, id);
      case ReceiveResult(id, v) => if (id, v) in w.results { ResultKeeps(cfg, w, PUMP, id, v); }
      case ForeignAck(device, id) => AckKeeps(cfg, w, device, id);
      case ForeignResult(device, id, v) => if device != PUMP { ResultKeeps(cfg, w, device, id, v); }
    }
  }

  lemma WaitKeeps(cfg: Config, w: World, until: int)
    requires Inv(cfg, w) && w.now <= until
    ensures Inv(cfg, w.(now := until))
  {
    hide Honest, Spaced, FiledOk, NumberedApart, C.Inv, Records;
    forall id | id in w.store.rows ensures RowOk(cfg, w.store, until, id) { assert RowOk(cfg, w.store, w.now, id); }
  }

  lemma SendKeeps(cfg: Config, w: World, e: Envelope)
    requires Inv(cfg, w) && e in w.launched
    ensures Inv(cfg, w.(sent := w.sent + {e}))
  {
    hide StoreOk, C.Inv;
  }

  lemma LandingKeeps(cfg: Config, w: World, d: nat)
    requires Inv(cfg, w)
    ensures Inv(cfg, w.(flights := w.flights - {d}))
  {
    hide StoreOk, C.Inv;
  }

  lemma FinishKeeps(cfg: Config, w: World, d: nat, failure: Option<nat>)
    requires Inv(cfg, w) && d in w.flights && w.flights[d].id in w.store.rows
    ensures
      var v := Next(cfg, w, Finish(d, failure));
      Inv(cfg, v) && TableGrows(w.store, v.store)
  {
    hide StoreOk, NetworkOk, LedgerOk, AgreementOk, Progress, Honest, Spaced, TableGrows;
    var f := w.flights[d];
    RowFacts(cfg, w, f.id);
    FinishDispatchIsSafe(cfg, w.store.rows[f.id], f.attempt, failure);
    var c := FinishDispatch(w.store.rows[f.id], f.attempt, failure);
    QuietRowChangeKeeps(cfg, w, f.id, c);
    LandingKeeps(cfg, w.(store := w.store.(rows := w.store.rows[f.id := c])), d);
  }

  // ---------------------------------------------------------------- every run

  lemma {:induction false} RunKeeps(cfg: Config, moves: seq<Move>)
    requires ValidConfig(cfg)
    ensures Inv(cfg, Run(cfg, moves))
  {
    if moves != [] {
      RunKeeps(cfg, moves[..|moves| - 1]);
      NextKeeps(cfg, Run(cfg, moves[..|moves| - 1]), moves[|moves| - 1]);
    }
  }

  /** Rows, replies and possible envelopes of any moment are still there at any later one; in
      between every command has only climbed its lifecycle. */
  lemma {:induction false} RunGrows(cfg: Config, moves: seq<Move>, more: seq<Move>)
    requires ValidConfig(cfg)
    ensures
      var w, v := Run(cfg, moves), Run(cfg, moves + more);
      && TableGrows(w.store, v.store) && C.LedgerKept(w.controller.state, v.controller.state)
      && w.launched <= v.launched
  {
    hide Inv, TableGrows, Next;
    RunKeeps(cfg, moves);
    var w := Run(cfg, moves);
    if more == [] {
      assert moves + more == moves;
      NextKeeps(cfg, w, Crash(0));
      SameStore(cfg, w);
    } else {
      var n := |more| - 1;
      RunGrows(cfg, moves, more[..n]);
      assert (moves + more)[..|moves + more| - 1] == moves + more[..n];
      var u := Run(cfg, moves + more[..n]);
      RunKeeps(cfg, moves + more[..n]);
      NextKeeps(cfg, u, more[n]);
      GrowthIsTransitive(w.store, u.store, Next(cfg, u, more[n]).store);
    }
  }

  lemma SameStore(cfg: Config, w: World)
    ensures Next(cfg, w, Crash(0)).store == w.store && Next(cfg, w, Crash(0)).controller == w.controller
  {
  }

  lemma LoggedIsStored(cfg: Config, w: World, i: nat)
    requires Inv(cfg, w) && i < |w.controller.log|
    ensures
      var x := w.controller.log[i];
      && x.id in w.store.rows && w.store.rows[x.id].device == PUMP
      && w.store.rows[x.id].sequence == x.sequence && w.store.rows[x.id].kind == x.kind
      && x.at < w.store.rows[x.id].expiresAt && x.sequence >= 1
  {
    hide Honest, Spaced, C.StateOk, C.TimeOk, C.PumpExplained;
    var x := w.controller.log[i];
    var e := w.controller.state.ledger[x.id].envelope;
    assert e in w.sent && e.id == x.id;
    assert FiledOk(w.store, x.id);
  }

  /** End to end, under loss, repetition, delay, reordering, restarts and interleaved
      dispatchers: the pump executes commands of the table, each at most once, in strictly
      increasing control number, and never at or after its expiry. */
  lemma ExecutionIsOrdered(cfg: Config, moves: seq<Move>, i: nat, j: nat)
    requires ValidConfig(cfg) && i < j < |Run(cfg, moves).controller.log|
    ensures
      var w := Run(cfg, moves);
      var x, y := w.controller.log[i], w.controller.log[j];
      && x.id in w.store.rows && y.id in w.store.rows && x.id != y.id
      && w.store.rows[x.id].sequence < w.store.rows[y.id].sequence
      && x.at < w.store.rows[x.id].expiresAt && y.at < w.store.rows[y.id].expiresAt
  {
    RunKeeps(cfg, moves);
    var w := Run(cfg, moves);
    LoggedIsStored(cfg, w, i);
    LoggedIsStored(cfg, w, j);
    assert C.LogOk(w.controller);
  }

  /** Control numbers follow creation: what was registered before a moment is numbered below
      everything its device registers afterwards. */
  lemma NumbersFollowCreation(cfg: Config, moves: seq<Move>, more: seq<Move>, early: nat, late: nat)
    requires ValidConfig(cfg) && early in Run(cfg, moves).store.rows
    requires late in Run(cfg, moves + more).store.rows && late !in Run(cfg, moves).store.rows
    ensures early in Run(cfg, moves + more).store.rows
    ensures
      var rows := Run(cfg, moves + more).store.rows;
      rows[early].device == rows[late].device ==> rows[early].sequence < rows[late].sequence
  {
    hide Honest, Spaced;
    RunKeeps(cfg, moves);
    RunGrows(cfg, moves, more);
    var s, t := Run(cfg, moves).store, Run(cfg, moves + more).store;
    assert FiledOk(s, early) && Progress(s.rows[early], t.rows[early]);
  }

  /** The executed commands are a subsequence of the creation order: whenever a later execution
      was already registered, so was every earlier one. */
  lemma ExecutionFollowsCreation(cfg: Config, moves: seq<Move>, more: seq<Move>, i: nat, j: nat)
    requires ValidConfig(cfg) && i < j < |Run(cfg, moves + more).controller.log|
    requires Run(cfg, moves + more).controller.log[j].id in Run(cfg, moves).store.rows
    ensures Run(cfg, moves + more).controller.log[i].id in Run(cfg, moves).store.rows
  {
    hide Next, Inv;
    var v := Run(cfg, moves + more);
    var x, y := v.controller.log[i].id, v.controller.log[j].id;
    RunKeeps(cfg, moves + more);
    ExecutionIsOrdered(cfg, moves + more, i, j);
    LoggedIsStored(cfg, v, i);
    LoggedIsStored(cfg, v, j);
    if x !in Run(cfg, moves).store.rows {
      NumbersFollowCreation(cfg, moves, more, y, x);
      assert false;
    }
  }

  /** Agreement on results: no published reply is ever refused by the backend, neither as a
      conflict nor as out of place, and a stored final status is the ledger's verdict. */
  lemma RepliesAgree(cfg: Config, moves: seq<Move>, id: nat, at: int)
    requires ValidConfig(cfg)
    ensures
      var w := Run(cfg, moves);
      var ledger := w.controller.state.ledger;
      && (id in w.acks ==> id in w.store.rows && !Acknowledge(cfg, w.store.rows[id], at).1.AckNotAllowed?)
      && (forall v | (id, v) in w.results ::
            && id in w.store.rows && id in ledger && ledger[id].verdict == Some(v)
            && (Complete(w.store.rows[id], v, at).1.Completed?
              || Complete(w.store.rows[id], v, at).1.AlreadyCompleted?))
      && (id in w.store.rows && w.store.rows[id].device == PUMP
          && (w.store.rows[id].status.Succeeded? || w.store.rows[id].status.Failed?) ==>
            id in ledger && ledger[id].verdict.Some? && Records(w.store.rows[id], ledger[id].verdict.value))
  {
    hide Inv, Complete, Acknowledge, Next;
    RunKeeps(cfg, moves);
    RepliesFit(cfg, Run(cfg, moves), id, at);
  }

  lemma RepliesFit(cfg: Config, w: World, id: nat, at: int)
    requires Inv(cfg, w)
    ensures
      var ledger := w.controller.state.ledger;
      && (id in w.acks ==> id in w.store.rows && !Acknowledge(cfg, w.store.rows[id], at).1.AckNotAllowed?)
      && (forall v | (id, v) in w.results ::
            && id in w.store.rows && id in ledger && ledger[id].verdict == Some(v)
            && (Complete(w.store.rows[id], v, at).1.Completed?
              || Complete(w.store.rows[id], v, at).1.AlreadyCompleted?))
      && (id in w.store.rows && w.store.rows[id].device == PUMP
          && (w.store.rows[id].status.Succeeded? || w.store.rows[id].status.Failed?) ==>
            id in ledger && ledger[id].verdict.Some? && Records(w.store.rows[id], ledger[id].verdict.value))
  {
    hide C.Inv, OutboxOk, Complete, Acknowledge, Spaced;
    var ledger := w.controller.state.ledger;
    if id in ledger {
      var e := ledger[id].envelope;
      assert e in w.sent && e.id == id;
      assert RowOk(cfg, w.store, w.now, id);
      AttemptedTakesAck(cfg, w.store.rows[id], at);
      forall v | (id, v) in w.results
        ensures Complete(w.store.rows[id], v, at).1.Completed? || Complete(w.store.rows[id], v, at).1.AlreadyCompleted?
      {
        AttemptedTakesResult(w.store.rows[id], v, at);
      }
    }
  }

  lemma AttemptedTakesAck(cfg: Config, c: Row, at: int)
    requires Honest(c) && c.attempts > 0
    ensures !Acknowledge(cfg, c, at).1.AckNotAllowed?
  {
  }

  lemma AttemptedTakesResult(c: Row, v: Verdict, at: int)
    requires Honest(c) && c.attempts > 0 && (c.status.Succeeded? || c.status.Failed? ==> Records(c, v))
    ensures Complete(c, v, at).1.Completed? || Complete(c, v, at).1.AlreadyCompleted?
  {
  }

  /** A final reply that has left the outbox without ever having been published. */
  predicate Lost(w: World, id: nat)
  {
    var ledger := w.controller.state.ledger;
    id in ledger && !ledger[id].pending && ledger[id].verdict.Some? && (id, ledger[id].verdict.value) !in w.results
  }

  /** The confirmation of a row finds the reply that was read. */
  predicate Current(w: World, m: Move)
  {
    m.Confirm? && m.id in w.outgoing && SentOut(w.outgoing[m.id]) ==>
      m.id in w.controller.state.ledger && w.controller.state.ledger[m.id].verdict == w.outgoing[m.id].verdict
  }

  /** A move loses a reply exactly if it confirms a row whose reply came in after it was read. */
  lemma OnlyStaleConfirmLoses(cfg: Config, w: World, m: Move, id: nat)
    requires Inv(cfg, w) && !Lost(w, id)
    ensures Lost(Next(cfg, w, m), id) <==> m == Confirm(id) && !Current(w, m)
  {
    hide StoreOk, NetworkOk, LedgerOk, OutboxOk, AgreementOk, Next, Current;
    if m.Control? {
      ControlLosesNothing(cfg, w, m.event, id);
    } else if m.Confirm? {
      ConfirmLoses(cfg, w, m.id, id);
    } else {
      QuietMove(cfg, w, m);
    }
  }

  lemma QuietMove(cfg: Config, w: World, m: Move)
    requires !m.Control? && !m.Confirm?
    ensures Next(cfg, w, m).controller == w.controller && w.results <= Next(cfg, w, m).results
  {
    hide BeginDispatch, Create, AckFrom, ResultFrom;
  }

  lemma ControlLosesNothing(cfg: Config, w: World, ev: C.Event, id: nat)
    requires LedgerOk(w) && !Lost(w, id)
    ensures !Lost(Next(cfg, w, Control(ev)), id)
  {
    hide LedgerOk, C.Advance;
    ControllerOk(w);
    C.LedgerNews(w.controller, ev);
  }

  lemma ConfirmLoses(cfg: Config, w: World, i: nat, id: nat)
    requires LedgerOk(w) && OutboxOk(w) && !Lost(w, id)
    ensures Lost(Next(cfg, w, Confirm(i)), id) <==> i == id && !Current(w, Confirm(i))
  {
    hide LedgerOk, C.Advance;
    ControllerOk(w);
    C.LedgerNews(w.controller, C.Acked(i));
    ConfirmClears(w, i);
    PublishedIsLedger(w);
  }

  lemma PublishedIsLedger(w: World)
    requires LedgerOk(w)
    ensures forall r | r in w.results ::
      r.0 in w.controller.state.ledger && w.controller.state.ledger[r.0].verdict == Some(r.1)
  {
  }

  lemma ConfirmClears(w: World, id: nat)
    ensures
      var b := C.Advance(w.controller, C.Acked(id)).state.ledger;
      id in w.controller.state.ledger ==> id in b && !b[id].pending
  {
  }

  /** In no moment of the run a reply is lost. */
  ghost predicate NeverLost(cfg: Config, moves: seq<Move>)
  {
    forall n: nat, id: nat | n <= |moves| :: !Lost(Run(cfg, moves[..n]), id)
  }

  /** Every confirmation of the run finds the reply that was read. */
  ghost predicate AlwaysCurrent(cfg: Config, moves: seq<Move>)
  {
    forall k | 0 <= k < |moves| :: Current(Run(cfg, moves[..k]), moves[k])
  }

  lemma NeverLostStep(cfg: Config, before: seq<Move>, m: Move)
    ensures NeverLost(cfg, before + [m])
      <==> NeverLost(cfg, before) && forall id: nat :: !Lost(Run(cfg, before + [m]), id)
  {
    hide Run, Lost;
    var moves := before + [m];
    assert moves[..|moves|] == moves;
    if NeverLost(cfg, moves) {
      forall id: nat ensures !Lost(Run(cfg, moves), id) { assert !Lost(Run(cfg, moves[..|moves|]), id); }
      forall n: nat, id: nat | n <= |before| ensures !Lost(Run(cfg, before[..n]), id) {
        assert before[..n] == moves[..n];
        assert !Lost(Run(cfg, moves[..n]), id);
      }
    } else {
      var n: nat, id: nat :| n <= |moves| && Lost(Run(cfg, moves[..n]), id);
      if n <= |before| {
        assert before[..n] == moves[..n];
        assert Lost(Run(cfg, before[..n]), id);
      } else {
        assert moves[..n] == moves;
        assert Lost(Run(cfg, moves), id);
      }
    }
  }

  lemma AlwaysCurrentStep(cfg: Config, before: seq<Move>, m: Move)
    ensures AlwaysCurrent(cfg, before + [m]) <==> AlwaysCurrent(cfg, before) && Current(Run(cfg, before), m)
  {
    hide Run, Current;
    var moves := before + [m];
    assert moves[..|before|] == before && moves[|before|] == m;
    assert forall k | 0 <= k < |before| :: moves[..k] == before[..k] && moves[k] == before[k];
    if AlwaysCurrent(cfg, moves) {
      forall k | 0 <= k < |before| ensures Current(Run(cfg, before[..k]), before[k]) {
        assert Current(Run(cfg, moves[..k]), moves[k]);
      }
      assert Current(Run(cfg, moves[..|before|]), moves[|before|]);
    }
  }

  /** No reply is ever lost in a run exactly if each confirmation finds the reply that was read. */
  lemma {:induction false} NoReplyIsLost(cfg: Config, moves: seq<Move>)
    requires ValidConfig(cfg)
    ensures NeverLost(cfg, moves) <==> AlwaysCurrent(cfg, moves)
  {
    hide Next, Inv, Lost, Current, NeverLost, AlwaysCurrent;
    if moves == [] {
      NothingIsLostAtFirst(cfg);
    } else {
      var before, m := moves[..|moves| - 1], moves[|moves| - 1];
      NoReplyIsLost(cfg, before);
      assert moves == before + [m];
      NeverLostStep(cfg, before, m);
      AlwaysCurrentStep(cfg, before, m);
      RunKeeps(cfg, before);
      if NeverLost(cfg, before) {
        assert Run(cfg, moves) == Next(cfg, Run(cfg, before), m);
        LastMove(cfg, before, m);
      }
    }
  }

  lemma LastMove(cfg: Config, before: seq<Move>, m: Move)
    requires Inv(cfg, Run(cfg, before)) && NeverLost(cfg, before)
    ensures Current(Run(cfg, before), m) <==> forall id: nat :: !Lost(Next(cfg, Run(cfg, before), m), id)
  {
    hide Next, Inv, Lost, Current;
    var w := Run(cfg, before);
    assert before[..|before|] == before;
    forall id: nat ensures Lost(Next(cfg, w, m), id) <==> m == Confirm(id) && !Current(w, m) {
      OnlyStaleConfirmLoses(cfg, w, m, id);
    }
    CurrentOrConfirm(w, m);
    if !Current(w, m) {
      assert Lost(Next(cfg, w, m), m.id);
    }
  }

  lemma CurrentOrConfirm(w: World, m: Move)
    ensures Current(w, m) || m.Confirm?
  {
  }

  lemma NothingIsLostAtFirst(cfg: Config)
    ensures NeverLost(cfg, []) && AlwaysCurrent(cfg, [])
  {
    var none: seq<Move> := [];
    assert forall n: nat | n <= 0 :: none[..n] == [];
  }

  /** The failing family: a scenario of a second process ends the active program after the loop
      has read its row and sent the acknowledgement. The confirmation then loses the final reply,
      and once the acknowledgement is in, the backend never sends the command again. */
  lemma InterruptedReplyIsLost(cfg: Config, moves: seq<Move>, id: nat, mode: C.Mode, more: seq<Move>)
    requires ValidConfig(cfg) && !mode.Normal? && Unfinished(Run(cfg, moves), id)
    ensures id in Run(cfg, moves).store.rows && id in Run(cfg, moves + LosingMoves(id, mode) + more).store.rows
    ensures Lost(Run(cfg, moves + LosingMoves(id, mode)[..2]), id)
    ensures
      var w, v := Run(cfg, moves), Run(cfg, moves + LosingMoves(id, mode) + more);
      v.store.rows[id].attempts == w.store.rows[id].attempts && !Pending(v.store.rows[id])
  {
    hide Inv, Lost, Next, Run, Unfinished;
    var ms := LosingMoves(id, mode);
    RunKeeps(cfg, moves);
    ThreeMoves(cfg, moves, ms[0], ms[1], ms[2]);
    assert ms[..2] == [ms[0]] + [ms[1]] && moves + ms[..2] == moves + [ms[0]] + [ms[1]];
    assert ms == [ms[0]] + [ms[1]] + [ms[2]] && moves + ms == moves + [ms[0]] + [ms[1]] + [ms[2]];
    TwoMovesLose(cfg, Run(cfg, moves), id, mode);
    RunKeeps(cfg, moves + ms[..2]);
    AckedIsNotPending(cfg, Run(cfg, moves + ms[..2]), id);
    RunGrows(cfg, moves + ms, more);
    ProgressKeepsAttempts(Run(cfg, moves + ms).store, Run(cfg, moves + ms + more).store, id);
  }

  /** The loop has read the row of the active program and sent its acknowledgement. */
  predicate Unfinished(w: World, id: nat)
  {
    && id in w.outgoing && w.outgoing[id].acked && w.outgoing[id].verdict.None?
    && id in w.controller.state.ledger && w.controller.state.ledger[id].verdict.None?
  }

  lemma TwoMovesLose(cfg: Config, w: World, id: nat, mode: C.Mode)
    requires ValidConfig(cfg) && Inv(cfg, w) && !mode.Normal? && Unfinished(w, id)
    ensures id in w.store.rows
    ensures
      var v := Next(cfg, Next(cfg, w, Control(C.ModeChange(mode))), Confirm(id));
      Lost(v, id) && v.store == w.store && id in v.acks
  {
    hide Inv, Lost, Next;
    var u := Next(cfg, w, Control(C.ModeChange(mode)));
    NextKeeps(cfg, w, Control(C.ModeChange(mode)));
    ModeEndsProgram(cfg, w, id, mode);
    FreshReplyIsNotLost(cfg, u, id);
    OnlyStaleConfirmLoses(cfg, u, Confirm(id), id);
    ConfirmLeavesTheRest(cfg, u, id);
    AckedIsStored(cfg, w, id);
  }

  lemma ConfirmLeavesTheRest(cfg: Config, u: World, id: nat)
    ensures Next(cfg, u, Confirm(id)).store == u.store && Next(cfg, u, Confirm(id)).acks == u.acks
  {
  }

  function LosingMoves(id: nat, mode: C.Mode): seq<Move> { [Control(C.ModeChange(mode)), Confirm(id), ReceiveAck(id)] }

  lemma ThreeMoves(cfg: Config, moves: seq<Move>, a: Move, b: Move, c: Move)
    ensures Run(cfg, moves + [a]) == Next(cfg, Run(cfg, moves), a)
    ensures Run(cfg, moves + [a] + [b]) == Next(cfg, Run(cfg, moves + [a]), b)
    ensures Run(cfg, moves + [a] + [b] + [c]) == Next(cfg, Run(cfg, moves + [a] + [b]), c)
  {
    hide Next;
    assert (moves + [a])[..|moves|] == moves;
    assert (moves + [a] + [b])[..|moves| + 1] == moves + [a];
    assert (moves + [a] + [b] + [c])[..|moves| + 2] == moves + [a] + [b];
  }

  /** Ending the program gives its command a final reply. */
  lemma ModeEndsProgram(cfg: Config, w: World, id: nat, mode: C.Mode)
    requires Inv(cfg, w) && !mode.Normal? && Unfinished(w, id)
    ensures
      var u := Next(cfg, w, Control(C.ModeChange(mode)));
      && u.store == w.store && u.acks == w.acks && u.outgoing == w.outgoing
      && id in u.controller.state.ledger && u.controller.state.ledger[id].verdict.Some?
      && u.controller.state.ledger[id].pending
  {
    hide C.LogOk, C.PumpExplained, C.TimeOk, StoreOk, NetworkOk, AgreementOk, OutboxOk;
  }

  lemma FreshReplyIsNotLost(cfg: Config, u: World, id: nat)
    requires id in u.controller.state.ledger && u.controller.state.ledger[id].pending
    ensures !Lost(u, id)
  {
  }

  lemma AckedIsStored(cfg: Config, w: World, id: nat)
    requires Inv(cfg, w) && id in w.outgoing && w.outgoing[id].acked
    ensures id in w.acks && id in w.store.rows && w.store.rows[id].device == PUMP
  {
    hide C.Inv, StoreOk, AgreementOk;
    var e := w.controller.state.ledger[id].envelope;
    assert e in w.sent && e.id == id;
  }

  /** An acknowledged command is out of delivery, with the attempts it had. */
  lemma AckedIsNotPending(cfg: Config, v: World, id: nat)
    requires Inv(cfg, v) && id in v.acks
    ensures id in v.store.rows && id in Next(cfg, v, ReceiveAck(id)).store.rows
    ensures
      var c := Next(cfg, v, ReceiveAck(id)).store.rows[id];
      !Pending(c) && c.attempts == v.store.rows[id].attempts
  {
    hide Inv, Acknowledge;
    AckComesFromPump(cfg, v, id);
    RowFacts(cfg, v, id);
    AcknowledgedIsNotPending(cfg, v.store.rows[id], v.now);
  }

  lemma AckComesFromPump(cfg: Config, v: World, id: nat)
    requires Inv(cfg, v) && id in v.acks
    ensures id in v.store.rows && v.store.rows[id].device == PUMP && v.store.rows[id].attempts > 0
  {
    hide C.Inv, OutboxOk, AgreementOk, StoreOk;
    var e := v.controller.state.ledger[id].envelope;
    assert e in v.sent && e.id == id;
  }

  lemma AcknowledgedIsNotPending(cfg: Config, c: Row, now: int)
    requires Honest(c) && c.attempts > 0
    ensures !Pending(Acknowledge(cfg, c, now).0) && Acknowledge(cfg, c, now).0.attempts == c.attempts
  {
  }

  lemma ProgressKeepsAttempts(s: Store, t: Store, id: nat)
    requires TableGrows(s, t) && id in s.rows && !Pending(s.rows[id])
    ensures id in t.rows && !Pending(t.rows[id]) && t.rows[id].attempts == s.rows[id].attempts
  {
    assert Progress(s.rows[id], t.rows[id]);
  }

  /** A run that gets there, under any settings. */
  const LONG_HOLD: Kind := StartProgram([Step(10.0, 60)])

  function FirstRequest(): Request { Request(1, PUMP, 0, None, LONG_HOLD, 30, None) }

  function FirstEnvelope(): Envelope { Envelope(PUMP, 2, None, 1, 1, 1, 0, 30 * SECOND, 30, LONG_HOLD) }

  function UntilAcked(): seq<Move>
  {
    [Register(1, FirstRequest(), 0, false, false, Some(None)), Begin(0, 1, false, None, true), Send(FirstEnvelope()),
     Control(C.Deliver(FirstEnvelope(), 0, 0.0)), ReadReply(1), PublishAck(1)]
  }

  /** The worlds along that run. */
  function Stage(k: nat): World
  {
    var c := NewRow(FirstRequest(), 1, 0);
    var filed := Store(map[1 := c], map[1 := 1], map[PUMP := 1], map[]);
    var tried := c.(status := Published, attempts := 1, lastAttemptAt := Some(0), publishedAt := Some(0));
    var sent := filed.(rows := map[1 := tried]);
    var e := FirstEnvelope();
    var holding := C.Program(1, [Step(10.0, 60)], false, C.Holding, 0, 60, 0.0, None);
    var state := C.State(true, 10.0, C.Normal, 1, 1, Some(holding), map[1 := C.Entry(e, None, true)]);
    var trace := C.Trace(state, [C.Execution(1, 1, LONG_HOLD, 0, 30 * SECOND)], 0.0, 0.0);
    if k == 0 then EMPTY
    else if k == 1 then EMPTY.(store := filed)
    else if k == 2 then EMPTY.(store := sent, flights := map[0 := Flight(1, 1)], launched := {e})
    else if k == 3 then EMPTY.(store := sent, flights := map[0 := Flight(1, 1)], launched := {e}, sent := {e})
    else
      var w := World(0, sent, map[0 := Flight(1, 1)], {e}, {e}, trace, map[], {}, {});
      if k == 4 then w
      else if k == 5 then w.(outgoing := map[1 := Outgoing(None, false, false)])
      else w.(outgoing := map[1 := Outgoing(None, true, false)], acks := {1})
  }

  lemma StageOfCommand(cfg: Config, k: nat)
    requires k < 3
    ensures Next(cfg, Stage(k), UntilAcked()[k]) == Stage(k + 1)
  {
    PlanIsShort();
  }

  lemma StageOfController(cfg: Config, k: nat)
    requires 3 <= k < 6
    ensures Next(cfg, Stage(k), UntilAcked()[k]) == Stage(k + 1)
  {
    hide C.Accept;
    StartIsAccepted();
  }

  lemma StartIsAccepted()
    ensures C.Advance(C.START, C.Deliver(FirstEnvelope(), 0, 0.0)) == Stage(4).controller
  {
    PlanIsShort();
  }

  lemma PlanIsShort()
    ensures ValidKind(LONG_HOLD)
  {
    assert Through([Step(10.0, 60)], 1) == Through([Step(10.0, 60)], 0) + 60;
  }

  lemma {:induction false} StagesAreRun(cfg: Config, k: nat)
    requires k <= 6
    ensures Run(cfg, UntilAcked()[..k]) == Stage(k)
  {
    hide Next, Stage;
    if k == 0 {
      assert UntilAcked()[..0] == [];
      assert Stage(0) == EMPTY by { FirstStage(); }
    } else {
      StagesAreRun(cfg, k - 1);
      assert UntilAcked()[..k][..k - 1] == UntilAcked()[..k - 1];
      if k <= 3 { StageOfCommand(cfg, k - 1); } else { StageOfController(cfg, k - 1); }
    }
  }

  lemma FirstStage()
    ensures Stage(0) == EMPTY
  {
  }

  /** So replies can be lost, whatever the settings. */
  lemma ReplyCanBeLost(cfg: Config, mode: C.Mode)
    requires ValidConfig(cfg) && !mode.Normal?
    ensures !NeverLost(cfg, UntilAcked() + LosingMoves(1, mode)[..2])
  {
    hide Next, Lost;
    StagesAreRun(cfg, 6);
    assert UntilAcked()[..6] == UntilAcked();
    InterruptedReplyIsLost(cfg, UntilAcked(), 1, mode, []);
    var all := UntilAcked() + LosingMoves(1, mode)[..2];
    assert all[..|all|] == all;
  }

  /** Honest outcomes: a cancelled or expired command has never been on the network and never
      will be; one that may have been sent is never reported as cancelled or expired. */
  lemma OutcomesAreHonest(cfg: Config, moves: seq<Move>, more: seq<Move>, id: nat)
    requires ValidConfig(cfg) && id in Run(cfg, moves).store.rows
    ensures id in Run(cfg, moves + more).store.rows
    ensures
      var w, v := Run(cfg, moves), Run(cfg, moves + more);
      var status := v.store.rows[id].status;
      && (w.store.rows[id].status.Cancelled? || w.store.rows[id].status.Expired? ==>
            && status == w.store.rows[id].status
            && (forall e | e in v.launched || e in v.sent :: e.id != id))
      && ((exists e :: e in w.launched && e.id == id) ==>
            status.Published? || status.Acknowledged? || status.ResultUnknown? || status.Succeeded? || status.Failed?)
  {
    RunKeeps(cfg, moves);
    RunKeeps(cfg, moves + more);
    RunGrows(cfg, moves, more);
    var w, v := Run(cfg, moves), Run(cfg, moves + more);
    hide Run, LedgerOk, AgreementOk;
    assert Progress(w.store.rows[id], v.store.rows[id]);
    assert RowOk(cfg, w.store, w.now, id) && RowOk(cfg, v.store, v.now, id);
  }

  /** Once a Stop that is not itself superseded is registered, no older command of the device
      is ever attempted again, whatever retries and dispatches are under way. */
  lemma StopFreezesOlder(cfg: Config, moves: seq<Move>, stop: Move, more: seq<Move>, id: nat)
    requires ValidConfig(cfg) && id in Run(cfg, moves).store.rows
    requires stop.Register? && stop.request.kind.Stop? && stop.id !in Run(cfg, moves).store.rows
    requires ValidRequest(stop.request)
    requires stop.createdAt <= Run(cfg, moves).now && !SupersedingStop(Run(cfg, moves).store.rows, stop.request)
    requires Create(Run(cfg, moves).store, stop.id, stop.request, stop.createdAt, stop.unavailable, stop.refused,
      stop.binding).1.Created?
    requires Run(cfg, moves).store.rows[id].device == stop.request.device
    ensures id in Run(cfg, moves + [stop] + more).store.rows && stop.id in Run(cfg, moves + [stop] + more).store.rows
    ensures
      var w, v := Run(cfg, moves), Run(cfg, moves + [stop] + more);
      && v.store.rows[id].sequence < v.store.rows[stop.id].sequence
      && v.store.rows[id].attempts == w.store.rows[id].attempts
      && (forall e | e in v.launched && e.id == id :: w.store.rows[id].attempts > 0)
  {
    var w := Run(cfg, moves);
    assert (moves + [stop])[..|moves|] == moves;
    var u := Run(cfg, moves + [stop]);
    assert u == Next(cfg, w, stop);
    RunKeeps(cfg, moves);
    RunKeeps(cfg, moves + [stop] + more);
    RunGrows(cfg, moves + [stop], more);
    var v := Run(cfg, moves + [stop] + more);
    StopEndsDelivery(cfg, w, stop, id);
    hide Run, LedgerOk, AgreementOk, Create;
    assert Progress(u.store.rows[id], v.store.rows[id]) && Progress(u.store.rows[stop.id], v.store.rows[stop.id]);
  }

  lemma StopEndsDelivery(cfg: Config, w: World, stop: Move, id: nat)
    requires Inv(cfg, w) && id in w.store.rows
    requires stop.Register? && stop.request.kind.Stop? && stop.id !in w.store.rows && ValidRequest(stop.request)
    requires stop.createdAt <= w.now && !SupersedingStop(w.store.rows, stop.request)
    requires w.store.rows[id].device == stop.request.device
    requires Create(w.store, stop.id, stop.request, stop.createdAt, stop.unavailable, stop.refused,
      stop.binding).1.Created?
    ensures
      var rows := Next(cfg, w, stop).store.rows;
      && id in rows && stop.id in rows && !Pending(rows[id])
      && rows[id].attempts == w.store.rows[id].attempts && rows[id].sequence < rows[stop.id].sequence
  {
    hide LedgerOk, AgreementOk, NetworkOk, RowOk, NumberedApart, Honest, Spaced, ValidRequest;
    assert FiledOk(w.store, id);
  }

  /** A stored Stop names this request as superseded. */
  ghost predicate Names(s: Store, stop: nat, request: nat)
  {
    stop in s.rows && s.rows[stop].kind.Stop? && s.rows[stop].supersedes == Some(request)
  }

  /** What the named request became, if the author and the device of the Stop filed it. */
  ghost predicate NamedIsCancelled(s: Store, stop: nat, request: nat)
    requires stop in s.rows
  {
    forall id | id in s.rows && s.rows[id].request == request && s.rows[id].device == s.rows[stop].device
      && s.rows[id].actor == s.rows[stop].actor ::
      s.rows[id].status.Cancelled? && s.rows[id].attempts == 0
  }

  /** The other arrival order: a request that reaches the backend after the Stop that names it
      is stored as cancelled and never attempted. */
  lemma {:induction false} LateRequestIsCancelled(cfg: Config, moves: seq<Move>, more: seq<Move>, stop: nat,
      request: nat)
    requires ValidConfig(cfg) && Names(Run(cfg, moves).store, stop, request)
    requires request !in Run(cfg, moves).store.byRequest
    ensures Names(Run(cfg, moves + more).store, stop, request)
    ensures NamedIsCancelled(Run(cfg, moves + more).store, stop, request)
  {
    hide Names, NamedIsCancelled, Next, Inv;
    if more == [] {
      assert moves + more == moves;
      RunKeeps(cfg, moves);
      NotFiledYet(cfg, Run(cfg, moves), stop, request);
    } else {
      var n := |more| - 1;
      LateRequestIsCancelled(cfg, moves, more[..n], stop, request);
      assert (moves + more)[..|moves + more| - 1] == moves + more[..n];
      RunKeeps(cfg, moves + more[..n]);
      LateStep(cfg, Run(cfg, moves + more[..n]), more[n], stop, request);
    }
  }

  lemma NotFiledYet(cfg: Config, w: World, stop: nat, request: nat)
    requires Inv(cfg, w) && Names(w.store, stop, request) && request !in w.store.byRequest
    ensures NamedIsCancelled(w.store, stop, request)
  {
    hide LedgerOk, AgreementOk, NetworkOk, OutboxOk, RowOk, NumberedApart;
    forall id | id in w.store.rows ensures w.store.rows[id].request != request { assert FiledOk(w.store, id); }
  }

  lemma LateStep(cfg: Config, u: World, m: Move, stop: nat, request: nat)
    requires ValidConfig(cfg) && Inv(cfg, u) && Names(u.store, stop, request)
    requires NamedIsCancelled(u.store, stop, request)
    ensures Names(Next(cfg, u, m).store, stop, request) && NamedIsCancelled(Next(cfg, u, m).store, stop, request)
  {
    hide Next, Inv, SupersedingStop;
    NextKeeps(cfg, u, m);
    var s := Next(cfg, u, m).store;
    assert Progress(u.store.rows[stop], s.rows[stop]);
    forall id | id in s.rows && s.rows[id].request == request && s.rows[id].device == s.rows[stop].device
      && s.rows[id].actor == s.rows[stop].actor
      ensures s.rows[id].status.Cancelled? && s.rows[id].attempts == 0
    {
      if id in u.store.rows {
        assert Progress(u.store.rows[id], s.rows[id]);
      } else {
        NewRowsAreRegistered(cfg, u, m, id);
        assert SupersedingStop(u.store.rows, m.request) by { NamedStopSupersedes(u.store.rows, stop, m.request); }
      }
    }
  }

  lemma NamedStopSupersedes(rows: map<nat, Row>, stop: nat, r: Request)
    requires stop in rows && rows[stop].kind.Stop? && rows[stop].supersedes == Some(r.request)
    requires rows[stop].device == r.device && rows[stop].actor == r.actor
    ensures SupersedingStop(rows, r)
  {
  }

  lemma NewRowsAreRegistered(cfg: Config, u: World, m: Move, id: nat)
    requires id !in u.store.rows && id in Next(cfg, u, m).store.rows
    ensures m.Register? && id == m.id
    ensures
      var c := Next(cfg, u, m).store.rows[id];
      && c.request == m.request.request && c.device == m.request.device && c.actor == m.request.actor
      && (SupersedingStop(u.store.rows, m.request) ==> c.status.Cancelled? && c.attempts == 0)
  {
  }

  /** After the pump has executed a Stop it runs only if it has since executed a start that the
      table numbers above that Stop. */
  lemma StopRules(cfg: Config, moves: seq<Move>, i: nat)
    requires ValidConfig(cfg) && i < |Run(cfg, moves).controller.log| && Run(cfg, moves).controller.log[i].kind.Stop?
    ensures
      var w := Run(cfg, moves);
      var log := w.controller.log;
      w.controller.state.running || C.Active(w.controller.state) ==>
        exists j :: i < j < |log| && C.TurnsOn(log[j].kind) && log[j].id in w.store.rows && log[i].id in w.store.rows
                    && w.store.rows[log[i].id].sequence < w.store.rows[log[j].id].sequence
  {
    hide Next, Inv;
    RunKeeps(cfg, moves);
    var w := Run(cfg, moves);
    if w.controller.state.running || C.Active(w.controller.state) {
      PumpIsExplained(cfg, w);
      var j: nat :| C.StandingStart(w.controller.log, j);
      assert i < j;
      ExecutionIsOrdered(cfg, moves, i, j);
    }
  }

  lemma PumpIsExplained(cfg: Config, w: World)
    requires Inv(cfg, w)
    ensures C.PumpExplained(w.controller)
  {
    hide StoreOk, NetworkOk, AgreementOk, C.PumpExplained;
  }

  /** However dispatchers interleave and crash, a command is attempted at most ttl / interval
      times, rounded up, and always before it expires. */
  lemma AttemptsStayBounded(cfg: Config, moves: seq<Move>, id: nat)
    requires ValidConfig(cfg) && id in Run(cfg, moves).store.rows
    ensures
      var c := Run(cfg, moves).store.rows[id];
      && c.attempts <= (c.ttl + cfg.retryInterval - 1) / cfg.retryInterval
      && (c.attempts > 0 ==> c.lastAttemptAt.Some? && c.createdAt <= c.lastAttemptAt.value < c.expiresAt)
  {
    hide Next, Inv, Run;
    RunKeeps(cfg, moves);
    var w := Run(cfg, moves);
    RowFacts(cfg, w, id);
    AttemptsAreBounded(cfg, w.store.rows[id]);
  }

  // ---------------------------------------------------------------- the fate of single rows

  /** All that can become of a row in one move. */
  ghost predicate Fate(cfg: Config, c: Row, d: Row, now: int)
  {
    || d == c
    || (exists allowRetry, rejection, online :: d == BeginDispatch(cfg, c, now, allowRetry, rejection, online).0)
    || (exists attempt, failure :: d == FinishDispatch(c, attempt, failure))
    || d == Acknowledge(cfg, c, now).0
    || (exists v :: d == Complete(c, v, now).0)
    || (exists at :: Pending(c) && d == StopDelivery(c, at, SupersededByStop, Cancelled))
  }

  lemma FateOfRow(cfg: Config, w: World, m: Move, id: nat)
    requires id in w.store.rows
    ensures id in Next(cfg, w, m).store.rows && Fate(cfg, w.store.rows[id], Next(cfg, w, m).store.rows[id], w.now)
  {
    hide Fate, Next;
    if DispatchMove(m) { FateInDispatch(cfg, w, m, id); } else { FateInReplies(cfg, w, m, id); }
  }

  lemma FateInDispatch(cfg: Config, w: World, m: Move, id: nat)
    requires id in w.store.rows && DispatchMove(m)
    ensures id in Next(cfg, w, m).store.rows && Fate(cfg, w.store.rows[id], Next(cfg, w, m).store.rows[id], w.now)
  {
    hide Fate, FinishDispatch, Create;
    var c := w.store.rows[id];
    NoFate(cfg, c, w.now);
    if m.Begin? {
      FateInBegin(cfg, w, m, id);
      return;
    }
    hide BeginDispatch;
    match m
    case Register(i, r, createdAt, unavailable, refused, binding) =>
      if i !in w.store.rows { CreatedRowStep(cfg, w.store, w.now, i, r, createdAt, unavailable, refused, binding, id); }
    case Finish(d, failure) => if d in w.flights { FinishIsFate(cfg, c, w.now, w.flights[d].attempt, failure); }
    case _ =>
  }

  lemma FateInBegin(cfg: Config, w: World, m: Move, id: nat)
    requires id in w.store.rows && m.Begin?
    ensures id in Next(cfg, w, m).store.rows && Fate(cfg, w.store.rows[id], Next(cfg, w, m).store.rows[id], w.now)
  {
    hide Fate, BeginDispatch;
    NoFate(cfg, w.store.rows[id], w.now);
    BeginIsFate(cfg, w.store.rows[id], w.now, m.allowRetry, m.rejection, m.online);
  }

  lemma FateInReplies(cfg: Config, w: World, m: Move, id: nat)
    requires id in w.store.rows && !DispatchMove(m)
    ensures id in Next(cfg, w, m).store.rows && Fate(cfg, w.store.rows[id], Next(cfg, w, m).store.rows[id], w.now)
  {
    hide Fate, AckFrom, ResultFrom, C.Advance;
    NoFate(cfg, w.store.rows[id], w.now);
    match m
    case ReceiveAck(i) => AckIsFate(cfg, w.store, PUMP, i, w.now, id);
    case ForeignAck(device, i) => AckIsFate(cfg, w.store, device, i, w.now, id);
    case ReceiveResult(i, v) => ResultIsFate(cfg, w.store, PUMP, i, v, w.now, id);
    case ForeignResult(device, i, v) => ResultIsFate(cfg, w.store, device, i, v, w.now, id);
    case _ =>
  }

  lemma NoFate(cfg: Config, c: Row, now: int)
    ensures Fate(cfg, c, c, now)
  {
  }

  lemma BeginIsFate(cfg: Config, c: Row, now: int, allowRetry: bool, rejection: Option<nat>, online: bool)
    ensures Fate(cfg, c, BeginDispatch(cfg, c, now, allowRetry, rejection, online).0, now)
  {
    hide BeginDispatch, FinishDispatch, Acknowledge, Complete, StopDelivery;
  }

  lemma FinishIsFate(cfg: Config, c: Row, now: int, attempt: nat, failure: Option<nat>)
    ensures Fate(cfg, c, FinishDispatch(c, attempt, failure), now)
  {
    hide BeginDispatch, FinishDispatch, Acknowledge, Complete, StopDelivery;
  }

  lemma AckIsFate(cfg: Config, s: Store, device: nat, i: nat, now: int, id: nat)
    requires id in s.rows
    ensures
      var t := AckFrom(cfg, s, device, i, now);
      id in t.rows && Fate(cfg, s.rows[id], t.rows[id], now)
  {
    hide BeginDispatch, FinishDispatch, Acknowledge, Complete, StopDelivery;
  }

  lemma ResultIsFate(cfg: Config, s: Store, device: nat, i: nat, v: Verdict, now: int, id: nat)
    requires id in s.rows
    ensures
      var t := ResultFrom(s, device, i, v, now);
      id in t.rows && Fate(cfg, s.rows[id], t.rows[id], now)
  {
    hide BeginDispatch, FinishDispatch, Acknowledge, Complete, StopDelivery;
  }

  lemma CreatedRowStep(cfg: Config, s: Store, now: int, i: nat, r: Request, createdAt: int, unavailable: bool,
      refused: bool, binding: Option<Option<Target>>, id: nat)
    requires id in s.rows && i !in s.rows
    ensures
      var t := Create(s, i, r, createdAt, unavailable, refused, binding).0;
      id in t.rows && Fate(cfg, s.rows[id], t.rows[id], now)
  {
    hide StopDelivery, FirstRow, SupersedingStop, MatchesRequest;
  }

  lemma NewRowStep(cfg: Config, w: World, m: Move, id: nat)
    requires id !in w.store.rows && id in Next(cfg, w, m).store.rows
    ensures m.Register? && id == m.id && Next(cfg, w, m).store.rows[id] == FirstRow(w.store, m.request, m.createdAt)
  {
    hide FirstRow, StopDelivery, SupersedingStop, MatchesRequest, C.Advance, BeginDispatch, FinishDispatch,
      Acknowledge, Complete;
  }

  lemma FateWaits(cfg: Config, c: Row, d: Row, now: int)
    requires Honest(c) && WaitOk(cfg, c) && c.createdAt <= now && Fate(cfg, c, d, now)
    ensures WaitOk(cfg, d)
  {
    hide WaitOk, Honest, BeginDispatch, FinishDispatch, Acknowledge, Complete, StopDelivery;
    if allowRetry, rejection, online :| d == BeginDispatch(cfg, c, now, allowRetry, rejection, online).0 {
      WaitSurvivesDispatch(cfg, c, now, allowRetry, rejection, online);
    } else if attempt, failure :| d == FinishDispatch(c, attempt, failure) {
      WaitSurvivesTheRest(cfg, c, now, attempt, failure);
    } else if at :| Pending(c) && d == StopDelivery(c, at, SupersededByStop, Cancelled) {
      WaitSurvivesTheRest(cfg, c, at, 0, None);
    } else {
      WaitSurvivesReplies(cfg, c, now);
    }
  }

  lemma FirstRowWaits(cfg: Config, s: Store, r: Request, createdAt: int)
    ensures WaitOk(cfg, FirstRow(s, r, createdAt))
  {
    hide Patient, SupersedingStop;
  }

  /** In every run each row waits for its acknowledged plan: the result counts as missing only after the
      deadline, and the deadline is worth the whole plan. */
  lemma {:induction false} RowsWait(cfg: Config, moves: seq<Move>, id: nat)
    requires ValidConfig(cfg) && id in Run(cfg, moves).store.rows
    ensures WaitOk(cfg, Run(cfg, moves).store.rows[id])
  {
    hide WaitOk, Next, FirstRow, Fate, Inv;
    if moves != [] {
      var n := |moves| - 1;
      var w := Run(cfg, moves[..n]);
      if id in w.store.rows {
        RowsWait(cfg, moves[..n], id);
        RunKeeps(cfg, moves[..n]);
        RowFacts(cfg, w, id);
        FateOfRow(cfg, w, moves[n], id);
        FateWaits(cfg, w.store.rows[id], Run(cfg, moves).store.rows[id], w.now);
      } else {
        NewRowStep(cfg, w, moves[n], id);
        FirstRowWaits(cfg, w.store, moves[n].request, moves[n].createdAt);
      }
    }
  }

  /** A program is never given up before all its steps could have been held, counted from the
      acknowledgement, and a calendar run never before its end. */
  lemma NoPlanIsGivenUpEarly(cfg: Config, moves: seq<Move>, id: nat)
    requires ValidConfig(cfg) && id in Run(cfg, moves).store.rows
    ensures
      var c := Run(cfg, moves).store.rows[id];
      c.status.ResultUnknown? && c.error == Some(ResultTimeout) ==>
        && c.acknowledgedAt.Some? && c.timedOutAt.Some?
        && (c.kind.StartProgram? ==> c.acknowledgedAt.value + Total(c.kind.steps) * SECOND < c.timedOutAt.value)
        && (c.kind.StartSchedule? ==> c.kind.run.stopsAt * SECOND < c.timedOutAt.value)
        && (!C.StartsProgram(c.kind) ==> c.acknowledgedAt.value + cfg.resultTimeout * SECOND <= c.timedOutAt.value)
  {
    hide Run;
    RowsWait(cfg, moves, id);
    var c := Run(cfg, moves).store.rows[id];
    if c.resultDeadlineAt.Some? {
      PatienceOutlastsThePlan(cfg, c, c.acknowledgedAt.value, c.resultDeadlineAt.value);
    }
  }

  lemma DispatchKeepsIdentity(cfg: Config, c: Row, now: int, allowRetry: bool, rejection: Option<nat>, online: bool)
    ensures SameIdentity(c, BeginDispatch(cfg, c, now, allowRetry, rejection, online).0)
  {
    hide ResultTimeoutSeconds;
  }

  lemma RepliesKeepIdentity(cfg: Config, c: Row, now: int)
    ensures SameIdentity(c, c) && SameIdentity(c, Acknowledge(cfg, c, now).0)
    ensures forall v: Verdict :: SameIdentity(c, Complete(c, v, now).0)
  {
    hide ResultTimeoutSeconds;
  }

  lemma TheRestKeepsIdentity(c: Row, at: int, attempt: nat, failure: Option<nat>)
    ensures SameIdentity(c, FinishDispatch(c, attempt, failure))
    ensures SameIdentity(c, StopDelivery(c, at, SupersededByStop, Cancelled))
  {
  }

  lemma FateKeepsIdentity(cfg: Config, c: Row, d: Row, now: int)
    requires Fate(cfg, c, d, now)
    ensures SameIdentity(c, d)
  {
    hide SameIdentity, BeginDispatch, FinishDispatch, Acknowledge, Complete, StopDelivery;
    RepliesKeepIdentity(cfg, c, now);
    if allowRetry, rejection, online :| d == BeginDispatch(cfg, c, now, allowRetry, rejection, online).0 {
      DispatchKeepsIdentity(cfg, c, now, allowRetry, rejection, online);
    } else if attempt, failure :| d == FinishDispatch(c, attempt, failure) {
      TheRestKeepsIdentity(c, now, attempt, failure);
    } else if at :| Pending(c) && d == StopDelivery(c, at, SupersededByStop, Cancelled) {
      TheRestKeepsIdentity(c, at, 0, None);
    }
  }

  /** The request a row was filed for. */
  function RequestOf(c: Row): Request { Request(c.request, c.device, c.actor, c.supersedes, c.kind, c.ttl, c.target) }

  lemma FirstRowKeepsRequest(s: Store, r: Request, createdAt: int)
    ensures RequestOf(FirstRow(s, r, createdAt)) == r
  {
    hide SupersedingStop;
  }

  lemma InvalidIsNotFiled(cfg: Config, w: World, m: Move)
    requires m.Register? && !ValidRequest(m.request)
    ensures Next(cfg, w, m) == w
  {
  }

  /** Over every run only well-formed requests are stored, and a stored request never changes. */
  lemma {:induction false} StoredIsValid(cfg: Config, moves: seq<Move>, id: nat)
    requires id in Run(cfg, moves).store.rows
    ensures ValidRequest(RequestOf(Run(cfg, moves).store.rows[id]))
  {
    hide Next, ValidRequest, FirstRow, Fate;
    if moves != [] {
      var n := |moves| - 1;
      var w := Run(cfg, moves[..n]);
      if id in w.store.rows {
        StoredIsValid(cfg, moves[..n], id);
        FateOfRow(cfg, w, moves[n], id);
        FateKeepsIdentity(cfg, w.store.rows[id], Run(cfg, moves).store.rows[id], w.now);
      } else {
        NewRowStep(cfg, w, moves[n], id);
        FirstRowKeepsRequest(w.store, moves[n].request, moves[n].createdAt);
        if !ValidRequest(moves[n].request) { InvalidIsNotFiled(cfg, w, moves[n]); }
      }
    }
  }

  // ---------------------------------------------------------------- what the replies stand for

  /** Results are published after their acknowledgement. */
  ghost predicate AckedFirst(w: World)
  {
    && (forall id | id in w.outgoing && w.outgoing[id].acked :: id in w.acks)
    && (forall r | r in w.results :: r.0 in w.acks)
  }

  lemma AckedFirstStep(cfg: Config, w: World, m: Move)
    requires AckedFirst(w)
    ensures AckedFirst(Next(cfg, w, m))
  {
    if m.Confirm? || SendingMove(m) {
      hide C.Advance;
      match m
      case ReadReply(_) =>
      case PublishAck(_) =>
      case PublishResult(_) =>
      case Confirm(_) =>
      case Abandon(_) =>
    } else {
      hide AckedFirst;
      OthersPublishNothing(cfg, w, m);
      FewerOutgoing(w, Next(cfg, w, m));
    }
  }

  lemma OthersPublishNothing(cfg: Config, w: World, m: Move)
    requires !m.Confirm? && !SendingMove(m)
    ensures
      var v := Next(cfg, w, m);
      v.acks == w.acks && v.results == w.results && (v.outgoing == w.outgoing || v.outgoing == map[])
  {
    hide C.Advance, Create, BeginDispatch, FinishDispatch, AckFrom, ResultFrom;
  }

  lemma FewerOutgoing(w: World, v: World)
    requires AckedFirst(w) && v.acks == w.acks && v.results == w.results
    requires (v.outgoing == w.outgoing || v.outgoing == map[])
    ensures AckedFirst(v)
  {
  }

  /** In every run a result is published only after the acknowledgement of its command. */
  lemma {:induction false} ResultsFollowAcks(cfg: Config, moves: seq<Move>)
    ensures AckedFirst(Run(cfg, moves))
  {
    hide Next, AckedFirst;
    if moves == [] {
      assert AckedFirst(EMPTY) by { NothingIsOut(); }
    } else {
      var n := |moves| - 1;
      ResultsFollowAcks(cfg, moves[..n]);
      AckedFirstStep(cfg, Run(cfg, moves[..n]), moves[n]);
    }
  }

  lemma NothingIsOut()
    ensures AckedFirst(EMPTY)
  {
  }

  /** A pump that is cut off publishes no acknowledgement, and so no result either. */
  lemma OfflineIsSilent(cfg: Config, w: World, m: Move)
    requires AckedFirst(w) && w.controller.state.mode.Offline?
    ensures Next(cfg, w, m).acks == w.acks
    ensures forall r | r in Next(cfg, w, m).results && r !in w.results :: r.0 in w.acks
  {
    hide C.Advance, Create, BeginDispatch, FinishDispatch, AckFrom, ResultFrom;
  }

  /** What the table knows of the pump's replies is what the pump has answered. */
  ghost predicate Answered(w: World)
  {
    forall id | id in w.store.rows && w.store.rows[id].device == PUMP && w.store.rows[id].acknowledgedAt.Some? ::
      id in w.acks
  }

  lemma AnsweredFate(cfg: Config, w: World, m: Move, id: nat)
    requires AckedFirst(w) && id in w.store.rows && w.store.rows[id].device == PUMP
    requires w.store.rows[id].acknowledgedAt.None?
    ensures
      var v := Next(cfg, w, m);
      id in v.store.rows && (v.store.rows[id].acknowledgedAt.Some? ==> id in v.acks)
  {
    hide Next;
    if DispatchMove(m) { DispatchAnswersNothing(cfg, w, m, id); } else { OnlyAnswersCount(cfg, w, m, id); }
  }

  lemma DispatchAnswersNothing(cfg: Config, w: World, m: Move, id: nat)
    requires id in w.store.rows && DispatchMove(m)
    ensures
      var v := Next(cfg, w, m);
      id in v.store.rows && v.store.rows[id].acknowledgedAt == w.store.rows[id].acknowledgedAt
  {
    hide Next;
    if m.Register? {
      RegisterAnswersNothing(cfg, w, m, id);
    } else if m.Begin? {
      BeginAnswersNothing(cfg, w, m, id);
    } else {
      SendingAnswersNothing(cfg, w, m, id);
    }
  }

  lemma RegisterAnswersNothing(cfg: Config, w: World, m: Move, id: nat)
    requires id in w.store.rows && m.Register?
    ensures
      var v := Next(cfg, w, m);
      id in v.store.rows && v.store.rows[id].acknowledgedAt == w.store.rows[id].acknowledgedAt
  {
    hide Create;
    if m.id !in w.store.rows { CreateAcknowledgesNothing(w.store, m, id); }
  }

  lemma BeginAnswersNothing(cfg: Config, w: World, m: Move, id: nat)
    requires id in w.store.rows && m.Begin?
    ensures
      var v := Next(cfg, w, m);
      id in v.store.rows && v.store.rows[id].acknowledgedAt == w.store.rows[id].acknowledgedAt
  {
    hide BeginDispatch;
    DispatchAcknowledgesNothing(cfg, w.store.rows[id], w.now, m.allowRetry, m.rejection, m.online);
  }

  lemma SendingAnswersNothing(cfg: Config, w: World, m: Move, id: nat)
    requires id in w.store.rows && DispatchMove(m) && !m.Register? && !m.Begin?
    ensures
      var v := Next(cfg, w, m);
      id in v.store.rows && v.store.rows[id].acknowledgedAt == w.store.rows[id].acknowledgedAt
  {
    hide BeginDispatch, Create;
  }

  lemma OnlyAnswersCount(cfg: Config, w: World, m: Move, id: nat)
    requires AckedFirst(w) && id in w.store.rows && w.store.rows[id].device == PUMP && !DispatchMove(m)
    requires w.store.rows[id].acknowledgedAt.None?
    ensures
      var v := Next(cfg, w, m);
      id in v.store.rows && (v.store.rows[id].acknowledgedAt.Some? ==> id in v.acks)
  {
    hide AckFrom, ResultFrom, C.Advance;
    match m
    case ReceiveAck(i) => AnswerReachesItsRow(cfg, w.store, PUMP, i, w.now, id);
    case ForeignAck(device, i) => AnswerReachesItsRow(cfg, w.store, device, i, w.now, id);
    case ReceiveResult(i, _) => AnswerReachesItsRow(cfg, w.store, PUMP, i, w.now, id);
    case ForeignResult(device, i, _) => AnswerReachesItsRow(cfg, w.store, device, i, w.now, id);
    case _ =>
  }

  /** An answer changes the row it names, if that is of the device it comes from. */
  lemma AnswerReachesItsRow(cfg: Config, s: Store, device: nat, i: nat, now: int, id: nat)
    requires id in s.rows
    ensures id in AckFrom(cfg, s, device, i, now).rows
    ensures id != i || s.rows[id].device != device ==> AckFrom(cfg, s, device, i, now).rows[id] == s.rows[id]
    ensures forall v: Verdict :: id in ResultFrom(s, device, i, v, now).rows
    ensures forall v: Verdict | id != i || s.rows[id].device != device ::
      ResultFrom(s, device, i, v, now).rows[id] == s.rows[id]
  {
    hide Acknowledge, Complete;
  }

  lemma AnsweredStep(cfg: Config, w: World, m: Move)
    requires ValidConfig(cfg) && Inv(cfg, w) && AckedFirst(w) && Answered(w)
    ensures Answered(Next(cfg, w, m))
  {
    hide Next, Inv, AckedFirst, FirstRow;
    var v := Next(cfg, w, m);
    NextKeeps(cfg, w, m);
    AcksStay(cfg, w, m);
    forall id | id in v.store.rows && v.store.rows[id].device == PUMP && v.store.rows[id].acknowledgedAt.Some?
      ensures id in v.acks
    {
      if id !in w.store.rows {
        NewRowStep(cfg, w, m, id);
        FirstRowIs(w.store, m.request, m.createdAt);
      } else {
        assert Progress(w.store.rows[id], v.store.rows[id]);
        if w.store.rows[id].acknowledgedAt.None? { AnsweredFate(cfg, w, m, id); }
      }
    }
  }

  lemma AcksStay(cfg: Config, w: World, m: Move)
    ensures w.acks <= Next(cfg, w, m).acks
  {
    hide C.Advance, Create, BeginDispatch, FinishDispatch, AckFrom, ResultFrom;
  }

  lemma {:induction false} AnsweredRun(cfg: Config, moves: seq<Move>)
    requires ValidConfig(cfg)
    ensures Answered(Run(cfg, moves))
  {
    hide Next, Answered, Inv, AckedFirst;
    if moves == [] {
      assert Answered(EMPTY) by { NothingIsAnswered(); }
    } else {
      var before := moves[..|moves| - 1];
      AnsweredRun(cfg, before);
      RunKeeps(cfg, before);
      ResultsFollowAcks(cfg, before);
      AnsweredStep(cfg, Run(cfg, before), moves[|moves| - 1]);
    }
  }

  lemma NothingIsAnswered()
    ensures Answered(EMPTY)
  {
  }

  /** In every run the backend takes a command of the pump for received only if the pump has received and
      answered it, whatever other devices send. */
  lemma AcknowledgedWasReceived(cfg: Config, moves: seq<Move>, id: nat)
    requires ValidConfig(cfg) && id in Run(cfg, moves).store.rows
    requires Run(cfg, moves).store.rows[id].device == PUMP && Run(cfg, moves).store.rows[id].acknowledgedAt.Some?
    ensures id in Run(cfg, moves).acks && id in Run(cfg, moves).controller.state.ledger
  {
    hide Next, Run;
    AnsweredRun(cfg, moves);
    RunKeeps(cfg, moves);
    AcksAreOfTheLedger(cfg, Run(cfg, moves));
  }

  lemma AcksAreOfTheLedger(cfg: Config, w: World)
    requires Inv(cfg, w)
    ensures forall id | id in w.acks :: id in w.controller.state.ledger
  {
    hide StoreOk, NetworkOk, AgreementOk, OutboxOk;
  }

  lemma CreateAcknowledgesNothing(s: Store, m: Move, id: nat)
    requires m.Register? && m.id !in s.rows && id in s.rows
    ensures
      var t := Create(s, m.id, m.request, m.createdAt, m.unavailable, m.refused, m.binding).0;
      id in t.rows && t.rows[id].acknowledgedAt == s.rows[id].acknowledgedAt
  {
    hide SupersedingStop, MatchesRequest, FirstRow;
  }

  lemma DispatchAcknowledgesNothing(cfg: Config, c: Row, now: int, allowRetry: bool, rejection: Option<nat>,
      online: bool)
    ensures BeginDispatch(cfg, c, now, allowRetry, rejection, online).0.acknowledgedAt == c.acknowledgedAt
  {
    hide ResultTimeoutSeconds;
  }

  // ---------------------------------------------------------------- a reply can get through

  /** The sending loop and the network doing their work for one final reply. */
  function Delivering(id: nat, v: Verdict): seq<Move>
  {
    [ReadReply(id), PublishAck(id), PublishResult(id), ReceiveAck(id), ReceiveResult(id, v), Confirm(id)]
  }

  lemma RunStep(cfg: Config, moves: seq<Move>, more: seq<Move>, k: nat)
    requires k < |more|
    ensures Run(cfg, moves + more[..k + 1]) == Next(cfg, Run(cfg, moves + more[..k]), more[k])
  {
    hide Next;
    assert (moves + more[..k + 1])[..|moves| + k] == moves + more[..k];
  }

  /** Publishing: the acknowledgement and the verdict are out, and the row is sent. */
  lemma ReplyIsPublished(cfg: Config, w: World, id: nat, v: Verdict)
    requires id in w.controller.state.ledger && w.controller.state.ledger[id].pending
    requires w.controller.state.ledger[id].verdict == Some(v) && !w.controller.state.mode.Offline?
    ensures
      var u := Next(cfg, Next(cfg, Next(cfg, w, ReadReply(id)), PublishAck(id)), PublishResult(id));
      && u == w.(outgoing := u.outgoing, acks := w.acks + {id}, results := w.results + {(id, v)})
      && id in u.outgoing && u.outgoing[id] == Outgoing(Some(v), true, true)
  {
  }

  /** Receiving: the row holds the verdict. */
  lemma ReplyIsStored(cfg: Config, u: World, id: nat, v: Verdict)
    requires Inv(cfg, u) && id in u.acks && (id, v) in u.results && id in u.store.rows
    requires u.store.rows[id].device == PUMP
    ensures
      var x := Next(cfg, Next(cfg, u, ReceiveAck(id)), ReceiveResult(id, v));
      && x == u.(store := x.store) && id in x.store.rows && Records(x.store.rows[id], v)
  {
    hide Inv, StoreOk, Complete, Acknowledge, Records;
    var c := u.store.rows[id];
    RowFacts(cfg, u, id);
    RepliesFit(cfg, u, id, u.now);
    RepliesKeepIdentity(cfg, c, u.now);
    VerdictIsStored(cfg, c, v, u.now);
  }

  lemma VerdictIsStored(cfg: Config, c: Row, v: Verdict, now: int)
    requires Honest(c) && (Complete(c, v, now).1.Completed? || Complete(c, v, now).1.AlreadyCompleted?)
    ensures Records(Complete(Acknowledge(cfg, c, now).0, v, now).0, v)
  {
    hide ResultTimeoutSeconds;
  }

  lemma ConfirmationEndsWaiting(cfg: Config, x: World, id: nat)
    requires id in x.outgoing && SentOut(x.outgoing[id]) && id in x.controller.state.ledger
    ensures
      var y, entry := Next(cfg, x, Confirm(id)), x.controller.state.ledger[id];
      && y.store == x.store && y.results == x.results
      && id in y.controller.state.ledger && y.controller.state.ledger[id] == entry.(pending := false)
  {
  }

  /** A ledger row of the pump belongs to a stored command of the pump. */
  lemma LedgerRowIsStored(cfg: Config, w: World, id: nat)
    requires Inv(cfg, w) && id in w.controller.state.ledger
    ensures id in w.store.rows && w.store.rows[id].device == PUMP
  {
    hide StoreOk, AgreementOk, OutboxOk, C.Inv;
    var e := w.controller.state.ledger[id].envelope;
    assert e in w.sent && e.id == id;
  }

  /** From every moment of every run, a final reply that waits in the outbox of a connected pump can be
      delivered: it is then stored with its command, and waits no longer. */
  lemma ReplyGetsThrough(cfg: Config, moves: seq<Move>, id: nat, v: Verdict)
    requires ValidConfig(cfg)
    requires
      var s := Run(cfg, moves).controller.state;
      id in s.ledger && s.ledger[id].pending && s.ledger[id].verdict == Some(v) && !s.mode.Offline?
    ensures
      var y, entry := Run(cfg, moves + Delivering(id, v)), Run(cfg, moves).controller.state.ledger[id];
      && id in y.store.rows && Records(y.store.rows[id], v) && (id, v) in y.results
      && id in y.controller.state.ledger && y.controller.state.ledger[id] == entry.(pending := false)
  {
    hide Next, Inv, Run, Records;
    var w, ms := Run(cfg, moves), Delivering(id, v);
    assert moves + ms[..0] == moves && ms[..6] == ms;
    RunStep(cfg, moves, ms, 0);
    RunStep(cfg, moves, ms, 1);
    RunStep(cfg, moves, ms, 2);
    RunStep(cfg, moves, ms, 3);
    RunStep(cfg, moves, ms, 4);
    RunStep(cfg, moves, ms, 5);
    ReplyIsPublished(cfg, w, id, v);
    var u := Run(cfg, moves + ms[..3]);
    RunKeeps(cfg, moves + ms[..3]);
    LedgerRowIsStored(cfg, u, id);
    ReplyIsStored(cfg, u, id, v);
    ConfirmationEndsWaiting(cfg, Run(cfg, moves + ms[..5]), id);
  }
}
