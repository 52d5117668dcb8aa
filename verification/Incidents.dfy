/** Alarm incidents: one active incident per device and key, an append-only history, and the proof
    that the history alone accounts for everything an incident row says. */
module Incidents {
  import opened Options

  datatype Severity = Warning | Critical | OtherSeverity

  /** One entry of the history, as far as it says what changed. */
  datatype Change =
    | Raised(severity: Severity)
    | Repeated(stale: bool, count: nat)
    | SeverityChanged(was: Severity, becomes: Severity)
    | Acknowledged(actor: nat)
    | Resolved

  datatype Transition = Transition(alarm: nat, event: Option<nat>, change: Change, at: int)

  datatype Details = Details(kind: nat, title: nat, description: Option<nat>, context: map<nat, nat>)

  datatype Alarm = Alarm(
    device: nat, key: nat, severity: Severity, active: bool, firstRaisedAt: int, lastRaisedAt: int,
      resolvedAt: Option<int>,
    lastEvent: Option<nat>, count: nat, acknowledgedAt: Option<int>, acknowledgedBy: Option<nat>, details: Details)

  /** The tables: known devices, the device of every event, the incidents and their history.
      Events and incidents are identified by their position. */
  datatype Desk = Desk(devices: set<nat>, events: seq<nat>, alarms: seq<Alarm>, history: seq<Transition>)

  const NOTHING := Desk({}, [], [], [])

  datatype Reply =
    | InvalidSeverity | DeviceNotFound | EventNotFound | EventOfOtherDevice | DuplicateEvent
    | NewlyRaised(id: nat) | RaisedAgain(id: nat, severityChanged: bool)
    | NothingActive | StaleResolution(id: nat) | NewlyResolved(id: nat)
    | AlarmNotFound | AlarmAlreadyResolved | AlreadyAcknowledged(id: nat) | NewlyAcknowledged(id: nat)

  datatype RaiseCall = RaiseCall(device: nat, key: nat, severity: Severity, at: int, event: Option<nat>,
    details: Details)

  datatype ResolveCall = ResolveCall(device: nat, key: nat, at: int, event: Option<nat>, context: map<nat, nat>)

  // ---------------------------------------------------------------- the transactions

  predicate Matches(a: Alarm, device: nat, key: nat) { a.active && a.device == device && a.key == key }

  function FindActive(alarms: seq<Alarm>, device: nat, key: nat, from: nat := 0): (r: Option<nat>)
    requires from <= |alarms|
    ensures r.Some? ==> from <= r.value < |alarms| && Matches(alarms[r.value], device, key)
    ensures r.None? ==> forall i | from <= i < |alarms| :: !Matches(alarms[i], device, key)
    decreases |alarms| - from
  {
    if from == |alarms| then None else if Matches(alarms[from], device, key) then Some(from)
      else FindActive(alarms, device, key, from + 1)
  }

  /** The history already holds this event for this key. */
  predicate Recorded(d: Desk, event: Option<nat>, key: nat)
  {
    event.Some? && exists k | 0 <= k < |d.history| ::
      d.history[k].event == event && d.history[k].alarm < |d.alarms| && d.alarms[d.history[k].alarm].key == key
  }

  /** The checks shared by raising and resolving. */
  function Preflight(d: Desk, device: nat, key: nat, event: Option<nat>): Option<Reply>
  {
    if device !in d.devices then Some(DeviceNotFound)
    else if event.Some? && event.value >= |d.events| then Some(EventNotFound)
    else if event.Some? && d.events[event.value] != device then Some(EventOfOtherDevice)
    else if Recorded(d, event, key) then Some(DuplicateEvent)
    else None
  }

  function NewAlarm(c: RaiseCall): Alarm
  {
    Alarm(c.device, c.key, c.severity, true, c.at, c.at, None, c.event, 1, None, None, c.details)
  }

  /** A repeat counts always, but an older occurrence does not overwrite newer facts. */
  function RaiseAgain(a: Alarm, c: RaiseCall): Alarm
  {
    if c.at < a.lastRaisedAt then a.(count := a.count + 1)
    else
      a.(count := a.count + 1, lastRaisedAt := c.at, lastEvent := c.event, severity := c.severity,
         details := Details(c.details.kind, c.details.title,
                            if c.details.description.Some? then c.details.description else a.details.description,
                            a.details.context + c.details.context))
  }

  function Raise(d: Desk, c: RaiseCall): (Desk, Reply)
  {
    var refused := if c.severity.OtherSeverity? then Some(InvalidSeverity) else Preflight(d, c.device, c.key, c.event);
    if refused.Some? then (d, refused.value)
    else
      match FindActive(d.alarms, c.device, c.key)
      case None =>
        (d.(alarms := d.alarms + [NewAlarm(c)],
          history := d.history + [Transition(|d.alarms|, c.event, Raised(c.severity), c.at)]),
         NewlyRaised(|d.alarms|))
      case Some(id) =>
        var a := d.alarms[id];
        var stale := c.at < a.lastRaisedAt;
        var changed := !stale && a.severity != c.severity;
        var entries := [Transition(id, c.event, Repeated(stale, a.count + 1), c.at)];
        (d.(alarms := d.alarms[id := RaiseAgain(a, c)],
            history := d.history + if changed
              then entries + [Transition(id, c.event, SeverityChanged(a.severity, c.severity), c.at)] else entries),
         RaisedAgain(id, changed))
  }

  function Close(a: Alarm, c: ResolveCall): Alarm
  {
    a.(active := false, resolvedAt := Some(c.at), lastEvent := c.event,
       details := a.details.(context := a.details.context + c.context))
  }

  function Resolve(d: Desk, c: ResolveCall): (Desk, Reply)
  {
    var refused := Preflight(d, c.device, c.key, c.event);
    if refused.Some? then (d, refused.value)
    else
      match FindActive(d.alarms, c.device, c.key)
      case None => (d, NothingActive)
      case Some(id) =>
        if c.at < d.alarms[id].lastRaisedAt then (d, StaleResolution(id))
        else
          (d.(alarms := d.alarms[id := Close(d.alarms[id], c)],
            history := d.history + [Transition(id, c.event, Change.Resolved, c.at)]),
           NewlyResolved(id))
  }

  function Acknowledge(d: Desk, id: nat, device: nat, actor: nat, at: int): (Desk, Reply)
  {
    if device !in d.devices then (d, DeviceNotFound)
    else if id >= |d.alarms| || d.alarms[id].device != device then (d, AlarmNotFound)
    else if d.alarms[id].acknowledgedAt.Some? then (d, AlreadyAcknowledged(id))
    else if !d.alarms[id].active then (d, AlarmAlreadyResolved)
    else
      (d.(alarms := d.alarms[id := d.alarms[id].(acknowledgedAt := Some(at), acknowledgedBy := Some(actor))],
          history := d.history + [Transition(id, None, Acknowledged(actor), at)]),
       NewlyAcknowledged(id))
  }

  // ---------------------------------------------------------------- what each call does

  /** The active incident of a key, which is the one a search from the front finds. */
  ghost predicate ActiveOne(d: Desk, device: nat, key: nat, id: nat)
  {
    && id < |d.alarms| && d.alarms[id].active && d.alarms[id].device == device && d.alarms[id].key == key
    && forall i | 0 <= i < id :: !(d.alarms[i].active && d.alarms[i].device == device && d.alarms[i].key == key)
  }

  ghost predicate NoActive(d: Desk, device: nat, key: nat)
  {
    forall i | 0 <= i < |d.alarms| :: !(d.alarms[i].active && d.alarms[i].device == device && d.alarms[i].key == key)
  }

  lemma {:induction false} FoundIsActive(d: Desk, device: nat, key: nat, from: nat)
    requires from <= |d.alarms|
    requires forall i | 0 <= i < from :: !(d.alarms[i].active && d.alarms[i].device == device && d.alarms[i].key == key)
    ensures FindActive(d.alarms, device, key, from).None? <==> NoActive(d, device, key)
    ensures FindActive(d.alarms, device, key, from).Some?
      ==> ActiveOne(d, device, key, FindActive(d.alarms, device, key, from).value)
    decreases |d.alarms| - from
  {
    if from < |d.alarms| && !Matches(d.alarms[from], device, key) { FoundIsActive(d, device, key, from + 1); }
  }

  /** The event was carried out for this key before: its device may not use it again for the key. */
  ghost predicate Used(d: Desk, event: nat, key: nat)
  {
    exists k | 0 <= k < |d.history| ::
      d.history[k].event == Some(event) && d.history[k].alarm < |d.alarms| && d.alarms[d.history[k].alarm].key == key
  }

  /** What is refused, and nothing changes then: unknown devices and events, events of other devices,
      and events that were carried out for the key before. */
  lemma RefusedExactlyIf(d: Desk, device: nat, key: nat, event: Option<nat>)
    ensures
      var refused := Preflight(d, device, key, event);
      && (refused == Some(DeviceNotFound) <==> device !in d.devices)
      && (refused == Some(EventNotFound) <==> device in d.devices && event.Some? && |d.events| <= event.value)
      && (refused == Some(EventOfOtherDevice) <==>
            device in d.devices && event.Some? && event.value < |d.events| && d.events[event.value] != device)
      && (refused == Some(DuplicateEvent) <==>
            && device in d.devices && event.Some? && event.value < |d.events| && d.events[event.value] == device
            && Used(d, event.value, key))
      && (refused.Some? ==> refused.value.DeviceNotFound? || refused.value.EventNotFound?
                            || refused.value.EventOfOtherDevice? || refused.value.DuplicateEvent?)
  {
  }

  lemma RaiseDoes(d: Desk, c: RaiseCall)
    ensures
      var (e, reply) := Raise(d, c);
      var refused := c.severity.OtherSeverity? || Preflight(d, c.device, c.key, c.event).Some?;
      && (c.severity.OtherSeverity? ==> reply == InvalidSeverity)
      && (!c.severity.OtherSeverity? && refused ==> reply == Preflight(d, c.device, c.key, c.event).value)
      && (refused ==> e == d) && e.devices == d.devices && e.events == d.events
      && (!refused && NoActive(d, c.device, c.key) ==>
            && reply == NewlyRaised(|d.alarms|)
            && e.history == d.history + [Transition(|d.alarms|, c.event, Raised(c.severity), c.at)]
            && e.alarms == d.alarms + [Alarm(c.device, c.key, c.severity, true, c.at, c.at, None, c.event, 1, None,
              None, c.details)])
      && (!refused && !NoActive(d, c.device, c.key) ==> reply.RaisedAgain? && ActiveOne(d, c.device, c.key, reply.id))
      && (reply.RaisedAgain? ==> RepeatDoes(d, e, c, reply))
  {
    FoundIsActive(d, c.device, c.key, 0);
    hide FindActive, Preflight, NoActive, ActiveOne;
  }

  /** A repeat is counted. Unless it is older than the last occurrence, it brings time, event and severity
      up to date, keeps a description it does not replace, and adds to the context. */
  ghost predicate RepeatDoes(d: Desk, e: Desk, c: RaiseCall, reply: Reply)
    requires reply.RaisedAgain?
  {
    && |e.alarms| == |d.alarms| && reply.id < |d.alarms|
    && (forall i | 0 <= i < |d.alarms| && i != reply.id :: e.alarms[i] == d.alarms[i])
    && var a, b := d.alarms[reply.id], e.alarms[reply.id];
       var stale := c.at < a.lastRaisedAt;
       && b.count == a.count + 1 && (reply.severityChanged <==> !stale && a.severity != c.severity)
       && (stale ==> b == a.(count := b.count))
       && (!stale ==>
             && b == a.(count := b.count, lastRaisedAt := c.at, lastEvent := c.event, severity := c.severity,
               details := b.details)
             && b.details.kind == c.details.kind && b.details.title == c.details.title
             && (b.details.description
               == if c.details.description.None? then a.details.description else c.details.description)
             && (forall k | k in c.details.context ::
                   k in b.details.context && b.details.context[k] == c.details.context[k])
             && (forall k | k !in c.details.context ::
                   (k in b.details.context <==> k in a.details.context)
                   && (k in a.details.context ==> b.details.context[k] == a.details.context[k])))
       && |e.history| == |d.history| + (if reply.severityChanged then 2 else 1) && d.history <= e.history
       && e.history[|d.history|] == Transition(reply.id, c.event, Repeated(stale, b.count), c.at)
       && (reply.severityChanged ==>
             e.history[|d.history| + 1] == Transition(reply.id, c.event, SeverityChanged(a.severity, c.severity), c.at))
  }

  /** Resolving closes the active incident, unless the resolution is older than its last occurrence;
      the context it brings is added. */
  lemma ResolveDoes(d: Desk, c: ResolveCall)
    ensures
      var (e, reply) := Resolve(d, c);
      var refused := Preflight(d, c.device, c.key, c.event);
      && (refused.Some? ==> reply == refused.value)
      && (refused.None? && NoActive(d, c.device, c.key) ==> reply == NothingActive)
      && (refused.None? && !NoActive(d, c.device, c.key) ==>
            && (reply.StaleResolution? || reply.NewlyResolved?) && ActiveOne(d, c.device, c.key, reply.id)
            && (reply.StaleResolution? <==> c.at < d.alarms[reply.id].lastRaisedAt))
      && (!reply.NewlyResolved? ==> e == d)
      && (reply.NewlyResolved? ==>
            && reply.id < |d.alarms| == |e.alarms| && e.devices == d.devices && e.events == d.events
            && e.history == d.history + [Transition(reply.id, c.event, Change.Resolved, c.at)]
            && (forall i | 0 <= i < |d.alarms| && i != reply.id :: e.alarms[i] == d.alarms[i])
            && var a, b := d.alarms[reply.id], e.alarms[reply.id];
               && b == a.(active := false, resolvedAt := Some(c.at), lastEvent := c.event, details := b.details)
               && b.details.(context := a.details.context) == a.details
               && b.details.context == a.details.context + c.context)
  {
    FoundIsActive(d, c.device, c.key, 0);
    hide FindActive, Preflight, NoActive, ActiveOne;
  }

  /** Acknowledging marks an active incident of the device once. */
  lemma AcknowledgeDoes(d: Desk, id: nat, device: nat, actor: nat, at: int)
    ensures
      var (e, reply) := Acknowledge(d, id, device, actor, at);
      var mine := device in d.devices && id < |d.alarms| && d.alarms[id].device == device;
      && (reply.DeviceNotFound? <==> device !in d.devices)
      && (reply.AlarmNotFound? <==> device in d.devices && !mine)
      && (reply.AlreadyAcknowledged? <==> mine && d.alarms[id].acknowledgedAt.Some?)
      && (reply.AlarmAlreadyResolved? <==> mine && d.alarms[id].acknowledgedAt.None? && !d.alarms[id].active)
      && (reply == NewlyAcknowledged(id) <==> mine && d.alarms[id].acknowledgedAt.None? && d.alarms[id].active)
      && (!reply.NewlyAcknowledged? ==> e == d)
      && (reply.NewlyAcknowledged? ==>
            && e.devices == d.devices && e.events == d.events
            && e.alarms == d.alarms[id := d.alarms[id].(acknowledgedAt := Some(at), acknowledgedBy := Some(actor))]
            && e.history == d.history + [Transition(id, None, Acknowledged(actor), at)])
  {
  }

  // ---------------------------------------------------------------- runs

  datatype Call =
    | AddDevice(device: nat)
    | AddEvent(device: nat)
    | RaiseIt(raising: RaiseCall)
    | ResolveIt(resolving: ResolveCall)
    | AcknowledgeIt(id: nat, device: nat, actor: nat, at: int)

  function Step(d: Desk, c: Call): (Desk, Reply)
  {
    match c
    case AddDevice(device) => (d.(devices := d.devices + {device}), NothingActive)
    case AddEvent(device) => (d.(events := d.events + [device]), NothingActive)
    case RaiseIt(r) => Raise(d, r)
    case ResolveIt(r) => Resolve(d, r)
    case AcknowledgeIt(id, device, actor, at) => Acknowledge(d, id, device, actor, at)
  }

  function Run(d: Desk, calls: seq<Call>): Desk
  {
    if calls == [] then d else Step(Run(d, calls[..|calls| - 1]), calls[|calls| - 1]).0
  }

  // ---------------------------------------------------------------- the history as an account

  /** The entries of one incident. */
  function Of(history: seq<Transition>, id: nat): seq<Transition>
  {
    if history == [] then []
    else
      var n := |history| - 1;
      if history[n].alarm == id then Of(history[..n], id) + [history[n]] else Of(history[..n], id)
  }

  /** What the entries say about an incident. */
  datatype Summary = Summary(
    severity: Severity, active: bool, firstRaisedAt: int, lastRaisedAt: int, resolvedAt: Option<int>, count: nat,
    acknowledgedAt: Option<int>, acknowledgedBy: Option<nat>, lastEvent: Option<nat>)

  function SummaryOf(a: Alarm): Summary
  {
    Summary(a.severity, a.active, a.firstRaisedAt, a.lastRaisedAt, a.resolvedAt, a.count, a.acknowledgedAt,
      a.acknowledgedBy, a.lastEvent)
  }

  /** Reading entries in order: nothing yet, a consistent account, or a contradiction. */
  datatype Story = Blank | Told(summary: Summary) | Broken

  /** An incident begins by being raised once; it may repeat, change severity and be acknowledged
      once while active; being resolved ends it. */
  function Read(story: Story, t: Transition): Story
  {
    match story
    case Blank =>
      if t.change.Raised? then Told(Summary(t.change.severity, true, t.at, t.at, None, 1, None, None, t.event))
        else Broken
    case Broken => Broken
    case Told(s) =>
      if !s.active then Broken
      else
        match t.change
        case Raised(_) => Broken
        case Repeated(stale, count) =>
          if stale != (t.at < s.lastRaisedAt) || count != s.count + 1 then Broken
          else if stale then Told(s.(count := count))
          else Told(s.(count := count, lastRaisedAt := t.at, lastEvent := t.event))
        case SeverityChanged(was, becomes) =>
          if was != s.severity || was == becomes then Broken else Told(s.(severity := becomes))
        case Acknowledged(actor) =>
          if s.acknowledgedAt.Some? then Broken
            else Told(s.(acknowledgedAt := Some(t.at), acknowledgedBy := Some(actor)))
        case Resolved =>
          if t.at < s.lastRaisedAt then Broken
            else Told(s.(active := false, resolvedAt := Some(t.at), lastEvent := t.event))
  }

  function Replay(ts: seq<Transition>): Story
  {
    if ts == [] then Blank else Read(Replay(ts[..|ts| - 1]), ts[|ts| - 1])
  }

  function Raises(ts: seq<Transition>): nat
  {
    if ts == [] then 0
    else Raises(ts[..|ts| - 1]) + if ts[|ts| - 1].change.Raised? || ts[|ts| - 1].change.Repeated? then 1 else 0
  }

  /** The shape of every consistent account: raised first and only once, acknowledged at most
      once, nothing after the resolution, all occurrences counted, and the times in order. */
  lemma {:induction false} LawfulShape(ts: seq<Transition>)
    requires Replay(ts).Told?
    ensures |ts| > 0 && ts[0].change.Raised? && ts[0].at == Replay(ts).summary.firstRaisedAt
    ensures forall i | 1 <= i < |ts| :: !ts[i].change.Raised?
    ensures forall i, j | 0 <= i < j < |ts| :: !(ts[i].change.Acknowledged? && ts[j].change.Acknowledged?)
    ensures forall i | 0 <= i < |ts| - 1 :: !ts[i].change.Resolved?
    ensures Replay(ts).summary.active <==> !ts[|ts| - 1].change.Resolved?
    ensures Replay(ts).summary.acknowledgedAt.Some? <==> exists i | 0 <= i < |ts| :: ts[i].change.Acknowledged?
    ensures Replay(ts).summary.count == Raises(ts)
    ensures Replay(ts).summary.firstRaisedAt <= Replay(ts).summary.lastRaisedAt
    ensures Replay(ts).summary.active <==> Replay(ts).summary.resolvedAt.None?
    ensures !Replay(ts).summary.active ==> Replay(ts).summary.lastRaisedAt <= Replay(ts).summary.resolvedAt.value
  {
    var n := |ts| - 1;
    if n > 0 {
      LawfulShape(ts[..n]);
    }
  }

  // ---------------------------------------------------------------- the invariant

  ghost predicate OneActive(d: Desk)
  {
    forall i, j | 0 <= i < j < |d.alarms| ::
      !(d.alarms[j].active && Matches(d.alarms[i], d.alarms[j].device, d.alarms[j].key))
  }

  /** Every entry belongs to an incident, and its event, if any, to the incident's device. */
  ghost predicate EntriesOk(d: Desk)
  {
    forall k | 0 <= k < |d.history| ::
      && d.history[k].alarm < |d.alarms|
      && (d.history[k].event.Some? ==>
            d.history[k].event.value < |d.events|
              && d.events[d.history[k].event.value] == d.alarms[d.history[k].alarm].device)
  }

  ghost predicate Accounted(d: Desk)
  {
    forall i | 0 <= i < |d.alarms| :: Replay(Of(d.history, i)) == Told(SummaryOf(d.alarms[i]))
  }

  ghost predicate Inv(d: Desk) { OneActive(d) && EntriesOk(d) && Accounted(d) }

  /** What never changes: the history only grows, an incident keeps its identity, its first
      acknowledgement stays, and a resolved incident is frozen. */
  ghost predicate Kept(d: Desk, e: Desk)
  {
    && d.devices <= e.devices && d.events <= e.events && d.history <= e.history && |d.alarms| <= |e.alarms|
    && forall i | 0 <= i < |d.alarms| :: AlarmKept(d.alarms[i], e.alarms[i])
  }

  ghost predicate AlarmKept(a: Alarm, b: Alarm)
  {
    && a.device == b.device && a.key == b.key && a.firstRaisedAt == b.firstRaisedAt
    && a.count <= b.count && a.lastRaisedAt <= b.lastRaisedAt
    && (a.acknowledgedAt.Some? ==> b.acknowledgedAt == a.acknowledgedAt && b.acknowledgedBy == a.acknowledgedBy)
    && (!a.active ==> a == b)
  }

  lemma OfOne(history: seq<Transition>, t: Transition, id: nat)
    ensures Of(history + [t], id) == if t.alarm == id then Of(history, id) + [t] else Of(history, id)
  {
    assert (history + [t])[..|history|] == history;
  }

  lemma ReplayOne(ts: seq<Transition>, t: Transition)
    ensures Replay(ts + [t]) == Read(Replay(ts), t)
  {
    assert (ts + [t])[..|ts|] == ts;
  }

  lemma {:induction false} OfNobody(history: seq<Transition>, id: nat)
    requires forall k | 0 <= k < |history| :: history[k].alarm < id
    ensures Of(history, id) == []
  {
    if history != [] {
      OfNobody(history[..|history| - 1], id);
    }
  }

  /** Appending one entry for one incident keeps every other account. */
  lemma Appended(d: Desk, t: Transition)
    requires Accounted(d)
    ensures forall i | 0 <= i < |d.alarms| ::
      Replay(Of(d.history + [t], i)) == if i == t.alarm then Read(Told(SummaryOf(d.alarms[i])), t)
        else Told(SummaryOf(d.alarms[i]))
  {
    hide Read, SummaryOf;
    forall i | 0 <= i < |d.alarms|
      ensures Replay(Of(d.history + [t], i)) == if i == t.alarm then Read(Told(SummaryOf(d.alarms[i])), t)
        else Told(SummaryOf(d.alarms[i]))
    {
      OfOne(d.history, t, i);
      ReplayOne(Of(d.history, i), t);
    }
  }

  /** Changing one incident together with one entry that says so. */
  function Update(d: Desk, id: nat, a: Alarm, t: Transition): Desk
    requires id < |d.alarms|
  {
    d.(alarms := d.alarms[id := a], history := d.history + [t])
  }

  lemma UpdateKeeps(d: Desk, id: nat, a: Alarm, t: Transition)
    requires Inv(d) && id < |d.alarms| && d.alarms[id].active && AlarmKept(d.alarms[id], a)
    requires t.alarm == id && (t.event.Some? ==> t.event.value < |d.events| && d.events[t.event.value] == a.device)
    requires Read(Told(SummaryOf(d.alarms[id])), t) == Told(SummaryOf(a))
    ensures Inv(Update(d, id, a, t)) && Kept(d, Update(d, id, a, t))
  {
    hide Read, SummaryOf;
    Appended(d, t);
    var e := Update(d, id, a, t);
    assert Accounted(e);
  }

  /** Filing a new incident that no active one matches, with its first entry. */
  function Insert(d: Desk, a: Alarm, t: Transition): Desk
  {
    d.(alarms := d.alarms + [a], history := d.history + [t])
  }

  lemma InsertAccounted(d: Desk, a: Alarm, t: Transition)
    requires Accounted(d) && (forall k | 0 <= k < |d.history| :: d.history[k].alarm < |d.alarms|)
    requires t.alarm == |d.alarms| && Read(Blank, t) == Told(SummaryOf(a))
    ensures Accounted(Insert(d, a, t))
  {
    hide Read, SummaryOf;
    var n := |d.alarms|;
    Appended(d, t);
    OfNobody(d.history, n);
    OfOne(d.history, t, n);
    ReplayOne([], t);
    assert [] + [t] == [t];
    forall i | 0 <= i <= n ensures Replay(Of(d.history + [t], i)) == Told(SummaryOf((d.alarms + [a])[i])) {
      if i < n { assert (d.alarms + [a])[i] == d.alarms[i]; }
    }
  }

  lemma InsertKeepsOneActive(d: Desk, a: Alarm, t: Transition)
    requires OneActive(d) && forall i | 0 <= i < |d.alarms| :: !Matches(d.alarms[i], a.device, a.key)
    ensures OneActive(Insert(d, a, t)) && Kept(d, Insert(d, a, t))
  {
  }

  lemma InsertKeeps(d: Desk, a: Alarm, t: Transition)
    requires Inv(d) && forall i | 0 <= i < |d.alarms| :: !Matches(d.alarms[i], a.device, a.key)
    requires t.alarm == |d.alarms|
    requires t.event.Some? ==> t.event.value < |d.events| && d.events[t.event.value] == a.device
    requires Read(Blank, t) == Told(SummaryOf(a))
    ensures Inv(Insert(d, a, t)) && Kept(d, Insert(d, a, t))
  {
    hide Read, SummaryOf, Accounted, OneActive, Kept, Matches;
    InsertAccounted(d, a, t);
    InsertKeepsOneActive(d, a, t);
  }

  lemma RaiseNewKeeps(d: Desk, c: RaiseCall)
    requires Inv(d) && FindActive(d.alarms, c.device, c.key).None?
    requires c.event.Some? ==> c.event.value < |d.events| && d.events[c.event.value] == c.device
    ensures
      var e := Insert(d, NewAlarm(c), Transition(|d.alarms|, c.event, Raised(c.severity), c.at));
      Inv(e) && Kept(d, e)
  {
    hide Inv, Kept, FindActive;
    InsertKeeps(d, NewAlarm(c), Transition(|d.alarms|, c.event, Raised(c.severity), c.at));
  }

  lemma RaiseAgainKeeps(d: Desk, c: RaiseCall, id: nat)
    requires Inv(d) && id < |d.alarms| && Matches(d.alarms[id], c.device, c.key)
    requires c.event.Some? ==> c.event.value < |d.events| && d.events[c.event.value] == c.device
    ensures
      var a := d.alarms[id];
      var stale := c.at < a.lastRaisedAt;
      var b := Update(d, id, RaiseAgain(a, c).(severity := a.severity),
        Transition(id, c.event, Repeated(stale, a.count + 1), c.at));
      && Inv(b) && Kept(d, b)
      && (!stale && a.severity != c.severity ==>
            var e := Update(b, id, RaiseAgain(a, c),
              Transition(id, c.event, SeverityChanged(a.severity, c.severity), c.at));
            Inv(e) && Kept(b, e))
  {
    hide Inv, Kept;
    var a := d.alarms[id];
    var stale := c.at < a.lastRaisedAt;
    var mid := RaiseAgain(a, c).(severity := a.severity);
    var t := Transition(id, c.event, Repeated(stale, a.count + 1), c.at);
    UpdateKeeps(d, id, mid, t);
    if !stale && a.severity != c.severity {
      UpdateKeeps(Update(d, id, mid, t), id, RaiseAgain(a, c),
        Transition(id, c.event, SeverityChanged(a.severity, c.severity), c.at));
    }
  }

  lemma RaiseKeeps(d: Desk, c: RaiseCall)
    requires Inv(d)
    ensures Inv(Raise(d, c).0) && Kept(d, Raise(d, c).0)
  {
    hide Inv, Kept, RaiseAgain, NewAlarm;
    KeptItself(d);
    if !c.severity.OtherSeverity? && Preflight(d, c.device, c.key, c.event).None? {
      match FindActive(d.alarms, c.device, c.key)
      case None => RaiseNewKeeps(d, c);
      case Some(id) =>
        var a := d.alarms[id];
        var stale := c.at < a.lastRaisedAt;
        var t := Transition(id, c.event, Repeated(stale, a.count + 1), c.at);
        var b := Update(d, id, RaiseAgain(a, c).(severity := a.severity), t);
        RaiseAgainKeeps(d, c, id);
        SeverityOfRepeat(a, c);
        if !stale && a.severity != c.severity {
          var u := Transition(id, c.event, SeverityChanged(a.severity, c.severity), c.at);
          var e := Update(b, id, RaiseAgain(a, c), u);
          KeptTransitive(d, b, e);
          assert d.history + [t] + [u] == d.history + ([t] + [u]);
          assert e == Raise(d, c).0;
        } else {
          assert b == Raise(d, c).0;
        }
    }
  }

  lemma SeverityOfRepeat(a: Alarm, c: RaiseCall)
    ensures RaiseAgain(a, c).severity == if c.at < a.lastRaisedAt then a.severity else c.severity
  {
  }

  lemma ResolveKeeps(d: Desk, c: ResolveCall)
    requires Inv(d)
    ensures Inv(Resolve(d, c).0) && Kept(d, Resolve(d, c).0)
  {
    hide Inv, Kept;
    KeptItself(d);
    if Preflight(d, c.device, c.key, c.event).None? {
      match FindActive(d.alarms, c.device, c.key)
      case None =>
      case Some(id) =>
        if d.alarms[id].lastRaisedAt <= c.at {
          UpdateKeeps(d, id, Close(d.alarms[id], c), Transition(id, c.event, Change.Resolved, c.at));
        }
    }
  }

  lemma AcknowledgeKeeps(d: Desk, id: nat, device: nat, actor: nat, at: int)
    requires Inv(d)
    ensures Inv(Acknowledge(d, id, device, actor, at).0) && Kept(d, Acknowledge(d, id, device, actor, at).0)
  {
    hide Inv, Kept;
    KeptItself(d);
    if Acknowledge(d, id, device, actor, at).1.NewlyAcknowledged? {
      var a := d.alarms[id].(acknowledgedAt := Some(at), acknowledgedBy := Some(actor));
      UpdateKeeps(d, id, a, Transition(id, None, Acknowledged(actor), at));
    }
  }

  lemma KeptItself(d: Desk)
    ensures Kept(d, d)
  {
  }

  lemma KeptTransitive(d: Desk, e: Desk, f: Desk)
    requires Kept(d, e) && Kept(e, f)
    ensures Kept(d, f)
  {
    forall i | 0 <= i < |d.alarms| ensures AlarmKept(d.alarms[i], f.alarms[i]) {
      assert AlarmKept(d.alarms[i], e.alarms[i]) && AlarmKept(e.alarms[i], f.alarms[i]);
    }
  }

  lemma StepKeeps(d: Desk, c: Call)
    requires Inv(d)
    ensures Inv(Step(d, c).0) && Kept(d, Step(d, c).0)
  {
    match c
    case RaiseIt(r) => RaiseKeeps(d, r);
    case ResolveIt(r) => ResolveKeeps(d, r);
    case AcknowledgeIt(id, device, actor, at) => AcknowledgeKeeps(d, id, device, actor, at);
    case _ =>
  }

  /** Every run keeps the invariant and loses nothing. */
  lemma {:induction false} RunKeeps(d: Desk, calls: seq<Call>)
    requires Inv(d)
    ensures Inv(Run(d, calls)) && Kept(d, Run(d, calls))
  {
    hide Inv, Kept, Step;
    if calls == [] {
      KeptItself(d);
    } else {
      var n := |calls| - 1;
      RunKeeps(d, calls[..n]);
      var e := Run(d, calls[..n]);
      StepKeeps(e, calls[n]);
      KeptTransitive(d, e, Run(d, calls));
    }
  }

  // ---------------------------------------------------------------- the theorems

  /** After any calls there is at most one active incident per device and key, and each incident
      row is exactly what its own entries tell. */
  lemma HistoryIsComplete(calls: seq<Call>)
    ensures
      var d := Run(NOTHING, calls);
      && (forall i, j | 0 <= i < |d.alarms| && 0 <= j < |d.alarms| && d.alarms[i].active && d.alarms[j].active
                        && d.alarms[i].device == d.alarms[j].device && d.alarms[i].key == d.alarms[j].key :: i == j)
      && (forall i | 0 <= i < |d.alarms| :: Replay(Of(d.history, i)) == Told(SummaryOf(d.alarms[i])))
      && (forall k | 0 <= k < |d.history| :: d.history[k].alarm < |d.alarms|)
  {
    RunKeeps(NOTHING, calls);
  }

  /** Every incident: counted right, times in order, resolved exactly when it has a resolution. */
  lemma IncidentsAreConsistent(calls: seq<Call>, i: nat)
    requires i < |Run(NOTHING, calls).alarms|
    ensures
      var a := Run(NOTHING, calls).alarms[i];
      var ts := Of(Run(NOTHING, calls).history, i);
      && |ts| > 0 && ts[0].change.Raised? && (forall k | 1 <= k < |ts| :: !ts[k].change.Raised?)
      && (forall j, k | 0 <= j < k < |ts| :: !(ts[j].change.Acknowledged? && ts[k].change.Acknowledged?))
      && (forall k | 0 <= k < |ts| - 1 :: !ts[k].change.Resolved?)
      && (a.active <==> !ts[|ts| - 1].change.Resolved?) && (a.active <==> a.resolvedAt.None?)
      && a.count == Raises(ts) && a.firstRaisedAt <= a.lastRaisedAt
      && (!a.active ==> a.lastRaisedAt <= a.resolvedAt.value)
  {
    hide Replay, Raises;
    HistoryIsComplete(calls);
    LawfulShape(Of(Run(NOTHING, calls).history, i));
  }

  /** Later calls leave a resolved incident exactly as it was. */
  lemma ResolvedIsFrozen(calls: seq<Call>, more: seq<Call>, i: nat)
    requires i < |Run(NOTHING, calls).alarms| && !Run(NOTHING, calls).alarms[i].active
    ensures
      var d, e := Run(NOTHING, calls), Run(Run(NOTHING, calls), more);
      i < |e.alarms| && e.alarms[i] == d.alarms[i]
  {
    RunKeeps(NOTHING, calls);
    RunKeeps(Run(NOTHING, calls), more);
  }

  function EventOf(c: Call): Option<nat>
  {
    match c case RaiseIt(r) => r.event case ResolveIt(r) => r.event case _ => None
  }

  function KeyOf(c: Call): nat
  {
    match c case RaiseIt(r) => r.key case ResolveIt(r) => r.key case _ => 0
  }

  lemma RecordedStays(d: Desk, e: Desk, event: Option<nat>, key: nat)
    requires Recorded(d, event, key) && Kept(d, e)
    ensures Recorded(e, event, key)
  {
    var k :| 0 <= k < |d.history| && d.history[k].event == event && d.history[k].alarm < |d.alarms|
      && d.alarms[d.history[k].alarm].key == key;
    assert e.history[k] == d.history[k];
    assert AlarmKept(d.alarms[d.history[k].alarm], e.alarms[d.history[k].alarm]);
  }

  /** A raise or resolve that was carried out leaves its event on record. */
  lemma SuccessIsRecorded(d: Desk, c: Call)
    requires (c.RaiseIt? || c.ResolveIt?) && EventOf(c).Some?
    requires var r := Step(d, c).1; r.NewlyRaised? || r.RaisedAgain? || r.NewlyResolved?
    ensures Recorded(Step(d, c).0, EventOf(c), KeyOf(c))
  {
    var e := Step(d, c).0;
    assert e.history[|d.history|].event == EventOf(c);
    var id := e.history[|d.history|].alarm;
    assert id < |e.alarms| && e.alarms[id].key == KeyOf(c);
  }

  /** Repeating an event that was carried out changes nothing, whatever happened since and
      whichever of the two operations repeats it. */
  lemma RepeatedEventIsInert(calls: seq<Call>, c: Call, more: seq<Call>, again: Call)
    requires (c.RaiseIt? || c.ResolveIt?) && EventOf(c).Some?
    requires var r := Step(Run(NOTHING, calls), c).1; r.NewlyRaised? || r.RaisedAgain? || r.NewlyResolved?
    requires (again.RaiseIt? || again.ResolveIt?) && EventOf(again) == EventOf(c) && KeyOf(again) == KeyOf(c)
    ensures
      var d := Run(Step(Run(NOTHING, calls), c).0, more);
      Step(d, again).0 == d
  {
    hide Inv, Kept, FindActive, Recorded, NewAlarm, RaiseAgain, Close;
    var d0 := Run(NOTHING, calls);
    InitialInv();
    RunKeeps(NOTHING, calls);
    StepKeeps(d0, c);
    SuccessIsRecorded(d0, c);
    var d1 := Step(d0, c).0;
    RunKeeps(d1, more);
    RecordedStays(d1, Run(d1, more), EventOf(c), KeyOf(c));
  }

  lemma InitialInv()
    ensures Inv(NOTHING)
  {
  }

  /** The call raises or resolves this key with this event. */
  predicate Uses(c: Call, event: nat, key: nat)
  {
    (c.RaiseIt? || c.ResolveIt?) && EventOf(c) == Some(event) && KeyOf(c) == key
  }

  /** Whatever else happens, no call with this event and key ever changes anything. */
  ghost predicate InertForEver(d: Desk, event: nat, key: nat)
  {
    forall more: seq<Call>, c: Call | Uses(c, event, key) :: Step(Run(d, more), c).0 == Run(d, more)
  }

  lemma RecordedIsRefused(d: Desk, c: Call, event: nat, key: nat)
    requires Recorded(d, Some(event), key) && Uses(c, event, key)
    ensures Step(d, c).0 == d
  {
    hide FindActive, NewAlarm, RaiseAgain, Close;
  }

  /** A known event is inert for a key exactly if the history already holds it for that key. */
  lemma InertExactlyIfRecorded(d: Desk, event: nat, key: nat)
    requires Inv(d) && event < |d.events| && d.events[event] in d.devices
    ensures InertForEver(d, event, key) <==> Recorded(d, Some(event), key)
  {
    hide Inv, Kept, Recorded, Step, Run;
    if Recorded(d, Some(event), key) {
      forall more: seq<Call>, c: Call | Uses(c, event, key) ensures Step(Run(d, more), c).0 == Run(d, more) {
        RunKeeps(d, more);
        RecordedStays(d, Run(d, more), Some(event), key);
        RecordedIsRefused(Run(d, more), c, event, key);
      }
    } else {
      var c := RaiseIt(RaiseCall(d.events[event], key, Warning, 0, Some(event), Details(0, 0, None, map[])));
      UnrecordedRaiseActs(d, c.raising);
      NoCalls(d);
      var none: seq<Call> := [];
      assert Uses(c, event, key) && Step(Run(d, none), c).0 != Run(d, none);
    }
  }

  lemma NoCalls(d: Desk)
    ensures Run(d, []) == d
  {
  }

  lemma UnrecordedRaiseActs(d: Desk, c: RaiseCall)
    requires c.event.Some? && c.event.value < |d.events| && d.events[c.event.value] == c.device && c.device in d.devices
    requires !c.severity.OtherSeverity? && !Recorded(d, c.event, c.key)
    ensures Step(d, RaiseIt(c)).0 != d
  {
    hide FindActive, Recorded, RaiseAgain, NewAlarm;
    assert |Raise(d, c).0.history| > |d.history|;
  }

  /** In particular a resolution that found nothing active is not on record: after any raise of its
      key with another event that is not newer, the same call resolves the new incident. */
  lemma UnusedResolutionActsLater(d: Desk, heal: ResolveCall, fail: RaiseCall)
    requires Inv(d) && Resolve(d, heal).1.NothingActive? && Raise(d, fail).1.NewlyRaised?
    requires fail.device == heal.device && fail.key == heal.key && fail.at <= heal.at
    requires heal.event.Some? ==> fail.event != heal.event
    ensures Resolve(Raise(d, fail).0, heal).1 == NewlyResolved(|d.alarms|)
  {
    var e := Raise(d, fail).0;
    RaiseKeeps(d, fail);
    assert e.alarms == d.alarms + [NewAlarm(fail)];
    NewestIsFound(d.alarms, NewAlarm(fail));
    StillUnrecorded(d, e, heal.event, heal.key);
    hide Inv, FindActive, Recorded, NewAlarm;
  }

  lemma NewestIsFound(alarms: seq<Alarm>, a: Alarm)
    requires a.active && FindActive(alarms, a.device, a.key).None?
    ensures FindActive(alarms + [a], a.device, a.key) == Some(|alarms|)
  {
    var found := FindActive(alarms + [a], a.device, a.key);
    assert (alarms + [a])[|alarms|] == a;
    assert forall i | 0 <= i < |alarms| :: (alarms + [a])[i] == alarms[i];
  }

  lemma StillUnrecorded(d: Desk, e: Desk, event: Option<nat>, key: nat)
    requires EntriesOk(d) && !Recorded(d, event, key) && d.alarms <= e.alarms
    requires |e.history| == |d.history| + 1 && d.history <= e.history
    requires event.Some? ==> e.history[|d.history|].event != event
    ensures !Recorded(e, event, key)
  {
    forall k | 0 <= k < |e.history| && e.history[k].event == event && event.Some?
      ensures !(e.history[k].alarm < |e.alarms| && e.alarms[e.history[k].alarm].key == key)
    {
      assert k < |d.history| && d.history[k] == e.history[k];
      assert d.alarms[d.history[k].alarm] == e.alarms[e.history[k].alarm];
    }
  }
}
