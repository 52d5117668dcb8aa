/** The alarm service over incident objects that are updated in place, with its append-only
    history; every method has exactly the effect of its transaction. */
module AlarmLifecycle {
  import opened Incidents
  import opened Options

  class DeviceAlarm {
    const device: nat
    const key: nat
    const firstRaisedAt: int
    var severity: Severity
    var active: bool
    var lastRaisedAt: int
    var resolvedAt: Option<int>
    var lastEvent: Option<nat>
    var count: nat
    var acknowledgedAt: Option<int>
    var acknowledgedBy: Option<nat>
    var details: Details

    constructor (c: RaiseCall)
      ensures Value() == NewAlarm(c)
    {
      device, key, severity, active, firstRaisedAt, lastRaisedAt := c.device, c.key, c.severity, true, c.at, c.at;
      resolvedAt, lastEvent, count, acknowledgedAt, acknowledgedBy, details := None, c.event, 1, None, None, c.details;
    }

    function Value(): Alarm
      reads this
    {
      Alarm(device, key, severity, active, firstRaisedAt, lastRaisedAt, resolvedAt, lastEvent, count,
            acknowledgedAt, acknowledgedBy, details)
    }

    method Repeat(c: RaiseCall) returns (stale: bool)
      modifies this
      ensures Value() == RaiseAgain(old(Value()), c) && stale == (c.at < old(lastRaisedAt))
    {
      stale := c.at < lastRaisedAt;
      count := count + 1;
      if !stale {
        lastRaisedAt := c.at;
        lastEvent := c.event;
        details := Details(c.details.kind, c.details.title,
                           if c.details.description.Some? then c.details.description else details.description,
                           details.context + c.details.context);
        severity := c.severity;
      }
    }

    method End(c: ResolveCall)
      modifies this
      ensures Value() == Close(old(Value()), c)
    {
      active := false;
      resolvedAt := Some(c.at);
      lastEvent := c.event;
      details := details.(context := details.context + c.context);
    }

    method Confirm(actor: nat, at: int)
      modifies this
      ensures Value() == old(Value()).(acknowledgedAt := Some(at), acknowledgedBy := Some(actor))
    {
      acknowledgedAt := Some(at);
      acknowledgedBy := Some(actor);
    }
  }

  class AlarmLifecycleService {
    var devices: set<nat>
    var events: seq<nat>
    var alarms: seq<DeviceAlarm>
    var history: seq<Transition>

    constructor ()
      ensures Valid() && Contents() == NOTHING
    {
      devices, events, alarms, history := {}, [], [], [];
    }

    ghost predicate Valid()
      reads this`alarms
    {
      forall i, j | 0 <= i < j < |alarms| :: alarms[i] != alarms[j]
    }

    ghost function Values(): seq<Alarm>
      reads this`alarms, alarms
    {
      var objects := alarms;
      seq(|objects|, i requires 0 <= i < |objects| reads objects => objects[i].Value())
    }

    ghost function Contents(): Desk
      reads this, alarms
    {
      Desk(devices, events, Values(), history)
    }

    method AddEvent(device: nat) returns (id: nat)
      modifies this`events
      ensures Contents() == old(Contents()).(events := old(events) + [device]) && id == old(|events|)
    {
      id := |events|;
      events := events + [device];
    }

    method GetActive(device: nat, key: nat) returns (found: Option<nat>)
      ensures found == FindActive(Values(), device, key)
    {
      ghost var values := Values();
      for i := 0 to |alarms|
        invariant FindActive(values, device, key) == FindActive(values, device, key, i)
      {
        assert values[i] == alarms[i].Value();
        if alarms[i].active && alarms[i].device == device && alarms[i].key == key {
          return Some(i);
        }
      }
      return None;
    }

    method Check(device: nat, key: nat, event: Option<nat>) returns (refused: Option<Reply>)
      ensures refused == Preflight(Contents(), device, key, event)
    {
      if device !in devices {
        return Some(DeviceNotFound);
      }
      if event.Some? {
        if event.value >= |events| {
          return Some(EventNotFound);
        }
        if events[event.value] != device {
          return Some(EventOfOtherDevice);
        }
        ghost var values := Values();
        assert forall i | 0 <= i < |alarms| :: values[i] == alarms[i].Value();
        for k := 0 to |history|
          invariant forall j | 0 <= j < k ::
            !(history[j].event == event && history[j].alarm < |values| && values[history[j].alarm].key == key)
        {
          if history[k].event == event && history[k].alarm < |alarms| && alarms[history[k].alarm].key == key {
            return Some(DuplicateEvent);
          }
        }
      }
      return None;
    }

    method Insert(alarm: DeviceAlarm)
      requires Valid() && alarm !in alarms
      modifies this`alarms
      ensures Valid() && alarms == old(alarms) + [alarm]
      ensures Values() == old(Values()) + [alarm.Value()]
    {
      alarms := alarms + [alarm];
    }

    method RaiseAlarm(c: RaiseCall) returns (reply: Reply)
      requires Valid()
      modifies this, alarms
      ensures Valid() && (Contents(), reply) == Raise(old(Contents()), c)
      ensures forall a | a in alarms :: a in old(alarms) || fresh(a)
    {
      hide NewAlarm, RaiseAgain, Preflight, FindActive;
      if c.severity.OtherSeverity? {
        return InvalidSeverity;
      }
      var refused := Check(c.device, c.key, c.event);
      if refused.Some? {
        return refused.value;
      }
      var found := GetActive(c.device, c.key);
      if found.None? {
        var id := |alarms|;
        var alarm := new DeviceAlarm(c);
        Insert(alarm);
        history := history + [Transition(id, c.event, Raised(c.severity), c.at)];
        return NewlyRaised(id);
      }
      reply := RepeatAlarm(c, found.value);
    }

    /** The branch for an incident that is already active. */
    method RepeatAlarm(c: RaiseCall, id: nat) returns (reply: Reply)
      requires Valid() && id < |alarms|
      requires !c.severity.OtherSeverity? && Preflight(Contents(), c.device, c.key, c.event).None?
      requires FindActive(Values(), c.device, c.key) == Some(id)
      modifies this`history, alarms
      ensures Valid() && (Contents(), reply) == Raise(old(Contents()), c)
    {
      hide RaiseAgain, Preflight, FindActive;
      var previous := alarms[id].severity;
      assert Values()[id].severity == previous;
      var stale := alarms[id].Repeat(c);
      var entries := [Transition(id, c.event, Repeated(stale, alarms[id].count), c.at)];
      SeverityOfRepeat(old(alarms[id].Value()), c);
      CountOfRepeat(old(alarms[id].Value()), c);
      var changed := !stale && previous != alarms[id].severity;
      history := history + if changed
        then entries + [Transition(id, c.event, SeverityChanged(previous, c.severity), c.at)] else entries;
      assert Values() == old(Values())[id := RaiseAgain(old(Values())[id], c)];
      return RaisedAgain(id, changed);
    }

    method ResolveAlarm(c: ResolveCall) returns (reply: Reply)
      requires Valid()
      modifies this`history, alarms
      ensures Valid() && (Contents(), reply) == Resolve(old(Contents()), c)
    {
      hide Close, Preflight, FindActive;
      var refused := Check(c.device, c.key, c.event);
      if refused.Some? {
        return refused.value;
      }
      var found := GetActive(c.device, c.key);
      if found.None? {
        return NothingActive;
      }
      var id := found.value;
      assert Values()[id] == alarms[id].Value();
      if c.at < alarms[id].lastRaisedAt {
        return StaleResolution(id);
      }
      alarms[id].End(c);
      history := history + [Transition(id, c.event, Change.Resolved, c.at)];
      assert Values() == old(Values())[id := Close(old(Values())[id], c)];
      return NewlyResolved(id);
    }

    method AcknowledgeAlarm(id: nat, device: nat, actor: nat, at: int) returns (reply: Reply)
      requires Valid()
      modifies this`history, alarms
      ensures Valid() && (Contents(), reply) == Acknowledge(old(Contents()), id, device, actor, at)
    {
      if device !in devices {
        return DeviceNotFound;
      }
      if id >= |alarms| || alarms[id].device != device {
        return AlarmNotFound;
      }
      assert Values()[id] == alarms[id].Value();
      if alarms[id].acknowledgedAt.Some? {
        return AlreadyAcknowledged(id);
      }
      if !alarms[id].active {
        return AlarmAlreadyResolved;
      }
      alarms[id].Confirm(actor, at);
      history := history + [Transition(id, None, Acknowledged(actor), at)];
      assert Values() == old(Values())[id := alarms[id].Value()];
      return NewlyAcknowledged(id);
    }
  }

  lemma CountOfRepeat(a: Alarm, c: RaiseCall)
    ensures RaiseAgain(a, c).count == a.count + 1
  {
  }
}
