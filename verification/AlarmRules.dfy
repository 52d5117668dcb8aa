/** The telemetry alarm engine: durable debounce counters with hysteresis, proved to switch an
    incident exactly where a declarative reading of the whole sample stream says so. */
module AlarmRules {
  import opened Incidents
  import opened Options

  datatype Side = Low | High

  /** `metric` stands for a bucket of the packet and a name in it; `reserved` for a key that
      belongs to the system alarms. */
  datatype Rule = Rule(
    key: nat, metric: nat, side: Side, threshold: real, clear: real, samples: nat, severity: Severity, details: Details,
    enabled: bool, reserved: bool)

  predicate ValidRule(r: Rule)
  {
    && 1 <= r.samples <= 100 && !r.severity.OtherSeverity?
    && (if r.side.Low? then r.threshold < r.clear else r.clear < r.threshold)
  }

  /** A metric that is present in a packet: a finite number or not. */
  datatype Sample = Invalid | Number(x: real)

  datatype Action = RaiseAction | ResolveAction

  function Candidate(r: Rule, x: real, active: bool): Option<Action>
  {
    if r.side.Low? then
      if active then (if x >= r.clear then Some(ResolveAction) else None)
      else if x <= r.threshold then Some(RaiseAction) else None
    else if active then (if x <= r.clear then Some(ResolveAction) else None)
    else if x >= r.threshold then Some(RaiseAction) else None
  }

  /** The durable debounce row of one rule. */
  datatype Pending = Pending(action: Option<Action>, count: nat)

  const IDLE := Pending(None, 0)

  function SetPending(p: Pending, a: Action): Pending
  {
    if p.action == Some(a) then Pending(Some(a), p.count + 1) else Pending(Some(a), 1)
  }

  /** The decision on one sample: the new row, and the action that is carried out now. */
  function Observe(r: Rule, active: bool, p: Pending, s: Sample): (Pending, Option<Action>)
  {
    if s.Invalid? || Candidate(r, s.x, active).None? then (IDLE, None)
    else
      var a := Candidate(r, s.x, active).value;
      var q := SetPending(p, a);
      if q.count < r.samples then (q, None) else (IDLE, Some(a))
  }

  // ---------------------------------------------------------------- the declarative reading

  /** The sample speaks for leaving the current state: beyond the threshold while inactive, back
      behind the clear value while active. */
  predicate Speaks(r: Rule, active: bool, s: Sample)
  {
    s.Number?
    && match r.side
       case High => if active then s.x <= r.clear else r.threshold <= s.x
       case Low => if active then r.clear <= s.x else s.x <= r.threshold
  }

  /** Of the samples since `start`, the last `r.samples` before `p` all speak for leaving. */
  ghost predicate Window(r: Rule, samples: seq<Sample>, start: nat, active: bool, p: nat)
  {
    start + r.samples <= p <= |samples| && forall i | p - r.samples <= i < p :: Speaks(r, active, samples[i])
  }

  ghost predicate FirstWindow(r: Rule, samples: seq<Sample>, start: nat, active: bool, p: nat)
  {
    Window(r, samples, start, active, p) && forall q: nat | q < p :: !Window(r, samples, start, active, q)
  }

  ghost predicate NoWindow(r: Rule, samples: seq<Sample>, start: nat, active: bool)
  {
    forall q: nat | q <= |samples| :: !Window(r, samples, start, active, q)
  }

  function StartOf(switches: seq<nat>, k: nat): nat
    requires k <= |switches|
  {
    if k == 0 then 0 else switches[k - 1]
  }

  predicate ActiveAfter(k: nat) { k % 2 == 1 }

  /** The declarative specification: each switch is the first full window since the switch before
      it, beginning inactive, and there is none after the last. */
  ghost predicate AreSwitches(r: Rule, samples: seq<Sample>, switches: seq<nat>)
  {
    && (forall k | 0 <= k < |switches| :: FirstWindow(r, samples, StartOf(switches, k), ActiveAfter(k), switches[k]))
    && NoWindow(r, samples, StartOf(switches, |switches|), ActiveAfter(|switches|))
  }

  lemma FirstIsUnique(r: Rule, samples: seq<Sample>, start: nat, active: bool, p: nat, q: nat)
    requires FirstWindow(r, samples, start, active, p) && FirstWindow(r, samples, start, active, q)
    ensures p == q
  {
    hide Window;
  }

  lemma NoneIsLast(r: Rule, samples: seq<Sample>, start: nat, active: bool, p: nat)
    requires FirstWindow(r, samples, start, active, p)
    ensures !NoWindow(r, samples, start, active)
  {
    assert p <= |samples|;
  }

  lemma SameSwitch(r: Rule, samples: seq<Sample>, one: seq<nat>, other: seq<nat>, k: nat)
    requires AreSwitches(r, samples, one) && AreSwitches(r, samples, other)
    requires k <= |one| && k <= |other| && one[..k] == other[..k]
    ensures k < |one| && k < |other| ==> one[k] == other[k]
    ensures |one| == k <==> |other| == k
  {
    hide FirstWindow, NoWindow, ActiveAfter;
    SameStart(one, other, k);
    if k < |one| {
      NoneIsLast(r, samples, StartOf(one, k), ActiveAfter(k), one[k]);
      if k < |other| {
        FirstIsUnique(r, samples, StartOf(one, k), ActiveAfter(k), one[k], other[k]);
      }
    } else if k < |other| {
      NoneIsLast(r, samples, StartOf(other, k), ActiveAfter(k), other[k]);
    }
  }

  /** The specification has at most one solution. */
  lemma {:induction false} SwitchesAreUnique(r: Rule, samples: seq<Sample>, one: seq<nat>, other: seq<nat>)
    requires AreSwitches(r, samples, one) && AreSwitches(r, samples, other)
    ensures one == other
  {
    hide AreSwitches;
    var n := Min(|one|, |other|);
    for k := 0 to n
      invariant one[..k] == other[..k]
    {
      SameSwitch(r, samples, one, other, k);
      assert one[..k + 1] == one[..k] + [one[k]] && other[..k + 1] == other[..k] + [other[k]];
    }
    SameSwitch(r, samples, one, other, n);
    assert one[..n] == one && other[..n] == other;
  }

  lemma SameStart(one: seq<nat>, other: seq<nat>, k: nat)
    requires k <= |one| && k <= |other| && one[..k] == other[..k]
    ensures StartOf(one, k) == StartOf(other, k)
  {
    if k > 0 {
      assert one[..k][k - 1] == other[..k][k - 1];
    }
  }

  /** Successive switches are a full window apart, so two raises of one rule are at least twice
      that many present samples apart. */
  lemma RaisesAreApart(r: Rule, samples: seq<Sample>, switches: seq<nat>, k: nat)
    requires AreSwitches(r, samples, switches) && k + 2 < |switches|
    ensures switches[k] + 2 * r.samples <= switches[k + 2]
  {
    assert FirstWindow(r, samples, StartOf(switches, k + 1), ActiveAfter(k + 1), switches[k + 1]);
    assert FirstWindow(r, samples, StartOf(switches, k + 2), ActiveAfter(k + 2), switches[k + 2]);
  }

  // ---------------------------------------------------------------- the streaming form

  /** One rule run over its samples; `switches` records after how many samples it acted. */
  datatype Machine = Machine(active: bool, pending: Pending, switches: seq<nat>)

  function Advance(r: Rule, m: Machine, s: Sample, n: nat): Machine
  {
    var (p, acted) := Observe(r, m.active, m.pending, s);
    if acted.Some? then Machine(acted == Some(RaiseAction), p, m.switches + [n]) else m.(pending := p)
  }

  function Stream(r: Rule, samples: seq<Sample>): Machine
  {
    if samples == [] then Machine(false, IDLE, [])
    else
      var n := |samples| - 1;
      Advance(r, Stream(r, samples[..n]), samples[n], n + 1)
  }

  /** `c` is the length of the longest suffix since `start` that speaks for leaving. */
  ghost predicate IsSuffix(r: Rule, samples: seq<Sample>, start: nat, active: bool, c: nat)
  {
    && start + c <= |samples|
    && (forall i | |samples| - c <= i < |samples| :: Speaks(r, active, samples[i]))
    && (start + c < |samples| ==> !Speaks(r, active, samples[|samples| - c - 1]))
  }

  /** What the counters mean: the recorded switches are the specified ones, the pending count is
      the length of the speaking suffix since the last of them, and stays below the debounce. */
  ghost predicate Refines(r: Rule, samples: seq<Sample>, m: Machine)
  {
    && AreSwitches(r, samples, m.switches) && m.active == ActiveAfter(|m.switches|)
    && IsSuffix(r, samples, StartOf(m.switches, |m.switches|), m.active, m.pending.count) && m.pending.count < r.samples
    && m.pending.action == if m.pending.count == 0 then None else Some(Leaving(m.active))
  }

  function Leaving(active: bool): Action { if active then ResolveAction else RaiseAction }

  /** Windows that end before the last sample do not depend on it. */
  lemma WindowExtends(r: Rule, samples: seq<Sample>, s: Sample, start: nat, active: bool, p: nat)
    requires p <= |samples|
    ensures Window(r, samples + [s], start, active, p) == Window(r, samples, start, active, p)
  {
    if start + r.samples <= p {
      assert forall i | p - r.samples <= i < p :: (samples + [s])[i] == samples[i];
    }
  }

  lemma FirstWindowExtends(r: Rule, samples: seq<Sample>, s: Sample, start: nat, active: bool, p: nat)
    requires FirstWindow(r, samples, start, active, p)
    ensures FirstWindow(r, samples + [s], start, active, p)
  {
    hide Window;
    assert p <= |samples| by { WindowInside(r, samples, start, active, p); }
    forall q: nat | q <= p ensures Window(r, samples + [s], start, active, q) == Window(r, samples, start, active, q) {
      WindowExtends(r, samples, s, start, active, q);
    }
  }

  lemma WindowInside(r: Rule, samples: seq<Sample>, start: nat, active: bool, p: nat)
    requires Window(r, samples, start, active, p)
    ensures start + r.samples <= p <= |samples|
  {
  }

  /** The new sample completes a window exactly when it speaks and the suffix was one short. */
  lemma LastWindow(r: Rule, samples: seq<Sample>, s: Sample, start: nat, active: bool, c: nat)
    requires r.samples >= 1 && IsSuffix(r, samples, start, active, c) && c < r.samples
    ensures Window(r, samples + [s], start, active, |samples| + 1) <==> Speaks(r, active, s) && c + 1 == r.samples
  {
    var all := samples + [s];
    assert all[|samples|] == s;
    assert forall i | 0 <= i < |samples| :: all[i] == samples[i];
    if c + 1 < r.samples && start + r.samples <= |samples| + 1 {
      assert !Speaks(r, active, all[|samples| - c - 1]);
    }
  }

  lemma AdvanceRefines(r: Rule, samples: seq<Sample>, m: Machine, s: Sample)
    requires ValidRule(r) && Refines(r, samples, m)
    ensures Refines(r, samples + [s], Advance(r, m, s, |samples| + 1))
  {
    hide AreSwitches, IsSuffix, Candidate;
    if s.Number? { SpeaksForLeaving(r, m.active, s); }
    var start := StartOf(m.switches, |m.switches|);
    if Speaks(r, m.active, s) && m.pending.count + 1 == r.samples {
      NextSwitch(r, samples, m, s);
      SuffixRestarts(r, samples + [s], !m.active);
    } else {
      SameSwitches(r, samples, m, s);
      SuffixGrows(r, samples, start, m.active, m.pending.count, s);
    }
  }

  lemma SuffixRestarts(r: Rule, samples: seq<Sample>, active: bool)
    ensures IsSuffix(r, samples, |samples|, active, 0)
  {
  }

  lemma SuffixGrows(r: Rule, samples: seq<Sample>, start: nat, active: bool, c: nat, s: Sample)
    requires IsSuffix(r, samples, start, active, c)
    ensures IsSuffix(r, samples + [s], start, active, if Speaks(r, active, s) then c + 1 else 0)
  {
    hide Speaks;
    assert forall i | 0 <= i < |samples| :: (samples + [s])[i] == samples[i];
  }

  lemma SameSwitches(r: Rule, samples: seq<Sample>, m: Machine, s: Sample)
    requires ValidRule(r) && Refines(r, samples, m) && !(Speaks(r, m.active, s) && m.pending.count + 1 == r.samples)
    ensures AreSwitches(r, samples + [s], m.switches)
  {
    hide FirstWindow, NoWindow, Window, IsSuffix, Candidate;
    var start := StartOf(m.switches, |m.switches|);
    OldSwitchesExtend(r, samples, s, m.switches);
    LastWindow(r, samples, s, start, m.active, m.pending.count);
    NoWindowExtends(r, samples, s, start, m.active);
  }

  lemma NextSwitch(r: Rule, samples: seq<Sample>, m: Machine, s: Sample)
    requires ValidRule(r) && Refines(r, samples, m) && Speaks(r, m.active, s) && m.pending.count + 1 == r.samples
    ensures AreSwitches(r, samples + [s], m.switches + [|samples| + 1])
  {
    hide FirstWindow, NoWindow, Window, IsSuffix, Speaks;
    var all, n := samples + [s], |m.switches|;
    var switches := m.switches + [|samples| + 1];
    var start := StartOf(m.switches, n);
    OldSwitchesExtend(r, samples, s, m.switches);
    LastWindow(r, samples, s, start, m.active, m.pending.count);
    NoWindowExtends(r, samples, s, start, m.active);
    NewStart(r, all, !m.active);
    forall k | 0 <= k < |switches| ensures FirstWindow(r, all, StartOf(switches, k), ActiveAfter(k), switches[k]) {
      assert StartOf(switches, k) == StartOf(m.switches, k);
    }
  }

  /** The decision on a number is to leave the state exactly if it speaks for that. */
  lemma SpeaksForLeaving(r: Rule, active: bool, s: Sample)
    requires s.Number?
    ensures Candidate(r, s.x, active) == if Speaks(r, active, s) then Some(Leaving(active)) else None
  {
  }

  lemma OldSwitchesExtend(r: Rule, samples: seq<Sample>, s: Sample, switches: seq<nat>)
    requires AreSwitches(r, samples, switches)
    ensures forall k | 0 <= k < |switches| ::
      FirstWindow(r, samples + [s], StartOf(switches, k), ActiveAfter(k), switches[k])
  {
    hide FirstWindow;
    forall k | 0 <= k < |switches|
      ensures FirstWindow(r, samples + [s], StartOf(switches, k), ActiveAfter(k), switches[k])
    {
      FirstWindowExtends(r, samples, s, StartOf(switches, k), ActiveAfter(k), switches[k]);
    }
  }

  lemma NoWindowExtends(r: Rule, samples: seq<Sample>, s: Sample, start: nat, active: bool)
    requires NoWindow(r, samples, start, active)
    ensures Window(r, samples + [s], start, active, |samples| + 1)
      ==> FirstWindow(r, samples + [s], start, active, |samples| + 1)
    ensures !Window(r, samples + [s], start, active, |samples| + 1) ==> NoWindow(r, samples + [s], start, active)
  {
    hide Window;
    forall q: nat | q <= |samples| ensures !Window(r, samples + [s], start, active, q) {
      WindowExtends(r, samples, s, start, active, q);
    }
  }

  lemma NewStart(r: Rule, samples: seq<Sample>, active: bool)
    requires r.samples >= 1
    ensures NoWindow(r, samples, |samples|, active)
  {
  }

  /** The streaming counters compute the declarative specification, on every stream. */
  lemma {:induction false} DebounceRefinement(r: Rule, samples: seq<Sample>)
    requires ValidRule(r)
    ensures Refines(r, samples, Stream(r, samples))
  {
    hide Refines;
    if samples == [] {
      StartRefines(r);
    } else {
      var n := |samples| - 1;
      DebounceRefinement(r, samples[..n]);
      AdvanceRefines(r, samples[..n], Stream(r, samples[..n]), samples[n]);
      assert samples[..n] + [samples[n]] == samples;
    }
  }

  lemma StartRefines(r: Rule)
    requires ValidRule(r)
    ensures Refines(r, [], Machine(false, IDLE, []))
  {
  }

  /** In numbers: a high rule is raised by as many values at or above its threshold as its debounce
      asks for, one right after the other, and resolved by as many at or below its clear value; a low
      rule the other way round. Anything that is no number breaks the row. */
  lemma SwitchesInNumbers(r: Rule, samples: seq<Sample>, switches: seq<nat>, k: nat)
    requires ValidRule(r) && AreSwitches(r, samples, switches) && k < |switches|
    ensures StartOf(switches, k) + r.samples <= switches[k] <= |samples|
    ensures forall i | switches[k] - r.samples <= i < switches[k] ::
      && samples[i].Number?
      && (r.side.High? && k % 2 == 0 ==> r.threshold <= samples[i].x)
      && (r.side.High? && k % 2 == 1 ==> samples[i].x <= r.clear)
      && (r.side.Low? && k % 2 == 0 ==> samples[i].x <= r.threshold)
      && (r.side.Low? && k % 2 == 1 ==> r.clear <= samples[i].x)
  {
    hide Speaks, ActiveAfter;
    assert FirstWindow(r, samples, StartOf(switches, k), ActiveAfter(k), switches[k]);
    forall i | switches[k] - r.samples <= i < switches[k] ensures Speaks(r, ActiveAfter(k), samples[i]) {
    }
    forall i | switches[k] - r.samples <= i < switches[k]
      ensures samples[i].Number? && (r.side.High? && k % 2 == 0 ==> r.threshold <= samples[i].x)
      ensures r.side.High? && k % 2 == 1 ==> samples[i].x <= r.clear
      ensures r.side.Low? && k % 2 == 0 ==> samples[i].x <= r.threshold
      ensures r.side.Low? && k % 2 == 1 ==> r.clear <= samples[i].x
    {
      SpeaksInNumbers(r, k, samples[i]);
    }
  }

  /** And no such row is overlooked: after the last switch there is none, and none ends earlier than
      the next switch. */
  lemma NoRowIsOverlooked(r: Rule, samples: seq<Sample>, switches: seq<nat>, k: nat, p: nat)
    requires ValidRule(r) && AreSwitches(r, samples, switches) && k <= |switches|
    requires StartOf(switches, k) + r.samples <= p <= |samples|
    requires forall i | p - r.samples <= i < p ::
      && samples[i].Number?
      && (r.side.High? && k % 2 == 0 ==> r.threshold <= samples[i].x)
      && (r.side.High? && k % 2 == 1 ==> samples[i].x <= r.clear)
      && (r.side.Low? && k % 2 == 0 ==> samples[i].x <= r.threshold)
      && (r.side.Low? && k % 2 == 1 ==> r.clear <= samples[i].x)
    ensures k < |switches| && switches[k] <= p
  {
    hide FirstWindow, NoWindow, ActiveAfter, Speaks;
    forall i | p - r.samples <= i < p ensures Speaks(r, ActiveAfter(k), samples[i]) {
      SpeaksInNumbers(r, k, samples[i]);
    }
    assert Window(r, samples, StartOf(switches, k), ActiveAfter(k), p);
    if k < |switches| {
      FirstIsNotLater(r, samples, StartOf(switches, k), ActiveAfter(k), switches[k], p);
    } else {
      SomeWindow(r, samples, StartOf(switches, k), ActiveAfter(k), p);
    }
  }

  lemma SpeaksInNumbers(r: Rule, k: nat, s: Sample)
    ensures Speaks(r, ActiveAfter(k), s) <==>
      && s.Number?
      && (r.side.High? && k % 2 == 0 ==> r.threshold <= s.x)
      && (r.side.High? && k % 2 == 1 ==> s.x <= r.clear)
      && (r.side.Low? && k % 2 == 0 ==> s.x <= r.threshold)
      && (r.side.Low? && k % 2 == 1 ==> r.clear <= s.x)
  {
  }

  lemma FirstIsNotLater(r: Rule, samples: seq<Sample>, start: nat, active: bool, p: nat, q: nat)
    requires FirstWindow(r, samples, start, active, p) && Window(r, samples, start, active, q)
    ensures p <= q
  {
    hide Window;
  }

  lemma SomeWindow(r: Rule, samples: seq<Sample>, start: nat, active: bool, p: nat)
    requires Window(r, samples, start, active, p) && p <= |samples|
    ensures !NoWindow(r, samples, start, active)
  {
    hide Window;
  }

  /** Hysteresis: no value speaks both for raising and for resolving. */
  lemma BandsAreApart(r: Rule, s: Sample)
    requires ValidRule(r)
    ensures !(Speaks(r, false, s) && Speaks(r, true, s))
  {
  }

  // ---------------------------------------------------------------- the engine over the incidents

  datatype Packet = Packet(at: int, metrics: map<nat, Sample>)

  /** The incident tables and the debounce rows of all devices and rules. */
  datatype Engine = Engine(desk: Desk, rows: map<(nat, nat), Pending>)

  datatype Outcome = InvalidValue | HoldActive | NormalValue | Waiting(action: Action) | Carried(reply: Reply)

  datatype RuleResult = RuleResult(key: nat, outcome: Outcome, count: nat)

  function RowOf(rows: map<(nat, nat), Pending>, device: nat, key: nat): Pending
  {
    if (device, key) in rows then rows[(device, key)] else IDLE
  }

  /** What is reported when nothing is carried out. */
  function Uneventful(r: Rule, active: bool, s: Sample): Outcome
  {
    if s.Invalid? then InvalidValue
    else
      match Candidate(r, s.x, active)
      case None => if active then HoldActive else NormalValue
      case Some(a) => Waiting(a)
  }

  /** Records an event and raises or resolves the incident of the rule with it. */
  function CarryOut(d: Desk, device: nat, r: Rule, a: Action, at: int): (Desk, Reply)
  {
    var noted := d.(events := d.events + [device]);
    if a.RaiseAction? then Raise(noted, RaiseCall(device, r.key, r.severity, at, Some(|d.events|), r.details))
    else Resolve(noted, ResolveCall(device, r.key, at, Some(|d.events|), r.details.context))
  }

  function EvaluateRule(e: Engine, device: nat, r: Rule, p: Packet): (Engine, Option<RuleResult>)
  {
    if r.metric !in p.metrics then (e, None)
    else
      var s := p.metrics[r.metric];
      var active := FindActive(e.desk.alarms, device, r.key).Some?;
      var (row, acted) := Observe(r, active, RowOf(e.rows, device, r.key), s);
      var rows := e.rows[(device, r.key) := row];
      if acted.None? then (Engine(e.desk, rows), Some(RuleResult(r.key, Uneventful(r, active, s), row.count)))
      else
        var (desk, reply) := CarryOut(e.desk, device, r, acted.value, p.at);
        (Engine(desk, rows), Some(RuleResult(r.key, Carried(reply), 0)))
  }

  function EvaluateAll(e: Engine, device: nat, rules: seq<Rule>, p: Packet): (Engine, seq<RuleResult>)
  {
    if rules == [] then (e, [])
    else
      var n := |rules| - 1;
      var (before, results) := EvaluateAll(e, device, rules[..n], p);
      var (after, result) := EvaluateRule(before, device, rules[n], p);
      (after, if result.Some? then results + [result.value] else results)
  }

  function Evaluate(e: Engine, device: nat, rules: seq<Rule>, p: Packet): (Engine, seq<RuleResult>)
  {
    if device !in e.desk.devices then (e, []) else EvaluateAll(e, device, rules, p)
  }

  /** Telemetry of any device, or any other use of the incident tables. */
  datatype Input = Telemetry(device: nat, rules: seq<Rule>, packet: Packet) | Other(call: Call)

  function Take(e: Engine, i: Input): Engine
  {
    match i
    case Telemetry(device, rules, p) => Evaluate(e, device, rules, p).0
    case Other(c) => e.(desk := Step(e.desk, c).0)
  }

  function Process(e: Engine, inputs: seq<Input>): Engine
  {
    if inputs == [] then e else Take(Process(e, inputs[..|inputs| - 1]), inputs[|inputs| - 1])
  }

  /** The samples one rule of one device has seen. */
  function SamplesOf(r: Rule, device: nat, inputs: seq<Input>): seq<Sample>
  {
    if inputs == [] then []
    else
      var n := |inputs| - 1;
      var before, last := SamplesOf(r, device, inputs[..n]), inputs[n];
      if last.Telemetry? && last.device == device && r.metric in last.packet.metrics
      then before + [last.packet.metrics[r.metric]] else before
  }

  /** The times of the packets those samples came in. */
  function TimesOf(r: Rule, device: nat, inputs: seq<Input>): seq<int>
  {
    if inputs == [] then []
    else
      var n := |inputs| - 1;
      var before, last := TimesOf(r, device, inputs[..n]), inputs[n];
      if last.Telemetry? && last.device == device && r.metric in last.packet.metrics then before + [last.packet.at]
        else before
  }

  predicate DistinctKeys(rules: seq<Rule>) { forall i, j | 0 <= i < j < |rules| :: rules[i].key != rules[j].key }

  predicate RulesOk(rules: seq<Rule>) { DistinctKeys(rules) && forall i | 0 <= i < |rules| :: ValidRule(rules[i]) }

  /** The device keeps its rules, and nobody else raises or resolves their keys. */
  ghost predicate Admissible(device: nat, rules: seq<Rule>, i: Input)
  {
    match i
    case Telemetry(d, rs, _) => d == device ==> rs == rules
    case Other(RaiseIt(c)) => c.device == device ==> forall k | 0 <= k < |rules| :: rules[k].key != c.key
    case Other(ResolveIt(c)) => c.device == device ==> forall k | 0 <= k < |rules| :: rules[k].key != c.key
    case Other(_) => true
  }

  /** What the tables hold of one rule: like the machine, but a resolution older than the raise is
      ignored. */
  datatype Tracked = Tracked(active: bool, pending: Pending, raisedAt: int)

  function Track(r: Rule, t: Tracked, s: Sample, at: int): Tracked
  {
    var (p, acted) := Observe(r, t.active, t.pending, s);
    if acted == Some(RaiseAction) then Tracked(true, p, at)
    else if acted == Some(ResolveAction) then t.(active := at < t.raisedAt, pending := p)
    else t.(pending := p)
  }

  function TrackInputs(r: Rule, device: nat, inputs: seq<Input>): Tracked
  {
    if inputs == [] then Tracked(false, IDLE, 0)
    else
      var n := |inputs| - 1;
      var before, last := TrackInputs(r, device, inputs[..n]), inputs[n];
      if last.Telemetry? && last.device == device && r.metric in last.packet.metrics
      then Track(r, before, last.packet.metrics[r.metric], last.packet.at) else before
  }

  /** The tables show it. */
  ghost predicate Follows(e: Engine, device: nat, key: nat, t: Tracked)
  {
    && Inv(e.desk) && device in e.desk.devices && RowOf(e.rows, device, key) == t.pending
    && var found := FindActive(e.desk.alarms, device, key);
       found.Some? == t.active && (found.Some? ==> e.desk.alarms[found.value].lastRaisedAt == t.raisedAt)
  }

  /** Nothing about the incidents of one device and key changes that the engine looks at. */
  ghost predicate Untouched(d: Desk, e: Desk, device: nat, key: nat)
  {
    && |d.alarms| <= |e.alarms|
    && (forall i | 0 <= i < |d.alarms| && d.alarms[i].device == device && d.alarms[i].key == key ::
          && e.alarms[i].device == device && e.alarms[i].key == key
          && e.alarms[i].active == d.alarms[i].active && e.alarms[i].lastRaisedAt == d.alarms[i].lastRaisedAt)
    && (forall i | 0 <= i < |d.alarms| && !(d.alarms[i].device == device && d.alarms[i].key == key) ::
          !Matches(e.alarms[i], device, key))
    && (forall i | |d.alarms| <= i < |e.alarms| :: !Matches(e.alarms[i], device, key))
  }

  lemma FoundIs(d: Desk, device: nat, key: nat, i: nat)
    requires OneActive(d) && i < |d.alarms| && Matches(d.alarms[i], device, key)
    ensures FindActive(d.alarms, device, key) == Some(i)
  {
    OnlyOne(d, device, key, i, FindActive(d.alarms, device, key).value);
  }

  lemma OnlyOne(d: Desk, device: nat, key: nat, i: nat, j: nat)
    requires OneActive(d) && i < |d.alarms| && j < |d.alarms|
    requires Matches(d.alarms[i], device, key) && Matches(d.alarms[j], device, key)
    ensures i == j
  {
  }

  lemma UntouchedFollows(e: Engine, f: Engine, device: nat, key: nat, t: Tracked)
    requires Follows(e, device, key, t) && Untouched(e.desk, f.desk, device, key)
    requires Inv(f.desk) && device in f.desk.devices && RowOf(f.rows, device, key) == RowOf(e.rows, device, key)
    ensures Follows(f, device, key, t)
  {
    hide EntriesOk, Accounted, OneActive;
    var was, found := FindActive(e.desk.alarms, device, key), FindActive(f.desk.alarms, device, key);
    if was.Some? {
      FoundIs(f.desk, device, key, was.value);
    }
  }

  lemma OtherCallUntouched(d: Desk, c: Call, device: nat, key: nat)
    requires c.RaiseIt? ==> !(c.raising.device == device && c.raising.key == key)
    requires c.ResolveIt? ==> !(c.resolving.device == device && c.resolving.key == key)
    ensures Untouched(d, Step(d, c).0, device, key)
  {
    hide Preflight;
  }

  lemma EventIsNew(d: Desk, device: nat, key: nat)
    requires Inv(d) && device in d.devices
    ensures
      var noted := d.(events := d.events + [device]);
      Inv(noted) && Preflight(noted, device, key, Some(|d.events|)).None?
  {
    hide Accounted;
    StepKeeps(d, AddEvent(device));
    assert !Recorded(d.(events := d.events + [device]), Some(|d.events|), key);
  }

  /** Carrying out an action for one key keeps every other key as it was. */
  lemma CarryOutUntouched(d: Desk, device: nat, r: Rule, a: Action, at: int, other: nat, key: nat)
    requires Inv(d) && !(device == other && r.key == key)
    ensures
      var e := CarryOut(d, device, r, a, at).0;
      Inv(e) && Untouched(d, e, other, key) && d.devices <= e.devices
  {
    hide Inv, Raise, Resolve, Untouched;
    var noted := d.(events := d.events + [device]);
    StepKeeps(d, AddEvent(device));
    var c := if a.RaiseAction? then RaiseIt(RaiseCall(device, r.key, r.severity, at, Some(|d.events|), r.details))
             else ResolveIt(ResolveCall(device, r.key, at, Some(|d.events|), r.details.context));
    assert CarryOut(d, device, r, a, at) == Step(noted, c);
    StepKeeps(noted, c);
    OtherCallUntouched(noted, c, other, key);
    SameAlarms(d, noted, Step(noted, c).0, other, key);
  }

  lemma SameAlarms(d: Desk, noted: Desk, e: Desk, device: nat, key: nat)
    requires d.alarms == noted.alarms && Untouched(noted, e, device, key)
    ensures Untouched(d, e, device, key)
  {
  }

  /** Raising makes the key active from now, with a new incident. */
  lemma RaiseActivates(d: Desk, device: nat, r: Rule, at: int)
    requires Inv(d) && device in d.devices && ValidRule(r) && FindActive(d.alarms, device, r.key).None?
    ensures
      var (e, reply) := CarryOut(d, device, r, RaiseAction, at);
      && Inv(e) && d.devices <= e.devices && reply == NewlyRaised(|d.alarms|)
      && FindActive(e.alarms, device, r.key) == Some(|d.alarms|) && |e.alarms| == |d.alarms| + 1
      && e.alarms[|d.alarms|].lastRaisedAt == at
  {
    hide Preflight, EntriesOk, Accounted;
    var noted := d.(events := d.events + [device]);
    var c := RaiseCall(device, r.key, r.severity, at, Some(|d.events|), r.details);
    EventIsNew(d, device, r.key);
    StepKeeps(noted, RaiseIt(c));
    assert FindActive(noted.alarms, device, r.key).None?;
    var e := CarryOut(d, device, r, RaiseAction, at).0;
    assert e.alarms == d.alarms + [NewAlarm(c)];
    FoundIs(e, device, r.key, |d.alarms|);
  }

  /** Resolving, unless it is older than the last raise, leaves the key inactive. */
  lemma ResolveDeactivates(d: Desk, device: nat, r: Rule, at: int)
    requires Inv(d) && device in d.devices
    requires var found := FindActive(d.alarms, device, r.key); found.Some? && d.alarms[found.value].lastRaisedAt <= at
    ensures
      var (e, reply) := CarryOut(d, device, r, ResolveAction, at);
      Inv(e) && d.devices <= e.devices && reply.NewlyResolved? && FindActive(e.alarms, device, r.key).None?
  {
    hide Preflight, EntriesOk, Accounted;
    var noted := d.(events := d.events + [device]);
    var c := ResolveCall(device, r.key, at, Some(|d.events|), r.details.context);
    EventIsNew(d, device, r.key);
    StepKeeps(noted, ResolveIt(c));
    var id := FindActive(d.alarms, device, r.key).value;
    var e := CarryOut(d, device, r, ResolveAction, at).0;
    assert e.alarms == d.alarms[id := Close(d.alarms[id], c)];
    forall i | 0 <= i < |e.alarms| ensures !Matches(e.alarms[i], device, r.key) {
      if Matches(d.alarms[i], device, r.key) {
        FoundIs(d, device, r.key, i);
      }
    }
  }

  /** Resolving with a time before the last raise changes no incident. */
  lemma OldResolutionIsIgnored(d: Desk, device: nat, r: Rule, at: int)
    requires Inv(d) && device in d.devices
    requires var found := FindActive(d.alarms, device, r.key); found.Some? && at < d.alarms[found.value].lastRaisedAt
    ensures
      var (e, reply) := CarryOut(d, device, r, ResolveAction, at);
      Inv(e) && e.devices == d.devices && e.alarms == d.alarms && reply.StaleResolution?
  {
    hide Preflight, EntriesOk, Accounted;
    EventIsNew(d, device, r.key);
  }

  /** What a carried out action brings to the tables: an event of the device, and a new incident with the
      severity and the details of the rule. */
  lemma RaiseCarriesTheRule(d: Desk, device: nat, r: Rule, at: int)
    requires Inv(d) && device in d.devices && FindActive(d.alarms, device, r.key).None? && !r.severity.OtherSeverity?
    ensures
      var e := CarryOut(d, device, r, RaiseAction, at).0;
      && e.events == d.events + [device] && e.devices == d.devices
      && e.alarms == d.alarms
         + [Alarm(device, r.key, r.severity, true, at, at, None, Some(|d.events|), 1, None, None, r.details)]
  {
    hide Inv, Preflight;
    EventIsNew(d, device, r.key);
  }

  /** A carried out resolution closes the incident with the event, at the time of the packet, and adds the
      context of the rule. */
  lemma ResolutionCarriesTheRule(d: Desk, device: nat, r: Rule, at: int)
    requires Inv(d) && device in d.devices && FindActive(d.alarms, device, r.key).Some?
    requires d.alarms[FindActive(d.alarms, device, r.key).value].lastRaisedAt <= at
    ensures
      var id, e := FindActive(d.alarms, device, r.key).value, CarryOut(d, device, r, ResolveAction, at).0;
      && e.events == d.events + [device] && e.devices == d.devices && |e.alarms| == |d.alarms|
      && !e.alarms[id].active && e.alarms[id].resolvedAt == Some(at) && e.alarms[id].lastEvent == Some(|d.events|)
      && e.alarms[id].details.context == d.alarms[id].details.context + r.details.context
  {
    hide Inv, Preflight;
    EventIsNew(d, device, r.key);
  }

  /** What the evaluation of a rule reports, for the state in which the packet finds it. */
  lemma ResultTells(e: Engine, device: nat, r: Rule, p: Packet)
    requires ValidRule(r)
    ensures EvaluateRule(e, device, r, p).1.None? <==> r.metric !in p.metrics
    ensures r.metric !in p.metrics ==> EvaluateRule(e, device, r, p).0 == e
    ensures r.metric in p.metrics ==>
      var s, active := p.metrics[r.metric], FindActive(e.desk.alarms, device, r.key).Some?;
      var row, result := RowOf(e.rows, device, r.key), EvaluateRule(e, device, r, p).1.value;
      var count := if row.action == Some(Leaving(active)) then row.count + 1 else 1;
      && result.key == r.key
      && (result.outcome.InvalidValue? <==> s.Invalid?)
      && (result.outcome.HoldActive? <==> s.Number? && active && !Speaks(r, true, s))
      && (result.outcome.NormalValue? <==> s.Number? && !active && !Speaks(r, false, s))
      && (result.outcome.Waiting? <==> Speaks(r, active, s) && count < r.samples)
      && (result.outcome.Waiting? ==> result.outcome.action == Leaving(active) && result.count == count)
      && (!result.outcome.Waiting? ==> result.count == 0)
      && (result.outcome.Carried? <==> Speaks(r, active, s) && count >= r.samples)
      && (result.outcome.Carried? ==>
            && result.outcome.reply == CarryOut(e.desk, device, r, Leaving(active), p.at).1
            && EvaluateRule(e, device, r, p).0.desk == CarryOut(e.desk, device, r, Leaving(active), p.at).0)
      && (!result.outcome.Carried? ==> EvaluateRule(e, device, r, p).0.desk == e.desk)
      && RowOf(EvaluateRule(e, device, r, p).0.rows, device, r.key)
         == (if result.outcome.Waiting? then Pending(Some(Leaving(active)), count) else IDLE)
  {
    hide CarryOut, Speaks, Candidate, FindActive;
    if r.metric in p.metrics && p.metrics[r.metric].Number? {
      SpeaksForLeaving(r, FindActive(e.desk.alarms, device, r.key).Some?, p.metrics[r.metric]);
    }
    SpeaksIsNumber(r);
  }

  lemma SpeaksIsNumber(r: Rule)
    ensures forall active: bool, s: Sample | Speaks(r, active, s) :: s.Number?
  {
  }

  /** The keys of the rules whose metric is in the packet. */
  function PresentKeys(rules: seq<Rule>, p: Packet): seq<nat>
  {
    if rules == [] then []
    else
      var n := |rules| - 1;
      PresentKeys(rules[..n], p) + if rules[n].metric in p.metrics then [rules[n].key] else []
  }

  /** Every rule whose metric is in the packet reports once, in the order of the rules; a device that is not
      known reports nothing. */
  lemma {:induction false} PresentRulesReport(e: Engine, device: nat, rules: seq<Rule>, p: Packet)
    ensures
      var results := EvaluateAll(e, device, rules, p).1;
      && |results| == |PresentKeys(rules, p)|
      && forall i | 0 <= i < |results| :: results[i].key == PresentKeys(rules, p)[i]
    ensures Evaluate(e, device, rules, p) == if device in e.desk.devices then EvaluateAll(e, device, rules, p)
      else (e, [])
  {
    hide CarryOut, Observe;
    if rules != [] { PresentRulesReport(e, device, rules[..|rules| - 1], p); }
  }

  /** Which rules are valid: a debounce of 1 to 100 samples, a known severity, and the clear value on the
      safe side of the threshold. */
  lemma RuleIsValidExactlyIf(r: Rule)
    ensures
      ValidRule(r) <==>
        && 0 < r.samples && r.samples < 101 && (r.severity == Warning || r.severity == Critical)
        && (r.side == Low ==> r.threshold < r.clear) && (r.side == High ==> r.clear < r.threshold)
  {
  }

  /** A rule's own evaluation is one step of what is tracked. */
  lemma OwnStep(e: Engine, device: nat, r: Rule, p: Packet, t: Tracked)
    requires Follows(e, device, r.key, t) && ValidRule(r)
    ensures Follows(EvaluateRule(e, device, r, p).0, device, r.key,
                    if r.metric in p.metrics then Track(r, t, p.metrics[r.metric], p.at) else t)
  {
    hide Inv, CarryOut;
    if r.metric in p.metrics {
      var (row, acted) := Observe(r, t.active, t.pending, p.metrics[r.metric]);
      if acted == Some(RaiseAction) {
        assert !t.active;
        RaiseActivates(e.desk, device, r, p.at);
      } else if acted == Some(ResolveAction) {
        assert t.active;
        if p.at < t.raisedAt {
          OldResolutionIsIgnored(e.desk, device, r, p.at);
        } else {
          ResolveDeactivates(e.desk, device, r, p.at);
        }
      }
    }
  }

  /** The evaluation of any other rule or device does not disturb it. */
  lemma OtherStep(e: Engine, device: nat, key: nat, t: Tracked, other: nat, r: Rule, p: Packet)
    requires Follows(e, device, key, t) && !(other == device && r.key == key)
    ensures Follows(EvaluateRule(e, other, r, p).0, device, key, t)
  {
    hide CarryOut, Observe, Untouched, Inv;
    if r.metric in p.metrics {
      var (row, acted) := Observe(r, FindActive(e.desk.alarms, other, r.key).Some?, RowOf(e.rows, other, r.key),
        p.metrics[r.metric]);
      var f := EvaluateRule(e, other, r, p).0;
      if acted.Some? {
        CarryOutUntouched(e.desk, other, r, acted.value, p.at, device, key);
        UntouchedFollows(e, f, device, key, t);
      }
    }
  }

  lemma {:induction false} OthersStep(e: Engine, device: nat, key: nat, t: Tracked, other: nat, rules: seq<Rule>,
      p: Packet)
    requires Follows(e, device, key, t) && forall i | 0 <= i < |rules| :: !(other == device && rules[i].key == key)
    ensures Follows(EvaluateAll(e, other, rules, p).0, device, key, t)
  {
    hide Follows, EvaluateRule;
    if rules != [] {
      var n := |rules| - 1;
      OthersStep(e, device, key, t, other, rules[..n], p);
      OtherStep(EvaluateAll(e, other, rules[..n], p).0, device, key, t, other, rules[n], p);
    }
  }

  /** A packet of the device moves each of its rules by one step. */
  lemma {:induction false} OwnPacket(e: Engine, device: nat, rules: seq<Rule>, k: nat, p: Packet, t: Tracked)
    requires k < |rules| && RulesOk(rules) && Follows(e, device, rules[k].key, t)
    ensures Follows(EvaluateAll(e, device, rules, p).0, device, rules[k].key,
                    if rules[k].metric in p.metrics then Track(rules[k], t, p.metrics[rules[k].metric], p.at) else t)
    decreases |rules|
  {
    hide Follows, EvaluateRule, Track, ValidRule;
    var l := |rules| - 1;
    var before := EvaluateAll(e, device, rules[..l], p).0;
    if k == l {
      OthersStep(e, device, rules[k].key, t, device, rules[..l], p);
      OwnStep(before, device, rules[k], p, t);
    } else {
      OwnPacket(e, device, rules[..l], k, p, t);
      OtherStep(before, device, rules[k].key,
                if rules[k].metric in p.metrics then Track(rules[k], t, p.metrics[rules[k].metric], p.at) else t,
                device, rules[l], p);
    }
  }

  /** The engine starts with no incident and no counter for the rules of the device. */
  ghost predicate StartsClean(e: Engine, device: nat, rules: seq<Rule>)
  {
    && Inv(e.desk) && device in e.desk.devices
    && forall k | 0 <= k < |rules| ::
         FindActive(e.desk.alarms, device, rules[k].key).None? && RowOf(e.rows, device, rules[k].key) == IDLE
  }

  /** After any inputs, in whatever order of time, the tables show what is tracked of every rule. */
  lemma {:induction false} EngineFollows(e: Engine, device: nat, rules: seq<Rule>, k: nat, inputs: seq<Input>)
    requires k < |rules| && RulesOk(rules) && StartsClean(e, device, rules)
    requires forall i | 0 <= i < |inputs| :: Admissible(device, rules, inputs[i])
    ensures Follows(Process(e, inputs), device, rules[k].key, TrackInputs(rules[k], device, inputs))
    decreases |inputs|
  {
    hide Follows, Step, EvaluateAll, Track, ValidRule, FindActive;
    if inputs == [] {
      CleanFollows(e, device, rules, k);
    } else {
      var n := |inputs| - 1;
      var last, before := inputs[n], Process(e, inputs[..n]);
      EngineFollows(e, device, rules, k, inputs[..n]);
      var t := TrackInputs(rules[k], device, inputs[..n]);
      if last.Telemetry? && last.device == device {
        FollowsKnows(before, device, rules[k].key, t);
        OwnPacket(before, device, rules, k, last.packet, t);
      } else {
        ForeignInput(before, device, rules, k, t, last);
      }
    }
  }

  lemma CleanFollows(e: Engine, device: nat, rules: seq<Rule>, k: nat)
    requires k < |rules| && StartsClean(e, device, rules)
    ensures Follows(e, device, rules[k].key, Tracked(false, IDLE, 0))
  {
  }

  lemma FollowsKnows(e: Engine, device: nat, key: nat, t: Tracked)
    requires Follows(e, device, key, t)
    ensures device in e.desk.devices && FindActive(e.desk.alarms, device, key).Some? == t.active
    ensures RowOf(e.rows, device, key) == t.pending
  {
  }

  /** Anything else. */
  lemma ForeignInput(e: Engine, device: nat, rules: seq<Rule>, k: nat, t: Tracked, i: Input)
    requires k < |rules| && Follows(e, device, rules[k].key, t) && Admissible(device, rules, i)
    requires i.Telemetry? ==> i.device != device
    ensures Follows(Take(e, i), device, rules[k].key, t)
  {
    hide EvaluateAll, Inv, FindActive, Step, Untouched;
    match i
    case Telemetry(other, rs, p) => OthersStep(e, device, rules[k].key, t, other, rs, p);
    case Other(c) =>
      StepKeeps(e.desk, c);
      KeptDevices(e.desk, Step(e.desk, c).0);
      OtherCallUntouched(e.desk, c, device, rules[k].key);
      UntouchedFollows(e, Take(e, i), device, rules[k].key, t);
  }

  lemma KeptDevices(d: Desk, e: Desk)
    requires Kept(d, e)
    ensures d.devices <= e.devices
  {
  }

  // ---------------------------------------------------------------- exactly when the specification is met

  /** The time of the packet that completed the first `p` samples. */
  function TimeAt(times: seq<int>, p: nat): int { if 1 <= p <= |times| then times[p - 1] else 0 }

  /** No resolving switch comes in a packet older than that of the raising switch before it. */
  ghost predicate Fresh(times: seq<int>, switches: seq<nat>)
  {
    forall k | 1 <= k < |switches| && ActiveAfter(k) :: TimeAt(times, switches[k - 1]) <= TimeAt(times, switches[k])
  }

  /** The incident should be active: the number of specified switches is odd. */
  function SpecifiedActive(r: Rule, samples: seq<Sample>): bool { ActiveAfter(|Stream(r, samples).switches|) }

  /** What is tracked and the specification say the same. */
  ghost predicate Same(t: Tracked, m: Machine, times: seq<int>)
  {
    && t.active == m.active && t.pending == m.pending
    && (m.active ==> |m.switches| > 0 && t.raisedAt == TimeAt(times, m.switches[|m.switches| - 1]))
  }

  /** The switches lie within the samples. */
  lemma SwitchesInside(r: Rule, samples: seq<Sample>, switches: seq<nat>)
    requires ValidRule(r) && AreSwitches(r, samples, switches)
    ensures forall k | 0 <= k < |switches| :: 1 <= switches[k] <= |samples|
  {
    hide Window;
    forall k | 0 <= k < |switches| ensures 1 <= switches[k] <= |samples| {
      WindowInside(r, samples, StartOf(switches, k), ActiveAfter(k), switches[k]);
    }
  }

  /** A later sample does not change the times of earlier switches. */
  lemma FreshExtends(times: seq<int>, at: int, switches: seq<nat>)
    requires forall k | 0 <= k < |switches| :: 1 <= switches[k] <= |times|
    ensures Fresh(times + [at], switches) == Fresh(times, switches)
    ensures
      Fresh(times + [at], switches + [|times| + 1]) <==>
      Fresh(times, switches) && (ActiveAfter(|switches|) && switches != []
        ==> TimeAt(times, switches[|switches| - 1]) <= at)
  {
    var all := switches + [|times| + 1];
    assert forall k | 0 <= k < |switches| ::
      TimeAt(times + [at], switches[k]) == TimeAt(times, switches[k]) && all[k] == switches[k];
    assert TimeAt(times + [at], |times| + 1) == at;
    if Fresh(times + [at], all) {
      forall k | 1 <= k < |switches| && ActiveAfter(k)
        ensures TimeAt(times, switches[k - 1]) <= TimeAt(times, switches[k])
      {
        assert TimeAt(times + [at], all[k - 1]) <= TimeAt(times + [at], all[k]);
      }
    }
  }

  /** One sample: the two stay the same unless it completes a resolution that is too old, and then
      they differ at once. */
  lemma SampleCompares(r: Rule, samples: seq<Sample>, times: seq<int>, m: Machine, t: Tracked, s: Sample, at: int)
    requires ValidRule(r) && |times| == |samples| && Refines(r, samples, m) && Fresh(times, m.switches)
    requires Same(t, m, times)
    ensures
      var n, u := Advance(r, m, s, |samples| + 1), Track(r, t, s, at);
      if Fresh(times + [at], n.switches) then Same(u, n, times + [at]) else u.active != n.active
  {
    hide AreSwitches, IsSuffix, Candidate, Fresh;
    if s.Number? { SpeaksForLeaving(r, m.active, s); }
    SwitchesInside(r, samples, m.switches);
    FreshExtends(times, at, m.switches);
    if m.active {
      assert TimeAt(times + [at], m.switches[|m.switches| - 1]) == TimeAt(times, m.switches[|m.switches| - 1]);
    }
    assert TimeAt(times + [at], |samples| + 1) == at;
  }

  lemma StaleStaysStale(r: Rule, samples: seq<Sample>, times: seq<int>, m: Machine, s: Sample, at: int)
    requires ValidRule(r) && |times| == |samples| && Refines(r, samples, m) && !Fresh(times, m.switches)
    ensures !Fresh(times + [at], Advance(r, m, s, |samples| + 1).switches)
  {
    hide AreSwitches, IsSuffix, Candidate, Fresh;
    SwitchesInside(r, samples, m.switches);
    FreshExtends(times, at, m.switches);
  }

  /** What is tracked agrees with the specification after these inputs. */
  predicate Agrees(r: Rule, device: nat, inputs: seq<Input>)
  {
    TrackInputs(r, device, inputs).active == SpecifiedActive(r, SamplesOf(r, device, inputs))
  }

  ghost predicate AgreesThroughout(r: Rule, device: nat, inputs: seq<Input>)
  {
    forall n | 0 <= n <= |inputs| :: Agrees(r, device, inputs[..n])
  }

  lemma ThroughoutStep(r: Rule, device: nat, before: seq<Input>, i: Input)
    ensures AgreesThroughout(r, device, before + [i])
      <==> AgreesThroughout(r, device, before) && Agrees(r, device, before + [i])
  {
    hide Agrees;
    var all := before + [i];
    assert forall n | 0 <= n <= |before| :: all[..n] == before[..n];
    assert all[..|all|] == all;
    if AgreesThroughout(r, device, all) {
      forall n | 0 <= n <= |before| ensures Agrees(r, device, before[..n]) { assert Agrees(r, device, all[..n]); }
    }
    if AgreesThroughout(r, device, before) && Agrees(r, device, all) {
      forall n | 0 <= n <= |all| ensures Agrees(r, device, all[..n]) {
        if n <= |before| { assert Agrees(r, device, before[..n]); }
      }
    }
  }

  lemma {:induction false} AsManyTimes(r: Rule, device: nat, inputs: seq<Input>)
    ensures |TimesOf(r, device, inputs)| == |SamplesOf(r, device, inputs)|
  {
    if inputs != [] { AsManyTimes(r, device, inputs[..|inputs| - 1]); }
  }

  /** At every moment the tables agree with the specification exactly if no specified resolution
      comes in a packet older than the raise before it; then the counters agree as well. */
  lemma {:induction false} AgreementIsFreshness(r: Rule, device: nat, inputs: seq<Input>)
    requires ValidRule(r)
    ensures
      var times, m := TimesOf(r, device, inputs), Stream(r, SamplesOf(r, device, inputs));
      && (AgreesThroughout(r, device, inputs) <==> Fresh(times, m.switches))
      && (Fresh(times, m.switches) ==> Same(TrackInputs(r, device, inputs), m, times))
  {
    hide Agrees, AgreesThroughout, Fresh, Same, Track, Advance, Refines, Observe, ValidRule;
    if inputs == [] {
      NothingDiffers(r, device);
    } else {
      var before, last := inputs[..|inputs| - 1], inputs[|inputs| - 1];
      assert inputs == before + [last];
      AgreementIsFreshness(r, device, before);
      ThroughoutStep(r, device, before, last);
      if last.Telemetry? && last.device == device && r.metric in last.packet.metrics {
        SampleInput(r, device, before, last);
      } else {
        SameAsBefore(r, device, before, last);
        LastAgrees(r, device, before);
      }
    }
  }

  lemma NothingDiffers(r: Rule, device: nat)
    ensures AgreesThroughout(r, device, [])
    ensures Fresh(TimesOf(r, device, []), Stream(r, SamplesOf(r, device, [])).switches)
    ensures Same(TrackInputs(r, device, []), Stream(r, SamplesOf(r, device, [])), TimesOf(r, device, []))
  {
    var none: seq<Input> := [];
    assert none[..0] == [];
  }

  lemma SameAsBefore(r: Rule, device: nat, before: seq<Input>, i: Input)
    requires !(i.Telemetry? && i.device == device && r.metric in i.packet.metrics)
    ensures TimesOf(r, device, before + [i]) == TimesOf(r, device, before)
    ensures SamplesOf(r, device, before + [i]) == SamplesOf(r, device, before)
    ensures TrackInputs(r, device, before + [i]) == TrackInputs(r, device, before)
    ensures Agrees(r, device, before + [i]) == Agrees(r, device, before)
  {
    assert (before + [i])[..|before|] == before;
  }

  lemma LastAgrees(r: Rule, device: nat, inputs: seq<Input>)
    ensures AgreesThroughout(r, device, inputs) ==> Agrees(r, device, inputs)
  {
    assert inputs[..|inputs|] == inputs;
  }

  lemma SampleInput(r: Rule, device: nat, before: seq<Input>, i: Input)
    requires ValidRule(r) && i.Telemetry? && i.device == device && r.metric in i.packet.metrics
    requires
      var times, m := TimesOf(r, device, before), Stream(r, SamplesOf(r, device, before));
      && (AgreesThroughout(r, device, before) <==> Fresh(times, m.switches))
      && (Fresh(times, m.switches) ==> Same(TrackInputs(r, device, before), m, times))
    ensures
      var inputs := before + [i];
      var times, m := TimesOf(r, device, inputs), Stream(r, SamplesOf(r, device, inputs));
      && (AgreesThroughout(r, device, before) && Agrees(r, device, inputs) <==> Fresh(times, m.switches))
      && (Fresh(times, m.switches) ==> Same(TrackInputs(r, device, inputs), m, times))
  {
    hide AgreesThroughout, Fresh, Track, Advance, Refines, Observe, ValidRule;
    var s, at := i.packet.metrics[r.metric], i.packet.at;
    var samples, times := SamplesOf(r, device, before), TimesOf(r, device, before);
    var m, t := Stream(r, samples), TrackInputs(r, device, before);
    assert (before + [i])[..|before|] == before;
    assert (samples + [s])[..|samples|] == samples;
    AsManyTimes(r, device, before);
    DebounceRefinement(r, samples);
    DebounceRefinement(r, samples + [s]);
    RefinesActive(r, samples + [s], Stream(r, samples + [s]));
    if Fresh(times, m.switches) {
      SampleCompares(r, samples, times, m, t, s, at);
    } else {
      StaleStaysStale(r, samples, times, m, s, at);
    }
  }

  lemma RefinesActive(r: Rule, samples: seq<Sample>, m: Machine)
    requires Refines(r, samples, m)
    ensures m.active == ActiveAfter(|m.switches|)
  {
  }

  /** At every moment the incident of the rule is active exactly when an odd number of switches
      meets the declarative specification of the samples so far. */
  ghost predicate MeetsThroughout(e: Engine, device: nat, r: Rule, inputs: seq<Input>)
  {
    forall n, switches | 0 <= n <= |inputs| && AreSwitches(r, SamplesOf(r, device, inputs[..n]), switches) ::
      FindActive(Process(e, inputs[..n]).desk.alarms, device, r.key).Some? == ActiveAfter(|switches|)
  }

  /** For all admissible inputs, in whatever order of time: the incident is as specified at every
      moment, if and only if no specified resolution comes in a packet older than the raise before
      it. */
  lemma EngineMeetsSpecification(e: Engine, device: nat, rules: seq<Rule>, k: nat, inputs: seq<Input>,
      switches: seq<nat>)
    requires k < |rules| && RulesOk(rules) && StartsClean(e, device, rules)
    requires forall i | 0 <= i < |inputs| :: Admissible(device, rules, inputs[i])
    requires AreSwitches(rules[k], SamplesOf(rules[k], device, inputs), switches)
    ensures MeetsThroughout(e, device, rules[k], inputs) <==> Fresh(TimesOf(rules[k], device, inputs), switches)
  {
    hide Inv, StartsClean, Follows, Fresh, TrackInputs, Process, FindActive, SamplesOf, TimesOf, Stream, Admissible,
      AreSwitches, MeetsThroughout, Agrees;
    var r := rules[k];
    AgreementIsFreshness(r, device, inputs);
    SpecifiedSwitches(r, SamplesOf(r, device, inputs), switches);
    forall n | 0 <= n <= |inputs|
      ensures FindActive(Process(e, inputs[..n]).desk.alarms, device, r.key).Some?
        == TrackInputs(r, device, inputs[..n]).active
    {
      EngineFollows(e, device, rules, k, inputs[..n]);
      FollowsKnows(Process(e, inputs[..n]), device, r.key, TrackInputs(r, device, inputs[..n]));
    }
    MeetsIsAgrees(e, device, r, inputs);
  }

  /** There is exactly one list of specified switches, and the counters find it. */
  lemma SpecifiedSwitches(r: Rule, samples: seq<Sample>, switches: seq<nat>)
    requires ValidRule(r)
    ensures AreSwitches(r, samples, switches) <==> switches == Stream(r, samples).switches
  {
    hide AreSwitches, IsSuffix, ValidRule;
    DebounceRefinement(r, samples);
    if AreSwitches(r, samples, switches) { SwitchesAreUnique(r, samples, switches, Stream(r, samples).switches); }
  }

  lemma MeetsIsAgrees(e: Engine, device: nat, r: Rule, inputs: seq<Input>)
    requires ValidRule(r)
    requires forall n | 0 <= n <= |inputs| ::
      FindActive(Process(e, inputs[..n]).desk.alarms, device, r.key).Some? == TrackInputs(r, device, inputs[..n]).active
    ensures MeetsThroughout(e, device, r, inputs) <==> AgreesThroughout(r, device, inputs)
  {
    hide FindActive, Process, TrackInputs, SamplesOf, Stream, AreSwitches, ValidRule;
    forall n, switches | 0 <= n <= |inputs|
      ensures AreSwitches(r, SamplesOf(r, device, inputs[..n]), switches)
              <==> switches == Stream(r, SamplesOf(r, device, inputs[..n])).switches
    {
      SpecifiedSwitches(r, SamplesOf(r, device, inputs[..n]), switches);
    }
    if MeetsThroughout(e, device, r, inputs) {
      forall n | 0 <= n <= |inputs| ensures Agrees(r, device, inputs[..n]) {
        assert AreSwitches(r, SamplesOf(r, device, inputs[..n]), Stream(r, SamplesOf(r, device, inputs[..n])).switches);
      }
    } else {
      var n, switches :| 0 <= n <= |inputs| && AreSwitches(r, SamplesOf(r, device, inputs[..n]), switches)
        && FindActive(Process(e, inputs[..n]).desk.alarms, device, r.key).Some? != ActiveAfter(|switches|);
      assert !Agrees(r, device, inputs[..n]);
    }
  }

  /** And then the durable counter is the length of the speaking suffix since the last switch, for
      the one list of switches that meets the declarative specification. */
  lemma CounterMeetsSpecification(e: Engine, device: nat, rules: seq<Rule>, k: nat, inputs: seq<Input>,
      switches: seq<nat>)
    requires k < |rules| && RulesOk(rules) && StartsClean(e, device, rules)
    requires forall i | 0 <= i < |inputs| :: Admissible(device, rules, inputs[i])
    requires AreSwitches(rules[k], SamplesOf(rules[k], device, inputs), switches)
    requires Fresh(TimesOf(rules[k], device, inputs), switches)
    ensures
      var f, samples := Process(e, inputs), SamplesOf(rules[k], device, inputs);
      var row := RowOf(f.rows, device, rules[k].key);
      && FindActive(f.desk.alarms, device, rules[k].key).Some? == ActiveAfter(|switches|)
      && IsSuffix(rules[k], samples, StartOf(switches, |switches|), ActiveAfter(|switches|), row.count)
      && row.count < rules[k].samples
  {
    hide Inv, IsSuffix, AreSwitches, StartsClean, Follows, Fresh, Process, Admissible;
    var samples := SamplesOf(rules[k], device, inputs);
    EngineFollows(e, device, rules, k, inputs);
    FollowsKnows(Process(e, inputs), device, rules[k].key, TrackInputs(rules[k], device, inputs));
    DebounceRefinement(rules[k], samples);
    SwitchesAreUnique(rules[k], samples, switches, Stream(rules[k], samples).switches);
    AgreementIsFreshness(rules[k], device, inputs);
  }

  ghost predicate AllBy(device: nat, inputs: seq<Input>, now: int)
  {
    forall i | 0 <= i < |inputs| && inputs[i].Telemetry? && inputs[i].device == device :: inputs[i].packet.at <= now
  }

  /** Packets of the device come in the order of their times. */
  ghost predicate InOrder(device: nat, inputs: seq<Input>)
  {
    forall j | 0 <= j < |inputs| && inputs[j].Telemetry? && inputs[j].device == device ::
      AllBy(device, inputs[..j], inputs[j].packet.at)
  }

  /** Packets in the order of their times never bring a resolution that is too old. */
  lemma OrderIsFresh(r: Rule, device: nat, inputs: seq<Input>, switches: seq<nat>)
    requires ValidRule(r) && InOrder(device, inputs) && AreSwitches(r, SamplesOf(r, device, inputs), switches)
    ensures Fresh(TimesOf(r, device, inputs), switches)
  {
    hide AreSwitches, IsSuffix;
    var samples, times := SamplesOf(r, device, inputs), TimesOf(r, device, inputs);
    AsManyTimes(r, device, inputs);
    SwitchesInside(r, samples, switches);
    TimesAscend(r, device, inputs);
    forall k | 1 <= k < |switches| && ActiveAfter(k)
      ensures TimeAt(times, switches[k - 1]) <= TimeAt(times, switches[k])
    {
      SwitchesAscend(r, samples, switches, k);
    }
  }

  lemma SwitchesAscend(r: Rule, samples: seq<Sample>, switches: seq<nat>, k: nat)
    requires ValidRule(r) && AreSwitches(r, samples, switches) && 1 <= k < |switches|
    ensures switches[k - 1] < switches[k]
  {
    hide Window;
    WindowInside(r, samples, StartOf(switches, k), ActiveAfter(k), switches[k]);
  }

  lemma {:induction false} TimesAscend(r: Rule, device: nat, inputs: seq<Input>)
    requires InOrder(device, inputs)
    ensures forall i, j | 0 <= i < j < |TimesOf(r, device, inputs)| ::
      TimesOf(r, device, inputs)[i] <= TimesOf(r, device, inputs)[j]
    ensures forall now: int | AllBy(device, inputs, now) ::
      forall i | 0 <= i < |TimesOf(r, device, inputs)| :: TimesOf(r, device, inputs)[i] <= now
  {
    if inputs != [] {
      var n := |inputs| - 1;
      forall j | 0 <= j < n && inputs[..n][j].Telemetry? && inputs[..n][j].device == device
        ensures AllBy(device, inputs[..n][..j], inputs[..n][j].packet.at)
      {
        assert inputs[..n][..j] == inputs[..j];
      }
      TimesAscend(r, device, inputs[..n]);
      assert forall now: int | AllBy(device, inputs, now) :: AllBy(device, inputs[..n], now);
      if inputs[n].Telemetry? && inputs[n].device == device {
        assert AllBy(device, inputs[..n], inputs[n].packet.at);
      }
    }
  }

  /** Why the order of the times is needed: a packet older than the raise cannot resolve it, so
      the incident stays although the samples specify a second switch. */
  lemma OldPacketKeepsIncident()
    ensures
      var r := Rule(7, 1, Low, 1.0, 2.0, 1, Warning, Details(0, 0, None, map[]), true, false);
      var e := Engine(NOTHING.(devices := {0}), map[]);
      var inputs := [Telemetry(0, [r], Packet(10, map[1 := Number(0.5)])),
        Telemetry(0, [r], Packet(5, map[1 := Number(3.0)]))];
      && RulesOk([r]) && StartsClean(e, 0, [r]) && !InOrder(0, inputs)
      && AreSwitches(r, SamplesOf(r, 0, inputs), [1, 2])
      && FindActive(Process(e, inputs).desk.alarms, 0, 7).Some?
  {
    hide Process, AreSwitches, Admissible, Follows;
    var r := Rule(7, 1, Low, 1.0, 2.0, 1, Warning, Details(0, 0, None, map[]), true, false);
    var e := Engine(NOTHING.(devices := {0}), map[]);
    var first, second := Packet(10, map[1 := Number(0.5)]), Packet(5, map[1 := Number(3.0)]);
    var inputs := [Telemetry(0, [r], first), Telemetry(0, [r], second)];
    assert inputs[..1] == [Telemetry(0, [r], first)] && inputs[..1][..0] == [];
    assert SamplesOf(r, 0, inputs[..1]) == [] + [Number(0.5)];
    assert SamplesOf(r, 0, inputs) == [Number(0.5)] + [Number(3.0)] == [Number(0.5), Number(3.0)];
    assert TrackInputs(r, 0, inputs[..1][..0]) == Tracked(false, IDLE, 0);
    assert TrackInputs(r, 0, inputs[..1]) == Tracked(true, IDLE, 10);
    assert TrackInputs(r, 0, inputs) == Tracked(true, IDLE, 10);
    assert !AllBy(0, inputs[..1], inputs[1].packet.at);
    TwoSwitches(r);
    assert forall i | 0 <= i < |inputs| ::
      Admissible(0, [r], inputs[i]) by { OwnTelemetry([r], first); OwnTelemetry([r], second); }
    EngineFollows(e, 0, [r], 0, inputs);
    FollowsKnows(Process(e, inputs), 0, 7, TrackInputs(r, 0, inputs));
  }

  lemma OwnTelemetry(rules: seq<Rule>, p: Packet)
    ensures Admissible(0, rules, Telemetry(0, rules, p))
  {
  }

  lemma TwoSwitches(r: Rule)
    requires r.side.Low? && r.threshold == 1.0 && r.clear == 2.0 && r.samples == 1
    ensures AreSwitches(r, [Number(0.5), Number(3.0)], [1, 2])
  {
    assert Window(r, [Number(0.5), Number(3.0)], 0, false, 1) && Window(r, [Number(0.5), Number(3.0)], 1, true, 2);
  }
}
