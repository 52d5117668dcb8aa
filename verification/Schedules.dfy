/** Calendar rules and the run a rule yields on one date. */
module Schedules {
  import opened Options
  import opened Plans
  import opened Zones

  /** What a calendar says about a day. */
  datatype Reading = Reading(month: int, dayOfMonth: int, monthLength: int, weekday: int)

  type Almanac = int -> Reading

  datatype Repeat = Once | Daily | Weekly | Interval | Monthly | Yearly

  datatype FrequencyChange = FrequencyChange(at: int, dayOffset: int, hz: real)

  /** Dates are day numbers and times of day are seconds after local midnight. */
  datatype Spec = Spec(
    zone: Zone, startDate: int, untilDate: int, startTime: int, stopTime: int, stopDayOffset: int, hz: real,
    repeat: Repeat, weekdays: seq<int>, intervalDays: int, monthDay: int, months: seq<int>, excluded: seq<int>,
    changes: seq<FrequencyChange>)

  /** 1 January 2000 and 31 December 2199, counted from 1 January 1970. */
  const FIRST_DAY := 10957
  const LAST_DAY := 84005

  predicate TimeOfDay(t: int) { 0 <= t < DAY && t % 60 == 0 }

  predicate Distinct(s: seq<int>) { forall i, j | 0 <= i < j < |s| :: s[i] != s[j] }

  /** The limits of single fields. */
  predicate FieldsValid(spec: Spec)
  {
    && TimeOfDay(spec.startTime) && TimeOfDay(spec.stopTime)
    && 0 <= spec.stopDayOffset <= MAX_SCHEDULE_DAYS && 0.0 < spec.hz <= 100.0
    && 1 <= spec.intervalDays <= 366 && -1 <= spec.monthDay <= 31
    && |spec.changes| <= 7 && |spec.weekdays| <= 7 && 1 <= |spec.months| <= 12 && |spec.excluded| <= 100
    && forall c | c in spec.changes :: TimeOfDay(c.at) && 0 <= c.dayOffset <= MAX_SCHEDULE_DAYS && 0.0 < c.hz <= 100.0
  }

  /** The same limits, one by one. */
  lemma FieldsAreValidExactlyIf(spec: Spec)
    ensures
      FieldsValid(spec) <==>
        && WholeMinute(spec.startTime) && WholeMinute(spec.stopTime) && 0 <= spec.stopDayOffset
        && spec.stopDayOffset < 8
        && 0.0 < spec.hz && spec.hz <= 100.0 && 0 < spec.intervalDays && spec.intervalDays < 367
        && -2 < spec.monthDay && spec.monthDay < 32 && |spec.weekdays| < 8 && |spec.changes| < 8
        && spec.months != [] && |spec.months| < 13 && |spec.excluded| < 101
        && forall c | c in spec.changes ::
             WholeMinute(c.at) && 0 <= c.dayOffset && c.dayOffset < 8 && 0.0 < c.hz && c.hz <= 100.0
  {
    hide TimeOfDay, WholeMinute;
    MinutesOfTheDay();
  }

  /** One of the 1440 minutes of a day. */
  ghost predicate WholeMinute(t: int) { exists minute :: 0 <= minute < 1440 && t == minute * 60 }

  lemma MinutesOfTheDay()
    ensures forall t: int :: TimeOfDay(t) <==> WholeMinute(t)
  {
    forall t: int | TimeOfDay(t) ensures WholeMinute(t) { assert 0 <= t / 60 < 1440 && t == t / 60 * 60; }
  }

  /** The local time at which step `i` of a run dated `day` begins; the last one is the stop. */
  function PointAt(spec: Spec, day: int, i: nat): int
    requires i < |spec.changes| + 2
  {
    if i == 0 then day * DAY + spec.startTime
    else if i <= |spec.changes| then (day + spec.changes[i - 1].dayOffset) * DAY + spec.changes[i - 1].at
    else (day + spec.stopDayOffset) * DAY + spec.stopTime
  }

  /** The local times that bound the steps of a run dated `day`. */
  function Points(spec: Spec, day: int): seq<int>
  {
    seq(|spec.changes| + 2, i requires 0 <= i < |spec.changes| + 2 => PointAt(spec, day, i))
  }

  function FrequencyAt(spec: Spec, i: nat): real
    requires i <= |spec.changes|
  {
    if i == 0 then spec.hz else spec.changes[i - 1].hz
  }

  function Frequencies(spec: Spec): seq<real>
  {
    seq(|spec.changes| + 1, i requires 0 <= i <= |spec.changes| => FrequencyAt(spec, i))
  }

  /** The rules between fields: in particular every step lasts a minute on the wall clock and
      the whole run lasts at most a week. */
  ghost predicate Coherent(spec: Spec)
  {
    var points := Points(spec, spec.startDate);
    && FIRST_DAY <= spec.startDate <= spec.untilDate <= LAST_DAY
    && (spec.repeat.Once? ==> spec.untilDate == spec.startDate)
    && spec.monthDay != 0
    && Distinct(spec.weekdays) && (forall d | d in spec.weekdays :: 0 <= d < 7)
    && (spec.repeat.Weekly? ==> spec.weekdays != [])
    && Distinct(spec.months) && (forall m | m in spec.months :: 1 <= m <= 12)
    && Distinct(spec.excluded)
    && points[|points| - 1] - points[0] <= MAX_SCHEDULE_SECONDS
    && forall i | 0 <= i < |points| - 1 :: points[i] + 60 <= points[i + 1]
  }

  /** The validator, with its running `previous`. */
  method CheckCoherent(spec: Spec) returns (ok: bool)
    ensures ok <==> Coherent(spec)
  {
    ghost var points := Points(spec, spec.startDate);
    ghost var last := |points| - 1;
    if !(FIRST_DAY <= spec.startDate <= spec.untilDate <= LAST_DAY)
      || (spec.repeat.Once? && spec.untilDate != spec.startDate) || spec.monthDay == 0
    {
      return false;
    }
    if !Distinct(spec.weekdays) || (exists d | d in spec.weekdays :: !(0 <= d < 7))
      || (spec.repeat.Weekly? && spec.weekdays == [])
    {
      return false;
    }
    if !Distinct(spec.months) || (exists m | m in spec.months :: !(1 <= m <= 12)) || !Distinct(spec.excluded) {
      return false;
    }
    var start := spec.startDate * DAY + spec.startTime;
    var stop := (spec.startDate + spec.stopDayOffset) * DAY + spec.stopTime;
    if !(60 <= stop - start <= MAX_SCHEDULE_SECONDS) {
      SpacedFrom(points, 0);
      return false;
    }
    var previous := start;
    for n := 0 to |spec.changes|
      invariant previous == points[n] && previous + 60 <= stop
      invariant forall i | 0 <= i < n :: points[i] + 60 <= points[i + 1]
    {
      var point := (spec.startDate + spec.changes[n].dayOffset) * DAY + spec.changes[n].at;
      assert point == points[n + 1];
      if !(previous + 60 <= point <= stop - 60) {
        if previous + 60 <= point { SpacedFrom(points, n + 1); }
        return false;
      }
      previous := point;
    }
    return true;
  }

  /** Spaced points lie at least a minute before the last one. */
  lemma {:induction false} SpacedFrom(points: seq<int>, k: nat)
    requires k < |points| - 1
    ensures (forall i | 0 <= i < |points| - 1 :: points[i] + 60 <= points[i + 1])
      ==> points[k] + 60 <= points[|points| - 1]
    decreases |points| - k
  {
    if k + 1 < |points| - 1 { SpacedFrom(points, k + 1); }
  }

  predicate Matches(spec: Spec, almanac: Almanac, day: int)
    requires spec.intervalDays != 0
  {
    var r := almanac(day);
    var first := almanac(spec.startDate);
    if r.month !in spec.months || day in spec.excluded then false
    else match spec.repeat
      case Once => day == spec.startDate
      case Weekly => r.weekday in spec.weekdays
      case Interval => (day - spec.startDate) % spec.intervalDays == 0
      case Monthly => r.dayOfMonth == (if spec.monthDay == -1 then r.monthLength else spec.monthDay)
      case Yearly => r.month == first.month && r.dayOfMonth == first.dayOfMonth
      case Daily => true
  }

  function Resolve(z: Zone, points: seq<int>): (instants: seq<Option<int>>)
    ensures |instants| == |points|
  {
    seq(|points|, i requires 0 <= i < |points| => CivilUtc(z, points[i]))
  }

  /** The steps between consecutive instants. */
  function StepsBetween(fs: seq<real>, us: seq<int>): (steps: seq<Step>)
    requires |us| == |fs| + 1
    ensures |steps| == |fs|
  {
    seq(|fs|, i requires 0 <= i < |fs| => Step(fs[i], us[i + 1] - us[i]))
  }

  function Known(instants: seq<Option<int>>): (us: seq<int>)
    ensures |us| == |instants|
  {
    seq(|instants|, i requires 0 <= i < |instants| => instants[i].GetOr(0))
  }

  /** The run between resolved instants: nothing if one of them does not exist, or if the clock
      changes left a step under ten seconds or a total over a week. */
  function RunBetween(fs: seq<real>, instants: seq<Option<int>>): (r: Option<Run>)
    requires |instants| == |fs| + 1 >= 2
    ensures r.Some? ==> instants[0] == Some(r.value.startsAt) && instants[|fs|] == Some(r.value.stopsAt)
  {
    if exists i | 0 <= i < |instants| :: instants[i].None? then None
    else
      var us := Known(instants);
      var steps := StepsBetween(fs, us);
      if (exists i | 0 <= i < |steps| :: steps[i].seconds < 10) || Total(steps) > MAX_SCHEDULE_SECONDS then None
      else
        Some(Run(us[0], us[|us| - 1], steps))
  }

  /** The run of a rule on one date, or nothing. */
  function RunOn(spec: Spec, almanac: Almanac, day: int): (r: Option<Run>)
    requires FieldsValid(spec)
    ensures r.Some? ==>
      && spec.startDate <= day <= spec.untilDate && Matches(spec, almanac, day)
      && Local(spec.zone, r.value.startsAt) == day * DAY + spec.startTime
      && Local(spec.zone, r.value.stopsAt) == (day + spec.stopDayOffset) * DAY + spec.stopTime
  {
    if !(spec.startDate <= day <= spec.untilDate) || !Matches(spec, almanac, day) then None
    else RunBetween(Frequencies(spec), Resolve(spec.zone, Points(spec, day)))
  }

  method RunOnDate(spec: Spec, almanac: Almanac, day: int) returns (r: Option<Run>)
    requires FieldsValid(spec)
    ensures r == RunOn(spec, almanac, day)
  {
    if !(spec.startDate <= day <= spec.untilDate) || !Matches(spec, almanac, day) {
      return None;
    }
    var points, frequencies := Boundaries(spec, day);
    r := BuildRun(frequencies, points);
  }

  method Boundaries(spec: Spec, day: int) returns (points: seq<Option<int>>, frequencies: seq<real>)
    ensures points == Resolve(spec.zone, Points(spec, day))
    ensures frequencies == Frequencies(spec)
  {
    points := [CivilUtc(spec.zone, day * DAY + spec.startTime)];
    frequencies := [spec.hz];
    for n := 0 to |spec.changes|
      invariant |points| == |frequencies| == n + 1
      invariant forall i | 0 <= i <= n :: points[i] == CivilUtc(spec.zone, PointAt(spec, day, i))
      invariant forall i | 0 <= i <= n :: frequencies[i] == FrequencyAt(spec, i)
    {
      var change := spec.changes[n];
      points := points + [CivilUtc(spec.zone, (day + change.dayOffset) * DAY + change.at)];
      frequencies := frequencies + [change.hz];
    }
    points := points + [CivilUtc(spec.zone, (day + spec.stopDayOffset) * DAY + spec.stopTime)];
  }

  method BuildRun(frequencies: seq<real>, points: seq<Option<int>>) returns (r: Option<Run>)
    requires |points| == |frequencies| + 1 >= 2
    ensures r == RunBetween(frequencies, points)
  {
    if exists i | 0 <= i < |points| :: points[i].None? {
      return None;
    }
    ghost var all := StepsBetween(frequencies, Known(points));
    var steps: seq<Step> := [];
    var total, short := 0, false;
    for n := 0 to |frequencies|
      invariant steps == all[..n]
      invariant total == Through(steps, n)
      invariant short <==> exists i | 0 <= i < n :: all[i].seconds < 10
    {
      var step := Step(frequencies[n], points[n + 1].value - points[n].value);
      assert step == all[n];
      ThroughAppend(steps, step);
      steps := steps + [step];
      total := total + step.seconds;
      short := short || step.seconds < 10;
    }
    assert steps == all;
    if short || total > MAX_SCHEDULE_SECONDS {
      return None;
    }
    return Some(Run(points[0].value, points[|points| - 1].value, steps));
  }

  lemma {:induction false} ThroughPrefix(steps: seq<Step>, step: Step, k: nat)
    requires k <= |steps|
    ensures Through(steps + [step], k) == Through(steps, k)
  {
    if k > 0 { ThroughPrefix(steps, step, k - 1); }
  }

  lemma ThroughAppend(steps: seq<Step>, step: Step)
    ensures Through(steps + [step], |steps| + 1) == Through(steps, |steps|) + step.seconds
  {
    ThroughPrefix(steps, step, |steps|);
  }

  lemma {:induction false} DurationsTelescope(fs: seq<real>, us: seq<int>, k: nat)
    requires |us| == |fs| + 1 && k <= |fs|
    ensures Through(StepsBetween(fs, us), k) == us[k] - us[0]
  {
    if k > 0 { DurationsTelescope(fs, us, k - 1); }
  }

  /** Building the validated run object never fails: whatever the clock changes do, a run that
      is offered at all has one to eight steps of legal length that exactly fill its bounds. */
  lemma RunsAreValid(spec: Spec, almanac: Almanac, day: int)
    requires FieldsValid(spec) && RunOn(spec, almanac, day).Some?
    ensures ValidRun(RunOn(spec, almanac, day).value)
  {
    var fs := Frequencies(spec);
    forall i | 0 <= i < |fs| ensures 0.0 < fs[i] <= 100.0 {
      assert i > 0 ==> spec.changes[i - 1] in spec.changes;
    }
    RunBetweenIsValid(fs, Resolve(spec.zone, Points(spec, day)));
  }

  lemma RunBetweenIsValid(fs: seq<real>, instants: seq<Option<int>>)
    requires |instants| == |fs| + 1 && 1 <= |fs| <= MAX_STEPS && forall i | 0 <= i < |fs| :: 0.0 < fs[i] <= 100.0
    requires RunBetween(fs, instants).Some?
    ensures ValidRun(RunBetween(fs, instants).value)
  {
    var run := RunBetween(fs, instants).value;
    var n := |run.steps|;
    DurationsTelescope(fs, Known(instants), n);
    forall i | 0 <= i < n ensures 10 <= run.steps[i].seconds <= MAX_SCHEDULE_SECONDS {
      ThroughIncreases(run.steps, 0, i);
      ThroughIncreases(run.steps, i + 1, n);
    }
  }

  // ---------------------------------------------------------------- on which dates

  /** The dates a rule is meant for. */
  ghost predicate Meant(spec: Spec, almanac: Almanac, day: int)
  {
    && spec.startDate <= day <= spec.untilDate && almanac(day).month in spec.months && day !in spec.excluded
    && match spec.repeat
       case Once => day == spec.startDate
       case Daily => true
       case Weekly => almanac(day).weekday in spec.weekdays
       case Interval => exists k: nat :: day == spec.startDate + k * spec.intervalDays
       case Monthly =>
         if spec.monthDay == -1 then almanac(day).dayOfMonth == almanac(day).monthLength
         else almanac(day).dayOfMonth == spec.monthDay
       case Yearly =>
         && almanac(day).month == almanac(spec.startDate).month
         && almanac(day).dayOfMonth == almanac(spec.startDate).dayOfMonth
  }

  lemma MatchesMeans(spec: Spec, almanac: Almanac, day: int)
    requires FieldsValid(spec)
    ensures Meant(spec, almanac, day) <==> spec.startDate <= day <= spec.untilDate && Matches(spec, almanac, day)
  {
    if spec.repeat.Interval? && spec.startDate <= day {
      var n, d := day - spec.startDate, spec.intervalDays;
      if n % d == 0 {
        var k: nat := n / d;
        assert n == k * d + n % d;
        assert day == spec.startDate + k * d;
      }
      if k: nat :| day == spec.startDate + k * d { MultipleHasNoRest(k, d); }
    }
  }

  lemma MultipleHasNoRest(k: nat, d: int)
    requires d >= 1
    ensures (k * d) % d == 0
  {
    var q, r := (k * d) / d, (k * d) % d;
    assert k * d == q * d + r;
    NoMultipleBetween(k - q, d, r);
  }

  lemma NoMultipleBetween(m: int, d: int, r: int)
    requires m * d == r && 0 <= r < d
    ensures r == 0
  {
    assert m <= -1 ==> m * d <= -d;
    assert m >= 1 ==> m * d >= d;
  }

  /** In any zone a rule has a run exactly on the dates it is meant for, unless a clock change leaves
      one of its local times out, a step too short, or the whole too long. */
  lemma RunsOnMeantDates(spec: Spec, almanac: Almanac, day: int)
    requires FieldsValid(spec)
    ensures RunOn(spec, almanac, day).Some? <==>
            Meant(spec, almanac, day) && RunBetween(Frequencies(spec), Resolve(spec.zone, Points(spec, day))).Some?
  {
    hide FieldsValid, Matches, Meant, Frequencies, Points, RunBetween;
    AsManyPoints(spec, day);
    MatchesMeans(spec, almanac, day);
  }

  /** In a zone whose clock never changes a coherent rule has a run exactly on the dates it is meant
      for, and it is the plan on the wall clock, step for step. */
  lemma FixedZoneKeepsWallClock(spec: Spec, almanac: Almanac, day: int)
    requires FieldsValid(spec) && Coherent(spec) && spec.zone.changes == []
    ensures
      var points := Points(spec, day);
      RunOn(spec, almanac, day)
      == if Meant(spec, almanac, day)
         then Some(Run(points[0] - spec.zone.base, points[|points| - 1] - spec.zone.base,
                       StepsBetween(Frequencies(spec), points)))
         else None
  {
    hide FieldsValid, Coherent, Matches, Meant, Points, Frequencies, RunBetween, CivilUtc;
    var points, fs := Points(spec, day), Frequencies(spec);
    AsManyPoints(spec, day);
    forall i | 0 <= i < |points| ensures CivilUtc(spec.zone, points[i]) == Some(points[i] - spec.zone.base) {
      FixedOffset(spec.zone, points[i]);
    }
    SpacingIsTheSame(spec, day);
    SpacedPointsRun(fs, points, Resolve(spec.zone, points), spec.zone.base);
    RunsOnMeantDates(spec, almanac, day);
  }

  lemma AsManyPoints(spec: Spec, day: int)
    ensures |Points(spec, day)| == |Frequencies(spec)| + 1 >= 2
  {
  }

  lemma SpacedPointsRun(fs: seq<real>, points: seq<int>, instants: seq<Option<int>>, shift: int)
    requires |instants| == |points| == |fs| + 1 >= 2
    requires forall i | 0 <= i < |points| :: instants[i] == Some(points[i] - shift)
    requires forall i | 0 <= i < |points| - 1 :: points[i] + 60 <= points[i + 1]
    requires points[|fs|] - points[0] <= MAX_SCHEDULE_SECONDS
    ensures RunBetween(fs, instants) == Some(Run(points[0] - shift, points[|fs|] - shift, StepsBetween(fs, points)))
  {
    ShiftedSteps(fs, points, Known(instants), shift);
    DurationsTelescope(fs, points, |fs|);
  }

  lemma ShiftedSteps(fs: seq<real>, points: seq<int>, us: seq<int>, shift: int)
    requires |us| == |points| == |fs| + 1 && forall i | 0 <= i < |points| :: us[i] == points[i] - shift
    ensures StepsBetween(fs, us) == StepsBetween(fs, points)
  {
  }

  /** The wall-clock plan of a coherent rule has the same shape on every date. */
  lemma SpacingIsTheSame(spec: Spec, day: int)
    requires Coherent(spec)
    ensures
      var points := Points(spec, day);
      && (forall i | 0 <= i < |points| - 1 :: points[i] + 60 <= points[i + 1])
      && points[|points| - 1] - points[0] <= MAX_SCHEDULE_SECONDS
  {
    var points, first := Points(spec, day), Points(spec, spec.startDate);
    forall i | 0 <= i < |points| ensures points[i] - first[i] == (day - spec.startDate) * DAY {
    }
    forall i | 0 <= i < |points| - 1 ensures points[i] + 60 <= points[i + 1] {
      assert first[i] + 60 <= first[i + 1];
      assert points[i + 1] - first[i + 1] == points[i] - first[i];
    }
    var n := |points| - 1;
    assert points[n] - first[n] == points[0] - first[0];
  }

  /** There every step lasts at least a minute, and the whole at most a week. */
  lemma CoherentPlansLast(spec: Spec, almanac: Almanac, day: int, i: nat)
    requires FieldsValid(spec) && Coherent(spec) && spec.zone.changes == [] && Meant(spec, almanac, day)
    requires i <= |spec.changes|
    ensures RunOn(spec, almanac, day).Some? && 10957 <= day <= 84005
    ensures
      var run := RunOn(spec, almanac, day).value;
      |run.steps| == |spec.changes| + 1 && 60 <= run.steps[i].seconds && run.stopsAt - run.startsAt <= 7 * 86400
  {
    hide FieldsValid, Coherent, Meant, RunOn, Points, Frequencies;
    FixedZoneKeepsWallClock(spec, almanac, day);
    SpacingIsTheSame(spec, day);
    PointsAndFrequencies(spec, day);
    MeantInPeriod(spec, almanac, day);
  }

  lemma MeantInPeriod(spec: Spec, almanac: Almanac, day: int)
    requires Coherent(spec) && Meant(spec, almanac, day)
    ensures FIRST_DAY <= day <= LAST_DAY
  {
  }

  lemma PointsAndFrequencies(spec: Spec, day: int)
    ensures |Points(spec, day)| == |spec.changes| + 2 && |Frequencies(spec)| == |spec.changes| + 1
  {
  }

  /** In any zone the steps of a run begin when the local clock shows the times of the rule, and hold
      the frequencies given for those times. */
  lemma StepsFollowTheRule(spec: Spec, almanac: Almanac, day: int, i: nat)
    requires FieldsValid(spec) && RunOn(spec, almanac, day).Some? && i < |spec.changes|
    ensures
      var run := RunOn(spec, almanac, day).value;
      && |run.steps| == |spec.changes| + 1 && run.steps[0].hz == spec.hz
      && run.steps[i + 1].hz == spec.changes[i].hz
      && Local(spec.zone, run.startsAt + Through(run.steps, i + 1))
         == (day + spec.changes[i].dayOffset) * DAY + spec.changes[i].at
      && run.startsAt + Total(run.steps) == run.stopsAt
  {
    hide CivilUtc, Matches, FieldsValid, Local, RunBetween, Frequencies, Points, Through;
    var fs, points := Frequencies(spec), Points(spec, day);
    AsManyPoints(spec, day);
    PlanAt(spec, day, i);
    RunBetweenIs(fs, Resolve(spec.zone, points));
    var us := Known(Resolve(spec.zone, points));
    DurationsTelescope(fs, us, i + 1);
    DurationsTelescope(fs, us, |fs|);
  }

  lemma PlanAt(spec: Spec, day: int, i: nat)
    requires i < |spec.changes|
    ensures |Points(spec, day)| == |spec.changes| + 2 && |Frequencies(spec)| == |spec.changes| + 1
    ensures Points(spec, day)[i + 1] == (day + spec.changes[i].dayOffset) * DAY + spec.changes[i].at
    ensures Frequencies(spec)[0] == spec.hz && Frequencies(spec)[i + 1] == spec.changes[i].hz
  {
  }

  lemma RunBetweenIs(fs: seq<real>, instants: seq<Option<int>>)
    requires |instants| == |fs| + 1 >= 2 && RunBetween(fs, instants).Some?
    ensures
      var run, us := RunBetween(fs, instants).value, Known(instants);
      && (forall i | 0 <= i < |instants| :: instants[i].Some? && us[i] == instants[i].value)
      && run.startsAt == us[0] && run.stopsAt == us[|fs|] && run.steps == StepsBetween(fs, us)
  {
  }

  // ---------------------------------------------------------------- how often

  /** The days of a calendar follow one another through weeks and months. */
  ghost predicate Calendar(almanac: Almanac)
  {
    forall day: int ::
      var a, b := almanac(day), almanac(day + 1);
      && 0 <= a.weekday < 7 && 1 <= a.month <= 12 && 1 <= a.dayOfMonth <= a.monthLength
      && b.weekday == (a.weekday + 1) % 7
      && if a.dayOfMonth < a.monthLength
         then b.month == a.month && b.monthLength == a.monthLength && b.dayOfMonth == a.dayOfMonth + 1
         else b.month == a.month % 12 + 1 && b.dayOfMonth == 1
  }

  lemma {:induction false} WeekdayAfter(almanac: Almanac, day: int, k: nat)
    requires Calendar(almanac)
    ensures almanac(day + k).weekday == (almanac(day).weekday + k) % 7
  {
    if k == 0 {
      WeekdayInRange(almanac, day);
    } else {
      WeekdayAfter(almanac, day, k - 1);
      assert almanac(day + (k - 1) + 1).weekday == (almanac(day + (k - 1)).weekday + 1) % 7;
      NextRest(almanac(day).weekday + k - 1);
    }
  }

  lemma NextRest(n: int)
    ensures (n % 7 + 1) % 7 == (n + 1) % 7
  {
  }

  lemma {:induction false} DayOfMonthAfter(almanac: Almanac, first: int, k: nat)
    requires Calendar(almanac) && almanac(first).dayOfMonth == 1 && k < almanac(first).monthLength
    ensures
      var r := almanac(first + k);
      r.dayOfMonth == k + 1 && r.month == almanac(first).month && r.monthLength == almanac(first).monthLength
  {
    if k > 0 {
      DayOfMonthAfter(almanac, first, k - 1);
      assert almanac(first + (k - 1)).dayOfMonth < almanac(first + (k - 1)).monthLength;
      assert almanac(first + (k - 1) + 1) == almanac(first + k);
    }
  }

  /** All these dates are within the period of the rule, in its months and not excluded. */
  ghost predicate Clear(spec: Spec, almanac: Almanac, from: int, days: int)
  {
    && spec.startDate <= from && from + days - 1 <= spec.untilDate
    && forall day | from <= day < from + days :: almanac(day).month in spec.months && day !in spec.excluded
  }

  lemma WeekArithmetic(w: int, k: int, weekday: int)
    requires 0 <= w < 7 && 0 <= k < 7 && 0 <= weekday < 7
    ensures (w + k) % 7 == weekday <==> k == (weekday - w) % 7
  {
  }

  lemma WeekdayInRange(almanac: Almanac, day: int)
    requires Calendar(almanac)
    ensures 0 <= almanac(day).weekday < 7
  {
    assert almanac(day + 1).weekday == (almanac(day).weekday + 1) % 7;
  }

  /** In any clear week a weekly rule is meant for exactly one date of each of its weekdays. */
  lemma WeekHasEachWeekday(spec: Spec, almanac: Almanac, from: int, weekday: int)
    requires Calendar(almanac) && spec.repeat.Weekly? && Clear(spec, almanac, from, 7) && 0 <= weekday < 7
    ensures exists day :: WeekdayIn(almanac, from, day, weekday)
    ensures forall day | WeekdayIn(almanac, from, day, weekday) ::
      && (Meant(spec, almanac, day) <==> weekday in spec.weekdays)
      && forall other | WeekdayIn(almanac, from, other, weekday) :: other == day
  {
    hide Calendar;
    var w := almanac(from).weekday;
    WeekdayInRange(almanac, from);
    var k := (weekday - w) % 7;
    WeekArithmetic(w, k, weekday);
    WeekdayAfter(almanac, from, k);
    assert WeekdayIn(almanac, from, from + k, weekday);
    forall day | WeekdayIn(almanac, from, day, weekday) ensures day == from + k {
      WeekdayAfter(almanac, from, day - from);
      WeekArithmetic(w, day - from, weekday);
    }
  }

  /** The dates of the week that fall on the first `k` listed weekdays. */
  ghost function OnListed(spec: Spec, almanac: Almanac, from: int, k: nat): set<int>
    requires k <= |spec.weekdays|
  {
    set day | from <= day < from + 7 && almanac(day).weekday in spec.weekdays[..k]
  }

  /** The next listed weekday adds one date. */
  lemma NextListed(spec: Spec, almanac: Almanac, from: int, k: nat) returns (day: int)
    requires Calendar(almanac) && spec.repeat.Weekly? && Clear(spec, almanac, from, 7) && k < |spec.weekdays|
    requires Distinct(spec.weekdays) && forall d | d in spec.weekdays :: 0 <= d < 7
    ensures OnListed(spec, almanac, from, k + 1) == OnListed(spec, almanac, from, k) + {day}
    ensures day !in OnListed(spec, almanac, from, k)
  {
    hide Calendar, Clear, Meant;
    var w := spec.weekdays[k];
    assert w in spec.weekdays;
    WeekHasEachWeekday(spec, almanac, from, w);
    day :| WeekdayIn(almanac, from, day, w);
    assert spec.weekdays[..k + 1] == spec.weekdays[..k] + [w];
    assert w !in spec.weekdays[..k];
    forall other | from <= other < from + 7 && almanac(other).weekday == w ensures other == day {
      assert WeekdayIn(almanac, from, other, w);
    }
  }

  lemma {:induction false} ListedCount(spec: Spec, almanac: Almanac, from: int, k: nat)
    requires Calendar(almanac) && spec.repeat.Weekly? && Clear(spec, almanac, from, 7) && k <= |spec.weekdays|
    requires Distinct(spec.weekdays) && forall d | d in spec.weekdays :: 0 <= d < 7
    ensures |OnListed(spec, almanac, from, k)| == k
  {
    hide Calendar, Clear, Distinct;
    if k == 0 {
      assert OnListed(spec, almanac, from, 0) == {};
    } else {
      hide OnListed;
      ListedCount(spec, almanac, from, k - 1);
      var day := NextListed(spec, almanac, from, k - 1);
    }
  }

  /** So any clear week has as many dates of the rule as it lists weekdays. */
  lemma WeekHasAllWeekdays(spec: Spec, almanac: Almanac, from: int)
    requires Calendar(almanac) && spec.repeat.Weekly? && Clear(spec, almanac, from, 7)
    requires Distinct(spec.weekdays) && forall d | d in spec.weekdays :: 0 <= d < 7
    ensures |set day | from <= day < from + 7 && Meant(spec, almanac, day)| == |spec.weekdays|
  {
    ListedCount(spec, almanac, from, |spec.weekdays|);
    assert spec.weekdays[..|spec.weekdays|] == spec.weekdays;
    assert (set day | from <= day < from + 7 && Meant(spec, almanac, day))
      == OnListed(spec, almanac, from, |spec.weekdays|);
  }

  predicate WeekdayIn(almanac: Almanac, from: int, day: int, weekday: int)
  {
    from <= day < from + 7 && almanac(day).weekday == weekday
  }

  /** In any clear month a monthly rule is meant for its day, if the month has it, or the last one. */
  lemma MonthHasOneDate(spec: Spec, almanac: Almanac, first: int)
    requires Calendar(almanac) && spec.repeat.Monthly? && spec.monthDay != 0 && -1 <= spec.monthDay
    requires almanac(first).dayOfMonth == 1 && Clear(spec, almanac, first, almanac(first).monthLength)
    ensures
      var length := almanac(first).monthLength;
      forall day | first <= day < first + length ::
        Meant(spec, almanac, day) <==> day == first + (if spec.monthDay == -1 then length else spec.monthDay) - 1
  {
    forall day | first <= day < first + almanac(first).monthLength
      ensures almanac(day).dayOfMonth == day - first + 1 && almanac(day).monthLength == almanac(first).monthLength
    {
      DayOfMonthAfter(almanac, first, day - first);
    }
  }
}
