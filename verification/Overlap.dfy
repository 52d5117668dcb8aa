/** The preview of coming runs, and the overlap decisions taken on a bounded window of it,
    against the same questions asked over all dates. */
module Overlap {
  import opened Options
  import opened Plans
  import opened Schedules
  import opened Zones

  ghost predicate IsRun(spec: Spec, almanac: Almanac, run: Run)
    requires FieldsValid(spec)
  {
    exists day :: RunOn(spec, almanac, day) == Some(run)
  }

  predicate Wanted(run: Run, after: int, until: Option<int>)
  {
    after <= run.startsAt && (until.Some? ==> run.startsAt < until.value)
  }

  /** The wanted runs dated from `day` to `last`, in the order of the dates. */
  function RunsFrom(spec: Spec, almanac: Almanac, day: int, last: int, after: int, until: Option<int>): seq<Run>
    requires FieldsValid(spec)
    decreases last - day
  {
    if last < day then []
    else
      var run := RunOn(spec, almanac, day);
      (if run.Some? && Wanted(run.value, after, until) then [run.value] else [])
      + RunsFrom(spec, almanac, day + 1, last, after, until)
  }

  function FirstDay(spec: Spec, after: int): int { Max(spec.startDate, Date(spec.zone, after)) }

  function LastDay(spec: Spec, until: Option<int>): int
  {
    var last := if until.Some? then Min(spec.untilDate, Date(spec.zone, until.value)) else spec.untilDate;
    if spec.repeat.Once? then Min(last, spec.startDate) else last
  }

  function AllComing(spec: Spec, almanac: Almanac, after: int, until: Option<int>): seq<Run>
    requires FieldsValid(spec)
  {
    RunsFrom(spec, almanac, FirstDay(spec, after), LastDay(spec, until), after, until)
  }

  method Upcoming(spec: Spec, almanac: Almanac, after: int, limit: nat, until: Option<int>) returns (runs: seq<Run>)
    requires FieldsValid(spec)
    ensures
      var all := AllComing(spec, almanac, after, until);
      runs == all[..Min(limit, |all|)]
  {
    hide RunOn, Date, FieldsValid, Wanted, RunsFrom;
    ghost var all := AllComing(spec, almanac, after, until);
    var day := Max(spec.startDate, Date(spec.zone, after));
    var last := if until.Some? then Min(spec.untilDate, Date(spec.zone, until.value)) else spec.untilDate;
    if spec.repeat.Once? {
      last := Min(last, spec.startDate);
    }
    runs := [];
    while day <= last && |runs| < limit
      invariant |runs| <= limit
      invariant all == runs + RunsFrom(spec, almanac, day, last, after, until)
      decreases last - day
    {
      var run := RunOnDate(spec, almanac, day);
      TakeFirst(spec, almanac, runs, day, last, after, until);
      if run.Some? && Wanted(run.value, after, until) {
        runs := runs + [run.value];
      }
      day := day + 1;
    }
    if last < day { NoneLeft(spec, almanac, day, last, after, until); }
  }

  lemma NoneLeft(spec: Spec, almanac: Almanac, day: int, last: int, after: int, until: Option<int>)
    requires FieldsValid(spec) && last < day
    ensures RunsFrom(spec, almanac, day, last, after, until) == []
  {
  }

  lemma TakeFirst(spec: Spec, almanac: Almanac, runs: seq<Run>, day: int, last: int, after: int, until: Option<int>)
    requires FieldsValid(spec) && day <= last
    ensures
      var run, rest := RunOn(spec, almanac, day), RunsFrom(spec, almanac, day + 1, last, after, until);
      runs + RunsFrom(spec, almanac, day, last, after, until)
      == (if run.Some? && Wanted(run.value, after, until) then runs + [run.value] else runs) + rest
  {
    hide RunOn, FieldsValid, Wanted;
    var run, rest := RunOn(spec, almanac, day), RunsFrom(spec, almanac, day + 1, last, after, until);
    if run.Some? && Wanted(run.value, after, until) {
      assert runs + ([run.value] + rest) == (runs + [run.value]) + rest;
    } else {
      assert [] + rest == rest;
    }
  }

  /** The bounded call returns the whole window: whatever the zone does within its bounds, the
      limit never cuts it. */
  method OverlapWindow(spec: Spec, almanac: Almanac, after: int, days: nat) returns (runs: seq<Run>)
    requires FieldsValid(spec) && Bounded(spec.zone)
    ensures runs == Window(spec, almanac, after, days)
  {
    WindowIsShort(spec, almanac, after, days);
    runs := Upcoming(spec, almanac, after - MAX_SCHEDULE_DAYS * DAY, days + MAX_SCHEDULE_DAYS + 3,
      Some(after + days * DAY));
    assert runs == Window(spec, almanac, after, days)[..|Window(spec, almanac, after, days)|];
  }

  /** All coming runs from a week before the horizon to its end, without any limit. */
  function Window(spec: Spec, almanac: Almanac, after: int, days: nat): seq<Run>
    requires FieldsValid(spec)
  {
    AllComing(spec, almanac, after - MAX_SCHEDULE_DAYS * DAY, Some(after + days * DAY))
  }

  lemma WindowIsShort(spec: Spec, almanac: Almanac, after: int, days: nat)
    requires FieldsValid(spec) && Bounded(spec.zone)
    ensures |Window(spec, almanac, after, days)| <= days + MAX_SCHEDULE_DAYS + 3
  {
    hide RunOn, FieldsValid, Date, RunsFrom;
    var from, until := after - MAX_SCHEDULE_DAYS * DAY, Some(after + days * DAY);
    RunsFromLength(spec, almanac, FirstDay(spec, from), LastDay(spec, until), from, until);
    DatesApart(spec.zone, from, days + MAX_SCHEDULE_DAYS);
    assert from + (days + MAX_SCHEDULE_DAYS) * DAY == until.value;
  }

  // ---------------------------------------------------------------- what the preview holds

  lemma {:induction false} RunsFromMembers(spec: Spec, almanac: Almanac, day: int, last: int, after: int,
      until: Option<int>)
    requires FieldsValid(spec)
    ensures forall run :: run in RunsFrom(spec, almanac, day, last, after, until) <==>
                          Wanted(run, after, until) && exists d ::
                            day <= d <= last && RunOn(spec, almanac, d) == Some(run)
    decreases Max(0, last + 1 - day)
  {
    hide RunOn, FieldsValid, Wanted;
    if day <= last {
      RunsFromMembers(spec, almanac, day + 1, last, after, until);
      forall run | Wanted(run, after, until) && exists d :: day <= d <= last && RunOn(spec, almanac, d) == Some(run)
        ensures run in RunsFrom(spec, almanac, day, last, after, until)
      {
        var d :| day <= d <= last && RunOn(spec, almanac, d) == Some(run);
        assert d == day || day + 1 <= d <= last;
      }
    }
  }

  lemma {:induction false} RunsFromLength(spec: Spec, almanac: Almanac, day: int, last: int, after: int,
      until: Option<int>)
    requires FieldsValid(spec)
    ensures |RunsFrom(spec, almanac, day, last, after, until)| <= Max(0, last + 1 - day)
    decreases Max(0, last + 1 - day)
  {
    if day <= last { RunsFromLength(spec, almanac, day + 1, last, after, until); }
  }

  /** Starts and stops strictly increase along the list. */
  ghost predicate Ordered(runs: seq<Run>)
  {
    forall i, j | 0 <= i < j < |runs| :: runs[i].startsAt < runs[j].startsAt && runs[i].stopsAt < runs[j].stopsAt
  }

  /** Both ends of a run are round trips, so they show the rule's times on the run's dates. */
  lemma EndsShowDates(spec: Spec, almanac: Almanac, day: int)
    requires FieldsValid(spec) && RunOn(spec, almanac, day).Some?
    ensures Date(spec.zone, RunOn(spec, almanac, day).value.startsAt) == day
    ensures Date(spec.zone, RunOn(spec, almanac, day).value.stopsAt) == day + spec.stopDayOffset
  {
  }

  /** They are what its first and last point resolve to. */
  lemma EndsAreResolved(spec: Spec, almanac: Almanac, day: int)
    requires FieldsValid(spec) && RunOn(spec, almanac, day).Some?
    ensures
      var run := RunOn(spec, almanac, day).value;
      && CivilUtc(spec.zone, day * DAY + spec.startTime) == Some(run.startsAt)
      && CivilUtc(spec.zone, (day + spec.stopDayOffset) * DAY + spec.stopTime) == Some(run.stopsAt)
  {
    hide CivilUtc, Matches;
    var points := Points(spec, day);
    assert points[0] == PointAt(spec, day, 0) && points[|points| - 1] == PointAt(spec, day, |spec.changes| + 1);
    assert Resolve(spec.zone, points)[0] == CivilUtc(spec.zone, points[0]);
    assert Resolve(spec.zone, points)[|points| - 1] == CivilUtc(spec.zone, points[|points| - 1]);
  }

  /** The clock is orderly, or at least its date never steps back. */
  ghost predicate Regular(z: Zone) { Orderly(z) || DateNeverStepsBack(z) }

  /** Of these dates, none that has come is still to come at `until`. */
  ghost predicate NoDateReturns(z: Zone, first: int, last: int, until: int)
  {
    forall u: int | u <= until && first <= Date(z, u) :: Min(Date(z, u), last) <= Date(z, until)
  }

  /** No date of the rule returns after the end of this horizon. */
  ghost predicate HorizonOk(spec: Spec, until: int)
  {
    NoDateReturns(spec.zone, spec.startDate, spec.untilDate, until)
  }

  lemma LaterDateLaterRun(spec: Spec, almanac: Almanac, d: int, e: int)
    requires FieldsValid(spec) && Regular(spec.zone) && d < e
    requires RunOn(spec, almanac, d).Some? && RunOn(spec, almanac, e).Some?
    ensures RunOn(spec, almanac, d).value.startsAt < RunOn(spec, almanac, e).value.startsAt
    ensures RunOn(spec, almanac, d).value.stopsAt < RunOn(spec, almanac, e).value.stopsAt
  {
    hide RunOn, FieldsValid, CivilUtc, Date, Orderly;
    var x, y := RunOn(spec, almanac, d).value, RunOn(spec, almanac, e).value;
    if Orderly(spec.zone) {
      EndsAreResolved(spec, almanac, d);
      EndsAreResolved(spec, almanac, e);
      ResolvedInOrder(spec.zone, d * DAY + spec.startTime, e * DAY + spec.startTime);
      ResolvedInOrder(spec.zone, (d + spec.stopDayOffset) * DAY + spec.stopTime,
        (e + spec.stopDayOffset) * DAY + spec.stopTime);
    } else {
      EndsShowDates(spec, almanac, d);
      EndsShowDates(spec, almanac, e);
      assert y.startsAt <= x.startsAt ==> Date(spec.zone, y.startsAt) <= Date(spec.zone, x.startsAt);
      assert y.stopsAt <= x.stopsAt ==> Date(spec.zone, y.stopsAt) <= Date(spec.zone, x.stopsAt);
    }
  }

  /** What comes before the start of a run shows no later date: the start is resolved to the first
      instant of its local time. */
  lemma NothingLaterBefore(spec: Spec, almanac: Almanac, run: Run, u: int)
    requires FieldsValid(spec) && Regular(spec.zone) && IsRun(spec, almanac, run) && u <= run.startsAt
    ensures Date(spec.zone, u) <= Date(spec.zone, run.startsAt)
  {
    hide RunOn, FieldsValid, CivilUtc, Orderly;
    var day :| RunOn(spec, almanac, day) == Some(run);
    if Orderly(spec.zone) && u < run.startsAt {
      EndsAreResolved(spec, almanac, day);
      EarlierShowsEarlier(spec.zone, day * DAY + spec.startTime, u);
    }
  }

  lemma {:induction false} RunsFromOrdered(spec: Spec, almanac: Almanac, day: int, last: int, after: int,
      until: Option<int>)
    requires FieldsValid(spec) && Regular(spec.zone)
    ensures Ordered(RunsFrom(spec, almanac, day, last, after, until))
    decreases Max(0, last + 1 - day)
  {
    hide RunOn, FieldsValid, Regular;
    if day <= last {
      RunsFromOrdered(spec, almanac, day + 1, last, after, until);
      RunsFromMembers(spec, almanac, day + 1, last, after, until);
      var rest := RunsFrom(spec, almanac, day + 1, last, after, until);
      var run := RunOn(spec, almanac, day);
      if run.Some? {
        forall later | later in rest ensures run.value.startsAt < later.startsAt && run.value.stopsAt < later.stopsAt {
          var d :| day + 1 <= d <= last && RunOn(spec, almanac, d) == Some(later);
          LaterDateLaterRun(spec, almanac, day, d);
        }
        PrependOrdered(run.value, rest);
      }
      assert [] + rest == rest;
    }
  }

  lemma PrependOrdered(run: Run, rest: seq<Run>)
    requires Ordered(rest)
    requires forall later | later in rest :: run.startsAt < later.startsAt && run.stopsAt < later.stopsAt
    ensures Ordered([run] + rest)
  {
    forall i, j | 0 <= i < j < |rest| + 1
      ensures ([run] + rest)[i].startsAt < ([run] + rest)[j].startsAt
      ensures ([run] + rest)[i].stopsAt < ([run] + rest)[j].stopsAt
    {
      assert rest[j - 1] in rest;
    }
  }

  lemma RunLength(spec: Spec, almanac: Almanac, run: Run)
    requires FieldsValid(spec) && IsRun(spec, almanac, run)
    ensures 10 <= run.stopsAt - run.startsAt <= MAX_SCHEDULE_DAYS * DAY
  {
    var day :| RunOn(spec, almanac, day) == Some(run);
    RunsAreValid(spec, almanac, day);
    ThroughIncreases(run.steps, 1, |run.steps|);
    assert Through(run.steps, 1) == Through(run.steps, 0) + run.steps[0].seconds;
  }

  /** What the preview holds in any zone whatever: the runs over all dates that start in the
      interval and whose date lies between the dates of its ends. */
  lemma ComingExactly(spec: Spec, almanac: Almanac, after: int, until: Option<int>)
    requires FieldsValid(spec)
    ensures forall run :: run in AllComing(spec, almanac, after, until) <==>
                          && IsRun(spec, almanac, run) && Wanted(run, after, until)
                          && Date(spec.zone, after) <= Date(spec.zone, run.startsAt)
                          && (until.Some? ==> Date(spec.zone, run.startsAt) <= Date(spec.zone, until.value))
  {
    hide FieldsValid, Date, Wanted, RunsFrom;
    RunsFromMembers(spec, almanac, FirstDay(spec, after), LastDay(spec, until), after, until);
    forall run, d | RunOn(spec, almanac, d) == Some(run) ensures Date(spec.zone, run.startsAt) == d {
      EndsShowDates(spec, almanac, d);
    }
    forall run | IsRun(spec, almanac, run) && Wanted(run, after, until)
      && Date(spec.zone, after) <= Date(spec.zone, run.startsAt)
                 && (until.Some? ==> Date(spec.zone, run.startsAt) <= Date(spec.zone, until.value))
      ensures run in AllComing(spec, almanac, after, until)
    {
      var d :| RunOn(spec, almanac, d) == Some(run);
      assert FirstDay(spec, after) <= d <= LastDay(spec, until);
    }
  }

  /** In a regular zone only the end of the interval can hide a run: when its date is earlier than
      that of the run. */
  lemma ComingInOrder(spec: Spec, almanac: Almanac, after: int, until: Option<int>)
    requires FieldsValid(spec) && Regular(spec.zone)
    ensures Ordered(AllComing(spec, almanac, after, until))
    ensures forall run :: run in AllComing(spec, almanac, after, until) <==>
                          && IsRun(spec, almanac, run) && Wanted(run, after, until)
                          && (until.Some? ==> Date(spec.zone, run.startsAt) <= Date(spec.zone, until.value))
  {
    hide RunOn, FieldsValid, IsRun, Date, RunsFrom, Regular;
    ComingExactly(spec, almanac, after, until);
    RunsFromOrdered(spec, almanac, FirstDay(spec, after), LastDay(spec, until), after, until);
    forall run | IsRun(spec, almanac, run) && Wanted(run, after, until)
      ensures Date(spec.zone, after) <= Date(spec.zone, run.startsAt)
    {
      NothingLaterBefore(spec, almanac, run, after);
    }
  }

  /** Where no date of the rule returns after the end, that is every run that starts in the
      interval. */
  lemma AllComingIsComplete(spec: Spec, almanac: Almanac, after: int, until: Option<int>)
    requires FieldsValid(spec) && Regular(spec.zone) && (until.Some? ==> HorizonOk(spec, until.value))
    ensures forall run ::
      run in AllComing(spec, almanac, after, until) <==> IsRun(spec, almanac, run) && Wanted(run, after, until)
  {
    hide RunOn, FieldsValid, AllComing, Date, Regular;
    ComingInOrder(spec, almanac, after, until);
    forall run | IsRun(spec, almanac, run) && Wanted(run, after, until) && until.Some?
      ensures Date(spec.zone, run.startsAt) <= Date(spec.zone, until.value)
    {
      var day :| RunOn(spec, almanac, day) == Some(run);
      EndsShowDates(spec, almanac, day);
      assert spec.startDate <= Date(spec.zone, run.startsAt) <= spec.untilDate;
    }
  }

  /** The next run offered to the operator is the earliest one over all dates. */
  lemma NextRunIsEarliest(spec: Spec, almanac: Almanac, after: int)
    requires FieldsValid(spec) && Regular(spec.zone)
    ensures
      var all := AllComing(spec, almanac, after, None);
      && (all == [] <==> forall run | IsRun(spec, almanac, run) :: run.startsAt < after)
      && (all != [] ==> IsRun(spec, almanac, all[0]) && after <= all[0].startsAt
                        && forall run | IsRun(spec, almanac, run) && after <= run.startsAt ::
                              all[0].startsAt <= run.startsAt)
  {
    hide IsRun, AllComing, Regular;
    var all := AllComing(spec, almanac, after, None);
    ComingInOrder(spec, almanac, after, None);
    if all != [] { assert all[0] in all; }
    forall run | IsRun(spec, almanac, run) && after <= run.startsAt
      ensures all != [] && all[0].startsAt <= run.startsAt
    {
      assert run in all;
      var k :| 0 <= k < |all| && all[k] == run;
    }
  }

  /** Two instants `m` days apart lie on dates at most `m + 2` apart: offsets stay inside a day. */
  lemma DatesApart(z: Zone, u: int, m: nat)
    requires Bounded(z)
    ensures Date(z, u + m * DAY) - Date(z, u) <= m + 2
  {
    var n := |z.changes|;
    var a, b := OffsetAfter(z, Passed(z, u, n)), OffsetAfter(z, Passed(z, u + m * DAY, n));
    assert Local(z, u + m * DAY) - Local(z, u) == m * DAY + b - a < (m + 2) * DAY;
  }

  /** The window is exactly the runs over all dates that start within the look-back week or the
      horizon. */
  ghost predicate WindowExact(spec: Spec, almanac: Almanac, after: int, days: nat)
    requires FieldsValid(spec)
  {
    forall run :: run in Window(spec, almanac, after, days) <==>
                  IsRun(spec, almanac, run) && after - MAX_SCHEDULE_DAYS * DAY <= run.startsAt < after + days * DAY
  }

  /** Where no date of the rule returns after the horizon, the window loses no run; it always lists
      its runs in order. */
  lemma WindowIsExact(spec: Spec, almanac: Almanac, after: int, days: nat)
    requires FieldsValid(spec) && Regular(spec.zone)
    ensures Ordered(Window(spec, almanac, after, days))
    ensures HorizonOk(spec, after + days * DAY) ==> WindowExact(spec, almanac, after, days)
  {
    hide FieldsValid, AllComing, IsRun, Regular, HorizonOk;
    var from, until := after - MAX_SCHEDULE_DAYS * DAY, Some(after + days * DAY);
    ComingInOrder(spec, almanac, from, until);
    if HorizonOk(spec, until.value) { AllComingIsComplete(spec, almanac, from, until); }
  }

  // ---------------------------------------------------------------- the two questions

  predicate Running(run: Run, t: int) { run.startsAt <= t < run.stopsAt }

  /** From `after` on, some instant lies inside a run of each rule, over all dates, both of which
      start before the end of the horizon. */
  ghost predicate ShareInstant(left: Spec, right: Spec, almanac: Almanac, after: int, days: nat)
    requires FieldsValid(left) && FieldsValid(right)
  {
    exists t: int, x, y ::
      after <= t && IsRun(left, almanac, x) && IsRun(right, almanac, y) && Running(x, t) && Running(y, t)
                           && x.startsAt < after + days * DAY && y.startsAt < after + days * DAY
  }

  /** The same for two different runs of one rule. */
  ghost predicate CollidesWithItself(spec: Spec, almanac: Almanac, after: int, days: nat)
    requires FieldsValid(spec)
  {
    exists t: int, x, y ::
      after <= t && IsRun(spec, almanac, x) && IsRun(spec, almanac, y) && Running(x, t) && Running(y, t)
                           && x.startsAt < after + days * DAY && y.startsAt < after + days * DAY && x != y
  }

  /** With at least a day of horizon that is an instant of the horizon itself. */
  lemma SharedInHorizon(left: Spec, right: Spec, almanac: Almanac, after: int, days: nat)
    requires FieldsValid(left) && FieldsValid(right) && days >= 1
    ensures ShareInstant(left, right, almanac, after, days) <==>
            exists t: int, x, y ::
              after <= t < after + days * DAY && IsRun(left, almanac, x) && IsRun(right, almanac, y)
                                   && Running(x, t) && Running(y, t)
  {
    hide IsRun, FieldsValid;
    if ShareInstant(left, right, almanac, after, days) {
      var t: int, x, y :| after <= t && IsRun(left, almanac, x) && IsRun(right, almanac, y) && Running(x, t)
        && Running(y, t)
                          && x.startsAt < after + days * DAY && y.startsAt < after + days * DAY;
      var first := Max(Max(x.startsAt, y.startsAt), after);
      assert Running(x, first) && Running(y, first);
    }
  }

  /** A run still active at `after` or later is in the window: runs last a week at most. */
  lemma ActiveRunIsInWindow(spec: Spec, almanac: Almanac, after: int, days: nat, run: Run, t: int) returns (i: nat)
    requires FieldsValid(spec) && WindowExact(spec, almanac, after, days)
    requires IsRun(spec, almanac, run) && Running(run, t) && after <= t && run.startsAt < after + days * DAY
    ensures i < |Window(spec, almanac, after, days)| && Window(spec, almanac, after, days)[i] == run
  {
    hide IsRun, Window, FieldsValid;
    RunLength(spec, almanac, run);
    var runs := Window(spec, almanac, after, days);
    assert run in runs;
    i :| 0 <= i < |runs| && runs[i] == run;
  }

  predicate Meet(x: Run, y: Run, after: int)
  {
    Max(Max(x.startsAt, y.startsAt), after) < Min(x.stopsAt, y.stopsAt)
  }

  /** The two-pointer sweep finds a meeting pair of two ordered lists exactly when one exists. */
  method Sweep(a: seq<Run>, b: seq<Run>, after: int) returns (found: bool)
    requires Ordered(a) && Ordered(b)
    requires forall run | run in a || run in b :: run.startsAt < run.stopsAt
    ensures found <==> PairMeets(a, b, after)
  {
    var i, j := 0, 0;
    while i < |a| && j < |b|
      invariant i <= |a| && j <= |b|
      invariant forall p, q | 0 <= p < |a| && 0 <= q < |b| && (p < i || q < j) :: !Meet(a[p], b[q], after)
      decreases |a| - i + |b| - j
    {
      if Meet(a[i], b[j], after) {
        return true;
      }
      assert a[i] in a && b[j] in b;
      if a[i].stopsAt <= b[j].stopsAt {
        i := i + 1;
      } else {
        j := j + 1;
      }
    }
    return false;
  }

  method FirstOverlap(left: Spec, right: Spec, almanac: Almanac, after: int, days: nat) returns (found: bool)
    requires FieldsValid(left) && FieldsValid(right) && Bounded(left.zone) && Bounded(right.zone)
    requires Regular(left.zone) && Regular(right.zone)
    requires HorizonOk(left, after + days * DAY) && HorizonOk(right, after + days * DAY)
    ensures found <==> ShareInstant(left, right, almanac, after, days)
  {
    hide IsRun, Window, FieldsValid, Regular, HorizonOk, Bounded;
    var a := OverlapWindow(left, almanac, after, days);
    var b := OverlapWindow(right, almanac, after, days);
    WindowIsExact(left, almanac, after, days);
    WindowIsExact(right, almanac, after, days);
    forall run | run in a || run in b ensures run.startsAt < run.stopsAt {
      if run in a { RunLength(left, almanac, run); } else { RunLength(right, almanac, run); }
    }
    found := Sweep(a, b, after);
    MeetingIsSharing(left, right, almanac, after, days);
  }

  /** Some pair of the two lists meets. */
  ghost predicate PairMeets(a: seq<Run>, b: seq<Run>, after: int)
  {
    exists i, j :: 0 <= i < |a| && 0 <= j < |b| && Meet(a[i], b[j], after)
  }

  /** A meeting pair of two exact windows is a shared instant over all dates, and conversely. */
  lemma MeetingIsSharing(left: Spec, right: Spec, almanac: Almanac, after: int, days: nat)
    requires FieldsValid(left) && FieldsValid(right)
    requires WindowExact(left, almanac, after, days) && WindowExact(right, almanac, after, days)
    ensures
      PairMeets(Window(left, almanac, after, days), Window(right, almanac, after, days), after)
      <==> ShareInstant(left, right, almanac, after, days)
  {
    hide IsRun, Window, FieldsValid;
    var a, b := Window(left, almanac, after, days), Window(right, almanac, after, days);
    if i, j :| 0 <= i < |a| && 0 <= j < |b| && Meet(a[i], b[j], after) {
      var t := Max(Max(a[i].startsAt, b[j].startsAt), after);
      assert a[i] in a && b[j] in b;
      assert Running(a[i], t) && Running(b[j], t);
    }
    if ShareInstant(left, right, almanac, after, days) {
      var t: int, x, y :| after <= t && IsRun(left, almanac, x) && IsRun(right, almanac, y) && Running(x, t)
        && Running(y, t)
                          && x.startsAt < after + days * DAY && y.startsAt < after + days * DAY;
      var i := ActiveRunIsInWindow(left, almanac, after, days, x, t);
      var j := ActiveRunIsInWindow(right, almanac, after, days, y, t);
      assert Meet(a[i], b[j], after);
    }
  }

  predicate SelfOverlap(runs: seq<Run>, after: int)
  {
    exists k | 0 <= k < |runs| - 1 :: Max(runs[k + 1].startsAt, after) < runs[k].stopsAt
  }

  /** Looking at neighbours is enough, because the stops are ordered as well as the starts. */
  lemma NeighboursSuffice(runs: seq<Run>, after: int)
    requires Ordered(runs)
    ensures SelfOverlap(runs, after) <==>
            exists t: int, i, j :: after <= t && 0 <= i < j < |runs| && Running(runs[i], t) && Running(runs[j], t)
  {
    if k :| 0 <= k < |runs| - 1 && Max(runs[k + 1].startsAt, after) < runs[k].stopsAt {
      var t := Max(runs[k + 1].startsAt, after);
      assert Running(runs[k], t) && Running(runs[k + 1], t);
    }
    if t: int, i, j :| after <= t && 0 <= i < j < |runs| && Running(runs[i], t) && Running(runs[j], t) {
      assert runs[i].stopsAt <= runs[j - 1].stopsAt;
      var k := j - 1;
      assert Max(runs[k + 1].startsAt, after) < runs[k].stopsAt;
    }
  }

  lemma SelfOverlapIsExact(spec: Spec, almanac: Almanac, after: int, days: nat)
    requires FieldsValid(spec) && Regular(spec.zone) && HorizonOk(spec, after + days * DAY)
    ensures SelfOverlap(Window(spec, almanac, after, days), after) <==> CollidesWithItself(spec, almanac, after, days)
  {
    hide IsRun, Window, FieldsValid, Regular, HorizonOk, SelfOverlap;
    var runs := Window(spec, almanac, after, days);
    WindowIsExact(spec, almanac, after, days);
    NeighboursSuffice(runs, after);
    if t: int, i, j :| after <= t && 0 <= i < j < |runs| && Running(runs[i], t) && Running(runs[j], t) {
      assert runs[i] in runs && runs[j] in runs;
    }
    if CollidesWithItself(spec, almanac, after, days) {
      var t: int, x, y :| after <= t && IsRun(spec, almanac, x) && IsRun(spec, almanac, y) && Running(x, t)
        && Running(y, t)
                          && x.startsAt < after + days * DAY && y.startsAt < after + days * DAY && x != y;
      var i := ActiveRunIsInWindow(spec, almanac, after, days, x, t);
      var j := ActiveRunIsInWindow(spec, almanac, after, days, y, t);
      assert Running(runs[Min(i, j)], t) && Running(runs[Max(i, j)], t);
    }
  }
}
