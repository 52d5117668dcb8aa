/** Exactly when the overlap search is right: a horizon that ends after a clock change has turned the
    local date back misses a rule at midnight of a date that is still to come again. */
module OverlapLimits {
  import opened Options
  import opened Overlap
  import opened Plans
  import opened Schedules
  import opened Zones

  /** From the day before the period of rules on, changes happen on whole minutes and between
      offsets of whole minutes. */
  ghost predicate WholeMinutes(z: Zone)
  {
    forall i | 0 <= i < |z.changes| && (FIRST_DAY - 1) * DAY <= z.changes[i].at ::
      z.changes[i].at % 60 == 0 && OffsetAfter(z, i) % 60 == 0 && OffsetAfter(z, i + 1) % 60 == 0
  }

  /** This change turns the local date back behind the beginning of a day. */
  predicate ComesBack(z: Zone, i: nat, day: int)
    requires i < |z.changes|
  {
    Date(z, z.changes[i].at) < day <= Date(z, z.changes[i].at - 1)
  }

  // ---------------------------------------------------------------- a date steps back at a change

  lemma {:induction false} PassedAscends(z: Zone, u: int, v: int, n: nat)
    requires n <= |z.changes| && u <= v
    ensures Passed(z, u, n) <= Passed(z, v, n)
  {
    if n > 0 { PassedAscends(z, u, v, n - 1); }
  }

  /** A day that has begun ends for good unless a change comes back behind it. */
  lemma {:induction false} DayReturns(z: Zone, u: int, v: int, day: int) returns (i: nat)
    requires Orderly(z) && u <= v && Date(z, v) < day <= Date(z, u)
    ensures i < |z.changes| && ComesBack(z, i, day) && z.changes[i].at <= v
    decreases Passed(z, v, |z.changes|) - Passed(z, u, |z.changes|)
  {
    hide Passed, Wall, Date, Orderly;
    var n := |z.changes|;
    var p, q := Passed(z, u, n), Passed(z, v, n);
    PassedMeans(z, u, n);
    PassedMeans(z, v, n);
    PassedAscends(z, u, v, n);
    if p == q { SameSegment(z, u, v); }
    var c := z.changes[p].at;
    ChangesInOrder(z, p, q - 1);
    if p > 0 { OverBeforeNext(z, p - 1); }
    SegmentOf(z, c - 1, p);
    if p + 1 < n { OverBeforeNext(z, p); }
    SegmentOf(z, c, p + 1);
    SameSegment(z, u, c - 1);
    if day <= Date(z, c) { i := DayReturns(z, c, v, day); } else { i := p; }
  }

  lemma SameSegment(z: Zone, u: int, v: int)
    requires u <= v && Passed(z, u, |z.changes|) == Passed(z, v, |z.changes|)
    ensures Date(z, u) <= Date(z, v)
  {
    hide Passed;
  }

  // ---------------------------------------------------------------- the rule that is missed

  /** Which changes are over at a local reading. */
  lemma SettledIs(z: Zone, naive: int, k: nat)
    requires Orderly(z) && k <= |z.changes|
    requires (k > 0 ==> Wall(z, k - 1) <= naive) && (k < |z.changes| ==> naive < Wall(z, k))
    ensures Settled(z, naive, |z.changes|) == k
  {
    var n := |z.changes|;
    SettledMeans(z, naive, n);
    var s := Settled(z, naive, n);
    if k < s { ChangesInOrder(z, k, s - 1); }
  }

  /** The first midnight of a day that a change repeats comes before the change. */
  function MidnightAt(z: Zone, i: nat, day: int): int
    requires i < |z.changes|
  {
    day * DAY - OffsetAfter(z, i)
  }

  lemma SidesOfChange(z: Zone, i: nat, day: int)
    requires Orderly(z) && i < |z.changes| && ComesBack(z, i, day)
    ensures
      var c, o, p := z.changes[i].at, OffsetAfter(z, i), OffsetAfter(z, i + 1);
      Local(z, c) == c + p && c + p < day * DAY <= c - 1 + o
  {
    var c := z.changes[i].at;
    if i > 0 { OverBeforeNext(z, i - 1); }
    if i + 1 < |z.changes| { OverBeforeNext(z, i); }
    SegmentOf(z, c - 1, i);
    SegmentOf(z, c, i + 1);
  }

  /** Until the day has come again the clock does not change once more. */
  lemma NoChangeBetween(z: Zone, i: nat, day: int, until: int)
    requires Orderly(z) && i < |z.changes| && ComesBack(z, i, day) && z.changes[i].at <= until && Date(z, until) < day
    ensures until + OffsetAfter(z, i + 1) < day * DAY
    ensures i + 1 < |z.changes| ==> until < z.changes[i + 1].at
  {
    hide Passed, Orderly, ComesBack;
    var n := |z.changes|;
    var k := Passed(z, until, n);
    SidesOfChange(z, i, day);
    PassedMeans(z, until, n);
    assert Local(z, until) < day * DAY < Wall(z, i);
    if k > i + 1 {
      ChangesInOrder(z, i, k - 2);
      OverBeforeNext(z, k - 2);
      assert false;
    }
  }

  lemma Minutes(a: int, b: int)
    requires a % 60 == 0 && b % 60 == 0
    ensures (a - b) % 60 == 0 && (a + b) % 60 == 0
  {
  }

  lemma DaysAreMinutes(day: int)
    ensures (day * DAY) % 60 == 0
  {
    assert day * DAY == day * 1440 * 60;
  }

  /** Everything in sight of a change is whole minutes. */
  lemma MinutesAround(z: Zone, i: nat, day: int)
    requires WholeMinutes(z) && i < |z.changes| && (FIRST_DAY - 1) * DAY <= z.changes[i].at
    ensures (day * DAY) % 60 == 0 && MidnightAt(z, i, day) % 60 == 0 && z.changes[i].at % 60 == 0
    ensures (z.changes[i].at - MidnightAt(z, i, day)) % 60 == 0
    ensures (z.changes[i].at + OffsetAfter(z, i)) % 60 == 0 && (z.changes[i].at + OffsetAfter(z, i + 1)) % 60 == 0
    ensures (z.changes[i].at + OffsetAfter(z, i) - day * DAY) % 60 == 0
  {
    var c, o, p := z.changes[i].at, OffsetAfter(z, i), OffsetAfter(z, i + 1);
    DaysAreMinutes(day);
    Minutes(day * DAY, o);
    Minutes(c, MidnightAt(z, i, day));
    Minutes(c, o);
    Minutes(c, p);
    Minutes(c + o, day * DAY);
  }

  lemma MidnightResolves(z: Zone, i: nat, day: int)
    requires Orderly(z) && Bounded(z) && WholeMinutes(z)
    requires FIRST_DAY <= day && i < |z.changes| && ComesBack(z, i, day)
    ensures CivilUtc(z, day * DAY) == Some(MidnightAt(z, i, day))
    ensures z.changes[i].at - 2 * DAY < MidnightAt(z, i, day) <= z.changes[i].at - 60
  {
    hide WholeMinutes, ComesBack, Orderly, Bounded, Settled, Passed;
    SidesOfChange(z, i, day);
    if i > 0 { OverBeforeNext(z, i - 1); }
    SettledIs(z, day * DAY, i);
    SegmentOf(z, MidnightAt(z, i, day), i);
    OffsetInside(z, i);
    OffsetInside(z, i + 1);
    MinutesAround(z, i, day);
    AtLeastAMinute(z.changes[i].at - MidnightAt(z, i, day));
  }

  lemma AtLeastAMinute(m: int)
    requires m % 60 == 0 && m > 0
    ensures m >= 60
  {
  }

  lemma OffsetInside(z: Zone, k: nat)
    requires Bounded(z) && k <= |z.changes|
    ensures -DAY < OffsetAfter(z, k) < DAY
  {
  }

  /** A later local time that exists after the change, and its instant. */
  lemma LaterTimeResolves(z: Zone, i: nat, day: int) returns (stop: int, at: int)
    requires Orderly(z) && Bounded(z) && WholeMinutes(z)
    requires FIRST_DAY <= day && i < |z.changes| && ComesBack(z, i, day)
    ensures CivilUtc(z, stop) == Some(at) && stop % 60 == 0
    ensures day * DAY + 60 <= stop <= day * DAY + 4 * DAY
    ensures MidnightAt(z, i, day) + 60 <= at <= MidnightAt(z, i, day) + 4 * DAY
    ensures at == z.changes[i].at + OffsetAfter(z, i) - OffsetAfter(z, i + 1)
            || (i + 1 < |z.changes| && at == z.changes[i + 1].at)
  {
    hide WholeMinutes, ComesBack, Orderly, Bounded, Settled, Passed;
    var n := |z.changes|;
    var c, o, p := z.changes[i].at, OffsetAfter(z, i), OffsetAfter(z, i + 1);
    SidesOfChange(z, i, day);
    OffsetInside(z, i);
    OffsetInside(z, i + 1);
    MinutesAround(z, i, day);
    AtLeastAMinute(c + o - day * DAY);
    if i + 1 < n { OverBeforeNext(z, i); }
    if i + 1 == n || Wall(z, i) < z.changes[i + 1].at + p {
      stop, at := c + o, c + o - p;
      SettledIs(z, stop, i + 1);
      SegmentOf(z, at, i + 1);
    } else {
      stop, at := AfterTheGap(z, i, day);
    }
  }

  /** The next change follows at once and skips local time: take the end of that gap. */
  lemma AfterTheGap(z: Zone, i: nat, day: int) returns (stop: int, at: int)
    requires Orderly(z) && Bounded(z) && WholeMinutes(z)
    requires FIRST_DAY <= day && i + 1 < |z.changes| && ComesBack(z, i, day)
    requires Wall(z, i) >= z.changes[i + 1].at + OffsetAfter(z, i + 1)
    ensures CivilUtc(z, stop) == Some(at) && stop % 60 == 0
    ensures day * DAY + 60 <= stop <= day * DAY + 4 * DAY
    ensures MidnightAt(z, i, day) + 60 <= at <= MidnightAt(z, i, day) + 4 * DAY
    ensures at == z.changes[i].at + OffsetAfter(z, i) - OffsetAfter(z, i + 1)
            || (i + 1 < |z.changes| && at == z.changes[i + 1].at)
  {
    hide WholeMinutes, ComesBack, Orderly, Bounded, Settled, Passed;
    var n := |z.changes|;
    var c, o, p := z.changes[i].at, OffsetAfter(z, i), OffsetAfter(z, i + 1);
    var d, q := z.changes[i + 1].at, OffsetAfter(z, i + 2);
    SidesOfChange(z, i, day);
    OffsetInside(z, i);
    OffsetInside(z, i + 1);
    OffsetInside(z, i + 2);
    OverBeforeNext(z, i);
    MinutesAround(z, i, day);
    MinutesAround(z, i + 1, day);
    AtLeastAMinute(c + o - day * DAY);
    stop, at := d + q, d;
    if i + 2 < n { OverBeforeNext(z, i + 1); }
    SettledIs(z, stop, i + 2);
    SegmentOf(z, at, i + 2);
    assert stop - day * DAY == (c + o - day * DAY) + (q - p);
  }

  /** A calendar has twelve months. */
  ghost predicate TwelveMonths(almanac: Almanac)
  {
    forall day: int :: 1 <= almanac(day).month <= 12
  }

  /** One run, from midnight of a day for `length` seconds. */
  function MidnightRule(z: Zone, day: int, length: int): Spec
  {
    Spec(z, day, day, 0, length % DAY, length / DAY, 10.0, Once, [], 1, 1, [1, 2, 3, 4, 5, 6, 7, 8, 9, 10, 11, 12], [],
      [])
  }

  lemma LengthParts(length: int)
    requires 60 <= length <= 4 * DAY
    ensures 0 <= length / DAY <= 4 && length / DAY * DAY + length % DAY == length
    ensures length % 60 == 0 ==> TimeOfDay(length % DAY)
  {
    var days := length / DAY;
    assert days == 0 || days == 1 || days == 2 || days == 3 || days == 4;
  }

  lemma MidnightRuleIsValid(z: Zone, day: int, length: int)
    requires FIRST_DAY <= day <= LAST_DAY && length % 60 == 0 && 60 <= length <= 4 * DAY
    ensures
      var rule := MidnightRule(z, day, length);
      && FieldsValid(rule) && Coherent(rule)
      && Points(rule, day) == [day * DAY, day * DAY + length] && Frequencies(rule) == [10.0]
  {
    var rule := MidnightRule(z, day, length);
    LengthParts(length);
    assert (day + length / DAY) * DAY == day * DAY + length / DAY * DAY;
    assert Points(rule, day) == [day * DAY, day * DAY + length];
    assert Frequencies(rule) == [10.0];
  }

  /** Once its two local times resolve, the rule has exactly one run, whatever the calendar. */
  lemma MidnightRuleRuns(z: Zone, almanac: Almanac, day: int, length: int, from: int, to: int)
    requires TwelveMonths(almanac) && FIRST_DAY <= day <= LAST_DAY
    requires length % 60 == 0 && 60 <= length <= 4 * DAY && 60 <= to - from <= 4 * DAY
    requires CivilUtc(z, day * DAY) == Some(from) && CivilUtc(z, day * DAY + length) == Some(to)
    ensures
      var rule := MidnightRule(z, day, length);
      && FieldsValid(rule) && Coherent(rule)
      && forall d: int, r: Run ::
            RunOn(rule, almanac, d) == Some(r) <==> d == day && r == Run(from, to, [Step(10.0, to - from)])
  {
    hide FieldsValid, Coherent, Points, Frequencies, CivilUtc, RunBetween;
    var rule := MidnightRule(z, day, length);
    MidnightRuleIsValid(z, day, length);
    var instants := Resolve(z, Points(rule, day));
    assert instants == [Some(from), Some(to)];
    OneStepRun(10.0, from, to);
  }

  lemma OneStepRun(hz: real, from: int, to: int)
    requires 10 <= to - from <= MAX_SCHEDULE_SECONDS
    ensures RunBetween([hz], [Some(from), Some(to)]) == Some(Run(from, to, [Step(hz, to - from)]))
  {
    var us := Known([Some(from), Some(to)]);
    assert us == [from, to];
    var steps := StepsBetween([hz], us);
    assert steps == [Step(hz, to - from)];
    assert Through(steps, 1) == Through(steps, 0) + (to - from);
  }

  /** A horizon that ends while a day is still to come again misses a run on that day. */
  lemma MidnightRunIsMissed(z: Zone, almanac: Almanac, u: int, day: int, after: int, days: nat) returns (rule: Spec)
    requires Orderly(z) && Bounded(z) && WholeMinutes(z) && TwelveMonths(almanac) && FIRST_DAY <= day <= LAST_DAY
    requires u <= after + days * DAY && Date(z, after + days * DAY) < day <= Date(z, u)
    ensures rule.zone == z && FieldsValid(rule) && Coherent(rule)
    ensures Window(rule, almanac, after, days) == []
    ensures !WindowExact(rule, almanac, after, days) && ShareInstant(rule, rule, almanac, after, days)
  {
    hide FieldsValid, Coherent, Window, RunOn, CivilUtc, Date, ComesBack, Orderly, Bounded, WholeMinutes, TwelveMonths;
    var until := after + days * DAY;
    var i := DayReturns(z, u, until, day);
    var from, to, length := MidnightRunAround(z, i, day, until);
    rule := MidnightRule(z, day, length);
    var run := Run(from, to, [Step(10.0, to - from)]);
    MidnightRuleRuns(z, almanac, day, length, from, to);
    RunIsOutside(z, almanac, rule, run, after, days);
    assert RunOn(rule, almanac, day) == Some(run);
    assert IsRun(rule, almanac, run) && Running(run, Max(from, after));
  }

  /** From the first midnight of the day to after the horizon. */
  lemma MidnightRunAround(z: Zone, i: nat, day: int, until: int) returns (from: int, to: int, length: int)
    requires Orderly(z) && Bounded(z) && WholeMinutes(z)
    requires FIRST_DAY <= day && i < |z.changes| && ComesBack(z, i, day)
    requires z.changes[i].at <= until && Date(z, until) < day
    ensures CivilUtc(z, day * DAY) == Some(from) && CivilUtc(z, day * DAY + length) == Some(to)
    ensures length % 60 == 0 && 60 <= length <= 4 * DAY && 60 <= to - from <= 4 * DAY
    ensures until - 2 * DAY < from < until < to
  {
    hide CivilUtc, Date, ComesBack, Orderly, Bounded, WholeMinutes;
    var stop;
    stop, to := LaterTimeResolves(z, i, day);
    from := MidnightAt(z, i, day);
    length := stop - day * DAY;
    MidnightResolves(z, i, day);
    NoChangeBetween(z, i, day, until);
    SidesOfChange(z, i, day);
    OffsetInside(z, i);
    OffsetInside(z, i + 1);
    LengthIsWhole(day, stop);
  }

  lemma LengthIsWhole(day: int, stop: int)
    requires stop % 60 == 0
    ensures (stop - day * DAY) % 60 == 0
  {
    DaysAreMinutes(day);
    Minutes(stop, day * DAY);
  }

  lemma SomebodyOrEmpty(runs: seq<Run>)
    ensures runs == [] || exists r :: r in runs
  {
    if runs != [] { assert runs[0] in runs; }
  }

  lemma RunIsOutside(z: Zone, almanac: Almanac, rule: Spec, run: Run, after: int, days: nat)
    requires rule.zone == z && FieldsValid(rule) && Date(z, after + days * DAY) < rule.startDate
    requires forall day: int, r: Run ::
      RunOn(rule, almanac, day) == Some(r) <==> day == rule.startDate && r == run
    ensures Window(rule, almanac, after, days) == []
  {
    hide FieldsValid, RunOn, AllComing;
    var all := Window(rule, almanac, after, days);
    ComingExactly(rule, almanac, after - MAX_SCHEDULE_DAYS * DAY, Some(after + days * DAY));
    forall r: Run ensures r !in all {
      if day :| RunOn(rule, almanac, day) == Some(r) {
        EndsShowDates(rule, almanac, day);
      }
    }
    SomebodyOrEmpty(all);
  }

  // ---------------------------------------------------------------- exactly when the search is exact

  /** Every rule of the zone has an exact window at this horizon. */
  ghost predicate WindowsExact(z: Zone, almanac: Almanac, after: int, days: nat)
  {
    forall spec: Spec | spec.zone == z && FieldsValid(spec) && Coherent(spec) :: WindowExact(spec, almanac, after, days)
  }

  /** The search decides right for any two rules of the zone. */
  ghost predicate DecisionsExact(z: Zone, almanac: Almanac, after: int, days: nat)
  {
    forall left: Spec, right: Spec
      | && left.zone == z && FieldsValid(left) && Coherent(left)
        && right.zone == z && FieldsValid(right) && Coherent(right) ::
      PairMeets(Window(left, almanac, after, days), Window(right, almanac, after, days), after)
      == ShareInstant(left, right, almanac, after, days)
  }

  /** In a zone with whole-minute changes, for any calendar and any horizon: the windows of all rules
      are exact, and so are all overlap decisions, if and only if no date of the years 2000 to 2199
      that has come is still to come at the end of the horizon. */
  lemma ExactnessIsDateOrder(z: Zone, almanac: Almanac, after: int, days: nat)
    requires Orderly(z) && Bounded(z) && WholeMinutes(z) && TwelveMonths(almanac)
    ensures WindowsExact(z, almanac, after, days) <==> NoDateReturns(z, FIRST_DAY, LAST_DAY, after + days * DAY)
    ensures DecisionsExact(z, almanac, after, days) <==> NoDateReturns(z, FIRST_DAY, LAST_DAY, after + days * DAY)
  {
    hide FieldsValid, Coherent, Window, WindowExact, ShareInstant, PairMeets, Orderly, Bounded, WholeMinutes, Date,
      TwelveMonths;
    var until := after + days * DAY;
    if NoDateReturns(z, FIRST_DAY, LAST_DAY, until) {
      forall spec: Spec | spec.zone == z && FieldsValid(spec) && Coherent(spec)
        ensures WindowExact(spec, almanac, after, days)
      {
        RuleWithinPeriod(spec, until);
        WindowIsExact(spec, almanac, after, days);
      }
      forall left: Spec, right: Spec
        | && left.zone == z && FieldsValid(left) && Coherent(left)
          && right.zone == z && FieldsValid(right) && Coherent(right)
        ensures PairMeets(Window(left, almanac, after, days), Window(right, almanac, after, days), after)
                == ShareInstant(left, right, almanac, after, days)
      {
        MeetingIsSharing(left, right, almanac, after, days);
      }
    } else {
      var u: int :| u <= until && FIRST_DAY <= Date(z, u) && Date(z, until) < Min(Date(z, u), LAST_DAY);
      var rule := MidnightRunIsMissed(z, almanac, u, Min(Date(z, u), LAST_DAY), after, days);
      assert !WindowExact(rule, almanac, after, days);
      NothingMeets(Window(rule, almanac, after, days), after);
      assert PairMeets(Window(rule, almanac, after, days), Window(rule, almanac, after, days), after)
             != ShareInstant(rule, rule, almanac, after, days);
    }
  }

  /** What holds of the whole period holds of a rule's own dates. */
  lemma RuleWithinPeriod(spec: Spec, until: int)
    requires Coherent(spec) && NoDateReturns(spec.zone, FIRST_DAY, LAST_DAY, until)
    ensures HorizonOk(spec, until)
  {
    hide Date;
  }

  lemma NothingMeets(runs: seq<Run>, after: int)
    requires runs == []
    ensures !PairMeets(runs, runs, after)
  {
  }

  const STEP := 1289097060

  /** St. John's in November 2010: at 00:01 the clock steps back to 23:01 of the day before. */
  const STEPS_OVER_MIDNIGHT := Zone(-9000, [Change(STEP, -12600)])

  /** The change comes a minute into day 14920. */
  lemma DatesAroundStep(u: int)
    ensures Local(STEPS_OVER_MIDNIGHT, u) == if u < STEP then u - 9000 else u - 12600
    ensures Date(STEPS_OVER_MIDNIGHT, u) >= 14920 <==> STEP - 60 <= u < STEP || STEP + 3540 <= u
  {
    assert STEP - 9000 == 14920 * DAY + 60;
  }

  /** Such zones exist, and the horizons at fault are those that end within the repeated hour. */
  lemma SomeZoneStepsBack(until: int)
    ensures Orderly(STEPS_OVER_MIDNIGHT) && Bounded(STEPS_OVER_MIDNIGHT) && WholeMinutes(STEPS_OVER_MIDNIGHT)
    ensures NoDateReturns(STEPS_OVER_MIDNIGHT, FIRST_DAY, LAST_DAY, until) <==> !(STEP <= until < STEP + 3540)
  {
    hide Date, Local;
    var z := STEPS_OVER_MIDNIGHT;
    DatesAroundStep(until);
    if STEP <= until < STEP + 3540 {
      DatesAroundStep(STEP - 60);
    } else {
      forall u: int | u <= until ensures Date(z, u) <= Date(z, until) {
        LaterHereOrBefore(u, until);
      }
    }
  }

  lemma LaterHereOrBefore(u: int, until: int)
    requires u <= until && !(STEP <= until < STEP + 3540)
    ensures Date(STEPS_OVER_MIDNIGHT, u) <= Date(STEPS_OVER_MIDNIGHT, until)
  {
    hide Passed, Local;
    DatesAroundStep(u);
    DatesAroundStep(until);
  }
}
