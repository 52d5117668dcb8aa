/** Bounded holding programs and calendar runs: the plan data both sides of the wire share. */
module Plans {

  const MAX_STEPS := 8
  const MAX_PROGRAM_SECONDS := 86400
  const MAX_SCHEDULE_DAYS := 7
  const MAX_SCHEDULE_SECONDS := MAX_SCHEDULE_DAYS * 86400
  const TRANSITION_SECONDS := 60

  datatype Step = Step(hz: real, seconds: int)

  /** One calendar execution: its UTC bounds in seconds and the steps that fill them. */
  datatype Run = Run(startsAt: int, stopsAt: int, steps: seq<Step>)

  /** Seconds held by the first `k` steps. */
  function Through(steps: seq<Step>, k: nat): int
    requires k <= |steps|
  {
    if k == 0 then 0 else Through(steps, k - 1) + steps[k - 1].seconds
  }

  function Total(steps: seq<Step>): int { Through(steps, |steps|) }

  /** The limits a plan of steps must meet; `longest` bounds a step and the whole plan. */
  predicate ValidSteps(steps: seq<Step>, longest: int)
  {
    && 1 <= |steps| <= MAX_STEPS
    && (forall i | 0 <= i < |steps| :: 0.0 < steps[i].hz <= 100.0 && 10 <= steps[i].seconds <= longest)
    && Total(steps) <= longest
  }

  predicate ValidRun(run: Run)
  {
    ValidSteps(run.steps, MAX_SCHEDULE_SECONDS) && run.stopsAt - run.startsAt == Total(run.steps)
  }

  /** How long a program may take: every transition and the final stop have a deadline too. */
  function ProgramTimeout(steps: seq<Step>): int
  {
    Total(steps) + (|steps| + 1) * TRANSITION_SECONDS + 120
  }

  lemma {:induction false} ThroughIncreases(steps: seq<Step>, i: nat, j: nat)
    requires i <= j <= |steps| && forall k | 0 <= k < |steps| :: steps[k].seconds >= 1
    ensures Through(steps, i) + (j - i) <= Through(steps, j)
    decreases j
  {
    if i < j { ThroughIncreases(steps, i, j - 1); }
  }
}
