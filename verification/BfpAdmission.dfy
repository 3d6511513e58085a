/** Response-time admission of the budgeted fixed-priority policy. */
module BfpAdmission {
  import opened Arithmetic

  datatype Task = Task(priority: nat, period: nat, budget: nat)

  const MAX_ITERATIONS := 64

  /** What `bfp_normalize_us` lets through. */
  predicate TaskOk(t: Task) { 0 < t.budget <= t.period }

  predicate TasksOk(tasks: seq<Task>) { forall i :: 0 <= i < |tasks| ==> TaskOk(tasks[i]) }

  function Jobs(t: nat, period: nat): nat
    requires period > 0
  {
    t / period + if t % period != 0 then 1 else 0
  }

  predicate Interferes(tasks: seq<Task>, i: nat, j: nat)
    requires i < |tasks| && j < |tasks|
  {
    j != i && tasks[j].priority >= tasks[i].priority
  }

  /** The interference that tasks below index `n` cause to task `i` within a time `t`. */
  function Interference(tasks: seq<Task>, i: nat, t: nat, n: nat): nat
    requires TasksOk(tasks) && i < |tasks| && n <= |tasks|
  {
    if n == 0 then 0
    else Interference(tasks, i, t, n - 1) +
         if Interferes(tasks, i, n - 1) then Jobs(t, tasks[n - 1].period) * tasks[n - 1].budget else 0
  }

  /** The work released at priority `i` or above within `t`, when all are released together. */
  function Demand(tasks: seq<Task>, i: nat, t: nat): nat
    requires TasksOk(tasks) && i < |tasks|
  {
    tasks[i].budget + Interference(tasks, i, t, |tasks|)
  }

  lemma JobsMonotone(t: nat, u: nat, period: nat)
    requires period > 0 && t <= u
    ensures Jobs(t, period) <= Jobs(u, period)
  {
    DivMod(t, period);
    DivMod(u, period);
    if t / period > u / period {
      MulMonotone(period, u / period + 1, t / period);
      assert false;
    }
    if t / period == u / period {
      assert t % period <= u % period;
    }
  }

  lemma {:induction false} InterferenceMonotone(tasks: seq<Task>, i: nat, t: nat, u: nat, n: nat)
    requires TasksOk(tasks) && i < |tasks| && n <= |tasks| && t <= u
    ensures Interference(tasks, i, t, n) <= Interference(tasks, i, u, n)
  {
    if n > 0 {
      InterferenceMonotone(tasks, i, t, u, n - 1);
      JobsMonotone(t, u, tasks[n - 1].period);
      MulMonotone(tasks[n - 1].budget, Jobs(t, tasks[n - 1].period), Jobs(u, tasks[n - 1].period));
    }
  }

  /** No time below `r` is enough. */
  ghost predicate TooShort(tasks: seq<Task>, i: nat, r: nat)
    requires TasksOk(tasks) && i < |tasks|
  {
    forall t: nat {:trigger Demand(tasks, i, t)} :: t < r ==> Demand(tasks, i, t) > t
  }

  /** One step of the recurrence keeps below the least fixed point. */
  lemma StepTooShort(tasks: seq<Task>, i: nat, r: nat)
    requires TasksOk(tasks) && i < |tasks| && TooShort(tasks, i, r)
    ensures TooShort(tasks, i, Demand(tasks, i, r))
    ensures r <= Demand(tasks, i, r) ==> Demand(tasks, i, r) <= Demand(tasks, i, Demand(tasks, i, r))
  {
    var d := Demand(tasks, i, r);
    forall t: nat | t < d
      ensures Demand(tasks, i, t) > t
    {
      if t >= r {
        InterferenceMonotone(tasks, i, r, t, |tasks|);
      }
    }
    if r <= d {
      InterferenceMonotone(tasks, i, r, d, |tasks|);
    }
  }

  datatype Verdict = Accepted(response: nat) | TooLate | NotConverged

  /** `bfp_validate_response_time`. An accepted response is the least fixed point of the demand and
      within the period; a task is turned down as too late only if no time within its period is enough. */
  method ValidateResponseTime(tasks: seq<Task>, i: nat) returns (v: Verdict)
    requires TasksOk(tasks) && i < |tasks|
    ensures v.Accepted? ==>
              Demand(tasks, i, v.response) == v.response <= tasks[i].period && TooShort(tasks, i, v.response)
    ensures v.TooLate? ==> TooShort(tasks, i, tasks[i].period + 1)
    ensures v.NotConverged? ==> TooShort(tasks, i, MAX_ITERATIONS)
  {
    hide Jobs;
    var response: nat := tasks[i].budget;
    for iteration := 0 to MAX_ITERATIONS
      invariant TooShort(tasks, i, response) && iteration <= response <= tasks[i].period
      invariant response <= Demand(tasks, i, response)
    {
      var demand: nat := tasks[i].budget;
      for j := 0 to |tasks|
        invariant demand == tasks[i].budget + Interference(tasks, i, response, j)
      {
        demand := AddInterference(tasks, i, response, j, demand);
      }
      StepTooShort(tasks, i, response);
      if demand > tasks[i].period {
        assert TooShort(tasks, i, tasks[i].period + 1);
        return TooLate;
      }
      if demand == response {
        return Accepted(response);
      }
      response := demand;
    }
    return NotConverged;
  }

  method AddInterference(tasks: seq<Task>, i: nat, response: nat, j: nat, demand: nat) returns (r: nat)
    requires TasksOk(tasks) && i < |tasks| && j < |tasks|
    requires demand == tasks[i].budget + Interference(tasks, i, response, j)
    ensures r == tasks[i].budget + Interference(tasks, i, response, j + 1)
  {
    r := demand;
    if j == i || tasks[j].priority < tasks[i].priority {
      return;
    }
    var jobs := response / tasks[j].period;
    if response % tasks[j].period != 0 {
      jobs := jobs + 1;
    }
    r := r + jobs * tasks[j].budget;
  }
}
