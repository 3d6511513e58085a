/** Period accounting of the budgeted fixed-priority policy. */
module BfpAccounting {
  import opened Arithmetic

  /** `next` is the next replenishment; ticks do not saturate. */
  datatype Data = Data(
    period: nat, budget: nat, remaining: nat, next: nat, lastStart: nat, replenished: nat, overruns: nat, priority: nat)

  predicate Valid(d: Data) { 0 < d.budget <= d.period && d.remaining <= d.budget }

  /** `bfp_charge_current_period`. */
  function Charge(d: Data, delta: nat): Data {
    if delta > d.remaining then d.(remaining := 0, overruns := d.overruns + 1)
    else d.(remaining := d.remaining - delta)
  }

  function Replenish(d: Data): Data {
    d.(remaining := d.budget, next := d.next + d.period, replenished := d.replenished + 1)
  }

  /** The simple form: charge up to each boundary, replenish there, and go on. */
  function ChargeByPeriods(d: Data, from: nat, now: nat): Data
    requires d.period > 0 && from <= d.next && from <= now
    decreases if now < d.next then 0 else now - d.next + 1
  {
    if now < d.next then Charge(d, now - from)
    else ChargeByPeriods(Replenish(Charge(d, d.next - from)), d.next, now)
  }

  function Times(k: nat, period: nat): nat { k * period }

  /** `n` whole periods of running later: one overrun for each the budget does not fill. */
  function Passed(d: Data, n: nat): Data {
    d.(next := d.next + Times(n, d.period), replenished := d.replenished + n,
       overruns := d.overruns + if d.budget < d.period then n else 0)
  }

  /** A run of full periods from a fresh boundary, in closed form. */
  lemma {:induction false} FullPeriods(d: Data, now: nat)
    requires Valid(d) && d.remaining == d.budget && d.period <= d.next && d.next - d.period <= now
    ensures var elapsed := now - (d.next - d.period);
            var n := elapsed / d.period;
            ChargeByPeriods(d, d.next - d.period, now) == Charge(Passed(d, n), elapsed % d.period)
    decreases now - (d.next - d.period)
  {
    hide Times;
    var elapsed := now - (d.next - d.period);
    var n := elapsed / d.period;
    TimesStep(n, d.period);
    PeriodLess(elapsed, d.period);
    if elapsed >= d.period {
      FullPeriods(Replenish(Charge(d, d.period)), now);
    }
  }

  lemma TimesStep(n: nat, p: nat)
    ensures Times(0, p) == 0 && (n > 0 ==> Times(n, p) == Times(n - 1, p) + p)
  {
    if n > 0 {
      MulStep(n - 1, p);
    }
  }

  lemma PeriodLess(v: nat, p: nat)
    requires p > 0
    ensures v < p ==> v / p == 0 && v % p == v
    ensures v >= p ==> v / p > 0 && (v - p) / p == v / p - 1 && (v - p) % p == v % p
  {
    DivMod(v, p);
    if v >= p {
      assert p * (v / p - 1) == p * (v / p) - p;
      assert v / p > 0;
      DivUnique(v - p, p, v / p - 1, v % p);
    } else {
      DivUnique(v, p, 0, v);
    }
  }

  /** `bfp_account_runtime` for a running thread. The constant-time catch-up over missed periods is
      the period-by-period form: same remaining budget, boundary, replenishments and overruns. */
  method AccountRuntime(d: Data, now: nat) returns (r: Data)
    requires Valid(d) && d.lastStart <= d.next
    ensures r == if d.lastStart == 0 || now <= d.lastStart then d
                 else ChargeByPeriods(d.(lastStart := now), d.lastStart, now)
  {
    r := d;
    if r.lastStart == 0 || now <= r.lastStart {
      return;
    }
    var start := r.lastStart;
    r := r.(lastStart := now);
    var boundary := r.next;
    if now < boundary {
      return Charge(r, now - start);
    }
    if start < boundary {
      r := Charge(r, boundary - start);
    }
    r := CatchUp(r, now);
  }

  /** The part of the accounting after the boundary that was crossed first. */
  method CatchUp(d: Data, now: nat) returns (r: Data)
    requires Valid(d) && d.next <= now
    ensures r == ChargeByPeriods(Replenish(d), d.next, now)
  {
    hide ChargeByPeriods;
    var elapsed := now - d.next;
    var full := elapsed / d.period;
    var phase := elapsed % d.period;
    var replenishments := full + 1;
    FullPeriods(Replenish(d), now);
    MulStep(full, d.period);
    r := d.(next := d.next + replenishments * d.period, replenished := d.replenished + replenishments);
    if full != 0 && r.budget < r.period {
      r := r.(overruns := r.overruns + full);
    }
    if phase > r.budget {
      r := r.(remaining := 0, overruns := r.overruns + 1);
    } else {
      r := r.(remaining := r.budget - phase);
    }
  }

  /** `bfp_advance_inactive_period`. */
  function Advanced(d: Data, now: nat): Data
    requires d.period > 0
  {
    if now < d.next then d
    else
      var periods := (now - d.next) / d.period + 1;
      d.(next := d.next + periods * d.period, remaining := d.budget, replenished := d.replenished + periods)
  }

  /** Skipping inactive periods lands on the first boundary of the same grid after `now`. */
  lemma AdvancedIsNext(d: Data, now: nat)
    requires Valid(d)
    ensures var r := Advanced(d, now);
            && Valid(r) && now < r.next
            && OnGrid(d, r)
            && (r != d ==> r.next - d.period <= now && r.remaining == d.budget)
  {
    if now >= d.next {
      DivMod(now - d.next, d.period);
      var n := (now - d.next) / d.period;
      assert (n + 1) * d.period == d.period * n + d.period;
    }
  }

  /** Charging keeps the grid, never passes the budget, and leaves the boundary ahead. */
  lemma {:induction false} ChargedKeeps(d: Data, from: nat, now: nat)
    requires Valid(d) && from <= d.next && from <= now
    ensures var r := ChargeByPeriods(d, from, now);
            && Valid(r) && now < r.next && r.replenished >= d.replenished
            && OnGrid(d, r)
            && (r.replenished == d.replenished ==> r.remaining <= d.remaining)
            && (r.period, r.budget, r.priority, r.lastStart) == (d.period, d.budget, d.priority, d.lastStart)
    decreases if now < d.next then 0 else now - d.next + 1
  {
    hide OnGrid;
    if now >= d.next {
      var d1 := Replenish(Charge(d, d.next - from));
      ChargedKeeps(d1, d.next, now);
      OnGridThen(d, d1, ChargeByPeriods(d1, d.next, now));
    } else {
      OnGridSelf(d, Charge(d, now - from));
    }
  }

  /** Budget comes back only by crossing the boundary that was next. */
  lemma BudgetOnlyAtBoundary(d: Data, from: nat, now: nat)
    requires Valid(d) && from <= d.next && from <= now
    ensures ChargeByPeriods(d, from, now).remaining > d.remaining ==> now >= d.next
    ensures Advanced(d, now).remaining > d.remaining ==> now >= d.next
  {
    ChargedKeeps(d, from, now);
  }

  /** The boundary moved by one period per replenishment. */
  ghost predicate OnGrid(d: Data, r: Data) {
    r.replenished >= d.replenished && r.next == d.next + (r.replenished - d.replenished) * d.period
  }

  /** A multiple of the period. */
  ghost predicate Aligned(next: nat, period: nat) { exists k: nat :: next == Times(k, period) }

  /** `bfp_next_period_boundary`. */
  function NextBoundary(now: nat, period: nat): nat
    requires period > 0
  {
    (now / period + 1) * period
  }

  /** The first multiple of the period after `now`. */
  lemma BoundaryAhead(now: nat, period: nat)
    requires period > 0
    ensures now < NextBoundary(now, period) <= now + period && Aligned(NextBoundary(now, period), period)
  {
    DivMod(now, period);
    MulStep(now / period, period);
    assert NextBoundary(now, period) == Times(now / period + 1, period);
  }

  /** `sched_bfp_init_data`. */
  function Fresh(period: nat, budget: nat, priority: nat, now: nat): Data
    requires period > 0
  {
    Data(period, budget, budget, NextBoundary(now, period), 0, 0, 0, priority)
  }

  lemma GridAligned(d: Data, r: Data)
    requires OnGrid(d, r) && Aligned(d.next, d.period)
    ensures Aligned(r.next, d.period)
  {
    var k: nat :| d.next == Times(k, d.period);
    var n := r.replenished - d.replenished;
    assert k * d.period + n * d.period == (k + n) * d.period;
    assert r.next == Times(k + n, d.period);
  }

  lemma OnGridSelf(d: Data, r: Data)
    requires r.next == d.next && r.replenished == d.replenished
    ensures OnGrid(d, r)
  {
  }

  lemma OnGridThen(d: Data, d1: Data, r: Data)
    requires d1.next == d.next + d.period && d1.replenished == d.replenished + 1 && d1.period == d.period
             && OnGrid(d1, r)
    ensures OnGrid(d, r)
  {
    MulStep(r.replenished - d1.replenished, d.period);
  }
}
