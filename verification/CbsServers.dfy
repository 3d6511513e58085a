/** The Constant Bandwidth Server rules of one scheduling object.

    `charged` and `origin` are observers: the runtime charged so far and the tick at
    which the server was set up.  Ticks are unbounded naturals. */
module CbsServers {
  import opened Arithmetic

  datatype Server = Server(
    period: nat, budget: nat, remaining: nat, deadline: nat, lastStart: nat, charged: nat, origin: nat)

  predicate Valid(s: Server) { 0 < s.budget <= s.period }

  /** `sched_cbs_init_data`. */
  function Fresh(period: nat, budget: nat, now: nat): Server {
    Server(period, budget, budget, now + period, 0, 0, now)
  }

  /** The bandwidth bound: what was charged and may still be charged before the deadline
      never exceeds the reserved share of the time since the server was set up. */
  predicate Bounded(s: Server) {
    s.period * (s.charged + s.remaining) <= s.budget * (s.deadline - s.origin)
  }

  // ------------------------------------------------- the rules, in closed form

  function FromNow(s: Server, now: nat): Server {
    s.(deadline := now + s.period, remaining := s.budget)
  }

  function NextWindow(s: Server): Server {
    s.(deadline := s.deadline + s.period, remaining := s.budget)
  }

  /** Windows a depleted server moves on: at least one, and until its deadline is ahead. */
  function WindowsUntil(s: Server, now: nat): (k: nat)
    requires s.period > 0
  {
    if now < s.deadline then 1 else (now - s.deadline) / s.period + 1
  }

  /** `cbs_replenish_after_depletion`. */
  function AfterDepletion(s: Server, now: nat): Server
    requires s.period > 0
  {
    if s.deadline == 0 then FromNow(s, now)
    else s.(deadline := s.deadline + WindowsUntil(s, now) * s.period, remaining := s.budget)
  }

  /** Budgets of size `budget` needed beyond `remaining` to cover `delta`. */
  function Windows(remaining: nat, budget: nat, delta: nat): nat
    requires budget > 0
  {
    if delta <= remaining then 0 else (delta - remaining + budget - 1) / budget
  }

  lemma WindowsCover(remaining: nat, budget: nat, delta: nat)
    requires budget > 0
    ensures remaining + Windows(remaining, budget, delta) * budget >= delta
    ensures Windows(remaining, budget, delta) > 0 ==>
              remaining + (Windows(remaining, budget, delta) - 1) * budget < delta
  {
    if delta > remaining {
      var x := delta - remaining + budget - 1;
      assert x == budget * (x / budget) + x % budget;
    }
  }

  /** `cbs_charge_runtime`: the deadline moves one period for every budget drawn. */
  function Charged(s: Server, delta: nat): Server
    requires Valid(s)
  {
    var n := Windows(s.remaining, s.budget, delta);
    WindowsCover(s.remaining, s.budget, delta);
    s.(remaining := s.remaining + n * s.budget - delta, deadline := s.deadline + n * s.period,
       charged := s.charged + delta)
  }

  /** `cbs_ratio_greater` on the 128-bit branch: an exact cross product. */
  predicate RatioGreater(ln: nat, ld: nat, rn: nat, rd: nat) { ln * rd > rn * ld }

  predicate NeedsWakeReplenish(s: Server, now: nat) {
    s.deadline <= now || RatioGreater(s.remaining, s.deadline - now, s.budget, s.period)
  }

  /** `cbs_refresh_active_window`. */
  function Refreshed(s: Server, now: nat): Server
    requires s.period > 0
  {
    if s.remaining == 0 then AfterDepletion(s, now)
    else if s.deadline <= now then FromNow(s, now)
    else s
  }

  /** `cbs_apply_inactive_wake_rule`. */
  function Woken(s: Server, now: nat): Server
    requires s.period > 0
  {
    if s.remaining == 0 then AfterDepletion(s, now)
    else if NeedsWakeReplenish(s, now) then FromNow(s, now)
    else s
  }

  // ------------------------------------------------------- charging by windows

  /** Drawing a budget early does not change the outcome of a charge. */
  lemma ChargeFromEmpty(s: Server, delta: nat)
    requires Valid(s) && s.remaining == 0 && delta > 0
    ensures Charged(NextWindow(s), delta) == Charged(s, delta)
  {
    var b := s.budget;
    var n := Windows(0, b, delta);
    if delta <= b {
      OneWindow(b, delta);
    } else {
      AddOneWindow(b, delta - b);
      assert n == Windows(b, b, delta) + 1;
      assert n * b == Windows(b, b, delta) * b + b;
      assert n * s.period == Windows(b, b, delta) * s.period + s.period;
    }
  }

  lemma OneWindow(b: nat, delta: nat)
    requires 0 < delta <= b
    ensures Windows(0, b, delta) == 1
  {
    DivUnique(delta + b - 1, b, 1, delta - 1);
  }

  lemma AddOneWindow(b: nat, rest: nat)
    requires b > 0 && rest > 0
    ensures Windows(0, b, rest + b) == Windows(0, b, rest) + 1
  {
    var x := rest + b - 1;
    var q := x / b;
    assert x + b == b * (q + 1) + x % b;
    DivUnique(x + b, b, q + 1, x % b);
  }

  /** Charging the rest of the budget first does not either. */
  lemma ChargeRest(s: Server, delta: nat)
    requires Valid(s) && delta >= s.remaining
    ensures Charged(s.(remaining := 0, charged := s.charged + s.remaining), delta - s.remaining) == Charged(s, delta)
  {
  }

  // --------------------------------------------------------- bandwidth bound

  lemma FreshBounded(period: nat, budget: nat, now: nat)
    ensures Bounded(Fresh(period, budget, now))
  {
  }

  lemma ChargedBounded(s: Server, delta: nat)
    requires Valid(s) && Bounded(s)
    ensures Bounded(Charged(s, delta))
  {
    var n := Windows(s.remaining, s.budget, delta);
    WindowsCover(s.remaining, s.budget, delta);
    var s' := Charged(s, delta);
    assert s'.charged + s'.remaining == (s.charged + s.remaining) + n * s.budget;
    MoveWindows(s.period, s.budget, s.charged + s.remaining, s.deadline - s.origin, n);
  }

  /** `n` more budgets against `n` more periods keep the bound. */
  lemma MoveWindows(t: nat, q: nat, e: int, d: int, n: nat)
    requires t * e <= q * d
    ensures t * (e + n * q) <= q * (d + n * t)
  {
    assert t * (e + n * q) == t * e + t * (n * q);
    assert q * (d + n * t) == q * d + q * (n * t);
    assert t * (n * q) == n * (t * q) == q * (n * t);
  }

  lemma AfterDepletionBounded(s: Server, now: nat)
    requires Valid(s) && Bounded(s) && s.remaining == 0
    ensures Bounded(AfterDepletion(s, now))
    ensures AfterDepletion(s, now).deadline > now
  {
    if s.deadline == 0 {
      FromNowBounded(s, now);
    } else {
      var k := WindowsUntil(s, now);
      MoveWindows(s.period, s.budget, s.charged, s.deadline - s.origin, k);
      assert s.period * (s.charged + s.budget) <= s.period * (s.charged + k * s.budget) by {
        assert k * s.budget >= s.budget;
        MulMonotone(s.period, s.charged + s.budget, s.charged + k * s.budget);
      }
      if now >= s.deadline {
        var x := now - s.deadline;
        assert x == s.period * (x / s.period) + x % s.period;
        assert k * s.period == s.period * (x / s.period) + s.period;
      }
    }
  }

  /** Restarting at `now` keeps the bound whenever the charge so far fits the time so far. */
  lemma FromNowFits(s: Server, now: nat)
    requires s.period * s.charged <= s.budget * (now - s.origin)
    ensures Bounded(FromNow(s, now))
  {
    assert s.period * (s.charged + s.budget) == s.period * s.charged + s.period * s.budget;
    assert s.budget * (now + s.period - s.origin) == s.budget * (now - s.origin) + s.budget * s.period;
  }

  lemma FromNowBounded(s: Server, now: nat)
    requires Bounded(s) && s.deadline <= now
    ensures Bounded(FromNow(s, now))
  {
    MulMonotone(s.period, s.charged, s.charged + s.remaining);
    MulMonotone(s.budget, s.deadline - s.origin, now - s.origin);
    FromNowFits(s, now);
  }

  /** The density test is exactly what makes the restart safe. */
  lemma DenseRestartBounded(s: Server, now: nat)
    requires Bounded(s) && s.deadline > now
    requires RatioGreater(s.remaining, s.deadline - now, s.budget, s.period)
    ensures Bounded(FromNow(s, now))
  {
    assert s.period * (s.charged + s.remaining) == s.period * s.charged + s.remaining * s.period;
    assert s.budget * (s.deadline - s.origin) == s.budget * (s.deadline - now) + s.budget * (now - s.origin);
    FromNowFits(s, now);
  }

  lemma RefreshedBounded(s: Server, now: nat)
    requires Valid(s) && Bounded(s)
    ensures Bounded(Refreshed(s, now))
    ensures Refreshed(s, now).remaining > 0 && Refreshed(s, now).deadline > now
  {
    if s.remaining == 0 {
      AfterDepletionBounded(s, now);
    } else if s.deadline <= now {
      FromNowBounded(s, now);
    }
  }

  lemma WokenBounded(s: Server, now: nat)
    requires Valid(s) && Bounded(s)
    ensures Bounded(Woken(s, now))
    ensures Woken(s, now).remaining > 0 && Woken(s, now).deadline > now
  {
    if s.remaining == 0 {
      AfterDepletionBounded(s, now);
    } else if s.deadline <= now {
      FromNowBounded(s, now);
    } else if NeedsWakeReplenish(s, now) {
      DenseRestartBounded(s, now);
    }
  }

  datatype Event = Charge(delta: nat) | Refresh(now: nat) | Wake(now: nat)

  function Step(s: Server, e: Event): (r: Server)
    requires Valid(s)
    ensures Valid(r)
  {
    match e
    case Charge(delta) => Charged(s, delta)
    case Refresh(now) => Refreshed(s, now)
    case Wake(now) => Woken(s, now)
  }

  function Run(s: Server, es: seq<Event>): (r: Server)
    requires Valid(s)
    ensures Valid(r)
    decreases |es|
  {
    if es == [] then s else Run(Step(s, es[0]), es[1..])
  }

  function TotalCharged(es: seq<Event>): nat {
    if es == [] then 0 else (if es[0].Charge? then es[0].delta else 0) + TotalCharged(es[1..])
  }

  lemma {:induction false} RunBounded(s: Server, es: seq<Event>)
    requires Valid(s) && Bounded(s)
    ensures Bounded(Run(s, es))
    ensures Run(s, es).charged == s.charged + TotalCharged(es)
    ensures Run(s, es).(remaining := 0, deadline := 0, charged := 0) == s.(remaining := 0, deadline := 0, charged := 0)
    decreases |es|
  {
    if es != [] {
      match es[0] {
        case Charge(delta) => ChargedBounded(s, delta);
        case Refresh(now) => RefreshedBounded(s, now);
        case Wake(now) => WokenBounded(s, now);
      }
      RunBounded(Step(s, es[0]), es[1..]);
    }
  }

  /** The bandwidth theorem: however charging, refreshing and waking interleave, and whatever
      the clock values, the runtime charged plus the budget left fits in the reserved share of
      the time from set-up to the current deadline. */
  lemma BandwidthBound(period: nat, budget: nat, t0: nat, es: seq<Event>)
    requires 0 < budget <= period
    ensures var s := Run(Fresh(period, budget, t0), es);
            period * (TotalCharged(es) + s.remaining) <= budget * (s.deadline - t0)
  {
    FreshBounded(period, budget, t0);
    RunBounded(Fresh(period, budget, t0), es);
  }

  // ------------------------------------------------------- density after a wake

  /** After a wake, is the remaining budget within its share of the time to the deadline? */
  predicate DensityKept(s: Server, now: nat) { s.period * s.remaining <= s.budget * (s.deadline - now) }

  /** The wake rule is documented to keep the density at most Q/T.  It does, except for a server
      that slept with its budget exactly used up and wakes after its deadline, off the period
      grid of that deadline: then the depletion branch hands out a whole budget for the part
      of a period that is left. */
  lemma WakeDensity(s: Server, now: nat)
    requires Valid(s)
    ensures DensityKept(Woken(s, now), now)
            <==> !(s.remaining == 0 && 0 < s.deadline <= now && (now - s.deadline) % s.period != 0)
  {
    if s.remaining == 0 {
      DepletedDensity(s, now);
    }
  }

  lemma DepletedDensity(s: Server, now: nat)
    requires Valid(s)
    ensures DensityKept(AfterDepletion(s, now), now) <==> !(0 < s.deadline <= now && (now - s.deadline) % s.period != 0)
  {
    var w := AfterDepletion(s, now);
    if s.deadline != 0 && now < s.deadline {
      MulMonotone(s.budget, s.period, w.deadline - now);
    }
    if 0 < s.deadline <= now {
      var x := now - s.deadline;
      GridDistance(x, s.period);
      ShareOfRest(s.period, s.budget, x % s.period);
    }
  }

  /** The next point of the grid after `x` is `t - x % t` away. */
  lemma GridDistance(x: nat, t: nat)
    requires t > 0
    ensures (x / t + 1) * t - x == t - x % t
  {
    DivMod(x, t);
    assert (x / t + 1) * t == t * (x / t) + t;
  }

  lemma ShareOfRest(t: nat, q: nat, r: nat)
    requires q > 0
    ensures t * q <= q * (t - r) <==> r == 0
  {
    assert q * (t - r) == t * q - q * r;
    assert r > 0 ==> q * r > 0;
  }

  /** Q = 2, T = 4, set up at 6: a server that runs its budget and sleeps has nothing left and deadline 10;
      waking at 11 gives 2 ticks within 3. */
  lemma DenseWake()
    ensures var s := Run(Fresh(4, 2, 6), [Charge(2), Wake(11)]);
            s.deadline == 14 && s.remaining == 2 && !DensityKept(s, 11)
  {
    var s := Fresh(4, 2, 6);
    assert Charged(s, 2) == s.(remaining := 0, charged := 2);
    assert Woken(Charged(s, 2), 11) == s.(remaining := 2, charged := 2, deadline := 14);
    var es := [Charge(2), Wake(11)];
    assert es[1..] == [Wake(11)] && [Wake(11)][1..] == [];
  }

  // ------------------------------------------------------------ the loops

  /** The loop of `cbs_charge_runtime` rolls through the windows one at a time. */
  method ChargeRuntime(s: Server, delta: nat) returns (r: Server)
    requires Valid(s)
    ensures r == Charged(s, delta)
  {
    var left: nat := delta;
    r := s;
    while left != 0
      invariant Valid(r) && Charged(r, left) == Charged(s, delta)
      decreases left
    {
      if r.remaining == 0 {
        ChargeFromEmpty(r, left);
        r := r.(deadline := r.deadline + r.period, remaining := r.budget);
      }
      if left < r.remaining {
        r := r.(remaining := r.remaining - left, charged := r.charged + left);
        break;
      }
      ChargeRest(r, left);
      left := left - r.remaining;
      r := r.(remaining := 0, charged := r.charged + r.remaining);
    }
  }

  /** The do-while of `cbs_replenish_after_depletion`. */
  method ReplenishAfterDepletion(s: Server, now: nat) returns (r: Server)
    requires Valid(s)
    ensures r == AfterDepletion(s, now)
  {
    if s.deadline == 0 {
      return s.(deadline := now + s.period, remaining := s.budget);
    }
    r := s.(deadline := s.deadline + s.period, remaining := s.budget);
    ghost var k := 1;
    while r.deadline <= now
      invariant k >= 1 && r == s.(deadline := s.deadline + k * s.period, remaining := s.budget)
      invariant k > 1 ==> s.deadline + (k - 1) * s.period <= now
      decreases now + s.period - r.deadline
    {
      ghost var next := (k + 1) * s.period;
      assert next == k * s.period + s.period;
      r := r.(deadline := r.deadline + r.period);
      k := k + 1;
    }
    LeastWindows(s, now, k);
  }

  lemma LeastWindows(s: Server, now: nat, k: nat)
    requires Valid(s) && k >= 1
    requires s.deadline + k * s.period > now
    requires k > 1 ==> s.deadline + (k - 1) * s.period <= now
    ensures k == WindowsUntil(s, now)
  {
    assert k * s.period == s.period * (k - 1) + s.period;
    if k > 1 {
      DivUnique(now - s.deadline, s.period, k - 1, now - s.deadline - s.period * (k - 1));
    } else if now >= s.deadline {
      DivUnique(now - s.deadline, s.period, 0, now - s.deadline);
    }
  }
}
