/** The per-pCPU ready and depleted queues of the budgeted fixed-priority policy. */
module BfpRunqueue {
  import opened BfpAccounting
  import opened Common
  import opened OrderedQueues
  import opened PolicyThreads

  type Threads = map<Tid, PolicyThread<Data>>

  /** The ready queue goes by falling priority, the depleted one by replenishment. */
  function ByPriority(threads: Threads): Tid -> int {
    t => if t in threads then -(threads[t].data.priority as int) else 0
  }

  function ByBoundary(threads: Threads): Tid -> int { t => if t in threads then threads[t].data.next else 0 }

  predicate Fit(threads: Threads, curr: Option<Tid>, t: Tid) {
    Active(threads, curr, t) && threads[t].data.remaining > 0
  }

  predicate Spent(threads: Threads, curr: Option<Tid>, t: Tid) {
    Active(threads, curr, t) && threads[t].data.remaining == 0
  }

  /** Budgets are sound, nobody started to run behind the boundary that comes next, and boundaries are
      multiples of the period. */
  ghost predicate DataOk(threads: Threads) {
    forall t :: t in threads ==>
      && Valid(threads[t].data) && threads[t].data.lastStart <= threads[t].data.next
      && Aligned(threads[t].data.next, threads[t].data.period)
  }

  ghost predicate Base(threads: Threads, curr: Option<Tid>) { DataOk(threads) && StatusOk(threads, curr) }

  ghost predicate AllFit(threads: Threads, curr: Option<Tid>, q: seq<Tid>) {
    forall t :: t in q ==> Fit(threads, curr, t)
  }

  ghost predicate AllSpent(threads: Threads, curr: Option<Tid>, q: seq<Tid>) {
    forall t :: t in q ==> Spent(threads, curr, t)
  }

  ghost predicate ReadyOk(threads: Threads, curr: Option<Tid>, q: seq<Tid>) {
    NoDup(q) && Sorted(q, ByPriority(threads)) && AllFit(threads, curr, q)
  }

  ghost predicate DepletedOk(threads: Threads, curr: Option<Tid>, q: seq<Tid>) {
    NoDup(q) && Sorted(q, ByBoundary(threads)) && AllSpent(threads, curr, q)
  }

  /** Only the data of the threads in `who` may differ, and never their priority. */
  ghost predicate OnlyBudgets(threads: Threads, threads': Threads, who: set<Tid>) {
    && threads'.Keys == threads.Keys
    && forall t :: t in threads ==>
         && threads'[t] == threads[t].(data := threads'[t].data)
         && threads'[t].data.priority == threads[t].data.priority
         && (t !in who ==> threads'[t].data == threads[t].data)
  }

  function With(threads: Threads, t: Tid, d: Data): Threads
    requires t in threads
  {
    threads[t := threads[t].(data := d)]
  }

  lemma WithOk(threads: Threads, curr: Option<Tid>, t: Tid, d: Data)
    requires Base(threads, curr) && t in threads && Valid(d) && d.lastStart <= d.next
             && d.priority == threads[t].data.priority
    requires Aligned(d.next, d.period)
    ensures Base(With(threads, t, d), curr) && OnlyBudgets(threads, With(threads, t, d), {t})
  {
  }

  lemma ActiveSame(threads: Threads, threads': Threads, curr: Option<Tid>, who: set<Tid>)
    requires OnlyBudgets(threads, threads', who)
    ensures forall t :: Active(threads', curr, t) == Active(threads, curr, t)
  {
  }

  /** Queues that hold none of the changed threads stay as they should be. */
  lemma QueuesKept(threads: Threads, threads': Threads, curr: Option<Tid>, ready: seq<Tid>, depleted: seq<Tid>,
                   who: set<Tid>)
    requires ReadyOk(threads, curr, ready) && DepletedOk(threads, curr, depleted) && OnlyBudgets(threads, threads', who)
    requires forall t :: t in who ==> t !in ready && t !in depleted
    ensures ReadyOk(threads', curr, ready) && DepletedOk(threads', curr, depleted)
  {
    ActiveSame(threads, threads', curr, who);
    SortedBySame(ready, ByPriority(threads), ByPriority(threads'));
    SortedBySame(depleted, ByBoundary(threads), ByBoundary(threads'));
  }

  lemma ReadyPut(threads: Threads, curr: Option<Tid>, q: seq<Tid>, t: Tid, turn: bool)
    requires ReadyOk(threads, curr, q) && t !in q && Fit(threads, curr, t)
    ensures ReadyOk(threads, curr, Insert(q, ByPriority(threads), t, turn))
    ensures forall x :: x in Insert(q, ByPriority(threads), t, turn) <==> x in q || x == t
  {
    InsertOrdered(q, ByPriority(threads), t, turn);
    InsertMembers(q, ByPriority(threads), t, turn);
  }

  lemma DepletedPut(threads: Threads, curr: Option<Tid>, q: seq<Tid>, t: Tid)
    requires DepletedOk(threads, curr, q) && t !in q && Spent(threads, curr, t)
    ensures DepletedOk(threads, curr, Insert(q, ByBoundary(threads), t, false))
    ensures forall x :: x in Insert(q, ByBoundary(threads), t, false) <==> x in q || x == t
  {
    InsertOrdered(q, ByBoundary(threads), t, false);
    InsertMembers(q, ByBoundary(threads), t, false);
  }

  lemma ReadyTake(threads: Threads, curr: Option<Tid>, q: seq<Tid>, t: Tid)
    requires ReadyOk(threads, curr, q)
    ensures ReadyOk(threads, curr, Remove(q, t)) && NoDup(q)
    ensures forall x :: x in Remove(q, t) <==> x in q && x != t
  {
    RemoveOrdered(q, ByPriority(threads), t);
    RemoveMembers(q, t);
  }

  lemma DepletedTake(threads: Threads, curr: Option<Tid>, q: seq<Tid>, t: Tid)
    requires DepletedOk(threads, curr, q)
    ensures DepletedOk(threads, curr, Remove(q, t)) && NoDup(q)
    ensures forall x :: x in Remove(q, t) <==> x in q && x != t
  {
    RemoveOrdered(q, ByBoundary(threads), t);
    RemoveMembers(q, t);
  }

  lemma NotBoth(threads: Threads, curr: Option<Tid>, ready: seq<Tid>, depleted: seq<Tid>)
    requires ReadyOk(threads, curr, ready) && DepletedOk(threads, curr, depleted)
    ensures forall t :: t in ready ==> t !in depleted
  {
    forall t | t in ready
      ensures t !in depleted
    {
      assert Fit(threads, curr, t);
    }
  }

  /** A ready thread that gets a fresh budget keeps its place. */
  lemma ReadyAdvanced(threads: Threads, threads': Threads, curr: Option<Tid>, ready: seq<Tid>, t: Tid)
    requires ReadyOk(threads, curr, ready) && OnlyBudgets(threads, threads', {t}) && t in threads'
             && threads'[t].data.remaining > 0
    ensures ReadyOk(threads', curr, ready)
  {
    ActiveSame(threads, threads', curr, {t});
    SortedBySame(ready, ByPriority(threads), ByPriority(threads'));
  }

  lemma DepletedKept(threads: Threads, threads': Threads, curr: Option<Tid>, depleted: seq<Tid>, t: Tid)
    requires DepletedOk(threads, curr, depleted) && OnlyBudgets(threads, threads', {t}) && t !in depleted
    ensures DepletedOk(threads', curr, depleted)
  {
    ActiveSame(threads, threads', curr, {t});
    SortedBySame(depleted, ByBoundary(threads), ByBoundary(threads'));
  }

  lemma BudgetsThen(a: Threads, b: Threads, c: Threads, who: set<Tid>, who': set<Tid>)
    requires OnlyBudgets(a, b, who) && OnlyBudgets(b, c, who')
    ensures OnlyBudgets(a, c, who + who')
  {
  }

  /** `t` has the data `a` gives it, brought up to `now`. */
  ghost predicate UpToDate(a: Threads, b: Threads, t: Tid, now: nat) {
    t in a && t in b && a[t].data.period > 0 && b[t].data == Advanced(a[t].data, now)
  }

  class Bfp {
    var threads: Threads
    var ready: seq<Tid>
    var depleted: seq<Tid>
    var curr: Option<Tid>

    ghost predicate Valid()
      reads this
    {
      Base(threads, curr) && ReadyOk(threads, curr, ready) && DepletedOk(threads, curr, depleted)
    }

    constructor ()
      ensures AtRest() && threads == map[] && ready == [] && depleted == [] && curr == None
    {
      threads, ready, depleted, curr := map[], [], [], None;
    }

    /** `sched_bfp_init_data` for a new thread, which starts out blocked. */
    method AddThread(t: Tid, period: nat, budget: nat, priority: nat, now: nat)
      requires AtRest() && t !in threads && 0 < budget <= period
      modifies this`threads
      ensures AtRest()
              && threads == old(threads)[t := PolicyThread(Fresh(period, budget, priority, now), Blocked, false)]
    {
      BoundaryAhead(now, period);
      QueuedActive(threads, curr, ready, depleted);
      CurrentIn(threads, curr);
      hide Base, ReadyOk, DepletedOk, NextBoundary, Aligned;
      OneThread(threads, curr, ready, depleted, t, PolicyThread(Fresh(period, budget, priority, now), Blocked, false));
      threads := threads[t := PolicyThread(Fresh(period, budget, priority, now), Blocked, false)];
    }

    /** `bfp_advance_inactive_period`. */
    method Advance(t: Tid, now: nat) returns (advanced: bool)
      requires Base(threads, curr) && t in threads
      modifies this`threads
      ensures Base(threads, curr) && OnlyBudgets(old(threads), threads, {t}) && UpToDate(old(threads), threads, t, now)
      ensures advanced == (now >= old(threads)[t].data.next) && now < threads[t].data.next
      ensures advanced ==> threads[t].data.remaining > 0
      ensures !advanced ==> threads == old(threads)
    {
      var d := threads[t].data;
      AdvancedIsNext(d, now);
      GridAligned(d, Advanced(d, now));
      WithOk(threads, curr, t, Advanced(d, now));
      advanced := false;
      if now >= d.next {
        var periods := (now - d.next) / d.period + 1;
        threads := With(threads, t, d.(next := d.next + periods * d.period, remaining := d.budget,
                                       replenished := d.replenished + periods));
        advanced := true;
      } else {
        SameBudgets(threads, {t});
      }
    }

    /** The first loop of `bfp_refresh_queues`. */
    method RefreshReady(now: nat)
      requires Valid()
      modifies this`threads
      ensures Valid() && OnlyBudgets(old(threads), threads, Members(ready))
      ensures forall t :: t in ready ==> UpToDate(old(threads), threads, t, now)
    {
      hide Base, ReadyOk, DepletedOk, OnlyBudgets, BfpAccounting.Advanced, Accounted, Insert, Remove, ByPriority,
        ByBoundary, NoDup;
      ghost var threads0 := threads;
      NotBoth(threads, curr, ready, depleted);
      SameBudgets(threads, Members(ready));
      ReadyParts(threads, curr, ready);
      for i := 0 to |ready|
        invariant Valid() && OnlyBudgets(threads0, threads, Members(ready))
        invariant forall j :: 0 <= j < i ==> UpToDate(threads0, threads, ready[j], now)
        invariant forall j :: i <= j < |ready| ==>
                    ready[j] in threads0 && ready[j] in threads && threads[ready[j]] == threads0[ready[j]]
      {
        var t := ready[i];
        ghost var threads1 := threads;
        assert t in ready;
        FitIn(threads, curr, ready, t);
        var _ := Advance(t, now);
        AdvancedInPlace(threads1, threads, curr, ready, depleted, i, now);
        BudgetsThen(threads0, threads1, threads, Members(ready), {t});
        assert Members(ready) + {t} == Members(ready);
      }
    }

    /** `bfp_ready_insert`. */
    method ReadyInsert(t: Tid, keepTurn: bool)
      requires Base(threads, curr) && Fit(threads, curr, t) && Unqueued(threads, curr, ready, depleted, t)
      modifies this`ready, this`depleted
      ensures Valid()
      ensures forall x :: x in ready <==> x in old(ready) || x == t
      ensures forall x :: x in depleted <==> x in old(depleted) && x != t
      ensures ready == Insert(Remove(old(ready), t), ByPriority(threads), t, keepTurn)
    {
      hide Base, ReadyOk, DepletedOk, OnlyBudgets, BfpAccounting.Advanced, Accounted, Insert, Remove, ByPriority,
        ByBoundary, NoDup;
      RemoveMembers(ready, t);
      RemoveMembers(depleted, t);
      depleted := Remove(depleted, t);
      ReadyPut(threads, curr, Remove(ready, t), t, keepTurn);
      ready := InsertInto(Remove(ready, t), ByPriority(threads), t, keepTurn);
    }

    /** `bfp_depleted_insert`. */
    method DepletedInsert(t: Tid)
      requires Base(threads, curr) && Spent(threads, curr, t) && Unqueued(threads, curr, ready, depleted, t)
      modifies this`ready, this`depleted
      ensures Valid()
      ensures forall x :: x in ready <==> x in old(ready) && x != t
      ensures forall x :: x in depleted <==> x in old(depleted) || x == t
    {
      hide Base, ReadyOk, DepletedOk, OnlyBudgets, BfpAccounting.Advanced, Accounted, Insert, Remove, ByPriority,
        ByBoundary, NoDup;
      RemoveMembers(ready, t);
      RemoveMembers(depleted, t);
      ready := Remove(ready, t);
      DepletedPut(threads, curr, Remove(depleted, t), t);
      depleted := InsertInto(Remove(depleted, t), ByBoundary(threads), t, false);
    }

    /** The second loop of `bfp_refresh_queues`: only the node at hand leaves the list it walks. */
    method RefreshDepleted(now: nat)
      requires Valid()
      modifies this`threads, this`ready, this`depleted
      ensures Valid() && OnlyBudgets(old(threads), threads, Members(old(depleted)))
      ensures forall t :: t in old(depleted) ==> UpToDate(old(threads), threads, t, now)
      ensures forall x :: x in old(ready) ==> x in ready
      ensures forall x :: x in ready && x !in old(ready) ==> x in old(threads) && now >= old(threads)[x].data.next
      ensures forall x :: x in ready || x in depleted <==> x in old(ready) || x in old(depleted)
      ensures forall c :: c in old(ready) && First(old(ready), ByPriority(old(threads)), c) ==>
                First(ready, ByPriority(threads), c)
    {
      hide Base, ReadyOk, DepletedOk, OnlyBudgets, BfpAccounting.Advanced, Accounted, Insert, Remove, ByPriority,
        ByBoundary, NoDup;
      ghost var threads0, ready0 := threads, ready;
      var q := depleted;
      SameBudgets(threads, Members(q));
      NotBoth(threads, curr, ready, depleted);
      DepletedParts(threads, curr, depleted);
      for i := 0 to |q|
        invariant Valid() && OnlyBudgets(threads0, threads, Members(q))
        invariant forall j :: 0 <= j < i ==> UpToDate(threads0, threads, q[j], now)
        invariant forall j :: i <= j < |q| ==>
                    q[j] in depleted && q[j] in threads0 && q[j] in threads && threads[q[j]] == threads0[q[j]]
        invariant forall x :: x in ready0 ==> x in ready
        invariant forall x :: x in ready && x !in ready0 ==> x in threads0 && now >= threads0[x].data.next
        invariant forall x :: x in ready || x in depleted <==> x in ready0 || x in q
        invariant forall c :: c in ready0 && First(ready0, ByPriority(threads0), c) ==>
                    First(ready, ByPriority(threads), c)
      {
        var t := q[i];
        ghost var threads1 := threads;
        AdvanceDepleted(t, now);
        BudgetsThen(threads0, threads1, threads, Members(q), {t});
        assert t in q && Members(q) + {t} == Members(q);
        LaterSame(threads1, threads, q, i);
      }
    }

    /** One node of the depleted queue: with a new budget it moves to the ready queue. */
    method AdvanceDepleted(t: Tid, now: nat)
      requires Valid() && t in depleted
      modifies this`threads, this`ready, this`depleted
      ensures Valid() && OnlyBudgets(old(threads), threads, {t}) && UpToDate(old(threads), threads, t, now)
      ensures forall x :: x in ready <==> x in old(ready) || (x == t && now >= old(threads)[t].data.next)
      ensures forall x :: x in depleted <==> x in old(depleted) && !(x == t && now >= old(threads)[t].data.next)
      ensures forall c :: c in old(ready) && First(old(ready), ByPriority(old(threads)), c) ==>
                First(ready, ByPriority(threads), c)
    {
      hide Base, ReadyOk, DepletedOk, OnlyBudgets, BfpAccounting.Advanced, Accounted, Insert, Remove, ByPriority,
        ByBoundary, NoDup;
      ghost var threads1 := threads;
      SpentIn(threads, curr, depleted, t);
      NotBoth(threads, curr, ready, depleted);
      RemoveOther(threads, curr, ready, t);
      var advanced := Advance(t, now);
      if advanced {
        TakenOut(threads1, threads, curr, ready, depleted, t);
        FirstsKept(threads1, threads, curr, ready, t);
        ReadyInsert(t, false);
      }
    }

    /** `bfp_account_runtime` on a thread. */
    method AccountRuntime(t: Tid, now: nat)
      requires Base(threads, curr) && t in threads
      modifies this`threads
      ensures Base(threads, curr) && OnlyBudgets(old(threads), threads, {t})
      ensures BfpAccounting.Valid(old(threads)[t].data) && threads[t].data == Accounted(old(threads)[t], now)
    {
      AccountedOk(threads[t], now);
      if threads[t].status != Running {
        SameBudgets(threads, {t});
        return;
      }
      WithOk(threads, curr, t, Accounted(threads[t], now));
      var d := BfpAccounting.AccountRuntime(threads[t].data, now);
      threads := With(threads, t, d);
    }

    /** The current thread is charged, brought up to date and queued by what it has left. */
    method RefreshCurrent(now: nat)
      requires Valid() && curr.Some?
      modifies this`threads, this`ready, this`depleted
      ensures Valid() && OnlyBudgets(old(threads), threads, {curr.value})
      ensures AtPick(old(threads), threads, curr.value, now)
      ensures forall x :: x in ready || x in depleted <==>
                          (x != curr.value && (x in old(ready) || x in old(depleted)))
                          || (x == curr.value && Active(old(threads), curr, x))
      ensures curr.value in ready ==> First(ready, ByPriority(threads), curr.value)
    {
      hide Base, ReadyOk, DepletedOk, OnlyBudgets, BfpAccounting.Advanced, Accounted, Insert, Remove, ByPriority,
        ByBoundary, NoDup;
      ghost var threads0 := threads;
      var c := curr.value;
      CurrentIn(threads, curr);
      AccountRuntime(c, now);
      ghost var threads1 := threads;
      var _ := Advance(c, now);
      BudgetsThen(threads0, threads1, threads, {c}, {c});
      assert {c} + {c} == {c};
      AccountedIn(threads0, curr, c);
      ChangedOut(threads0, threads, curr, ready, depleted, c);
      ActiveSame(threads0, threads, curr, {c});
      if !Active(threads, curr, c) {
        ready, depleted := Remove(ready, c), Remove(depleted, c);
      } else if threads[c].data.remaining != 0 {
        FirstPut(threads, curr, ready, c);
        ReadyInsert(c, true);
      } else {
        DepletedInsert(c);
      }
    }

    /** `sched_bfp_pick_next`. Every candidate is charged and brought up to date; the highest priority
        with budget left is chosen, the current thread first among equals. */
    method PickNext(now: nat) returns (next: Option<Tid>)
      requires Valid()
      modifies this`threads, this`ready, this`depleted
      ensures Valid() && SameBut(old(threads), threads)
      ensures var c := Candidates(old(threads), curr, old(ready), old(depleted));
              && (forall t :: t in c ==> AtPick(old(threads), threads, t, now))
              && (next.None? <==> forall t :: t in c ==> t in threads && threads[t].data.remaining == 0)
              && (next.Some? ==>
                    next.value in c && Top(threads, c, next.value) && threads[next.value].data.lastStart == now)
              && (next.Some? && curr.Some? && curr.value in c && Ties(threads, curr.value, next.value) ==> next == curr)
              && (forall t :: t in ready <==>
                    t in c && next != Some(t) && t in threads && threads[t].data.remaining > 0)
              && (forall t :: t in depleted <==> t in c && t in threads && threads[t].data.remaining == 0)
    {
      hide Base, ReadyOk, DepletedOk, OnlyBudgets, BfpAccounting.Advanced, Accounted, Insert, Remove, ByPriority,
        ByBoundary, NoDup, AtPick, UpToDate, First, SameBut;
      RefreshAll(now);
      ghost var c := Candidates(old(threads), curr, old(ready), old(depleted));
      next := None;
      ghost var threads1 := threads;
      Partition(threads, curr, ready, depleted);
      if ready != [] {
        var n := ready[0];
        next := Some(n);
        assert n in ready;
        HeadIsTop(threads, curr, ready, depleted, c);
        Ahead(old(threads), threads, n, now);
        Start(n, now);
        forall t | t in c
          ensures AtPick(old(threads), threads, t, now)
        {
          AtPickStarted(old(threads), threads1, threads, t, n, now);
        }
        StartedSame(old(threads), threads1, threads, c, n, now);
      }
    }

    /** The refreshes before the choice. */
    method RefreshAll(now: nat)
      requires Valid()
      modifies this`threads, this`ready, this`depleted
      ensures Valid() && SameBut(old(threads), threads)
      ensures var c := Candidates(old(threads), curr, old(ready), old(depleted));
              && (forall t :: t in c ==> AtPick(old(threads), threads, t, now))
              && (forall t :: t in c <==> t in ready || t in depleted)
      ensures curr.Some? && curr.value in ready ==> First(ready, ByPriority(threads), curr.value)
    {
      hide Base, ReadyOk, DepletedOk, OnlyBudgets, BfpAccounting.Advanced, Accounted, Insert, Remove, ByPriority,
        ByBoundary, NoDup, AtPick, UpToDate, First, SameBut;
      ghost var threads0, ready0, depleted0 := threads, ready, depleted;
      SameBudgets(threads, {});
      if curr.Some? {
        RefreshCurrent(now);
      }
      ghost var threads1, ready1, depleted1 := threads, ready, depleted;
      RefreshReady(now);
      ghost var threads2 := threads;
      FirstsSame(threads1, threads2, curr, ready);
      NotBoth(threads1, curr, ready1, depleted1);
      RefreshDepleted(now);
      forall t | t in ready1 || t in depleted1
        ensures AtPick(threads0, threads, t, now)
      {
        PickedData(threads0, threads1, threads2, threads, curr, ready1, depleted1, t, now);
      }
      QueuedActive(threads0, curr, ready0, depleted0);
      if curr.Some? && curr.value in ready && curr.value !in ready1 {
        Ahead(threads0, threads1, curr.value, now);
        KeptIn(threads1, threads2, Members(ready1), curr.value);
      }
      SameButs(threads0, threads1, threads2, threads, if curr.Some? then {curr.value}
                                                      else {}, Members(ready1), Members(depleted1));
    }

    /** Take the chosen thread out of the queue and start its clock. */
    method Start(n: Tid, now: nat)
      requires Valid() && n in ready && n in threads && now < threads[n].data.next
      modifies this`threads, this`ready
      ensures Valid() && threads == With(old(threads), n, old(threads)[n].data.(lastStart := now))
      ensures forall x :: x in ready <==> x in old(ready) && x != n
    {
      hide Base, ReadyOk, DepletedOk, OnlyBudgets, BfpAccounting.Advanced, Accounted, Insert, Remove, ByPriority,
        ByBoundary, NoDup, AtPick, UpToDate, First, SameBut;
      ReadyTake(threads, curr, ready, n);
      NotBoth(threads, curr, ready, depleted);
      AccountedIn(threads, curr, n);
      WithOk(threads, curr, n, threads[n].data.(lastStart := now));
      QueuesKept(threads, With(threads, n, threads[n].data.(lastStart := now)), curr, Remove(ready, n), depleted, {n});
      ready := Remove(ready, n);
      threads := With(threads, n, threads[n].data.(lastStart := now));
    }

    /** Between two entries into the policy a queued current thread has its clock stopped. */
    ghost predicate AtRest()
      reads this
    {
      Valid() && (curr.Some? && (curr.value in ready || curr.value in depleted) ==>
                    curr.value in threads && threads[curr.value].data.lastStart == 0)
    }

    /** `schedule`: with work pending for the idle thread the policy is not asked. */
    method Schedule(now: nat, idleWork: bool)
      requires AtRest()
      modifies this
      ensures AtRest()
      ensures idleWork ==> curr == None && ready == old(ready) && depleted == old(depleted)
                           && threads == Switched(old(threads), old(curr), None)
      ensures !idleWork ==>
        var c := Candidates(old(threads), old(curr), old(ready), old(depleted));
        && SameBut(Switched(old(threads), old(curr), curr), threads)
        && (forall t :: t in c ==> AtPick(old(threads), threads, t, now))
        && (curr.None? <==> forall t :: t in c ==> t in threads && threads[t].data.remaining == 0)
        && (curr.Some? ==> curr.value in c && Top(threads, c, curr.value))
        && (curr.Some? && old(curr).Some? && old(curr).value in c && Ties(threads, old(curr).value, curr.value) ==>
              curr == old(curr))
        && (forall t :: t in ready <==> t in c && curr != Some(t) && t in threads && threads[t].data.remaining > 0)
        && (forall t :: t in depleted <==> t in c && t in threads && threads[t].data.remaining == 0)
    {
      hide Base, ReadyOk, DepletedOk, OnlyBudgets, BfpAccounting.Advanced, Accounted, Insert, Remove, ByPriority,
        ByBoundary, NoDup, AtPick, UpToDate, First, SameBut;
      hide Switched, Active, StatusOk;
      var next: Option<Tid> := None;
      ghost var c := Candidates(threads, curr, ready, depleted);
      if !idleWork {
        CandidatesActive(threads, curr, ready, depleted);
        next := PickNext(now);
        StillActive(old(threads), threads, curr, c);
      }
      ghost var threads1 := threads;
      SwitchTo(next);
      if !idleWork {
        SwitchedSame(old(threads), threads1, old(curr), next);
        AtPickSwitched(old(threads), threads1, old(curr), next, c, now);
        SwitchedData(threads1, old(curr), next);
      }
    }

    method SwitchTo(next: Option<Tid>)
      requires Valid()
               && (next.Some? ==> Active(threads, curr, next.value) && next.value !in ready && next.value !in depleted)
      modifies this`threads, this`curr
      ensures Valid() && curr == next && threads == Switched(old(threads), old(curr), next)
    {
      hide ReadyOk, DepletedOk;
      SwitchKeeps(threads, curr, ready, depleted, next);
      ghost var threads0 := threads;
      if curr != next {
        if curr.Some? {
          var th := threads[curr.value];
          threads := threads[curr.value := th.(status := if th.blocking then Blocked else Runnable, blocking := false)];
        }
        if next.Some? {
          threads := threads[next.value := threads[next.value].(status := Running)];
        }
      }
      assert threads == Switched(threads0, curr, next);
      curr := next;
    }

    /** `sleep_thread_locked` with `sched_bfp_sleep`. */
    method Sleep(t: Tid, now: nat)
      requires AtRest() && t in threads
      modifies this`threads, this`ready, this`depleted
      ensures AtRest() && BfpAccounting.Valid(old(threads)[t].data)
              && old(threads)[t].data.lastStart <= old(threads)[t].data.next
      ensures threads == old(threads)[t := Asleep(old(threads)[t], Accounted(old(threads)[t], now).(lastStart := 0))]
      ensures forall x :: x in ready <==> x in old(ready) && x != t
      ensures forall x :: x in depleted <==> x in old(depleted) && x != t
    {
      hide Base, ReadyOk, DepletedOk, BfpAccounting.Advanced, Accounted, Insert, Remove, ByPriority, ByBoundary,
        NoDup, UpToDate, First;
      ghost var threads0 := threads;
      SleepKeeps(threads, curr, ready, depleted, t, now);
      if curr == Some(t) {
        AccountRuntime(t, now);
      }
      ready, depleted := Remove(ready, t), Remove(depleted, t);
      var th := threads[t].(data := threads[t].data.(lastStart := 0));
      threads := threads[t := if th.status == Running then th.(blocking := true) else th.(status := Blocked)];
      assert threads == threads0[t := Asleep(threads0[t], Accounted(threads0[t], now).(lastStart := 0))];
    }

    /** `wake_thread_locked` with `sched_bfp_wake`: a wake only moves on to the current period. */
    method Wake(t: Tid, now: nat)
      requires AtRest() && t in threads
      modifies this`threads, this`ready, this`depleted
      ensures AtRest() && old(threads)[t].data.period > 0
      ensures if old(threads)[t].status == Blocked || old(threads)[t].blocking
              then && threads == old(threads)[t := Awake(old(threads)[t],
                                                         Advanced(old(threads)[t].data, now).(lastStart := 0))]
                   && (forall x :: x in ready <==> x in old(ready) || (x == t && threads[t].data.remaining > 0))
                   && (forall x :: x in depleted <==> x in old(depleted) || (x == t && threads[t].data.remaining == 0))
              else threads == old(threads) && ready == old(ready) && depleted == old(depleted)
    {
      hide Base, ReadyOk, DepletedOk, BfpAccounting.Advanced, Insert, Remove, ByPriority, ByBoundary, NoDup, First;
      AccountedIn(threads, curr, t);
      if threads[t].status == Blocked || threads[t].blocking {
        WakeKeeps(threads, curr, ready, depleted, t, now);
        ghost var target := threads[t := Awake(threads[t], Advanced(threads[t].data, now).(lastStart := 0))];
        RestartClock(t, now);
        SameKeys(threads, target, ready, depleted, t);
        if threads[t].data.remaining != 0 {
          ready := InsertInto(Remove(ready, t), ByPriority(threads), t, false);
        } else {
          depleted := InsertInto(Remove(depleted, t), ByBoundary(threads), t, false);
        }
        threads := threads[t := Awake(threads[t], threads[t].data)];
        assert threads == target;
      }
    }

    method RestartClock(t: Tid, now: nat)
      requires Base(threads, curr) && t in threads
      modifies this`threads
      ensures old(threads)[t].data.period > 0
      ensures var d := Advanced(old(threads)[t].data, now).(lastStart := 0);
              threads == old(threads)[t := old(threads)[t].(data := d)]
    {
      hide Base, BfpAccounting.Advanced;
      AccountedIn(threads, curr, t);
      var _ := Advance(t, now);
      threads := threads[t := threads[t].(data := threads[t].data.(lastStart := 0))];
    }

    /** `bfp_timer_handler`: the current thread is charged, and every queued one moved on to its period; which
        queue it is in then follows from its budget. */
    method TimerHandler(now: nat)
      requires AtRest()
      modifies this`threads, this`ready, this`depleted
      ensures AtRest() && Ticked(old(threads), threads, Members(old(ready)) + Members(old(depleted)), now)
      ensures forall x :: x in ready || x in depleted <==> x in old(ready) || x in old(depleted)
    {
      hide Base, ReadyOk, DepletedOk, OnlyBudgets, BfpAccounting.Advanced, Accounted, Insert, Remove, ByPriority,
        ByBoundary, NoDup, AtPick, UpToDate, First, SameBut;
      ghost var threads0 := threads;
      NotBoth(threads, curr, ready, depleted);
      SameBudgets(threads, {});
      if curr.Some? {
        CurrentIn(threads, curr);
        AccountedIn(threads, curr, curr.value);
        AccountRuntime(curr.value, now);
        QuietAccount(threads0, threads, curr, ready, depleted, now);
      }
      ghost var threads1, ready1, depleted1 := threads, ready, depleted;
      RefreshReady(now);
      ghost var threads2 := threads;
      RefreshDepleted(now);
      if curr.Some? && (curr.value in ready1 || curr.value in depleted1) {
        ClockKept(threads1, threads2, threads, ready1, depleted1, curr.value, now);
      }
      TimerData(threads0, threads1, threads2, threads, curr, ready1, depleted1, now);
    }

    ghost function Snap(): Snapshot
      reads this
    {
      Snapshot(threads, curr, ready, depleted)
    }

    /** Any operations in a row: every choice is of the highest priority with budget left. */
    method Run(ops: seq<Op>) returns (ghost hist: seq<Snapshot>)
      requires AtRest()
      modifies this
      ensures AtRest() && |hist| == |ops| + 1 && hist[0] == old(Snap()) && hist[|ops|] == Snap()
      ensures forall k :: 0 <= k < |ops| ==> TopOp(hist[k], ops[k], hist[k + 1])
    {
      hide Valid, TopOp;
      hist := [Snap()];
      for n := 0 to |ops|
        invariant AtRest() && |hist| == n + 1 && hist[0] == old(Snap()) && hist[n] == Snap()
        invariant forall k :: 0 <= k < n ==> TopOp(hist[k], ops[k], hist[k + 1])
      {
        Do(ops[n]);
        hist := hist + [Snap()];
      }
    }

    /** One operation; those the core would not make are passed over. */
    method Do(op: Op)
      requires AtRest()
      modifies this
      ensures AtRest() && TopOp(old(Snap()), op, Snap())
    {
      hide Valid, Top, Candidates, SameBut, AtPick, Switched;
      match op {
        case Add(t, period, budget, priority, now) =>
          if t !in threads && 0 < budget <= period {
            AddThread(t, period, budget, priority, now);
          }
        case Sleep(t, now) =>
          if t in threads {
            Sleep(t, now);
          }
        case Wake(t, now) =>
          if t in threads {
            Wake(t, now);
          }
        case Timer(now) => TimerHandler(now);
        case Schedule(now, idleWork) => Schedule(now, idleWork);
      }
    }
  }

  datatype Op =
    | Add(t: Tid, period: nat, budget: nat, priority: nat, now: nat)
    | Sleep(t: Tid, now: nat) | Wake(t: Tid, now: nat) | Timer(now: nat)
    | Schedule(now: nat, idleWork: bool)

  datatype Snapshot = Snapshot(threads: Threads, curr: Option<Tid>, ready: seq<Tid>, depleted: seq<Tid>)

  /** The choice has the highest priority of those with budget left; without one nobody has any. */
  ghost predicate TopOp(s: Snapshot, op: Op, s': Snapshot) {
    op.Schedule? && !op.idleWork ==>
      var c := Candidates(s.threads, s.curr, s.ready, s.depleted);
      if s'.curr.Some? then s'.curr.value in c && Top(s'.threads, c, s'.curr.value)
      else forall t :: t in c ==> t in s'.threads && s'.threads[t].data.remaining == 0
  }

  /** Every thread is charged for what it ran, and those in `queued` are brought up to `now`. */
  ghost predicate Ticked(a: Threads, b: Threads, queued: set<Tid>, now: nat) {
    && b.Keys == a.Keys
    && forall t :: t in a ==>
         && BfpAccounting.Valid(a[t].data) && a[t].data.lastStart <= a[t].data.next && Accounted(a[t], now).period > 0
         && b[t] == a[t].(data := if t in queued then Advanced(Accounted(a[t], now), now) else Accounted(a[t], now))
  }

  lemma TimerData(a: Threads, b: Threads, c: Threads, d: Threads, curr: Option<Tid>, ready: seq<Tid>,
                  depleted: seq<Tid>, now: nat)
    requires Base(a, curr) && (if curr.Some? then OnlyBudgets(a, b, {curr.value}) else OnlyBudgets(a, b, {}))
    requires curr.Some? ==>
               curr.value in a && BfpAccounting.Valid(a[curr.value].data)
               && a[curr.value].data.lastStart <= a[curr.value].data.next
                            && b[curr.value].data == Accounted(a[curr.value], now)
    requires OnlyBudgets(b, c, Members(ready)) && OnlyBudgets(c, d, Members(depleted))
    requires forall x :: x in ready ==> UpToDate(b, c, x, now) && x !in depleted
    requires forall x :: x in depleted ==> UpToDate(c, d, x, now)
    ensures Ticked(a, d, Members(ready) + Members(depleted), now)
  {
    hide ChargeByPeriods, Advanced;
    forall t | t in a
      ensures && BfpAccounting.Valid(a[t].data) && a[t].data.lastStart <= a[t].data.next
              && Accounted(a[t], now).period > 0
              && b[t].data == Accounted(a[t], now)
    {
      AccountedOk(a[t], now);
    }
    forall t | t in a
      ensures d[t].data == if t in ready || t in depleted then Advanced(b[t].data, now) else b[t].data
    {
      if t in ready {
        assert UpToDate(b, c, t, now) && t !in Members(depleted);
      } else if t in depleted {
        assert UpToDate(c, d, t, now) && t !in Members(ready);
      }
    }
  }

  lemma CandidatesActive(threads: Threads, curr: Option<Tid>, ready: seq<Tid>, depleted: seq<Tid>)
    requires ReadyOk(threads, curr, ready) && DepletedOk(threads, curr, depleted)
    ensures forall t :: t in Candidates(threads, curr, ready, depleted) ==> Active(threads, curr, t)
  {
    QueuedActive(threads, curr, ready, depleted);
  }

  lemma StillActive(threads: Threads, threads': Threads, curr: Option<Tid>, c: set<Tid>)
    requires SameBut(threads, threads') && forall t :: t in c ==> Active(threads, curr, t)
    ensures forall t :: t in c ==> Active(threads', curr, t)
  {
  }

  lemma SwitchedData(threads: Threads, curr: Option<Tid>, next: Option<Tid>)
    ensures Switched(threads, curr, next).Keys == threads.Keys
    ensures forall t :: t in threads ==> Switched(threads, curr, next)[t].data == threads[t].data
  {
  }

  lemma SwitchKeeps(threads: Threads, curr: Option<Tid>, ready: seq<Tid>, depleted: seq<Tid>, next: Option<Tid>)
    requires Base(threads, curr) && ReadyOk(threads, curr, ready) && DepletedOk(threads, curr, depleted)
    requires next.Some? ==> Active(threads, curr, next.value) && next.value !in ready && next.value !in depleted
    ensures var threads' := Switched(threads, curr, next);
            Base(threads', next) && ReadyOk(threads', next, ready) && DepletedOk(threads', next, depleted)
  {
    var threads' := Switched(threads, curr, next);
    SwitchedStatus(threads, curr, next);
    hide Switched, StatusOk, Active;
    assert ReadyOk(threads', next, ready) by {
      SortedBySame(ready, ByPriority(threads), ByPriority(threads'));
    }
    assert DepletedOk(threads', next, depleted) by {
      SortedBySame(depleted, ByBoundary(threads), ByBoundary(threads'));
    }
  }

  /** A queued current thread is not charged; any other is in no queue. */
  lemma QuietAccount(threads: Threads, threads': Threads, curr: Option<Tid>, ready: seq<Tid>, depleted: seq<Tid>,
                     now: nat)
    requires ReadyOk(threads, curr, ready) && DepletedOk(threads, curr, depleted) && curr.Some? && Base(threads, curr)
    requires curr.value in ready || curr.value in depleted ==>
               curr.value in threads && threads[curr.value].data.lastStart == 0
    requires OnlyBudgets(threads, threads', {curr.value}) && curr.value in threads
    requires threads'[curr.value].data == Accounted(threads[curr.value], now)
    ensures ReadyOk(threads', curr, ready) && DepletedOk(threads', curr, depleted)
    ensures threads[curr.value].data.lastStart == 0 ==> threads'[curr.value].data.lastStart == 0
  {
    hide ByPriority, ByBoundary, Advanced, ChargeByPeriods;
    if threads[curr.value].data.lastStart == 0 {
      assert threads' == threads;
    } else {
      hide ReadyOk, DepletedOk;
      QueuesKept(threads, threads', curr, ready, depleted, {curr.value});
    }
  }

  lemma ClockKept(a: Threads, b: Threads, c: Threads, ready: seq<Tid>, depleted: seq<Tid>, t: Tid, now: nat)
    requires OnlyBudgets(a, b, Members(ready)) && OnlyBudgets(b, c, Members(depleted)) && t in a
    requires forall x :: x in ready ==> UpToDate(a, b, x, now)
    requires forall x :: x in depleted ==> UpToDate(b, c, x, now)
    ensures t in c && c[t].data.lastStart == a[t].data.lastStart
  {
    if t in ready {
      assert UpToDate(a, b, t, now);
    }
    if t in depleted {
      assert UpToDate(b, c, t, now);
    }
  }

  /** A new state for one thread that is in no queue. */
  lemma OneThread(threads: Threads, curr: Option<Tid>, ready: seq<Tid>, depleted: seq<Tid>, t: Tid,
                  th: PolicyThread<Data>)
    requires Base(threads, curr) && ReadyOk(threads, curr, ready) && DepletedOk(threads, curr, depleted)
    requires t !in ready && t !in depleted && BfpAccounting.Valid(th.data) && th.data.lastStart <= th.data.next
    requires Aligned(th.data.next, th.data.period)
    requires (th.status == Running <==> curr == Some(t)) && (th.blocking ==> curr == Some(t))
    ensures var threads' := threads[t := th];
            Base(threads', curr) && ReadyOk(threads', curr, ready) && DepletedOk(threads', curr, depleted)
  {
    var threads' := threads[t := th];
    assert Base(threads', curr) by { hide ReadyOk, DepletedOk; }
    hide DataOk, StatusOk;
    assert ReadyOk(threads', curr, ready) by {
      SortedBySame(ready, ByPriority(threads), ByPriority(threads'));
    }
    assert DepletedOk(threads', curr, depleted) by {
      SortedBySame(depleted, ByBoundary(threads), ByBoundary(threads'));
    }
  }

  /** The queues do not look at statuses. */
  lemma SameKeys(threads: Threads, threads': Threads, ready: seq<Tid>, depleted: seq<Tid>, t: Tid)
    requires threads.Keys == threads'.Keys && forall x :: x in threads ==> threads'[x].data == threads[x].data
    ensures Insert(ready, ByPriority(threads), t, false) == Insert(ready, ByPriority(threads'), t, false)
    ensures Insert(depleted, ByBoundary(threads), t, false) == Insert(depleted, ByBoundary(threads'), t, false)
  {
    InsertSameKey(ready, ByPriority(threads), ByPriority(threads'), t, false);
    InsertSameKey(depleted, ByBoundary(threads), ByBoundary(threads'), t, false);
  }

  lemma WakeKeeps(threads: Threads, curr: Option<Tid>, ready: seq<Tid>, depleted: seq<Tid>, t: Tid, now: nat)
    requires Base(threads, curr) && ReadyOk(threads, curr, ready) && DepletedOk(threads, curr, depleted) && t in threads
    requires threads[t].status == Blocked || threads[t].blocking
    ensures threads[t].data.period > 0 && Remove(ready, t) == ready && Remove(depleted, t) == depleted
    ensures var threads' := threads[t := Awake(threads[t], Advanced(threads[t].data, now).(lastStart := 0))];
            && Base(threads', curr) && ReadyOk(threads', curr, ready) && DepletedOk(threads', curr, depleted)
            && (threads'[t].data.remaining > 0 ==>
                  ReadyOk(threads', curr, Insert(ready, ByPriority(threads'), t, false)))
            && (threads'[t].data.remaining == 0 ==>
                  DepletedOk(threads', curr, Insert(depleted, ByBoundary(threads'), t, false)))
            && (forall x :: x in Insert(ready, ByPriority(threads'), t, false) <==> x in ready || x == t)
            && (forall x :: x in Insert(depleted, ByBoundary(threads'), t, false) <==> x in depleted || x == t)
  {
    hide Insert, Remove, ByPriority, ByBoundary;
    AccountedIn(threads, curr, t);
    AdvancedIsNext(threads[t].data, now);
    GridAligned(threads[t].data, Advanced(threads[t].data, now));
    QueuedActive(threads, curr, ready, depleted);
    assert t !in ready && t !in depleted && Remove(ready, t) == ready && Remove(depleted, t) == depleted by {
      RemoveMembers(ready, t);
      RemoveMembers(depleted, t);
    }
    var th := Awake(threads[t], Advanced(threads[t].data, now).(lastStart := 0));
    hide ReadyOk, DepletedOk, Advanced;
    OneThread(threads, curr, ready, depleted, t, th);
    var threads' := threads[t := th];
    InsertMembers(ready, ByPriority(threads'), t, false);
    InsertMembers(depleted, ByBoundary(threads'), t, false);
    if th.data.remaining > 0 {
      ReadyPut(threads', curr, ready, t, false);
    } else {
      DepletedPut(threads', curr, depleted, t);
    }
  }

  lemma SleepKeeps(threads: Threads, curr: Option<Tid>, ready: seq<Tid>, depleted: seq<Tid>, t: Tid, now: nat)
    requires Base(threads, curr) && ReadyOk(threads, curr, ready) && DepletedOk(threads, curr, depleted) && t in threads
    ensures BfpAccounting.Valid(threads[t].data) && threads[t].data.lastStart <= threads[t].data.next
    ensures curr != Some(t) ==> Accounted(threads[t], now) == threads[t].data
    ensures var threads' := threads[t := Asleep(threads[t], Accounted(threads[t], now).(lastStart := 0))];
            Base(threads', curr) && ReadyOk(threads', curr, Remove(ready, t))
            && DepletedOk(threads', curr, Remove(depleted, t))
    ensures forall x :: x in Remove(ready, t) <==> x in ready && x != t
    ensures forall x :: x in Remove(depleted, t) <==> x in depleted && x != t
  {
    hide ChargeByPeriods, ReadyOk, DepletedOk, Remove;
    AccountedOk(threads[t], now);
    ReadyTake(threads, curr, ready, t);
    DepletedTake(threads, curr, depleted, t);
    OneThread(threads, curr, Remove(ready, t), Remove(depleted, t), t,
              Asleep(threads[t], Accounted(threads[t], now).(lastStart := 0)));
  }

  /** Budget left or not decides the queue. */
  lemma Partition(threads: Threads, curr: Option<Tid>, ready: seq<Tid>, depleted: seq<Tid>)
    requires ReadyOk(threads, curr, ready) && DepletedOk(threads, curr, depleted)
    ensures forall t :: t in ready ==> t in threads && threads[t].data.remaining > 0 && t !in depleted
    ensures forall t :: t in depleted ==> t in threads && threads[t].data.remaining == 0
  {
    NotBoth(threads, curr, ready, depleted);
    forall t | t in ready
      ensures Fit(threads, curr, t)
    {
    }
    forall t | t in depleted
      ensures Spent(threads, curr, t)
    {
    }
  }

  lemma HeadIsTop(threads: Threads, curr: Option<Tid>, ready: seq<Tid>, depleted: seq<Tid>, c: set<Tid>)
    requires ready != [] && ReadyOk(threads, curr, ready) && DepletedOk(threads, curr, depleted)
    requires forall t :: t in c <==> t in ready || t in depleted
    ensures Top(threads, c, ready[0])
    ensures curr.Some? && curr.value in ready && First(ready, ByPriority(threads), curr.value) ==>
              (Ties(threads, curr.value, ready[0]) ==> curr.value == ready[0])
  {
    Partition(threads, curr, ready, depleted);
    assert ready[0] in ready;
    forall x | x in ready
      ensures ByPriority(threads)(ready[0]) <= ByPriority(threads)(x)
    {
      var m :| 0 <= m < |ready| && ready[m] == x;
    }
  }

  lemma Ahead(a: Threads, b: Threads, t: Tid, now: nat)
    requires AtPick(a, b, t, now)
    ensures t in b && now < b[t].data.next
  {
  }

  lemma KeptIn(a: Threads, b: Threads, who: set<Tid>, t: Tid)
    requires OnlyBudgets(a, b, who) && t in a && t !in who
    ensures t in b && b[t] == a[t]
  {
  }

  lemma QueuedActive(threads: Threads, curr: Option<Tid>, ready: seq<Tid>, depleted: seq<Tid>)
    requires ReadyOk(threads, curr, ready) && DepletedOk(threads, curr, depleted)
    ensures forall t :: t in ready || t in depleted ==> Active(threads, curr, t)
  {
    forall t | t in ready
      ensures Fit(threads, curr, t)
    {
    }
    forall t | t in depleted
      ensures Spent(threads, curr, t)
    {
    }
  }

  lemma AtPickSwitched(a: Threads, b: Threads, curr: Option<Tid>, next: Option<Tid>, c: set<Tid>, now: nat)
    requires forall t :: t in c ==> AtPick(a, b, t, now)
    ensures forall t :: t in c ==> AtPick(a, Switched(b, curr, next), t, now)
  {
    hide Advanced, Accounted;
  }

  lemma AtPickStarted(a: Threads, b: Threads, b': Threads, t: Tid, n: Tid, now: nat)
    requires AtPick(a, b, t, now) && n in b && b' == With(b, n, b[n].data.(lastStart := now))
    ensures AtPick(a, b', t, now)
  {
    hide Accounted, Advanced;
  }

  lemma StartedSame(a: Threads, b: Threads, b': Threads, c: set<Tid>, n: Tid, now: nat)
    requires SameBut(a, b) && Top(b, c, n) && n in b && b' == With(b, n, b[n].data.(lastStart := now))
    ensures SameBut(a, b') && Top(b', c, n)
    ensures forall x :: x in b' <==> x in b
    ensures forall x :: x in b ==>
              b'[x].data.remaining == b[x].data.remaining && b'[x].data.priority == b[x].data.priority
  {
  }

  lemma FirstsSame(threads: Threads, threads': Threads, curr: Option<Tid>, ready: seq<Tid>)
    requires ReadyOk(threads, curr, ready) && OnlyBudgets(threads, threads', Members(ready))
    ensures forall c :: First(ready, ByPriority(threads), c) ==> First(ready, ByPriority(threads'), c)
  {
    forall x | x in ready
      ensures ByPriority(threads)(x) == ByPriority(threads')(x)
    {
      assert Fit(threads, curr, x);
    }
    forall c | First(ready, ByPriority(threads), c)
      ensures First(ready, ByPriority(threads'), c)
    {
      FirstBySame(ready, ByPriority(threads), ByPriority(threads'), c);
    }
  }

  lemma SameButs(a: Threads, b: Threads, c: Threads, d: Threads, p: set<Tid>, q: set<Tid>, r: set<Tid>)
    requires OnlyBudgets(a, b, p) && OnlyBudgets(b, c, q) && OnlyBudgets(c, d, r)
    ensures SameBut(a, d)
  {
    BudgetsThen(a, b, c, p, q);
    BudgetsThen(a, c, d, p + q, r);
  }

  /** Bringing up to date twice at one instant is doing it once, and only the current thread is charged. */
  lemma PickedData(a: Threads, b: Threads, c: Threads, d: Threads, curr: Option<Tid>, ready: seq<Tid>,
                   depleted: seq<Tid>, t: Tid, now: nat)
    requires Base(a, curr) && (if curr.Some? then OnlyBudgets(a, b, {curr.value}) else OnlyBudgets(a, b, {}))
    requires OnlyBudgets(b, c, Members(ready)) && OnlyBudgets(c, d, Members(depleted))
    requires curr.Some? ==> AtPick(a, b, curr.value, now)
    requires forall x :: x in ready ==> UpToDate(b, c, x, now) && x !in depleted
    requires forall x :: x in depleted ==> UpToDate(c, d, x, now)
    requires t in ready || t in depleted
    ensures AtPick(a, d, t, now)
  {
    assert t in a && t in b && t in c && t in d && b[t].data.period > 0 && d[t].data == Advanced(b[t].data, now) by {
      if t in ready {
        assert UpToDate(b, c, t, now);
        assert t !in Members(depleted);
      } else {
        assert UpToDate(c, d, t, now);
        assert t !in Members(ready);
      }
    }
    OnePicked(a, b, d, curr, t, now);
  }

  lemma OnePicked(a: Threads, b: Threads, d: Threads, curr: Option<Tid>, t: Tid, now: nat)
    requires Base(a, curr) && (if curr.Some? then OnlyBudgets(a, b, {curr.value}) else OnlyBudgets(a, b, {}))
    requires curr.Some? ==> AtPick(a, b, curr.value, now)
    requires t in a && t in b && t in d && b[t].data.period > 0 && d[t].data == Advanced(b[t].data, now)
    ensures AtPick(a, d, t, now)
  {
    hide ChargeByPeriods;
    AccountedOk(a[t], now);
    AdvancedIsNext(Accounted(a[t], now), now);
    if curr == Some(t) {
      assert AtPick(a, b, t, now);
    } else {
      assert b[t] == a[t] && Accounted(a[t], now) == a[t].data;
    }
  }

  /** The queued threads, and the current one unless it is blocking. */
  function Candidates(threads: Threads, curr: Option<Tid>, ready: seq<Tid>, depleted: seq<Tid>): set<Tid> {
    Members(ready) + Members(depleted) + (if curr.Some? && Active(threads, curr, curr.value) then {curr.value} else {})
  }

  /** Nobody in `c` with budget left has a higher priority than `t`, which has budget left. */
  ghost predicate Top(threads: Threads, c: set<Tid>, t: Tid) {
    && t in threads && threads[t].data.remaining > 0
    && forall x :: x in c && x in threads && threads[x].data.remaining > 0 ==>
         threads[x].data.priority <= threads[t].data.priority
  }

  predicate Ties(threads: Threads, a: Tid, b: Tid) {
    a in threads && b in threads && threads[a].data.remaining > 0
    && threads[a].data.priority == threads[b].data.priority
  }

  /** What a thread ran since it was last charged, charged to it. */
  function Accounted(th: PolicyThread<Data>, now: nat): (r: Data)
    requires BfpAccounting.Valid(th.data) && th.data.lastStart <= th.data.next
  {
    var d := th.data;
    if th.status == Running && d.lastStart != 0 && now > d.lastStart
    then ChargeByPeriods(d.(lastStart := now), d.lastStart, now) else d
  }

  lemma AccountedOk(th: PolicyThread<Data>, now: nat)
    requires BfpAccounting.Valid(th.data) && th.data.lastStart <= th.data.next
    ensures var r := Accounted(th, now);
            BfpAccounting.Valid(r) && r.lastStart <= r.next && r.priority == th.data.priority
            && r.period == th.data.period
    ensures Aligned(th.data.next, th.data.period) ==> Aligned(Accounted(th, now).next, th.data.period)
  {
    hide Aligned;
    var d := th.data;
    if th.status == Running && d.lastStart != 0 && now > d.lastStart {
      ChargedKeeps(d.(lastStart := now), d.lastStart, now);
      if Aligned(d.next, d.period) {
        GridAligned(d.(lastStart := now), Accounted(th, now));
      }
    }
  }

  /** `t` was charged for what it ran and then brought up to `now`. */
  ghost predicate AtPick(a: Threads, b: Threads, t: Tid, now: nat) {
    && t in a && t in b && BfpAccounting.Valid(a[t].data) && a[t].data.lastStart <= a[t].data.next
    && Accounted(a[t], now).period > 0
    && b[t].data.(lastStart := 0) == Advanced(Accounted(a[t], now), now).(lastStart := 0) && now < b[t].data.next
  }

  lemma AccountedIn(threads: Threads, curr: Option<Tid>, t: Tid)
    requires Base(threads, curr) && t in threads
    ensures BfpAccounting.Valid(threads[t].data) && threads[t].data.lastStart <= threads[t].data.next
    ensures Aligned(threads[t].data.next, threads[t].data.period)
  {
  }

  lemma CurrentIn(threads: Threads, curr: Option<Tid>)
    requires Base(threads, curr)
    ensures curr.Some? ==> curr.value in threads
  {
  }

  lemma ChangedOut(threads: Threads, threads': Threads, curr: Option<Tid>, ready: seq<Tid>, depleted: seq<Tid>, t: Tid)
    requires ReadyOk(threads, curr, ready) && DepletedOk(threads, curr, depleted) && OnlyBudgets(threads, threads', {t})
    ensures Unqueued(threads', curr, ready, depleted, t)
    ensures forall x :: x in Remove(ready, t) <==> x in ready && x != t
    ensures forall x :: x in Remove(depleted, t) <==> x in depleted && x != t
  {
    hide ByPriority, ByBoundary, OnlyBudgets, Remove;
    ReadyTake(threads, curr, ready, t);
    DepletedTake(threads, curr, depleted, t);
    hide ReadyOk, DepletedOk;
    QueuesKept(threads, threads', curr, Remove(ready, t), Remove(depleted, t), {t});
  }

  lemma FirstPut(threads: Threads, curr: Option<Tid>, ready: seq<Tid>, t: Tid)
    requires NoDup(ready) && ReadyOk(threads, curr, Remove(ready, t))
    ensures First(Insert(Remove(ready, t), ByPriority(threads), t, true), ByPriority(threads), t)
  {
    RemoveMembers(ready, t);
    FirstInserted(Remove(ready, t), ByPriority(threads), t);
  }

  /** The queues are in order once `t` is taken out of them. */
  ghost predicate Unqueued(threads: Threads, curr: Option<Tid>, ready: seq<Tid>, depleted: seq<Tid>, t: Tid) {
    NoDup(ready) && NoDup(depleted) && ReadyOk(threads, curr, Remove(ready, t))
    && DepletedOk(threads, curr, Remove(depleted, t))
  }

  lemma ReadyParts(threads: Threads, curr: Option<Tid>, q: seq<Tid>)
    requires ReadyOk(threads, curr, q)
    ensures NoDup(q) && forall j :: 0 <= j < |q| ==> q[j] in threads
  {
    forall j | 0 <= j < |q|
      ensures q[j] in threads
    {
      assert Fit(threads, curr, q[j]);
    }
  }

  lemma DepletedParts(threads: Threads, curr: Option<Tid>, q: seq<Tid>)
    requires DepletedOk(threads, curr, q)
    ensures NoDup(q) && forall j :: 0 <= j < |q| ==> q[j] in threads
  {
    forall j | 0 <= j < |q|
      ensures q[j] in threads
    {
      assert Spent(threads, curr, q[j]);
    }
  }

  lemma FitIn(threads: Threads, curr: Option<Tid>, q: seq<Tid>, t: Tid)
    requires ReadyOk(threads, curr, q) && t in q
    ensures Fit(threads, curr, t)
  {
  }

  lemma SpentIn(threads: Threads, curr: Option<Tid>, q: seq<Tid>, t: Tid)
    requires DepletedOk(threads, curr, q) && t in q
    ensures Spent(threads, curr, t)
  {
  }

  lemma LaterSame(threads: Threads, threads': Threads, q: seq<Tid>, i: nat)
    requires NoDup(q) && i < |q| && OnlyBudgets(threads, threads', {q[i]})
    ensures forall j :: 0 <= j < |q| && j != i && q[j] in threads ==>
              q[j] in threads' && threads'[q[j]] == threads[q[j]]
  {
  }

  lemma AdvancedInPlace(threads: Threads, threads': Threads, curr: Option<Tid>, ready: seq<Tid>, depleted: seq<Tid>,
                        i: nat, now: nat)
    requires ReadyOk(threads, curr, ready) && DepletedOk(threads, curr, depleted) && i < |ready|
    requires OnlyBudgets(threads, threads', {ready[i]}) && UpToDate(threads, threads', ready[i], now)
             && Base(threads, curr)
    ensures ReadyOk(threads', curr, ready) && DepletedOk(threads', curr, depleted)
    ensures forall j :: 0 <= j < |ready| && j != i && ready[j] in threads ==>
              ready[j] in threads' && threads'[ready[j]] == threads[ready[j]]
  {
    hide ByPriority, ByBoundary, OnlyBudgets;
    var t := ready[i];
    assert t in ready;
    FitIn(threads, curr, ready, t);
    NotBoth(threads, curr, ready, depleted);
    LaterSame(threads, threads', ready, i);
    hide ReadyOk, DepletedOk;
    ReadyAdvanced(threads, threads', curr, ready, t);
    DepletedKept(threads, threads', curr, depleted, t);
  }

  /** A spent thread with a fresh budget is fit, and the queues without it are in order. */
  lemma TakenOut(threads: Threads, threads': Threads, curr: Option<Tid>, ready: seq<Tid>, depleted: seq<Tid>, t: Tid)
    requires ReadyOk(threads, curr, ready) && DepletedOk(threads, curr, depleted) && t in depleted
    requires OnlyBudgets(threads, threads', {t}) && t in threads' && threads'[t].data.remaining > 0
    ensures Fit(threads', curr, t) && Unqueued(threads', curr, ready, depleted, t)
  {
    hide ByPriority, ByBoundary, OnlyBudgets, Remove;
    NotBoth(threads, curr, ready, depleted);
    SpentIn(threads, curr, depleted, t);
    ActiveSame(threads, threads', curr, {t});
    ReadyTake(threads, curr, ready, t);
    DepletedTake(threads, curr, depleted, t);
    hide ReadyOk, DepletedOk;
    QueuesKept(threads, threads', curr, Remove(ready, t), Remove(depleted, t), {t});
  }

  lemma RemoveOther(threads: Threads, curr: Option<Tid>, q: seq<Tid>, t: Tid)
    requires ReadyOk(threads, curr, q) && t !in q
    ensures Remove(q, t) == q
  {
    RemoveMembers(q, t);
  }

  /** A thread that joins the ready queue overtakes nobody of its own priority. */
  lemma FirstsKept(threads: Threads, threads': Threads, curr: Option<Tid>, ready: seq<Tid>, t: Tid)
    requires ReadyOk(threads, curr, ready) && OnlyBudgets(threads, threads', {t}) && t !in ready
    ensures forall c :: c in ready && First(ready, ByPriority(threads), c) ==>
              First(Insert(ready, ByPriority(threads'), t, false), ByPriority(threads'), c)
  {
    forall x | x in ready
      ensures ByPriority(threads)(x) == ByPriority(threads')(x)
    {
      assert Fit(threads, curr, x);
    }
    SortedBySame(ready, ByPriority(threads), ByPriority(threads'));
    hide ByPriority, OnlyBudgets, Insert;
    forall c | c in ready && First(ready, ByPriority(threads), c)
      ensures First(Insert(ready, ByPriority(threads'), t, false), ByPriority(threads'), c)
    {
      FirstBySame(ready, ByPriority(threads), ByPriority(threads'), c);
      FirstKept(ready, ByPriority(threads'), c, t);
    }
  }

  lemma SameBudgets(threads: Threads, who: set<Tid>)
    ensures OnlyBudgets(threads, threads, who)
  {
  }
}
