/** The per-pCPU CBS run queue under the core scheduler's sleep, wake, priority scan and switch. */
module CbsRunqueue {
  import opened CbsPriority
  import opened CbsQueue
  import opened CbsServers
  import opened Common
  import EdfWalk
  import opened OrderedQueues
  import opened PolicyThreads

  /** The servers once the current thread is charged and, unless it is blocking, refreshed. */
  ghost function CurrentThreads(threads: Threads, curr: Option<Tid>, now: nat): Threads
    requires ServersOk(threads) && StatusOk(threads, curr)
  {
    if curr.None? then threads else
    var c := curr.value;
    var s := Accounted(threads[c], now);
    threads[c := threads[c].(data := if Active(threads, curr, c) then Refreshed(s, now) else s)]
  }

  /** ... and the queue, with the current thread put in its place. */
  ghost function CurrentQueue(threads: Threads, curr: Option<Tid>, q: seq<Tid>, now: nat): seq<Tid>
    requires ServersOk(threads) && StatusOk(threads, curr)
  {
    if curr.Some? && Active(threads, curr, curr.value)
    then Insert(Remove(q, curr.value), Deadlines(CurrentThreads(threads, curr, now)), curr.value, false) else q
  }

  ghost predicate NoneStale(threads: Threads, q: seq<Tid>, now: nat) {
    forall x :: x in q ==> x in threads && !Stale(threads[x].data, now)
  }

  lemma NoneDue(threads: Threads, q: seq<Tid>, due: Server -> bool, now: nat)
    requires forall s :: due(s) == Stale(s, now)
    ensures NoneStale(threads, q, now) ==> EdfWalk.DueIn(threads, q, due) == {}
  {
  }

  lemma AllEligible(threads: Threads, q: seq<Tid>, now: nat)
    requires EligibleUpTo(threads, q, |q|, now)
    ensures forall x :: x in q ==> Eligible(threads, x, now)
  {
    forall x | x in q
      ensures Eligible(threads, x, now)
    {
      var m :| 0 <= m < |q| && q[m] == x;
    }
  }

  function Head(q: seq<Tid>): Option<Tid> { if q == [] then None else Some(q[0]) }

  class Cbs {
    var threads: Threads
    var queue: seq<Tid>
    var curr: Option<Tid>

    /** Servers, statuses and queue are as they should be; with `o` the queue is in order. */
    ghost predicate State(o: bool)
      reads this
    {
      Proper(threads, curr, queue, o)
    }

    ghost predicate Sane()
      reads this
    {
      State(false)
    }

    ghost predicate Valid()
      reads this
    {
      State(true)
    }

    /** As `Valid`, but the current thread may stand anywhere in the queue. */
    ghost predicate Loose()
      reads this
    {
      NearlyOrdered(threads, curr, queue)
    }

    constructor ()
      ensures Valid() && threads == map[] && queue == [] && curr == None
    {
      threads, queue, curr := map[], [], None;
    }

    /** `sched_cbs_init_data` for a new thread, which starts out blocked. */
    method AddThread(t: Tid, period: nat, budget: nat, now: nat)
      requires Sane() && t !in threads && 0 < budget <= period
      modifies this`threads
      ensures Sane() && (old(Valid()) ==> Valid())
      ensures threads == old(threads)[t := PolicyThread(CbsServers.Fresh(period, budget, now), Blocked, false)]
    {
      ghost var o := Valid();
      NewThread(threads, curr, queue, t, PolicyThread(CbsServers.Fresh(period, budget, now), Blocked, false), o);
      threads := threads[t := PolicyThread(CbsServers.Fresh(period, budget, now), Blocked, false)];
    }

    method QueueInsert(t: Tid)
      requires NoDup(queue)
      modifies this`queue
      ensures queue == Insert(Remove(old(queue), t), Deadlines(threads), t, false)
      ensures NoDup(queue) && forall x :: x in queue <==> x in old(queue) || x == t
    {
      RemoveMembers(queue, t);
      RemoveNoDup(queue, t);
      InsertNoDup(Remove(queue, t), Deadlines(threads), t, false);
      InsertMembers(Remove(queue, t), Deadlines(threads), t, false);
      queue := InsertInto(Remove(queue, t), Deadlines(threads), t, false);
    }

    /** `cbs_account_runtime`: charge the running thread for the time since it was last charged. */
    method AccountRuntime(t: Tid, now: nat)
      requires t in threads && ServersOk(threads)
      modifies this`threads
      ensures ServersOk(threads) && OnlyData(old(threads), threads, {t})
      ensures threads == old(threads)[t := old(threads)[t].(data := Accounted(old(threads[t]), now))]
    {
      var s := threads[t].data;
      if threads[t].status != Running || s.lastStart == 0 || now <= s.lastStart {
        assert threads[t := threads[t].(data := s)] == threads;
        return;
      }
      var delta := now - s.lastStart;
      s := s.(lastStart := now);
      ChargedBounded(s, delta);
      s := ChargeRuntime(s, delta);
      threads := threads[t := threads[t].(data := s)];
    }

    /** `cbs_refresh_active_window`. */
    method RefreshActiveWindow(t: Tid, now: nat)
      requires t in threads && ServersOk(threads)
      modifies this`threads
      ensures ServersOk(threads) && OnlyData(old(threads), threads, {t})
      ensures threads == old(threads)[t := old(threads)[t].(data := Refreshed(old(threads[t].data), now))]
      ensures Eligible(threads, t, now)
    {
      var s := threads[t].data;
      RefreshedBounded(s, now);
      if s.remaining == 0 {
        s := ReplenishAfterDepletion(s, now);
      } else if s.deadline <= now {
        s := s.(deadline := now + s.period, remaining := s.budget);
      }
      threads := threads[t := threads[t].(data := s)];
    }

    /** `cbs_refresh_thread`: refresh an active thread and put it in its place in the queue. */
    method RefreshThread(t: Tid, now: nat, ghost o: bool)
      requires t in threads && ServersOk(threads) && StatusOk(threads, curr)
      requires NoDup(queue) && QueueOk(threads, curr, Remove(queue, t), o) && (t in queue ==> Active(threads, curr, t))
      modifies this`threads, this`queue
      ensures State(o) && OnlyData(old(threads), threads, {t})
      ensures forall x :: x in queue <==> x in old(queue) || (x == t && Active(old(threads), curr, t))
      ensures CbsServers.Valid(old(threads)[t].data)
      ensures if Active(old(threads), curr, t)
              then && threads == old(threads)[t := old(threads)[t].(data := Refreshed(old(threads[t].data), now))]
                   && Eligible(threads, t, now) && queue == Insert(Remove(old(queue), t), Deadlines(threads), t, false)
              else threads == old(threads) && queue == old(queue)
    {
      hide ServersOk, StatusOk, OnlyData, Active, Stale, Refreshed, Insert, Remove, Deadlines, AllActive, Ordered,
        NoDup;
      ServerIn(threads, t);
      if !Active(threads, curr, t) {
        SameData(threads, {t});
        RemoveMembers(queue, t);
        return;
      }
      ghost var threads0, queue0 := threads, queue;
      RefreshActiveWindow(t, now);
      RemoveMembers(queue, t);
      QueueKept(threads0, threads, curr, Remove(queue, t), {t}, o);
      StatusKept(threads0, threads, curr, {t});
      QueueInsert(t);
      Inserted(threads, Remove(queue0, t), t, o);
      ActiveWith(threads, curr, Remove(queue0, t), t, queue);
    }

    /** `cbs_refresh_queues`. */
    method RefreshQueues(now: nat, ghost o: bool)
      requires State(o)
      modifies this`threads, this`queue
      ensures State(o) && OnlyData(old(threads), threads, Members(old(queue)))
      ensures EdfWalk.SameMembers(old(queue), queue) && EligibleUpTo(threads, queue, |queue|, now)
      ensures AllRefreshed(old(threads), threads, queue, now)
      ensures NoneStale(old(threads), old(queue), now) ==> queue == old(queue)
    {
      hide ServersOk, StatusOk, QueueOk, OnlyData, EligibleUpTo, AllRefreshed, RefreshedIn, EdfWalk.SameMembers,
        EdfWalk.Ordered, EdfWalk.DueIn, NoneStale;
      var due := (s: Server) => Stale(s, now);
      var renew := (s: Server) => if s.period > 0 then Refreshed(s, now) else s;
      var key := (s: Server) => s.deadline;
      WalkReady(threads, curr, queue, key, due, renew, now, o);
      NoneDue(threads, queue, due, now);
      ghost var threads0, queue0 := threads, queue;
      threads, queue := EdfWalk.Walk(threads, queue, key, due, renew, o);
      WalkRefreshes(threads0, queue0, due, renew, now);
      WalkedServers(threads0, threads, curr, Members(queue0), now);
      ActiveQueue(threads0, curr, queue0, o);
      WalkedQueue(threads0, threads, curr, queue0, queue, key, due, now, o);
    }

    /** `cbs_account_runtime` and `cbs_refresh_thread` on the current thread: afterwards the queue
        holds every candidate, and is in order if it was in order apart from the current thread. */
    method RefreshCurrent(now: nat, ghost o: bool)
      requires Sane() && (o ==> Loose())
      modifies this`threads, this`queue
      ensures State(o) && OnlyData(old(threads), threads, Current(curr))
      ensures threads == CurrentThreads(old(threads), curr, now)
              && queue == CurrentQueue(old(threads), curr, old(queue), now)
      ensures forall x :: x in queue <==> x in Candidates(old(threads), curr, old(queue))
      ensures curr.Some? && curr.value in queue ==> AtPick(old(threads), threads, curr.value, now)
    {
      hide ServersOk, StatusOk, OnlyData, Active, Stale, Refreshed, Insert, Remove, Deadlines, AllActive, Ordered,
        NoDup;
      ghost var threads0 := threads;
      SameData(threads, Current(curr));
      WithoutCurrent(threads, curr, queue, o);
      if curr.Some? {
        CurrentThread(threads, curr, queue);
        ServerIn(threads, curr.value);
        AccountRuntime(curr.value, now);
        RemoveMembers(queue, curr.value);
        QueueKept(threads0, threads, curr, Others(queue, curr), {curr.value}, o);
        StatusKept(threads0, threads, curr, {curr.value});
        ghost var threads1 := threads;
        RefreshThread(curr.value, now, o);
        OnlyThen(threads0, threads1, threads, {curr.value}, {curr.value});
        assert {curr.value} + {curr.value} == Current(curr);
      }
    }

    /** `sched_cbs_pick_next`. Whatever the order of the queue, a candidate is chosen and every
        candidate is charged, refreshed and left with budget and a deadline ahead. If the queue was
        in order apart from the current thread, the choice has the earliest deadline. If nothing else
        was due, the choice is the head of the queue. */
    method PickNext(now: nat) returns (next: Option<Tid>)
      requires Sane()
      modifies this`threads, this`queue
      ensures Sane() && (old(Loose()) ==> Valid()) && SameBut(old(threads), threads)
      ensures var c := Candidates(old(threads), curr, old(queue));
              && (next.None? <==> c == {})
              && (next.Some? ==> next.value in c)
              && (old(Loose()) && next.Some? ==> Earliest(threads, c, next.value, now))
              && (forall x :: x in c ==> Eligible(threads, x, now))
              && (forall x :: x in queue <==> x in c && next != Some(x))
              && AllAtPick(old(threads), threads, c, now)
      ensures next.Some? ==> next.value in threads && threads[next.value].data.lastStart == now
      ensures NoneStale(CurrentThreads(old(threads), curr, now),
                        CurrentQueue(old(threads), curr, old(queue), now), now) ==>
                next == Head(CurrentQueue(old(threads), curr, old(queue), now))
    {
      hide ServersOk, StatusOk, OnlyData, Active, Stale, Refreshed, Insert, Remove, Deadlines, AllActive, Ordered,
        NoDup, AllAtPick, AtPick, AllRefreshed, Earliest, SameBut, EligibleUpTo, QueueOk, NoneStale, CurrentThreads,
        CurrentQueue, NearlyOrdered;
      ghost var threads0, queue0, c, o := threads, queue, Candidates(threads, curr, queue), Loose();
      RefreshCurrent(now, o);
      ghost var threads1, queue1 := threads, queue;
      RefreshQueues(now, o);
      OnlyDataSame(threads0, threads1, Current(curr));
      OnlyDataSame(threads1, threads, Members(queue1));
      SameThen(threads0, threads1, threads);
      assert c == Members(queue) == Members(queue1);
      QueueAtPick(threads0, threads1, threads, curr, queue, now);
      AllEligible(threads, queue, now);
      if queue != [] {
        assert queue[0] in queue;
        next := Some(queue[0]);
        ghost var threads2, queue2 := threads, queue;
        if o {
          HeadIsEarliest(threads, curr, queue, now);
        }
        Removed(threads, curr, queue, queue[0], o);
        queue := Remove(queue, queue[0]);
        threads := threads[next.value := threads[next.value].(data := threads[next.value].data.(lastStart := now))];
        StartedAtPick(threads0, threads2, threads, c, next.value, now);
        Started(threads2, threads, curr, queue, c, next.value, now, o);
        SameThen(threads0, threads2, threads);
      } else {
        next := None;
      }
      Unordered(threads, curr, queue, o);
    }

    /** `cbs_timer_handler`: the current thread is charged, refreshed and queued, the queue refreshed. */
    method TimerHandler(now: nat)
      requires Sane()
      modifies this`threads, this`queue
      ensures Sane() && (old(Loose()) ==> Valid()) && SameBut(old(threads), threads)
      ensures forall x :: x in queue <==> x in Candidates(old(threads), curr, old(queue))
      ensures EligibleUpTo(threads, queue, |queue|, now) && AllAtPick(old(threads), threads, Members(queue), now)
    {
      hide ServersOk, StatusOk, OnlyData, Candidates, QueueOk, SameBut, EligibleUpTo, AllAtPick, AtPick, AllRefreshed,
        NearlyOrdered, NoneStale, CurrentThreads, CurrentQueue;
      ghost var threads0, o := threads, Loose();
      RefreshCurrent(now, o);
      ghost var threads1, queue1 := threads, queue;
      RefreshQueues(now, o);
      QueueAtPick(threads0, threads1, threads, curr, queue, now);
      OnlyDataSame(threads0, threads1, Current(curr));
      OnlyDataSame(threads1, threads, Members(queue1));
      SameThen(threads0, threads1, threads);
      Unordered(threads, curr, queue, o);
    }

    /** `sleep_thread_locked` with `sched_cbs_sleep`. */
    method Sleep(t: Tid, now: nat)
      requires Sane() && t in threads
      modifies this`threads, this`queue
      ensures Sane() && (old(Valid()) ==> Valid()) && threads == Slept(old(threads), curr, t, now)
      ensures forall x :: x in queue <==> x in old(queue) && x != t
    {
      hide ServersOk, StatusOk, QueueOk, Accounted, Remove;
      ghost var threads0, o := threads, Valid();
      SleepKeeps(threads, curr, queue, t, now, o);
      if curr == Some(t) {
        AccountRuntime(t, now);
      }
      queue := Remove(queue, t);
      threads := threads[t := threads[t].(data := threads[t].data.(lastStart := 0))];
      if threads[t].status == Running {
        threads := threads[t := threads[t].(blocking := true)];
      } else {
        threads := threads[t := threads[t].(status := Blocked)];
      }
      assert threads == Slept(threads0, curr, t, now);
      Unordered(threads, curr, queue, o);
    }

    /** `wake_thread_locked` with `sched_cbs_wake`. */
    method Wake(t: Tid, now: nat)
      requires Sane() && t in threads
      modifies this`threads, this`queue
      ensures Sane() && (old(Valid()) ==> Valid())
      ensures if old(threads[t]).status == Blocked || old(threads[t]).blocking
              then && threads == WokenThread(old(threads), t, now)
                   && Eligible(threads, t, now)
                   && forall x :: x in queue <==> x in old(queue) || x == t
              else threads == old(threads) && queue == old(queue)
    {
      hide ServersOk, StatusOk, QueueOk, Woken, Ordered, NoDup, Insert, Deadlines, Remove, Stale;
      if threads[t].status == Blocked || threads[t].blocking {
        ghost var threads0, queue0, o := threads, queue, Valid();
        WakeKeeps(threads, curr, queue, t, now, o);
        var s := ApplyWakeRule(threads[t].data, now);
        threads := threads[t := threads[t].(data := s.(lastStart := 0))];
        SameOrder(threads, WokenThread(threads0, t, now), queue, t, o);
        QueueInsert(t);
        if threads[t].status == Blocked {
          threads := threads[t := threads[t].(status := Runnable)];
        }
        threads := threads[t := threads[t].(blocking := false)];
        assert threads == WokenThread(threads0, t, now);
        assert queue == Insert(queue0, Deadlines(threads), t, false);
        Unordered(threads, curr, queue, o);
      }
    }

    /** `sched_cbs_prioritize`, called for an active thread. A queued current thread is refreshed where
        it stands, so it may end up ahead of a thread with an earlier deadline: exactly when it is
        `Displaced`. A request for another thread then breaks the order of the rest exactly when it is
        `Squeezed`. */
    method Prioritize(t: Tid, now: nat)
      requires Sane() && Active(threads, curr, t)
      modifies this`threads, this`queue
      ensures Sane() && threads == AskedThreads(old(threads), curr, Ask(t, now))
      ensures queue == AskedQueue(old(threads), curr, old(queue), Ask(t, now))
      ensures old(Valid()) ==> (Valid() <==> !Displaced(old(threads), curr, old(queue), t, now))
      ensures old(Loose()) ==> (Loose() <==> !Squeezed(old(threads), curr, old(queue), Ask(t, now)))
    {
      hide ServersOk, StatusOk, Ordered, NoDup, Insert, Deadlines, Remove, Refreshed, OnlyData, Displaced, Squeezed,
        Proper, NearlyOrdered, AllActive, Active;
      ghost var threads0, queue0, o, loose := threads, queue, Valid(), Loose();
      AskedParts(threads, curr, queue, Ask(t, now));
      RefreshActiveWindow(t, now);
      if curr != Some(t) {
        QueueInsert(t);
      }
      if o {
        AskedOrdered(threads0, curr, queue0, Ask(t, now));
        ProperIff(threads, curr, queue);
      }
      if loose {
        AskedNearly(threads0, curr, queue0, Ask(t, now));
      }
    }

    /** The scan of `schedule`: every pending request of an active thread, in list order. */
    method Scan(asks: seq<Ask>)
      requires Sane()
      modifies this`threads, this`queue
      ensures Sane() && threads == ScannedThreads(old(threads), curr, asks)
      ensures queue == ScannedQueue(old(threads), curr, old(queue), asks)
      ensures old(Loose()) && Smooth(old(threads), curr, old(queue), asks) ==> Loose()
    {
      hide Proper, NearlyOrdered, Displaced, Squeezed, Active, Smooth, AskedThreads, AskedQueue;
      ghost var threads0, queue0 := threads, queue;
      for k := 0 to |asks|
        invariant Sane()
        invariant ScannedThreads(threads0, curr, asks) == ScannedThreads(threads, curr, asks[k..])
        invariant ScannedQueue(threads0, curr, queue0, asks) == ScannedQueue(threads, curr, queue, asks[k..])
      {
        assert asks[k..][0] == asks[k] && asks[k..][1..] == asks[k + 1..];
        if Active(threads, curr, asks[k].t) {
          Prioritize(asks[k].t, asks[k].at);
        } else {
          NotAsked(threads, curr, queue, asks[k]);
        }
      }
      if old(Loose()) && Smooth(threads0, curr, queue0, asks) {
        ScanNearly(threads0, curr, queue0, asks);
      }
    }

    /** `schedule`: the pending priority requests, then the policy's choice, or the idle thread if it
        has work. The choice has the earliest deadline, and the queue is left in order, whenever the
        scan squeezes nothing; that is so if it was `Harmless`. */
    method Schedule(now: nat, asks: seq<Ask>, idleWork: bool)
      requires Sane()
      modifies this
      ensures Sane()
      ensures var threads1, queue1 := ScannedThreads(old(threads), old(curr),
                                                     asks), ScannedQueue(old(threads), old(curr), old(queue), asks);
              if idleWork
              then && curr == None && queue == queue1 && threads == Switched(threads1, old(curr), None)
                   && (Valid() <==> Ordered(threads1, queue1, true))
              else
                var c := Candidates(threads1, old(curr), queue1);
                && (curr.None? <==> c == {})
                && (curr.Some? ==> curr.value in c && Eligible(threads, curr.value, now))
                && (forall x :: x in queue <==> x in c && curr != Some(x))
                && AllAtPick(threads1, threads, c, now)
                && SameBut(Switched(threads1, old(curr), curr), threads)
                && (old(Loose()) && Smooth(old(threads), old(curr), old(queue), asks) ==>
                      Valid() && (curr.Some? ==> Earliest(threads, c, curr.value, now)))
                && (Proper(threads1, old(curr), queue1, false) &&
                    (NoneStale(CurrentThreads(threads1, old(curr), now),
                               CurrentQueue(threads1, old(curr), queue1, now), now) ==>
                       curr == Head(CurrentQueue(threads1, old(curr), queue1, now))))
      ensures curr.Some? ==> curr.value in threads && threads[curr.value].data.lastStart == now
      ensures old(Valid()) && Harmless(old(threads), old(curr), old(queue), asks, idleWork) ==>
                Valid() && Smooth(old(threads), old(curr), old(queue), asks)
    {
      hide ServersOk, StatusOk, QueueOk, Earliest, SameBut, AllAtPick, Candidates, Switched, AllActive, NearlyOrdered,
        Smooth, Harmless, Eligible, NoneStale, CurrentThreads, CurrentQueue;
      ghost var o, smooth := Loose(), Smooth(threads, curr, queue, asks);
      SmoothIfHarmless(threads, curr, queue, asks, idleWork);
      Scan(asks);
      if idleWork {
        ghost var threads1 := threads;
        SwitchTo(None);
        SwitchedOrder(threads1, old(curr), None, queue);
      } else {
        Decide(now);
      }
    }

    /** The policy's choice, and the switch to it. */
    method Decide(now: nat)
      requires Sane()
      modifies this
      ensures Sane() && (old(Loose()) ==> Valid())
      ensures var c := Candidates(old(threads), old(curr), old(queue));
              && (curr.None? <==> c == {})
              && (curr.Some? ==> curr.value in c && Eligible(threads, curr.value, now))
              && (forall x :: x in queue <==> x in c && curr != Some(x))
              && AllAtPick(old(threads), threads, c, now)
              && SameBut(Switched(old(threads), old(curr), curr), threads)
              && (old(Loose()) && curr.Some? ==> Earliest(threads, c, curr.value, now))
      ensures curr.Some? ==> curr.value in threads && threads[curr.value].data.lastStart == now
      ensures NoneStale(CurrentThreads(old(threads), old(curr), now),
                        CurrentQueue(old(threads), old(curr), old(queue), now), now) ==>
                curr == Head(CurrentQueue(old(threads), old(curr), old(queue), now))
    {
      hide ServersOk, StatusOk, QueueOk, Earliest, SameBut, AllAtPick, Candidates, Switched, AllActive, NearlyOrdered,
        NoneStale, CurrentThreads, CurrentQueue, Stale;
      ghost var threads0, curr0, c := threads, curr, Candidates(threads, curr, queue);
      ghost var q0 := queue;
      var next := PickNext(now);
      ActiveMembers(threads0, curr, q0);
      CandidatesActive(threads0, threads, curr0, q0);
      ghost var threads1 := threads;
      SwitchTo(next);
      SwitchedSame(threads0, threads1, curr0, next);
      AtPickSwitched(threads0, threads1, curr0, next, c, now);
      if next.Some? {
        EligibleKept(threads1, curr0, next.value, now);
        if Earliest(threads1, c, next.value, now) {
          EarliestKept(threads1, curr0, c, next.value, now);
        }
      }
    }

    ghost function Snap(): Snapshot
      reads this
    {
      Snapshot(threads, curr, queue)
    }

    /** One operation; those the core would not make are passed over. */
    method Do(op: Op)
      requires Sane()
      modifies this
      ensures Sane()
      ensures old(Valid()) && HarmlessOp(old(Snap()), op) ==> Valid() && FairOp(old(Snap()), op, Snap())
    {
      hide Proper, Harmless, Smooth, NearlyOrdered, Earliest, Candidates, ScannedThreads, ScannedQueue, AllAtPick,
        SameBut, NoneStale, CurrentThreads, CurrentQueue, Eligible, Switched, AtPick;
      if Valid() {
        ProperFalse(threads, curr, queue);
      }
      match op {
        case Add(t, period, budget, now) =>
          if t !in threads && 0 < budget <= period {
            AddThread(t, period, budget, now);
          }
        case Sleep(t, now) =>
          if t in threads {
            Sleep(t, now);
          }
        case Wake(t, now) =>
          if t in threads {
            Wake(t, now);
          }
        case Timer(now) => TimerHandler(now);
        case Schedule(now, asks, idleWork) => Schedule(now, asks, idleWork);
      }
    }

    /** Any operations in a row: every choice is the earliest, and the queue stays in order, up to the first
        priority scan that is not harmless; there is none when no priority is asked for. */
    method Run(ops: seq<Op>) returns (ghost hist: seq<Snapshot>)
      requires Valid()
      modifies this
      ensures Sane() && |hist| == |ops| + 1 && hist[0] == old(Snap()) && hist[|ops|] == Snap()
      ensures Calm(hist, ops, |ops|) ==> Valid()
      ensures forall k :: 0 <= k < |ops| && Calm(hist, ops, k + 1) ==> FairOp(hist[k], ops[k], hist[k + 1])
      ensures (forall k :: 0 <= k < |ops| && ops[k].Schedule? ==> ops[k].asks == []) ==> Calm(hist, ops, |ops|)
    {
      hide Proper, HarmlessOp, FairOp;
      ProperFalse(threads, curr, queue);
      hist := [Snap()];
      for n := 0 to |ops|
        invariant Sane() && |hist| == n + 1 && hist[0] == old(Snap()) && hist[n] == Snap()
        invariant Calm(hist, ops, n) ==> Valid()
        invariant forall k :: 0 <= k < n && Calm(hist, ops, k + 1) ==> FairOp(hist[k], ops[k], hist[k + 1])
        invariant (forall k :: 0 <= k < n && ops[k].Schedule? ==> ops[k].asks == []) ==> Calm(hist, ops, n)
      {
        if ops[n].Schedule? ==> ops[n].asks == [] {
          NothingAsked(hist[n], ops[n]);
        }
        Do(ops[n]);
        CalmGrows(hist, Snap(), ops);
        hist := hist + [Snap()];
      }
    }

    method SwitchTo(next: Option<Tid>)
      requires Sane() && (next.Some? ==> Active(threads, curr, next.value) && next.value !in queue)
      modifies this`threads, this`curr
      ensures Sane() && (old(Valid()) ==> Valid()) && curr == next && threads == Switched(old(threads), old(curr), next)
    {
      hide ServersOk, StatusOk, QueueOk;
      ghost var threads0, o := threads, Valid();
      SwitchKeeps(threads, curr, queue, next, o);
      CurrentIn(threads, curr);
      if curr != next {
        if curr.Some? {
          var th := threads[curr.value];
          threads := threads[curr.value := th.(status := if th.blocking then Blocked else Runnable, blocking := false)];
        }
        if next.Some? {
          threads := threads[next.value := threads[next.value].(status := Running)];
        }
      }
      assert threads == Switched(threads0, curr, next);
      curr := next;
      Unordered(threads, curr, queue, o);
    }
  }

  /** What the core asks of the policy. */
  datatype Op =
    | Add(t: Tid, period: nat, budget: nat, now: nat)
    | Sleep(t: Tid, now: nat) | Wake(t: Tid, now: nat) | Timer(now: nat)
    | Schedule(now: nat, asks: seq<Ask>, idleWork: bool)

  datatype Snapshot = Snapshot(threads: Threads, curr: Option<Tid>, queue: seq<Tid>)

  ghost predicate HarmlessOp(s: Snapshot, op: Op) {
    op.Schedule? ==> Harmless(s.threads, s.curr, s.queue, op.asks, op.idleWork)
  }

  /** A choice, if one is made, is the earliest of those the scan has left to choose from. */
  ghost predicate FairOp(s: Snapshot, op: Op, s': Snapshot) {
    op.Schedule? && !op.idleWork && s'.curr.Some? ==>
      Earliest(s'.threads, Candidates(ScannedThreads(s.threads, s.curr, op.asks), s.curr,
                                      ScannedQueue(s.threads, s.curr, s.queue, op.asks)), s'.curr.value, op.now)
  }

  /** The first `n` operations were harmless. */
  ghost predicate Calm(hist: seq<Snapshot>, ops: seq<Op>, n: nat)
    requires n <= |ops| && n <= |hist|
  {
    forall k :: 0 <= k < n ==> HarmlessOp(hist[k], ops[k])
  }

  lemma CalmGrows(hist: seq<Snapshot>, s: Snapshot, ops: seq<Op>)
    requires 0 < |hist| <= |ops|
    ensures forall k :: 0 <= k < |hist| ==> Calm(hist + [s], ops, k) == Calm(hist, ops, k)
    ensures Calm(hist + [s], ops, |hist|) <==>
              Calm(hist, ops, |hist| - 1) && HarmlessOp(hist[|hist| - 1], ops[|hist| - 1])
  {
  }

  lemma NothingAsked(s: Snapshot, op: Op)
    requires op.Schedule? ==> op.asks == []
    ensures HarmlessOp(s, op)
  {
  }

  lemma EligibleKept(threads: Threads, curr: Option<Tid>, t: Tid, now: nat)
    requires Eligible(threads, t, now)
    ensures Eligible(Switched(threads, curr, Some(t)), t, now)
            && Switched(threads, curr, Some(t))[t].data == threads[t].data
  {
  }

  lemma ActiveMembers(threads: Threads, curr: Option<Tid>, q: seq<Tid>)
    requires Proper(threads, curr, q, false)
    ensures AllActive(threads, curr, q)
  {
  }

  lemma Unordered(threads: Threads, curr: Option<Tid>, q: seq<Tid>, o: bool)
    requires Proper(threads, curr, q, o)
    ensures Proper(threads, curr, q, false)
  {
  }

  lemma ProperIff(threads: Threads, curr: Option<Tid>, q: seq<Tid>)
    ensures Proper(threads, curr, q, true) <==> Proper(threads, curr, q, false) && Ordered(threads, q, true)
  {
  }

  lemma AskedParts(threads: Threads, curr: Option<Tid>, q: seq<Tid>, a: Ask)
    requires Proper(threads, curr, q, false) && Active(threads, curr, a.t)
    ensures a.t in threads && ServersOk(threads) && NoDup(q) && threads[a.t].data.period > 0
    ensures AskedThreads(threads, curr, a) == threads[a.t := threads[a.t].(data := Refreshed(threads[a.t].data, a.at))]
    ensures Proper(AskedThreads(threads, curr, a), curr, AskedQueue(threads, curr, q, a), false)
  {
    AskedProper(threads, curr, q, a);
    AskedServers(threads, curr, a);
  }

  lemma NotAsked(threads: Threads, curr: Option<Tid>, q: seq<Tid>, a: Ask)
    requires !Active(threads, curr, a.t)
    ensures AskedThreads(threads, curr, a) == threads && AskedQueue(threads, curr, q, a) == q
  {
  }

  lemma WithoutCurrent(threads: Threads, curr: Option<Tid>, q: seq<Tid>, o: bool)
    requires Proper(threads, curr, q, false) && (o ==> NearlyOrdered(threads, curr, q))
    ensures QueueOk(threads, curr, Others(q, curr), o) && NoDup(q)
  {
    if curr.Some? {
      Removed(threads, curr, q, curr.value, false);
    }
  }

  lemma SmoothIfHarmless(threads: Threads, curr: Option<Tid>, q: seq<Tid>, asks: seq<Ask>, idleWork: bool)
    requires Proper(threads, curr, q, false)
    ensures Proper(threads, curr, q, true) && Harmless(threads, curr, q, asks, idleWork) ==>
              && Smooth(threads, curr, q, asks) && NearlyOrdered(threads, curr, q)
              && (idleWork ==> Ordered(ScannedThreads(threads, curr, asks), ScannedQueue(threads, curr, q, asks), true))
  {
    if Proper(threads, curr, q, true) && Harmless(threads, curr, q, asks, idleWork) {
      HarmlessIsSmooth(threads, curr, q, asks, idleWork);
      ProperFalse(threads, curr, q);
    }
  }

  lemma SwitchedOrder(threads: Threads, curr: Option<Tid>, next: Option<Tid>, q: seq<Tid>)
    requires Proper(Switched(threads, curr, next), next, q, false)
    ensures Proper(Switched(threads, curr, next), next, q, true) <==> Ordered(threads, q, true)
  {
    var threads' := Switched(threads, curr, next);
    if Ordered(threads, q, true) {
      InOrderBySame(q, Deadlines(threads), Deadlines(threads'), true);
    }
    if Ordered(threads', q, true) {
      InOrderBySame(q, Deadlines(threads'), Deadlines(threads), true);
    }
  }

  // ------------------------------------------------------- the wrong choice

  /** The part of a thread's state that the example depends on. */
  predicate Queued(threads: Threads, curr: Option<Tid>, t: Tid, deadline: nat) {
    Active(threads, curr, t) && threads[t].data.deadline == deadline && threads[t].data.remaining > 0
    && threads[t].data.period > 0
  }

  /** Three servers set up and woken at time 10; the first is switched to, and the timer queues it at 11. */
  method ThreeQueued() returns (c: Cbs)
    ensures fresh(c) && c.Valid() && c.curr == Some(0) && c.queue == [0, 1, 2]
    ensures Queued(c.threads, c.curr, 0, 110) && Queued(c.threads, c.curr, 1, 160) && Queued(c.threads, c.curr, 2, 190)
    ensures c.threads[0].data.period == 100 && c.threads[0].data.budget == 10 && c.threads[1].status != Running
            && c.threads[2].status != Running
  {
    hide Proper, NearlyOrdered, Smooth, Harmless, AllAtPick, Switched, SameBut, EligibleUpTo, Earliest, NoneStale,
      CurrentThreads, CurrentQueue, Stale;
    c := ThreeWoken();
    ghost var threads0 := c.threads;
    ProperFalse(c.threads, c.curr, c.queue);
    NoAsks(c.threads, c.curr, c.queue);
    assert Candidates(c.threads, c.curr, c.queue) == {0, 1, 2};
    c.Schedule(10, [], false);
    FirstChosen(threads0, c.threads, c.curr);
    ghost var threads1 := c.threads;
    ProperFalse(c.threads, c.curr, c.queue);
    Statuses(c.threads, c.curr, c.queue);
    NotBlocking(threads0, c.threads);
    assert Candidates(c.threads, c.curr, c.queue) == {0, 1, 2};
    c.TimerHandler(11);
    TimerLeaves(threads1, c.threads, c.queue);
    ProperOrdered(c.threads, c.curr, c.queue);
    Statuses(c.threads, c.curr, c.queue);
    OrderOfThree(c.queue, Deadlines(c.threads));
  }

  lemma NotBlocking(threads: Threads, threads': Threads)
    requires threads == Woken3() && SameBut(Switched(threads, None, Some(0)), threads')
    ensures 0 in threads' && !threads'[0].blocking
  {
    assert 0 in Switched(threads, None, Some(0));
  }

  lemma Statuses(threads: Threads, curr: Option<Tid>, q: seq<Tid>)
    requires Proper(threads, curr, q, false)
    ensures forall t :: t in threads ==> (threads[t].status == Running <==> curr == Some(t))
    ensures forall t :: t in q ==> Active(threads, curr, t)
  {
  }

  function Woken3(): Threads {
    map[0 := PolicyThread(Server(100, 10, 10, 110, 0, 0, 10), Runnable, false),
        1 := PolicyThread(Server(150, 10, 10, 160, 0, 0, 10), Runnable, false),
        2 := PolicyThread(Server(180, 10, 10, 190, 0, 0, 10), Runnable, false)]
  }

  method ThreeWoken() returns (c: Cbs)
    ensures fresh(c) && c.Valid() && c.curr == None && c.threads == Woken3() && forall x :: x in c.queue <==>
              x in {0, 1, 2}
  {
    hide Proper;
    c := new Cbs();
    ProperFalse(c.threads, c.curr, c.queue);
    c.AddThread(0, 100, 10, 10);
    c.AddThread(1, 150, 10, 10);
    c.AddThread(2, 180, 10, 10);
    c.Wake(0, 10);
    c.Wake(1, 10);
    c.Wake(2, 10);
    assert c.threads == Woken3();
  }

  lemma NoAsks(threads: Threads, curr: Option<Tid>, q: seq<Tid>)
    ensures Smooth(threads, curr, q, []) && ScannedThreads(threads, curr, []) == threads
            && ScannedQueue(threads, curr, q, []) == q
  {
  }

  lemma FirstChosen(threads: Threads, threads': Threads, curr: Option<Tid>)
    requires threads == Woken3() && curr.Some? && curr.value in {0, 1, 2}
    requires AllAtPick(threads, threads', {0, 1, 2}, 10) && Earliest(threads', {0, 1, 2}, curr.value, 10)
    ensures curr == Some(0)
    ensures forall t :: t in {0, 1, 2} ==> threads'[t].data.(lastStart := 0) == threads[t].data
  {
    forall t | t in {0, 1, 2}
      ensures AtPick(threads, threads', t, 10)
    {
    }
  }

  lemma TimerLeaves(threads: Threads, threads': Threads, q: seq<Tid>)
    requires forall t :: t in {0, 1, 2} ==> t in threads && threads[t].data.(lastStart := 0) == Woken3()[t].data
    requires threads[0].data.lastStart == 10 && threads[0].status == Running && threads[1].status != Running
             && threads[2].status != Running
    requires AllAtPick(threads, threads', Members(q), 11) && forall x :: x in q <==> x in {0, 1, 2}
    ensures forall t :: t in {0, 1, 2} ==>
              t in threads' && threads'[t].data.remaining > 0 && threads'[t].data.period > 0
    ensures threads'[0].data.deadline == 110 && threads'[1].data.deadline == 160 && threads'[2].data.deadline == 190
    ensures threads'[0].data.period == 100 && threads'[0].data.budget == 10
  {
    assert 0 in q && 1 in q && 2 in q;
    assert AtPick(threads, threads', 0, 11) && AtPick(threads, threads', 1, 11) && AtPick(threads, threads', 2, 11);
    assert Windows(10, 10, 1) == 0;
  }

  /** Both the current thread and thread 2 are asked for at time 120, when the deadline of the first has
      passed: it is refreshed where it stands, and thread 2 is put ahead of it and so of thread 1. */
  lemma ScanOfTwo(threads: Threads)
    requires Queued(threads, Some(0), 0, 110) && Queued(threads, Some(0), 1, 160) && Queued(threads, Some(0), 2, 190)
    requires threads[0].data.period == 100 && threads[0].data.budget > 0
    ensures var asks := [Ask(0, 120), Ask(2, 120)];
            var threads1 := ScannedThreads(threads, Some(0), asks);
            && ScannedQueue(threads, Some(0), [0, 1, 2], asks) == [2, 0, 1]
            && Queued(threads1, Some(0), 0, 220) && Queued(threads1, Some(0), 1, 160)
               && Queued(threads1, Some(0), 2, 190)
            && threads1[1] == threads[1] && threads1[2] == threads[2]
  {
    var a, b := Ask(0, 120), Ask(2, 120);
    var asks := [a, b];
    var threads0 := threads[0 := threads[0].(data := FromNow(threads[0].data, 120))];
    assert AskedThreads(threads, Some(0), a) == threads0 && AskedQueue(threads, Some(0), [0, 1, 2], a) == [0, 1, 2];
    assert threads0[2 := threads0[2].(data := threads0[2].data)] == threads0;
    assert AskedThreads(threads0, Some(0), b) == threads0;
    TwoAhead(threads0);
    assert asks[1..] == [b] && [b][1..] == [];
    hide AskedThreads, AskedQueue;
    assert ScannedThreads(threads, Some(0), asks) == ScannedThreads(threads0, Some(0), [b]) == threads0;
  }

  lemma TwoAhead(threads: Threads)
    requires Queued(threads, Some(0), 0, 220) && Queued(threads, Some(0), 1, 160) && Queued(threads, Some(0), 2, 190)
    ensures Insert(Remove([0, 1, 2], 2), Deadlines(threads), 2, false) == [2, 0, 1]
  {
    assert [0, 1, 2][1..] == [1, 2] && [1, 2][1..] == [2] && [2][1..] == [];
    assert Remove([0, 1, 2], 2) == [0, 1];
  }

  /** Then the current thread goes to the end, and thread 2 is the head. */
  lemma PickOfTwo(threads: Threads)
    requires Proper(threads, Some(0), [2, 0, 1], false)
    requires Queued(threads, Some(0), 0, 220) && Queued(threads, Some(0), 1, 160) && Queued(threads, Some(0), 2, 190)
    ensures NoneStale(CurrentThreads(threads, Some(0), 120), CurrentQueue(threads, Some(0), [2, 0, 1], 120), 120)
    ensures CurrentQueue(threads, Some(0), [2, 0, 1], 120) == [2, 1, 0]
  {
    AccountedLater(threads[0], 120);
    AccountedOk(threads[0], 120);
    RefreshedBounded(Accounted(threads[0], 120), 120);
    RefreshedLater(Accounted(threads[0], 120), 120);
    hide Accounted, Refreshed, Bounded, Insert, Remove, ServersOk, StatusOk, QueueOk;
    PutLast(Deadlines(CurrentThreads(threads, Some(0), 120)));
  }

  lemma PutLast(key: Tid -> int)
    requires key(2) <= key(0) && key(1) <= key(0)
    ensures Insert(Remove([2, 0, 1], 0), key, 0, false) == [2, 1, 0]
  {
    assert [2, 0, 1][1..] == [0, 1] && [0, 1][1..] == [1] && Remove([2, 0, 1], 0) == [2, 1];
    assert [2, 1][1..] == [1] && [1][1..] == [];
    assert Insert([1], key, 0, false) == [1, 0];
  }

  lemma AccountedLater(th: PolicyThread<Server>, now: nat)
    requires CbsServers.Valid(th.data)
    ensures Accounted(th, now).deadline >= th.data.deadline
  {
    hide Windows;
    var s := th.data;
    if th.status == Running && s.lastStart != 0 && now > s.lastStart {
      var n := Windows(s.remaining, s.budget, now - s.lastStart);
      assert n * s.period >= 0;
    }
  }

  /** A real run that ends with the choice of thread 2 while thread 1, eligible and queued, has an
      earlier deadline. */
  method WrongChoice() returns (c: Cbs)
    ensures c.curr == Some(2) && 1 in c.queue && Eligible(c.threads, 1, 120) && Eligible(c.threads, 2, 120)
    ensures c.threads[1].data.deadline < c.threads[2].data.deadline
  {
    hide Proper, NearlyOrdered, Smooth, Harmless, AllAtPick, Switched, SameBut, Earliest, NoneStale, CurrentThreads,
      CurrentQueue, Stale, ScannedThreads, ScannedQueue, Head;
    c := ThreeQueued();
    ProperFalse(c.threads, c.curr, c.queue);
    ScanOfTwo(c.threads);
    var asks := [Ask(0, 120), Ask(2, 120)];
    ghost var threads1 := ScannedThreads(c.threads, c.curr, asks);
    assert Candidates(threads1, Some(0), [2, 0, 1]) == {0, 1, 2};
    c.Schedule(120, asks, false);
    PickOfTwo(threads1);
    assert [2, 1, 0] != [] && Head([2, 1, 0]) == Some(2) by { HeadOfThree(); }
    LeftBehind(threads1, c.threads);
  }

  lemma HeadOfThree()
    ensures Head([2, 1, 0]) == Some(2)
  {
  }

  lemma LeftBehind(threads: Threads, threads': Threads)
    requires AllAtPick(threads, threads', {0, 1, 2}, 120)
    requires Queued(threads, Some(0), 1, 160) && Queued(threads, Some(0), 2, 190)
    requires threads[1].status != Running && threads[2].status != Running
    ensures Eligible(threads', 1, 120) && Eligible(threads', 2, 120)
            && threads'[1].data.deadline < threads'[2].data.deadline
  {
    assert AtPick(threads, threads', 1, 120) && AtPick(threads, threads', 2, 120);
  }
}
