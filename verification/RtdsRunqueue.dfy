/** The per-pCPU ready and depleted queues of the work-conserving real-time deferrable server policy,
    under the core scheduler's sleep, wake, priority scan and switch. */
module RtdsRunqueue {
  import opened Common
  import EdfWalk
  import opened OrderedQueues
  import opened PolicyThreads
  import opened RtdsPriority
  import opened RtdsQueue

  /** The servers once the current thread is charged and brought up to date. */
  function CurrentThreads(threads: Threads, curr: Option<Tid>, now: nat): Threads {
    if curr.None? || curr.value !in threads || threads[curr.value].data.period == 0 then threads
    else threads[curr.value := threads[curr.value].(data := Advanced(Accounted(threads[curr.value], now), now))]
  }

  /** ... and the ready queue, with the current thread in its place if it has budget. */
  function CurrentReady(threads: Threads, curr: Option<Tid>, ready: seq<Tid>, now: nat): seq<Tid> {
    if curr.None? || !Active(threads, curr, curr.value) then ready
    else
      var threads' := CurrentThreads(threads, curr, now);
      var rest := Remove(ready, curr.value);
      if Fit(threads', curr, curr.value) then Insert(rest, Deadlines(threads'), curr.value, false) else rest
  }

  /** Nothing queued is due, and nothing depleted has budget. */
  ghost predicate Quiet(threads: Threads, ready: seq<Tid>, depleted: seq<Tid>, now: nat) {
    NoneDue(threads, ready, now) && Idle(threads, depleted, now)
  }

  ghost predicate Idle(threads: Threads, depleted: seq<Tid>, now: nat) {
    forall t :: t in depleted ==> t in threads && now < threads[t].data.deadline && threads[t].data.remaining == 0
  }

  /** The first `i` nodes have been brought up to date, the others not yet. */
  ghost predicate DoneTo(threads0: Threads, threads: Threads, q: seq<Tid>, i: nat, now: nat) {
    && (forall j :: 0 <= j < i && j < |q| ==> UpToDate(threads0, threads, q[j], now))
    && (forall j :: i <= j < |q| ==> q[j] in threads0 && q[j] in threads && threads[q[j]] == threads0[q[j]])
  }

  /** The same threads are queued, though perhaps elsewhere. */
  ghost predicate SameQueued(ready: seq<Tid>, depleted: seq<Tid>, ready': seq<Tid>, depleted': seq<Tid>) {
    forall x :: x in ready' || x in depleted' <==> x in ready || x in depleted
  }

  lemma QueuedThen(a: seq<Tid>, b: seq<Tid>, a1: seq<Tid>, b1: seq<Tid>, a2: seq<Tid>, b2: seq<Tid>)
    requires SameQueued(a, b, a1, b1) && SameQueued(a1, b1, a2, b2)
    ensures SameQueued(a, b, a2, b2)
  {
  }

  /** Of the first `i` nodes those without budget are left. */
  ghost predicate StayedTo(threads: Threads, q: seq<Tid>, i: nat, depleted: seq<Tid>) {
    i <= |q| && depleted == Staying(threads, q[..i]) + q[i..]
  }

  lemma StayedNone(threads: Threads, q: seq<Tid>, ready: seq<Tid>)
    ensures StayedTo(threads, q, 0, q) && SameQueued(ready, q, ready, q)
  {
  }

  lemma StillThere(threads: Threads, q: seq<Tid>, i: nat, depleted: seq<Tid>)
    requires StayedTo(threads, q, i, depleted) && i < |q|
    ensures q[i] in depleted
  {
    assert q[i..][0] == q[i];
  }

  lemma StayedAll(threads: Threads, q: seq<Tid>, depleted: seq<Tid>)
    requires StayedTo(threads, q, |q|, depleted)
    ensures depleted == Staying(threads, q)
  {
    assert q[..|q|] == q && q[|q|..] == [];
  }

  lemma DepletedParts(threads: Threads, curr: Option<Tid>, ready: seq<Tid>, depleted: seq<Tid>, o: bool)
    requires Proper(threads, curr, ready, depleted, o)
    ensures NoDup(depleted) && forall t :: t in depleted ==> t in threads
  {
    QueuedParts(threads, curr, ready, depleted, o);
  }

  lemma DoneNone(threads: Threads, q: seq<Tid>, now: nat)
    requires forall t :: t in q ==> t in threads
    ensures DoneTo(threads, threads, q, 0, now)
  {
  }

  lemma NotYetDone(threads0: Threads, threads: Threads, q: seq<Tid>, i: nat, now: nat)
    requires DoneTo(threads0, threads, q, i, now) && i < |q|
    ensures q[i] in threads0 && q[i] in threads && threads[q[i]] == threads0[q[i]]
    ensures Idle(threads0, q, now) ==> now < threads[q[i]].data.deadline && threads[q[i]].data.remaining == 0
  {
    assert q[i] in q;
  }

  lemma DoneMore(threads0: Threads, threads1: Threads, threads2: Threads, q: seq<Tid>, i: nat, now: nat)
    requires DoneTo(threads0, threads1, q, i, now) && i < |q| && NoDup(q) && OnlyData(threads1, threads2, {q[i]})
    requires UpToDate(threads1, threads2, q[i], now)
    ensures DoneTo(threads0, threads2, q, i + 1, now)
  {
    hide Advanced;
    LaterSame(threads1, threads2, q, i);
  }

  lemma AllDone(threads0: Threads, threads: Threads, q: seq<Tid>, now: nat)
    requires DoneTo(threads0, threads, q, |q|, now)
    ensures forall t :: t in q ==> UpToDate(threads0, threads, t, now)
  {
    hide Advanced;
  }

  class Rtds {
    /** The reservation of the pCPU's pool, the same for every thread. */
    const period: nat
    const budget: nat
    var threads: Threads
    var ready: seq<Tid>
    var depleted: seq<Tid>
    var curr: Option<Tid>
    /** The latest time seen. */
    ghost var latest: nat

    /** Servers, statuses and queues are as they should be; with `o` the ready queue is in order. */
    ghost predicate State(o: bool)
      reads this
    {
      Proper(threads, curr, ready, depleted, o)
    }

    ghost predicate Sane()
      reads this
    {
      State(false) && Timed()
    }

    ghost predicate Valid()
      reads this
    {
      State(true) && Timed()
    }

    ghost predicate Timed()
      reads this
    {
      0 < budget <= period && Paced(threads, period, budget, latest)
    }

    /** As `Valid`, but the current thread may stand anywhere in the ready queue. */
    ghost predicate Loose()
      reads this
    {
      NearlyOrdered(threads, curr, ready, depleted)
    }

    /** `sched_rtds_init`. */
    constructor (period: nat, budget: nat)
      requires 0 < budget <= period
      ensures Valid() && threads == map[] && ready == [] && depleted == [] && curr == None && latest == 0
      ensures this.period == period && this.budget == budget
    {
      this.period, this.budget := period, budget;
      threads, ready, depleted, curr, latest := map[], [], [], None, 0;
    }

    /** `sched_rtds_init_data` for a new thread, which starts out blocked. */
    method AddThread(t: Tid, now: nat)
      requires Sane() && t !in threads
      modifies this`threads, this`latest
      ensures Sane() && (old(Valid()) ==> Valid()) && latest == Later(old(latest), now)
      ensures threads == old(threads)[t := PolicyThread(Fresh(period, budget, now), Blocked, false)]
    {
      hide ServerOk, Proper, Boundary;
      ghost var o := Valid();
      FreshOk(period, budget, now);
      BoundaryGrows(latest, Later(latest, now), period);
      BoundaryGrows(now, Later(latest, now), period);
      NotQueued(threads, curr, ready, depleted, t);
      OneThread(threads, curr, ready, depleted, t, PolicyThread(Fresh(period, budget, now), Blocked, false), o);
      threads := threads[t := PolicyThread(Fresh(period, budget, now), Blocked, false)];
      latest := Later(latest, now);
      Unordered(threads, curr, ready, depleted, o);
    }

    method SetData(t: Tid, s: Server)
      requires Base(threads, curr) && t in threads && ServerOk(s)
      modifies this`threads
      ensures Base(threads, curr) && OnlyData(old(threads), threads, {t})
      ensures threads == old(threads)[t := old(threads)[t].(data := s)]
    {
      threads := threads[t := threads[t].(data := s)];
    }

    /** `rtds_refresh_thread`, once the period has been advanced: the queue follows from the budget. A
        depleted thread that stays depleted keeps its place. */
    method Requeue(t: Tid, ghost o: bool)
      requires Base(threads, curr) && t in threads && Unqueued(threads, curr, ready, depleted, t, o)
      requires !Active(threads, curr, t) ==> t !in ready && t !in depleted
      modifies this`ready, this`depleted
      ensures State(o)
      ensures ready == if !Active(threads, curr, t) then old(ready)
                       else if threads[t].data.remaining > 0
                       then Insert(Remove(old(ready), t), Deadlines(threads), t, false)
                       else Remove(old(ready), t)
      ensures depleted == if Fit(threads, curr, t) then Remove(old(depleted), t)
                          else if Spent(threads, curr, t) && t !in old(depleted) then old(depleted) + [t]
                          else old(depleted)
      ensures forall x :: x in ready <==> (x in old(ready) && x != t) || (x == t && Fit(threads, curr, t))
      ensures forall x :: x in depleted <==> (x in old(depleted) && x != t) || (x == t && Spent(threads, curr, t))
    {
      hide Base, NoDup, Insert, Deadlines, InOrder;
      RemoveMembers(ready, t);
      RemoveMembers(depleted, t);
      if !Active(threads, curr, t) {
        return;
      }
      if threads[t].data.remaining > 0 {
        hide Remove;
        depleted := Remove(depleted, t);
        ReadyPut(threads, curr, Remove(ready, t), t, o);
        ready := InsertInto(Remove(ready, t), Deadlines(threads), t, false);
      } else {
        ready := Remove(ready, t);
        if t !in depleted {
          DepletedPut(threads, curr, depleted, t);
          depleted := depleted + [t];
        } else {
          DepletedBack(threads, curr, depleted, t);
        }
      }
    }

    /** Charge the current thread, advance its period and queue it by what it has left. */
    method RefreshCurrent(now: nat, ghost o: bool)
      requires State(false) && (o ==> Loose()) && curr.Some?
      modifies this`threads, this`ready, this`depleted
      ensures State(o) && OnlyData(old(threads), threads, {curr.value})
              && AtPick(old(threads), threads, curr.value, now)
      ensures threads == CurrentThreads(old(threads), curr, now)
              && ready == CurrentReady(old(threads), curr, old(ready), now)
      ensures forall x :: x in ready || x in depleted <==>
                          (x != curr.value && (x in old(ready) || x in old(depleted)))
                          || (x == curr.value && Active(old(threads), curr, x))
      ensures forall x :: x in depleted ==> x in old(depleted) || (x == curr.value && threads[x].data.remaining == 0)
      ensures curr.value in depleted ==> threads[curr.value].data.remaining == 0
    {
      hide Base, ReadyOk, DepletedOk, OnlyData, Advanced, Accounted, Remove, Deadlines, NoDup, UpToDate, AtPick, Insert;
      var c := curr.value;
      ghost var threads0 := threads;
      QueuedParts(threads, curr, ready, depleted, false);
      CurrentData(threads, curr, now);
      SetData(c, Advanced(Accounted(threads[c], now), now));
      TakenOut(threads0, threads, curr, ready, depleted, c, o) by { BaseStatus(threads0, curr); }
      StatusKept(threads0, threads, curr, {c}) by { BaseStatus(threads0, curr); }
      SamePeriod(threads0[c], now);
      Requeue(c, o);
    }

    /** The first loop of `rtds_refresh_queues`. */
    method RefreshReady(now: nat, ghost o: bool)
      requires State(o)
      modifies this`threads, this`ready
      ensures State(o) && OnlyData(old(threads), threads, Members(old(ready)))
      ensures EdfWalk.SameMembers(old(ready), ready)
      ensures forall t :: t in ready ==> UpToDate(old(threads), threads, t, now)
      ensures NoneDue(old(threads), old(ready), now) ==> ready == old(ready)
    {
      hide Base, ReadyOk, DepletedOk, OnlyData, UpToDate, Advanced, AdvancedIn, EdfWalk.Ordered, EdfWalk.SameMembers,
        NoneDue, EdfWalk.DueIn;
      var key := (s: Server) => s.deadline;
      var due := (s: Server) => now >= s.deadline;
      var renew := (s: Server) => if s.period > 0 then Advanced(s, now) else s;
      WalkReady(threads, curr, ready, key, due, renew, now, o);
      NothingDue(threads, ready, due, now);
      ghost var threads0, ready0 := threads, ready;
      threads, ready := EdfWalk.Walk(threads, ready, key, due, renew, o);
      WalkAdvances(threads0, curr, ready0, due, renew, now);
      Walked(threads0, threads, curr, ready0, depleted, now, o);
      WalkedReady(threads0, threads, curr, ready0, ready, key, now, o);
      ApartKept(ready0, ready, depleted);
    }

    /** The second loop: only the node at hand leaves the list it walks. Those that stay, because they
        have no budget, stay in their order. */
    method RefreshDepleted(now: nat, ghost o: bool)
      requires State(o)
      modifies this`threads, this`ready, this`depleted
      ensures State(o) && OnlyData(old(threads), threads, Members(old(depleted)))
      ensures forall t :: t in old(depleted) ==> UpToDate(old(threads), threads, t, now)
      ensures depleted == Staying(threads, old(depleted)) && SameQueued(old(ready), old(depleted), ready, depleted)
      ensures Idle(old(threads), old(depleted), now) ==> ready == old(ready)
    {
      hide Base, ReadyOk, DepletedOk, OnlyData, Advanced, Accounted, Remove, Deadlines, NoDup, AtPick, UpToDate,
        Staying, Proper, DoneTo, Idle, StayedTo, SameQueued, Members;
      var q := depleted;
      ghost var threads0, ready0 := threads, ready;
      SameData(threads, Members(q));
      DepletedParts(threads, curr, ready, depleted, o);
      DoneNone(threads, q, now);
      StayedNone(threads, q, ready);
      for i := 0 to |q|
        invariant State(o) && OnlyData(threads0, threads, Members(q)) && DoneTo(threads0, threads, q, i, now)
        invariant StayedTo(threads, q, i, depleted) && SameQueued(ready0, q, ready, depleted)
        invariant Idle(threads0, q, now) ==> ready == ready0
      {
        var t := q[i];
        ghost var threads1, ready1, depleted1 := threads, ready, depleted;
        NotYetDone(threads0, threads1, q, i, now);
        StillThere(threads, q, i, depleted);
        DepletedParts(threads, curr, ready, depleted, o);
        RefreshOne(t, now, o);
        OnlyThenOne(threads0, threads1, threads, q, i);
        DoneMore(threads0, threads1, threads, q, i, now);
        StayedMore(threads1, threads, q, i, depleted1, depleted);
        QueuedThen(ready0, q, ready1, depleted1, ready, depleted);
      }
      StayedAll(threads, q, depleted);
      AllDone(threads0, threads, q, now);
    }

    method RefreshOne(t: Tid, now: nat, ghost o: bool)
      requires State(o) && t in depleted
      modifies this`threads, this`ready, this`depleted
      ensures State(o) && OnlyData(old(threads), threads, {t}) && UpToDate(old(threads), threads, t, now)
      ensures depleted == if threads[t].data.remaining > 0 then Remove(old(depleted), t) else old(depleted)
      ensures SameQueued(old(ready), old(depleted), ready, depleted)
      ensures now < old(threads)[t].data.deadline && old(threads)[t].data.remaining == 0 ==> ready == old(ready)
    {
      hide Base, ReadyOk, DepletedOk, OnlyData, Advanced, Accounted, Remove, Deadlines, NoDup, UpToDate, AtPick;
      ghost var threads0, ready0 := threads, ready;
      QueuedParts(threads, curr, ready, depleted, o);
      ThreadData(threads, curr, t, now);
      InPeriod(threads[t].data, now);
      OrderWithout(threads, curr, ready, t, o);
      Unordered(threads, curr, ready, depleted, o);
      SetData(t, Advanced(threads[t].data, now));
      TakenOut(threads0, threads, curr, ready, depleted, t, o) by { BaseStatus(threads0, curr); }
      StatusKept(threads0, threads, curr, {t}) by { BaseStatus(threads0, curr); }
      RemoveMembers(ready, t);
      Requeue(t, o);
    }

    /** `rtds_refresh_queues`. */
    method RefreshQueues(now: nat, ghost o: bool)
      requires State(o)
      modifies this`threads, this`ready, this`depleted
      ensures State(o) && OnlyData(old(threads), threads, Members(old(ready)) + Members(old(depleted)))
      ensures forall t :: t in old(ready) || t in old(depleted) ==> UpToDate(old(threads), threads, t, now)
      ensures SameQueued(old(ready), old(depleted), ready, depleted) && forall t :: t in depleted ==>
                Spent(threads, curr, t)
      ensures Drawn(old(threads), threads, now)
      ensures Quiet(old(threads), old(ready), old(depleted), now) ==> ready == old(ready)
    {
      hide Base, ReadyOk, DepletedOk, OnlyData, Advanced, Accounted, Remove, Deadlines, NoDup, UpToDate, AtPick,
        SameBut, Drawn, Idle, NoneDue, Spent, Members;
      ghost var threads0, ready0, depleted0 := threads, ready, depleted;
      QueuedParts(threads, curr, ready, depleted, o);
      RefreshReady(now, o);
      ghost var threads1, ready1 := threads, ready;
      DrawnMany(threads0, threads1, curr, ready0, now);
      IdleStays(threads0, threads1, ready0, depleted0, now);
      RefreshDepleted(now, o);
      DrawnMany(threads1, threads, curr, depleted0, now);
      DrawnThen(threads0, threads1, threads, now);
      BothUpToDate(threads0, threads1, threads, ready0, depleted0, now);
      AllSpent(threads, curr, depleted0, depleted);
    }

    /** The refreshes before the choice. */
    method RefreshAll(now: nat, ghost o: bool)
      requires State(false) && (o ==> Loose())
      modifies this`threads, this`ready, this`depleted
      ensures State(o) && SameBut(old(threads), threads) && Drawn(old(threads), threads, now)
      ensures var c := Candidates(old(threads), curr, old(ready), old(depleted));
              && (forall t :: t in c ==> AtPick(old(threads), threads, t, now))
              && (forall t :: t in c <==> t in ready || t in depleted)
      ensures forall t :: t in depleted ==> Spent(threads, curr, t)
      ensures Quiet(CurrentThreads(old(threads), curr, now), CurrentReady(old(threads), curr, old(ready), now),
                    Others(old(depleted), curr), now) ==>
                ready == CurrentReady(old(threads), curr, old(ready), now)
    {
      hide Base, ReadyOk, DepletedOk, OnlyData, Advanced, Accounted, Remove, Deadlines, NoDup, UpToDate, AtPick,
        SameBut, Drawn, Idle, NoneDue, Spent;
      ghost var threads0, depleted0 := threads, depleted;
      QueuedParts(threads, curr, ready, depleted, false);
      SameData(threads, {});
      if curr.Some? {
        RefreshCurrent(now, o);
        DrawnCurrent(threads0, curr, now);
      } else {
        DrawnSame(threads, threads, curr, now);
        if o {
          NearlyIsOrdered(threads, curr, ready, depleted);
        }
      }
      ghost var threads1, ready1, depleted1 := threads, ready, depleted;
      QueuedParts(threads1, curr, ready1, depleted1, o);
      QuietStays(threads0, threads1, curr, ready1, depleted0, depleted1, now);
      RefreshQueues(now, o);
      DrawnThen(threads0, threads1, threads, now);
      forall t | t in ready1 || t in depleted1
        ensures AtPick(threads0, threads, t, now)
      {
        SameThreads(threads0, threads1, t, if curr.Some? then {curr.value} else {});
        PickedData(threads0, threads1, threads, curr, t, now);
      }
      SameButs(threads0, threads1, threads, if curr.Some? then {curr.value}
                                            else {}, Members(ready1) + Members(depleted1));
    }

    /** The loop of `rtds_pick_depleted_slack`: the first of the earliest deadlines. */
    method EarliestDepleted() returns (best: nat)
      requires depleted != [] && forall t :: t in depleted ==> t in threads
      ensures best < |depleted|
      ensures forall i :: 0 <= i < |depleted| ==>
                threads[depleted[best]].data.deadline <= threads[depleted[i]].data.deadline
      ensures forall i :: 0 <= i < best ==> threads[depleted[best]].data.deadline < threads[depleted[i]].data.deadline
    {
      best := 0;
      for i := 0 to |depleted|
        invariant best < |depleted| && (best < i || i == 0 == best)
        invariant forall j :: 0 <= j < i ==> threads[depleted[best]].data.deadline <= threads[depleted[j]].data.deadline
        invariant forall j :: 0 <= j < best ==>
                    threads[depleted[best]].data.deadline < threads[depleted[j]].data.deadline
      {
        if threads[depleted[i]].data.deadline < threads[depleted[best]].data.deadline {
          best := i;
        }
      }
    }

    /** `sched_rtds_pick_next`. Whatever the order of the ready queue, every candidate ends up with the
        boundary after `now` as its deadline, and the queue in order. The choice has the earliest
        deadline of those with budget; only when none has any, the earliest of the others runs on slack. */
    method PickNext(now: nat) returns (next: Option<Tid>)
      requires Sane() && latest <= now
      modifies this`threads, this`ready, this`depleted, this`latest
      ensures Valid() && SameBut(old(threads), threads) && latest == now
      ensures var c := Candidates(old(threads), curr, old(ready), old(depleted));
              && (forall t :: t in c ==> AtPick(old(threads), threads, t, now))
              && (next.None? <==> c == {})
              && (forall t :: t in c ==> t in threads && threads[t].data.deadline == Boundary(now, period))
              && (next.Some? ==>
                    next.value in c && Earliest(threads, c, next.value) && threads[next.value].data.lastStart == now)
              && (forall t :: t in ready || t in depleted <==> t in c && next != Some(t))
      ensures var r := CurrentReady(old(threads), curr, old(ready), now);
              Quiet(CurrentThreads(old(threads), curr, now), r, Others(old(depleted), curr), now) && r != [] ==>
                next == Some(r[0])
    {
      hide Base, ReadyOk, DepletedOk, OnlyData, Advanced, Accounted, Remove, Deadlines, NoDup, UpToDate, AtPick,
        SameBut, NearlyOrdered, Quiet, CurrentReady, CurrentThreads, Others, Earliest, Spent, Boundary, Drawn, Paced;
      ghost var c := Candidates(threads, curr, ready, depleted);
      RefreshAll(now, false);
      DrawnPaced(old(threads), threads, period, budget, latest, now);
      latest := now;
      SameDeadlines(old(threads), threads, curr, c, period, budget, now);
      EqualIsOrder(threads, curr, ready, depleted, Boundary(now, period));
      QueuedParts(threads, curr, ready, depleted, true);
      ghost var threads1 := threads;
      if ready == [] && depleted == [] {
        assert c == {};
        return None;
      }
      var n;
      if ready != [] {
        n := ready[0];
        HeadIsEarliest(threads, curr, ready, depleted, c);
      } else {
        var best := EarliestDepleted();
        n := depleted[best];
        SlackIsEarliest(threads, curr, depleted, best, c);
      }
      next := Some(n);
      BaseStarted(threads, curr, n, period, budget, now);
      Start(n, now, true);
      forall t | t in c
        ensures AtPick(old(threads), threads, t, now)
      {
        AtPickStarted(old(threads), threads1, threads, t, n, now);
      }
      StartedSame(old(threads), threads1, threads, c, n, now);
      StartedDeadlines(threads1, threads, n, now);
    }

    /** Take the chosen thread out of its queue and start its clock. */
    method Start(n: Tid, now: nat, ghost o: bool)
      requires State(o) && (n in ready || n in depleted) && n in threads
      modifies this`threads, this`ready, this`depleted
      ensures State(o)
              && threads == old(threads)[n := old(threads)[n].(data := old(threads)[n].data.(lastStart := now))]
      ensures forall x :: x in ready <==> x in old(ready) && x != n
      ensures forall x :: x in depleted <==> x in old(depleted) && x != n
    {
      hide Base, ReadyOk, DepletedOk, OnlyData, Advanced, Accounted, Remove, Deadlines, NoDup, UpToDate, AtPick,
        SameBut;
      ghost var threads0 := threads;
      BaseStatus(threads, curr);
      ThreadData(threads, curr, n, now);
      OrderWithout(threads, curr, ready, n, o);
      Unordered(threads, curr, ready, depleted, o);
      SetData(n, threads[n].data.(lastStart := now));
      TakenOut(threads0, threads, curr, ready, depleted, n, o);
      ready, depleted := Remove(ready, n), Remove(depleted, n);
    }

    /** `rtds_timer_handler`. `now` is read before the lock is taken, so it may be behind the latest time seen. */
    method TimerHandler(now: nat)
      requires Sane()
      modifies this`threads, this`ready, this`depleted, this`latest
      ensures Sane() && (old(Loose()) || old(latest) <= now ==> Valid()) && SameBut(old(threads), threads)
      ensures latest == Later(old(latest), now)
      ensures var c := Candidates(old(threads), curr, old(ready), old(depleted));
              && (forall t :: t in c ==> AtPick(old(threads), threads, t, now))
              && (forall t :: t in c <==> t in ready || t in depleted)
      ensures forall t :: t in depleted ==> Spent(threads, curr, t)
    {
      ghost var c, o := Candidates(threads, curr, ready, depleted), Loose();
      hide Proper, NearlyOrdered, AtPick, SameBut, Spent, Candidates, Drawn, Paced, Boundary;
      RefreshAll(now, o);
      DrawnPaced(old(threads), threads, period, budget, latest, now);
      Unordered(threads, curr, ready, depleted, o);
      if latest <= now {
        SameDeadlines(old(threads), threads, curr, c, period, budget,
                      now) by { ProperBase(threads, curr, ready, depleted); }
        EqualIsOrder(threads, curr, ready, depleted, Boundary(now, period));
      }
      latest := Later(latest, now);
    }

    /** `sleep_thread_locked` with `sched_rtds_sleep`. */
    method Sleep(t: Tid, now: nat)
      requires Sane() && t in threads
      modifies this`threads, this`ready, this`depleted, this`latest
      ensures Sane() && (old(Valid()) ==> Valid()) && latest == Later(old(latest), now)
      ensures threads == old(threads)[t := Asleep(old(threads)[t], Accounted(old(threads)[t], now).(lastStart := 0))]
      ensures forall x :: x in ready <==> x in old(ready) && x != t
      ensures forall x :: x in depleted <==> x in old(depleted) && x != t
    {
      hide Proper, Remove, Paced, Drawn, Boundary;
      ghost var o := Valid();
      SleepKeeps(threads, curr, ready, depleted, t, now, o);
      SleepDrawn(threads, curr, ready, depleted, t, now);
      DrawnPaced(threads, threads[t := Asleep(threads[t], Accounted(threads[t], now).(lastStart := 0))], period, budget,
                 latest, now);
      latest := Later(latest, now);
      var s := if curr == Some(t) then Accounted(threads[t], now) else threads[t].data;
      ready, depleted := Remove(ready, t), Remove(depleted, t);
      s := s.(lastStart := 0);
      if threads[t].status == Running {
        threads := threads[t := threads[t].(data := s, blocking := true)];
      } else {
        threads := threads[t := threads[t].(data := s, status := Blocked)];
      }
      Unordered(threads, curr, ready, depleted, o);
    }

    /** `wake_thread_locked` with `sched_rtds_wake`: a wake grants no credit of its own. */
    method Wake(t: Tid, now: nat)
      requires Sane() && t in threads
      modifies this`threads, this`ready, this`depleted, this`latest
      ensures Sane() && (old(Valid()) ==> Valid()) && old(threads)[t].data.period > 0
              && latest == Later(old(latest), now)
      ensures if old(threads)[t].status == Blocked || old(threads)[t].blocking
              then && threads == old(threads)[t := Awake(old(threads)[t],
                                                         Advanced(old(threads)[t].data, now).(lastStart := 0))]
                   && (forall x :: x in ready <==> x in old(ready) || (x == t && threads[t].data.remaining > 0))
                   && (forall x :: x in depleted <==> x in old(depleted) || (x == t && threads[t].data.remaining == 0))
              else threads == old(threads) && ready == old(ready) && depleted == old(depleted)
    {
      hide Base, QueuesOk, Advanced, Insert, Deadlines, Paced, Drawn, Boundary;
      ghost var o := Valid();
      ThreadData(threads, curr, t, now);
      PacedLater(threads, period, budget, latest, Later(latest, now));
      if threads[t].status == Blocked || threads[t].blocking {
        WakeKeeps(threads, curr, ready, depleted, t, now, o);
        ghost var target := threads[t := Awake(threads[t], Advanced(threads[t].data, now).(lastStart := 0))];
        DrawnOne(threads, curr, t, target[t], now) by { AdvancedSame(threads[t].data, now); }
        DrawnPaced(threads, target, period, budget, latest, now);
        threads := threads[t := threads[t].(data := Advanced(threads[t].data, now).(lastStart := 0))];
        SameKeys(threads, target, ready, t);
        if threads[t].data.remaining > 0 {
          ready := InsertInto(ready, Deadlines(threads), t, false);
        } else {
          depleted := depleted + [t];
        }
        threads := threads[t := Awake(threads[t], threads[t].data)];
        assert threads == target;
        Unordered(threads, curr, ready, depleted, o);
      }
      latest := Later(latest, now);
    }

    /** `sched_rtds_prioritize`, called for an active thread. A ready current thread has its period
        advanced where it stands; that breaks the order exactly when it is `Displaced`. A request for
        another thread then breaks the order of the rest exactly when it is `Squeezed`. */
    method Prioritize(t: Tid, now: nat)
      requires Sane() && Active(threads, curr, t)
      modifies this`threads, this`ready, this`depleted, this`latest
      ensures latest == Later(old(latest), now)
      ensures Sane() && threads == AskedThreads(old(threads), curr, Ask(t, now))
      ensures ready == AskedReady(old(threads), curr, old(ready), Ask(t, now))
      ensures depleted == AskedDepleted(old(threads), curr, old(depleted), Ask(t, now))
      ensures old(Valid()) ==> (Valid() <==> !Displaced(old(threads), curr, old(ready), Ask(t, now)))
      ensures old(Loose()) ==> (Loose() <==> !Squeezed(old(threads), curr, old(ready), Ask(t, now)))
    {
      hide Proper, NearlyOrdered, Displaced, Squeezed, Insert, Deadlines, Remove, Advanced, InOrder, Paced, Drawn;
      ghost var threads0, ready0, depleted0, o, loose := threads, ready, depleted, Valid(), Loose();
      AskedParts(threads, curr, ready, depleted, Ask(t, now));
      DrawnPaced(threads, AskedThreads(threads, curr, Ask(t, now)), period, budget, latest, now);
      latest := Later(latest, now);
      threads := threads[t := threads[t].(data := Advanced(threads[t].data, now))];
      if curr != Some(t) && threads[t].data.remaining > 0 {
        ready := InsertInto(Remove(ready, t), Deadlines(threads), t, false);
        depleted := Remove(depleted, t);
      }
      if o {
        AskedOrdered(threads0, curr, ready0, depleted0, Ask(t, now));
        ProperIff(threads, curr, ready, depleted);
      }
      if loose {
        AskedNearly(threads0, curr, ready0, depleted0, Ask(t, now));
      }
    }

    /** The scan of `schedule`: every pending request of an active thread, in list order. */
    method Scan(asks: seq<Ask>, ghost until: nat)
      requires Sane() && latest <= until && forall k :: 0 <= k < |asks| ==> asks[k].at <= until
      modifies this`threads, this`ready, this`depleted, this`latest
      ensures Sane() && threads == ScannedThreads(old(threads), curr, asks) && old(latest) <= latest <= until
      ensures ready == ScannedReady(old(threads), curr, old(ready), asks)
      ensures depleted == ScannedDepleted(old(threads), curr, old(depleted), asks)
    {
      hide Proper, NearlyOrdered, Displaced, Squeezed, Active, AskedThreads, AskedReady, AskedDepleted, Paced;
      ghost var threads0, ready0, depleted0 := threads, ready, depleted;
      for k := 0 to |asks|
        invariant Sane() && old(latest) <= latest <= until
        invariant ScannedThreads(threads0, curr, asks) == ScannedThreads(threads, curr, asks[k..])
        invariant ScannedReady(threads0, curr, ready0, asks) == ScannedReady(threads, curr, ready, asks[k..])
        invariant ScannedDepleted(threads0, curr, depleted0, asks) ==
                  ScannedDepleted(threads, curr, depleted, asks[k..])
      {
        assert asks[k..][0] == asks[k] && asks[k..][1..] == asks[k + 1..];
        if Active(threads, curr, asks[k].t) {
          Prioritize(asks[k].t, asks[k].at);
        } else {
          NotAsked(threads, curr, ready, depleted, asks[k]);
        }
      }
    }

    /** `schedule`: the pending priority requests, then the policy's choice, or the idle thread if it has
        work. Whatever was asked for, the choice is the earliest and the ready queue is left in order. */
    method Schedule(now: nat, asks: seq<Ask>, idleWork: bool)
      requires Sane() && latest <= now && forall k :: 0 <= k < |asks| ==> asks[k].at <= now
      modifies this
      ensures Sane() && old(latest) <= latest <= now
      ensures var threads1, ready1, depleted1 := ScannedThreads(old(threads), old(curr), asks),
                ScannedReady(old(threads), old(curr), old(ready), asks),
                ScannedDepleted(old(threads), old(curr), old(depleted), asks);
              if idleWork
              then && curr == None && ready == ready1 && depleted == depleted1
                   && threads == Switched(threads1, old(curr), None)
                   && (Valid() <==> InOrder(ready1, Deadlines(threads1), true))
              else
                var c := Candidates(threads1, old(curr), ready1, depleted1);
                && Valid() && SameBut(Switched(threads1, old(curr), curr), threads)
                && (forall t :: t in c ==> AtPick(threads1, threads, t, now))
                && (forall t :: t in c ==> t in threads && threads[t].data.deadline == Boundary(now, period))
                && (curr.None? <==> c == {})
                && (curr.Some? ==>
                      curr.value in c && Earliest(threads, c, curr.value) && threads[curr.value].data.lastStart == now)
                && (forall t :: t in ready || t in depleted <==> t in c && curr != Some(t))
                && var r := CurrentReady(threads1, old(curr), ready1, now);
                   (Quiet(CurrentThreads(threads1, old(curr), now), r, Others(depleted1, old(curr)), now) && r != [] ==>
                      curr == Some(r[0]))
    {
      hide Base, QueuesOk, Earliest, SameBut, AtPick, Candidates, Switched, NearlyOrdered, Quiet, CurrentThreads,
        CurrentReady, InOrder, Others, Paced, Boundary;
      Scan(asks, now);
      if idleWork {
        ghost var threads1 := threads;
        SwitchTo(None);
        SwitchedOrder(threads1, old(curr), None, ready, depleted);
      } else {
        Decide(now);
        Unordered(threads, curr, ready, depleted, true);
      }
    }

    /** The policy's choice, and the switch to it. */
    method Decide(now: nat)
      requires Sane() && latest <= now
      modifies this
      ensures Valid() && latest == now
      ensures var c := Candidates(old(threads), old(curr), old(ready), old(depleted));
              && SameBut(Switched(old(threads), old(curr), curr), threads)
              && (forall t :: t in c ==> AtPick(old(threads), threads, t, now))
              && (forall t :: t in c ==> t in threads && threads[t].data.deadline == Boundary(now, period))
              && (curr.None? <==> c == {})
              && (curr.Some? ==>
                    curr.value in c && Earliest(threads, c, curr.value) && threads[curr.value].data.lastStart == now)
              && (forall t :: t in ready || t in depleted <==> t in c && curr != Some(t))
      ensures var r := CurrentReady(old(threads), old(curr), old(ready), now);
              r != [] && Quiet(CurrentThreads(old(threads), old(curr), now), r, Others(old(depleted), old(curr)), now)
              ==> curr == Some(r[0])
    {
      hide Base, QueuesOk, Earliest, SameBut, AtPick, Candidates, Switched, NearlyOrdered, Quiet, CurrentThreads,
        CurrentReady, Others, Proper, Paced, Boundary;
      ghost var c := Candidates(threads, curr, ready, depleted);
      ProperParts(threads, curr, ready, depleted, false);
      CandidatesActive(threads, curr, ready, depleted);
      var next := PickNext(now);
      StillActive(old(threads), threads, curr, c);
      ghost var threads1 := threads;
      Unordered(threads, curr, ready, depleted, true);
      SwitchTo(next);
      SwitchedSame(old(threads), threads1, old(curr), next);
      SwitchedData(threads1, old(curr), next);
      AtPickSwitched(old(threads), threads1, old(curr), next, c, now);
      if next.Some? {
        ChoiceKept(threads1, old(curr), c, next.value);
      }
    }

    ghost function Snap(): Snapshot
      reads this
    {
      Snapshot(threads, curr, ready, depleted)
    }

    /** One operation; those the core would not make are passed over. */
    method Do(op: Op)
      requires Sane() && op.Clocked(latest)
      modifies this
      ensures Sane() && latest <= Later(old(latest), op.now) && FairOp(old(Snap()), op, Snap())
    {
      hide Proper, NearlyOrdered, Earliest, Candidates, ScannedThreads, ScannedReady, ScannedDepleted,
        SameBut, Quiet, CurrentThreads, CurrentReady, Switched, AtPick, InOrder, Others, Spent, Paced, Boundary;
      match op {
        case Add(t, now) =>
          if t !in threads {
            AddThread(t, now);
          }
        case Sleep(t, now) =>
          if t in threads {
            Sleep(t, now);
          }
        case Wake(t, now) =>
          if t in threads {
            Wake(t, now);
          }
        case Timer(now) => TimerHandler(now);
        case Schedule(now, asks, idleWork) =>
          Schedule(now, asks, idleWork);
          if !idleWork {
            ProperIff(threads, curr, ready, depleted);
          }
      }
    }

    /** Any operations in a row, whatever priorities are asked for: every choice is the earliest, and leaves
        the ready queue in order. */
    method Run(ops: seq<Op>) returns (ghost hist: seq<Snapshot>)
      requires Sane() && OnTime(ops, latest)
      modifies this
      ensures Sane() && |hist| == |ops| + 1 && hist[0] == old(Snap()) && hist[|ops|] == Snap()
      ensures forall k :: 0 <= k < |ops| ==> FairOp(hist[k], ops[k], hist[k + 1])
    {
      hide Proper, Paced, FairOp;
      hist := [Snap()];
      for n := 0 to |ops|
        invariant Sane() && |hist| == n + 1 && hist[0] == old(Snap()) && hist[n] == Snap()
        invariant forall k :: n <= k < |ops| ==> ops[k].Clocked(latest)
        invariant forall k :: 0 <= k < n ==> FairOp(hist[k], ops[k], hist[k + 1])
      {
        Do(ops[n]);
        hist := hist + [Snap()];
      }
    }

    method SwitchTo(next: Option<Tid>)
      requires Sane()
               && (next.Some? ==> Active(threads, curr, next.value) && next.value !in ready && next.value !in depleted)
      modifies this`threads, this`curr
      ensures Sane() && (old(Valid()) ==> Valid()) && curr == next && threads == Switched(old(threads), old(curr), next)
    {
      hide QueuesOk, ServerOk, Boundary;
      ghost var o := Valid();
      SwitchKeeps(threads, curr, ready, depleted, next, o);
      ghost var threads0 := threads;
      if curr != next {
        if curr.Some? {
          var th := threads[curr.value];
          threads := threads[curr.value := th.(status := if th.blocking then Blocked else Runnable, blocking := false)];
        }
        if next.Some? {
          threads := threads[next.value := threads[next.value].(status := Running)];
        }
      }
      assert threads == Switched(threads0, curr, next);
      curr := next;
      Unordered(threads, curr, ready, depleted, o);
    }
  }

  /** What the core asks of the policy. */
  datatype Op =
    | Add(t: Tid, now: nat)
    | Sleep(t: Tid, now: nat) | Wake(t: Tid, now: nat) | Timer(now: nat)
    | Schedule(now: nat, asks: seq<Ask>, idleWork: bool)
  {
    /** `schedule` reads the clock under the lock, after every other time used under it. */
    predicate Clocked(latest: nat) { Schedule? ==> latest <= now && forall k :: 0 <= k < |asks| ==> asks[k].at <= now }
  }

  ghost predicate OnTime(ops: seq<Op>, latest: nat) {
    && (forall k :: 0 <= k < |ops| ==> ops[k].Clocked(latest))
    && (forall j, k :: 0 <= j < k < |ops| && ops[k].Schedule? ==> ops[j].now <= ops[k].now)
  }

  datatype Snapshot = Snapshot(threads: Threads, curr: Option<Tid>, ready: seq<Tid>, depleted: seq<Tid>)

  /** The choice is the earliest of those the scan has left to choose from, idle only if there is none, and
      the ready queue is in order. */
  ghost predicate FairOp(s: Snapshot, op: Op, s': Snapshot) {
    op.Schedule? && !op.idleWork ==>
      var c := Candidates(ScannedThreads(s.threads, s.curr, op.asks), s.curr,
                          ScannedReady(s.threads, s.curr, s.ready, op.asks),
                          ScannedDepleted(s.threads, s.curr, s.depleted, op.asks));
      && (if s'.curr.Some? then s'.curr.value in c && Earliest(s'.threads, c, s'.curr.value) else c == {})
      && InOrder(s'.ready, Deadlines(s'.threads), true)
  }

  lemma DrawnCurrent(threads: Threads, curr: Option<Tid>, now: nat)
    requires Base(threads, curr) && curr.Some?
    ensures Drawn(threads, CurrentThreads(threads, curr, now), now)
  {
    var c := curr.value;
    CurrentData(threads, curr, now);
    AccountedSame(threads[c], now);
    DrawnOne(threads, curr, c, CurrentThreads(threads, curr, now)[c], now);
  }

  /** Charging changes no deadline, and advancing does not look at the budget left. */
  lemma AccountedSame(th: PolicyThread<Server>, now: nat)
    requires th.data.period > 0
    ensures var r := Accounted(th, now);
            && (r.period, r.budget, r.deadline) == (th.data.period, th.data.budget, th.data.deadline)
            && Advanced(r, now).deadline == Advanced(th.data, now).deadline
            && (Advanced(r, now).period, Advanced(r, now).budget) == (th.data.period, th.data.budget)
  {
  }

  lemma AdvancedSame(s: Server, now: nat)
    requires s.period > 0
    ensures (Advanced(s, now).period, Advanced(s, now).budget) == (s.period, s.budget)
  {
  }

  lemma SleepDrawn(threads: Threads, curr: Option<Tid>, ready: seq<Tid>, depleted: seq<Tid>, t: Tid, now: nat)
    requires Proper(threads, curr, ready, depleted, false) && t in threads
    ensures Drawn(threads, threads[t := Asleep(threads[t], Accounted(threads[t], now).(lastStart := 0))], now)
  {
    ThreadData(threads, curr, t, now);
    AccountedSame(threads[t], now);
    DrawnOne(threads, curr, t, Asleep(threads[t], Accounted(threads[t], now).(lastStart := 0)), now);
  }

  lemma PacedLater(threads: Threads, period: nat, budget: nat, latest: nat, latest': nat)
    requires period > 0 && Paced(threads, period, budget, latest) && latest <= latest'
    ensures Paced(threads, period, budget, latest')
  {
    BoundaryGrows(latest, latest', period);
  }

  lemma BaseStarted(threads: Threads, curr: Option<Tid>, n: Tid, period: nat, budget: nat, now: nat)
    requires period > 0 && Paced(threads, period, budget, now) && n in threads
    ensures Paced(threads[n := threads[n].(data := threads[n].data.(lastStart := now))], period, budget, now)
  {
    hide Boundary;
  }

  lemma StartedDeadlines(threads: Threads, threads': Threads, n: Tid, now: nat)
    requires n in threads && threads' == threads[n := threads[n].(data := threads[n].data.(lastStart := now))]
    ensures forall x :: x in threads <==> x in threads'
    ensures forall x :: x in threads ==> threads'[x].data.deadline == threads[x].data.deadline
  {
  }

  lemma SwitchedData(threads: Threads, curr: Option<Tid>, next: Option<Tid>)
    ensures Switched(threads, curr, next).Keys == threads.Keys
    ensures forall t :: t in threads ==> Switched(threads, curr, next)[t].data == threads[t].data
  {
  }

  lemma ProperBase(threads: Threads, curr: Option<Tid>, ready: seq<Tid>, depleted: seq<Tid>)
    requires Proper(threads, curr, ready, depleted, false)
    ensures Base(threads, curr)
  {
  }

  lemma ProperParts(threads: Threads, curr: Option<Tid>, ready: seq<Tid>, depleted: seq<Tid>, o: bool)
    requires Proper(threads, curr, ready, depleted, o)
    ensures QueuesOk(threads, curr, ready, depleted, o)
  {
  }

  lemma NotQueued(threads: Threads, curr: Option<Tid>, ready: seq<Tid>, depleted: seq<Tid>, t: Tid)
    requires Proper(threads, curr, ready, depleted, false) && t !in threads
    ensures t !in ready && t !in depleted && curr != Some(t)
  {
    QueuedParts(threads, curr, ready, depleted, false);
  }

  lemma SamePeriod(th: PolicyThread<Server>, now: nat)
    ensures Accounted(th, now).period == th.data.period
  {
  }

  /** Within its period a server is up to date. */
  lemma InPeriod(s: Server, now: nat)
    requires s.period > 0
    ensures now < s.deadline ==> Advanced(s, now) == s
  {
  }

  lemma OrderWithout(threads: Threads, curr: Option<Tid>, ready: seq<Tid>, t: Tid, o: bool)
    requires ReadyOk(threads, curr, ready, o)
    ensures o ==> InOrder(Remove(ready, t), Deadlines(threads), true)
  {
    RemoveInOrder(ready, Deadlines(threads), t, o);
  }

  lemma NearlyIsOrdered(threads: Threads, curr: Option<Tid>, ready: seq<Tid>, depleted: seq<Tid>)
    requires NearlyOrdered(threads, curr, ready, depleted) && curr.None?
    ensures Proper(threads, curr, ready, depleted, true)
  {
  }

  lemma ApartKept(ready: seq<Tid>, ready': seq<Tid>, depleted: seq<Tid>)
    requires Apart(ready, depleted) && EdfWalk.SameMembers(ready, ready')
    ensures Apart(ready', depleted)
  {
  }

  lemma {:induction false} StayingSame(threads: Threads, threads': Threads, q: seq<Tid>)
    requires forall x :: x in q ==> (x in threads <==> x in threads') && (x in threads ==> threads'[x] == threads[x])
    ensures Staying(threads', q) == Staying(threads, q)
  {
    if q != [] {
      StayingSame(threads, threads', q[1..]);
    }
  }

  lemma {:induction false} StayingSnoc(threads: Threads, q: seq<Tid>, t: Tid)
    ensures Staying(threads, q + [t]) ==
            Staying(threads, q) + (if t in threads && threads[t].data.remaining == 0 then [t] else [])
  {
    if q != [] {
      StayingSnoc(threads, q[1..], t);
      assert (q + [t])[1..] == q[1..] + [t];
    }
  }

  lemma {:induction false} StayingMembers(threads: Threads, q: seq<Tid>)
    ensures forall x :: x in Staying(threads, q) <==> x in q && x in threads && threads[x].data.remaining == 0
  {
    if q != [] {
      StayingMembers(threads, q[1..]);
      assert q == [q[0]] + q[1..];
    }
  }

  lemma AllSpent(threads: Threads, curr: Option<Tid>, q: seq<Tid>, depleted: seq<Tid>)
    requires depleted == Staying(threads, q) && DepletedOk(threads, curr, depleted)
    ensures forall t :: t in depleted ==> Spent(threads, curr, t)
  {
    StayingMembers(threads, q);
  }

  lemma StayedMore(threads: Threads, threads': Threads, q: seq<Tid>, i: nat, depleted: seq<Tid>, depleted': seq<Tid>)
    requires NoDup(q) && i < |q| && StayedTo(threads, q, i, depleted) && NoDup(depleted)
    requires q[i] in threads' && OnlyData(threads, threads', {q[i]})
    requires depleted' == if threads'[q[i]].data.remaining > 0 then Remove(depleted, q[i]) else depleted
    ensures StayedTo(threads', q, i + 1, depleted')
  {
    var t, a := q[i], Staying(threads, q[..i]);
    Earlier(q, i);
    StayingSame(threads, threads', q[..i]);
    StayingSnoc(threads', q[..i], t);
    hide Staying, NoDup, Remove, OnlyData;
    SplitAt(q, i);
    EdfWalk.Assoc(a, [t], q[i + 1..]);
    EdfWalk.RemoveMid(a, t, q[i + 1..]);
  }

  lemma OnlyThenOne(a: Threads, b: Threads, c: Threads, q: seq<Tid>, i: nat)
    requires OnlyData(a, b, Members(q)) && i < |q| && OnlyData(b, c, {q[i]})
    ensures OnlyData(a, c, Members(q))
  {
    OnlyThen(a, b, c, Members(q), {q[i]});
    assert q[i] in q && Members(q) + {q[i]} == Members(q);
  }

  lemma SplitAt(q: seq<Tid>, i: nat)
    requires i < |q|
    ensures q[..i + 1] == q[..i] + [q[i]] && q[i..] == [q[i]] + q[i + 1..]
  {
  }

  lemma Earlier(q: seq<Tid>, i: nat)
    requires NoDup(q) && i < |q|
    ensures q[i] !in q[..i]
  {
  }

  lemma SameThreads(a: Threads, b: Threads, t: Tid, who: set<Tid>)
    requires OnlyData(a, b, who) && t in b
    ensures t in a
  {
  }

  /** Refreshing the ready threads does not touch the depleted ones. */
  lemma IdleStays(threads: Threads, threads': Threads, ready: seq<Tid>, depleted: seq<Tid>, now: nat)
    requires OnlyData(threads, threads', Members(ready)) && forall x :: x in ready ==> x !in depleted
    ensures Idle(threads, depleted, now) ==> Idle(threads', depleted, now)
  {
    forall x | x in depleted
      ensures x !in Members(ready)
    {
    }
  }

  /** Once the current thread is charged, it is depleted only if it has no budget left. */
  lemma QuietStays(threads0: Threads, threads1: Threads, curr: Option<Tid>, ready1: seq<Tid>,
                   depleted0: seq<Tid>, depleted1: seq<Tid>, now: nat)
    requires NoDup(depleted0) && (curr.Some? ==> AtPick(threads0, threads1, curr.value, now))
    requires forall x :: x in depleted1 ==> x in threads1 && (x in depleted0 || curr == Some(x))
    requires forall x :: x in depleted1 && curr == Some(x) ==> threads1[x].data.remaining == 0
    ensures Quiet(threads1, ready1, Others(depleted0, curr), now) ==> Quiet(threads1, ready1, depleted1, now)
  {
    hide Advanced, Accounted;
    if curr.Some? {
      RemoveMembers(depleted0, curr.value);
    }
    if Quiet(threads1, ready1, Others(depleted0, curr), now) {
      forall x | x in depleted1
        ensures now < threads1[x].data.deadline && threads1[x].data.remaining == 0
      {
        if curr != Some(x) {
          assert x in Others(depleted0, curr);
        }
      }
    }
  }

  lemma AskedParts(threads: Threads, curr: Option<Tid>, ready: seq<Tid>, depleted: seq<Tid>, a: Ask)
    requires Proper(threads, curr, ready, depleted, false) && Active(threads, curr, a.t)
    ensures a.t in threads && threads[a.t].data.period > 0
    ensures AskedThreads(threads, curr, a) == threads[a.t := threads[a.t].(data := Advanced(threads[a.t].data, a.at))]
    ensures Drawn(threads, AskedThreads(threads, curr, a), a.at)
    ensures Proper(AskedThreads(threads, curr, a), curr, AskedReady(threads, curr, ready, a),
                   AskedDepleted(threads, curr, depleted, a), false)
  {
    AskedProper(threads, curr, ready, depleted, a);
    AskedData(threads, curr, a);
    AskedDrawn(threads, curr, a);
  }

  lemma NotAsked(threads: Threads, curr: Option<Tid>, ready: seq<Tid>, depleted: seq<Tid>, a: Ask)
    requires !Active(threads, curr, a.t)
    ensures AskedThreads(threads, curr, a) == threads && AskedReady(threads, curr, ready, a) == ready
            && AskedDepleted(threads, curr, depleted, a) == depleted
  {
  }

  lemma SwitchedOrder(threads: Threads, curr: Option<Tid>, next: Option<Tid>, ready: seq<Tid>, depleted: seq<Tid>)
    requires Proper(Switched(threads, curr, next), next, ready, depleted, false)
    ensures Proper(Switched(threads, curr, next), next, ready, depleted, true) <==>
              InOrder(ready, Deadlines(threads), true)
  {
    var threads' := Switched(threads, curr, next);
    if InOrder(ready, Deadlines(threads), true) {
      InOrderBySame(ready, Deadlines(threads), Deadlines(threads'), true);
    }
    if InOrder(ready, Deadlines(threads'), true) {
      InOrderBySame(ready, Deadlines(threads'), Deadlines(threads), true);
    }
  }
}
