/** What the ready and depleted queues of the work-conserving real-time deferrable server policy keep
    under every step that is made on them. */
module RtdsQueue {
  import opened Arithmetic
  import opened Common
  import EdfWalk
  import opened OrderedQueues
  import opened PolicyThreads

  /** `deadline` ends the current period and is the next replenishment. */
  datatype Server = Server(period: nat, budget: nat, remaining: nat, deadline: nat, lastStart: nat)

  type Threads = map<Tid, PolicyThread<Server>>

  function Times(k: nat, period: nat): nat { k * period }

  /** Periods are counted from a fixed origin, the same for every server of a pCPU. */
  ghost predicate OnGrid(s: Server) { exists k: nat :: s.deadline == Times(k, s.period) }

  ghost predicate ServerOk(s: Server) { 0 < s.budget <= s.period && s.remaining <= s.budget && OnGrid(s) }

  /** `sched_rtds_init_data`. */
  function Fresh(period: nat, budget: nat, now: nat): Server
    requires period > 0
  {
    Server(period, budget, budget, Boundary(now, period), 0)
  }

  /** `rtds_next_period_boundary`. */
  function Boundary(now: nat, period: nat): nat
    requires period > 0
  {
    Times(now / period + 1, period)
  }

  /** It is the first multiple of the period after `now`. */
  lemma BoundaryIsFirst(k: nat, now: nat, period: nat)
    requires period > 0
    ensures now < Times(k, period) <==> Boundary(now, period) <= Times(k, period)
  {
    DivMod(now, period);
    MulStep(now / period, period);
    if k <= now / period {
      MulMonotone(period, k, now / period);
    } else {
      MulMonotone(period, now / period + 1, k);
    }
  }

  lemma BoundaryGrows(a: nat, b: nat, period: nat)
    requires period > 0 && a <= b
    ensures Boundary(a, period) <= Boundary(b, period)
  {
    BoundaryIsFirst(b / period + 1, a, period);
    BoundaryIsFirst(b / period + 1, b, period);
  }

  lemma FreshOk(period: nat, budget: nat, now: nat)
    requires 0 < budget <= period
    ensures var s := Fresh(period, budget, now);
            ServerOk(s) && now < s.deadline <= now + period
  {
    DivMod(now, period);
    MulStep(now / period, period);
  }

  /** Periods between the end of the current one and `now`, the present one included. */
  function Missed(s: Server, now: nat): nat
    requires s.period > 0
  {
    if now < s.deadline then 0 else (now - s.deadline) / s.period + 1
  }

  /** `rtds_advance_period`: whole periods are skipped, unused budget is lost. */
  function Advanced(s: Server, now: nat): Server
    requires s.period > 0
  {
    if now < s.deadline then s
    else s.(deadline := s.deadline + Times(Missed(s, now), s.period), remaining := s.budget)
  }

  /** The new deadline is the first one ahead, on the old grid; the budget is filled only if that is a
      new period. */
  lemma AdvancedOk(s: Server, now: nat)
    requires ServerOk(s)
    ensures var r := Advanced(s, now);
            && ServerOk(r) && now < r.deadline && r.deadline == s.deadline + Times(Missed(s, now), s.period)
            && (r == s || (r.deadline - s.period <= now && r.remaining == s.budget))
            && r.period == s.period && r.lastStart == s.lastStart
  {
    if now >= s.deadline {
      var m := (now - s.deadline) / s.period;
      DivMod(now - s.deadline, s.period);
      MulStep(m, s.period);
      var k: nat :| s.deadline == Times(k, s.period);
      TimesAdd(k, m + 1, s.period);
      assert Advanced(s, now).deadline == Times(k + (m + 1), s.period);
    }
  }

  lemma TimesAdd(a: nat, b: nat, p: nat)
    ensures Times(a, p) + Times(b, p) == Times(a + b, p)
  {
  }

  /** A server that does not run ahead of `now` is brought to the first boundary after it. */
  lemma AdvancedBoundary(s: Server, now: nat)
    requires ServerOk(s)
    ensures Advanced(s, now).deadline == if s.deadline <= Boundary(now, s.period) then Boundary(now, s.period)
                                         else s.deadline
  {
    AdvancedOk(s, now);
    var r := Advanced(s, now);
    var k: nat :| r.deadline == Times(k, s.period);
    BoundaryIsFirst(k, now, s.period);
    if r != s {
      MulStep(k - 1, s.period);
      BoundaryIsFirst(k - 1, now, s.period);
      AtMost(k, now / s.period + 1, s.period);
    }
  }

  lemma AtMost(a: nat, b: nat, period: nat)
    requires period > 0 && a > 0 && Times(a - 1, period) < Times(b, period)
    ensures Times(a, period) <= Times(b, period)
  {
    if a - 1 >= b {
      MulMonotone(period, b, a - 1);
    } else {
      MulMonotone(period, a, b);
    }
  }

  /** All servers of a pCPU have its period and budget, and none runs ahead of the latest time seen. */
  ghost predicate Paced(threads: Threads, period: nat, budget: nat, latest: nat)
    requires period > 0
  {
    forall t :: t in threads ==>
      && threads[t].data.period == period && threads[t].data.budget == budget
      && threads[t].data.deadline <= Boundary(latest, period)
  }

  /** From `a` to `b` deadlines move at most to the boundary after `now`. */
  ghost predicate Drawn(a: Threads, b: Threads, now: nat) {
    && b.Keys == a.Keys
    && forall t :: t in a ==>
         && b[t].data.period == a[t].data.period > 0 && b[t].data.budget == a[t].data.budget
         && (b[t].data.deadline <= a[t].data.deadline || b[t].data.deadline <= Boundary(now, a[t].data.period))
  }

  lemma DrawnThen(a: Threads, b: Threads, c: Threads, now: nat)
    requires Drawn(a, b, now) && Drawn(b, c, now)
    ensures Drawn(a, c, now)
  {
    hide Boundary;
  }

  function Later(a: nat, b: nat): nat { if a < b then b else a }

  lemma DrawnPaced(a: Threads, b: Threads, period: nat, budget: nat, latest: nat, now: nat)
    requires period > 0 && Paced(a, period, budget, latest) && Drawn(a, b, now)
    ensures Paced(b, period, budget, Later(latest, now))
  {
    BoundaryGrows(latest, Later(latest, now), period);
    BoundaryGrows(now, Later(latest, now), period);
    hide Boundary;
  }

  /** One server is charged, advanced, or has its clock set. */
  lemma DrawnOne(threads: Threads, curr: Option<Tid>, t: Tid, th: PolicyThread<Server>, now: nat)
    requires Base(threads, curr) && t in threads && th.data.period == threads[t].data.period
             && th.data.budget == threads[t].data.budget
    requires threads[t].data.period > 0
    requires th.data.deadline == threads[t].data.deadline || th.data.deadline == Advanced(threads[t].data, now).deadline
    ensures Drawn(threads, threads[t := th], now)
  {
    AdvancedBoundary(threads[t].data, now);
    hide Boundary, Advanced;
  }

  lemma DrawnSame(threads: Threads, threads': Threads, curr: Option<Tid>, now: nat)
    requires Base(threads, curr) && threads'.Keys == threads.Keys && forall t :: t in threads ==>
               threads'[t].data == threads[t].data
    ensures Drawn(threads, threads', now)
  {
    hide Boundary;
  }

  lemma DrawnMany(threads: Threads, threads': Threads, curr: Option<Tid>, q: seq<Tid>, now: nat)
    requires Base(threads, curr) && OnlyData(threads, threads', Members(q)) && forall t :: t in q ==>
               UpToDate(threads, threads', t, now)
    ensures Drawn(threads, threads', now)
  {
    forall t | t in threads
      ensures && threads'[t].data.period == threads[t].data.period > 0
              && threads'[t].data.budget == threads[t].data.budget
              && (threads'[t].data.deadline <= threads[t].data.deadline
                  || threads'[t].data.deadline <= Boundary(now, threads[t].data.period))
    {
      AdvancedBoundary(threads[t].data, now);
      if t in q {
        assert UpToDate(threads, threads', t, now);
      }
    }
  }

  /** With one period for all, everybody brought up to `now` has the same deadline. */
  lemma SameDeadlines(a: Threads, b: Threads, curr: Option<Tid>, c: set<Tid>, period: nat, budget: nat, now: nat)
    requires period > 0 && Base(b, curr) && Paced(b, period, budget, now) && forall t :: t in c ==> AtPick(a, b, t, now)
    ensures forall t :: t in c ==> t in b && b[t].data.deadline == Boundary(now, period)
  {
    forall t | t in c
      ensures t in b && b[t].data.deadline == Boundary(now, period)
    {
      assert AtPick(a, b, t, now);
      var k: nat :| b[t].data.deadline == Times(k, period);
      BoundaryIsFirst(k, now, period);
    }
  }

  /** ... and the ready queue is in order. */
  lemma EqualIsOrder(threads: Threads, curr: Option<Tid>, ready: seq<Tid>, depleted: seq<Tid>, deadline: nat)
    requires Proper(threads, curr, ready, depleted, false)
    requires forall t :: t in ready ==> t in threads && threads[t].data.deadline == deadline
    ensures Proper(threads, curr, ready, depleted, true)
  {
  }

  /** `rtds_account_runtime`. */
  function Accounted(th: PolicyThread<Server>, now: nat): Server {
    var s := th.data;
    if th.status == Running && s.lastStart != 0 && now > s.lastStart
    then s.(lastStart := now, remaining := if now - s.lastStart >= s.remaining then 0
                                           else s.remaining - (now - s.lastStart))
    else s
  }

  lemma AccountedOk(th: PolicyThread<Server>, now: nat)
    requires ServerOk(th.data)
    ensures ServerOk(Accounted(th, now)) && ServerOk(Accounted(th, now).(lastStart := 0))
            && ServerOk(th.data.(lastStart := now))
  {
    var k: nat :| th.data.deadline == Times(k, th.data.period);
    assert Accounted(th, now).deadline == Times(k, th.data.period);
    assert Accounted(th, now).(lastStart := 0).deadline == Times(k, th.data.period);
    assert th.data.(lastStart := now).deadline == Times(k, th.data.period);
  }

  function Deadlines(threads: Threads): Tid -> int { t => if t in threads then threads[t].data.deadline else 0 }

  ghost predicate Base(threads: Threads, curr: Option<Tid>) {
    StatusOk(threads, curr) && forall t :: t in threads ==> ServerOk(threads[t].data)
  }

  predicate Fit(threads: Threads, curr: Option<Tid>, t: Tid) {
    Active(threads, curr, t) && threads[t].data.remaining > 0
  }

  predicate Spent(threads: Threads, curr: Option<Tid>, t: Tid) {
    Active(threads, curr, t) && threads[t].data.remaining == 0
  }

  /** The ready queue; with `o` in order of deadlines. */
  ghost predicate ReadyOk(threads: Threads, curr: Option<Tid>, q: seq<Tid>, o: bool) {
    InOrder(q, Deadlines(threads), o) && forall t :: t in q ==> Fit(threads, curr, t)
  }

  ghost predicate DepletedOk(threads: Threads, curr: Option<Tid>, q: seq<Tid>) {
    NoDup(q) && forall t :: t in q ==> Active(threads, curr, t)
  }

  ghost predicate Apart(ready: seq<Tid>, depleted: seq<Tid>) { forall t :: t in ready ==> t !in depleted }

  ghost predicate QueuesOk(threads: Threads, curr: Option<Tid>, ready: seq<Tid>, depleted: seq<Tid>, o: bool) {
    ReadyOk(threads, curr, ready, o) && DepletedOk(threads, curr, depleted) && Apart(ready, depleted)
  }

  ghost predicate Proper(threads: Threads, curr: Option<Tid>, ready: seq<Tid>, depleted: seq<Tid>, o: bool) {
    Base(threads, curr) && QueuesOk(threads, curr, ready, depleted, o)
  }

  /** The queues are as they should be once `t` is taken out of them. */
  ghost predicate Unqueued(threads: Threads, curr: Option<Tid>, ready: seq<Tid>, depleted: seq<Tid>, t: Tid, o: bool) {
    NoDup(ready) && NoDup(depleted) && Apart(ready, depleted)
    && QueuesOk(threads, curr, Remove(ready, t), Remove(depleted, t), o)
  }

  lemma QueuedParts(threads: Threads, curr: Option<Tid>, ready: seq<Tid>, depleted: seq<Tid>, o: bool)
    requires QueuesOk(threads, curr, ready, depleted, o)
    ensures forall t :: t in ready ==> Fit(threads, curr, t) && t in threads && t !in depleted
    ensures forall t :: t in depleted ==> Active(threads, curr, t) && t in threads
    ensures NoDup(ready) && NoDup(depleted)
  {
  }

  lemma ReadyKept(threads: Threads, threads': Threads, curr: Option<Tid>, q: seq<Tid>, who: set<Tid>, o: bool)
    requires ReadyOk(threads, curr, q, o) && OnlyData(threads, threads', who) && StatusOk(threads, curr)
    requires forall t :: t in q ==> t !in who
    ensures ReadyOk(threads', curr, q, o)
  {
    StatusKept(threads, threads', curr, who);
    hide StatusOk, Active;
    forall x | x in q
      ensures Fit(threads', curr, x) && Deadlines(threads)(x) == Deadlines(threads')(x)
    {
      assert Fit(threads, curr, x);
    }
    InOrderBySame(q, Deadlines(threads), Deadlines(threads'), o);
  }

  lemma DepletedKept(threads: Threads, threads': Threads, curr: Option<Tid>, q: seq<Tid>, who: set<Tid>)
    requires DepletedOk(threads, curr, q) && OnlyData(threads, threads', who) && StatusOk(threads, curr)
    ensures DepletedOk(threads', curr, q)
  {
    StatusKept(threads, threads', curr, who);
  }

  lemma ReadyTake(threads: Threads, curr: Option<Tid>, q: seq<Tid>, t: Tid, o: bool)
    requires ReadyOk(threads, curr, q, o)
    ensures NoDup(q) && ReadyOk(threads, curr, Remove(q, t), o)
    ensures forall x :: x in Remove(q, t) <==> x in q && x != t
  {
    RemoveInOrder(q, Deadlines(threads), t, o);
    RemoveMembers(q, t);
  }

  lemma DepletedTake(threads: Threads, curr: Option<Tid>, q: seq<Tid>, t: Tid)
    requires DepletedOk(threads, curr, q)
    ensures NoDup(q) && DepletedOk(threads, curr, Remove(q, t))
    ensures forall x :: x in Remove(q, t) <==> x in q && x != t
  {
    RemoveNoDup(q, t);
    RemoveMembers(q, t);
  }

  /** Changing one thread leaves the queues without it as they should be. With `o`, the ready queue must
      have been in order apart from that thread. */
  lemma TakenOut(threads: Threads, threads': Threads, curr: Option<Tid>, ready: seq<Tid>, depleted: seq<Tid>, t: Tid,
                 o: bool)
    requires QueuesOk(threads, curr, ready, depleted, false) && StatusOk(threads, curr)
    requires o ==> InOrder(Remove(ready, t), Deadlines(threads), true)
    requires OnlyData(threads, threads', {t})
    ensures Unqueued(threads', curr, ready, depleted, t, o)
    ensures forall x :: x in Remove(ready, t) <==> x in ready && x != t
    ensures forall x :: x in Remove(depleted, t) <==> x in depleted && x != t
  {
    hide StatusOk, Remove, Deadlines;
    ReadyTake(threads, curr, ready, t, false);
    DepletedTake(threads, curr, depleted, t);
    ReadyKept(threads, threads', curr, Remove(ready, t), {t}, o);
    DepletedKept(threads, threads', curr, Remove(depleted, t), {t});
  }

  lemma ReadyPut(threads: Threads, curr: Option<Tid>, q: seq<Tid>, t: Tid, o: bool)
    requires ReadyOk(threads, curr, q, o) && t !in q && Fit(threads, curr, t)
    ensures ReadyOk(threads, curr, Insert(q, Deadlines(threads), t, false), o)
    ensures forall x :: x in Insert(q, Deadlines(threads), t, false) <==> x in q || x == t
  {
    InsertInOrder(q, Deadlines(threads), t, false, o);
    InsertMembers(q, Deadlines(threads), t, false);
  }

  lemma DepletedPut(threads: Threads, curr: Option<Tid>, q: seq<Tid>, t: Tid)
    requires DepletedOk(threads, curr, q) && t !in q && Active(threads, curr, t)
    ensures DepletedOk(threads, curr, q + [t])
  {
  }

  lemma DepletedBack(threads: Threads, curr: Option<Tid>, q: seq<Tid>, t: Tid)
    requires NoDup(q) && DepletedOk(threads, curr, Remove(q, t)) && Active(threads, curr, t)
    ensures DepletedOk(threads, curr, q)
  {
    RemoveMembers(q, t);
    forall x | x in q
      ensures Active(threads, curr, x)
    {
      assert x != t ==> x in Remove(q, t);
    }
  }

  /** The queued threads, and the current one unless it is blocking. */
  function Candidates(threads: Threads, curr: Option<Tid>, ready: seq<Tid>, depleted: seq<Tid>): set<Tid> {
    Members(ready) + Members(depleted) + (if curr.Some? && Active(threads, curr, curr.value) then {curr.value} else {})
  }

  /** With budget, `t` has the earliest deadline of those with budget; without, nobody has any and `t`
      has the earliest deadline of all. */
  ghost predicate Earliest(threads: Threads, c: set<Tid>, t: Tid) {
    && t in threads
    && forall x :: x in c ==>
         && x in threads
         && (threads[t].data.remaining == 0 ==> threads[x].data.remaining == 0)
         && (threads[x].data.remaining > 0 || threads[t].data.remaining == 0 ==>
               threads[t].data.deadline <= threads[x].data.deadline)
  }

  lemma HeadIsEarliest(threads: Threads, curr: Option<Tid>, ready: seq<Tid>, depleted: seq<Tid>, c: set<Tid>)
    requires ready != [] && QueuesOk(threads, curr, ready, depleted, true) && forall t :: t in depleted ==>
               Spent(threads, curr, t)
    requires forall t :: t in c <==> t in ready || t in depleted
    ensures Earliest(threads, c, ready[0])
  {
    QueuedParts(threads, curr, ready, depleted, true);
    assert ready[0] in ready;
    forall x | x in ready
      ensures Deadlines(threads)(ready[0]) <= Deadlines(threads)(x)
    {
      var m :| 0 <= m < |ready| && ready[m] == x;
    }
  }

  lemma SlackIsEarliest(threads: Threads, curr: Option<Tid>, depleted: seq<Tid>, best: nat, c: set<Tid>)
    requires best < |depleted| && (forall t :: t in depleted ==> Spent(threads, curr, t)) && forall t :: t in c <==>
               t in depleted
    requires forall t :: t in depleted ==> t in threads
    requires forall i :: 0 <= i < |depleted| ==>
               threads[depleted[best]].data.deadline <= threads[depleted[i]].data.deadline
    ensures Earliest(threads, c, depleted[best])
  {
    forall x | x in depleted
      ensures threads[depleted[best]].data.deadline <= threads[x].data.deadline && threads[x].data.remaining == 0
    {
      var m :| 0 <= m < |depleted| && depleted[m] == x;
      assert Spent(threads, curr, x);
    }
  }

  lemma AtPickSwitched(a: Threads, b: Threads, curr: Option<Tid>, next: Option<Tid>, c: set<Tid>, now: nat)
    requires forall t :: t in c ==> AtPick(a, b, t, now)
    ensures forall t :: t in c ==> AtPick(a, Switched(b, curr, next), t, now)
  {
    hide Advanced, Accounted;
  }

  lemma AtPickStarted(a: Threads, b: Threads, b': Threads, t: Tid, n: Tid, now: nat)
    requires AtPick(a, b, t, now) && n in b && b' == b[n := b[n].(data := b[n].data.(lastStart := now))]
    ensures AtPick(a, b', t, now)
  {
    hide Accounted, Advanced;
  }

  lemma StartedSame(a: Threads, b: Threads, b': Threads, c: set<Tid>, n: Tid, now: nat)
    requires SameBut(a, b) && n in b && b' == b[n := b[n].(data := b[n].data.(lastStart := now))]
    ensures SameBut(a, b') && (Earliest(b, c, n) ==> Earliest(b', c, n))
  {
  }

  lemma ChoiceKept(threads: Threads, curr: Option<Tid>, c: set<Tid>, t: Tid)
    requires t in threads
    ensures var threads' := Switched(threads, curr, Some(t));
            && (Earliest(threads, c, t) ==> Earliest(threads', c, t))
            && t in threads' && threads'[t].data == threads[t].data
  {
  }

  lemma CandidatesActive(threads: Threads, curr: Option<Tid>, ready: seq<Tid>, depleted: seq<Tid>)
    requires QueuesOk(threads, curr, ready, depleted, false)
    ensures forall t :: t in Candidates(threads, curr, ready, depleted) ==> Active(threads, curr, t)
  {
    QueuedParts(threads, curr, ready, depleted, false);
  }

  lemma StillActive(threads: Threads, threads': Threads, curr: Option<Tid>, c: set<Tid>)
    requires SameBut(threads, threads') && forall t :: t in c ==> Active(threads, curr, t)
    ensures forall t :: t in c ==> Active(threads', curr, t)
  {
  }

  lemma SwitchKeeps(threads: Threads, curr: Option<Tid>, ready: seq<Tid>, depleted: seq<Tid>, next: Option<Tid>,
                    o: bool)
    requires Proper(threads, curr, ready, depleted, o)
    requires next.Some? ==> Active(threads, curr, next.value) && next.value !in ready && next.value !in depleted
    ensures Proper(Switched(threads, curr, next), next, ready, depleted, o)
  {
    var threads' := Switched(threads, curr, next);
    SwitchedStatus(threads, curr, next);
    hide Switched, StatusOk, Active, ServerOk;
    assert ReadyOk(threads', next, ready, o) by {
      InOrderBySame(ready, Deadlines(threads), Deadlines(threads'), o);
    }
  }

  /** A new state for one thread that is in no queue. */
  lemma OneThread(threads: Threads, curr: Option<Tid>, ready: seq<Tid>, depleted: seq<Tid>, t: Tid,
                  th: PolicyThread<Server>, o: bool)
    requires Proper(threads, curr, ready, depleted, o)
    requires t !in ready && t !in depleted && ServerOk(th.data) && (t in threads || curr != Some(t))
    requires (th.status == Running <==> curr == Some(t)) && (th.blocking ==> curr == Some(t))
    ensures Proper(threads[t := th], curr, ready, depleted, o)
  {
    var threads' := threads[t := th];
    hide ServerOk;
    assert Base(threads', curr) by { hide QueuesOk; }
    hide Base;
    assert ReadyOk(threads', curr, ready, o) by {
      InOrderBySame(ready, Deadlines(threads), Deadlines(threads'), o);
    }
  }

  lemma SleepKeeps(threads: Threads, curr: Option<Tid>, ready: seq<Tid>, depleted: seq<Tid>, t: Tid, now: nat, o: bool)
    requires Proper(threads, curr, ready, depleted, o) && t in threads
    ensures curr != Some(t) ==> Accounted(threads[t], now) == threads[t].data
    ensures Proper(threads[t := Asleep(threads[t], Accounted(threads[t], now).(lastStart := 0))], curr,
                   Remove(ready, t), Remove(depleted, t), o)
    ensures forall x :: x in Remove(ready, t) <==> x in ready && x != t
    ensures forall x :: x in Remove(depleted, t) <==> x in depleted && x != t
  {
    AccountedOk(threads[t], now);
    ReadyTake(threads, curr, ready, t, o);
    DepletedTake(threads, curr, depleted, t);
    hide ReadyOk, DepletedOk, Remove, ServerOk;
    OneThread(threads, curr, Remove(ready, t), Remove(depleted, t), t,
              Asleep(threads[t], Accounted(threads[t], now).(lastStart := 0)), o);
  }

  lemma SameKeys(threads: Threads, threads': Threads, q: seq<Tid>, t: Tid)
    requires threads.Keys == threads'.Keys && forall x :: x in threads ==> threads'[x].data == threads[x].data
    ensures Insert(q, Deadlines(threads), t, false) == Insert(q, Deadlines(threads'), t, false)
  {
    InsertSameKey(q, Deadlines(threads), Deadlines(threads'), t, false);
  }

  lemma WakeKeeps(threads: Threads, curr: Option<Tid>, ready: seq<Tid>, depleted: seq<Tid>, t: Tid, now: nat, o: bool)
    requires Proper(threads, curr, ready, depleted, o) && t in threads
    requires threads[t].status == Blocked || threads[t].blocking
    ensures threads[t].data.period > 0 && t !in ready && t !in depleted
    ensures var threads' := threads[t := Awake(threads[t], Advanced(threads[t].data, now).(lastStart := 0))];
            && (threads'[t].data.remaining > 0 ==>
                  Proper(threads', curr, Insert(ready, Deadlines(threads'), t, false), depleted, o))
            && (threads'[t].data.remaining == 0 ==> Proper(threads', curr, ready, depleted + [t], o))
            && (forall x :: x in Insert(ready, Deadlines(threads'), t, false) <==> x in ready || x == t)
  {
    QueuedParts(threads, curr, ready, depleted, o);
    AdvancedOk(threads[t].data, now);
    assert t !in ready && t !in depleted;
    var th := Awake(threads[t], Advanced(threads[t].data, now).(lastStart := 0));
    AccountedOk(PolicyThread(Advanced(threads[t].data, now), Blocked, false), now);
    hide ReadyOk, DepletedOk, Advanced, Insert, Deadlines, ServerOk;
    OneThread(threads, curr, ready, depleted, t, th, o);
    var threads' := threads[t := th];
    InsertMembers(ready, Deadlines(threads'), t, false);
    if th.data.remaining > 0 {
      ReadyPut(threads', curr, ready, t, o);
    } else {
      DepletedPut(threads', curr, depleted, t);
    }
  }

  lemma SameButs(a: Threads, b: Threads, c: Threads, p: set<Tid>, q: set<Tid>)
    requires OnlyData(a, b, p) && OnlyData(b, c, q)
    ensures SameBut(a, c)
  {
    OnlyThen(a, b, c, p, q);
  }

  /** First the ready threads are brought up to date, then the depleted ones. */
  lemma BothUpToDate(a: Threads, b: Threads, c: Threads, ready: seq<Tid>, depleted: seq<Tid>, now: nat)
    requires OnlyData(a, b, Members(ready)) && OnlyData(b, c, Members(depleted))
    requires forall x :: x in ready ==> UpToDate(a, b, x, now) && x !in depleted
    requires forall x :: x in depleted ==> UpToDate(b, c, x, now)
    ensures OnlyData(a, c, Members(ready) + Members(depleted))
    ensures forall x :: x in ready || x in depleted ==> UpToDate(a, c, x, now)
  {
    hide Advanced;
    OnlyThen(a, b, c, Members(ready), Members(depleted));
    forall x | x in ready || x in depleted
      ensures UpToDate(a, c, x, now)
    {
      if x in ready {
        assert UpToDate(a, b, x, now) && x !in Members(depleted);
      } else {
        assert UpToDate(b, c, x, now) && x !in Members(ready);
      }
    }
  }

  /** Bringing up to date twice at one instant is doing it once, and only the current thread is charged. */
  lemma PickedData(a: Threads, b: Threads, d: Threads, curr: Option<Tid>, t: Tid, now: nat)
    requires Base(a, curr) && (if curr.Some? then OnlyData(a, b, {curr.value}) else OnlyData(a, b, {}))
    requires curr.Some? ==> AtPick(a, b, curr.value, now)
    requires t in a && UpToDate(b, d, t, now)
    ensures AtPick(a, d, t, now)
  {
    AccountedOk(a[t], now);
    AdvancedOk(Accounted(a[t], now), now);
    hide Missed, ServerOk;
    if curr == Some(t) {
      assert AtPick(a, b, t, now);
    } else {
      assert b[t] == a[t] && Accounted(a[t], now) == a[t].data;
    }
  }

  ghost predicate UpToDate(a: Threads, b: Threads, t: Tid, now: nat) {
    t in a && t in b && a[t].data.period > 0 && b[t].data == Advanced(a[t].data, now)
  }

  /** `t` was charged for what it ran and then brought up to `now` (its clock may have been started). */
  ghost predicate AtPick(a: Threads, b: Threads, t: Tid, now: nat) {
    && t in a && t in b && Accounted(a[t], now).period > 0 && now < b[t].data.deadline
    && b[t].data.(lastStart := 0) == Advanced(Accounted(a[t], now), now).(lastStart := 0)
  }

  lemma BaseStatus(threads: Threads, curr: Option<Tid>)
    requires Base(threads, curr)
    ensures StatusOk(threads, curr)
  {
  }

  lemma ThreadData(threads: Threads, curr: Option<Tid>, t: Tid, now: nat)
    requires Base(threads, curr) && t in threads
    ensures threads[t].data.period > 0 && ServerOk(Advanced(threads[t].data, now))
            && ServerOk(threads[t].data.(lastStart := now))
    ensures now < Advanced(threads[t].data, now).deadline
    ensures UpToDate(threads, threads[t := threads[t].(data := Advanced(threads[t].data, now))], t, now)
  {
    AdvancedOk(threads[t].data, now);
    AccountedOk(threads[t], now);
  }

  lemma CurrentData(threads: Threads, curr: Option<Tid>, now: nat)
    requires Base(threads, curr) && curr.Some?
    ensures var c := curr.value;
            && c in threads && Accounted(threads[c], now).period > 0
               && ServerOk(Advanced(Accounted(threads[c], now), now))
            && AtPick(threads, threads[c := threads[c].(data := Advanced(Accounted(threads[c], now), now))], c, now)
  {
    AccountedOk(threads[curr.value], now);
    AdvancedOk(Accounted(threads[curr.value], now), now);
  }

  lemma LaterSame(threads: Threads, threads': Threads, q: seq<Tid>, i: nat)
    requires NoDup(q) && i < |q| && OnlyData(threads, threads', {q[i]})
    ensures forall j :: 0 <= j < |q| && j != i && q[j] in threads ==>
              q[j] in threads' && threads'[q[j]] == threads[q[j]]
  {
  }

  /** The walk's functions are the policy's. */
  ghost predicate Policy(due: Server -> bool, renew: Server -> Server, now: nat) {
    && (forall s :: due(s) == (now >= s.deadline))
    && (forall s :: renew(s) == if s.period > 0 then Advanced(s, now) else s)
  }

  lemma WalkReady(threads: Threads, curr: Option<Tid>, q: seq<Tid>, key: Server -> int, due: Server -> bool,
                  renew: Server -> Server, now: nat, o: bool)
    requires Base(threads, curr) && ReadyOk(threads, curr, q, o) && Policy(due, renew, now)
             && forall s :: key(s) == s.deadline
    ensures EdfWalk.Ordered(threads, q, key, o) && EdfWalk.Renews(threads, q, due, renew)
  {
    hide Advanced, StatusOk, ServerOk;
    InOrderBySame(q, Deadlines(threads), EdfWalk.KeyOf(threads, key), o);
    forall t | t in q && t in threads && due(threads[t].data)
      ensures !due(renew(threads[t].data))
    {
      AdvancedOk(threads[t].data, now);
      PeriodOk(threads[t].data);
    }
  }

  lemma PeriodOk(s: Server)
    requires ServerOk(s)
    ensures s.period > 0
  {
  }

  /** The threads of `who` are brought up to date. */
  ghost predicate AdvancedIn(threads: Threads, threads': Threads, who: set<Tid>, now: nat) {
    && threads'.Keys == threads.Keys
    && forall t :: t in threads ==>
         && threads[t].data.period > 0
         && threads'[t] == threads[t].(data := if t in who then Advanced(threads[t].data, now) else threads[t].data)
  }

  /** The walk brings everything ready up to date, and nothing else. */
  lemma WalkAdvances(threads: Threads, curr: Option<Tid>, q: seq<Tid>, due: Server -> bool, renew: Server -> Server,
                     now: nat)
    requires Base(threads, curr) && Policy(due, renew, now)
    ensures AdvancedIn(threads, EdfWalk.Renewed(threads, Members(q), due, renew), Members(q), now)
  {
    hide Advanced, StatusOk, ServerOk;
    forall t | t in threads
      ensures threads[t].data.period > 0
      ensures (if due(threads[t].data) then renew(threads[t].data)
               else threads[t].data) == Advanced(threads[t].data, now)
    {
      OneWalked(threads[t].data, due, renew, now);
    }
  }

  lemma Walked(threads: Threads, threads': Threads, curr: Option<Tid>, ready: seq<Tid>, depleted: seq<Tid>, now: nat,
               o: bool)
    requires Proper(threads, curr, ready, depleted, o) && AdvancedIn(threads, threads', Members(ready), now)
    ensures Base(threads', curr) && OnlyData(threads, threads', Members(ready)) && DepletedOk(threads', curr, depleted)
    ensures forall t :: t in ready ==> UpToDate(threads, threads', t, now) && threads'[t].data.remaining > 0
  {
    QueuedParts(threads, curr, ready, depleted, o);
    hide ReadyOk, Advanced, StatusOk, Active, ServerOk;
    assert OnlyData(threads, threads', Members(ready)) by { hide DepletedOk; }
    StatusKept(threads, threads', curr, Members(ready));
    forall t | t in threads'
      ensures ServerOk(threads'[t].data) && (t in ready ==> threads'[t].data.remaining > 0)
    {
      StillFit(threads[t].data, now);
    }
  }

  lemma StillFit(s: Server, now: nat)
    requires ServerOk(s)
    ensures s.period > 0 && ServerOk(Advanced(s, now)) && (s.remaining > 0 ==> Advanced(s, now).remaining > 0)
  {
    AdvancedOk(s, now);
  }

  lemma OneWalked(s: Server, due: Server -> bool, renew: Server -> Server, now: nat)
    requires ServerOk(s) && Policy(due, renew, now)
    ensures var r := if due(s) then renew(s) else s;
            s.period > 0 && r == Advanced(s, now) && ServerOk(r) && (s.remaining > 0 ==> r.remaining > 0)
  {
    AdvancedOk(s, now);
  }

  lemma WalkedReady(threads: Threads, threads': Threads, curr: Option<Tid>, q: seq<Tid>, q': seq<Tid>,
                    key: Server -> int, now: nat, o: bool)
    requires ReadyOk(threads, curr, q, o) && OnlyData(threads, threads', Members(q)) && forall s :: key(s) == s.deadline
    requires forall t :: t in q ==> UpToDate(threads, threads', t, now) && threads'[t].data.remaining > 0
    requires EdfWalk.Ordered(threads', q', key, o) && EdfWalk.SameMembers(q, q')
    ensures ReadyOk(threads', curr, q', o) && forall t :: t in q' ==> UpToDate(threads, threads', t, now)
  {
    hide Advanced;
    InOrderBySame(q', EdfWalk.KeyOf(threads', key), Deadlines(threads'), o);
    forall t | t in q'
      ensures Fit(threads', curr, t)
    {
      assert t in q && Fit(threads, curr, t) && UpToDate(threads, threads', t, now);
    }
  }

  ghost predicate NoneDue(threads: Threads, q: seq<Tid>, now: nat) {
    forall x :: x in q ==> x in threads && now < threads[x].data.deadline
  }

  lemma NothingDue(threads: Threads, q: seq<Tid>, due: Server -> bool, now: nat)
    requires forall s :: due(s) == (now >= s.deadline)
    ensures NoneDue(threads, q, now) ==> EdfWalk.DueIn(threads, q, due) == {}
  {
  }

  /** The nodes of `q` that have no budget, in the order of `q`. */
  function Staying(threads: Threads, q: seq<Tid>): seq<Tid> {
    if q == [] then []
    else (if q[0] in threads && threads[q[0]].data.remaining == 0 then [q[0]] else []) + Staying(threads, q[1..])
  }
}
