/** What the CBS run queue of one pCPU keeps under every step that is made on it. */
module CbsQueue {
  import opened CbsServers
  import opened Common
  import EdfWalk
  import opened OrderedQueues
  import opened PolicyThreads

  type Threads = map<Tid, PolicyThread<Server>>

  /** The EDF key. */
  function Deadlines(threads: Threads): Tid -> int {
    t => if t in threads then threads[t].data.deadline else 0
  }

  predicate Stale(s: Server, now: nat) { s.remaining == 0 || s.deadline <= now }

  /** `t` has neither run out of budget nor passed its deadline. */
  predicate Eligible(threads: Threads, t: Tid, now: nat) { t in threads && !Stale(threads[t].data, now) }

  ghost predicate EligibleUpTo(threads: Threads, q: seq<Tid>, i: nat, now: nat)
    requires i <= |q|
  {
    forall m :: 0 <= m < i ==> Eligible(threads, q[m], now)
  }

  ghost predicate ServersOk(threads: Threads) {
    forall t :: t in threads ==> Valid(threads[t].data) && Bounded(threads[t].data)
  }

  /** With `o`, in order of deadlines. */
  ghost predicate Ordered(threads: Threads, q: seq<Tid>, o: bool) { InOrder(q, Deadlines(threads), o) }

  ghost predicate AllActive(threads: Threads, curr: Option<Tid>, q: seq<Tid>) {
    forall t :: t in q ==> Active(threads, curr, t)
  }

  ghost predicate QueueOk(threads: Threads, curr: Option<Tid>, q: seq<Tid>, o: bool) {
    Ordered(threads, q, o) && AllActive(threads, curr, q)
  }

  /** What a thread has run since it was last charged, charged to its server. */
  function Accounted(th: PolicyThread<Server>, now: nat): (r: Server)
    requires CbsServers.Valid(th.data)
    ensures r.period == th.data.period
  {
    var s := th.data;
    if th.status == Running && s.lastStart != 0 && now > s.lastStart
    then Charged(s.(lastStart := now), now - s.lastStart) else s
  }

  /** What `pick_next` chooses from: the queued threads and the current one unless it is blocking. */
  function Candidates(threads: Threads, curr: Option<Tid>, q: seq<Tid>): set<Tid> {
    Members(q) + (if curr.Some? && Active(threads, curr, curr.value) then {curr.value} else {})
  }

  /** `t` was charged for what it ran and its window refreshed (its clock may have been started). */
  ghost predicate AtPick(threads: Threads, threads': Threads, t: Tid, now: nat) {
    && t in threads && t in threads' && CbsServers.Valid(threads[t].data)
    && threads'[t].data.(lastStart := 0) == Refreshed(Accounted(threads[t], now), now).(lastStart := 0)
  }

  ghost predicate AllAtPick(threads: Threads, threads': Threads, c: set<Tid>, now: nat) {
    forall t :: t in c ==> AtPick(threads, threads', t, now)
  }

  /** Refreshing twice at one instant is refreshing once, and only the current thread is charged. */
  lemma QueueAtPick(a: Threads, b: Threads, c: Threads, curr: Option<Tid>, q: seq<Tid>, now: nat)
    requires ServersOk(a) && ServersOk(b) && StatusOk(a, curr) && OnlyData(a, b, Current(curr))
    requires curr.Some? && curr.value in q ==> AtPick(a, b, curr.value, now)
    requires AllRefreshed(b, c, q, now)
    ensures AllAtPick(a, c, Members(q), now)
  {
    forall t | t in q
      ensures AtPick(a, c, t, now)
    {
      hide Refreshed, Accounted;
      OneAtPick(a, b, c, curr, t, now);
    }
  }

  lemma OneAtPick(a: Threads, b: Threads, c: Threads, curr: Option<Tid>, t: Tid, now: nat)
    requires ServersOk(a) && ServersOk(b) && StatusOk(a, curr) && OnlyData(a, b, Current(curr))
    requires curr == Some(t) ==> AtPick(a, b, t, now)
    requires t in b && t in c && b[t].data.period > 0 && c[t].data == Refreshed(b[t].data, now)
    ensures AtPick(a, c, t, now)
  {
    hide Bounded, Charged;
    if curr == Some(t) {
      AccountedOk(a[t], now);
      RefreshedBounded(Accounted(a[t], now), now);
    }
  }

  lemma AccountedOk(th: PolicyThread<Server>, now: nat)
    requires CbsServers.Valid(th.data) && Bounded(th.data)
    ensures CbsServers.Valid(Accounted(th, now)) && Bounded(Accounted(th, now))
    ensures Bounded(Accounted(th, now).(lastStart := 0)) && Bounded(th.data.(lastStart := 0))
  {
    if th.status == Running && th.data.lastStart != 0 && now > th.data.lastStart {
      ChargedBounded(th.data.(lastStart := now), now - th.data.lastStart);
    }
  }

  lemma StartedAtPick(a: Threads, b: Threads, c: Threads, who: set<Tid>, t: Tid, now: nat)
    requires AllAtPick(a, b, who, now) && t in b
    requires c == b[t := b[t].(data := b[t].data.(lastStart := now))]
    ensures AllAtPick(a, c, who, now)
  {
    hide Refreshed, Accounted;
  }

  /** New servers for unqueued threads leave the queue as it should be. */
  lemma QueueKept(threads: Threads, threads': Threads, curr: Option<Tid>, q: seq<Tid>, who: set<Tid>, o: bool)
    requires StatusOk(threads, curr) && QueueOk(threads, curr, q, o) && OnlyData(threads, threads', who)
    requires forall t :: t in who ==> t !in q
    ensures QueueOk(threads', curr, q, o)
  {
    StatusKept(threads, threads', curr, who);
    InOrderBySame(q, Deadlines(threads), Deadlines(threads'), o);
  }

  lemma Inserted(threads: Threads, q: seq<Tid>, t: Tid, o: bool)
    requires Ordered(threads, q, o) && t !in q
    ensures Ordered(threads, Insert(q, Deadlines(threads), t, false), o)
    ensures forall x :: x in Insert(q, Deadlines(threads), t, false) <==> x in q || x == t
  {
    InsertInOrder(q, Deadlines(threads), t, false, o);
    InsertMembers(q, Deadlines(threads), t, false);
  }

  lemma InsertedOk(threads: Threads, curr: Option<Tid>, q: seq<Tid>, t: Tid, o: bool)
    requires QueueOk(threads, curr, q, o) && Active(threads, curr, t) && t !in q
    ensures Ordered(threads, q, o) && NoDup(q) && Remove(q, t) == q
    ensures QueueOk(threads, curr, Insert(q, Deadlines(threads), t, false), o)
  {
    hide Active;
    Inserted(threads, q, t, o);
    RemoveMembers(q, t);
  }

  lemma Removed(threads: Threads, curr: Option<Tid>, q: seq<Tid>, t: Tid, o: bool)
    requires QueueOk(threads, curr, q, o)
    ensures QueueOk(threads, curr, Remove(q, t), o)
    ensures forall x :: x in Remove(q, t) <==> x in q && x != t
  {
    RemoveInOrder(q, Deadlines(threads), t, o);
    RemoveMembers(q, t);
  }

  lemma ActiveWith(threads: Threads, curr: Option<Tid>, q: seq<Tid>, t: Tid, q': seq<Tid>)
    requires AllActive(threads, curr, q) && Active(threads, curr, t)
    requires forall x :: x in q' ==> x in q || x == t
    ensures AllActive(threads, curr, q')
  {
  }

  ghost predicate AllRefreshed(threads: Threads, threads': Threads, q: seq<Tid>, now: nat) {
    forall t :: t in q ==>
      t in threads && t in threads' && threads[t].data.period > 0
      && threads'[t].data == Refreshed(threads[t].data, now)
  }

  function Current(curr: Option<Tid>): set<Tid> { if curr.Some? then {curr.value} else {} }

  lemma ServerIn(threads: Threads, t: Tid)
    requires ServersOk(threads) && t in threads
    ensures CbsServers.Valid(threads[t].data)
  {
  }

  lemma CurrentThread(threads: Threads, curr: Option<Tid>, q: seq<Tid>)
    requires curr.Some? && StatusOk(threads, curr) && AllActive(threads, curr, q)
    ensures curr.value in threads && (curr.value in q ==> Active(threads, curr, curr.value))
  {
  }

  /** `t` and every candidate have budget and time left, and none has an earlier deadline than `t`. */
  ghost predicate Earliest(threads: Threads, c: set<Tid>, t: Tid, now: nat) {
    Eligible(threads, t, now) &&
    forall x :: x in c ==> Eligible(threads, x, now) && threads[t].data.deadline <= threads[x].data.deadline
  }

  lemma HeadIsEarliest(threads: Threads, curr: Option<Tid>, q: seq<Tid>, now: nat)
    requires q != [] && QueueOk(threads, curr, q, true) && EligibleUpTo(threads, q, |q|, now)
    ensures Earliest(threads, Members(q), q[0], now)
  {
    forall x | x in q
      ensures Eligible(threads, x, now) && Deadlines(threads)(q[0]) <= Deadlines(threads)(x)
    {
      var m :| 0 <= m < |q| && q[m] == x;
      assert Eligible(threads, q[m], now);
    }
    assert Eligible(threads, q[0], now);
  }

  /** Starting the clock of a dequeued thread changes nothing the queue depends on. */
  lemma Started(threads: Threads, threads': Threads, curr: Option<Tid>, q: seq<Tid>, c: set<Tid>, t: Tid, now: nat,
                o: bool)
    requires t in threads && t !in q && ServersOk(threads) && StatusOk(threads, curr) && QueueOk(threads, curr, q, o)
    requires threads' == threads[t := threads[t].(data := threads[t].data.(lastStart := now))]
    ensures ServersOk(threads') && StatusOk(threads', curr) && QueueOk(threads', curr, q, o)
            && SameBut(threads, threads')
    ensures Earliest(threads, c, t, now) ==> Earliest(threads', c, t, now)
    ensures forall x :: Eligible(threads', x, now) == Eligible(threads, x, now)
  {
    hide Ordered, AllActive, Active;
    assert OnlyData(threads, threads', {t}) by { hide ServersOk, StatusOk, Earliest; }
    assert ServersOk(threads') by { hide StatusOk, Earliest, OnlyData; }
    assert Earliest(threads, c, t, now) ==> Earliest(threads', c, t, now) by { hide StatusOk, ServersOk, OnlyData; }
    QueueKept(threads, threads', curr, q, {t}, o);
    StatusKept(threads, threads', curr, {t});
  }

  /** A switch to an unqueued active thread, or to idle, keeps the queue and statuses right. */
  lemma SwitchKeeps(threads: Threads, curr: Option<Tid>, q: seq<Tid>, next: Option<Tid>, o: bool)
    requires ServersOk(threads) && StatusOk(threads, curr) && QueueOk(threads, curr, q, o)
    requires next.Some? ==> Active(threads, curr, next.value) && next.value !in q
    ensures var threads' := Switched(threads, curr, next);
            ServersOk(threads') && StatusOk(threads', next) && QueueOk(threads', next, q, o)
  {
    var threads' := Switched(threads, curr, next);
    InOrderBySame(q, Deadlines(threads), Deadlines(threads'), o);
  }

  lemma CurrentIn(threads: Threads, curr: Option<Tid>)
    requires StatusOk(threads, curr)
    ensures curr.Some? ==> curr.value in threads
  {
  }

  lemma CandidatesActive(threads: Threads, threads': Threads, curr: Option<Tid>, q: seq<Tid>)
    requires AllActive(threads, curr, q) && SameBut(threads, threads')
    ensures forall t :: t in Candidates(threads, curr, q) ==> t in threads' && Active(threads', curr, t)
  {
  }

  lemma AtPickSwitched(a: Threads, b: Threads, curr: Option<Tid>, next: Option<Tid>, c: set<Tid>, now: nat)
    requires AllAtPick(a, b, c, now)
    ensures AllAtPick(a, Switched(b, curr, next), c, now)
  {
    hide Refreshed, Accounted;
  }

  lemma EarliestKept(threads: Threads, curr: Option<Tid>, c: set<Tid>, t: Tid, now: nat)
    requires Earliest(threads, c, t, now)
    ensures Earliest(Switched(threads, curr, Some(t)), c, t, now)
  {
  }

  /** Charged if current, its clock stopped; blocked at once unless it is running. */
  function Slept(threads: Threads, curr: Option<Tid>, t: Tid, now: nat): Threads
    requires t in threads && CbsServers.Valid(threads[t].data)
  {
    var th := threads[t];
    var s := (if curr == Some(t) then Accounted(th, now) else th.data).(lastStart := 0);
    threads[t := Asleep(th, s)]
  }

  /** A new state for one unqueued thread. */
  lemma OneThread(threads: Threads, curr: Option<Tid>, q: seq<Tid>, t: Tid, th: PolicyThread<Server>, o: bool)
    requires ServersOk(threads) && StatusOk(threads, curr) && QueueOk(threads, curr, q, o) && t in threads && t !in q
    requires CbsServers.Valid(th.data) && Bounded(th.data)
    requires (th.status == Running <==> curr == Some(t)) && (th.blocking ==> curr == Some(t))
    ensures var threads' := threads[t := th];
            ServersOk(threads') && StatusOk(threads', curr) && QueueOk(threads', curr, q, o)
  {
    hide Bounded, CbsServers.Valid;
    var threads' := threads[t := th];
    assert ServersOk(threads') by { hide StatusOk, QueueOk; }
    assert StatusOk(threads', curr) by { hide ServersOk, QueueOk; }
    assert AllActive(threads', curr, q) by { hide ServersOk, StatusOk; }
    hide ServersOk, StatusOk, AllActive;
    InOrderBySame(q, Deadlines(threads), Deadlines(threads'), o);
  }

  lemma NewThread(threads: Threads, curr: Option<Tid>, q: seq<Tid>, t: Tid, th: PolicyThread<Server>, o: bool)
    requires ServersOk(threads) && StatusOk(threads, curr) && QueueOk(threads, curr, q, o) && t !in threads
    requires CbsServers.Valid(th.data) && Bounded(th.data) && th.status == Blocked && !th.blocking
    ensures var threads' := threads[t := th];
            ServersOk(threads') && StatusOk(threads', curr) && QueueOk(threads', curr, q, o)
  {
    hide Bounded, CbsServers.Valid;
    InOrderBySame(q, Deadlines(threads), Deadlines(threads[t := th]), o);
  }

  lemma SleepKeeps(threads: Threads, curr: Option<Tid>, q: seq<Tid>, t: Tid, now: nat, o: bool)
    requires ServersOk(threads) && StatusOk(threads, curr) && QueueOk(threads, curr, q, o) && t in threads
    ensures CbsServers.Valid(threads[t].data)
    ensures var threads' := Slept(threads, curr, t, now);
            ServersOk(threads') && StatusOk(threads', curr) && QueueOk(threads', curr, Remove(q, t), o)
    ensures forall x :: x in Remove(q, t) <==> x in q && x != t
  {
    hide Accounted, QueueOk, Remove, Bounded;
    AccountedOk(threads[t], now);
    Removed(threads, curr, q, t, o);
    OneThread(threads, curr, Remove(q, t), t, Slept(threads, curr, t, now)[t], o);
  }

  /** Replenished by the wake rule, its clock stopped; runnable unless it was still running. */
  function WokenThread(threads: Threads, t: Tid, now: nat): Threads
    requires t in threads && threads[t].data.period > 0
  {
    var th := threads[t];
    threads[t := Awake(th, Woken(th.data, now).(lastStart := 0))]
  }

  /** The queue only looks at servers. */
  lemma SameOrder(threads: Threads, threads': Threads, q: seq<Tid>, t: Tid, o: bool)
    requires threads.Keys == threads'.Keys
    requires forall x :: x in threads ==> threads'[x].data == threads[x].data
    ensures Ordered(threads, q, o) <==> Ordered(threads', q, o)
    ensures Insert(q, Deadlines(threads), t, false) == Insert(q, Deadlines(threads'), t, false)
  {
    InsertSameKey(q, Deadlines(threads), Deadlines(threads'), t, false);
    if Ordered(threads, q, o) {
      InOrderBySame(q, Deadlines(threads), Deadlines(threads'), o);
    }
    if Ordered(threads', q, o) {
      InOrderBySame(q, Deadlines(threads'), Deadlines(threads), o);
    }
  }

  lemma WakeKeeps(threads: Threads, curr: Option<Tid>, q: seq<Tid>, t: Tid, now: nat, o: bool)
    requires ServersOk(threads) && StatusOk(threads, curr) && QueueOk(threads, curr, q, o) && t in threads
    requires threads[t].status == Blocked || threads[t].blocking
    ensures CbsServers.Valid(threads[t].data) && t !in q && NoDup(q) && Remove(q, t) == q
    ensures Ordered(WokenThread(threads, t, now), q, o) && Eligible(WokenThread(threads, t, now), t, now)
    ensures var threads' := WokenThread(threads, t, now);
            ServersOk(threads') && StatusOk(threads', curr)
            && QueueOk(threads', curr, Insert(q, Deadlines(threads'), t, false), o)
  {
    var threads' := WokenThread(threads, t, now);
    assert t !in q by { hide ServersOk, Ordered; }
    WokenBounded(threads[t].data, now);
    hide Woken, QueueOk;
    OneThread(threads, curr, q, t, threads'[t], o);
    InsertedOk(threads', curr, q, t, o);
  }

  /** `cbs_apply_inactive_wake_rule`. */
  method ApplyWakeRule(s: Server, now: nat) returns (r: Server)
    requires CbsServers.Valid(s)
    ensures r == Woken(s, now)
  {
    if s.remaining == 0 {
      r := ReplenishAfterDepletion(s, now);
    } else if NeedsWakeReplenish(s, now) {
      r := FromNow(s, now);
    } else {
      r := s;
    }
  }

  lemma OthersOk(threads: Threads, curr: Option<Tid>, q: seq<Tid>, o: bool)
    requires Ordered(threads, q, o) && AllActive(threads, curr, q)
    ensures QueueOk(threads, curr, q, o) && NoDup(q) && QueueOk(threads, curr, Others(q, curr), o)
  {
    if curr.Some? {
      Removed(threads, curr, q, curr.value, o);
    }
  }

  /** The refresh would carry `t`, queued as the current thread, past the thread behind it. */
  predicate Displaced(threads: Threads, curr: Option<Tid>, q: seq<Tid>, t: Tid, now: nat) {
    && curr == Some(t) && t in q && t in threads && threads[t].data.period > 0
    && var next := EdfWalk.Next(q, t);
       next.Some? && next.value in threads
       && threads[next.value].data.deadline < Refreshed(threads[t].data, now).deadline
  }

  /** A deadline changed in place keeps the order exactly when it does not pass the next one. */
  lemma InPlace(threads: Threads, threads': Threads, curr: Option<Tid>, q: seq<Tid>, t: Tid, now: nat)
    requires ServersOk(threads) && QueueOk(threads, curr, q, true) && OnlyData(threads, threads', {t})
    requires curr == Some(t) && t in threads && t in threads' && threads[t].data.period > 0
    requires threads'[t].data == Refreshed(threads[t].data, now)
    ensures Ordered(threads', q, true) <==> !Displaced(threads, curr, q, t, now)
  {
    RefreshedLater(threads[t].data, now);
    hide Refreshed, Bounded, ServersOk;
    if t in q {
      var i :| 0 <= i < |q| && q[i] == t;
      EdfWalk.NextAt(q, i);
      LaterInPlace(q, Deadlines(threads), Deadlines(threads'), i);
      hide Sorted;
      if i + 1 < |q| {
        assert q[i + 1] in q && q[i + 1] in threads && q[i + 1] != t;
      }
    } else {
      InOrderBySame(q, Deadlines(threads), Deadlines(threads'), true);
    }
  }

  /** The walk's functions are the policy's. */
  ghost predicate Policy(due: Server -> bool, renew: Server -> Server, now: nat) {
    && (forall s :: due(s) == Stale(s, now))
    && (forall s :: renew(s) == if s.period > 0 then Refreshed(s, now) else s)
  }

  lemma WalkReady(threads: Threads, curr: Option<Tid>, q: seq<Tid>, key: Server -> int, due: Server -> bool,
                  renew: Server -> Server, now: nat, o: bool)
    requires ServersOk(threads) && QueueOk(threads, curr, q, o) && Policy(due, renew, now)
             && forall s :: key(s) == s.deadline
    ensures EdfWalk.Ordered(threads, q, key, o) && EdfWalk.Renews(threads, q, due, renew)
  {
    hide Refreshed, Bounded;
    InOrderBySame(q, Deadlines(threads), EdfWalk.KeyOf(threads, key), o);
    forall t | t in q && t in threads && due(threads[t].data)
      ensures !due(renew(threads[t].data))
    {
      RefreshedBounded(threads[t].data, now);
    }
  }

  /** The servers of `who` are refreshed. */
  ghost predicate RefreshedIn(threads: Threads, threads': Threads, who: set<Tid>, now: nat) {
    && threads'.Keys == threads.Keys
    && forall t :: t in threads ==>
         && threads[t].data.period > 0
         && threads'[t] == threads[t].(data := if t in who then Refreshed(threads[t].data, now) else threads[t].data)
  }

  /** The walk refreshes everything queued, and nothing else. */
  lemma WalkRefreshes(threads: Threads, q: seq<Tid>, due: Server -> bool, renew: Server -> Server, now: nat)
    requires ServersOk(threads) && Policy(due, renew, now)
    ensures RefreshedIn(threads, EdfWalk.Renewed(threads, Members(q), due, renew), Members(q), now)
  {
    hide Bounded, AfterDepletion, FromNow;
  }

  lemma WalkedServers(threads: Threads, threads': Threads, curr: Option<Tid>, who: set<Tid>, now: nat)
    requires ServersOk(threads) && StatusOk(threads, curr) && RefreshedIn(threads, threads', who, now)
    ensures ServersOk(threads') && StatusOk(threads', curr) && OnlyData(threads, threads', who)
  {
    hide Bounded, Refreshed, StatusOk;
    assert OnlyData(threads, threads', who) by { hide ServersOk; }
    forall t | t in threads'
      ensures CbsServers.Valid(threads'[t].data) && Bounded(threads'[t].data)
    {
      RefreshedOk(threads[t].data, now);
    }
    StatusKept(threads, threads', curr, who);
  }

  lemma RefreshedOk(s: Server, now: nat)
    requires CbsServers.Valid(s) && Bounded(s)
    ensures CbsServers.Valid(Refreshed(s, now)) && Bounded(Refreshed(s, now))
  {
    RefreshedBounded(s, now);
  }

  lemma WalkedQueue(threads: Threads, threads': Threads, curr: Option<Tid>, q: seq<Tid>, q': seq<Tid>,
                    key: Server -> int, due: Server -> bool, now: nat, o: bool)
    requires AllActive(threads, curr, q) && RefreshedIn(threads, threads', Members(q), now)
    requires (forall s :: key(s) == s.deadline) && (forall s :: due(s) == Stale(s, now))
    requires EdfWalk.Ordered(threads', q', key, o) && EdfWalk.SameMembers(q, q')
             && EdfWalk.FreshUpTo(threads', q', |q'|, due)
    ensures QueueOk(threads', curr, q', o) && EligibleUpTo(threads', q', |q'|, now)
            && AllRefreshed(threads, threads', q', now)
  {
    hide Refreshed;
    assert AllRefreshed(threads, threads', q', now) by { hide EdfWalk.Ordered, EdfWalk.FreshUpTo; }
    assert AllActive(threads', curr, q') by { hide EdfWalk.Ordered, EdfWalk.FreshUpTo; }
    hide RefreshedIn, AllActive, AllRefreshed;
    InOrderBySame(q', EdfWalk.KeyOf(threads', key), Deadlines(threads'), o);
  }

  lemma ActiveQueue(threads: Threads, curr: Option<Tid>, q: seq<Tid>, o: bool)
    requires QueueOk(threads, curr, q, o)
    ensures AllActive(threads, curr, q)
  {
  }

  lemma RefreshedLater(s: Server, now: nat)
    requires CbsServers.Valid(s) && Bounded(s)
    ensures Refreshed(s, now).deadline >= s.deadline
  {
    RefreshedBounded(s, now);
  }
}
