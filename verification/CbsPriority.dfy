/** The scan of pending priority requests that `schedule` makes before it asks the CBS policy. */
module CbsPriority {
  import opened CbsServers
  import opened Common
  import EdfWalk
  import opened OrderedQueues
  import opened PolicyThreads
  import opened CbsQueue

  /** The servers after `sched_cbs_prioritize`. */
  function AskedThreads(threads: Threads, curr: Option<Tid>, a: Ask): Threads {
    if Active(threads, curr, a.t) && threads[a.t].data.period > 0
    then threads[a.t := threads[a.t].(data := Refreshed(threads[a.t].data, a.at))] else threads
  }

  /** The queue after it: a current thread stays where it is, any other is put in its place. */
  function AskedQueue(threads: Threads, curr: Option<Tid>, q: seq<Tid>, a: Ask): seq<Tid> {
    if Active(threads, curr, a.t) && curr != Some(a.t)
    then Insert(Remove(q, a.t), Deadlines(AskedThreads(threads, curr, a)), a.t, false) else q
  }

  /** The scan of `schedule`: the requests one after another. */
  function ScannedThreads(threads: Threads, curr: Option<Tid>, asks: seq<Ask>): Threads {
    if asks == [] then threads else ScannedThreads(AskedThreads(threads, curr, asks[0]), curr, asks[1..])
  }

  function ScannedQueue(threads: Threads, curr: Option<Tid>, q: seq<Tid>, asks: seq<Ask>): seq<Tid>
    decreases asks
  {
    if asks == [] then q
    else ScannedQueue(AskedThreads(threads, curr, asks[0]), curr, AskedQueue(threads, curr, q, asks[0]), asks[1..])
  }

  /** The requested thread is put ahead of the current one, because its deadline is earlier, and so
      ahead of the thread behind the current one, whose deadline is earlier still. */
  predicate Squeezed(threads: Threads, curr: Option<Tid>, q: seq<Tid>, a: Ask) {
    && Active(threads, curr, a.t) && curr != Some(a.t)
    && EdfWalk.Overtaken(Remove(q, a.t), Deadlines(AskedThreads(threads, curr, a)), a.t, curr)
  }

  /** No request of the scan is. */
  predicate Smooth(threads: Threads, curr: Option<Tid>, q: seq<Tid>, asks: seq<Ask>)
    decreases asks
  {
    asks == [] ||
    (!Squeezed(threads, curr, q, asks[0])
     && Smooth(AskedThreads(threads, curr, asks[0]), curr, AskedQueue(threads, curr, q, asks[0]), asks[1..]))
  }

  ghost predicate Proper(threads: Threads, curr: Option<Tid>, q: seq<Tid>, o: bool) {
    ServersOk(threads) && StatusOk(threads, curr) && QueueOk(threads, curr, q, o)
  }

  /** A proper queue, in order once the current thread is taken out. */
  ghost predicate NearlyOrdered(threads: Threads, curr: Option<Tid>, q: seq<Tid>) {
    Proper(threads, curr, q, false) && Ordered(threads, Others(q, curr), true)
  }

  lemma AskedServers(threads: Threads, curr: Option<Tid>, a: Ask)
    requires ServersOk(threads) && StatusOk(threads, curr)
    ensures var threads' := AskedThreads(threads, curr, a);
            ServersOk(threads') && StatusOk(threads', curr) && OnlyData(threads, threads', {a.t})
    ensures Active(threads, curr, a.t) ==> threads[a.t].data.period > 0
  {
    hide Refreshed, Bounded, StatusOk;
    var threads' := AskedThreads(threads, curr, a);
    if Active(threads, curr, a.t) {
      RefreshedOk(threads[a.t].data, a.at);
    }
    StatusKept(threads, threads', curr, {a.t});
  }

  lemma AskedProper(threads: Threads, curr: Option<Tid>, q: seq<Tid>, a: Ask)
    requires Proper(threads, curr, q, false)
    ensures Proper(AskedThreads(threads, curr, a), curr, AskedQueue(threads, curr, q, a), false)
    ensures forall x :: x in AskedQueue(threads, curr, q, a) <==>
                        x in q || (x == a.t && curr != Some(x) && Active(threads, curr, x))
  {
    var threads' := AskedThreads(threads, curr, a);
    AskedServers(threads, curr, a);
    StatusKept(threads, threads', curr, {a.t});
    hide ServersOk, StatusOk, Active, Remove, Insert, AskedThreads;
    if Active(threads, curr, a.t) && curr != Some(a.t) {
      RemoveMembers(q, a.t);
      RemoveNoDup(q, a.t);
      InsertNoDup(Remove(q, a.t), Deadlines(threads'), a.t, false);
      InsertMembers(Remove(q, a.t), Deadlines(threads'), a.t, false);
    }
  }

  /** One request on an ordered queue keeps it ordered unless it displaces the current thread. */
  lemma AskedOrdered(threads: Threads, curr: Option<Tid>, q: seq<Tid>, a: Ask)
    requires Proper(threads, curr, q, true)
    ensures Ordered(AskedThreads(threads, curr, a), AskedQueue(threads, curr, q, a), true) <==>
            !(Active(threads, curr, a.t) && Displaced(threads, curr, q, a.t, a.at))
    ensures !Squeezed(threads, curr, q, a)
  {
    var threads' := AskedThreads(threads, curr, a);
    AskedServers(threads, curr, a);
    if !Active(threads, curr, a.t) {
      return;
    }
    assert NoDup(q);
    if curr == Some(a.t) {
      InPlace(threads, threads', curr, q, a.t, a.at);
    } else {
      hide ServersOk, Active, AskedThreads, AllActive;
      Removed(threads, curr, q, a.t, true);
      QueueKept(threads, threads', curr, Remove(q, a.t), {a.t}, true);
      Inserted(threads', Remove(q, a.t), a.t, true);
      EdfWalk.NoneOvertaken(Remove(q, a.t), Deadlines(threads'), a.t, curr);
    }
  }

  lemma AskedNearly(threads: Threads, curr: Option<Tid>, q: seq<Tid>, a: Ask)
    requires NearlyOrdered(threads, curr, q)
    ensures NearlyOrdered(AskedThreads(threads, curr, a), curr, AskedQueue(threads, curr, q, a)) <==>
            !Squeezed(threads, curr, q, a)
  {
    var threads', q' := AskedThreads(threads, curr, a), AskedQueue(threads, curr, q, a);
    AskedProper(threads, curr, q, a);
    AskedServers(threads, curr, a);
    if !Active(threads, curr, a.t) {
      return;
    }
    hide ServersOk, StatusOk, Active, AskedThreads, AllActive;
    if curr == Some(a.t) {
      OthersKept(threads, threads', curr, q, a.t);
    } else {
      EdfWalk.InsertNearly(q, Deadlines(threads), Deadlines(threads'), a.t, curr);
    }
  }

  lemma OthersKept(threads: Threads, threads': Threads, curr: Option<Tid>, q: seq<Tid>, t: Tid)
    requires NoDup(q) && curr == Some(t) && Ordered(threads, Others(q, curr), true) && OnlyData(threads, threads', {t})
    ensures Ordered(threads', Others(q, curr), true)
  {
    RemoveMembers(q, t);
    InOrderBySame(Remove(q, t), Deadlines(threads), Deadlines(threads'), true);
  }

  /** A scan that squeezes nothing leaves the queue in order apart from the current thread. */
  lemma {:induction false} ScanNearly(threads: Threads, curr: Option<Tid>, q: seq<Tid>, asks: seq<Ask>)
    requires NearlyOrdered(threads, curr, q) && Smooth(threads, curr, q, asks)
    ensures NearlyOrdered(ScannedThreads(threads, curr, asks), curr, ScannedQueue(threads, curr, q, asks))
    decreases asks
  {
    hide NearlyOrdered, Squeezed, AskedThreads, AskedQueue;
    if asks != [] {
      AskedNearly(threads, curr, q, asks[0]);
      ScanNearly(AskedThreads(threads, curr, asks[0]), curr, AskedQueue(threads, curr, q, asks[0]), asks[1..]);
    }
  }

  lemma {:induction false} ScanProper(threads: Threads, curr: Option<Tid>, q: seq<Tid>, asks: seq<Ask>)
    requires Proper(threads, curr, q, false)
    ensures Proper(ScannedThreads(threads, curr, asks), curr, ScannedQueue(threads, curr, q, asks), false)
    decreases asks
  {
    hide Proper, AskedThreads, AskedQueue;
    if asks != [] {
      AskedProper(threads, curr, q, asks[0]);
      ScanProper(AskedThreads(threads, curr, asks[0]), curr, AskedQueue(threads, curr, q, asks[0]), asks[1..]);
    }
  }

  /** What can be checked before the scan: the current thread is not queued, or is not asked for after
      its budget or deadline has run out, except by the last request when the policy is asked next. */
  predicate Harmless(threads: Threads, curr: Option<Tid>, q: seq<Tid>, asks: seq<Ask>, idleWork: bool) {
    curr.None? || curr.value !in q || curr.value !in threads ||
    forall k :: 0 <= k < |asks| && (idleWork || k < |asks| - 1) && asks[k].t == curr.value ==>
      !Stale(threads[curr.value].data, asks[k].at)
  }

  lemma AskedCurrent(threads: Threads, curr: Option<Tid>, q: seq<Tid>, a: Ask)
    requires Proper(threads, curr, q, true) && curr.Some?
    ensures curr.value in threads && curr.value in AskedThreads(threads, curr, a)
    ensures (a.t != curr.value || !Stale(threads[curr.value].data, a.at)) ==>
              AskedThreads(threads, curr, a)[curr.value] == threads[curr.value]
    ensures curr.value in AskedQueue(threads, curr, q, a) <==> curr.value in q
    ensures Displaced(threads, curr, q, a.t, a.at) ==>
              a.t == curr.value && curr.value in q && Stale(threads[curr.value].data, a.at)
  {
    AskedProper(threads, curr, q, a);
    if a.t in q && curr == Some(a.t) {
      EdfWalk.NextIsLater(q, Deadlines(threads), a.t);
    }
  }

  lemma {:induction false} HarmlessIsSmooth(threads: Threads, curr: Option<Tid>, q: seq<Tid>, asks: seq<Ask>,
                                            idleWork: bool)
    requires Proper(threads, curr, q, true) && Harmless(threads, curr, q, asks, idleWork)
    ensures Smooth(threads, curr, q, asks)
    ensures idleWork ==> Ordered(ScannedThreads(threads, curr, asks), ScannedQueue(threads, curr, q, asks), true)
    decreases asks
  {
    hide Proper, AskedThreads, AskedQueue, Squeezed, Displaced, Stale;
    if asks == [] {
      ProperOrdered(threads, curr, q);
      return;
    }
    var threads', q' := AskedThreads(threads, curr, asks[0]), AskedQueue(threads, curr, q, asks[0]);
    AskedOrdered(threads, curr, q, asks[0]);
    ProperFalse(threads, curr, q);
    AskedProper(threads, curr, q, asks[0]);
    if curr.Some? {
      AskedCurrent(threads, curr, q, asks[0]);
    } else {
      NoneDisplaced(threads, curr, q, asks[0]);
    }
    if Ordered(threads', q', true) {
      ProperTrue(threads', curr, q');
      forall k | 0 <= k < |asks[1..]|
        ensures asks[1..][k] == asks[k + 1]
      {
      }
      HarmlessIsSmooth(threads', curr, q', asks[1..], idleWork);
    } else {
      // the current thread was asked for, by the last request
      assert asks[1..] == [];
    }
  }

  lemma NoneDisplaced(threads: Threads, curr: Option<Tid>, q: seq<Tid>, a: Ask)
    requires curr.None?
    ensures !Displaced(threads, curr, q, a.t, a.at)
  {
  }

  lemma ProperOrdered(threads: Threads, curr: Option<Tid>, q: seq<Tid>)
    requires Proper(threads, curr, q, true)
    ensures Ordered(threads, q, true)
  {
  }

  lemma ProperFalse(threads: Threads, curr: Option<Tid>, q: seq<Tid>)
    requires Proper(threads, curr, q, true)
    ensures Proper(threads, curr, q, false) && NearlyOrdered(threads, curr, q)
  {
    OthersOk(threads, curr, q, true);
  }

  lemma ProperTrue(threads: Threads, curr: Option<Tid>, q: seq<Tid>)
    requires Proper(threads, curr, q, false) && Ordered(threads, q, true)
    ensures Proper(threads, curr, q, true)
  {
  }

}
