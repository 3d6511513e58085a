/** The scan of pending priority requests that `schedule` makes before it asks the policy. */
module RtdsPriority {
  import opened Common
  import EdfWalk
  import opened OrderedQueues
  import opened PolicyThreads
  import opened RtdsQueue

  /** The servers after `sched_rtds_prioritize`. */
  function AskedThreads(threads: Threads, curr: Option<Tid>, a: Ask): Threads {
    if Active(threads, curr, a.t) && threads[a.t].data.period > 0
    then threads[a.t := threads[a.t].(data := Advanced(threads[a.t].data, a.at))] else threads
  }

  /** A thread that is not current and then has budget is put in its place in the ready queue. */
  predicate Moves(threads: Threads, curr: Option<Tid>, a: Ask) {
    Active(threads, curr, a.t) && curr != Some(a.t) && AskedThreads(threads, curr, a)[a.t].data.remaining > 0
  }

  function AskedReady(threads: Threads, curr: Option<Tid>, ready: seq<Tid>, a: Ask): seq<Tid> {
    if Moves(threads, curr, a) then Insert(Remove(ready, a.t), Deadlines(AskedThreads(threads, curr, a)), a.t, false)
    else ready
  }

  function AskedDepleted(threads: Threads, curr: Option<Tid>, depleted: seq<Tid>, a: Ask): seq<Tid> {
    if Moves(threads, curr, a) then Remove(depleted, a.t) else depleted
  }

  /** The requests one after another. */
  function ScannedThreads(threads: Threads, curr: Option<Tid>, asks: seq<Ask>): Threads {
    if asks == [] then threads else ScannedThreads(AskedThreads(threads, curr, asks[0]), curr, asks[1..])
  }

  function ScannedReady(threads: Threads, curr: Option<Tid>, ready: seq<Tid>, asks: seq<Ask>): seq<Tid>
    decreases asks
  {
    if asks == [] then ready
    else ScannedReady(AskedThreads(threads, curr, asks[0]), curr, AskedReady(threads, curr, ready, asks[0]), asks[1..])
  }

  function ScannedDepleted(threads: Threads, curr: Option<Tid>, depleted: seq<Tid>, asks: seq<Ask>): seq<Tid>
    decreases asks
  {
    if asks == [] then depleted
    else ScannedDepleted(AskedThreads(threads, curr, asks[0]), curr,
                         AskedDepleted(threads, curr, depleted, asks[0]), asks[1..])
  }

  /** The request would carry the current thread, ready where it stands, past the thread behind it. */
  predicate Displaced(threads: Threads, curr: Option<Tid>, ready: seq<Tid>, a: Ask) {
    && curr == Some(a.t) && a.t in ready && a.t in threads && threads[a.t].data.period > 0
    && var next := EdfWalk.Next(ready, a.t);
       next.Some? && next.value in threads
       && threads[next.value].data.deadline < Advanced(threads[a.t].data, a.at).deadline
  }

  /** The requested thread is put ahead of the current one, because its deadline is earlier, and so
      ahead of the thread behind the current one, whose deadline is earlier still. */
  predicate Squeezed(threads: Threads, curr: Option<Tid>, ready: seq<Tid>, a: Ask) {
    && Moves(threads, curr, a)
    && EdfWalk.Overtaken(Remove(ready, a.t), Deadlines(AskedThreads(threads, curr, a)), a.t, curr)
  }

  /** Proper queues, the ready queue in order once the current thread is taken out. */
  ghost predicate NearlyOrdered(threads: Threads, curr: Option<Tid>, ready: seq<Tid>, depleted: seq<Tid>) {
    Proper(threads, curr, ready, depleted, false) && InOrder(Others(ready, curr), Deadlines(threads), true)
  }

  /** A request advances one server. */
  lemma AskedDrawn(threads: Threads, curr: Option<Tid>, a: Ask)
    requires Base(threads, curr)
    ensures Drawn(threads, AskedThreads(threads, curr, a), a.at)
  {
    if Active(threads, curr, a.t) && threads[a.t].data.period > 0 {
      DrawnOne(threads, curr, a.t, threads[a.t].(data := Advanced(threads[a.t].data, a.at)), a.at);
    } else {
      DrawnSame(threads, threads, curr, a.at);
    }
  }

  lemma AskedData(threads: Threads, curr: Option<Tid>, a: Ask)
    requires Base(threads, curr)
    ensures var threads' := AskedThreads(threads, curr, a);
            Base(threads', curr) && OnlyData(threads, threads', {a.t})
    ensures Active(threads, curr, a.t) ==>
              && threads[a.t].data.period > 0
              && AskedThreads(threads, curr,
                              a) == threads[a.t := threads[a.t].(data := Advanced(threads[a.t].data, a.at))]
              && Advanced(threads[a.t].data, a.at).deadline >= threads[a.t].data.deadline
              && (threads[a.t].data.remaining > 0 ==> Advanced(threads[a.t].data, a.at).remaining > 0)
    ensures forall x :: Active(AskedThreads(threads, curr, a), curr, x) == Active(threads, curr, x)
  {
    hide Advanced, ServerOk, StatusOk;
    var threads' := AskedThreads(threads, curr, a);
    if Active(threads, curr, a.t) {
      StillFit(threads[a.t].data, a.at);
      LaterDeadline(threads[a.t].data, a.at);
    }
    StatusKept(threads, threads', curr, {a.t});
  }

  lemma LaterDeadline(s: Server, now: nat)
    requires ServerOk(s)
    ensures s.period > 0 && Advanced(s, now).deadline >= s.deadline
  {
    AdvancedOk(s, now);
  }

  lemma AskedProper(threads: Threads, curr: Option<Tid>, ready: seq<Tid>, depleted: seq<Tid>, a: Ask)
    requires Proper(threads, curr, ready, depleted, false)
    ensures Proper(AskedThreads(threads, curr, a), curr, AskedReady(threads, curr, ready, a),
                   AskedDepleted(threads, curr, depleted, a), false)
    ensures curr.Some? ==> (curr.value in AskedReady(threads, curr, ready, a) <==> curr.value in ready)
  {
    var threads' := AskedThreads(threads, curr, a);
    AskedData(threads, curr, a);
    QueuedParts(threads, curr, ready, depleted, false);
    hide Base, Active, Remove, Insert, AskedThreads, Deadlines, NoDup, Advanced;
    AskedFits(threads, threads', curr, ready, a.t);
    if Moves(threads, curr, a) {
      ReadyTake(threads', curr, ready, a.t, false);
      DepletedTake(threads', curr, depleted, a.t);
      ReadyPut(threads', curr, Remove(ready, a.t), a.t, false);
    }
  }

  lemma AskedFits(threads: Threads, threads': Threads, curr: Option<Tid>, ready: seq<Tid>, t: Tid)
    requires ReadyOk(threads, curr, ready, false) && OnlyData(threads, threads', {t})
    requires forall x :: Active(threads', curr, x) == Active(threads, curr, x)
    requires t in threads && threads[t].data.remaining > 0 && Active(threads, curr, t) ==>
               threads'[t].data.remaining > 0
    ensures ReadyOk(threads', curr, ready, false)
  {
    forall x | x in ready
      ensures Fit(threads', curr, x)
    {
      assert Fit(threads, curr, x);
    }
  }

  lemma InPlace(threads: Threads, threads': Threads, curr: Option<Tid>, ready: seq<Tid>, a: Ask)
    requires ReadyOk(threads, curr, ready, true) && OnlyData(threads, threads', {a.t}) && curr == Some(a.t)
    requires a.t in threads && a.t in threads' && threads[a.t].data.period > 0
    requires threads'[a.t].data == Advanced(threads[a.t].data, a.at)
             && threads'[a.t].data.deadline >= threads[a.t].data.deadline
    ensures InOrder(ready, Deadlines(threads'), true) <==> !Displaced(threads, curr, ready, a)
  {
    hide Advanced;
    if a.t in ready {
      var i :| 0 <= i < |ready| && ready[i] == a.t;
      EdfWalk.NextAt(ready, i);
      LaterInPlace(ready, Deadlines(threads), Deadlines(threads'), i);
      hide Sorted;
      if i + 1 < |ready| {
        assert ready[i + 1] in ready && Fit(threads, curr, ready[i + 1]) && ready[i + 1] != a.t;
      }
    } else {
      InOrderBySame(ready, Deadlines(threads), Deadlines(threads'), true);
    }
  }

  /** One request on an ordered queue keeps it ordered unless it displaces the current thread. */
  lemma AskedOrdered(threads: Threads, curr: Option<Tid>, ready: seq<Tid>, depleted: seq<Tid>, a: Ask)
    requires Proper(threads, curr, ready, depleted, true)
    ensures InOrder(AskedReady(threads, curr, ready, a), Deadlines(AskedThreads(threads, curr, a)), true) <==>
            !(Active(threads, curr, a.t) && Displaced(threads, curr, ready, a))
    ensures !Squeezed(threads, curr, ready, a)
  {
    var threads' := AskedThreads(threads, curr, a);
    AskedData(threads, curr, a);
    if !Active(threads, curr, a.t) {
      return;
    }
    hide Base, Advanced, AskedThreads;
    if curr == Some(a.t) {
      InPlace(threads, threads', curr, ready, a);
    } else if Moves(threads, curr, a) {
      hide Active, Remove, Insert;
      ReadyTake(threads, curr, ready, a.t, true);
      InOrderBySame(Remove(ready, a.t), Deadlines(threads), Deadlines(threads'), true);
      InsertInOrder(Remove(ready, a.t), Deadlines(threads'), a.t, false, true);
      EdfWalk.NoneOvertaken(Remove(ready, a.t), Deadlines(threads'), a.t, curr);
    } else {
      StaysOut(threads, threads', curr, ready, a);
    }
  }

  /** A thread without budget is not ready. */
  lemma StaysOut(threads: Threads, threads': Threads, curr: Option<Tid>, ready: seq<Tid>, a: Ask)
    requires ReadyOk(threads, curr, ready, true) && OnlyData(threads, threads', {a.t}) && a.t in threads
             && a.t in threads'
    requires threads[a.t].data.remaining > 0 ==> threads'[a.t].data.remaining > 0
    requires threads'[a.t].data.remaining == 0
    ensures InOrder(ready, Deadlines(threads'), true)
  {
    forall x | x in ready
      ensures x != a.t
    {
      assert Fit(threads, curr, x);
    }
    InOrderBySame(ready, Deadlines(threads), Deadlines(threads'), true);
  }

  lemma AskedNearly(threads: Threads, curr: Option<Tid>, ready: seq<Tid>, depleted: seq<Tid>, a: Ask)
    requires NearlyOrdered(threads, curr, ready, depleted)
    ensures NearlyOrdered(AskedThreads(threads, curr, a), curr, AskedReady(threads, curr, ready, a),
                          AskedDepleted(threads, curr, depleted, a))
            <==> !Squeezed(threads, curr, ready, a)
  {
    var threads' := AskedThreads(threads, curr, a);
    AskedProper(threads, curr, ready, depleted, a);
    AskedData(threads, curr, a);
    if !Active(threads, curr, a.t) {
      return;
    }
    hide Base, Active, AskedThreads, Advanced;
    if Moves(threads, curr, a) {
      EdfWalk.InsertNearly(ready, Deadlines(threads), Deadlines(threads'), a.t, curr);
    } else {
      RestKept(threads, threads', curr, ready, a.t);
    }
  }

  lemma RestKept(threads: Threads, threads': Threads, curr: Option<Tid>, ready: seq<Tid>, t: Tid)
    requires ReadyOk(threads, curr, ready, false) && OnlyData(threads, threads', {t}) && t in threads && t in threads'
    requires InOrder(Others(ready, curr), Deadlines(threads), true)
    requires curr == Some(t) || threads'[t].data.remaining == 0
    requires threads[t].data.remaining > 0 ==> threads'[t].data.remaining > 0
    ensures InOrder(Others(ready, curr), Deadlines(threads'), true)
  {
    if curr.Some? {
      RemoveMembers(ready, curr.value);
    }
    if t in ready {
      assert Fit(threads, curr, t);
    }
    InOrderBySame(Others(ready, curr), Deadlines(threads), Deadlines(threads'), true);
  }

  lemma Unordered(threads: Threads, curr: Option<Tid>, ready: seq<Tid>, depleted: seq<Tid>, o: bool)
    requires Proper(threads, curr, ready, depleted, o)
    ensures Proper(threads, curr, ready, depleted, false)
  {
  }

  lemma ProperIff(threads: Threads, curr: Option<Tid>, ready: seq<Tid>, depleted: seq<Tid>)
    ensures Proper(threads, curr, ready, depleted, true) <==>
            Proper(threads, curr, ready, depleted, false) && InOrder(ready, Deadlines(threads), true)
  {
  }
}
