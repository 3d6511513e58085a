/** The threads of one pCPU as a scheduling policy sees them, each with the policy's own data. */
module PolicyThreads {
  import opened Common

  datatype PolicyThread<+T> = PolicyThread(data: T, status: Status, blocking: bool)

  /** A thread the policy may run: the current one unless it is about to block, or a runnable one. */
  predicate Active<T>(threads: map<Tid, PolicyThread<T>>, curr: Option<Tid>, t: Tid) {
    t in threads && ((curr == Some(t) && !threads[t].blocking) || threads[t].status == Runnable)
  }

  /** Only the current thread is running, and only it can be blocking. */
  ghost predicate StatusOk<T>(threads: map<Tid, PolicyThread<T>>, curr: Option<Tid>) {
    && (curr.Some? ==> curr.value in threads)
    && forall t :: t in threads ==>
         && (threads[t].status == Running <==> curr == Some(t))
         && (threads[t].blocking ==> curr == Some(t))
  }

  /** Only the policy's data differs. */
  ghost predicate SameBut<T>(threads: map<Tid, PolicyThread<T>>, threads': map<Tid, PolicyThread<T>>) {
    && threads'.Keys == threads.Keys
    && forall t :: t in threads ==> threads'[t] == threads[t].(data := threads'[t].data)
  }

  /** Only the policy's data of the threads in `who` may differ. */
  ghost predicate OnlyData<T>(threads: map<Tid, PolicyThread<T>>, threads': map<Tid, PolicyThread<T>>, who: set<Tid>) {
    && threads'.Keys == threads.Keys
    && forall t :: t in threads ==>
         && threads'[t] == threads[t].(data := threads'[t].data)
         && (t !in who ==> threads'[t].data == threads[t].data)
  }

  lemma SameData<T>(threads: map<Tid, PolicyThread<T>>, who: set<Tid>)
    ensures OnlyData(threads, threads, who)
  {
  }

  lemma OnlyThen<T>(a: map<Tid, PolicyThread<T>>, b: map<Tid, PolicyThread<T>>, c: map<Tid, PolicyThread<T>>,
                    who: set<Tid>, who': set<Tid>)
    requires OnlyData(a, b, who) && OnlyData(b, c, who')
    ensures OnlyData(a, c, who + who')
  {
  }

  lemma OnlyDataSame<T>(threads: map<Tid, PolicyThread<T>>, threads': map<Tid, PolicyThread<T>>, who: set<Tid>)
    requires OnlyData(threads, threads', who)
    ensures SameBut(threads, threads')
  {
  }

  lemma SameThen<T>(a: map<Tid, PolicyThread<T>>, b: map<Tid, PolicyThread<T>>, c: map<Tid, PolicyThread<T>>)
    requires SameBut(a, b) && SameBut(b, c)
    ensures SameBut(a, c)
  {
  }

  lemma StatusKept<T>(threads: map<Tid, PolicyThread<T>>, threads': map<Tid, PolicyThread<T>>, curr: Option<Tid>,
                      who: set<Tid>)
    requires StatusOk(threads, curr) && OnlyData(threads, threads', who)
    ensures StatusOk(threads', curr)
    ensures forall t :: Active(threads', curr, t) == Active(threads, curr, t)
  {
  }

  /** The statuses after a switch from `curr` to `next`. */
  function Switched<T>(threads: map<Tid, PolicyThread<T>>, curr: Option<Tid>,
                       next: Option<Tid>): map<Tid, PolicyThread<T>> {
    if curr == next then threads else
    map t | t in threads ::
      var th := threads[t];
      if next == Some(t) then th.(status := Running)
      else if curr == Some(t) then th.(status := if th.blocking then Blocked else Runnable, blocking := false)
      else th
  }

  /** A switch to an active thread or to idle keeps the statuses right and the others active. */
  lemma SwitchedStatus<T>(threads: map<Tid, PolicyThread<T>>, curr: Option<Tid>, next: Option<Tid>)
    requires StatusOk(threads, curr) && (next.Some? ==> Active(threads, curr, next.value))
    ensures StatusOk(Switched(threads, curr, next), next)
    ensures forall t :: Active(threads, curr, t) ==> Active(Switched(threads, curr, next), next, t)
    ensures Switched(threads, curr, next).Keys == threads.Keys
    ensures forall t :: t in threads ==> Switched(threads, curr, next)[t].data == threads[t].data
  {
  }

  lemma SwitchedSame<T>(threads: map<Tid, PolicyThread<T>>, threads': map<Tid, PolicyThread<T>>, curr: Option<Tid>,
                        next: Option<Tid>)
    requires SameBut(threads, threads')
    ensures SameBut(Switched(threads, curr, next), Switched(threads', curr, next))
  {
  }

  /** `sleep_thread_locked`: a running thread blocks at its next switch, any other at once. */
  function Asleep<T>(th: PolicyThread<T>, data: T): PolicyThread<T> {
    if th.status == Running then th.(data := data, blocking := true) else th.(data := data, status := Blocked)
  }

  /** `wake_thread_locked` on a thread that is blocked or about to block. */
  function Awake<T>(th: PolicyThread<T>, data: T): PolicyThread<T> {
    PolicyThread(data, if th.status == Blocked then Runnable else th.status, false)
  }

  function Members(q: seq<Tid>): set<Tid> { set t | t in q }

  /** A pending priority request, and the time at which the scan of `schedule` comes to it. */
  datatype Ask = Ask(t: Tid, at: nat)
}
