/**
 * The suspend transaction as the idle thread of the boot pCPU drives it. Between any two of its locked
 * sections the other pCPUs run (`Yield`); whether a callback, a lookup or a timeout goes one way or the
 * other is asked of the outside (`Ask`). Both are arbitrary, so every statement is about every run.
 */
module PowerManagement {
  import opened Common
  import opened SchedulerGates
  import opened PmTransaction
  import opened PmHooks

  /** A transaction under way that can still be finished or undone. */
  predicate Active(d: Pm) { d.state != PmRunning && d.state != PmFailed }

  /** What a stretch of the transaction leaves alone, whatever other pCPUs did meanwhile. */
  ghost predicate Under(d: Pm, d': Pm) {
    && d' == d.(state := d'.state, wake := d'.wake, completed := d'.completed)
    && (d'.state == d.state || d'.state == PmAborting || (d.state == PmSuspended && d'.state == PmRestoring))
  }

  lemma RelyUnder(d: Pm, d': Pm, d'': Pm)
    requires Active(d) && Under(d, d') && Rely(d', d'')
    ensures Under(d, d'')
  {
  }

  lemma {:induction false} SetSnoc<T>(q: seq<T>, x: T)
    ensures Set(q + [x]) == Set(q) + {x}
  {
    assert forall y :: y in q + [x] <==> y in q || y == x;
  }

  ghost predicate Below(q: seq<nat>, n: nat) { forall x :: x in q ==> x < n }

  lemma AscendingSnoc(q: seq<nat>, n: nat)
    requires Ascending(q) && Below(q, n)
    ensures Ascending(q + [n]) && Below(q + [n], n + 1)
  {
    forall i | 0 <= i < |q|
      ensures q[i] < n
    {
      assert q[i] in q;
    }
  }

  function TakenTrace(tr: Trace, idx: nat, suspendPhase: bool): Trace {
    if suspendPhase then tr.(suspended := tr.suspended + [idx]) else tr.(prepared := tr.prepared + [idx])
  }

  lemma HookTaken(d: Pm, s: Sched, held: set<Tid>, tr: Trace, idx: nat, suspendPhase: bool)
    requires Inv(d, s, held, tr) && Active(d) && tr.tried == []
    requires Below(if suspendPhase then tr.suspended else tr.prepared, idx)
    ensures Inv(d.(completed := d.completed + {idx}), s, held, TakenTrace(tr, idx, suspendPhase))
    ensures Taken(TakenTrace(tr, idx, suspendPhase)) == Taken(tr) + {idx}
  {
    hide Ok, Gates, AllFrozen, Ascending, Descending;
    SetSnoc(tr.prepared, idx);
    SetSnoc(tr.suspended, idx);
    AscendingSnoc(if suspendPhase then tr.suspended else tr.prepared, idx);
    assert Taken(TakenTrace(tr, idx, suspendPhase)) == Taken(tr) + {idx};
    hide Taken;
    assert Set(tr.unwound) == {};
  }

  lemma StillFrozen(s: Sched, s': Sched, e: nat, held: set<Tid>)
    requires AllFrozen(s, e, held) && forall t :: t in held && Frozen(s, t, e) ==> Frozen(s', t, e)
    ensures AllFrozen(s', e, held)
  {
  }

  ghost predicate Above(q: seq<nat>, n: nat) { forall x :: x in q ==> x >= n }

  function TriedTrace(tr: Trace, idx: nat, done: bool): Trace {
    tr.(tried := tr.tried + [idx], unwound := if done then tr.unwound + [idx] else tr.unwound)
  }

  lemma DescendingSnoc(q: seq<nat>, n: nat)
    requires Descending(q) && Above(q, n + 1)
    ensures Descending(q + [n]) && Above(q + [n], n)
  {
    forall i | 0 <= i < |q|
      ensures q[i] > n
    {
      assert q[i] in q;
    }
  }

  lemma HookUnwound(d: Pm, s: Sched, held: set<Tid>, tr: Trace, idx: nat, done: bool)
    requires Inv(d, s, held, tr) && Active(d) && Above(tr.tried, idx + 1) && idx in Taken(tr)
    ensures Inv(if done then d.(completed := d.completed - {idx}) else d, s, held, TriedTrace(tr, idx, done))
    ensures Taken(TriedTrace(tr, idx, done)) == Taken(tr) && Above(TriedTrace(tr, idx, done).tried, idx)
  {
    hide Ok, Gates, AllFrozen, Ascending, Descending, Taken;
    SetSnoc(tr.tried, idx);
    SetSnoc(tr.unwound, idx);
    DescendingSnoc(tr.tried, idx);
    SameTaken(tr, TriedTrace(tr, idx, done));
  }

  lemma SameTaken(tr: Trace, tr': Trace)
    requires tr'.prepared == tr.prepared && tr'.suspended == tr.suspended
    ensures Taken(tr') == Taken(tr)
  {
  }

  lemma CompletedIsTaken(d: Pm, s: Sched, held: set<Tid>, tr: Trace)
    requires Inv(d, s, held, tr) && Active(d) && tr.tried == []
    ensures d.completed == Taken(tr) && Set(tr.unwound) == {}
  {
  }

  lemma UnwoundIsTaken(d: Pm, s: Sched, held: set<Tid>, tr: Trace)
    requires Inv(d, s, held, tr)
    ensures Set(tr.unwound) <= Taken(tr)
  {
  }

  /** Hooks are being run forward, though an abort may have been asked for meanwhile. */
  predicate Forward(d: Pm) { d.state == PmPreparing || d.state == PmFreezing || d.state == PmAborting }

  /** The guests are being gated: the state is freezing, or an abort has been asked for meanwhile. */
  predicate Gating(d: Pm) { d.state == PmFreezing || d.state == PmAborting }

  lemma NewInOrder(q: seq<Tid>, i: nat)
    requires NoDup(q) && i < |q|
    ensures q[i] !in q[..i]
  {
  }

  lemma NoDupSnoc(q: seq<Tid>, t: Tid)
    requires NoDup(q) && t !in q
    ensures NoDup(q + [t])
  {
    forall i | 0 <= i < |q|
      ensures q[i] != t
    {
      assert q[i] in q;
    }
  }

  /** The per-VM records are not part of what the invariant looks at. */
  lemma RecordsOnly(d: Pm, s: Sched, held: set<Tid>, tr: Trace, gated: seq<Tid>, owned: set<Tid>)
    requires Inv(d, s, held, tr)
    ensures Inv(d.(gated := gated, owned := owned), s, held, tr)
  {
    hide Ok, TraceOk, Gates, AllFrozen;
  }

  lemma RequiredBound(d: Pm, s: Sched, held: set<Tid>, tr: Trace)
    requires Inv(d, s, held, tr)
    ensures forall vm :: vm in d.required ==> vm < MAX_VM_NUM
  {
  }

  /** The transaction is on its way back. */
  predicate Undoing(d: Pm) { d.state == PmRestoring || d.state == PmAborting }

  lemma IoOpened(d: Pm, s: Sched, held: set<Tid>, tr: Trace)
    requires Inv(d, s, held, tr) && Undoing(d) && Closed(d)
    ensures var d' := d.(ioMask := d.ioMask - d.required);
            d'.ioMask == {} && Inv(d'.(ioGated := false), s, held, tr)
  {
    hide Ok, TraceOk, Gates;
  }

  lemma FirstOut(q: seq<Tid>, i: nat)
    requires NoDup(q) && i < |q|
    ensures q[i] in Set(q[i..]) && Set(q[i..]) - {q[i]} == Set(q[i + 1..])
  {
    assert q[i..] == [q[i]] + q[i + 1..];
    assert q[i..][0] == q[i];
  }

  function Finished(d: Pm): Pm {
    d.(state := PmRunning, required := {}, completed := {}, ioMask := {}, ioGated := false, scope := ScopeNone)
  }

  lemma Completed(d: Pm, s: Sched, held: set<Tid>, tr: Trace)
    requires Inv(d, s, held, tr) && held == {} && Set(tr.unwound) == Taken(tr)
    ensures Inv(Finished(d), s, held, tr)
  {
    hide Ok, TraceOk;
  }

  lemma Aborted(d: Pm, s: Sched, held: set<Tid>, tr: Trace)
    requires Inv(d, s, held, tr) && Active(d)
    ensures Inv(d.(state := PmAborting), s, held, tr)
  {
    hide Ok, TraceOk, Gates, AllFrozen;
  }

  /** Every vCPU of every VM in `required` is one of `who`. */
  ghost predicate AllGated(vms: map<nat, seq<Tid>>, required: set<nat>, who: set<Tid>) {
    forall vm :: vm in required ==> vm in vms && forall t :: t in vms[vm] ==> t in who
  }

  lemma StateMoved(d: Pm, s: Sched, held: set<Tid>, tr: Trace, next: State)
    requires Inv(d, s, held, tr) && d.state in {PmPreparing, PmFreezing, PmSuspended}
    requires next == PmFreezing || (next == PmRestoring && d.state == PmSuspended)
             || (next == PmSuspended && AllFrozen(s, d.epoch, held))
    ensures Inv(d.(state := next), s, held, tr)
  {
    hide Ok, TraceOk, Gates, AllFrozen;
  }

  /** The hooks below `n` that have a prepare, and a suspend, callback. */
  function Preparing(hooks: seq<Hook>, n: nat): set<nat>
    requires n <= |hooks|
  {
    set i | 0 <= i < n && hooks[i].hasPrepare
  }

  function Suspending(hooks: seq<Hook>, n: nat): set<nat>
    requires n <= |hooks|
  {
    set i | 0 <= i < n && hooks[i].hasSuspend
  }

  /** Every hook that has one was prepared, and every hook that has one was suspended. */
  ghost predicate AllTaken(hooks: seq<Hook>, tr: Trace) {
    Set(tr.prepared) == Preparing(hooks, |hooks|) && Set(tr.suspended) == Suspending(hooks, |hooks|)
  }

  lemma EmptySets(hooks: seq<Hook>)
    ensures Preparing(hooks, 0) == {} == Suspending(hooks, 0) && Set<nat>([]) == {}
  {
  }

  lemma NextSets(hooks: seq<Hook>, n: nat)
    requires n < |hooks|
    ensures Preparing(hooks, n + 1) == Preparing(hooks, n) + (if hooks[n].hasPrepare then {n} else {})
    ensures Suspending(hooks, n + 1) == Suspending(hooks, n) + (if hooks[n].hasSuspend then {n} else {})
  {
  }

  /** No question between `from` and `to` was answered with no. */
  ghost predicate AllYes(reply: nat -> bool, from: nat, to: nat) { forall n :: from <= n < to ==> reply(n) }

  lemma NoQuestions(reply: nat -> bool, n: nat)
    ensures AllYes(reply, n, n)
  {
  }

  lemma MoreQuestions(reply: nat -> bool, a: nat, b: nat, c: nat)
    requires a <= b <= c
    ensures AllYes(reply, a, c) <==> AllYes(reply, a, b) && AllYes(reply, b, c)
  {
  }

  lemma StillFrozenIf(s: Sched, s': Sched, e: nat, held: set<Tid>)
    requires forall t :: t in held && Frozen(s, t, e) ==> Frozen(s', t, e)
    ensures AllFrozen(s, e, held) ==> AllFrozen(s', e, held)
  {
  }

  lemma RestoringFrozen(d: Pm, s: Sched, held: set<Tid>, tr: Trace)
    requires Inv(d, s, held, tr) && (d.state == PmRestoring || d.state == PmSuspended)
    ensures AllFrozen(s, d.epoch, held)
  {
  }

  lemma ActiveEpoch(d: Pm, s: Sched, held: set<Tid>, tr: Trace)
    requires Inv(d, s, held, tr) && Active(d)
    ensures d.epoch != 0
  {
  }

  lemma EmptyList()
    ensures NoDup([]) && Set<Tid>([]) == {}
  {
  }

  /** Each thread of `offline` was offline at the moment noted for it: after that many steps of the
      scheduler's history `log`, none of them before `since`. */
  ghost predicate SeenOffline(start: Sched, log: seq<Event>, since: nat, offline: map<Tid, nat>) {
    forall t :: t in offline ==>
      since <= offline[t] <= |log| && Possible(start, log[..offline[t]])
      && LifeIs(After(start, log[..offline[t]]), t, Offline)
  }

  predicate LifeIs(s: Sched, t: Tid, life: Life) { t in s.threads && s.threads[t].life == life }

  /** The history of the scheduler: its steps lead from the first state to the present one. */
  ghost predicate Replays(start: Sched, log: seq<Event>, s: Sched) { Possible(start, log) && After(start, log) == s }

  lemma LogGrows(start: Sched, log: seq<Event>, s: Sched, more: seq<Event>, s': Sched, since: nat,
                 offline: map<Tid, nat>)
    requires Replays(start, log, s) && Possible(s, more) && After(s, more) == s'
             && SeenOffline(start, log, since, offline)
    ensures Replays(start, log + more, s') && SeenOffline(start, log + more, since, offline)
  {
    hide After, Possible;
    RunOn(start, log, more);
    forall t | t in offline
      ensures (log + more)[..offline[t]] == log[..offline[t]]
    {
    }
  }

  lemma LogStep(start: Sched, log: seq<Event>, s: Sched, ev: Event, since: nat, offline: map<Tid, nat>)
    requires Replays(start, log, s) && Enabled(s, ev) && SeenOffline(start, log, since, offline)
    ensures Replays(start, log + [ev], Apply(s, ev)) && SeenOffline(start, log + [ev], since, offline)
  {
    hide Apply, Enabled;
    assert [ev][1..] == [] && Possible(Apply(s, ev), []);
    assert Possible(s, [ev]) && After(s, [ev]) == After(Apply(s, ev), []);
    LogGrows(start, log, s, [ev], Apply(s, ev), since, offline);
  }

  lemma NoteOffline(start: Sched, log: seq<Event>, s: Sched, t: Tid, since: nat, offline: map<Tid, nat>)
    requires Replays(start, log, s) && LifeIs(s, t, Offline) && since <= |log|
             && SeenOffline(start, log, since, offline)
    ensures SeenOffline(start, log, since, offline[t := |log|])
  {
    hide After, Possible;
    assert log[..|log|] == log;
  }

  ghost predicate Rising(hooks: seq<Hook>, q: seq<nat>) {
    forall i, j :: 0 <= i < j < |q| ==> q[i] < |hooks| && q[j] < |hooks| && hooks[q[i]].priority <= hooks[q[j]].priority
  }

  ghost predicate Falling(hooks: seq<Hook>, q: seq<nat>) {
    forall i, j :: 0 <= i < j < |q| ==> q[i] < |hooks| && q[j] < |hooks| && hooks[q[i]].priority >= hooks[q[j]].priority
  }

  class PowerManager {
    const hooks: seq<Hook>
    const vms: map<nat, seq<Tid>>
    const others: nat -> seq<Other>
    const reply: nat -> bool
    const rounds: nat
    const start: Sched
    /** How often the other pCPUs ran, and how many questions were asked. */
    var clock: nat
    var asked: nat
    var d: Pm
    var s: Sched
    var tr: Trace
    /** The threads behind this epoch's gate, and those of them that were awake when they were frozen. */
    ghost var held: set<Tid>
    ghost var awake: set<Tid>
    /** Every scheduler step so far. The vCPUs found offline since step `since`, and when. */
    ghost var log: seq<Event>
    ghost var since: nat
    ghost var offline: map<Tid, nat>

    ghost predicate Valid()
      reads this
    {
      && Inv(d, s, held, tr) && d.owned == awake
      && (forall x :: x in Taken(tr) ==> x < |hooks|)
      && (forall vm, t :: vm in vms && t in vms[vm] ==> t in s.threads)
      && Replays(start, log, s) && SeenOffline(start, log, since, offline) && Sorted(hooks)
      && (d.state == PmSuspended ==> AllTaken(hooks, tr) && AllGated(vms, d.required, held + offline.Keys))
    }

    /** The table is sorted, so hooks are called by rising, and unwound by falling priority. */
    lemma PriorityOrder()
      requires Valid()
      ensures Rising(hooks, tr.prepared) && Rising(hooks, tr.suspended) && Falling(hooks, tr.tried)
    {
      hide Ok, DataOk, Gates, AllFrozen, Replays, SeenOffline, AllTaken, AllGated;
      assert forall k :: 0 <= k < |tr.prepared| ==> tr.prepared[k] in Taken(tr);
      assert forall k :: 0 <= k < |tr.suspended| ==> tr.suspended[k] in Taken(tr);
      assert forall k :: 0 <= k < |tr.tried| ==> tr.tried[k] in Set(tr.tried);
    }

    constructor (hooks: seq<Hook>, vms: map<nat, seq<Tid>>, s: Sched,
                 others: nat -> seq<Other>, reply: nat -> bool, rounds: nat)
      requires Initial(s) && Sorted(hooks) && forall vm, t :: vm in vms && t in vms[vm] ==> t in s.threads
      ensures Valid() && Rest(d, held, tr) && d.state == PmRunning
      ensures this.hooks == hooks && this.vms == vms && this.s == s
    {
      this.hooks, this.vms, this.s, this.others, this.reply, this.rounds := hooks, vms, s, others, reply, rounds;
      d := Pm(PmRunning, 0, {}, {}, {}, false, {}, {}, ScopeNone, false, 0, {}, [], {});
      tr, clock, asked, held, awake := NOTHING, 0, 0, {}, {};
      start, log, since, offline := s, [], 0, map[];
      new;
      EmptyTrace();
    }

    /** Any number of runs of the idle thread. */
    method Run(n: nat)
      requires Valid() && VmsOk() && Rest(d, held, tr)
      modifies this
      ensures Valid() && Rest(d, held, tr)
      ensures old(d).state == PmFailed ==> d == old(d)
    {
      for i := 0 to n
        invariant Valid() && Rest(d, held, tr)
        invariant old(d).state == PmFailed ==> d == old(d)
      {
        ProcessFromIdle();
      }
    }

    /** The other pCPUs run. */
    method Yield()
      requires Valid()
      modifies this
      ensures Valid() && Rely(old(d), d) && held == old(held) && asked == old(asked)
      ensures since == old(since) && offline == old(offline) && old(log) <= log
      ensures old(d).state != PmRunning ==> tr == old(tr)
      ensures Rest(old(d), held, old(tr)) ==> Rest(d, held, tr)
      ensures forall t :: t in held && old(d).state != PmRunning && Frozen(old(s), t, old(d).epoch) ==>
                Frozen(s, t, d.epoch)
    {
      hide Inv, Rest, Frozen, Others, OtherEvents, Replays, SeenOffline, AllTaken, AllGated, After, Possible;
      OthersKeep(World(d, s, tr), held, others(clock));
      OthersReplay(World(d, s, tr), others(clock));
      var w := Others(World(d, s, tr), others(clock));
      ghost var more := OtherEvents(World(d, s, tr), others(clock));
      LogGrows(start, log, s, more, w.s, since, offline);
      log := log + more;
      awake := if w.d.epoch == d.epoch then awake else {};
      d, s, tr, clock := w.d, w.s, w.tr, clock + 1;
    }

    /** Did the call that is made here succeed? */
    method Ask() returns (yes: bool)
      modifies this`asked
      ensures yes == reply(old(asked)) && asked == old(asked) + 1
    {
      yes := reply(asked);
      asked := asked + 1;
    }

    // --------------------------------------------------------------------- hooks

    /** Every vCPU of every required VM is frozen, or was offline when the freeze came to it. */
    ghost predicate AllQuiet()
      reads this
    {
      AllFrozen(s, d.epoch, held) && AllGated(vms, d.required, held + offline.Keys)
    }

    /** A prepare or suspend callback. Suspend callbacks run only while all guests are quiet. */
    method CallForward(idx: nat, suspendPhase: bool) returns (ok: bool)
      requires idx < |hooks| && (if suspendPhase then hooks[idx].hasSuspend else hooks[idx].hasPrepare)
      requires suspendPhase ==> AllQuiet()
      modifies this`asked
      ensures ok == reply(old(asked)) && asked == old(asked) + 1
    {
      ok := Ask();
    }

    /** `hv_pm_set_hook_completed`. */
    method SetHookCompleted(e: nat, idx: nat, suspendPhase: bool) returns (ok: bool)
      requires Valid() && idx < |hooks| && tr.tried == [] && d.state != PmSuspended
      requires Below(if suspendPhase then tr.suspended else tr.prepared, idx)
      modifies this`d, this`tr
      ensures Valid() && ok == (old(d).epoch == e && Active(old(d)))
      ensures d == if ok then old(d).(completed := old(d).completed + {idx}) else old(d)
      ensures tr == if !ok then old(tr)
                    else if suspendPhase then old(tr).(suspended := old(tr).suspended + [idx])
                    else old(tr).(prepared := old(tr).prepared + [idx])
    {
      if d.epoch != e || d.state == PmRunning || d.state == PmFailed {
        return false;
      }
      HookTaken(d, s, held, tr, idx, suspendPhase);
      d := d.(completed := d.completed + {idx});
      tr := TakenTrace(tr, idx, suspendPhase);
      return true;
    }

    /** `hv_pm_run_forward`: hooks in ascending order, each success recorded before the next one. */
    method RunForward(e: nat, suspendPhase: bool) returns (ok: bool)
      requires Valid() && Forward(d) && tr.tried == [] && tr.suspended == [] && (!suspendPhase ==> tr.prepared == [])
      requires suspendPhase ==> AllQuiet()
      modifies this
      ensures Valid() && Under(old(d), d) && held == old(held) && tr.tried == [] && offline == old(offline)
      ensures if suspendPhase then AllQuiet() && tr.prepared == old(tr).prepared else tr.suspended == []
      ensures old(d).epoch == e ==> (ok <==> AllYes(reply, old(asked), asked))
      ensures ok ==> if suspendPhase then Set(tr.suspended) == Suspending(hooks, |hooks|)
                     else Set(tr.prepared) == Preparing(hooks, |hooks|)
    {
      hide Inv, AllFrozen, AllYes, Preparing, Suspending, AllTaken, AllGated, Replays, SeenOffline, Sorted;
      ghost var d0, asked0 := d, asked;
      ok := true;
      var idx := 0;
      EmptySets(hooks);
      NoQuestions(reply, asked);
      while idx < |hooks| && ok
        invariant idx <= |hooks|
        invariant Valid() && Under(d0, d) && held == old(held) && tr.tried == [] && offline == old(offline)
        invariant if suspendPhase then AllQuiet() && tr.prepared == old(tr).prepared else tr.suspended == []
        invariant asked >= asked0 && (d0.epoch == e ==> (ok <==> AllYes(reply, asked0, asked)))
        invariant ok ==> if suspendPhase then Set(tr.suspended) == Suspending(hooks, idx)
                         else Set(tr.prepared) == Preparing(hooks, idx)
        invariant Below(if suspendPhase then tr.suspended else tr.prepared, idx)
      {
        ghost var s1, d1, asked1 := s, d, asked;
        Yield();
        RelyUnder(d0, d1, d);
        StillFrozenIf(s1, s, d.epoch, held);
        ok := RunOne(e, idx, suspendPhase);
        MoreQuestions(reply, asked0, asked1, asked);
        NextSets(hooks, idx);
        idx := idx + 1;
      }
    }

    /** One hook of a forward phase; its success is recorded. */
    method RunOne(e: nat, idx: nat, suspendPhase: bool) returns (ok: bool)
      requires Valid() && Forward(d) && idx < |hooks| && tr.tried == [] && (suspendPhase ==> AllQuiet())
      requires Below(if suspendPhase then tr.suspended else tr.prepared, idx)
      modifies this`d, this`tr, this`asked
      ensures Valid() && d == old(d).(completed := d.completed) && tr.tried == []
      ensures old(asked) <= asked && (d.epoch == e ==> (ok <==> AllYes(reply, old(asked), asked)))
      ensures Below(if suspendPhase then tr.suspended else tr.prepared, idx + 1)
      ensures if suspendPhase then tr.prepared == old(tr).prepared else tr.suspended == old(tr).suspended
      ensures ok ==> Set(if suspendPhase then tr.suspended else tr.prepared) ==
                     Set(if suspendPhase then old(tr).suspended else old(tr).prepared) +
                     (if (if suspendPhase then hooks[idx].hasSuspend else hooks[idx].hasPrepare) then {idx} else {})
    {
      hide Inv, AllFrozen, Replays, SeenOffline, Sorted, AllTaken, AllGated;
      ok := true;
      if (if suspendPhase then hooks[idx].hasSuspend else hooks[idx].hasPrepare) {
        ok := CallForward(idx, suspendPhase);
        if ok {
          SetSnoc(if suspendPhase then tr.suspended else tr.prepared, idx);
          ok := SetHookCompleted(e, idx, suspendPhase);
        }
      }
    }

    /** `hv_pm_run_reverse`: what was taken is given back in descending order; a hook whose callback
        fails stays marked and the others are still unwound. */
    method RunReverse(e: nat, abort: bool) returns (ok: bool)
      requires Valid() && Undoing(d) && tr.tried == []
      modifies this
      ensures Valid() && Under(old(d), d) && held == old(held)
      ensures AllFrozen(old(s), old(d).epoch, held) ==> AllFrozen(s, d.epoch, held)
      ensures tr.prepared == old(tr).prepared && tr.suspended == old(tr).suspended
      ensures ok ==> Set(tr.unwound) == Taken(tr)
      ensures asked >= old(asked) && (e != 0 && old(d).epoch == e ==> (ok <==> AllYes(reply, old(asked), asked)))
    {
      hide Inv, AllFrozen, AllYes, AllTaken, Replays, SeenOffline, Sorted, AllGated;
      ghost var d0, s0, tr0, asked0 := d, s, tr, asked;
      if e == 0 || d.epoch != e {
        return false;
      }
      var mask := d.completed;
      CompletedIsTaken(d, s, held, tr);
      NoQuestions(reply, asked);
      ok := true;
      var idx := |hooks|;
      while idx > 0
        invariant 0 <= idx <= |hooks|
        invariant Valid() && Under(d0, d) && held == old(held) && Undoing(d)
        invariant AllFrozen(s0, d0.epoch, held) ==> AllFrozen(s, d.epoch, held)
        invariant tr == tr0.(tried := tr.tried, unwound := tr.unwound) && Above(tr.tried, idx)
        invariant ok ==> forall x :: x in mask && x >= idx ==> x in tr.unwound
        invariant asked >= asked0 && (ok <==> AllYes(reply, asked0, asked))
      {
        idx := idx - 1;
        ghost var d1, s1, asked1 := d, s, asked;
        Yield();
        RelyUnder(d0, d1, d);
        StillFrozenIf(s1, s, d.epoch, held);
        if idx in mask {
          var done := UnwindOne(idx, abort);
          MoreQuestions(reply, asked0, asked1, asked);
          ok := ok && done;
        }
      }
      UnwoundIsTaken(d, s, held, tr);
      assert ok ==> forall x :: x in Taken(tr) ==> x in mask && x < |hooks|;
    }

    method UnwindOne(idx: nat, abort: bool) returns (done: bool)
      requires Valid() && Undoing(d) && idx < |hooks| && idx in Taken(tr) && Above(tr.tried, idx + 1)
      modifies this`d, this`tr, this`asked
      ensures Valid() && d == if done then old(d).(completed := old(d).completed - {idx}) else old(d)
      ensures tr == TriedTrace(old(tr), idx, done) && Above(tr.tried, idx)
      ensures old(asked) <= asked <= old(asked) + 1 && (done <==> AllYes(reply, old(asked), asked))
    {
      hide Inv, Above, Replays, SeenOffline, Sorted, AllTaken, AllGated;
      done := true;
      if (if abort then hooks[idx].hasAbort else hooks[idx].hasResume) {
        done := Ask();
      }
      HookUnwound(d, s, held, tr, idx, done);
      tr := TriedTrace(tr, idx, done);
      if done {
        d := d.(completed := d.completed - {idx});
      }
    }

    // ------------------------------------------------------------- freeze and thaw

    /** `hv_pm_gate_vm`: every vCPU of the VM is frozen, except those found offline. */
    method GateVm(e: nat, vm: nat) returns (ok: bool)
      requires Valid() && Gating(d) && held == Set(d.gated) && NoDup(d.gated) && since <= |log|
      requires vm in vms ==> NoDup(vms[vm]) && forall t :: t in vms[vm] ==> t !in held
      modifies this
      ensures Valid() && Under(old(d).(gated := d.gated, owned := d.owned), d) && tr == old(tr)
      ensures held == Set(d.gated) && NoDup(d.gated) && old(held) <= held
      ensures since == old(since) && |old(log)| <= |log| && old(offline).Keys <= offline.Keys
      ensures forall t :: t in held ==> t in old(held) || (vm in vms && t in vms[vm])
      ensures ok ==> vm in vms && forall t :: t in vms[vm] ==> t in held || t in offline
    {
      hide Inv, NoDup, Replays, SeenOffline, Sorted, AllTaken, AllGated;
      var running := Ask();
      if vm !in vms || !running {
        return false;
      }
      if d.epoch != e || d.state != PmFreezing {
        return false;
      }
      ghost var d0, tr0 := d, tr;
      ok := true;
      var i := 0;
      while i < |vms[vm]| && ok
        invariant i <= |vms[vm]|
        invariant Valid() && d.epoch == e && Gating(d) && Under(d0.(gated := d.gated, owned := d.owned), d) && tr == tr0
        invariant held == Set(d.gated) && NoDup(d.gated) && old(held) <= held
        invariant since == old(since) <= |log| && |old(log)| <= |log| && old(offline).Keys <= offline.Keys
        invariant forall t :: t in held ==> t in old(held) || t in vms[vm][..i]
        invariant ok ==> forall t :: t in vms[vm][..i] ==> t in held || t in offline
      {
        Yield();
        var t := vms[vm][i];
        assert vms[vm][..i + 1] == vms[vm][..i] + [t];
        NewInOrder(vms[vm], i);
        ok := GateVcpu(t, e);
        i := i + 1;
      }
      assert ok ==> vms[vm][..i] == vms[vm];
    }

    /** One vCPU: a paused one fails the freeze, an offline one is passed over, any other is frozen. */
    method GateVcpu(t: Tid, e: nat) returns (ok: bool)
      requires Valid() && Gating(d) && d.epoch == e && held == Set(d.gated) && NoDup(d.gated)
      requires t in s.threads && t !in held && since <= |log|
      modifies this`d, this`s, this`held, this`awake, this`log, this`offline
      ensures Valid() && d == old(d).(gated := d.gated, owned := d.owned) && held == Set(d.gated) && NoDup(d.gated)
      ensures ok <==> old(s).threads[t].life != Paused
      ensures held == (if ok && old(s).threads[t].life != Offline then old(held) + {t} else old(held))
      ensures offline == (if old(s).threads[t].life == Offline then old(offline)[t := |old(log)|] else old(offline))
      ensures s == (if t in held then Freeze(old(s), t, e) else old(s)) && |old(log)| <= |log|
    {
      hide Inv, NoDup, Replays, SeenOffline, Sorted, AllTaken, AllGated;
      if s.threads[t].life == Paused {
        return false;
      }
      if s.threads[t].life != Offline {
        FreezeOne(t, e);
      } else {
        NoteOffline(start, log, s, t, since, offline);
        offline := offline[t := |log|];
      }
      return true;
    }

    /** Freeze one vCPU and note it, with the wake it may be owed, in its VM's record. */
    method FreezeOne(t: Tid, e: nat)
      requires Valid() && Gating(d) && d.epoch == e && held == Set(d.gated) && NoDup(d.gated) && t in s.threads
               && t !in held
      modifies this`d, this`s, this`held, this`awake, this`log
      ensures Valid() && d == old(d).(gated := old(d).gated + [t], owned := d.owned)
              && log == old(log) + [EFreeze(t, e)]
      ensures s == Freeze(old(s), t, e) && held == old(held) + {t} && held == Set(d.gated) && NoDup(d.gated)
      ensures awake == if Asleep(old(s).threads[t]) then old(awake) else old(awake) + {t}
    {
      hide Inv, NoDup, Replays, SeenOffline, Sorted, AllTaken, AllGated;
      var owned := WakeOwned(s.threads[t], e);
      FreezeKeeps(d, s, held, tr, t);
      LogStep(start, log, s, EFreeze(t, e), since, offline);
      log := log + [EFreeze(t, e)];
      awake := if Asleep(s.threads[t]) then awake else awake + {t};
      s := Freeze(s, t, e);
      held := held + {t};
      SetSnoc(d.gated, t);
      NoDupSnoc(d.gated, t);
      RecordsOnly(d, s, held, tr, d.gated + [t], if owned then d.owned + {t} else d.owned);
      d := d.(gated := d.gated + [t], owned := if owned then d.owned + {t} else d.owned);
    }

    /** `hv_pm_freeze_guests`: gate every required VM, then poll the gated threads one after another
        until one pass finds them all frozen. Then they are all frozen at once. */
    method FreezeGuests(e: nat) returns (ok: bool)
      requires Valid() && Gating(d) && held == {} && d.gated == [] && VmsOk()
      modifies this
      ensures Valid() && Under(old(d).(gated := d.gated, owned := d.owned), d) && tr == old(tr)
      ensures held == Set(d.gated) && NoDup(d.gated)
      ensures ok ==> AllQuiet() && since == |old(log)|
    {
      hide Inv, NoDup, AllFrozen, AllGated, Replays, SeenOffline, Sorted, AllTaken;
      if d.epoch != e || d.state != PmFreezing {
        assert NoDup([]) && Set(d.gated) == {} by { EmptyList(); }
        return false;
      }
      assert NoDup([]) && Set(d.gated) == {} by { EmptyList(); }
      ok := GateRequired(e);
      if ok {
        ok := PollFrozen(e);
      }
    }

    ghost predicate VmsOk()
      reads this
    {
      && (forall vm :: vm in vms ==> NoDup(vms[vm]))
      && (forall vm, vm', t :: vm in vms && vm' in vms && t in vms[vm] && t in vms[vm'] ==> vm == vm')
    }

    /** The VMs are gated one by one; which vCPUs are offline is noted afresh. */
    method GateRequired(e: nat) returns (ok: bool)
      requires Valid() && Gating(d) && held == Set(d.gated) == {} && NoDup(d.gated) && VmsOk()
      modifies this
      ensures Valid() && Under(old(d).(gated := d.gated, owned := d.owned), d) && tr == old(tr)
      ensures held == Set(d.gated) && NoDup(d.gated)
      ensures ok ==> AllGated(vms, d.required, held + offline.Keys) && since == |old(log)|
    {
      hide Inv, NoDup, Replays, Sorted, AllTaken;
      ghost var d0, tr0 := d, tr;
      since, offline := |log|, map[];
      assert SeenOffline(start, log, since, offline);
      hide SeenOffline;
      ok := true;
      var vm := 0;
      while vm < MAX_VM_NUM && ok
        invariant vm <= MAX_VM_NUM
        invariant Valid() && Gating(d) && Under(d0.(gated := d.gated, owned := d.owned), d) && tr == tr0
        invariant held == Set(d.gated) && NoDup(d.gated)
        invariant forall t :: t in held ==> exists v :: 0 <= v < vm && v in vms && t in vms[v]
        invariant since == |old(log)| <= |log|
        invariant ok ==> forall v :: v in d.required && v < vm ==> v in vms && forall t :: t in vms[v] ==>
                    t in held + offline.Keys
      {
        if vm in d.required {
          ok := GateVm(e, vm);
        }
        vm := vm + 1;
      }
      RequiredBound(d, s, held, tr);
    }

    method PollFrozen(e: nat) returns (ok: bool)
      requires Valid() && Gating(d) && held == Set(d.gated)
      modifies this
      ensures Valid() && Under(old(d), d) && tr == old(tr) && held == old(held) && offline == old(offline)
              && since == old(since)
      ensures ok ==> AllFrozen(s, d.epoch, held)
    {
      hide Inv, Replays, SeenOffline, Sorted, AllTaken, AllGated;
      ghost var d0 := d;
      var round := 0;
      ok := false;
      while round < rounds && !ok
        invariant Valid() && Under(d0, d) && tr == old(tr) && held == old(held) && offline == old(offline)
                  && since == old(since)
        invariant ok ==> AllFrozen(s, d.epoch, held)
      {
        ghost var d1 := d;
        Yield();
        RelyUnder(d0, d1, d);
        if d.epoch != e || d.state != PmFreezing {
          return false;
        }
        ok := AllSeenFrozen(e);
        round := round + 1;
      }
    }

    /** One pass of the poll. */
    method AllSeenFrozen(e: nat) returns (all: bool)
      requires Valid() && Gating(d) && held == Set(d.gated) && d.epoch == e
      modifies this
      ensures Valid() && Under(old(d), d) && tr == old(tr) && held == old(held) && offline == old(offline)
              && since == old(since)
      ensures all ==> AllFrozen(s, d.epoch, held)
    {
      hide Inv, Frozen, Replays, SeenOffline, Sorted, AllTaken, AllGated;
      ghost var d0 := d;
      all := true;
      for i := 0 to |d.gated|
        invariant Valid() && Under(d0, d) && tr == old(tr) && held == old(held) && offline == old(offline)
                  && since == old(since)
        invariant all ==> forall j :: 0 <= j < i ==> Frozen(s, d.gated[j], e)
      {
        ghost var d1 := d;
        Yield();
        RelyUnder(d0, d1, d);
        all := all && Frozen(s, d.gated[i], e);
      }
    }

    /** `hv_pm_thaw_guests`: open the gates of this epoch, and only then let the VMs do I/O again. */
    method ThawGuests(e: nat, requireFrozen: bool) returns (ok: bool)
      requires Valid() && Undoing(d) && held == Set(d.gated) && NoDup(d.gated) && Closed(d)
      modifies this
      ensures Valid() && Undoing(d) && tr == old(tr)
      ensures d == old(d).(state := d.state, wake := d.wake, ioMask := d.ioMask, ioGated := d.ioGated)
      ensures if ok then held == {} && d.ioMask == {} && !d.ioGated else Closed(d)
      ensures asked >= old(asked)
      ensures old(d).epoch == e && (requireFrozen ==> AllFrozen(old(s), e, old(held))) ==>
                (ok <==> AllYes(reply, old(asked), asked))
    {
      hide Inv, NoDup, Replays, SeenOffline, Sorted, AllTaken, AllGated;
      if d.epoch != e {
        return false;
      }
      ghost var d0 := d;
      var sound := Ask();
      if requireFrozen {
        sound := CheckFrozen(e, sound);
      }
      if !sound {
        return false;
      }
      ok := OpenGates(e);
      if ok {
        OpenIo();
      }
    }

    /** The required VMs may do I/O again; the last of them takes the gate away. */
    method OpenIo()
      requires Valid() && Undoing(d) && Closed(d) && held == {}
      modifies this
      ensures Valid() && Undoing(d) && tr == old(tr) && held == {} && asked == old(asked)
      ensures d == old(d).(state := d.state, wake := d.wake, ioMask := {}, ioGated := false)
    {
      hide Inv, Replays, SeenOffline, Sorted, AllTaken, AllGated;
      Yield();
      IoOpened(d, s, held, tr);
      d := d.(ioMask := d.ioMask - d.required);
      if d.ioMask == {} {
        d := d.(ioGated := false);
      }
    }

    method CheckFrozen(e: nat, present: bool) returns (sound: bool)
      requires Valid() && Undoing(d) && d.epoch == e && held == Set(d.gated)
      modifies this
      ensures asked == old(asked) && (sound ==> present)
      ensures AllFrozen(old(s), e, held) ==> sound == present
      ensures Valid() && Under(old(d), d) && d.completed == old(d).completed && tr == old(tr) && held == old(held)
    {
      hide Inv, Replays, SeenOffline, Sorted, AllTaken, AllGated;
      ghost var d0 := d;
      sound := present;
      for i := 0 to |d.gated|
        invariant asked == old(asked) && (sound ==> present)
        invariant AllFrozen(old(s), e, held) ==> AllFrozen(s, e, held) && sound == present
        invariant Valid() && Under(d0, d) && d.completed == d0.completed && tr == old(tr) && held == old(held)
      {
        ghost var d1 := d;
        Yield();
        RelyUnder(d0, d1, d);
        sound := sound && Frozen(s, d.gated[i], e);
      }
    }

    method OpenGates(e: nat) returns (ok: bool)
      requires Valid() && Undoing(d) && held == Set(d.gated) && NoDup(d.gated) && d.epoch == e
      modifies this
      ensures Valid() && Under(old(d), d) && d.completed == old(d).completed && tr == old(tr)
      ensures ok && held == {} && asked == old(asked)
    {
      hide Inv, NoDup, Replays, SeenOffline, Sorted, AllTaken, AllGated;
      ghost var d0 := d;
      ok := true;
      var i := 0;
      while i < |d.gated| && ok
        invariant i <= |d.gated|
        invariant Valid() && Under(d0, d) && d.completed == d0.completed && tr == old(tr)
        invariant ok && held == Set(d.gated[i..]) && asked == old(asked)
      {
        ghost var d1 := d;
        Yield();
        RelyUnder(d0, d1, d);
        var t := d.gated[i];
        FirstOut(d.gated, i);
        ok := ThawOne(t, e);
        i := i + 1;
      }
    }

    /** The wake that PM took when it froze `t` is given back, and no other. */
    method ThawOne(t: Tid, e: nat) returns (thawed: bool)
      requires Valid() && Undoing(d) && t in held && d.epoch == e
      modifies this`s, this`held, this`log
      ensures Valid() && t in old(s).threads && s == Thaw(old(s), t, e, t in awake) && held == old(held) - {t} && thawed
    {
      hide Inv, Replays, SeenOffline, Sorted, AllTaken, AllGated;
      ThawKeeps(d, s, held, tr, t, t in d.owned);
      LogStep(start, log, s, EThaw(t, e, t in d.owned), since, offline);
      log := log + [EThaw(t, e, t in d.owned)];
      thawed := CanThaw(s.threads[t], e);
      s := Thaw(s, t, e, t in d.owned);
      held := held - {t};
    }

    // ------------------------------------------------------------------- endings

    /** `hv_pm_complete_running`. */
    method CompleteRunning(e: nat)
      requires Valid() && Active(d) && held == {} && Set(tr.unwound) == Taken(tr)
      modifies this`d
      ensures Valid() && d.epoch == old(d).epoch && (old(d).epoch == e ==> d.state == PmRunning)
      ensures old(d).epoch != e ==> d == old(d)
    {
      if d.epoch == e && d.state != PmFailed {
        Completed(d, s, held, tr);
        d := Finished(d);
      }
    }

    /** `hv_pm_fail_epoch`. */
    method FailEpoch(e: nat)
      requires Valid() && d.state != PmRunning && Closed(d)
      modifies this`d
      ensures Valid() && d == if old(d).epoch == e then old(d).(state := PmFailed) else old(d)
    {
      hide Ok, Gates, TraceOk;
      if d.epoch == e && d.state != PmRunning {
        d := d.(state := PmFailed);
      }
    }

    /** `hv_pm_rollback_from_idle`. */
    method Rollback(e: nat)
      requires Valid() && Active(d) && d.epoch == e && tr.tried == [] && Closed(d) && held == Set(d.gated)
               && NoDup(d.gated)
      modifies this
      ensures Valid() && (d.state == PmRunning || d.state == PmFailed)
      ensures d.state == PmRunning <==> AllYes(reply, old(asked), asked)
    {
      hide Inv, NoDup, Replays, SeenOffline, Sorted, AllTaken, AllGated;
      ActiveEpoch(d, s, held, tr);
      ghost var asked0 := asked;
      Yield();
      if d.epoch == e && d.state != PmAborting && d.state != PmRunning {
        Aborted(d, s, held, tr);
        d := d.(state := PmAborting);
      }
      var ok := RunReverse(e, true);
      Finish(e, ok, false, asked0);
    }

    /** `hv_pm_restore_from_idle`. */
    method Restore(e: nat)
      requires Valid() && Undoing(d) && d.epoch == e && tr.tried == [] && Closed(d) && held == Set(d.gated)
               && NoDup(d.gated)
      requires AllFrozen(s, e, held)
      modifies this
      ensures Valid() && (d.state == PmRunning || d.state == PmFailed)
      ensures d.state == PmRunning <==> AllYes(reply, old(asked), asked)
    {
      hide Inv, NoDup, AllFrozen, Replays, SeenOffline, Sorted, AllGated;
      ActiveEpoch(d, s, held, tr);
      ghost var asked0 := asked;
      var ok := RunReverse(e, false);
      Finish(e, ok, true, asked0);
    }

    /** The common end of rollback and restore: thaw and return to running, or fail. */
    method Finish(e: nat, hooksOk: bool, requireFrozen: bool, ghost asked0: nat)
      requires Valid() && Undoing(d) && d.epoch == e && Closed(d) && held == Set(d.gated) && NoDup(d.gated)
      requires hooksOk ==> Set(tr.unwound) == Taken(tr)
      requires asked0 <= asked && (hooksOk <==> AllYes(reply, asked0, asked))
               && (requireFrozen ==> AllFrozen(s, e, held))
      modifies this
      ensures Valid() && (d.state == PmRunning || d.state == PmFailed)
      ensures d.state == PmRunning <==> AllYes(reply, asked0, asked)
    {
      hide Inv, NoDup, Replays, SeenOffline, Sorted, AllTaken, AllGated;
      var ok := hooksOk;
      if ok {
        ok := ThawGuests(e, requireFrozen);
      }
      Yield();
      if !ok {
        FailEpoch(e);
        return;
      }
      CompleteRunning(e);
    }

    /** `hv_pm_set_epoch_state`. */
    method SetEpochState(e: nat, expected: State, next: State) returns (ok: bool)
      requires Valid() && Active(d)
      requires next == PmFreezing || next == PmRestoring || (next == PmSuspended && AllQuiet() && AllTaken(hooks, tr))
      requires next == PmRestoring ==> expected == PmSuspended
      requires expected == PmPreparing || expected == PmFreezing || expected == PmSuspended
      modifies this`d
      ensures Valid() && ok == (old(d).epoch == e && old(d).state == expected)
      ensures d == if ok then old(d).(state := next) else old(d)
    {
      if d.epoch != e || d.state != expected {
        return false;
      }
      StateMoved(d, s, held, tr, next);
      d := d.(state := next);
      return true;
    }

    /** `hv_pm_process_from_idle` on the boot pCPU: one run of the state machine from rest to rest. */
    method ProcessFromIdle()
      requires Valid() && VmsOk() && Rest(d, held, tr)
      modifies this
      ensures Valid() && Rest(d, held, tr)
      ensures old(d).state == PmFailed ==> d == old(d)
      ensures Undoing(old(d)) ==> (d.state == PmRunning <==>
                                     AllYes(reply, old(asked), asked)) && (d.state == PmRunning || d.state == PmFailed)
    {
      hide Inv, NoDup, AllFrozen, Replays, SeenOffline, Sorted, AllGated;
      Yield();
      var e := d.epoch;
      if d.state == PmAborting {
        Rollback(e);
        return;
      }
      if d.state == PmRestoring {
        RestoringFrozen(d, s, held, tr);
        Restore(e);
        return;
      }
      if e == 0 || d.state != PmPreparing {
        return;
      }
      var ok := RunForward(e, false);
      Yield();
      if !ok || d.state != PmPreparing {
        Rollback(e);
        return;
      }
      SuspendFrom(e);
    }

    /** From a prepared transaction on. */
    method SuspendFrom(e: nat)
      requires Valid() && VmsOk() && d.state == PmPreparing && d.epoch == e && Closed(d)
      requires tr.tried == [] && tr.suspended == [] && held == Set(d.gated) && d.gated == []
      requires Set(tr.prepared) == Preparing(hooks, |hooks|)
      modifies this
      ensures Valid() && Rest(d, held, tr)
    {
      hide Inv, NoDup, AllFrozen, AllTaken, AllGated, Replays, SeenOffline, Sorted;
      var ok := FreezeAndSuspend(e);
      ghost var s1 := s;
      Yield();
      StillFrozenIf(s1, s, d.epoch, held);
      if !ok || d.state != PmFreezing {
        Rollback(e);
        return;
      }
      if d.wake != {} {
        Rollback(e);
        return;
      }
      s1 := s;
      Yield();
      StillFrozenIf(s1, s, d.epoch, held);
      ok := SetEpochState(e, PmFreezing, PmSuspended);
      if !ok {
        Rollback(e);
        return;
      }
      Yield();
      if d.scope == ScopeNone {
        Rollback(e);
        return;
      }
      if d.scope.ScopeVm? {
        return;
      }
      EnterPlatform(e);
    }

    /** Freeze the guests, then run the suspend hooks. */
    method FreezeAndSuspend(e: nat) returns (ok: bool)
      requires Valid() && VmsOk() && d.state == PmPreparing && d.epoch == e && Closed(d)
      requires tr.tried == [] && tr.suspended == [] && held == Set(d.gated) && d.gated == []
      requires Set(tr.prepared) == Preparing(hooks, |hooks|)
      modifies this
      ensures Valid() && Forward(d) && d.epoch == e && Closed(d) && tr.tried == [] && held == Set(d.gated)
              && NoDup(d.gated)
      ensures ok ==> AllQuiet() && AllTaken(hooks, tr)
    {
      hide Inv, NoDup, AllFrozen, AllGated, Replays, SeenOffline, Sorted;
      EmptyList();
      Yield();
      ok := SetEpochState(e, PmPreparing, PmFreezing);
      if ok {
        Yield();
        ok := FreezeGuests(e);
      }
      if ok {
        ok := RunForward(e, true);
      }
    }

    /** The system-wide end: `platform_pm_enter` and what follows it. */
    method EnterPlatform(e: nat)
      requires Valid() && Active(d) && d.state != PmPreparing && d.state != PmFreezing && d.epoch == e && Closed(d)
      requires tr.tried == [] && held == Set(d.gated) && NoDup(d.gated)
      modifies this
      ensures Valid() && Rest(d, held, tr)
    {
      hide Inv, NoDup, AllFrozen, Replays, SeenOffline, Sorted, AllGated;
      var status := Ask();
      var restored := Ask();
      Yield();
      if !restored {
        FailEpoch(e);
        return;
      }
      if !status {
        Rollback(e);
        return;
      }
      var ok := SetEpochState(e, PmSuspended, PmRestoring);
      if !ok {
        Yield();
        FailEpoch(e);
        return;
      }
      RestoringFrozen(d, s, held, tr);
      ghost var s1 := s;
      Yield();
      StillFrozen(s1, s, d.epoch, held);
      Restore(e);
    }
  }
}
