/** The data of the suspend transaction, what other pCPUs may do to it, and its invariant. */
module PmTransaction {
  import opened Common
  import opened SchedulerGates

  datatype State = PmRunning | PmPreparing | PmFreezing | PmSuspended | PmRestoring | PmAborting | PmFailed

  datatype Scope = ScopeNone | ScopeSystem | ScopeVm(vm: nat)

  /** `gated` lists the vCPU threads the per-VM records name, `owned` those whose wake PM owns. */
  datatype Pm = Pm(
    state: State, epoch: nat, required: set<nat>, completed: set<nat>, ioMask: set<nat>, ioGated: bool,
    topology: set<nat>, wake: set<nat>, scope: Scope,
    enabled: bool, controller: nat, policy: set<nat>,
    gated: seq<Tid>, owned: set<Tid>)

  /** The callbacks of one epoch, by hook index: successful prepares and suspends, unwinds tried and done. */
  datatype Trace = Trace(prepared: seq<nat>, suspended: seq<nat>, tried: seq<nat>, unwound: seq<nat>)

  const NOTHING := Trace([], [], [], [])

  function Set<T>(q: seq<T>): set<T> { set x | x in q }

  ghost predicate Ascending(q: seq<nat>) { forall i, j :: 0 <= i < j < |q| ==> q[i] < q[j] }

  ghost predicate Descending(q: seq<nat>) { forall i, j :: 0 <= i < j < |q| ==> q[i] > q[j] }

  ghost function Taken(tr: Trace): set<nat> { Set(tr.prepared) + Set(tr.suspended) }

  /** Forward phases ascend; unwinds descend, so each is tried at most once, and only for hooks taken. */
  ghost predicate TraceOk(tr: Trace) {
    && Ascending(tr.prepared) && Ascending(tr.suspended) && Descending(tr.tried)
    && Set(tr.tried) <= Taken(tr) && Set(tr.unwound) <= Set(tr.tried)
  }

  // ----------------------------------------------------- operations of other pCPUs

  datatype Op =
    | RequestSuspend(vm: nat, preflight: bool, running: bool)
    | RequestVmSuspend(vm: nat, running: bool)
    | RequestVmResume(vm: nat)
    | Abort(epoch: nat)
    | RecordWake(source: nat)
    | BeginTopology(vm: nat) | EndTopology(vm: nat)
    | SetPolicy(enabled: bool, controller: nat, policy: set<nat>)

  predicate PolicyOk(enabled: bool, controller: nat, policy: set<nat>) {
    controller < MAX_VM_NUM && (forall vm :: vm in policy ==> vm < MAX_VM_NUM) && (enabled ==> policy != {})
  }

  /** `hv_pm_reset_epoch_locked`. */
  function Begun(d: Pm, required: set<nat>, scope: Scope): Pm {
    d.(state := PmPreparing, epoch := d.epoch + 1, required := required, completed := {}, ioMask := required,
       ioGated := true,
       wake := {}, scope := scope, gated := [], owned := {})
  }

  function Do(d: Pm, op: Op): Pm {
    match op
    case RequestSuspend(vm, preflight, running) =>
      if d.enabled && vm == d.controller && d.state == PmRunning && d.topology == {} && preflight && running
      then Begun(d, d.policy, ScopeSystem) else d
    case RequestVmSuspend(vm, running) =>
      if vm < MAX_VM_NUM && d.enabled && d.state == PmRunning && d.topology == {} && running
      then Begun(d, {vm}, ScopeVm(vm)) else d
    case RequestVmResume(vm) =>
      if d.scope == ScopeVm(vm) && d.state == PmSuspended then d.(state := PmRestoring) else d
    case Abort(epoch) =>
      if epoch == 0 || d.epoch != epoch || d.state == PmRunning || d.state == PmFailed then d
      else d.(state := PmAborting)
    case RecordWake(source) =>
      if d.scope != ScopeSystem || d.state == PmRunning || d.state == PmFailed then d
      else d.(wake := d.wake + {source})
    case BeginTopology(vm) =>
      if vm < MAX_VM_NUM && d.state == PmRunning && vm !in d.topology then d.(topology := d.topology + {vm}) else d
    case EndTopology(vm) => d.(topology := d.topology - {vm})
    case SetPolicy(enabled, controller, policy) =>
      if PolicyOk(enabled, controller, policy) && d.state == PmRunning
      then d.(enabled := enabled, controller := controller, policy := policy) else d
  }

  // --------------------------------------------------------------------- invariant

  /** The required VMs, and only they, are kept from I/O. */
  predicate Closed(d: Pm) { d.required != {} && d.ioMask == d.required && d.ioGated }

  /** Exactly the held threads are behind the gate of this epoch. */
  ghost predicate Gates(e: nat, s: Sched, held: set<Tid>) {
    && held <= s.threads.Keys
    && forall t :: t in s.threads ==> s.threads[t].epoch == if t in held then e else 0
  }

  ghost predicate AllFrozen(s: Sched, e: nat, held: set<Tid>) { forall t :: t in held ==> Frozen(s, t, e) }

  ghost predicate DataOk(d: Pm) {
    && (d.state == PmRunning ==>
          d.required == {} && d.completed == {} && d.ioMask == {} && !d.ioGated && d.scope == ScopeNone)
    && (d.state in {PmPreparing, PmFreezing, PmSuspended, PmFailed} ==> Closed(d))
    && (d.topology != {} ==> d.state == PmRunning)
    && (d.state != PmRunning ==> d.epoch != 0)
    && (d.enabled ==> d.policy != {})
    && (forall vm :: vm in d.policy || vm in d.required ==> vm < MAX_VM_NUM)
  }

  /** The completed mask is what was taken and not yet given back; a finished epoch gave all back. */
  ghost predicate HooksOk(d: Pm, tr: Trace) {
    && TraceOk(tr)
    && d.completed == (if d.state == PmRunning then {} else Taken(tr) - Set(tr.unwound))
    && (d.state == PmRunning ==> Set(tr.unwound) == Taken(tr))
  }

  ghost predicate Inv(d: Pm, s: Sched, held: set<Tid>, tr: Trace) {
    && Ok(s) && DataOk(d) && HooksOk(d, tr) && Gates(d.epoch, s, held)
    && (d.state == PmRunning ==> held == {})
    && (d.state == PmSuspended || d.state == PmRestoring ==> AllFrozen(s, d.epoch, held))
  }

  /** What other pCPUs may do to a transaction under way: note a wake, abort it, ask a suspended VM back. */
  ghost predicate Rely(d: Pm, d': Pm) {
    d.state != PmRunning ==>
      && d' == d.(state := d'.state, wake := d'.wake)
      && (d'.state == d.state || (d.state != PmFailed && d'.state == PmAborting)
          || (d.state == PmSuspended && d'.state == PmRestoring))
      && (d.state == PmFailed ==> d' == d)
  }

  function NextTrace(d: Pm, d': Pm, tr: Trace): Trace { if d'.epoch == d.epoch then tr else NOTHING }

  /** The transaction between two runs of the idle thread: nothing unwound yet, records match the gates. */
  ghost predicate Rest(d: Pm, held: set<Tid>, tr: Trace) {
    && d.state != PmFreezing
    && (d.state != PmRunning && d.state != PmFailed ==>
          tr.tried == [] && Closed(d) && held == Set(d.gated) && NoDup(d.gated))
    && (d.state == PmPreparing ==> tr == NOTHING && d.gated == [])
  }

  lemma DoRests(d: Pm, s: Sched, held: set<Tid>, tr: Trace, op: Op)
    requires Inv(d, s, held, tr) && Rest(d, held, tr)
    ensures Rest(Do(d, op), held, NextTrace(d, Do(d, op), tr))
  {
    hide Ok, HooksOk, Gates, AllFrozen;
  }

  lemma DoOwned(d: Pm, op: Op)
    ensures Do(d, op).owned == (if Do(d, op).epoch == d.epoch then d.owned else {}) && Do(d, op).epoch >= d.epoch
    ensures Do(d, op).state == PmSuspended ==> d.state == PmSuspended
  {
  }

  lemma DoKeeps(d: Pm, s: Sched, held: set<Tid>, tr: Trace, op: Op)
    requires Inv(d, s, held, tr)
    ensures Inv(Do(d, op), s, held, NextTrace(d, Do(d, op), tr)) && Rely(d, Do(d, op))
  {
    hide Ok, TraceOk, AllFrozen;
    var d' := Do(d, op);
    if d'.epoch != d.epoch {
      assert TraceOk(NOTHING) by { EmptyTrace(); }
    }
  }

  lemma EmptyTrace()
    ensures TraceOk(NOTHING) && Taken(NOTHING) == {} && Set(NOTHING.unwound) == {}
  {
  }

  /** Only PM freezes and thaws. */
  predicate Outside(s: Sched, ev: Event) { Enabled(s, ev) && !ev.EFreeze? && !ev.EThaw? }

  lemma EventKeeps(d: Pm, s: Sched, held: set<Tid>, tr: Trace, ev: Event)
    requires Inv(d, s, held, tr) && Outside(s, ev)
    ensures Inv(d, Apply(s, ev), held, tr)
    ensures AllFrozen(s, d.epoch, held) ==> AllFrozen(Apply(s, ev), d.epoch, held)
  {
    hide DataOk, HooksOk, Apply, Ok, ThreadOk;
    StepOk(s, ev);
    EpochsKept(s, ev);
    if AllFrozen(s, d.epoch, held) {
      forall t | t in held
        ensures Frozen(Apply(s, ev), t, d.epoch)
      {
        FrozenStays(s, ev, t, d.epoch);
      }
    }
  }

  lemma EpochsKept(s: Sched, ev: Event)
    requires Outside(s, ev)
    ensures Apply(s, ev).threads.Keys == s.threads.Keys
    ensures forall t :: t in s.threads ==> Apply(s, ev).threads[t].epoch == s.threads[t].epoch
  {
    match ev {
      case EAck(p) => AckFrame(s, p, MAX_VM_NUM);
      case _ =>
    }
  }

  // ------------------------------------------------------------------ interleaving

  datatype Other = OnPm(op: Op) | OnSched(ev: Event)

  datatype World = World(d: Pm, s: Sched, tr: Trace)

  function OtherStep(w: World, o: Other): World {
    match o
    case OnPm(op) => World(Do(w.d, op), w.s, NextTrace(w.d, Do(w.d, op), w.tr))
    case OnSched(ev) => if Outside(w.s, ev) then w.(s := Apply(w.s, ev)) else w
  }

  function Others(w: World, os: seq<Other>): World
    decreases os
  {
    if os == [] then w else Others(OtherStep(w, os[0]), os[1..])
  }

  /** No interference breaks the invariant; during a transaction it is bounded by `Rely`, and threads
      found frozen stay frozen. */
  lemma {:induction false} OthersKeep(w: World, held: set<Tid>, os: seq<Other>)
    requires Inv(w.d, w.s, held, w.tr)
    ensures var w' := Others(w, os);
            && Inv(w'.d, w'.s, held, w'.tr) && Rely(w.d, w'.d) && w'.s.threads.Keys == w.s.threads.Keys
            && (w.d.state != PmRunning ==> w'.tr == w.tr) && (w'.tr == w.tr || w'.tr == NOTHING)
            && (Rest(w.d, held, w.tr) ==> Rest(w'.d, held, w'.tr))
            && w'.d.owned == (if w'.d.epoch == w.d.epoch then w.d.owned else {}) && w'.d.epoch >= w.d.epoch
            && (w'.d.state == PmSuspended ==> w.d.state == PmSuspended)
            && (forall t :: t in held && w.d.state != PmRunning && Frozen(w.s, t, w.d.epoch) ==>
                  Frozen(w'.s, t, w.d.epoch))
    decreases os
  {
    hide Do, Apply, DataOk, HooksOk, Ok, Gates, AllFrozen, Frozen, Enabled, Rest;
    if os != [] {
      var w1 := OtherStep(w, os[0]);
      match os[0] {
        case OnPm(op) =>
          DoOwned(w.d, op);
          DoKeeps(w.d, w.s, held, w.tr, op);
          if Rest(w.d, held, w.tr) {
            DoRests(w.d, w.s, held, w.tr, op);
          }
        case OnSched(ev) =>
          if Outside(w.s, ev) {
            EventKeeps(w.d, w.s, held, w.tr, ev);
            EpochsKept(w.s, ev);
            forall t | t in held && Frozen(w.s, t, w.d.epoch)
              ensures Frozen(w1.s, t, w.d.epoch)
            {
              FrozenStays(w.s, ev, t, w.d.epoch);
            }
          }
      }
      OthersKeep(w1, held, os[1..]);
    }
  }

  /** The scheduler steps among what the other pCPUs did. */
  function OtherEvents(w: World, os: seq<Other>): seq<Event>
    decreases os
  {
    if os == [] then []
    else (if os[0].OnSched? && Outside(w.s, os[0].ev) then [os[0].ev]
          else []) + OtherEvents(OtherStep(w, os[0]), os[1..])
  }

  lemma {:induction false} OthersReplay(w: World, os: seq<Other>)
    ensures Possible(w.s, OtherEvents(w, os)) && After(w.s, OtherEvents(w, os)) == Others(w, os).s
    decreases os
  {
    if os != [] {
      var rest := OtherEvents(OtherStep(w, os[0]), os[1..]);
      OthersReplay(OtherStep(w, os[0]), os[1..]);
      if os[0].OnSched? && Outside(w.s, os[0].ev) {
        assert ([os[0].ev] + rest)[1..] == rest;
      } else {
        assert [] + rest == rest;
      }
    }
  }

  // ---------------------------------------------------- steps of the transaction

  lemma FreezeKeeps(d: Pm, s: Sched, held: set<Tid>, tr: Trace, t: Tid)
    requires Inv(d, s, held, tr) && t in s.threads && d.state != PmRunning && d.state != PmSuspended
             && d.state != PmRestoring
    ensures CanFreeze(s.threads[t], d.epoch) && Inv(d, Freeze(s, t, d.epoch), held + {t}, tr)
    ensures Freeze(s, t, d.epoch).threads.Keys == s.threads.Keys
  {
    hide HooksOk, Ok;
    StepOk(s, EFreeze(t, d.epoch));
  }

  lemma ThawKeeps(d: Pm, s: Sched, held: set<Tid>, tr: Trace, t: Tid, owned: bool)
    requires Inv(d, s, held, tr) && t in held && d.state != PmRunning && d.state != PmSuspended
    ensures t in s.threads && CanThaw(s.threads[t], d.epoch) && Inv(d, Thaw(s, t, d.epoch, owned), held - {t}, tr)
    ensures Thaw(s, t, d.epoch, owned).threads.Keys == s.threads.Keys
    ensures forall u :: u in held && u != t && Frozen(s, u, d.epoch) ==> Frozen(Thaw(s, t, d.epoch, owned), u, d.epoch)
  {
    hide HooksOk, Ok;
    StepOk(s, EThaw(t, d.epoch, owned));
  }

  // -------------------------------------------------------- what the invariant says

  /** Back in running nothing is left over: no gate on any thread or VM, and every hook that was
      taken has been given back without an error. */
  lemma RunningIsClean(d: Pm, s: Sched, held: set<Tid>, tr: Trace)
    requires Inv(d, s, held, tr) && d.state == PmRunning
    ensures d.required == {} && d.ioMask == {} && !d.ioGated && d.completed == {}
    ensures forall t :: t in s.threads ==> s.threads[t].epoch == 0
    ensures forall x :: x in Taken(tr) ==> x in tr.unwound
  {
    forall x | x in Taken(tr)
      ensures x in tr.unwound
    {
      assert x in Set(tr.unwound);
    }
  }

  /** A failed transaction stays failed, with exactly the required VMs kept from I/O, whatever others ask. */
  lemma FailedIsForGood(w: World, held: set<Tid>, os: seq<Other>)
    requires Inv(w.d, w.s, held, w.tr) && w.d.state == PmFailed
    ensures Others(w, os).d == w.d && Closed(w.d)
  {
    OthersKeep(w, held, os);
  }

  /** A restart under way keeps suspend out: as long as any VM changes, no request starts a transaction. */
  lemma {:induction false} TopologyExcludesSuspend(w: World, held: set<Tid>, os: seq<Other>, vm: nat)
    requires Inv(w.d, w.s, held, w.tr) && vm in w.d.topology && OnPm(EndTopology(vm)) !in os
    ensures Others(w, os).d.state == PmRunning && vm in Others(w, os).d.topology
    decreases os
  {
    if os != [] {
      OthersKeep(w, held, [os[0]]);
      assert Others(w, [os[0]]) == OtherStep(w, os[0]);
      TopologyExcludesSuspend(OtherStep(w, os[0]), held, os[1..], vm);
    }
  }
}
