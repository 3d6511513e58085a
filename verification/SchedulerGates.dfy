/**
 * The scheduler core seen as a step system: every section under a scheduler lock is one step.
 * Sleep and wake, the context switch, the epoch gate of freeze and thaw, and the generation-tagged
 * quiesce slots act on one state.
 */
module SchedulerGates {
  import opened Common

  type Key = (nat, nat)

  datatype Life = Offline | Init | Online | Paused | PoweredOff

  /** `key` is the pCPU and the VM the thread belongs to; `epoch` 0 means no freeze gate. */
  datatype Thread = Thread(status: Status, blocking: bool, key: Key, isVcpu: bool, life: Life, epoch: nat,
                           deferred: bool)

  datatype Slot = Slot(obj: Option<Tid>, req: nat, ack: nat)

  const EMPTY := Slot(None, 0, 0)

  /** A pCPU outside `curr` runs its idle thread; `asked` is the union of the request masks. */
  datatype Sched = Sched(threads: map<Tid, Thread>, curr: map<nat, Tid>, slots: map<Key, Slot>, asked: set<Key>)

  function Current(s: Sched, p: nat): Option<Tid> { if p in s.curr then Some(s.curr[p]) else None }

  function SlotOf(s: Sched, k: Key): Slot { if k in s.slots then s.slots[k] else EMPTY }

  predicate OffCpu(s: Sched, t: Tid) {
    && t in s.threads && s.threads[t].status == Blocked && !s.threads[t].blocking
    && Current(s, s.threads[t].key.0) != Some(t)
  }

  predicate Gateable(th: Thread) { th.isVcpu && th.key.1 < MAX_VM_NUM }

  // ------------------------------------------------------------------------ steps

  function With(s: Sched, t: Tid, th: Thread): Sched { s.(threads := s.threads[t := th]) }

  /** `sleep_thread_locked`. */
  function SleepOf(th: Thread): Thread {
    if th.status == Running then th.(blocking := true) else th.(status := Blocked)
  }

  predicate Asleep(th: Thread) { th.status == Blocked || th.blocking }

  /** `wake_thread_locked`. */
  function WakeOf(th: Thread): Thread {
    if Asleep(th) then th.(status := if th.status == Blocked then Runnable else th.status, blocking := false) else th
  }

  /** `thread_quiesce_active_locked`. */
  predicate QuiesceActive(s: Sched, t: Tid)
    requires t in s.threads
  {
    var th := s.threads[t];
    Gateable(th) && SlotOf(s, th.key).obj == Some(t) && SlotOf(s, th.key).req != 0
  }

  /** `wake_thread`. */
  function Wake(s: Sched, t: Tid): Sched
    requires t in s.threads
  {
    var th := s.threads[t];
    if QuiesceActive(s, t) then s
    else if th.epoch != 0 then With(s, t, th.(deferred := true))
    else With(s, t, WakeOf(th))
  }

  predicate CanFreeze(th: Thread, e: nat) { e != 0 && (th.epoch == 0 || th.epoch == e) }

  /** `freeze_thread`. */
  function Freeze(s: Sched, t: Tid, e: nat): Sched
    requires t in s.threads
  {
    var th := s.threads[t];
    if !CanFreeze(th, e) then s
    else With(s, t, SleepOf(if th.epoch == 0 then th.(epoch := e, deferred := false) else th))
  }

  /** The wake ownership `freeze_thread` reports. */
  predicate WakeOwned(th: Thread, e: nat) { CanFreeze(th, e) && !Asleep(th) }

  predicate CanThaw(th: Thread, e: nat) { e != 0 && th.epoch == e }

  /** `thaw_thread`. */
  function Thaw(s: Sched, t: Tid, e: nat, owned: bool): Sched
    requires t in s.threads
  {
    var th := s.threads[t];
    if !CanThaw(th, e) then s
    else
      var open := th.(epoch := 0, deferred := false);
      With(s, t, if owned || th.deferred then WakeOf(open) else open)
  }

  /** `schedule` on pCPU `p`, once the policy or pending idle work has named the next thread. */
  function Switch(s: Sched, p: nat, next: Option<Tid>): Sched
    requires next.Some? ==> next.value in s.threads
    requires p in s.curr ==> s.curr[p] in s.threads
  {
    if Current(s, p) == next then s
    else
      var s1 := if p in s.curr then
        var th := s.threads[s.curr[p]];
        With(s, s.curr[p], th.(status := if th.blocking then Blocked else Runnable, blocking := false)) else s;
      if next.Some?
      then With(s1, next.value, s1.threads[next.value].(status := Running)).(curr := s.curr[p := next.value])
      else s1.(curr := s.curr - {p})
  }

  /** `request_thread_quiesce`. */
  predicate CanRequest(s: Sched, t: Tid, g: nat)
    requires t in s.threads
  {
    var slot := SlotOf(s, s.threads[t].key);
    Gateable(s.threads[t]) && g != 0 && (slot.obj == None || slot.obj == Some(t) || slot.req == slot.ack)
  }

  function Request(s: Sched, t: Tid, g: nat): Sched
    requires t in s.threads
  {
    var k := s.threads[t].key;
    if !CanRequest(s, t, g) then s
    else s.(slots := s.slots[k := Slot(Some(t), g, SlotOf(s, k).ack)], asked := s.asked + {k})
  }

  /** `is_thread_quiesced`. */
  predicate Quiesced(s: Sched, t: Tid, g: nat)
    requires t in s.threads
  {
    var th := s.threads[t];
    Gateable(th) && g != 0 && SlotOf(s, th.key) == Slot(Some(t), g, g)
  }

  /** `release_thread_quiesce`. */
  function Release(s: Sched, t: Tid): Sched
    requires t in s.threads
  {
    var th := s.threads[t];
    if Gateable(th) && SlotOf(s, th.key).obj == Some(t)
    then s.(slots := s.slots[th.key := EMPTY], asked := s.asked - {th.key})
    else s
  }

  /** The test `sched_ack_quiesce_from_idle` makes of one requested VM. */
  predicate CanAck(s: Sched, k: Key) {
    var slot := SlotOf(s, k);
    && k.0 !in s.curr && k in s.asked && slot.obj.Some? && slot.obj.value in s.threads && slot.req != 0
    && var th := s.threads[slot.obj.value];
       Gateable(th) && th.key == k && th.status == Blocked && !th.blocking
  }

  function AckOne(s: Sched, k: Key): Sched {
    if CanAck(s, k)
    then s.(slots := s.slots[k := SlotOf(s, k).(ack := SlotOf(s, k).req)], asked := s.asked - {k})
    else s
  }

  /** `sched_ack_quiesce_from_idle`, over the VMs below `n`. */
  function Ack(s: Sched, p: nat, n: nat): Sched {
    if n == 0 then s else AckOne(Ack(s, p, n - 1), (p, n - 1))
  }

  /** `is_thread_frozen`. */
  predicate Frozen(s: Sched, t: Tid, e: nat) {
    e != 0 && OffCpu(s, t) && s.threads[t].epoch == e
  }

  /** `vcpu_transition_allowed`. */
  predicate LifeAllowed(a: Life, b: Life) {
    match a
    case Offline => b == Init
    case Init => b == Online || b == Paused
    case Online => b == Paused || b == PoweredOff
    case Paused => b == Init || b == Offline
    case PoweredOff => b == Online || b == Paused
  }

  datatype Event =
    | ESleep(t: Tid) | EWake(t: Tid) | EFreeze(t: Tid, e: nat) | EThaw(t: Tid, e: nat, owned: bool)
    | ESchedule(p: nat, next: Option<Tid>) | ERequest(t: Tid, g: nat) | ERelease(t: Tid) | EAck(p: nat)
    | ELife(t: Tid, life: Life)

  /** The policies never return a blocked or blocking thread, nor one of another pCPU. */
  predicate Enabled(s: Sched, ev: Event) {
    match ev
    case ESchedule(p, next) =>
      && (p in s.curr ==> s.curr[p] in s.threads)
      && (next.Some? ==> next.value in s.threads && s.threads[next.value].key.0 == p && !Asleep(s.threads[next.value]))
    case EAck(_) => true
    case ELife(t, life) => t in s.threads && LifeAllowed(s.threads[t].life, life)
    case _ => ev.t in s.threads
  }

  function Apply(s: Sched, ev: Event): Sched
    requires Enabled(s, ev)
  {
    match ev
    case ESleep(t) => With(s, t, SleepOf(s.threads[t]))
    case EWake(t) => Wake(s, t)
    case EFreeze(t, e) => Freeze(s, t, e)
    case EThaw(t, e, owned) => Thaw(s, t, e, owned)
    case ESchedule(p, next) => Switch(s, p, next)
    case ERequest(t, g) => Request(s, t, g)
    case ERelease(t) => Release(s, t)
    case EAck(p) => Ack(s, p, MAX_VM_NUM)
    case ELife(t, life) => With(s, t, s.threads[t].(life := life))
  }

  // ------------------------------------------------------------------- invariants

  /** Running is being current; only a running thread is about to block; a gated thread sleeps. */
  ghost predicate ThreadOk(s: Sched, t: Tid)
    requires t in s.threads
  {
    var th := s.threads[t];
    && (th.status == Running <==> Current(s, th.key.0) == Some(t))
    && (th.blocking ==> th.status == Running)
    && (th.epoch != 0 ==> Asleep(th))
  }

  ghost predicate Ok(s: Sched) {
    && (forall t {:trigger ThreadOk(s, t)} :: t in s.threads ==> ThreadOk(s, t))
    && (forall p :: p in s.curr ==> s.curr[p] in s.threads && s.threads[s.curr[p]].key.0 == p)
  }

  /** A slot belongs to a vCPU of its pCPU and VM, and once it is acknowledged that vCPU stays off. */
  ghost predicate SlotOk(s: Sched, k: Key) {
    var slot := SlotOf(s, k);
    && (slot.obj.None? ==> slot.req == 0 && slot.ack == 0)
    && (slot.obj.Some? ==> slot.obj.value in s.threads && slot.req != 0
                           && Gateable(s.threads[slot.obj.value]) && s.threads[slot.obj.value].key == k)
    && (slot.ack != 0 ==> slot.obj.Some? && slot.obj.value in s.threads && s.threads[slot.obj.value].status == Blocked)
  }

  ghost predicate SlotsOk(s: Sched) { forall k {:trigger SlotOk(s, k)} :: SlotOk(s, k) }

  predicate SharesSlot(a: Thread, b: Thread) { Gateable(a) && Gateable(b) && a.key == b.key }

  /** One vCPU per pCPU and VM: no two have the same slot. */
  ghost predicate OnePerSlot(s: Sched) {
    forall t, u :: t in s.threads && u in s.threads && SharesSlot(s.threads[t], s.threads[u]) ==> t == u
  }

  /** What no step changes: which threads there are, and where they belong. */
  ghost predicate SamePlaces(s: Sched, s': Sched) {
    && s'.threads.Keys == s.threads.Keys
    && forall t :: t in s.threads ==>
         s'.threads[t].key == s.threads[t].key && s'.threads[t].isVcpu == s.threads[t].isVcpu
  }

  /** One thread changes, keeping its place, whether it runs, and the gate's promise. */
  lemma OneThread(s: Sched, t: Tid, th: Thread)
    requires Ok(s) && t in s.threads && th.key == s.threads[t].key && th.isVcpu == s.threads[t].isVcpu
    requires (th.status == Running <==> s.threads[t].status == Running) && (th.blocking ==> th.status == Running)
    requires th.epoch != 0 ==> Asleep(th)
    ensures Ok(With(s, t, th)) && SamePlaces(s, With(s, t, th))
  {
    var s' := With(s, t, th);
    forall u | u in s'.threads
      ensures ThreadOk(s', u)
    {
      assert ThreadOk(s, u);
    }
  }

  lemma SwitchOk(s: Sched, p: nat, next: Option<Tid>)
    requires Ok(s) && Enabled(s, ESchedule(p, next))
    ensures Ok(Switch(s, p, next)) && SamePlaces(s, Switch(s, p, next))
  {
    hide Switch, ThreadOk, SamePlaces;
    SwitchPlaces(s, p, next);
    SwitchCurr(s, p, next);
    forall u | u in Switch(s, p, next).threads
      ensures ThreadOk(Switch(s, p, next), u)
    {
      SwitchThread(s, p, next, u);
    }
  }

  lemma SwitchPlaces(s: Sched, p: nat, next: Option<Tid>)
    requires Enabled(s, ESchedule(p, next))
    ensures SamePlaces(s, Switch(s, p, next)) && Switch(s, p, next).threads.Keys == s.threads.Keys
  {
  }

  lemma SwitchCurr(s: Sched, p: nat, next: Option<Tid>)
    requires Ok(s) && Enabled(s, ESchedule(p, next))
    ensures var s' := Switch(s, p, next);
            forall q :: q in s'.curr ==> s'.curr[q] in s'.threads && s'.threads[s'.curr[q]].key.0 == q
  {
    hide ThreadOk;
    SwitchPlaces(s, p, next);
  }

  lemma SwitchThread(s: Sched, p: nat, next: Option<Tid>, u: Tid)
    requires Ok(s) && Enabled(s, ESchedule(p, next)) && u in s.threads
    ensures u in Switch(s, p, next).threads && ThreadOk(Switch(s, p, next), u)
  {
    assert ThreadOk(s, u);
    if next.Some? {
      assert ThreadOk(s, next.value);
    }
  }

  lemma {:induction false} AckFrame(s: Sched, p: nat, n: nat)
    ensures Ack(s, p, n).threads == s.threads && Ack(s, p, n).curr == s.curr
  {
    if n > 0 {
      AckFrame(s, p, n - 1);
    }
  }

  /** Every step keeps the basic invariant. */
  lemma StepOk(s: Sched, ev: Event)
    requires Ok(s) && Enabled(s, ev)
    ensures Ok(Apply(s, ev)) && SamePlaces(s, Apply(s, ev))
  {
    match ev {
      case ESchedule(p, next) => SwitchOk(s, p, next);
      case EAck(p) =>
        AckFrame(s, p, MAX_VM_NUM);
        assert forall t :: t in s.threads ==> ThreadOk(s, t) == ThreadOk(Apply(s, ev), t);
      case ERequest(t, g) => assert forall u :: u in s.threads ==> ThreadOk(s, u) == ThreadOk(Apply(s, ev), u);
      case ERelease(t) => assert forall u :: u in s.threads ==> ThreadOk(s, u) == ThreadOk(Apply(s, ev), u);
      case _ =>
        assert ThreadOk(s, ev.t);
        if Apply(s, ev) != s {
          OneThread(s, ev.t, Apply(s, ev).threads[ev.t]);
          assert Apply(s, ev) == With(s, ev.t, Apply(s, ev).threads[ev.t]);
        }
    }
  }

  // --------------------------------------------------------------- quiesce and ACK

  ghost predicate Good(s: Sched) { Ok(s) && SlotsOk(s) && OnePerSlot(s) }

  /** The thaw of a thread whose quiesce request is still open: `thaw_thread` does not look at it. */
  predicate GatedThaw(s: Sched, ev: Event)
    requires Enabled(s, ev)
  {
    ev.EThaw? && QuiesceActive(s, ev.t)
  }

  lemma {:induction false} AckSlot(s: Sched, p: nat, n: nat, k: Key)
    ensures var s' := Ack(s, p, n);
            && SlotOf(s', k) == (if k.0 == p && k.1 < n && CanAck(s, k) then SlotOf(s, k).(ack := SlotOf(s, k).req)
                                 else SlotOf(s, k))
            && (k in s'.asked <==> k in s.asked && !(k.0 == p && k.1 < n && CanAck(s, k)))
  {
    AckFrame(s, p, n);
    if n > 0 {
      AckFrame(s, p, n - 1);
      AckSlot(s, p, n - 1, k);
    }
  }

  lemma StepSlot(s: Sched, ev: Event, k: Key)
    requires Good(s) && Enabled(s, ev) && !GatedThaw(s, ev)
    ensures SlotOk(Apply(s, ev), k)
  {
    assert SlotOk(s, k);
    match ev {
      case EAck(p) =>
        AckFrame(s, p, MAX_VM_NUM);
        AckSlot(s, p, MAX_VM_NUM, k);
      case ESchedule(p, next) =>
        if p in s.curr {
          assert ThreadOk(s, s.curr[p]);
        }
      case _ =>
    }
  }

  lemma StepGood(s: Sched, ev: Event)
    requires Good(s) && Enabled(s, ev) && !GatedThaw(s, ev)
    ensures Good(Apply(s, ev))
  {
    hide Apply, Ok, SlotOk, ThreadOk;
    StepOk(s, ev);
    forall k: Key
      ensures SlotOk(Apply(s, ev), k)
    {
      StepSlot(s, ev, k);
    }
  }

  /** `t` holds its slot and an acknowledgement was published for it. */
  predicate Acked(s: Sched, t: Tid) {
    t in s.threads && Gateable(s.threads[t]) && SlotOf(s, s.threads[t].key).obj == Some(t)
    && SlotOf(s, s.threads[t].key).ack != 0
  }

  lemma AckedIsOff(s: Sched, t: Tid)
    requires Good(s) && Acked(s, t)
    ensures OffCpu(s, t) && QuiesceActive(s, t)
  {
    assert SlotOk(s, s.threads[t].key);
    assert ThreadOk(s, t);
  }

  lemma AckedStays(s: Sched, ev: Event, t: Tid)
    requires Good(s) && Acked(s, t) && Enabled(s, ev) && ev != ERelease(t)
    ensures Acked(Apply(s, ev), t)
  {
    var k := s.threads[t].key;
    StepOk(s, ev);
    assert SlotOk(s, k);
    match ev {
      case EAck(p) => AckSlot(s, p, MAX_VM_NUM, k);
      case _ =>
    }
  }

  // ------------------------------------------------------------------------- runs

  ghost predicate Possible(s: Sched, evs: seq<Event>)
    decreases evs
  {
    evs == [] || (Enabled(s, evs[0]) && Possible(Apply(s, evs[0]), evs[1..]))
  }

  ghost function After(s: Sched, evs: seq<Event>): Sched
    requires Possible(s, evs)
    decreases evs
  {
    if evs == [] then s else After(Apply(s, evs[0]), evs[1..])
  }

  lemma {:induction false} RunOn(s: Sched, evs: seq<Event>, more: seq<Event>)
    requires Possible(s, evs) && Possible(After(s, evs), more)
    ensures Possible(s, evs + more) && After(s, evs + more) == After(After(s, evs), more)
    decreases evs
  {
    if evs == [] {
      assert evs + more == more;
    } else {
      RunOn(Apply(s, evs[0]), evs[1..], more);
      assert (evs + more)[1..] == evs[1..] + more;
    }
  }

  ghost predicate NoGatedThaw(s: Sched, evs: seq<Event>)
    requires Possible(s, evs)
    decreases evs
  {
    evs == [] || (!GatedThaw(s, evs[0]) && NoGatedThaw(Apply(s, evs[0]), evs[1..]))
  }

  /** The state at start-up: every thread blocked, no gate, no request. */
  ghost predicate Initial(s: Sched) {
    && s.curr == map[] && s.slots == map[] && s.asked == {}
    && forall t :: t in s.threads ==>
         s.threads[t].status == Blocked && !s.threads[t].blocking && s.threads[t].epoch == 0
  }

  lemma {:induction false} RunGood(s: Sched, evs: seq<Event>)
    requires Good(s) && Possible(s, evs) && NoGatedThaw(s, evs)
    ensures Good(After(s, evs))
    decreases evs
  {
    if evs != [] {
      StepGood(s, evs[0]);
      RunGood(Apply(s, evs[0]), evs[1..]);
    }
  }

  /** Quiesce soundness: in every reachable state a matching acknowledgement means off the CPU. */
  lemma QuiesceSound(s: Sched, evs: seq<Event>, t: Tid, g: nat)
    requires Initial(s) && OnePerSlot(s) && Possible(s, evs) && NoGatedThaw(s, evs)
    ensures Good(After(s, evs))
    ensures t in After(s, evs).threads && Quiesced(After(s, evs), t, g) ==> OffCpu(After(s, evs), t)
  {
    assert Good(s);
    RunGood(s, evs);
    if t in After(s, evs).threads && Quiesced(After(s, evs), t, g) {
      AckedIsOff(After(s, evs), t);
    }
  }

  /** ... and it stays off until its release. */
  lemma {:induction false} QuietUntilRelease(s: Sched, evs: seq<Event>, t: Tid)
    requires Good(s) && Acked(s, t) && Possible(s, evs) && NoGatedThaw(s, evs) && ERelease(t) !in evs
    ensures Good(After(s, evs)) && Acked(After(s, evs), t) && OffCpu(After(s, evs), t)
    decreases evs
  {
    if evs == [] {
      AckedIsOff(s, t);
    } else {
      AckedStays(s, evs[0], t);
      StepGood(s, evs[0]);
      QuietUntilRelease(Apply(s, evs[0]), evs[1..], t);
    }
  }

  /** The promise for the future: however the run goes on, thaws behind an open request apart, an
      acknowledgement that matches means off the CPU. */
  ghost predicate Sound(s: Sched) {
    forall evs, t, g :: Possible(s, evs) && NoGatedThaw(s, evs) ==> MatchIsOff(After(s, evs), t, g)
  }

  predicate MatchIsOff(s: Sched, t: Tid, g: nat) { t in s.threads && Quiesced(s, t, g) ==> OffCpu(s, t) }

  lemma GoodIsSound(s: Sched)
    requires Good(s)
    ensures Sound(s)
  {
    hide Good, Possible, After, NoGatedThaw;
    forall evs, t, g | Possible(s, evs) && NoGatedThaw(s, evs)
      ensures MatchIsOff(After(s, evs), t, g)
    {
      RunGood(s, evs);
      if t in After(s, evs).threads && Quiesced(After(s, evs), t, g) {
        AckedIsOff(After(s, evs), t);
      }
    }
  }

  lemma UnsoundBy(s: Sched, evs: seq<Event>, t: Tid, g: nat)
    requires Possible(s, evs) && NoGatedThaw(s, evs) && !MatchIsOff(After(s, evs), t, g)
    ensures !Sound(s)
  {
  }

  lemma OneStep(s: Sched, ev: Event)
    requires Enabled(s, ev)
    ensures Possible(s, [ev]) && After(s, [ev]) == Apply(s, ev)
  {
    hide Apply, Enabled;
    assert [ev][1..] == [] && After(Apply(s, ev), []) == Apply(s, ev);
  }

  /** A thaw keeps the promise exactly when it does not replay a wake of an acknowledged thread. */
  lemma ThawKeepsQuiesce(s: Sched, t: Tid, e: nat, owned: bool)
    requires Good(s) && t in s.threads
    ensures Sound(Thaw(s, t, e, owned)) <==>
            !(Acked(s, t) && CanThaw(s.threads[t], e) && (owned || s.threads[t].deferred))
  {
    hide Sound, Possible, After;
    var s' := Thaw(s, t, e, owned);
    var k := s.threads[t].key;
    if Acked(s, t) && CanThaw(s.threads[t], e) && (owned || s.threads[t].deferred) {
      // the acknowledgement of an earlier generation can be asked for again
      var again := ERequest(t, SlotOf(s, k).ack);
      assert SlotOk(s, k);
      OneStep(s', again);
      UnsoundByStep(s', again, t, SlotOf(s, k).ack);
    } else {
      StepOk(s, EThaw(t, e, owned));
      forall j: Key
        ensures SlotOk(s', j)
      {
        assert SlotOk(s, j);
      }
      GoodIsSound(s');
    }
  }

  lemma UnsoundByStep(s: Sched, ev: Event, t: Tid, g: nat)
    requires Enabled(s, ev) && !ev.EThaw? && !MatchIsOff(Apply(s, ev), t, g)
    ensures !Sound(s)
  {
    hide Apply, Enabled, MatchIsOff;
    OneStep(s, ev);
    assert [ev][1..] == [];
    UnsoundBy(s, [ev], t, g);
  }

  /** A request keeps the slots sound exactly when it does not hand an acknowledgement to a thread
      that is not blocked; and what it hands over is taken for its own at once if generations agree. */
  lemma RequestKeepsSlots(s: Sched, t: Tid, g: nat)
    requires Ok(s) && SlotsOk(s) && t in s.threads
    ensures SlotsOk(Request(s, t, g)) <==>
            !(CanRequest(s, t, g) && SlotOf(s, s.threads[t].key).ack != 0 && s.threads[t].status != Blocked)
    ensures MatchIsOff(Request(s, t, g), t, g) <==>
            !(CanRequest(s, t, g) && SlotOf(s, s.threads[t].key).ack == g && s.threads[t].status != Blocked)
  {
    var s' := Request(s, t, g);
    var k := s.threads[t].key;
    assert ThreadOk(s, t);
    assert SlotOk(s, k);
    if CanRequest(s, t, g) && SlotOf(s, k).ack != 0 && s.threads[t].status != Blocked {
      assert !SlotOk(s', k);
    } else {
      forall j: Key
        ensures SlotOk(s', j)
      {
        assert SlotOk(s, j);
      }
    }
  }

  /** The run that breaks the promise for two vCPUs on one slot: the first is asked and acknowledged,
      the second wakes up and is asked for the same generation. */
  function InheritRun(t: Tid, u: Tid, p: nat): seq<Event> { [ERequest(t, 7), EAck(p), EWake(u), ERequest(u, 7)] }

  lemma SharedSlotBreaks(s: Sched, t: Tid, u: Tid)
    requires Initial(s) && t in s.threads && u in s.threads && t != u && SharesSlot(s.threads[t], s.threads[u])
    ensures !Sound(s)
  {
    hide Sound, Possible, After, NoGatedThaw, MatchIsOff, Apply, Enabled, Ack;
    var k := s.threads[t].key;
    var evs := InheritRun(t, u, k.0);
    var s1, s2, s3, s4 := InheritSteps(s, t, u);
    FourSteps(s, evs, s1, s2, s3, s4);
    UnsoundBy(s, evs, u, 7);
  }

  lemma InheritSteps(s: Sched, t: Tid, u: Tid) returns (s1: Sched, s2: Sched, s3: Sched, s4: Sched)
    requires Initial(s) && t in s.threads && u in s.threads && t != u && SharesSlot(s.threads[t], s.threads[u])
    ensures Enabled(s, ERequest(t, 7)) && s1 == Apply(s, ERequest(t, 7))
    ensures Enabled(s1, EAck(s.threads[t].key.0)) && s2 == Apply(s1, EAck(s.threads[t].key.0))
    ensures Enabled(s2, EWake(u)) && s3 == Apply(s2, EWake(u))
    ensures Enabled(s3, ERequest(u, 7)) && s4 == Apply(s3, ERequest(u, 7))
    ensures !MatchIsOff(s4, u, 7)
  {
    hide Ack;
    var k := s.threads[t].key;
    s1 := Apply(s, ERequest(t, 7));
    assert CanAck(s1, k);
    s2 := Apply(s1, EAck(k.0));
    AckFrame(s1, k.0, MAX_VM_NUM);
    AckSlot(s1, k.0, MAX_VM_NUM, k);
    assert SlotOf(s2, k) == Slot(Some(t), 7, 7);
    s3 := Apply(s2, EWake(u));
    assert s3.threads[u].status == Runnable && SlotOf(s3, k) == SlotOf(s2, k);
    s4 := Apply(s3, ERequest(u, 7));
  }

  lemma FourSteps(s: Sched, evs: seq<Event>, s1: Sched, s2: Sched, s3: Sched, s4: Sched)
    requires |evs| == 4 && (forall i :: 0 <= i < 4 ==> !evs[i].EThaw?)
    requires Enabled(s, evs[0]) && s1 == Apply(s, evs[0]) && Enabled(s1, evs[1]) && s2 == Apply(s1, evs[1])
    requires Enabled(s2, evs[2]) && s3 == Apply(s2, evs[2]) && Enabled(s3, evs[3]) && s4 == Apply(s3, evs[3])
    ensures Possible(s, evs) && After(s, evs) == s4 && NoGatedThaw(s, evs)
  {
    hide Enabled, Apply;
    var e3, e2, e1 := evs[3..], evs[2..], evs[1..];
    assert e3[1..] == [] && e2[1..] == e3 && e1[1..] == e2;
    assert Possible(s3, e3) && After(s3, e3) == s4 && NoGatedThaw(s3, e3);
    assert Possible(s2, e2) && After(s2, e2) == s4 && NoGatedThaw(s2, e2);
    assert Possible(s1, e1) && After(s1, e1) == s4 && NoGatedThaw(s1, e1);
  }

  /** From start-up the promise holds in every run exactly when no two vCPUs have the same slot. */
  lemma SoundWhenSlotsUnique(s: Sched)
    requires Initial(s)
    ensures Sound(s) <==> OnePerSlot(s)
  {
    hide Sound, SharesSlot;
    if OnePerSlot(s) {
      assert Good(s);
      GoodIsSound(s);
    } else {
      var t, u :| t in s.threads && u in s.threads && SharesSlot(s.threads[t], s.threads[u]) && t != u;
      SharedSlotBreaks(s, t, u);
    }
  }

  // ------------------------------------------------------------- freeze and thaw

  /** Frozen is stable under every step but the matching thaw. */
  lemma FrozenStays(s: Sched, ev: Event, t: Tid, e: nat)
    requires Ok(s) && Frozen(s, t, e) && Enabled(s, ev) && !(ev.EThaw? && ev.t == t && ev.e == e)
    ensures Frozen(Apply(s, ev), t, e)
  {
    StepOk(s, ev);
    assert ThreadOk(s, t) && ThreadOk(Apply(s, ev), t);
    match ev {
      case EAck(p) => AckFrame(s, p, MAX_VM_NUM);
      case ESchedule(p, next) =>
        if p in s.curr {
          assert ThreadOk(s, s.curr[p]);
        }
      case _ =>
    }
  }

  predicate ThawOf(ev: Event, t: Tid, e: nat) { ev.EThaw? && ev.t == t && ev.e == e }

  /** Some wake of `t` along the run that no open quiesce request swallowed. */
  ghost predicate WokeDuring(s: Sched, evs: seq<Event>, t: Tid)
    requires t in s.threads && Possible(s, evs) && Ok(s)
    decreases evs
  {
    evs != [] && ((evs[0] == EWake(t) && !QuiesceActive(s, t)) ||
                  (StepOk(s, evs[0]); WokeDuring(Apply(s, evs[0]), evs[1..], t)))
  }

  lemma GateStep(s: Sched, ev: Event, t: Tid, e: nat)
    requires Ok(s) && Enabled(s, ev) && t in s.threads && e != 0 && s.threads[t].epoch == e && !ThawOf(ev, t, e)
    ensures var s' := Apply(s, ev);
            && t in s'.threads && s'.threads[t].epoch == e
            && (s'.threads[t].deferred <==> s.threads[t].deferred || (ev == EWake(t) && !QuiesceActive(s, t)))
  {
    match ev {
      case EAck(p) => AckFrame(s, p, MAX_VM_NUM);
      case _ =>
    }
  }

  lemma {:induction false} GateRun(s: Sched, evs: seq<Event>, t: Tid, e: nat)
    requires Ok(s) && Possible(s, evs) && t in s.threads && e != 0 && s.threads[t].epoch == e
    requires forall i :: 0 <= i < |evs| ==> !ThawOf(evs[i], t, e)
    ensures var s' := After(s, evs);
            && Ok(s') && t in s'.threads && s'.threads[t].epoch == e && Asleep(s'.threads[t])
            && (s'.threads[t].deferred <==> s.threads[t].deferred || WokeDuring(s, evs, t))
    decreases evs
  {
    assert ThreadOk(s, t);
    if evs != [] {
      StepOk(s, evs[0]);
      GateStep(s, evs[0], t, e);
      GateRun(Apply(s, evs[0]), evs[1..], t, e);
    }
  }

  /** A thread frozen, left behind the gate through any run, and thawed with the ownership its
      freeze reported is awake exactly when it was awake before or was woken behind the gate. */
  lemma FreezeThawKeepsWakes(s: Sched, t: Tid, e: nat, evs: seq<Event>)
    requires Ok(s) && t in s.threads && e != 0 && s.threads[t].epoch == 0
    requires Possible(Freeze(s, t, e), evs) && forall i :: 0 <= i < |evs| ==> !ThawOf(evs[i], t, e)
    ensures Enabled(s, EFreeze(t, e)) && Ok(Freeze(s, t, e))
    ensures var s1 := After(Freeze(s, t, e), evs);
            t in s1.threads && Asleep(s1.threads[t]) &&
            var s2 := Thaw(s1, t, e, WakeOwned(s.threads[t], e));
            && s2.threads[t].epoch == 0
            && (!Asleep(s2.threads[t]) <==> !Asleep(s.threads[t]) || WokeDuring(Freeze(s, t, e), evs, t))
            && (s2.threads[t].status == Running <==> s1.threads[t].status == Running)
  {
    StepOk(s, EFreeze(t, e));
    GateRun(Freeze(s, t, e), evs, t, e);
    assert ThreadOk(After(Freeze(s, t, e), evs), t);
  }
}
