/** The scheduler core as it is written, one method per locked section, against the step system. */
module Scheduler {
  import opened Common
  import opened SchedulerGates

  /** What other pCPUs may do while a caller keeps `held` stopped: anything but release those threads
      or thaw a thread with an open quiesce request. Steps that are not enabled do nothing. */
  predicate Fair(s: Sched, ev: Event, held: set<Tid>) {
    Enabled(s, ev) && !GatedThaw(s, ev) && !(ev.ERelease? && ev.t in held)
  }

  function Others(s: Sched, evs: seq<Event>, held: set<Tid>): Sched
    decreases evs
  {
    if evs == [] then s
    else Others(if Fair(s, evs[0], held) then Apply(s, evs[0]) else s, evs[1..], held)
  }

  lemma {:induction false} OthersKeep(s: Sched, evs: seq<Event>, held: set<Tid>)
    requires Good(s)
    ensures Good(Others(s, evs, held)) && SamePlaces(s, Others(s, evs, held))
    ensures forall t :: t in held && Acked(s, t) ==> Acked(Others(s, evs, held), t)
    decreases evs
  {
    hide Good, Acked, Apply, Enabled, GatedThaw;
    if evs != [] {
      var s1 := if Fair(s, evs[0], held) then Apply(s, evs[0]) else s;
      if Fair(s, evs[0], held) {
        StepGood(s, evs[0]);
        GoodIsOk(s);
        StepOk(s, evs[0]);
        forall t | t in held && Acked(s, t)
          ensures Acked(s1, t)
        {
          AckedStays(s, evs[0], t);
        }
      }
      OthersKeep(s1, evs[1..], held);
    }
  }

  ghost predicate KeepsAcks(s: Sched, s': Sched) { forall t :: Acked(s, t) ==> Acked(s', t) }

  lemma StepKeepsAcks(s: Sched, ev: Event)
    requires Good(s) && Enabled(s, ev) && !ev.ERelease? && !ev.EThaw?
    ensures Good(Apply(s, ev)) && SamePlaces(s, Apply(s, ev)) && KeepsAcks(s, Apply(s, ev))
  {
    hide Apply, Acked;
    GoodIsOk(s);
    StepGood(s, ev);
    StepOk(s, ev);
    forall t | Acked(s, t)
      ensures Acked(Apply(s, ev), t)
    {
      AckedStays(s, ev, t);
    }
  }

  lemma QuiescedIsAcked(s: Sched, t: Tid, g: nat)
    requires t in s.threads && Quiesced(s, t, g)
    ensures Acked(s, t)
  {
  }

  lemma KeptSelf(s: Sched)
    ensures SamePlaces(s, s) && KeepsAcks(s, s)
  {
  }

  lemma KeptThen(a: Sched, b: Sched, c: Sched)
    requires SamePlaces(a, b) && KeepsAcks(a, b) && SamePlaces(b, c) && KeepsAcks(b, c)
    ensures SamePlaces(a, c) && KeepsAcks(a, c)
  {
  }

  lemma GoodIsOk(s: Sched)
    requires Good(s)
    ensures Ok(s)
  {
  }

  class Scheduler {
    var threads: map<Tid, Thread>
    var curr: map<nat, Tid>
    var slots: map<Key, Slot>
    var asked: set<Key>

    function S(): Sched
      reads this
    {
      Sched(threads, curr, slots, asked)
    }

    constructor (threads: map<Tid, Thread>)
      requires forall t :: t in threads ==>
                 threads[t].status == Blocked && !threads[t].blocking && threads[t].epoch == 0
      ensures Initial(S()) && S().threads == threads
    {
      this.threads, curr, slots, asked := threads, map[], map[], {};
    }

    method SleepLocked(t: Tid) returns (wakeOwned: bool)
      requires t in threads
      modifies this`threads
      ensures S() == With(old(S()), t, SleepOf(old(threads)[t])) && wakeOwned == !Asleep(old(threads)[t])
    {
      wakeOwned := threads[t].status != Blocked && !threads[t].blocking;
      if threads[t].status == Running {
        threads := threads[t := threads[t].(blocking := true)];
      } else {
        threads := threads[t := threads[t].(status := Blocked)];
      }
    }

    method WakeLocked(t: Tid)
      requires t in threads
      modifies this`threads
      ensures S() == With(old(S()), t, WakeOf(old(threads)[t]))
    {
      if threads[t].status == Blocked || threads[t].blocking {
        if threads[t].status == Blocked {
          threads := threads[t := threads[t].(status := Runnable)];
        }
        threads := threads[t := threads[t].(blocking := false)];
      } else {
        assert threads[t := threads[t]] == threads;
      }
    }

    method SleepThread(t: Tid)
      requires t in threads
      modifies this`threads
      ensures S() == Apply(old(S()), ESleep(t))
    {
      var _ := SleepLocked(t);
    }

    method WakeThread(t: Tid)
      requires t in threads
      modifies this`threads
      ensures S() == Apply(old(S()), EWake(t))
    {
      var slot := SlotOf(S(), threads[t].key);
      if !(Gateable(threads[t]) && slot.obj == Some(t) && slot.req != 0) {
        if threads[t].epoch != 0 {
          threads := threads[t := threads[t].(deferred := true)];
        } else {
          WakeLocked(t);
        }
      }
    }

    method FreezeThread(t: Tid, e: nat) returns (frozen: bool, wakeOwned: bool)
      requires t in threads
      modifies this`threads
      ensures S() == Apply(old(S()), EFreeze(t, e))
      ensures frozen == CanFreeze(old(threads)[t], e) && wakeOwned == WakeOwned(old(threads)[t], e)
    {
      frozen, wakeOwned := false, false;
      if e == 0 {
        return;
      }
      if threads[t].epoch == 0 || threads[t].epoch == e {
        if threads[t].epoch == 0 {
          threads := threads[t := threads[t].(epoch := e, deferred := false)];
        }
        wakeOwned := SleepLocked(t);
        frozen := true;
      }
    }

    method ThawThread(t: Tid, e: nat, wakeOwned: bool) returns (thawed: bool)
      requires t in threads
      modifies this`threads
      ensures S() == Apply(old(S()), EThaw(t, e, wakeOwned)) && thawed == CanThaw(old(threads)[t], e)
    {
      thawed := false;
      if e != 0 && threads[t].epoch == e {
        var replay := wakeOwned || threads[t].deferred;
        threads := threads[t := threads[t].(epoch := 0, deferred := false)];
        if replay {
          WakeLocked(t);
        }
        thawed := true;
      }
    }

    method ScheduleOn(p: nat, next: Option<Tid>)
      requires Ok(S()) && Enabled(S(), ESchedule(p, next))
      modifies this`threads, this`curr
      ensures S() == Apply(old(S()), ESchedule(p, next))
    {
      var prev := if p in curr then Some(curr[p]) else None;
      if prev != next {
        if prev.Some? {
          var th := threads[prev.value];
          threads := threads[prev.value := th.(status := if th.blocking then Blocked else Runnable, blocking := false)];
        }
        if next.Some? {
          threads := threads[next.value := threads[next.value].(status := Running)];
          curr := curr[p := next.value];
        } else {
          curr := curr - {p};
        }
      }
    }

    method RequestQuiesce(t: Tid, g: nat) returns (requested: bool)
      requires t in threads
      modifies this`slots, this`asked
      ensures S() == Apply(old(S()), ERequest(t, g)) && requested == CanRequest(old(S()), t, g)
    {
      requested := false;
      if !Gateable(threads[t]) || g == 0 {
        return;
      }
      var k := threads[t].key;
      var slot := SlotOf(S(), k);
      if slot.obj == None || slot.obj == Some(t) || slot.req == slot.ack {
        slots := slots[k := Slot(Some(t), g, slot.ack)];
        asked := asked + {k};
        requested := true;
      }
    }

    method ReleaseQuiesce(t: Tid)
      requires t in threads
      modifies this`slots, this`asked
      ensures S() == Apply(old(S()), ERelease(t))
    {
      if Gateable(threads[t]) && SlotOf(S(), threads[t].key).obj == Some(t) {
        slots := slots[threads[t].key := EMPTY];
        asked := asked - {threads[t].key};
      }
    }

    /** The idle thread of `p` publishes the acknowledgements it can stand for. */
    method AckFromIdle(p: nat) returns (acked: bool)
      modifies this`slots, this`asked
      ensures S() == Apply(old(S()), EAck(p))
      ensures acked <==> exists v :: 0 <= v < MAX_VM_NUM && CanAck(old(S()), (p, v))
    {
      acked := false;
      ghost var s := S();
      for v := 0 to MAX_VM_NUM
        invariant S() == Ack(s, p, v)
        invariant acked <==> exists u :: 0 <= u < v && CanAck(s, (p, u))
      {
        AckFrame(s, p, v);
        AckSlot(s, p, v, (p, v));
        assert CanAck(S(), (p, v)) == CanAck(s, (p, v));
        if (p, v) in asked {
          var slot := SlotOf(S(), (p, v));
          if p !in curr && slot.obj.Some? && slot.obj.value in threads && slot.req != 0 {
            var th := threads[slot.obj.value];
            if Gateable(th) && th.key == (p, v) && th.status == Blocked && !th.blocking {
              asked := asked - {(p, v)};
              slots := slots[(p, v) := slot.(ack := slot.req)];
              acked := true;
            }
          }
        }
      }
    }

    /** Steps of other pCPUs between two sections of this one. */
    method Interleave(evs: seq<Event>, held: set<Tid>)
      requires Good(S())
      modifies this
      ensures S() == Others(old(S()), evs, held) && Good(S()) && SamePlaces(old(S()), S())
      ensures forall t :: t in held && Acked(old(S()), t) ==> Acked(S(), t)
    {
      OthersKeep(S(), evs, held);
      var s := Others(S(), evs, held);
      threads, curr, slots, asked := s.threads, s.curr, s.slots, s.asked;
    }

    /** `vcpu_pause`: every lifecycle state but offline goes to paused, and the thread is put to sleep. */
    method PauseVcpu(t: Tid)
      requires Good(S()) && t in threads
      modifies this`threads
      ensures Good(S()) && SamePlaces(old(S()), S()) && KeepsAcks(old(S()), S())
      ensures threads[t].life == if old(threads)[t].life == Offline then Offline else Paused
      ensures old(threads)[t].life != Offline ==> Asleep(threads[t])
    {
      hide Good, KeepsAcks, SamePlaces;
      KeptSelf(S());
      ghost var s0 := S();
      if threads[t].life != Paused && threads[t].life != Offline {
        StepKeepsAcks(S(), ELife(t, Paused));
        threads := threads[t := threads[t].(life := Paused)];
      }
      if threads[t].life != Offline {
        ghost var s1 := S();
        StepKeepsAcks(S(), ESleep(t));
        SleepThread(t);
        KeptThen(s0, s1, S());
      }
    }

    /** `is_vcpu_quiesced`. */
    predicate VcpuQuiesced(t: Tid, g: nat)
      requires t in threads
      reads this
    {
      threads[t].life == Paused && Quiesced(S(), t, g)
    }

    /** `request_vcpu_quiesce`, with other pCPUs between its pause and its request. */
    method RequestVcpuQuiesce(t: Tid, g: nat, between: seq<Event>, held: set<Tid>) returns (requested: bool)
      requires Good(S()) && t in threads && t in held
      modifies this
      ensures Good(S()) && SamePlaces(old(S()), S())
      ensures requested ==> g != 0 && SlotOf(S(), threads[t].key).obj == Some(t) && SlotOf(S(), threads[t].key).req == g
    {
      if g == 0 {
        return false;
      }
      if VcpuQuiesced(t, g) {
        return true;
      }
      PauseVcpu(t);
      Interleave(between, held);
      requested := false;
      if threads[t].life == Paused {
        StepGood(S(), ERequest(t, g));
        requested := RequestQuiesce(t, g);
      }
    }

    /** `pause_vm_async`: request every vCPU, then look at each in turn while the other pCPUs go on.
        Nothing pending for a VM that was not paused means all its vCPUs are off their pCPUs at once. */
    method PauseVmAsync(vcpus: seq<Tid>, g: nat, paused: bool, pausable: bool, others: nat -> seq<Event>)
      returns (pending: Option<set<Tid>>)
      requires Good(S()) && forall t :: t in vcpus ==> t in threads
      modifies this
      ensures Good(S()) && (pending.None? <==> g == 0 || (!paused && !pausable))
      ensures pending.None? || paused ==> S() == old(S())
      ensures pending.Some? ==> pending.value <= set t | t in vcpus
      ensures pending == Some({}) && !paused ==> forall t :: t in vcpus ==> OffCpu(S(), t) && Acked(S(), t)
    {
      if g == 0 {
        return None;
      }
      if paused {
        return Some({});
      }
      if !pausable {
        return None;
      }
      var left := PauseVcpus(vcpus, g, others);
      pending := Some(left);
    }

    method PauseVcpus(vcpus: seq<Tid>, g: nat, others: nat -> seq<Event>) returns (pending: set<Tid>)
      requires Good(S()) && g != 0 && forall t :: t in vcpus ==> t in threads
      modifies this
      ensures Good(S()) && pending <= set t | t in vcpus
      ensures pending == {} ==> forall t :: t in vcpus ==> OffCpu(S(), t) && Acked(S(), t)
    {
      hide Good, OffCpu, Others, Gateable, SlotOf, Quiesced, Acked;
      var held := set t | t in vcpus;
      for i := 0 to |vcpus|
        invariant Good(S()) && forall t :: t in vcpus ==> t in threads
      {
        Interleave(others(3 * i), held);
        var _ := RequestVcpuQuiesce(vcpus[i], g, others(3 * i + 1), held);
      }
      pending := {};
      for i := 0 to |vcpus|
        invariant Good(S()) && forall t :: t in vcpus ==> t in threads
        invariant pending <= set t | t in vcpus
        invariant pending == {} ==> forall j :: 0 <= j < i ==> Acked(S(), vcpus[j])
      {
        Interleave(others(3 * i + 2), held);
        if !VcpuQuiesced(vcpus[i], g) {
          pending := pending + {vcpus[i]};
        } else {
          QuiescedIsAcked(S(), vcpus[i], g);
        }
      }
      if pending == {} {
        forall j | 0 <= j < |vcpus|
          ensures OffCpu(S(), vcpus[j])
        {
          AckedIsOff(S(), vcpus[j]);
        }
      }
    }
  }
}
