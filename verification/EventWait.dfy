/**
 * `wait_event` and `signal_event` over the scheduler, step by step: the event lock, the two fields
 * under it, and the scheduler sections taken while it is held or after it is dropped.
 */
module EventWait {
  import opened Common
  import opened SchedulerGates

  /** Where the waiting thread stands in `wait_event`. */
  datatype Pc = Outside | Test | Sleeping | Scheduling | Returned

  /** Who holds the event lock; a signaller has set the flag and is about to wake. */
  datatype Holder = Free | Waiter | Signaller

  /** One event and the thread `w` that waits for it. */
  datatype World = World(s: Sched, w: Tid, pc: Pc, holder: Holder, flag: bool, waiting: bool)

  datatype Step =
    | WaitLock | WaitTest | WaitSleep | WaitSchedule(next: Option<Tid>) | WaitRelock
    | SignalLock | SignalWake | ResetEvent | Elsewhere(ev: Event)

  predicate OnCpu(x: World) {
    x.w in x.s.threads && Current(x.s, x.s.threads[x.w].key.0) == Some(x.w)
  }

  /** Code of the waiter runs only while it is current. Elsewhere anything happens, but nobody else
      puts the waiter to sleep, freezes it or asks it to quiesce. */
  predicate CanStep(x: World, st: Step) {
    x.w in x.s.threads &&
    match st
    case WaitLock => x.pc == Outside && x.holder == Free && OnCpu(x) && !x.waiting
    case WaitTest => x.pc == Test && OnCpu(x)
    case WaitSleep => x.pc == Sleeping && OnCpu(x)
    case WaitSchedule(next) => x.pc == Scheduling && OnCpu(x) && Enabled(x.s, ESchedule(x.s.threads[x.w].key.0, next))
    case WaitRelock => x.pc == Returned && x.holder == Free && OnCpu(x)
    case SignalLock => x.holder == Free
    case SignalWake => x.holder == Signaller
    case ResetEvent => x.holder == Free
    case Elsewhere(ev) => Enabled(x.s, ev) && !((ev.ESleep? || ev.EFreeze? || ev.ERequest?) && ev.t == x.w)
  }

  function Next(x: World, st: Step): World
    requires CanStep(x, st)
  {
    match st
    case WaitLock => x.(pc := Test, holder := Waiter, waiting := true)
    case WaitTest =>
      if !x.flag && x.waiting then x.(pc := Sleeping)
      else x.(pc := Outside, holder := Free, flag := false, waiting := false)
    case WaitSleep => x.(s := Apply(x.s, ESleep(x.w)), holder := Free, pc := Scheduling)
    case WaitSchedule(next) => x.(s := Apply(x.s, ESchedule(x.s.threads[x.w].key.0, next)), pc := Returned)
    case WaitRelock => x.(pc := Test, holder := Waiter)
    case SignalLock => x.(holder := Signaller, flag := true)
    case SignalWake => x.(s := if x.waiting then Apply(x.s, EWake(x.w)) else x.s, holder := Free)
    case ResetEvent => x.(flag := false, waiting := false)
    case Elsewhere(ev) => x.(s := Apply(x.s, ev))
  }

  /** No freeze gate and no quiesce request stand against `t`. */
  predicate Ungated(s: Sched, t: Tid) {
    t in s.threads && s.threads[t].epoch == 0 && SlotOf(s, s.threads[t].key).obj != Some(t)
  }

  ghost predicate Inv(x: World) {
    && Ok(x.s) && Ungated(x.s, x.w)
    && (x.pc == Test || x.pc == Sleeping <==> x.holder == Waiter)
    && (x.pc == Sleeping ==> !x.flag && x.waiting)
    && (x.s.threads[x.w].blocking ==> x.pc == Scheduling)
    && (x.pc in {Outside, Test, Sleeping} ==> !Asleep(x.s.threads[x.w]))
    && (x.flag && x.waiting && x.holder != Signaller ==> !Asleep(x.s.threads[x.w]))
  }

  /** A step of the scheduler that does not put `w` to sleep leaves an awake thread awake. */
  lemma ElsewhereKeeps(s: Sched, ev: Event, w: Tid)
    requires Ok(s) && Ungated(s, w) && Enabled(s, ev) && !((ev.ESleep? || ev.EFreeze? || ev.ERequest?) && ev.t == w)
    ensures Ungated(Apply(s, ev), w)
    ensures !Asleep(s.threads[w]) ==> !Asleep(Apply(s, ev).threads[w])
    ensures Apply(s, ev).threads[w].blocking ==> s.threads[w].blocking
  {
    match ev {
      case EAck(p) =>
        AckFrame(s, p, MAX_VM_NUM);
        AckSlot(s, p, MAX_VM_NUM, s.threads[w].key);
      case _ =>
    }
  }

  /** `schedule` leaves nobody it touched about to block. */
  lemma ScheduleSettles(s: Sched, p: nat, next: Option<Tid>, w: Tid)
    requires Ok(s) && Enabled(s, ESchedule(p, next)) && Current(s, p) == Some(w)
    ensures w in Switch(s, p, next).threads && !Switch(s, p, next).threads[w].blocking
  {
    assert ThreadOk(s, w);
  }

  lemma StepKeeps(x: World, st: Step)
    requires Inv(x) && CanStep(x, st)
    ensures Inv(Next(x, st))
  {
    hide Apply, Ok, Enabled;
    CurrentRuns(x);
    match st {
      case Elsewhere(ev) =>
        StepOk(x.s, ev);
        ElsewhereKeeps(x.s, ev, x.w);
      case WaitSchedule(next) =>
        var ev := ESchedule(x.s.threads[x.w].key.0, next);
        StepOk(x.s, ev);
        ElsewhereKeeps(x.s, ev, x.w);
        ScheduleSettlesHere(x, next);
      case WaitSleep =>
        SleepsHere(x.s, x.w);
      case SignalWake =>
        WakesHere(x.s, x.w);
      case _ =>
    }
  }

  lemma CurrentRuns(x: World)
    requires Ok(x.s) && x.w in x.s.threads
    ensures OnCpu(x) ==> x.s.threads[x.w].status == Running
  {
    assert ThreadOk(x.s, x.w);
  }

  lemma ScheduleSettlesHere(x: World, next: Option<Tid>)
    requires Inv(x) && CanStep(x, WaitSchedule(next))
    ensures !Next(x, WaitSchedule(next)).s.threads[x.w].blocking
  {
    ScheduleSettles(x.s, x.s.threads[x.w].key.0, next, x.w);
  }

  lemma SleepsHere(s: Sched, w: Tid)
    requires Ok(s) && Ungated(s, w)
    ensures Enabled(s, ESleep(w)) && Ok(Apply(s, ESleep(w))) && Ungated(Apply(s, ESleep(w)), w)
  {
    StepOk(s, ESleep(w));
  }

  lemma WakesHere(s: Sched, w: Tid)
    requires Ok(s) && Ungated(s, w)
    ensures Enabled(s, EWake(w)) && Ok(Apply(s, EWake(w))) && Ungated(Apply(s, EWake(w)), w)
    ensures !Asleep(Apply(s, EWake(w)).threads[w]) && !Apply(s, EWake(w)).threads[w].blocking
  {
    StepOk(s, EWake(w));
  }

  ghost predicate Possible(x: World, steps: seq<Step>)
    decreases steps
  {
    steps == [] || (CanStep(x, steps[0]) && Possible(Next(x, steps[0]), steps[1..]))
  }

  ghost function After(x: World, steps: seq<Step>): World
    requires Possible(x, steps)
    decreases steps
  {
    if steps == [] then x else After(Next(x, steps[0]), steps[1..])
  }

  /** Nobody waits yet and the waiter-to-be is awake. */
  ghost predicate Start(x: World) {
    Ok(x.s) && Ungated(x.s, x.w) && !Asleep(x.s.threads[x.w]) && x.pc == Outside && x.holder == Free && !x.waiting
  }

  lemma {:induction false} RunKeeps(x: World, steps: seq<Step>)
    requires Inv(x) && Possible(x, steps)
    ensures Inv(After(x, steps))
    decreases steps
  {
    if steps != [] {
      StepKeeps(x, steps[0]);
      RunKeeps(Next(x, steps[0]), steps[1..]);
    }
  }

  /** No lost wakeup: whenever the event is set with the waiter recorded, the waiter is neither blocked
      nor about to block, or the signaller still holds the lock and its wake puts that right. */
  lemma NoLostWakeup(x: World, steps: seq<Step>)
    requires Start(x) && Possible(x, steps)
    ensures var y := After(x, steps);
            y.w in y.s.threads && (y.flag && y.waiting ==>
              if y.holder != Signaller then !Asleep(y.s.threads[y.w])
              else CanStep(y, SignalWake) && !Asleep(Next(y, SignalWake).s.threads[y.w]))
  {
    RunKeeps(x, steps);
    var y := After(x, steps);
    if y.holder == Signaller {
      StepKeeps(y, SignalWake);
    }
  }
}
