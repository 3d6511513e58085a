/** The VM watchdog: heartbeat ages across suspend and resume, and the restart recovery state machine. */
module VmWatchdog {
  import opened Common

  const RESTART_MAX := 5

  datatype Recovery = Idle | Quiescing | Resetting | Verifying

  datatype Vcpu = Vcpu(start: nat, last: nat, token: nat, remaining: nat)

  const NO_VCPU := Vcpu(0, 0, 0, 0)

  /** `begun` are the vCPUs that have kicked, `expected` those that should. */
  datatype Entry = Entry(
    pending: bool, state: Recovery, generation: nat, recoveryStart: nat, resetDone: bool, resetRet: int,
    restarts: nat, failures: nat,
    start: nat, last: nat, token: nat, started: bool, remaining: nat,
    perVcpu: bool, expected: set<nat>, begun: set<nat>, stalled: set<nat>, vcpus: seq<Vcpu>,
    suspended: bool, epoch: nat, suspendedAt: nat)

  // -------------------------------------------------------------------------- ages

  function Elapsed(now: nat, since: nat): nat { if now >= since then now - since else 0 }

  function VcpuAge(e: Entry, v: nat, now: nat): nat
    requires v < |e.vcpus|
  {
    Elapsed(now, if v in e.begun then e.vcpus[v].last else e.vcpus[v].start)
  }

  /** The largest age of an expected vCPU below `n`. */
  function MaxAge(e: Entry, now: nat, n: nat): nat
    requires n <= |e.vcpus|
  {
    if n == 0 then 0
    else
      var m := MaxAge(e, now, n - 1);
      if n - 1 in e.expected && VcpuAge(e, n - 1, now) > m then VcpuAge(e, n - 1, now) else m
  }

  /** `vm_wdt_heartbeat_age_ticks`. */
  function HeartbeatAge(e: Entry, now: nat): nat {
    if e.perVcpu then MaxAge(e, now, |e.vcpus|)
    else Elapsed(now, if e.started then e.last else e.start)
  }

  predicate Expired(age: nat, timeout: nat) { age > timeout }

  function Stalled(e: Entry, now: nat, timeout: nat): set<nat> {
    set v | v in e.expected && v < |e.vcpus| && Expired(VcpuAge(e, v, now), timeout)
  }

  // ------------------------------------------------------------ suspend and resume

  /** The time left before the timeout; 0 once it has passed. */
  function Left(age: nat, timeout: nat): nat { if age < timeout then timeout - age else 0 }

  /** The stamp that gives back the age the time left stands for. */
  function Base(left: nat, now: nat, timeout: nat): nat {
    var age := if left == 0 then timeout + 1 else timeout - left;
    if now > age then now - age else 0
  }

  function SavedVcpu(e: Entry, v: nat, now: nat, timeout: nat): Vcpu
    requires v < |e.vcpus|
  {
    if e.perVcpu && v in e.expected then e.vcpus[v].(remaining := Left(VcpuAge(e, v, now), timeout)) else e.vcpus[v]
  }

  function RestoredVcpu(e: Entry, v: nat, now: nat, timeout: nat): Vcpu
    requires v < |e.vcpus| && e.vcpus[v].remaining <= timeout
  {
    var vc := e.vcpus[v];
    if !(e.perVcpu && v in e.expected) then vc
    else if v in e.begun then vc.(last := Base(vc.remaining, now, timeout), remaining := 0)
    else vc.(start := Base(vc.remaining, now, timeout), remaining := 0)
  }

  ghost predicate TimesLeft(e: Entry, timeout: nat) {
    e.remaining <= timeout && forall v :: 0 <= v < |e.vcpus| ==> e.vcpus[v].remaining <= timeout
  }

  /** `r` is `e` with the times left at `now` put away for `epoch`. */
  ghost predicate IsSaved(e: Entry, r: Entry, epoch: nat, now: nat, timeout: nat) {
    && r == e.(remaining := Left(HeartbeatAge(e, now), timeout), vcpus := r.vcpus,
               epoch := epoch, suspendedAt := now, suspended := true)
    && |r.vcpus| == |e.vcpus| && forall v :: 0 <= v < |e.vcpus| ==> r.vcpus[v] == SavedVcpu(e, v, now, timeout)
  }

  /** `r` is `e` with its stamps set back to give the times left, and its recovery clock moved on. */
  ghost predicate IsRestored(e: Entry, r: Entry, now: nat, timeout: nat)
    requires TimesLeft(e, timeout)
  {
    && r == e.(start := if e.started then e.start else Base(e.remaining, now, timeout),
               last := if e.started then Base(e.remaining, now, timeout) else e.last,
               vcpus := r.vcpus, recoveryStart := r.recoveryStart,
               remaining := 0, epoch := 0, suspendedAt := 0, suspended := false)
    && r.recoveryStart == (if e.pending && e.recoveryStart != 0 then e.recoveryStart + Elapsed(now, e.suspendedAt)
                           else e.recoveryStart)
    && |r.vcpus| == |e.vcpus| && forall v :: 0 <= v < |e.vcpus| ==> r.vcpus[v] == RestoredVcpu(e, v, now, timeout)
  }

  /** The loop of `vm_wdt_suspend_vcpu_deadlines_locked` with its caller's own deadline. */
  method Save(e: Entry, epoch: nat, now: nat, timeout: nat) returns (r: Entry)
    requires TimesLeft(e, timeout)
    ensures IsSaved(e, r, epoch, now, timeout) && TimesLeft(r, timeout)
  {
    var age := HeartbeatAge(e, now);
    r := e.(remaining := if age < timeout then timeout - age else 0);
    if e.perVcpu {
      for v := 0 to |e.vcpus|
        invariant r == e.(remaining := Left(HeartbeatAge(e, now), timeout), vcpus := r.vcpus) && |r.vcpus| == |e.vcpus|
        invariant forall u :: 0 <= u < |e.vcpus| ==>
                    r.vcpus[u] == if u < v then SavedVcpu(e, u, now, timeout) else e.vcpus[u]
      {
        if v in e.expected {
          var a := VcpuAge(e, v, now);
          r := r.(vcpus := r.vcpus[v := r.vcpus[v].(remaining := if a < timeout then timeout - a else 0)]);
        }
      }
    }
    r := r.(epoch := epoch, suspendedAt := now, suspended := true);
  }

  /** `vm_wdt_resume_entry_locked`. */
  method Restore(e: Entry, now: nat, timeout: nat) returns (r: Entry)
    requires TimesLeft(e, timeout)
    ensures IsRestored(e, r, now, timeout)
    ensures TimesLeft(r, timeout)
  {
    var base := Base(e.remaining, now, timeout);
    r := if !e.started then e.(start := base) else e.(last := base);
    ghost var r0 := r;
    if e.perVcpu {
      for v := 0 to |e.vcpus|
        invariant r == r0.(vcpus := r.vcpus) && |r.vcpus| == |e.vcpus|
        invariant forall u :: 0 <= u < |e.vcpus| ==>
                    r.vcpus[u] == if u < v then RestoredVcpu(e, u, now, timeout) else e.vcpus[u]
      {
        if v in e.expected {
          var b := Base(r.vcpus[v].remaining, now, timeout);
          if v in e.begun {
            r := r.(vcpus := r.vcpus[v := r.vcpus[v].(last := b, remaining := 0)]);
          } else {
            r := r.(vcpus := r.vcpus[v := r.vcpus[v].(start := b, remaining := 0)]);
          }
        }
      }
    }
    if e.pending && e.recoveryStart != 0 {
      r := r.(recoveryStart := r.recoveryStart + Elapsed(now, e.suspendedAt));
    }
    r := r.(remaining := 0, epoch := 0, suspendedAt := 0, suspended := false);
  }

  /** Ages below the timeout come back exactly; others come back expired exactly when the clock is past it. */
  lemma AgeRoundTrip(age: nat, slept: nat, now: nat, timeout: nat)
    requires age <= slept <= now
    ensures var back := Elapsed(now, Base(Left(age, timeout), now, timeout));
            if age < timeout then back == age else (Expired(back, timeout) <==> now > timeout)
  {
  }

  /** What suspend followed by resume does to an entry. */
  ghost predicate RoundTrip(e: Entry, r: Entry, t0: nat, t1: nat, timeout: nat) {
    && r.perVcpu == e.perVcpu && r.expected == e.expected && r.begun == e.begun && |r.vcpus| == |e.vcpus|
    && (!e.perVcpu ==>
          if HeartbeatAge(e, t0) < timeout then HeartbeatAge(r, t1) == HeartbeatAge(e, t0)
          else Expired(HeartbeatAge(r, t1), timeout) <==> t1 > timeout)
    && (e.perVcpu ==> forall v :: v in e.expected && v < |e.vcpus| ==>
          if VcpuAge(e, v, t0) < timeout then VcpuAge(r, v, t1) == VcpuAge(e, v, t0)
          else Expired(VcpuAge(r, v, t1), timeout) <==> t1 > timeout)
  }

  /** Suspend and resume with no kick in between. */
  lemma SuspendResume(e: Entry, s: Entry, r: Entry, epoch: nat, t0: nat, t1: nat, timeout: nat)
    requires t0 <= t1 && IsSaved(e, s, epoch, t0, timeout) && TimesLeft(s, timeout) && IsRestored(s, r, t1, timeout)
    ensures RoundTrip(e, r, t0, t1, timeout)
  {
    if e.perVcpu {
      forall v | v in e.expected && v < |e.vcpus|
        ensures if VcpuAge(e, v, t0) < timeout then VcpuAge(r, v, t1) == VcpuAge(e, v, t0)
                else Expired(VcpuAge(r, v, t1), timeout) <==> t1 > timeout
      {
        assert s.vcpus[v] == SavedVcpu(e, v, t0, timeout);
        assert r.vcpus[v] == RestoredVcpu(s, v, t1, timeout);
        AgeRoundTrip(VcpuAge(e, v, t0), t0, t1, timeout);
      }
    } else {
      AgeRoundTrip(HeartbeatAge(e, t0), t0, t1, timeout);
    }
  }

  /** With every age below the timeout the age of the whole VM comes back too. */
  lemma {:induction false} MaxAgeKept(e: Entry, r: Entry, t0: nat, t1: nat, timeout: nat, n: nat)
    requires RoundTrip(e, r, t0, t1, timeout) && e.perVcpu && n <= |e.vcpus|
    requires forall v :: v in e.expected && v < |e.vcpus| ==> VcpuAge(e, v, t0) < timeout
    ensures MaxAge(r, t1, n) == MaxAge(e, t0, n)
  {
    if n > 0 {
      MaxAgeKept(e, r, t0, t1, timeout, n - 1);
    }
  }

  // ---------------------------------------------------------------------- recovery

  /** A restart is pending exactly while the recovery state is not idle, and then has a generation. Every
      claim since the VM was last powered off is counted as one restart once it has ended, and claims stay
      within the maximum; a failure is a restart. */
  predicate RecoveryOk(e: Entry, claims: nat) {
    && (e.pending <==> e.state != Idle) && (e.pending <==> e.generation != 0)
    && e.restarts + (if e.pending then 1 else 0) == claims <= RESTART_MAX
    && e.failures <= e.restarts
  }

  /** The end of a recovery, whichever way it went. */
  function Ended(e: Entry, success: bool): Entry {
    e.(pending := false, state := Idle, generation := 0, recoveryStart := 0, resetDone := false, resetRet := 0,
       restarts := e.restarts + 1, failures := if success then e.failures else e.failures + 1)
  }

  /** `vm_wdt_heartbeat_started`. */
  predicate HeartbeatStarted(e: Entry) {
    if e.perVcpu then e.expected != {} && e.expected <= e.begun else e.started
  }

  predicate Healthy(e: Entry) { HeartbeatStarted(e) && (!e.perVcpu || e.stalled == {}) }

  /** `vm_wdt_sync_expected_vcpus_locked`: running vCPUs are expected, paused ones stay so. */
  function Synced(e: Entry, running: set<nat>, paused: set<nat>, now: nat): Entry {
    if !e.perVcpu then e
    else
      var kept := set v | v in e.expected && (v in running || v in paused);
      var added := set v | v in running && v < |e.vcpus| && v !in e.expected;
      e.(expected := kept + added, begun := e.begun - (e.expected - kept), stalled := e.stalled - (e.expected - kept),
         vcpus := seq(|e.vcpus|, v requires 0 <= v < |e.vcpus| =>
                    if v in e.expected && v !in kept then NO_VCPU
                    else if v in added then e.vcpus[v].(start := now) else e.vcpus[v]))
  }

  lemma {:induction false} AgeOfStamps(e: Entry, e': Entry, now: nat, n: nat)
    requires n <= |e.vcpus| && e'.vcpus == e.vcpus && e'.begun == e.begun && e'.expected == e.expected
    ensures MaxAge(e', now, n) == MaxAge(e, now, n)
  {
    if n > 0 {
      AgeOfStamps(e, e', now, n - 1);
    }
  }

  /** The heartbeat differs, the recovery does not. */
  predicate SameRecovery(e: Entry, r: Entry) {
    && (r.pending, r.state, r.generation, r.recoveryStart) == (e.pending, e.state, e.generation, e.recoveryStart)
    && (r.restarts, r.failures) == (e.restarts, e.failures)
  }

  predicate SameSuspend(e: Entry, r: Entry) {
    (r.suspended, r.epoch, r.suspendedAt) == (e.suspended, e.epoch, e.suspendedAt)
  }

  /** The per-vCPU part of a kick; a repeated token is turned down. */
  method KickVcpu(e0: Entry, v: nat, token: nat, running: set<nat>, paused: set<nat>, now: nat, timeout: nat)
    returns (e: Entry, ok: bool)
    requires v < |e0.vcpus|
    ensures TimesLeft(e0, timeout) ==> TimesLeft(e, timeout)
    ensures SameRecovery(e0, e) && SameSuspend(e0, e) && e.perVcpu && |e.vcpus| == |e0.vcpus| && v in e.expected
    ensures ok ==> v in e.begun && e.vcpus[v].last == now && e.vcpus[v].token == token && v !in e.stalled
    ensures ok ==> e.last == now && e.started && e.token == token
    ensures !ok ==> e0.perVcpu && v in e.begun && e.vcpus[v].token == token
  {
    e := ExpectVcpu(e0, v, running, paused, now, timeout);
    if v in e.begun && e.vcpus[v].token == token {
      return e, false;
    }
    e := e.(vcpus := e.vcpus[v := e.vcpus[v].(last := now, token := token)], begun := e.begun + {v},
            last := now, started := true, token := token);
    e := e.(stalled := Stalled(e, now, timeout));
    return e, true;
  }

  /** Switch to per-vCPU kicks if need be, and expect them of `v`. */
  method ExpectVcpu(e0: Entry, v: nat, running: set<nat>, paused: set<nat>, now: nat, timeout: nat) returns (e: Entry)
    requires v < |e0.vcpus|
    ensures TimesLeft(e0, timeout) ==> TimesLeft(e, timeout)
    ensures SameRecovery(e0, e) && SameSuspend(e0, e) && e.perVcpu && |e.vcpus| == |e0.vcpus| && v in e.expected
    ensures v in e.begun ==> e0.perVcpu && v in e0.begun
  {
    e := e0;
    if !e.perVcpu {
      e := e.(expected := {}, begun := {}, stalled := {}, vcpus := seq(|e.vcpus|, _ => NO_VCPU), perVcpu := true);
    }
    e := Synced(e, running, paused, now);
    if v !in e.expected {
      e := e.(expected := e.expected + {v}, vcpus := e.vcpus[v := e.vcpus[v].(start := now)]);
    }
  }

  /** The heartbeat has expired, and with per-vCPU kicks some vCPU has stalled. */
  predicate Dead(e: Entry, now: nat, timeout: nat) {
    Expired(HeartbeatAge(e, now), timeout) && (!e.perVcpu || Stalled(e, now, timeout) != {})
  }

  // -------------------------------------------------------------- the polling thread

  /** Where the watchdog thread stands in a poll of VM `vm`, between two sections under the lock, and
      what it remembers: the generation it saw, and what `pause_vm_async` still waits for. */
  datatype Poller =
    | AtRest
    | Looked(vm: nat, state: Recovery, gen: nat)
    | Asked(vm: nat, gen: nat, wait: set<nat>)
    | Begun(vm: nat, gen: nat)
    | Failing(vm: nat, gen: nat)
    | Launching(vm: nat, gen: nat)

  /** What the thread meets outside the lock: is the VM there and running, what does the pause wait for,
      is the reset queued, and what time is it. */
  datatype Answers = Answers(valid: bool, wait: set<nat>, queued: bool, now: nat)

  function Resetting0(e: Entry, now: nat): Entry {
    e.(state := Resetting, recoveryStart := now, resetRet := 0, resetDone := false)
  }

  function Verifying0(e: Entry, now: nat): Entry {
    e.(state := Verifying, recoveryStart := now, resetDone := false, resetRet := 0)
  }

  predicate Late(e: Entry, now: nat, limit: nat) { Elapsed(now, e.recoveryStart) > limit }

  /** The next section of a poll: where the thread stands after it. */
  function NextStop(p: Poller, e: Entry, a: Answers, quiesceLimit: nat, verifyLimit: nat): Poller {
    match p
    case AtRest => AtRest
    case Looked(vm, Idle, _) => AtRest
    case Looked(vm, Quiescing, gen) => if a.valid then Asked(vm, gen, a.wait) else Failing(vm, gen)
    case Looked(vm, Resetting, gen) =>
      if e.state == Resetting && e.resetDone then (if e.resetRet != 0 then Failing(vm, gen) else Launching(vm, gen))
      else AtRest
    case Looked(vm, Verifying, gen) => if e.state == Verifying && Late(e, a.now, verifyLimit) then Failing(vm, gen)
                                       else AtRest
    case Asked(vm, gen, wait) =>
      if wait == {} then (if e.state == Quiescing then Begun(vm, gen) else AtRest)
      else if e.state == Quiescing && Late(e, a.now, quiesceLimit) then Failing(vm, gen) else AtRest
    case Begun(vm, gen) => if a.queued then AtRest else Failing(vm, gen)
    case Failing(_, _) => AtRest
    case Launching(_, _) => AtRest
  }

  /** ... and what it makes of the entry. */
  function NextEntry(p: Poller, e: Entry, now: nat): Entry {
    match p
    case Asked(_, _, wait) => if wait == {} && e.state == Quiescing then Resetting0(e, now) else e
    case Failing(_, _) => if e.pending then Ended(e, false) else e
    case Launching(_, _) =>
      if e.state != Resetting then e else if Healthy(e) then Ended(e, true) else Verifying0(e, now)
    case _ => e
  }

  /** What a whole poll makes of an entry that nobody else touches meanwhile. */
  function Polled(e: Entry, a: Answers, quiesceLimit: nat, verifyLimit: nat): Entry {
    match e.state
    case Idle => e
    case Quiescing =>
      if !a.valid || (a.wait == {} && !a.queued) || (a.wait != {} && Late(e, a.now, quiesceLimit)) then Ended(e, false)
      else if a.wait == {} then Resetting0(e, a.now)
      else e
    case Resetting =>
      if !e.resetDone then e
      else if e.resetRet != 0 then Ended(e, false)
      else if Healthy(e) then Ended(e, true)
      else Verifying0(e, a.now)
    case Verifying => if Late(e, a.now, verifyLimit) then Ended(e, false) else e
  }

  /** The thread still has the recovery it looked at in hand: if one is pending it is that one, and a
      reset is only begun, or has been begun, for a generation whose pause waited for nobody. */
  ghost predicate PollerOk(p: Poller, entries: seq<Entry>, quiet: set<nat>) {
    p == AtRest ||
    (&& p.vm < |entries| && (entries[p.vm].pending ==> entries[p.vm].generation == p.gen)
     && ((p.Asked? && p.wait == {}) || p.Begun? ==> p.gen in quiet))
  }

  /** Generations are never used twice. */
  ghost predicate GenerationsOk(entries: seq<Entry>, generations: nat, quiet: set<nat>) {
    && (forall vm :: 0 <= vm < |entries| ==> entries[vm].generation <= generations)
    && (forall vm, vm' :: 0 <= vm < vm' < |entries| && entries[vm].pending && entries[vm'].pending ==>
          entries[vm].generation != entries[vm'].generation)
    && (forall g :: g in quiet ==> g <= generations)
  }

  ghost predicate ResetsOk(entries: seq<Entry>, quiet: set<nat>) {
    forall vm :: 0 <= vm < |entries| && (entries[vm].state == Resetting || entries[vm].state == Verifying) ==>
      entries[vm].generation in quiet
  }

  /** A system-wide suspend holds the entries it finds suspended. */
  ghost predicate HeldOk(entries: seq<Entry>, all: Option<Hold>) {
    all.Some? ==> forall vm :: 0 <= vm < |entries| && entries[vm].suspended ==>
      entries[vm].epoch == all.value.epoch && entries[vm].suspendedAt == all.value.at
  }

  datatype Hold = Hold(epoch: nat, at: nat)

  ghost predicate EntriesOk(entries: seq<Entry>, claims: seq<nat>, timeout: nat) {
    && |claims| == |entries|
    && forall vm :: 0 <= vm < |entries| ==> RecoveryOk(entries[vm], claims[vm]) && TimesLeft(entries[vm], timeout)
  }

  ghost predicate AllOk(entries: seq<Entry>, claims: seq<nat>, timeout: nat, generations: nat, quiet: set<nat>,
                        poller: Poller,
                        all: Option<Hold>) {
    && EntriesOk(entries, claims, timeout) && GenerationsOk(entries, generations, quiet) && ResetsOk(entries, quiet)
    && PollerOk(poller, entries, quiet) && HeldOk(entries, all)
  }

  /** One entry changes, keeping its generation or ending its recovery. */
  lemma OneEntry(entries: seq<Entry>, claims: seq<nat>, timeout: nat, generations: nat, quiet: set<nat>, poller: Poller,
                 all: Option<Hold>, vm: nat, e: Entry)
    requires AllOk(entries, claims, timeout, generations, quiet, poller, all) && vm < |entries|
    requires RecoveryOk(e, claims[vm]) && TimesLeft(e, timeout)
    requires e.pending ==> entries[vm].pending && e.generation == entries[vm].generation
    requires e.state == Resetting || e.state == Verifying ==> e.generation in quiet
    requires e.suspended && all.Some? ==> e.epoch == all.value.epoch && e.suspendedAt == all.value.at
    ensures AllOk(entries[vm := e], claims, timeout, generations, quiet, poller, all)
  {
    hide RecoveryOk, TimesLeft;
    RecoveryParts(e, claims[vm]);
    RecoveryParts(entries[vm], claims[vm]);
    assert EntriesOk(entries[vm := e], claims, timeout);
  }

  lemma RecoveryParts(e: Entry, claims: nat)
    requires RecoveryOk(e, claims)
    ensures e.pending <==> e.generation != 0
    ensures e.pending <==> e.state != Idle
  {
  }

  /** The thread's own step: the entry changes as `NextEntry` says, the thread moves to `NextStop`. */
  lemma SectionOk(p: Poller, entries: seq<Entry>, claims: seq<nat>, timeout: nat, generations: nat, quiet: set<nat>,
                  all: Option<Hold>,
                  a: Answers, quiesceLimit: nat)
    requires AllOk(entries, claims, timeout, generations, quiet, p, all) && !p.AtRest?
    ensures var e := entries[p.vm];
            var quiet' := if p.Looked? && p.state == Quiescing && a.valid && a.wait == {} then quiet + {p.gen}
                          else quiet;
            p.gen <= generations ==>
              AllOk(entries[p.vm := NextEntry(p, e, a.now)], claims, timeout, generations, quiet',
                    NextStop(p, e, a, quiesceLimit, timeout), all)
  {
    var e := entries[p.vm];
    var e' := NextEntry(p, e, a.now);
    var quiet' := if p.Looked? && p.state == Quiescing && a.valid && a.wait == {} then quiet + {p.gen} else quiet;
    if p.gen <= generations {
      QuietMore(entries, claims, timeout, generations, quiet, quiet', p, all);
      SectionEntry(p, e, claims[p.vm], a.now, timeout);
      hide RecoveryOk, TimesLeft, NextEntry;
      OneEntry(entries, claims, timeout, generations, quiet', p, all, p.vm, e');
    }
  }

  lemma QuietMore(entries: seq<Entry>, claims: seq<nat>, timeout: nat, generations: nat, quiet: set<nat>,
                  quiet': set<nat>, poller: Poller,
                  all: Option<Hold>)
    requires AllOk(entries, claims, timeout, generations, quiet, poller, all) && quiet <= quiet'
    requires forall g :: g in quiet' ==> g <= generations
    ensures AllOk(entries, claims, timeout, generations, quiet', poller, all)
  {
  }

  /** Every section keeps the count, and a generation while one is pending. */
  lemma SectionEntry(p: Poller, e: Entry, claims: nat, now: nat, timeout: nat)
    requires RecoveryOk(e, claims) && TimesLeft(e, timeout)
    ensures var e' := NextEntry(p, e, now);
            && RecoveryOk(e', claims) && TimesLeft(e', timeout)
            && (e'.pending ==> e.pending && e'.generation == e.generation)
            && (e'.state == Resetting || e'.state == Verifying ==>
                  e.state == Resetting || e.state == Verifying || (p.Asked? && p.wait == {} && e.pending))
            && (e'.suspended, e'.epoch, e'.suspendedAt) == (e.suspended, e.epoch, e.suspendedAt)
  {
  }

  class Watchdog {
    const timeout: nat
    const quiesceLimit: nat
    var entries: seq<Entry>
    var generations: nat
    /** The system-wide suspend in force, and where the watchdog thread stands. */
    var all: Option<Hold>
    var poller: Poller
    /** Claims of each VM since it was last powered off; generations whose pause waited for nobody. */
    ghost var claims: seq<nat>
    ghost var quiet: set<nat>

    ghost predicate Valid()
      reads this
    {
      AllOk(entries, claims, timeout, generations, quiet, poller, all)
      && (!poller.AtRest? ==> poller.gen <= generations)
    }

    constructor (vms: nat, vcpus: nat, timeout: nat, quiesceLimit: nat)
      ensures Valid() && |entries| == vms && this.timeout == timeout && poller == AtRest && all == None && quiet == {}
      ensures forall vm :: 0 <= vm < vms ==> |entries[vm].vcpus| == vcpus && !entries[vm].pending && claims[vm] == 0
    {
      this.timeout, this.quiesceLimit := timeout, quiesceLimit;
      entries := seq(vms, _ => Entry(false, Idle, 0, 0, false, 0, 0, 0, 0, 0, 0, false, 0, false, {}, {}, {},
                                     seq(vcpus, _ => NO_VCPU), false, 0, 0));
      generations, all, poller, claims, quiet := 0, None, AtRest, seq(vms, _ => 0), {};
    }

    /** Every claim since power-off that has ended is one restart, at most one is under way, and a VM that is
        being reset, or has been, was quiet: the pause for this very recovery waited for nobody. */
    ghost predicate Recovered(vm: nat)
      requires vm < |entries| && vm < |claims|
      reads this
    {
      && claims[vm] == entries[vm].restarts + (if entries[vm].pending then 1 else 0) <= RESTART_MAX
      && entries[vm].failures <= entries[vm].restarts
      && (entries[vm].state == Resetting || entries[vm].state == Verifying ==> entries[vm].generation in quiet)
    }

    /** What the invariant says about one entry. */
    lemma EntryParts(vm: nat)
      requires Valid() && vm < |entries|
      ensures |claims| == |entries| && RecoveryOk(entries[vm], claims[vm]) && TimesLeft(entries[vm], timeout)
      ensures entries[vm].state == Resetting || entries[vm].state == Verifying ==> entries[vm].generation in quiet
      ensures entries[vm].suspended && all.Some? ==>
                entries[vm].epoch == all.value.epoch && entries[vm].suspendedAt == all.value.at
    {
    }

    method Put(vm: nat, e: Entry)
      requires vm < |entries| && Valid() && RecoveryOk(e, claims[vm]) && TimesLeft(e, timeout)
      requires e.pending ==> entries[vm].pending && e.generation == entries[vm].generation
      requires e.state == Resetting || e.state == Verifying ==> e.generation in quiet
      requires e.suspended && all.Some? ==> e.epoch == all.value.epoch && e.suspendedAt == all.value.at
      modifies this`entries
      ensures Valid() && entries == old(entries)[vm := e]
    {
      OneEntry(entries, claims, timeout, generations, quiet, poller, all, vm, e);
      entries := entries[vm := e];
    }

    /** `vm_wdt_claim_restart`, by the watchdog thread between two polls: at most one restart at a time,
        and no more than the maximum. */
    method ClaimRestart(vm: nat, running: set<nat>, paused: set<nat>, enabled: bool, now: nat) returns (claimed: bool)
      requires Valid() && vm < |entries| && poller == AtRest
      modifies this`entries, this`generations, this`claims
      ensures Valid() && |entries| == |old(entries)| && entries == old(entries)[vm := entries[vm]]
      ensures claimed <==> enabled && !old(entries)[vm].pending && old(entries)[vm].restarts < RESTART_MAX
                           && Dead(Synced(old(entries)[vm], running, paused, now), now, timeout)
      ensures claimed ==> entries[vm].state == Quiescing && entries[vm].recoveryStart == now && !entries[vm].resetDone
      ensures claimed ==> entries[vm].generation == generations > old(generations) && generations !in quiet
      ensures vm < |old(claims)| && claims == old(claims)[vm := old(claims)[vm] + (if claimed then 1 else 0)]
      ensures !claimed ==>
                entries[vm].pending == old(entries)[vm].pending && entries[vm].state == old(entries)[vm].state
      ensures entries[vm].restarts == old(entries)[vm].restarts && entries[vm].failures == old(entries)[vm].failures
      ensures SameSuspend(old(entries)[vm], entries[vm])
    {
      EntryParts(vm);
      assert claims[vm := claims[vm]] == claims;
      hide AllOk, TimesLeft, Synced, HeartbeatAge, Dead;
      if !enabled {
        return false;
      }
      var e := SyncedAndStalled(entries[vm], running, paused, now);
      claimed := !e.pending && e.restarts < RESTART_MAX && Expired(HeartbeatAge(e, now), timeout)
                 && (!e.perVcpu || e.stalled != {});
      if claimed {
        PutClaimed(vm, e, now);
      } else {
        Put(vm, e);
      }
    }

    method PutClaimed(vm: nat, e: Entry, now: nat)
      requires Valid() && vm < |entries| && poller == AtRest && SameRecovery(entries[vm], e)
               && SameSuspend(entries[vm], e)
      requires TimesLeft(e, timeout) && !e.pending && e.restarts < RESTART_MAX
      modifies this`entries, this`generations, this`claims
      ensures Valid() && generations == old(generations) + 1 && generations !in quiet
      ensures entries == old(entries)[vm := Claimed(e, now, generations)]
      ensures vm < |old(claims)| && claims == old(claims)[vm := old(claims)[vm] + 1]
    {
      EntryParts(vm);
      hide AllOk, TimesLeft;
      ClaimedOk(entries, claims, timeout, generations, quiet, all, vm, e, now);
      generations := generations + 1;
      claims := claims[vm := claims[vm] + 1];
      entries := entries[vm := Claimed(e, now, generations)];
    }

    /** The expected vCPUs, and with per-vCPU kicks the stalled ones, brought up to date. */
    method SyncedAndStalled(e0: Entry, running: set<nat>, paused: set<nat>, now: nat) returns (e: Entry)
      requires TimesLeft(e0, timeout)
      ensures SameRecovery(e0, e) && TimesLeft(e, timeout) && SameSuspend(e0, e)
      ensures (Expired(HeartbeatAge(e, now), timeout) && (!e.perVcpu || e.stalled != {})) <==>
                Dead(Synced(e0, running, paused, now), now, timeout)
    {
      e := Synced(e0, running, paused, now);
      if e.perVcpu {
        AgeOfStamps(e, e.(stalled := Stalled(e, now, timeout)), now, |e.vcpus|);
        e := e.(stalled := Stalled(e, now, timeout));
      }
    }

    /** The first section of `vm_wdt_process_recovery`: the thread notes state and generation. */
    method Look(vm: nat)
      requires Valid() && vm < |entries| && poller == AtRest
      modifies this`poller
      ensures Valid() && poller == Looked(vm, entries[vm].state, entries[vm].generation)
    {
      poller := Looked(vm, entries[vm].state, entries[vm].generation);
    }

    /** The next section of the poll, whatever has happened since the last one: `vm_wdt_begin_reset`,
        `vm_wdt_update_quiesce`, `vm_wdt_claim_reset_completion`, `vm_wdt_start_verification`,
        `vm_wdt_verify_timed_out`, `vm_wdt_complete_recovery`, or what the thread does between them. */
    method Advance(a: Answers)
      requires Valid() && poller != AtRest
      modifies this`entries, this`poller, this`quiet
      ensures Valid()
      ensures var p := old(poller);
              && p.vm < |old(entries)| && entries == old(entries)[p.vm := NextEntry(p, old(entries)[p.vm], a.now)]
              && poller == NextStop(p, old(entries)[p.vm], a, quiesceLimit, timeout)
              && quiet == old(quiet) + (if p.Looked? && p.state == Quiescing && a.valid && a.wait == {} then {p.gen}
                                        else {})
      ensures var e, e' := old(entries)[old(poller).vm], entries[old(poller).vm];
              e.state == Quiescing && e'.state == Resetting ==>
                && old(poller) == Asked(old(poller).vm, e.generation, {}) && e.generation in old(quiet)
    {
      hide RecoveryOk, TimesLeft, GenerationsOk, ResetsOk, HeldOk;
      SectionOk(poller, entries, claims, timeout, generations, quiet, all, a, quiesceLimit);
      var vm, e := poller.vm, entries[poller.vm];
      var next := NextStop(poller, e, a, quiesceLimit, timeout);
      RecoveryParts(e, claims[vm]);
      match poller {
        case Looked(_, Quiescing, gen) =>
          if a.valid && a.wait == {} {
            quiet := quiet + {gen};
          }
        case Asked(_, _, wait) =>
          if wait == {} && e.pending && e.state == Quiescing {
            entries := entries[vm := e.(state := Resetting, recoveryStart := a.now, resetRet := 0, resetDone := false)];
          }
        case Failing(_, _) =>
          if e.pending {
            entries := entries[vm := Ended(e, false)];
          }
        case Launching(_, _) =>
          if e.pending && e.state == Resetting {
            e := e.(resetDone := false, resetRet := 0);
            if HeartbeatStarted(e) && (!e.perVcpu || e.stalled == {}) {
              e := Ended(e, true);
            } else {
              e := e.(state := Verifying, recoveryStart := a.now);
            }
            entries := entries[vm := e];
          }
        case _ =>
      }
      poller := next;
      assert entries == old(entries)[vm := NextEntry(old(poller), old(entries)[vm], a.now)];
    }

    /** `vm_wdt_process_recovery` undisturbed: its sections in a row. */
    method ProcessRecovery(vm: nat, a: Answers) returns (pending: bool)
      requires Valid() && vm < |entries| && poller == AtRest
      modifies this`entries, this`poller, this`quiet
      ensures Valid() && poller == AtRest && pending == entries[vm].pending
      ensures entries == old(entries)[vm := Polled(old(entries)[vm], a, quiesceLimit, timeout)]
      ensures quiet == old(quiet) + Noted(old(entries)[vm], a)
    {
      hide Valid, AllOk;
      PendingIff(vm);
      Look(vm);
      Advance(a);
      for i := 0 to 3
        invariant Valid() && |entries| == |old(entries)|
        invariant quiet == old(quiet) + Noted(old(entries)[vm], a)
        invariant Remaining(poller, old(entries), entries, vm, a, quiesceLimit, timeout, 3 - i)
      {
        if poller != AtRest {
          Advance(a);
        }
      }
      pending := entries[vm].pending;
    }

    lemma SameLength()
      requires Valid()
      ensures |claims| == |entries| && (!poller.AtRest? ==> poller.vm < |entries|)
    {
    }

    lemma PendingIff(vm: nat)
      requires Valid() && vm < |entries|
      ensures entries[vm].pending <==> entries[vm].state != Idle
    {
    }

    /** `vm_wdt_restart_complete`: only the first report of a reset is taken. */
    method RestartComplete(vm: nat, ret: int)
      requires Valid() && vm < |entries|
      modifies this`entries
      ensures Valid()
      ensures var e := old(entries)[vm];
              var r := if e.state == Resetting && !e.resetDone then e.(resetRet := ret, resetDone := true) else e;
              entries == old(entries)[vm := r]
    {
      if entries[vm].pending && entries[vm].state == Resetting && !entries[vm].resetDone {
        Put(vm, entries[vm].(resetRet := ret, resetDone := true));
      }
    }

    /** `vm_wdt_kick`: a kick in verification that makes the VM healthy ends the recovery well. */
    method Kick(vm: nat, v: nat, token: nat, perVcpu: bool, running: set<nat>, paused: set<nat>,
                now: nat) returns (ok: bool)
      requires Valid() && vm < |entries| && v < |entries[vm].vcpus|
      modifies this`entries
      ensures Valid() && |entries| == |old(entries)| && entries == old(entries)[vm := entries[vm]]
      ensures !perVcpu ==> ok == !old(entries)[vm].perVcpu && (!ok ==> entries == old(entries))
      ensures ok ==> entries[vm].last == now && entries[vm].started && entries[vm].token == token
      ensures ok && perVcpu ==>
                |entries[vm].vcpus| > v && v in entries[vm].begun && entries[vm].vcpus[v].last == now
                && v !in entries[vm].stalled
      ensures entries[vm].restarts ==
              old(entries)[vm].restarts + (if old(entries)[vm].pending && !entries[vm].pending then 1 else 0)
      ensures entries[vm].failures == old(entries)[vm].failures && SameSuspend(old(entries)[vm], entries[vm])
      ensures old(entries)[vm].pending && !entries[vm].pending ==>
                ok && old(entries)[vm].state == Verifying && Healthy(entries[vm])
      ensures ok && old(entries)[vm].state == Verifying ==> (entries[vm].pending <==> !Healthy(entries[vm]))
    {
      hide GenerationsOk, PollerOk;
      var e := entries[vm];
      if !perVcpu {
        if e.perVcpu {
          return false;
        }
        e := e.(last := now, started := true, token := token);
      } else {
        e, ok := KickVcpu(e, v, token, running, paused, now, timeout);
        if !ok {
          Put(vm, e);
          return false;
        }
      }
      if e.pending && e.state == Verifying && HeartbeatStarted(e) && (!e.perVcpu || e.stalled == {}) {
        e := Ended(e, true);
      }
      Put(vm, e);
      return true;
    }

    /** `vm_wdt_reset`: a VM that was powered off loses its history, any other keeps its recovery. */
    method ResetVm(vm: nat, powerOff: bool, now: nat)
      requires Valid() && vm < |entries|
      modifies this`entries, this`claims
      ensures Valid() && |entries| == |old(entries)| && entries == old(entries)[vm := entries[vm]]
      ensures |claims| == |entries| == |old(claims)| && claims == if powerOff then old(claims)[vm := 0] else old(claims)
      ensures var e, r := old(entries)[vm], entries[vm];
              if powerOff then !r.pending && r.restarts == 0 && r.failures == 0
              else
                (r.pending, r.state, r.generation, r.restarts, r.failures) ==
                (e.pending, e.state, e.generation, e.restarts, e.failures)
      ensures HeartbeatAge(entries[vm], now) == 0 && !HeartbeatStarted(entries[vm]) && !entries[vm].suspended
    {
      var e := entries[vm];
      var pending := !powerOff && e.pending;
      var r := Entry(pending, if pending then e.state else Idle, if pending then e.generation else 0,
                     if pending then e.recoveryStart else 0, pending && e.resetDone, if pending then e.resetRet else 0,
                     if powerOff then 0 else e.restarts, if powerOff then 0 else e.failures,
                     now, 0, 0, false, 0, false, {}, {}, {}, seq(|e.vcpus|, _ => NO_VCPU), false, 0, 0);
      if powerOff {
        HistoryCleared(entries, claims, timeout, generations, quiet, poller, all, vm, r);
        claims := claims[vm := 0];
        entries := entries[vm := r];
      } else {
        Put(vm, r);
      }
    }

    /** `vm_wdt_pm_suspend_vm`: refused during a system-wide suspend, while a restart is pending, or when
        another epoch holds the entry. */
    method SuspendVm(vm: nat, epoch: nat, running: set<nat>, paused: set<nat>, now: nat) returns (ok: bool)
      requires Valid() && vm < |entries|
      modifies this`entries
      ensures Valid() && |entries| == |old(entries)| && entries == old(entries)[vm := entries[vm]]
      ensures SameRecovery(old(entries)[vm], entries[vm])
      ensures ok <==> epoch != 0 && all == None
                      && (if old(entries)[vm].suspended then old(entries)[vm].epoch == epoch
                          else !old(entries)[vm].pending)
      ensures ok ==> entries[vm].suspended && entries[vm].epoch == epoch
      ensures ok && !old(entries)[vm].suspended ==>
                IsSaved(Synced(old(entries)[vm], running, paused, now), entries[vm], epoch, now, timeout)
      ensures !ok || old(entries)[vm].suspended ==> entries == old(entries)
    {
      var e := entries[vm];
      if epoch == 0 || all.Some? {
        return false;
      }
      if e.suspended {
        return e.epoch == epoch;
      }
      if e.pending {
        return false;
      }
      var r := Save(Synced(e, running, paused, now), epoch, now, timeout);
      Put(vm, r);
      return true;
    }

    /** `vm_wdt_pm_resume_vm`. */
    method ResumeVm(vm: nat, epoch: nat, now: nat) returns (ok: bool)
      requires Valid() && vm < |entries|
      modifies this`entries
      ensures Valid() && |entries| == |old(entries)| && entries == old(entries)[vm := entries[vm]]
      ensures ok <==> epoch != 0 && (old(entries)[vm].suspended ==> old(entries)[vm].epoch == epoch)
      ensures ok ==> !entries[vm].suspended
      ensures TimesLeft(old(entries)[vm], timeout)
      ensures if ok && old(entries)[vm].suspended then IsRestored(old(entries)[vm], entries[vm], now, timeout)
              else entries == old(entries)
      ensures (entries[vm].pending, entries[vm].state, entries[vm].restarts, entries[vm].failures) ==
              (old(entries)[vm].pending, old(entries)[vm].state, old(entries)[vm].restarts, old(entries)[vm].failures)
    {
      var e := entries[vm];
      if epoch == 0 {
        return false;
      }
      if !e.suspended {
        return true;
      }
      if e.epoch != epoch {
        return false;
      }
      var r := Restore(e, now, timeout);
      Put(vm, r);
      return true;
    }

    /** `vm_wdt_pm_suspend`: the system-wide suspend takes every entry, with a restart pending or not. */
    method SuspendAll(epoch: nat, running: seq<set<nat>>, paused: seq<set<nat>>, now: nat) returns (ok: bool)
      requires Valid() && |running| == |paused| == |entries|
      modifies this`entries, this`all
      ensures Valid() && |entries| == |old(entries)|
      ensures ok <==> epoch != 0 && (old(all).Some? ==> old(all).value.epoch == epoch)
      ensures if ok && old(all) == None
              then && all == Some(Hold(epoch, now))
                   && forall vm :: 0 <= vm < |entries| ==>
                        IsSaved(Synced(old(entries)[vm], running[vm], paused[vm], now), entries[vm], epoch, now,
                                timeout)
                        && SameRecovery(old(entries)[vm], entries[vm])
              else entries == old(entries) && all == old(all)
    {
      if epoch == 0 {
        return false;
      }
      if all.Some? {
        return all.value.epoch == epoch;
      }
      ghost var entries0 := entries;
      var next: seq<Entry> := [];
      for vm := 0 to |entries|
        invariant |next| == vm && entries == entries0 && all == old(all)
        invariant forall k :: 0 <= k < vm ==> TimesLeft(next[k], timeout) && SameRecovery(entries0[k], next[k])
        invariant forall k :: 0 <= k < vm ==>
                    IsSaved(Synced(entries0[k], running[k], paused[k], now), next[k], epoch, now, timeout)
      {
        SyncedTimes(entries[vm], running[vm], paused[vm], now, timeout);
        var r := Save(Synced(entries[vm], running[vm], paused[vm], now), epoch, now, timeout);
        next := next + [r];
      }
      all := Some(Hold(epoch, now));
      AllReplaced(entries0, next, claims, timeout, generations, quiet, poller, old(all), all);
      entries := next;
      return true;
    }

    /** `vm_wdt_pm_resume`: refused, leaving everything as it is, unless every entry is still held by this
        epoch. */
    method ResumeAll(epoch: nat, now: nat) returns (ok: bool)
      requires Valid()
      modifies this`entries, this`all
      ensures Valid() && |entries| == |old(entries)|
      ensures ok <==> epoch != 0 && (old(all).Some? ==> old(all).value.epoch == epoch && AllHeld(old(entries), epoch))
      ensures forall vm :: 0 <= vm < |entries| ==> TimesLeft(old(entries)[vm], timeout)
      ensures if ok && old(all).Some?
              then all == None && forall vm :: 0 <= vm < |entries| ==>
                     IsRestored(old(entries)[vm], entries[vm], now, timeout)
              else entries == old(entries) && all == old(all)
    {
      hide GenerationsOk, ResetsOk, RecoveryOk, PollerOk;
      if epoch == 0 {
        return false;
      }
      if all.None? {
        return true;
      }
      if all.value.epoch != epoch {
        return false;
      }
      for vm := 0 to |entries|
        invariant forall k :: 0 <= k < vm ==> entries[k].suspended && entries[k].epoch == epoch
      {
        if !entries[vm].suspended || entries[vm].epoch != epoch {
          return false;
        }
      }
      ghost var entries0 := entries;
      var next: seq<Entry> := [];
      for vm := 0 to |entries|
        invariant |next| == vm && entries == entries0 && all == old(all)
        invariant forall k :: 0 <= k < vm ==>
                    TimesLeft(next[k], timeout) && IsRestored(entries0[k], next[k], now, timeout)
      {
        var r := Restore(entries[vm], now, timeout);
        next := next + [r];
      }
      all := None;
      AllReplaced(entries0, next, claims, timeout, generations, quiet, poller, old(all), all);
      entries := next;
      return true;
    }

    /** The system-wide suspend no longer holds every entry. */
    ghost predicate Stuck()
      reads this
    {
      all.Some? && !AllHeld(entries, all.value.epoch)
    }

    lemma StuckEntry() returns (u: nat)
      requires Valid() && Stuck()
      ensures u < |entries| && !entries[u].suspended
    {
      u :| 0 <= u < |entries| && !(entries[u].suspended && entries[u].epoch == all.value.epoch);
    }

    /** Any interleaving of the locked sections, for any VMs: the sections of a poll are steps of their own.
        A claim or a new poll of the watchdog thread waits until its poll is over. */
    method Run(ops: seq<Op>)
      requires Valid()
      modifies this
      ensures Valid() && |claims| == |entries| == |old(entries)|
      ensures forall vm :: 0 <= vm < |entries| ==> Recovered(vm)
      ensures old(Stuck()) ==> Stuck() && all == old(all)
    {
      for i := 0 to |ops|
        invariant Valid() && |entries| == |old(entries)| && (old(Stuck()) ==> Stuck() && all == old(all))
      {
        hide AllOk, AllHeld;
        Do(ops[i]);
      }
    }

    /** Only a claim adds to a VM's claims, only power-off drops them, and a generation is only noted as quiet
        when the pause asked for it waits for nobody. A system-wide suspend that lost an entry is never left. */
    method Do(op: Op)
      requires Valid()
      modifies this
      ensures Valid() && |entries| == |old(entries)| && Accounted(op, old(entries), old(claims), entries, claims)
      ensures quiet == old(quiet) ||
              (op.Section? && op.answers.valid && op.answers.wait == {} && old(poller).Looked?
               && quiet == old(quiet) + {old(poller).gen})
      ensures old(Stuck()) ==> Stuck() && all == old(all)
    {
      ghost var u := 0;
      if Stuck() {
        u := StuckEntry();
      }
      SameLength();
      hide AllOk, NextEntry, NextStop, IsSaved, IsRestored, Synced, TimesLeft, SameRecovery;
      if op.Section? {
        if poller != AtRest {
          SectionSuspend(poller, entries[poller.vm], op.answers.now);
          Advance(op.answers);
        }
      } else if op.SuspendedAll? {
        if |op.runnings| == |op.pauseds| == |entries| {
          var _ := SuspendAll(op.epoch, op.runnings, op.pauseds, op.now);
        }
      } else if op.ResumedAll? {
        var _ := ResumeAll(op.epoch, op.now);
      } else if op.vm < |entries| {
        DoVm(op, u);
      }
    }

    /** An operation on one VM. */
    method DoVm(op: Op, ghost u: nat)
      requires Valid() && !op.Section? && !op.SuspendedAll? && !op.ResumedAll? && op.vm < |entries|
      modifies this`entries, this`generations, this`claims, this`poller
      ensures Valid() && |entries| == |old(entries)| && Accounted(op, old(entries), old(claims), entries, claims)
      ensures all.Some? && u < |entries| && !old(entries)[u].suspended ==> !entries[u].suspended
    {
      SameLength();
      hide AllOk, IsSaved, IsRestored, Synced, Dead, TimesLeft, SameRecovery, HeartbeatAge, HeartbeatStarted, Healthy;
      match op {
        case Claim(vm, running, paused, enabled, now) =>
          if poller == AtRest {
            var _ := ClaimRestart(vm, running, paused, enabled, now);
          }
        case Poll(vm) =>
          if poller == AtRest {
            Look(vm);
          }
        case ResetReported(vm, ret) => RestartComplete(vm, ret);
        case Kicked(vm, v, token, perVcpu, running, paused, now) =>
          if v < |entries[vm].vcpus| {
            var _ := Kick(vm, v, token, perVcpu, running, paused, now);
          }
        case VmReset(vm, powerOff, now) => ResetVm(vm, powerOff, now);
        case Suspended(vm, epoch, running, paused, now) => var _ := SuspendVm(vm, epoch, running, paused, now);
        case Resumed(vm, epoch, now) => var _ := ResumeVm(vm, epoch, now);
      }
    }
  }

  /** A VM's claims change by a claim, which leaves a restart pending, or by power-off. */
  ghost predicate Accounted(op: Op, entries0: seq<Entry>, claims0: seq<nat>, entries: seq<Entry>, claims: seq<nat>) {
    && |claims| == |claims0| == |entries| == |entries0|
    && forall vm :: 0 <= vm < |claims| ==>
         || claims[vm] == claims0[vm]
         || (op.Claim? && op.vm == vm && claims[vm] == claims0[vm] + 1 && !entries0[vm].pending && entries[vm].pending)
         || (op.VmReset? && op.vm == vm && op.powerOff && claims[vm] == 0)
  }

  /** A VM reset while the system-wide suspend holds is no longer held by it, and the resume is refused. */
  method ResetWhileHeld() returns (w: Watchdog, ok: bool)
    ensures fresh(w) && w.Valid() && !ok && w.all == Some(Hold(1, 5)) && !AllHeld(w.entries, 1)
  {
    w := new Watchdog(1, 1, 10, 10);
    ok := w.SuspendAll(1, [{}], [{}], 5);
    w.ResetVm(0, false, 6);
    assert !w.entries[0].suspended;
    ok := w.ResumeAll(1, 7);
  }

  datatype Op =
    | Claim(vm: nat, running: set<nat>, paused: set<nat>, enabled: bool, now: nat)
    | Poll(vm: nat) | Section(answers: Answers)
    | ResetReported(vm: nat, ret: int)
    | Kicked(vm: nat, v: nat, token: nat, perVcpu: bool, running: set<nat>, paused: set<nat>, now: nat)
    | VmReset(vm: nat, powerOff: bool, now: nat)
    | Suspended(vm: nat, epoch: nat, running: set<nat>, paused: set<nat>, now: nat)
    | Resumed(vm: nat, epoch: nat, now: nat)
    | SuspendedAll(epoch: nat, runnings: seq<set<nat>>, pauseds: seq<set<nat>>, now: nat)
    | ResumedAll(epoch: nat, now: nat)

  lemma SectionSuspend(p: Poller, e: Entry, now: nat)
    ensures SameSuspend(e, NextEntry(p, e, now))
  {
  }

  ghost predicate AllHeld(entries: seq<Entry>, epoch: nat) {
    forall vm :: 0 <= vm < |entries| ==> entries[vm].suspended && entries[vm].epoch == epoch
  }

  function Claimed(e: Entry, now: nat, gen: nat): Entry {
    e.(pending := true, state := Quiescing, recoveryStart := now, generation := gen, resetRet := 0, resetDone := false)
  }

  lemma ClaimedOk(entries: seq<Entry>, claims: seq<nat>, timeout: nat, generations: nat, quiet: set<nat>,
                  all: Option<Hold>, vm: nat, e: Entry, now: nat)
    requires AllOk(entries, claims, timeout, generations, quiet, AtRest, all) && vm < |entries|
    requires SameRecovery(entries[vm], e) && SameSuspend(entries[vm], e) && TimesLeft(e, timeout) && !e.pending
             && e.restarts < RESTART_MAX
    ensures AllOk(entries[vm := Claimed(e, now, generations + 1)], claims[vm := claims[vm] + 1], timeout,
                  generations + 1, quiet, AtRest, all)
    ensures generations + 1 !in quiet
  {
    assert TimesLeft(Claimed(e, now, generations + 1), timeout);
    hide TimesLeft;
  }

  lemma HistoryCleared(entries: seq<Entry>, claims: seq<nat>, timeout: nat, generations: nat, quiet: set<nat>,
                       poller: Poller,
                       all: Option<Hold>, vm: nat, e: Entry)
    requires AllOk(entries, claims, timeout, generations, quiet, poller, all) && vm < |entries|
    requires RecoveryOk(e, 0) && TimesLeft(e, timeout) && !e.pending && !e.suspended
    ensures AllOk(entries[vm := e], claims[vm := 0], timeout, generations, quiet, poller, all)
  {
    hide TimesLeft;
  }

  lemma SyncedTimes(e: Entry, running: set<nat>, paused: set<nat>, now: nat, timeout: nat)
    requires TimesLeft(e, timeout)
    ensures TimesLeft(Synced(e, running, paused, now), timeout) && SameRecovery(e, Synced(e, running, paused, now))
  {
  }

  /** All entries change at once, none its recovery but perhaps its clock. */
  lemma AllReplaced(entries: seq<Entry>, next: seq<Entry>, claims: seq<nat>, timeout: nat, generations: nat,
                    quiet: set<nat>, poller: Poller,
                    all: Option<Hold>, all': Option<Hold>)
    requires AllOk(entries, claims, timeout, generations, quiet, poller, all) && |next| == |entries|
    requires forall k :: 0 <= k < |entries| ==> TimesLeft(next[k], timeout)
    requires forall k :: 0 <= k < |entries| ==>
               (next[k].pending, next[k].state, next[k].generation, next[k].restarts, next[k].failures) ==
               (entries[k].pending, entries[k].state, entries[k].generation, entries[k].restarts, entries[k].failures)
    requires HeldOk(next, all')
    ensures AllOk(next, claims, timeout, generations, quiet, poller, all')
  {
    hide TimesLeft;
  }

  /** The generation an undisturbed poll notes as quiet. */
  function Noted(e: Entry, a: Answers): set<nat> {
    if e.state == Quiescing && a.valid && a.wait == {} then {e.generation} else {}
  }

  /** After so many more sections of an undisturbed poll the entry is what `Polled` says. */
  ghost predicate Remaining(p: Poller, entries0: seq<Entry>, entries: seq<Entry>, vm: nat, a: Answers,
                            quiesceLimit: nat, verifyLimit: nat, n: nat) {
    && vm < |entries0| == |entries| && (p == AtRest || p.vm == vm) && entries == entries0[vm := entries[vm]]
    && (match p
        case AtRest => entries[vm] == Polled(entries0[vm], a, quiesceLimit, verifyLimit)
        case Looked(_, _, _) => false
        case Asked(_, _, wait) =>
          n >= 3 && entries[vm] == entries0[vm] && entries0[vm].state == Quiescing && a.valid && wait == a.wait
        case Begun(_, _) =>
          && n >= 2 && entries0[vm].state == Quiescing && entries0[vm].pending && a.valid && a.wait == {}
          && entries[vm] == Resetting0(entries0[vm], a.now)
        case Failing(_, _) =>
          && n >= 1 && entries[vm].pending
          && Ended(entries[vm], false) == Polled(entries0[vm], a, quiesceLimit, verifyLimit)
        case Launching(_, _) =>
          && n >= 1 && entries[vm] == entries0[vm]
          && entries0[vm].state == Resetting && entries0[vm].resetDone && entries0[vm].resetRet == 0)
  }
}
