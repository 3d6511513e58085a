/** Fixed major and minor frames of the ARINC 653 policy. */
module Arinc653 {
  import opened Arithmetic
  import opened Common

  const MAX_ENTRIES := 64

  // ---------------------------------------------------------- configuration check

  /** `us_to_ticks` at a tick rate in kHz. */
  function Ticks(us: nat, khz: nat): nat { us * khz / 1000 }

  datatype Entry = Entry(runtimeUs: nat, vm: nat, vcpu: nat)

  function TotalUs(es: seq<Entry>): nat { if es == [] then 0 else TotalUs(es[..|es| - 1]) + es[|es| - 1].runtimeUs }

  /** The runtimes in ticks, each rounded down on its own. */
  function Runtimes(es: seq<Entry>, khz: nat): (r: seq<nat>)
    ensures |r| == |es| && forall i :: 0 <= i < |es| ==> r[i] == Ticks(es[i].runtimeUs, khz)
  {
    if es == [] then [] else Runtimes(es[..|es| - 1], khz) + [Ticks(es[|es| - 1].runtimeUs, khz)]
  }

  /** When the window of entry `i` starts, counted from the frame. */
  function Prefix(r: seq<nat>, i: nat): nat
    requires i <= |r|
  {
    if i == 0 then 0 else Prefix(r, i - 1) + r[i - 1]
  }

  predicate EntryOk(e: Entry, khz: nat, maxVcpus: nat) {
    e.runtimeUs != 0 && Ticks(e.runtimeUs, khz) != 0 && e.vm < MAX_VM_NUM && e.vcpu < maxVcpus
  }

  predicate ConfigOk(es: seq<Entry>, majorUs: nat, khz: nat, maxVcpus: nat) {
    && majorUs != 0 && 0 < |es| <= MAX_ENTRIES && Ticks(majorUs, khz) != 0
    && (forall i :: 0 <= i < |es| ==> EntryOk(es[i], khz, maxVcpus))
    && TotalUs(es) <= majorUs
  }

  /** Rounding down window by window never overruns the rounded sum. */
  lemma TicksAdd(a: nat, b: nat, khz: nat)
    ensures Ticks(a, khz) + Ticks(b, khz) <= Ticks(a + b, khz)
  {
    assert (a + b) * khz == a * khz + b * khz;
    FloorAdd(a * khz, b * khz);
  }

  lemma FloorAdd(x: nat, y: nat)
    ensures x / 1000 + y / 1000 <= (x + y) / 1000
  {
  }

  lemma {:induction false} WindowsFit(es: seq<Entry>, khz: nat)
    ensures Prefix(Runtimes(es, khz), |es|) <= Ticks(TotalUs(es), khz)
  {
    if es != [] {
      var n := |es| - 1;
      WindowsFit(es[..n], khz);
      TicksAdd(TotalUs(es[..n]), es[n].runtimeUs, khz);
      PrefixOfPrefix(Runtimes(es[..n], khz), [Ticks(es[n].runtimeUs, khz)], n);
    }
  }

  lemma {:induction false} PrefixOfPrefix(a: seq<nat>, b: seq<nat>, i: nat)
    requires i <= |a|
    ensures Prefix(a + b, i) == Prefix(a, i)
  {
    if i > 0 {
      PrefixOfPrefix(a, b, i - 1);
    }
  }

  /** An accepted configuration has windows that are not empty and fit into the frame. */
  lemma AcceptedFits(es: seq<Entry>, majorUs: nat, khz: nat, maxVcpus: nat)
    requires ConfigOk(es, majorUs, khz, maxVcpus)
    ensures FrameOk(Runtimes(es, khz), Ticks(majorUs, khz))
  {
    WindowsFit(es, khz);
    TicksAdd(TotalUs(es), majorUs - TotalUs(es), khz);
  }

  lemma {:induction false} TotalGrows(es: seq<Entry>, n: nat)
    requires n <= |es|
    ensures TotalUs(es[..n]) <= TotalUs(es)
    decreases |es| - n
  {
    if n < |es| {
      TotalGrows(es, n + 1);
      assert es[..n + 1][..n] == es[..n];
    } else {
      assert es[..n] == es;
    }
  }

  /** `arinc653_validate_config`. */
  method ValidateConfig(es: seq<Entry>, majorUs: nat, khz: nat, maxVcpus: nat) returns (valid: bool, major: nat)
    ensures valid <==> ConfigOk(es, majorUs, khz, maxVcpus)
    ensures valid ==> major == Ticks(majorUs, khz) && FrameOk(Runtimes(es, khz), major)
  {
    major := 0;
    if majorUs == 0 || |es| == 0 || |es| > MAX_ENTRIES {
      return false, major;
    }
    major := Ticks(majorUs, khz);
    if major == 0 {
      return false, major;
    }
    valid := true;
    var total, i := 0, 0;
    while i < |es| && valid
      invariant 0 <= i <= |es|
      invariant valid ==> total == TotalUs(es[..i]) <= majorUs && forall j :: 0 <= j < i ==>
                  EntryOk(es[j], khz, maxVcpus)
      invariant !valid ==> !ConfigOk(es, majorUs, khz, maxVcpus)
    {
      TotalGrows(es, i + 1);
      assert es[..i + 1][..i] == es[..i];
      if es[i].runtimeUs == 0 || Ticks(es[i].runtimeUs, khz) == 0 || es[i].vm >= MAX_VM_NUM || es[i].vcpu >= maxVcpus {
        valid := false;
      } else {
        total := total + es[i].runtimeUs;
        valid := total <= majorUs;
      }
      i := i + 1;
    }
    assert es[..|es|] == es;
    if valid {
      AcceptedFits(es, majorUs, khz, maxVcpus);
    }
  }

  // -------------------------------------------------------- what a frame looks like

  ghost predicate FrameOk(r: seq<nat>, major: nat) {
    && 0 < |r| <= MAX_ENTRIES && major > 0
    && (forall i :: 0 <= i < |r| ==> r[i] > 0)
    && Prefix(r, |r|) <= major
  }

  /** The window `off` ticks into the frame falls into; `|r|` is the idle tail. */
  function IndexFrom(r: seq<nat>, off: nat, i: nat): (k: nat)
    requires i <= |r|
    ensures i <= k <= |r|
    decreases |r| - i
  {
    if i == |r| || off < Prefix(r, i + 1) then i else IndexFrom(r, off, i + 1)
  }

  function FrameAt(major: nat, origin: nat, now: nat): (f: nat)
    requires major > 0 && origin <= now
    ensures f <= now < f + major
  {
    DivMod(now - origin, major);
    now - (now - origin) % major
  }

  function IndexAt(r: seq<nat>, major: nat, origin: nat, now: nat): nat
    requires major > 0 && origin <= now
  {
    IndexFrom(r, now - FrameAt(major, origin, now), 0)
  }

  /** The next change of window: the end of this one, or of the frame in the idle tail. */
  function ChangeAt(r: seq<nat>, major: nat, origin: nat, now: nat): nat
    requires major > 0 && origin <= now
  {
    var f, k := FrameAt(major, origin, now), IndexAt(r, major, origin, now);
    if k < |r| then f + Prefix(r, k + 1) else f + major
  }

  lemma {:induction false} PrefixMonotone(r: seq<nat>, i: nat, j: nat)
    requires i <= j <= |r|
    ensures Prefix(r, i) <= Prefix(r, j)
    decreases j
  {
    if i < j {
      PrefixMonotone(r, i, j - 1);
    }
  }

  /** The index is the one window whose interval contains the offset, or the tail behind them all. */
  lemma {:induction false} IndexIsWindow(r: seq<nat>, off: nat, i: nat, k: nat)
    requires i <= k <= |r| && Prefix(r, i) <= off
    ensures k == IndexFrom(r, off, i) <==> Prefix(r, k) <= off && (k < |r| ==> off < Prefix(r, k + 1))
    decreases |r| - i
  {
    if i < |r| && off >= Prefix(r, i + 1) {
      if k > i {
        IndexIsWindow(r, off, i + 1, k);
      }
    } else if k > i {
      PrefixMonotone(r, i + 1, k);
    }
  }

  lemma IndexUnique(r: seq<nat>, off: nat, k: nat)
    requires k <= |r| && Prefix(r, k) <= off && (k < |r| ==> off < Prefix(r, k + 1))
    ensures IndexFrom(r, off, 0) == k
  {
    IndexIsWindow(r, off, 0, k);
  }

  /** Every frame starts a whole number of major frames after the first one. */
  lemma FrameCongruent(major: nat, origin: nat, now: nat)
    requires major > 0 && origin <= now
    ensures origin <= FrameAt(major, origin, now) && (FrameAt(major, origin, now) - origin) % major == 0
  {
    ModTaken(now - origin, major);
  }

  lemma FrameUnique(major: nat, origin: nat, now: nat, f: nat)
    requires major > 0 && origin <= f <= now < f + major && (f - origin) % major == 0
    ensures FrameAt(major, origin, now) == f
  {
    DivMod(f - origin, major);
    DivUnique(now - origin, major, (f - origin) / major, now - f);
  }

  lemma ChangeAhead(r: seq<nat>, major: nat, origin: nat, now: nat)
    requires FrameOk(r, major) && origin <= now
    ensures now < ChangeAt(r, major, origin, now)
  {
    IndexIsWindow(r, now - FrameAt(major, origin, now), 0, IndexAt(r, major, origin, now));
  }

  /** Until the change the frame and the window stay; at the change one of them is a new one. */
  lemma ChangeIsNext(r: seq<nat>, major: nat, origin: nat, now: nat, t: nat)
    requires FrameOk(r, major) && origin <= now <= t <= ChangeAt(r, major, origin, now)
    ensures (FrameAt(major, origin, t), IndexAt(r, major, origin, t)) ==
            (FrameAt(major, origin, now), IndexAt(r, major, origin, now))
            <==> t < ChangeAt(r, major, origin, now)
  {
    hide Prefix;
    var f, k, c := FrameAt(major, origin, now), IndexAt(r, major, origin, now), ChangeAt(r, major, origin, now);
    IndexIsWindow(r, now - f, 0, k) by { PrefixZero(r); }
    FrameCongruent(major, origin, now);
    if k < |r| {
      PrefixMonotone(r, k + 1, |r|);
    }
    if t < f + major {
      FrameUnique(major, origin, t, f);
      IndexIsWindow(r, t - f, 0, k) by { PrefixZero(r); }
    }
  }

  lemma PrefixZero(r: seq<nat>)
    ensures Prefix(r, 0) == 0
  {
  }

  // --------------------------------------------------------------------- the policy

  datatype State = State(frameStart: nat, nextMajor: nat, index: nat, nextSwitch: nat)

  /** The state the policy has at `now` when its first frame started at `origin`. */
  function StateAt(r: seq<nat>, major: nat, origin: nat, now: nat): State
    requires major > 0 && origin <= now && 0 < |r|
  {
    var f, k := FrameAt(major, origin, now), IndexAt(r, major, origin, now);
    State(f, f + major, k, f + Prefix(r, if k < |r| then k + 1 else k))
  }

  class Arinc {
    var runtimes: seq<nat>
    var major: nat
    var frameStart: nat
    var nextMajor: nat
    var index: nat
    var nextSwitch: nat
    var suspended: bool
    /** When the schedule started, and the latest time it has been advanced to. */
    ghost var origin: nat
    ghost var at: nat

    function S(): State
      reads this
    {
      State(frameStart, nextMajor, index, nextSwitch)
    }

    /** No schedule, not started yet, or in the state of the latest time seen. */
    ghost predicate Valid()
      reads this
    {
      runtimes == [] || (FrameOk(runtimes, major) && (nextMajor == 0 || Current()))
    }

    ghost predicate Current()
      requires FrameOk(runtimes, major)
      reads this
    {
      origin <= at && S() == StateAt(runtimes, major, origin, at)
    }

    constructor ()
      ensures Valid() && runtimes == [] && !suspended
    {
      runtimes, major, suspended := [], 0, false;
      frameStart, nextMajor, index, nextSwitch := 0, 0, 0, 0;
      origin, at := 0, 0;
    }

    /** `sched_arinc653_set_schedule`: an accepted schedule starts its first frame at once, any other
        leaves the one there is. */
    method SetSchedule(es: seq<Entry>, majorUs: nat, khz: nat, maxVcpus: nat, now: nat) returns (ok: bool)
      requires Valid()
      modifies this
      ensures Valid() && suspended == old(suspended)
      ensures ok <==> ConfigOk(es, majorUs, khz, maxVcpus)
      ensures ok ==>
                runtimes == Runtimes(es, khz) && major == Ticks(majorUs, khz) && nextMajor != 0 && origin == at == now
      ensures !ok ==> (runtimes, major, origin, at) == old((runtimes, major, origin, at)) && S() == old(S())
    {
      var ticks;
      ok, ticks := ValidateConfig(es, majorUs, khz, maxVcpus);
      if ok {
        runtimes, major := Runtimes(es, khz), ticks;
        StartFrame(now);
      }
    }

    /** `arinc653_start_frame`: the grid of frames starts anew at `f`. */
    method StartFrame(f: nat)
      requires FrameOk(runtimes, major)
      modifies this`frameStart, this`nextMajor, this`index, this`nextSwitch, this`origin, this`at
      ensures Valid() && nextMajor != 0 && origin == at == f && S() == StateAt(runtimes, major, f, f)
      ensures frameStart == f && Reached(runtimes, 0, index)
    {
      frameStart := f;
      nextMajor := f + major;
      index := 0;
      nextSwitch := f + runtimes[0];
      origin, at := f, f;
      assert Prefix(runtimes, 1) == Prefix(runtimes, 0) + runtimes[0];
      FrameUnique(major, f, f, f);
      IndexUnique(runtimes, 0, 0);
    }

    /** `sched_arinc653_suspend`. */
    method Suspend()
      requires Valid()
      modifies this`suspended
      ensures Valid() && suspended
    {
      suspended := true;
    }

    /** `sched_arinc653_resume`: the frames start anew, whatever was missed. */
    method Resume(now: nat)
      requires Valid()
      modifies this`suspended, this`frameStart, this`nextMajor, this`index, this`nextSwitch, this`origin, this`at
      ensures Valid() && !suspended && (runtimes != [] ==> nextMajor != 0 && origin == at == now)
    {
      suspended := false;
      if |runtimes| != 0 {
        StartFrame(now);
      }
    }

    /** `arinc653_advance`. Whatever calls came before, the state is that of `now` on the grid of the
        first frame, and the deadline is the next change of window; a clock that steps back within the
        frame changes nothing. */
    method Advance(now: nat) returns (valid: bool, deadline: nat)
      requires Valid()
      modifies this`frameStart, this`nextMajor, this`index, this`nextSwitch, this`origin, this`at
      ensures Valid() && (valid <==> runtimes != []) && (!valid ==> deadline == 0 && S() == old(S()))
      ensures valid ==> nextMajor != 0 && origin <= at && S() == StateAt(runtimes, major, origin, at)
      ensures valid ==> now < deadline == ChangeAt(runtimes, major, origin, at)
      ensures valid ==> if Restarts(old(nextMajor), old(frameStart), now) then origin == at == now
                        else origin == old(origin) && at == Later(old(at), now)
    {
      if |runtimes| == 0 {
        return false, 0;
      }
      Resync(now);
      ChangeAhead(runtimes, major, origin, at);
      WalkWindows(now);
      deadline := if index < |runtimes| then nextSwitch else nextMajor;
      valid := deadline > now;
    }

    /** `sched_arinc653_pick_next`: only the owner of the window `now` falls into may run, and only if it
        can; otherwise the pCPU idles, up to the next change of window. */
    method PickNext(now: nat, owners: seq<Option<Tid>>, canRun: Tid -> bool) returns (next: Option<Tid>, deadline: nat)
      requires Valid() && |owners| == |runtimes|
      modifies this`frameStart, this`nextMajor, this`index, this`nextSwitch, this`origin, this`at
      ensures Valid() && (suspended || runtimes == [] ==> next == None && deadline == 0 && S() == old(S()))
      ensures !suspended && runtimes != [] ==>
        && origin <= at && at == (if Restarts(old(nextMajor), old(frameStart), now) then now else Later(old(at), now))
        && origin == (if Restarts(old(nextMajor), old(frameStart), now) then now else old(origin))
        && FrameOk(runtimes, major) && deadline == ChangeAt(runtimes, major, origin, at)
        && var k := IndexAt(runtimes, major, origin, at);
           forall t :: next == Some(t) <==> k < |owners| && owners[k] == Some(t) && canRun(t)
    {
      next, deadline := None, 0;
      if !suspended {
        var valid;
        valid, deadline := Advance(now);
        if valid && index < |runtimes| && owners[index].Some? && canRun(owners[index].value) {
          next := owners[index];
        }
      }
    }

    ghost function Now(): View
      reads this
    {
      View(runtimes, major, nextMajor, frameStart, suspended, origin, at)
    }

    /** Any calls in a row. While the grid is not started anew, whatever was asked in between and when, the
        owner of the window on that grid is chosen if it can run, and nobody else. */
    method Run(ops: seq<Op>) returns (choices: seq<Option<Tid>>, ghost hist: seq<View>)
      requires Valid()
      modifies this
      ensures Valid() && |choices| == |ops| && |hist| == |ops| + 1 && hist[0] == old(Now()) && hist[|ops|] == Now()
      ensures forall k :: 0 <= k < |ops| ==> Followed(hist[k], ops[k], hist[k + 1], choices[k])
    {
      hide Valid, Followed;
      choices, hist := [], [Now()];
      for n := 0 to |ops|
        invariant Valid() && |choices| == n && |hist| == n + 1 && hist[0] == old(Now()) && hist[n] == Now()
        invariant forall k :: 0 <= k < n ==> Followed(hist[k], ops[k], hist[k + 1], choices[k])
      {
        var choice := Do(ops[n]);
        choices, hist := choices + [choice], hist + [Now()];
      }
    }

    method Do(op: Op) returns (choice: Option<Tid>)
      requires Valid()
      modifies this
      ensures Valid() && Followed(old(Now()), op, Now(), choice)
    {
      hide ConfigOk, FrameAt, IndexAt;
      choice := None;
      match op {
        case SetSchedule(es, majorUs, khz, maxVcpus, now) => var _ := SetSchedule(es, majorUs, khz, maxVcpus, now);
        case Suspend => Suspend();
        case Resume(now) => Resume(now);
        case PickNext(now, owners, canRun) =>
          if |owners| == |runtimes| {
            var deadline;
            choice, deadline := PickNext(now, owners, canRun);
          }
      }
    }

    /** The frame of `at`, and a window that `at` has reached. */
    ghost predicate InFrame()
      reads this
    {
      && FrameOk(runtimes, major) && origin <= at
      && frameStart == FrameAt(major, origin, at) && nextMajor == frameStart + major
      && Reached(runtimes, at - frameStart, index)
      && nextSwitch == frameStart + Prefix(runtimes, if index < |runtimes| then index + 1 else index)
    }

    /** Start over, skip missed frames, or stay in this one. */
    method Resync(now: nat)
      requires Valid() && runtimes != []
      modifies this`frameStart, this`nextMajor, this`index, this`nextSwitch, this`origin, this`at
      ensures InFrame() && now <= at && (now < at ==> Current())
      ensures if Restarts(old(nextMajor), old(frameStart), now) then origin == at == now
              else origin == old(origin) && at == Later(old(at), now)
    {
      hide Prefix, FrameAt, IndexFrom;
      if nextMajor == 0 || now < frameStart {
        StartFrame(now);
        CurrentIsInFrame();
      } else if now >= nextMajor {
        var remainder := (now - nextMajor) % major;
        SameGrid(major, origin, at, now);
        frameStart := now - remainder;
        nextMajor := frameStart + major;
        index := 0;
        nextSwitch := frameStart + runtimes[0];
        at := now;
        FirstWindow(runtimes);
      } else if at <= now {
        SameFrame(runtimes, major, origin, at, now);
        at := now;
      } else {
        CurrentIsInFrame();
      }
    }

    lemma CurrentIsInFrame()
      requires FrameOk(runtimes, major) && Current()
      ensures InFrame()
    {
      IndexIsWindow(runtimes, at - FrameAt(major, origin, at), 0, IndexAt(runtimes, major, origin, at));
    }

    /** Past the windows that `now` has left behind; none if the clock has stepped back. */
    method WalkWindows(now: nat)
      requires InFrame() && now <= at && (now < at && index < |runtimes| ==> now < nextSwitch)
      modifies this`index, this`nextSwitch
      ensures if now < at then S() == old(S()) else Current()
    {
      hide Prefix, FrameAt, IndexFrom;
      var steps := 0;
      ghost var start := index;
      while index < |runtimes| && now >= nextSwitch && steps < MAX_ENTRIES
        modifies this`index, this`nextSwitch
        invariant start <= index == start + steps <= |runtimes|
        invariant InFrame() && (now < at ==> S() == old(S()))
      {
        NextWindow(runtimes, index);
        index := index + 1;
        steps := steps + 1;
        if index < |runtimes| {
          nextSwitch := nextSwitch + runtimes[index];
        }
      }
      if now == at {
        IndexUnique(runtimes, now - frameStart, index);
      }
    }
  }

  datatype Op =
    | SetSchedule(es: seq<Entry>, majorUs: nat, khz: nat, maxVcpus: nat, now: nat)
    | Suspend | Resume(now: nat) | PickNext(now: nat, owners: seq<Option<Tid>>, canRun: Tid -> bool)

  datatype View = View(runtimes: seq<nat>, major: nat, nextMajor: nat, frameStart: nat, suspended: bool, origin: nat,
                       at: nat)

  /** A call starts the grid anew, leaves it alone, or makes the choice that the grid says. */
  ghost predicate Followed(v: View, op: Op, v': View, choice: Option<Tid>) {
    match op
    case SetSchedule(es, majorUs, khz, maxVcpus, now) =>
      if ConfigOk(es, majorUs, khz, maxVcpus)
      then (v'.runtimes, v'.major, v'.origin, v'.at) == (Runtimes(es, khz), Ticks(majorUs, khz), now, now)
      else v' == v
    case Suspend => v' == v.(suspended := true)
    case Resume(now) =>
      !v'.suspended && (v'.runtimes, v'.major) == (v.runtimes, v.major)
      && (v.runtimes != [] ==> v'.origin == v'.at == now)
    case PickNext(now, owners, canRun) =>
      if |owners| != |v.runtimes| || v.suspended || v.runtimes == [] then choice == None && v'.suspended == v.suspended
      else
        && (v'.runtimes, v'.major, v'.suspended) == (v.runtimes, v.major, false) && v.major > 0 && v'.origin <= v'.at
        && v'.at == (if Restarts(v.nextMajor, v.frameStart, now) then now else Later(v.at, now))
        && v'.origin == (if Restarts(v.nextMajor, v.frameStart, now) then now else v.origin)
        && var k := IndexAt(v.runtimes, v.major, v'.origin, v'.at);
           forall t :: choice == Some(t) <==> k < |owners| && owners[k] == Some(t) && canRun(t)
  }

  function Later(a: nat, b: nat): nat { if a < b then b else a }

  /** The policy starts over when it has not started, or when the clock is before its frame. */
  predicate Restarts(nextMajor: nat, frameStart: nat, now: nat) { nextMajor == 0 || now < frameStart }

  lemma FirstWindow(r: seq<nat>)
    requires r != []
    ensures Prefix(r, 0) == 0 && Prefix(r, 1) == r[0]
  {
  }

  /** The frame is at least as far as the start of window `k`. */
  ghost predicate Reached(r: seq<nat>, off: nat, k: nat) { k <= |r| && Prefix(r, k) <= off }

  lemma NextWindow(r: seq<nat>, k: nat)
    requires k < |r|
    ensures k + 1 < |r| ==> Prefix(r, k + 2) == Prefix(r, k + 1) + r[k + 1]
  {
  }

  /** Jumping over missed frames lands on the same grid. */
  lemma SameGrid(major: nat, origin: nat, at: nat, now: nat)
    requires major > 0 && origin <= at && FrameAt(major, origin, at) + major <= now
    ensures var rem := (now - (FrameAt(major, origin, at) + major)) % major;
            rem <= now && now - rem == FrameAt(major, origin, now)
  {
    var f := FrameAt(major, origin, at);
    FrameCongruent(major, origin, at);
    var v := now - (f + major);
    DivMod(v, major);
    DivMod(f - origin, major);
    var q, p := v / major, (f - origin) / major;
    assert now - origin == major * (p + 1 + q) + v % major;
    DivUnique(now - origin, major, p + 1 + q, v % major);
  }

  lemma SameFrame(r: seq<nat>, major: nat, origin: nat, at: nat, now: nat)
    requires major > 0 && origin <= at <= now < FrameAt(major, origin, at) + major
    ensures FrameAt(major, origin, now) == FrameAt(major, origin, at)
    ensures Reached(r, now - FrameAt(major, origin, at), IndexAt(r, major, origin, at))
  {
    FrameCongruent(major, origin, at);
    FrameUnique(major, origin, now, FrameAt(major, origin, at));
    IndexIsWindow(r, at - FrameAt(major, origin, at), 0, IndexAt(r, major, origin, at));
  }
}
