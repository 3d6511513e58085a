/**
 * The cross-CPU call mailbox, one load or store per step. The owner word lets one caller in at a time;
 * each pCPU handles one notification at a time, whenever it likes.
 */
module SmpCall {
  import opened Common

  datatype Box = Box(gen: nat, func: Option<nat>, data: nat)

  /** Where `kick_notification` stands, and what it has loaded. */
  datatype HPc = HIdle | HGen | HFunc | HData | HCheck | HRun | HRecheck | HRecheckBox | HClear

  datatype Handler = Handler(pc: HPc, g: nat, f: Option<nat>, d: nat)

  /** Where `smp_call_function_common` stands, from the acquired owner word to its release. */
  datatype CPc =
    | CGen | CActive | CMask | CVisit | CLoad(p: nat) | CStore(p: nat, m: set<nat>)
    | CFunc(p: nat) | CData(p: nat) | CPublish(p: nat)
    | CWait | CRevoke | CClear | CClearFunc(p: nat) | CClearData(p: nat) | CZero | CRelease

  /** `live` are the targets found active (or the caller itself) when they were visited. */
  datatype Call = Call(
    self: nat, targets: set<nat>, func: nat, data: nat, gen: nat, pc: CPc, todo: set<nat>, live: set<nat>,
    timedOut: bool)

  /** `ran` is history: the pCPUs that ran this call's function on this call's data. */
  datatype World = World(
    mask: set<nat>, next: nat, active: nat, boxes: map<nat, Box>, handlers: map<nat, Handler>, call: Option<Call>,
    ran: set<nat>)

  function BoxOf(w: World, p: nat): Box { if p in w.boxes then w.boxes[p] else Box(0, None, 0) }

  function HandlerOf(w: World, q: nat): Handler {
    if q in w.handlers then w.handlers[q] else Handler(HIdle, 0, None, 0)
  }

  datatype Step =
    | Acquire(self: nat, targets: set<nat>, func: nat, data: nat)
    | Go | Visit(p: nat, isActive: bool) | Timeout | ClearBox(p: nat)
    | Handle(q: nat)

  // ----------------------------------------------------------------------- handler

  function SetHandler(w: World, q: nat, h: Handler): World { w.(handlers := w.handlers[q := h]) }

  /** The next step of the handler on `q`; an idle one takes a notification. */
  function HandlerStep(w: World, q: nat): World {
    var h := HandlerOf(w, q);
    match h.pc
    case HIdle => if q in w.mask then SetHandler(w, q, Handler(HGen, 0, None, 0)) else w
    case HGen => SetHandler(w, q, h.(g := BoxOf(w, q).gen, pc := HFunc))
    case HFunc => SetHandler(w, q, h.(f := BoxOf(w, q).func, pc := HData))
    case HData => SetHandler(w, q, h.(d := BoxOf(w, q).data, pc := HCheck))
    case HCheck => SetHandler(w, q, h.(pc := if h.g != 0 && h.g == w.active && h.f.Some? then HRun else HRecheck))
    case HRun =>
      SetHandler(if w.call.Some? && h.f == Some(w.call.value.func) && h.d == w.call.value.data
                 then w.(ran := w.ran + {q}) else w,
                 q, h.(pc := HRecheck))
    case HRecheck => SetHandler(w, q, h.(pc := if h.g != 0 && h.g == w.active then HRecheckBox else HIdle))
    case HRecheckBox => SetHandler(w, q, h.(pc := if h.g == BoxOf(w, q).gen then HClear else HIdle))
    case HClear => SetHandler(w.(mask := w.mask - {q}), q, h.(pc := HIdle))
  }

  // ------------------------------------------------------------------------ caller

  function SetCall(w: World, c: Call): World { w.(call := Some(c)) }

  function SetBox(w: World, p: nat, b: Box): World { w.(boxes := w.boxes[p := b]) }

  predicate CanStep(w: World, st: Step) {
    match st
    case Acquire(_, _, _, _) => w.call.None?
    case Handle(_) => true
    case Visit(p, _) => w.call.Some? && w.call.value.pc == CVisit && p in w.call.value.todo
    case ClearBox(p) => w.call.Some? && w.call.value.pc == CClear && p in w.call.value.todo
    case Timeout => w.call.Some? && w.call.value.pc == CWait
    case Go =>
      w.call.Some? &&
      (match w.call.value.pc
       case CVisit => w.call.value.todo == {}
       case CClear => w.call.value.todo == {}
       case CWait => w.mask == {}
       case _ => true)
  }

  function GoStep(w: World, c: Call): World {
    match c.pc
    case CGen => SetCall(w.(next := w.next + 1), c.(gen := w.next + 1, pc := CActive))
    case CActive => SetCall(w.(active := c.gen), c.(pc := CMask))
    case CMask => SetCall(w.(mask := c.targets), c.(pc := CVisit, todo := c.targets))
    case CVisit => SetCall(w, c.(pc := CWait))
    case CLoad(p) => SetCall(w, c.(pc := CStore(p, w.mask)))
    case CStore(p, m) => SetCall(w.(mask := m - {p}), c.(pc := CVisit))
    case CFunc(p) => SetCall(SetBox(w, p, BoxOf(w, p).(func := Some(c.func))), c.(pc := CData(p)))
    case CData(p) => SetCall(SetBox(w, p, BoxOf(w, p).(data := c.data)), c.(pc := CPublish(p)))
    case CPublish(p) => SetCall(SetBox(w, p, BoxOf(w, p).(gen := c.gen)), c.(pc := CVisit, live := c.live + {p}))
    case CWait => SetCall(w, c.(pc := CRevoke))
    case CRevoke => SetCall(w.(active := 0), c.(pc := CClear, todo := c.targets))
    case CClear => SetCall(w, c.(pc := if c.timedOut then CZero else CRelease))
    case CClearFunc(p) => SetCall(SetBox(w, p, BoxOf(w, p).(func := None)), c.(pc := CClearData(p)))
    case CClearData(p) => SetCall(SetBox(w, p, BoxOf(w, p).(data := 0)), c.(pc := CClear))
    case CZero => SetCall(w.(mask := {}), c.(pc := CRelease))
    case CRelease => w.(call := None)
  }

  function Next(w: World, st: Step): World
    requires CanStep(w, st)
  {
    match st
    case Acquire(self, targets, func, data) =>
      w.(call := Some(Call(self, targets, func, data, 0, CGen, {}, {}, false)), ran := {})
    case Go => GoStep(w, w.call.value)
    case Visit(p, isActive) =>
      var c := w.call.value.(todo := w.call.value.todo - {p});
      if p == c.self then SetCall(w.(ran := w.ran + {p}), c.(live := c.live + {p}, pc := CLoad(p)))
      else SetCall(w, c.(pc := if isActive then CFunc(p) else CLoad(p)))
    case Timeout => SetCall(w, w.call.value.(timedOut := true, pc := CRevoke))
    case ClearBox(p) =>
      SetCall(SetBox(w, p, BoxOf(w, p).(gen := 0)), w.call.value.(pc := CClearFunc(p), todo := w.call.value.todo - {p}))
    case Handle(q) => HandlerStep(w, q)
  }

  // --------------------------------------------------------------------- invariant

  /** Before the mask is published; while targets are told and awaited; while the mailbox is cleared. */
  predicate Early(c: Call) { c.pc == CGen || c.pc == CActive || c.pc == CMask }

  predicate Open(c: Call) {
    match c.pc
    case CVisit => true case CLoad(_) => true case CStore(_, _) => true
    case CFunc(_) => true case CData(_) => true case CPublish(_) => true case CWait => true
    case _ => false
  }

  predicate Clearing(c: Call) { c.pc == CClear || c.pc.CClearFunc? || c.pc.CClearData? }

  /** `q` is still to be visited, or just being told. */
  predicate Ahead(c: Call, q: nat) {
    q in c.todo || c.pc == CFunc(q) || c.pc == CData(q) || c.pc == CPublish(q)
  }

  ghost predicate CallOk(w: World, c: Call) {
    && c.gen <= w.next && (c.pc == CGen || 0 < c.gen)
    && c.live <= c.targets && c.todo <= c.targets
    && w.active == (if Open(c) || c.pc == CMask || c.pc == CRevoke then c.gen else 0)
    && (Early(c) ==> w.mask == {} && c.live == {} && !c.timedOut)
    && (Open(c) ==> !c.timedOut && c.todo !! c.live)
    && ((!Open(c) && !c.timedOut) || c.pc == CRelease ==> w.mask == {})
    && (c.pc.CStore? ==> w.mask <= c.pc.m)
    && (c.pc.CLoad? || c.pc.CStore? ==> c.pc.p !in c.todo && (c.pc.p == c.self || c.pc.p !in c.live))
    && (c.pc.CClearFunc? || c.pc.CClearData? ==> c.pc.p !in c.todo)
    && (c.pc.CFunc? || c.pc.CData? || c.pc.CPublish? ==>
          c.pc.p !in c.todo && c.pc.p in c.targets && c.pc.p != c.self && c.pc.p !in c.live)
  }

  /** The handler has loaded this call's generation. */
  predicate Mine(w: World, h: Handler) {
    w.call.Some? && w.call.value.pc != CGen && h.pc != HIdle && h.pc != HGen && h.g == w.call.value.gen
  }

  /** A handler of this call works for a told target whose bit is set, on this call's function and
      data, and has run them by the time it checks again. Only a handler of this call may clear. */
  ghost predicate HandlerOk(w: World, q: nat) {
    var h := HandlerOf(w, q);
    && h.g <= w.next && (h.pc == HRecheckBox ==> h.g != 0)
    && (h.pc == HClear ==> Mine(w, h))
    && (Mine(w, h) ==>
          var c := w.call.value;
          && q in c.live && q != c.self
          && (!c.timedOut ==>
                && q in w.mask
                && (h.pc != HFunc ==> h.f == Some(c.func))
                && (h.pc != HFunc && h.pc != HData ==> h.d == c.data)
                && (h.pc in {HRecheck, HRecheckBox, HClear} ==> q in w.ran)))
  }

  /** A mailbox with a generation is this call's, filled in, and not yet cleared. */
  ghost predicate BoxOk(w: World, q: nat) {
    var b := BoxOf(w, q);
    b.gen != 0 ==>
      && w.call.Some? && !Early(w.call.value) && b == Box(w.call.value.gen, Some(w.call.value.func), w.call.value.data)
      && q in w.call.value.live && q != w.call.value.self
      && (Open(w.call.value) || w.call.value.pc == CRevoke || (Clearing(w.call.value) && q in w.call.value.todo))
  }

  /** A told target keeps its bit until it has run the call. */
  ghost predicate TargetOk(w: World, q: nat) {
    w.call.Some? ==>
      var c := w.call.value;
      && (Open(c) && Ahead(c, q) ==> q in w.mask)
      && (c.pc == CData(q) || c.pc == CPublish(q) ==> BoxOf(w, q).func == Some(c.func))
      && (c.pc == CPublish(q) ==> BoxOf(w, q).data == c.data)
      && (c.self in c.live ==> c.self in w.ran)
      && ((Open(c) || c.pc == CRevoke) && q in c.live && q != c.self ==> BoxOf(w, q).gen == c.gen)
      && (!c.timedOut && q in c.live && q !in w.mask ==> q in w.ran)
      && (!c.timedOut && q in c.live && q != c.self && HandlerOf(w, q).pc != HIdle ==> q in w.mask)
  }

  ghost predicate CpuOk(w: World, q: nat) { HandlerOk(w, q) && BoxOk(w, q) && TargetOk(w, q) }

  ghost predicate Inv(w: World) {
    && CallerOk(w)
    && forall q {:trigger CpuOk(w, q)} :: CpuOk(w, q)
  }

  /** The owner word is given up after a timeout although a handler is past its last check. */
  ghost predicate Stranded(w: World, st: Step) {
    && st.Go? && w.call.Some? && w.call.value.pc == CRelease && w.call.value.timedOut
    && exists q :: HandlerOf(w, q).pc == HClear
  }

  /** The part of the invariant that is about the caller. */
  ghost predicate CallerOk(w: World) {
    if w.call.Some? then CallOk(w, w.call.value) else w.active == 0 && w.mask == {}
  }

  lemma CallerGo(w: World)
    requires CallerOk(w) && CanStep(w, Go)
    ensures CallerOk(GoStep(w, w.call.value))
  {
    hide CallOk, GoStep;
    if Open(w.call.value) {
      CallerGoOpen(w);
    } else {
      CallerGoElse(w);
    }
  }

  lemma CallerGoOpen(w: World)
    requires CallerOk(w) && CanStep(w, Go) && Open(w.call.value)
    ensures CallerOk(GoStep(w, w.call.value))
  {
    var c := w.call.value;
    match c.pc {
      case CFunc(p) =>
      case CData(p) =>
      case CPublish(p) =>
      case CLoad(p) =>
      case CStore(p, m) =>
      case _ =>
    }
  }

  lemma CallerGoElse(w: World)
    requires CallerOk(w) && CanStep(w, Go) && !Open(w.call.value)
    ensures CallerOk(GoStep(w, w.call.value))
  {
  }

  lemma CallerHandle(w: World, r: nat)
    requires Inv(w)
    ensures CallerOk(HandlerStep(w, r))
  {
    assert CpuOk(w, r);
  }

  lemma CallerOther(w: World, st: Step)
    requires Inv(w) && CanStep(w, st) && !st.Go? && !st.Handle?
    ensures CallerOk(Next(w, st))
  {
  }

  lemma HandlerGo(w: World, q: nat)
    requires Inv(w) && CanStep(w, Go) && !Stranded(w, Go)
    ensures HandlerOk(GoStep(w, w.call.value), q)
  {
    assert CpuOk(w, q);
  }

  lemma HandlerHandle(w: World, r: nat, q: nat)
    requires Inv(w)
    ensures HandlerOk(HandlerStep(w, r), q)
  {
    assert CpuOk(w, q) && CpuOk(w, r);
    hide Inv;
    if r == q {
      HandlerHandleSelf(w, q);
    }
  }

  lemma HandlerHandleSelf(w: World, q: nat)
    requires CpuOk(w, q) && CallerOk(w)
    ensures HandlerOk(HandlerStep(w, q), q)
  {
  }

  lemma HandlerOther(w: World, st: Step, q: nat)
    requires Inv(w) && CanStep(w, st) && !st.Go? && !st.Handle?
    ensures HandlerOk(Next(w, st), q)
  {
    assert CpuOk(w, q);
  }

  lemma BoxGo(w: World, q: nat)
    requires Inv(w) && CanStep(w, Go) && !Stranded(w, Go)
    ensures BoxOk(GoStep(w, w.call.value), q)
  {
    assert CpuOk(w, q);
  }

  lemma BoxHandle(w: World, r: nat, q: nat)
    requires Inv(w)
    ensures BoxOk(HandlerStep(w, r), q)
  {
    assert CpuOk(w, q) && CpuOk(w, r);
  }

  lemma BoxOther(w: World, st: Step, q: nat)
    requires Inv(w) && CanStep(w, st) && !st.Go? && !st.Handle?
    ensures BoxOk(Next(w, st), q)
  {
    assert CpuOk(w, q);
  }

  lemma TargetGo(w: World, q: nat)
    requires Inv(w) && CanStep(w, Go) && !Stranded(w, Go)
    ensures TargetOk(GoStep(w, w.call.value), q)
  {
    assert CpuOk(w, q);
    hide Inv, GoStep, CallOk, HandlerOk, BoxOk, TargetOk, Stranded;
    if Open(w.call.value) {
      TargetGoOpen(w, q);
    } else {
      TargetGoElse(w, q);
    }
  }

  lemma TargetGoOpen(w: World, q: nat)
    requires CallerOk(w) && CpuOk(w, q) && CanStep(w, Go) && Open(w.call.value)
    ensures TargetOk(GoStep(w, w.call.value), q)
  {
  }

  lemma TargetGoElse(w: World, q: nat)
    requires CallerOk(w) && CpuOk(w, q) && CanStep(w, Go) && !Open(w.call.value)
    ensures TargetOk(GoStep(w, w.call.value), q)
  {
  }

  lemma TargetHandle(w: World, r: nat, q: nat)
    requires Inv(w)
    ensures TargetOk(HandlerStep(w, r), q)
  {
    assert CpuOk(w, q) && CpuOk(w, r);
  }

  lemma TargetOther(w: World, st: Step, q: nat)
    requires Inv(w) && CanStep(w, st) && !st.Go? && !st.Handle?
    ensures TargetOk(Next(w, st), q)
  {
    assert CpuOk(w, q);
  }

  lemma StepKeeps(w: World, st: Step)
    requires Inv(w) && CanStep(w, st) && !Stranded(w, st)
    ensures Inv(Next(w, st))
  {
    hide HandlerStep, GoStep, CallerOk, HandlerOk, BoxOk, TargetOk, Stranded;
    match st {
      case Go =>
        CallerGo(w);
        forall q: nat
          ensures CpuOk(Next(w, st), q)
        {
          HandlerGo(w, q);
          BoxGo(w, q);
          TargetGo(w, q);
        }
      case Handle(r) =>
        CallerHandle(w, r);
        forall q: nat
          ensures CpuOk(Next(w, st), q)
        {
          HandlerHandle(w, r, q);
          BoxHandle(w, r, q);
          TargetHandle(w, r, q);
        }
      case _ =>
        CallerOther(w, st);
        forall q: nat
          ensures CpuOk(Next(w, st), q)
        {
          HandlerOther(w, st, q);
          BoxOther(w, st, q);
          TargetOther(w, st, q);
        }
    }
  }

  // ------------------------------------------------------------------------- runs

  ghost predicate Possible(w: World, steps: seq<Step>)
    decreases steps
  {
    steps == [] || (CanStep(w, steps[0]) && Possible(Next(w, steps[0]), steps[1..]))
  }

  ghost function After(w: World, steps: seq<Step>): World
    requires Possible(w, steps)
    decreases steps
  {
    if steps == [] then w else After(Next(w, steps[0]), steps[1..])
  }

  /** No call that timed out gave up the mailbox while a handler was past its last check. */
  ghost predicate NoneStranded(w: World, steps: seq<Step>)
    requires Possible(w, steps)
    decreases steps
  {
    steps == [] || (!Stranded(w, steps[0]) && NoneStranded(Next(w, steps[0]), steps[1..]))
  }

  const START := World({}, 0, 0, map[], map[], None, {})

  lemma {:induction false} RunKeeps(w: World, steps: seq<Step>)
    requires Inv(w) && Possible(w, steps) && NoneStranded(w, steps)
    ensures Inv(After(w, steps))
    decreases steps
  {
    if steps != [] {
      StepKeeps(w, steps[0]);
      RunKeeps(Next(w, steps[0]), steps[1..]);
    }
  }

  /** The call is about to return 0. */
  predicate Completed(w: World) { w.call.Some? && w.call.value.pc == CRelease && !w.call.value.timedOut }

  lemma CompletedIsSound(w: World)
    requires Inv(w) && Completed(w)
    ensures w.call.value.live <= w.ran && forall q :: !Mine(w, HandlerOf(w, q))
  {
    forall q
      ensures (q in w.call.value.live ==> q in w.ran) && !Mine(w, HandlerOf(w, q))
    {
      assert CpuOk(w, q);
    }
  }

  /** A return of 0: every target found active ran this call's function on this call's data, and no
      handler of this call is still under way. */
  lemma CallIsSound(steps: seq<Step>)
    requires Possible(START, steps) && NoneStranded(START, steps) && Completed(After(START, steps))
    ensures var w := After(START, steps);
            w.call.value.live <= w.ran && forall q :: !Mine(w, HandlerOf(w, q))
  {
    assert Inv(START) by {
      assert forall q :: CpuOk(START, q);
    }
    RunKeeps(START, steps);
    CompletedIsSound(After(START, steps));
  }

  ghost predicate InTime(w: World) { w.call.Some? ==> !w.call.value.timedOut }

  lemma {:induction false} InTimeNoneStranded(w: World, steps: seq<Step>)
    requires InTime(w) && Possible(w, steps) && Timeout !in steps
    ensures NoneStranded(w, steps)
    decreases steps
  {
    if steps != [] {
      assert steps[0] in steps;
      InTimeNoneStranded(Next(w, steps[0]), steps[1..]);
    }
  }

  /** In particular when no call has timed out. */
  lemma CallIsSoundWithoutTimeouts(steps: seq<Step>)
    requires Possible(START, steps) && Timeout !in steps && Completed(After(START, steps))
    ensures var w := After(START, steps);
            w.call.value.live <= w.ran && forall q :: !Mine(w, HandlerOf(w, q))
  {
    InTimeNoneStranded(START, steps);
    CallIsSound(steps);
  }

  // ------------------------------------------------------------- after a timeout

  /** A call that returns 0 was run by every target found active. */
  predicate AllRan(w: World) { Completed(w) ==> w.call.value.live <= w.ran }

  /** However the run goes on, as long as no later call is stranded, a return of 0 can be trusted. */
  ghost predicate Trusted(w: World) {
    forall steps :: Possible(w, steps) && NoneStranded(w, steps) ==> AllRan(After(w, steps))
  }

  lemma InvIsTrusted(w: World)
    requires Inv(w)
    ensures Trusted(w)
  {
    hide Inv, Possible, After, NoneStranded;
    forall steps | Possible(w, steps) && NoneStranded(w, steps)
      ensures AllRan(After(w, steps))
    {
      RunKeeps(w, steps);
      if Completed(After(w, steps)) {
        CompletedIsSound(After(w, steps));
      }
    }
  }

  /** Giving the mailbox up after a timeout leaves later calls trustworthy exactly when no handler
      is past its last check: any such handler makes some later call return 0 unrun. */
  lemma ReleaseAfterTimeout(w: World)
    requires Inv(w) && w.call.Some? && w.call.value.pc == CRelease && w.call.value.timedOut
    ensures Trusted(Next(w, Go)) <==> forall q :: HandlerOf(w, q).pc != HClear
  {
    hide Trusted, Inv;
    if forall q :: HandlerOf(w, q).pc != HClear {
      StepKeeps(w, Go);
      InvIsTrusted(Next(w, Go));
    } else {
      var q :| HandlerOf(w, q).pc == HClear;
      StaleClear(Next(w, Go), q, 0);
      Distrusted(Next(w, Go), Hollow(Next(w, Go), q, 0));
    }
  }

  /** Some run leads from one state to the other, if `quiet` without a timeout. */
  ghost predicate Leads(w: World, w': World, quiet: bool) {
    exists steps :: Possible(w, steps) && After(w, steps) == w' && (quiet ==> Timeout !in steps)
  }

  lemma Distrusted(w: World, w': World)
    requires InTime(w) && Leads(w, w', true) && !AllRan(w')
    ensures !Trusted(w)
  {
    hide AllRan, InTime;
    var steps :| Possible(w, steps) && After(w, steps) == w' && Timeout !in steps;
    InTimeNoneStranded(w, steps);
  }

  lemma {:induction false} RunThen(w: World, a: seq<Step>, b: seq<Step>)
    requires Possible(w, a) && Possible(After(w, a), b)
    ensures Possible(w, a + b) && After(w, a + b) == After(After(w, a), b)
    decreases a
  {
    if a == [] {
      assert a + b == b;
    } else {
      RunThen(Next(w, a[0]), a[1..], b);
      assert (a + b)[1..] == a[1..] + b;
    }
  }

  lemma LeadsThen(a: World, b: World, c: World, quiet: bool)
    requires Leads(a, b, quiet) && Leads(b, c, quiet)
    ensures Leads(a, c, quiet)
  {
    var p :| Possible(a, p) && After(a, p) == b && (quiet ==> Timeout !in p);
    var q :| Possible(b, q) && After(b, q) == c && (quiet ==> Timeout !in q);
    RunThen(a, p, q);
  }

  /** Three steps in a row. */
  lemma LeadsBy(w: World, s1: Step, s2: Step, s3: Step, w': World)
    requires CanStep(w, s1)
    requires CanStep(Next(w, s1), s2)
    requires CanStep(Next(Next(w, s1), s2), s3) && Next(Next(Next(w, s1), s2), s3) == w'
    ensures Leads(w, w', false) && (Timeout !in {s1, s2, s3} ==> Leads(w, w', true))
  {
    hide Next, CanStep;
    var steps := [s1, s2, s3];
    assert steps[1..] == [s2, s3] && [s2, s3][1..] == [s3] && [s3][1..] == [];
    var w2 := Next(Next(w, s1), s2);
    assert Possible(w', []);
    assert Possible(w2, [s3]) && After(w2, [s3]) == w';
    assert Possible(Next(w, s1), [s2, s3]) && After(Next(w, s1), [s2, s3]) == w';
    assert Possible(w, steps) && After(w, steps) == w';
  }

  lemma Singletons(q: nat)
    ensures forall s: set<nat> :: s == {q} ==> s - {q} == {}
    ensures forall s: set<nat> :: s == {} ==> s + {q} == {q}
  {
  }

  /** A call from pCPU `q + 1` to pCPU `q`, when its function is in the mailbox, and when it waits. */
  function Telling(w: World, q: nat, f: nat): World {
    World({q}, w.next + 1, w.next + 1, w.boxes[q := BoxOf(w, q).(func := Some(f))], w.handlers,
          Some(Call(q + 1, {q}, f, 0, w.next + 1, CData(q), {}, {}, false)), {})
  }

  function Waiting(w: World, q: nat, f: nat): World {
    World({q}, w.next + 1, w.next + 1, w.boxes[q := Box(w.next + 1, Some(f), 0)], w.handlers,
          Some(Call(q + 1, {q}, f, 0, w.next + 1, CWait, {}, {q}, false)), {})
  }

  lemma TellFirst(w: World, q: nat, f: nat)
    requires w.call.None?
    ensures Leads(w, Telling(w, q, f), true)
  {
    hide Leads;
    Singletons(q);
    var n := w.next + 1;
    var w1 := w.(next := n, active := n, call := Some(Call(q + 1, {q}, f, 0, n, CMask, {}, {}, false)), ran := {});
    LeadsBy(w, Acquire(q + 1, {q}, f, 0), Go, Go, w1);
    LeadsBy(w1, Go, Visit(q, true), Go, Telling(w, q, f));
    LeadsThen(w, w1, Telling(w, q, f), true);
  }

  lemma TellOne(w: World, q: nat, f: nat)
    requires w.call.None?
    ensures Leads(w, Waiting(w, q, f), true)
  {
    hide Leads;
    Singletons(q);
    TellFirst(w, q, f);
    var w2 := Telling(w, q, f);
    var b := w2.boxes[q].gen;
    assert w2.boxes[q := Box(b, Some(f), 0)][q := Box(w2.next, Some(f), 0)] == w.boxes[q := Box(w2.next, Some(f), 0)];
    LeadsBy(w2, Go, Go, Go, Waiting(w, q, f));
    LeadsThen(w, w2, Waiting(w, q, f), true);
  }

  /** That call, about to return 0, its bit cleared by the handler left over from before. */
  function Hollow(w: World, q: nat, f: nat): World {
    World({}, w.next + 1, 0, w.boxes[q := Box(0, None, 0)], w.handlers[q := HandlerOf(w, q).(pc := HIdle)],
          Some(Call(q + 1, {q}, f, 0, w.next + 1, CRelease, {}, {q}, false)), {})
  }

  lemma HollowReached(w: World, q: nat, f: nat)
    requires HandlerOf(w, q).pc == HClear
    ensures Leads(Waiting(w, q, f), Hollow(w, q, f), true)
  {
    hide Leads;
    var w0, w2 := Waiting(w, q, f), Hollow(w, q, f);
    var c := w0.call.value;
    var w1 := w2.(boxes := w0.boxes, call := Some(c.(pc := CClear, todo := {q})));
    LeadsBy(w0, Handle(q), Go, Go, w1);
    HollowBox(w1, c, q, f);
    assert w1.boxes[q := Box(0, None, 0)] == w2.boxes;
    LeadsThen(w0, w1, w2, true);
  }

  lemma HollowBox(w: World, c: Call, q: nat, f: nat)
    requires w.call == Some(c.(pc := CClear, todo := {q})) && c.todo == {} && !c.timedOut && c.targets == {q}
    requires w.mask == {} && HandlerOf(w, q).pc == HIdle && q in w.boxes && w.boxes[q] == Box(w.next, Some(f), 0)
    ensures Leads(w, w.(boxes := w.boxes[q := Box(0, None, 0)], call := Some(c.(pc := CRelease))), true)
  {
    hide Leads;
    Singletons(q);
    var w2 := w.(boxes := w.boxes[q := Box(0, None, 0)], call := Some(c.(pc := CClear)));
    assert w.boxes[q := Box(0, Some(f), 0)][q := Box(0, None, 0)][q := Box(0, None, 0)] == w2.boxes;
    LeadsBy(w, ClearBox(q), Go, Go, w2);
    HollowEnd(w2, c, q);
    LeadsThen(w, w2, w2.(call := Some(c.(pc := CRelease))), true);
  }

  /** The last step takes a notification on a pCPU whose bit is not set: it does nothing. */
  lemma HollowEnd(w: World, c: Call, q: nat)
    requires w.call == Some(c.(pc := CClear)) && c.todo == {} && !c.timedOut
    requires w.mask == {} && HandlerOf(w, q).pc == HIdle
    ensures Leads(w, w.(call := Some(c.(pc := CRelease))), true)
  {
    hide Leads;
    LeadsBy(w, Go, Handle(q), Handle(q), w.(call := Some(c.(pc := CRelease))));
  }

  /** A handler left past its last check clears the bit of the next call to its pCPU, which then
      returns 0 although that pCPU, found active, never ran it. */
  lemma StaleClear(w: World, q: nat, f: nat)
    requires w.call.None? && HandlerOf(w, q).pc == HClear
    ensures Leads(w, Hollow(w, q, f), true)
    ensures Completed(Hollow(w, q, f)) && Hollow(w, q, f).call.value.live == {q} && q !in Hollow(w, q, f).ran
    ensures !AllRan(Hollow(w, q, f))
  {
    hide Leads;
    TellOne(w, q, f);
    HollowReached(w, q, f);
    LeadsThen(w, Waiting(w, q, f), Hollow(w, q, f), true);
  }

  // ------------------------------------------------------ such a state is reached

  const STRANDED := World({}, 1, 0, map[1 := Box(0, None, 0)], map[1 := Handler(HClear, 1, Some(7), 0)], None, {1})

  function Handled(h: Handler, ran: set<nat>): World { Waiting(START, 1, 7).(handlers := map[1 := h], ran := ran) }

  lemma HandledToRun()
    ensures Leads(Waiting(START, 1, 7), Handled(Handler(HRecheck, 1, Some(7), 0), {1}), false)
  {
    hide Leads;
    var w1 := Handled(Handler(HData, 1, Some(7), 0), {});
    var w2 := Handled(Handler(HRecheck, 1, Some(7), 0), {1});
    LeadsBy(Waiting(START, 1, 7), Handle(1), Handle(1), Handle(1), w1);
    LeadsBy(w1, Handle(1), Handle(1), Handle(1), w2);
    LeadsThen(Waiting(START, 1, 7), w1, w2, false);
  }

  lemma HandledToClear()
    ensures Leads(Handled(Handler(HRecheck, 1, Some(7), 0), {1}), Handled(Handler(HClear, 1, Some(7), 0), {1}), false)
  {
    hide Leads;
    LeadsBy(Handled(Handler(HRecheck, 1, Some(7), 0), {1}), Handle(1), Handle(1), Handle(0),
            Handled(Handler(HClear, 1, Some(7), 0), {1}));
  }

  /** The waiting call, timed out. */
  lemma TimesOut()
    ensures Leads(Handled(Handler(HClear, 1, Some(7), 0), {1}), STRANDED, false)
  {
    hide Leads;
    Singletons(1);
    var w := Handled(Handler(HClear, 1, Some(7), 0), {1});
    var c := w.call.value.(timedOut := true, pc := CClearFunc(1));
    var w1 := w.(active := 0, boxes := map[1 := Box(0, Some(7), 0)], call := Some(c));
    assert w.boxes[1 := Box(0, Some(7), 0)] == w1.boxes;
    LeadsBy(w, Timeout, Go, ClearBox(1), w1);
    ClearedOut(w1, c);
    LeadsThen(w, w1, STRANDED, false);
  }

  lemma ClearedOut(w1: World, c: Call)
    requires c == Call(2, {1}, 7, 0, 1, CClearFunc(1), {}, {1}, true)
    requires w1 == World({1}, 1, 0, map[1 := Box(0, Some(7), 0)], STRANDED.handlers, Some(c), {1})
    ensures Leads(w1, STRANDED, false)
  {
    hide Leads;
    var w2 := w1.(boxes := STRANDED.boxes, call := Some(c.(pc := CZero)));
    assert w1.boxes[1 := Box(0, None, 0)][1 := Box(0, None, 0)] == w2.boxes;
    LeadsBy(w1, Go, Go, Go, w2);
    LeadsBy(w2, Go, Go, Handle(0), STRANDED);
    LeadsThen(w1, w2, STRANDED, false);
  }

  /** From start-up: a first call to pCPU 1 times out while its handler is past the last check, and
      the next one is lost. */
  lemma StrandedReached()
    ensures Leads(START, STRANDED, false) && !Trusted(STRANDED)
  {
    hide Leads, Trusted;
    TellOne(START, 1, 7);
    Loud(START, Waiting(START, 1, 7));
    HandledToRun();
    HandledToClear();
    TimesOut();
    LeadsThen(START, Waiting(START, 1, 7), Handled(Handler(HRecheck, 1, Some(7), 0), {1}), false);
    LeadsThen(START, Handled(Handler(HRecheck, 1, Some(7), 0), {1}), Handled(Handler(HClear, 1, Some(7), 0), {1}),
              false);
    LeadsThen(START, Handled(Handler(HClear, 1, Some(7), 0), {1}), STRANDED, false);
    StaleClear(STRANDED, 1, 8);
    Distrusted(STRANDED, Hollow(STRANDED, 1, 8));
  }

  lemma Loud(w: World, w': World)
    requires Leads(w, w', true)
    ensures Leads(w, w', false)
  {
  }
}
