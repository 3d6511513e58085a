/** The hook table of the suspend transaction, kept sorted by priority as hooks are registered. */
module PmHooks {
  const MAX_HOOKS := 32

  datatype Hook = Hook(name: string, priority: nat, hasPrepare: bool, hasSuspend: bool, hasResume: bool, hasAbort: bool)

  datatype Status = Registered | Invalid | Finalized | Full

  ghost predicate Sorted(q: seq<Hook>) { forall i, j :: 0 <= i < j < |q| ==> q[i].priority <= q[j].priority }

  ghost predicate Distinct(q: seq<Hook>) { forall i, j :: 0 <= i < j < |q| ==> q[i].name != q[j].name }

  predicate Named(q: seq<Hook>, name: string) { exists i :: 0 <= i < |q| && q[i].name == name }

  /** After every hook of the same or a smaller priority. */
  function Inserted(q: seq<Hook>, h: Hook): seq<Hook> {
    if q == [] || q[|q| - 1].priority <= h.priority then q + [h]
    else Inserted(q[..|q| - 1], h) + [q[|q| - 1]]
  }

  /** `k` hooks have the same or a smaller priority than `h`, and the rest a larger one. */
  ghost predicate Divides(q: seq<Hook>, h: Hook, k: nat) {
    && k <= |q|
    && (forall i :: 0 <= i < k ==> q[i].priority <= h.priority)
    && (forall i :: k <= i < |q| ==> q[i].priority > h.priority)
  }

  /** The new hook goes behind all that do not come after it, whatever else stays as it was. */
  lemma {:induction false} InsertedAt(q: seq<Hook>, h: Hook, k: nat)
    requires Divides(q, h, k)
    ensures Inserted(q, h) == q[..k] + [h] + q[k..]
  {
    if k < |q| {
      var p := q[..|q| - 1];
      InsertedAt(p, h, k);
      assert q[k..] == p[k..] + [q[|q| - 1]];
    }
  }

  /** The table stays sorted with distinct names. */
  lemma InsertedKeeps(q: seq<Hook>, h: Hook, k: nat)
    requires Sorted(q) && Distinct(q) && !Named(q, h.name) && Divides(q, h, k)
    ensures Sorted(Inserted(q, h)) && Distinct(Inserted(q, h))
  {
    InsertedAt(q, h, k);
    var r := q[..k] + [h] + q[k..];
    forall i, j | 0 <= i < j < |r|
      ensures r[i].priority <= r[j].priority && r[i].name != r[j].name
    {
      hide Inserted;
      assert i < k ==> r[i] == q[i];
      assert i > k ==> r[i] == q[i - 1];
      assert j < k ==> r[j] == q[j];
      assert j > k ==> r[j] == q[j - 1];
    }
  }

  lemma SortedBelow(q: seq<Hook>, k: nat, priority: nat)
    requires Sorted(q) && k <= |q| && (k > 0 ==> q[k - 1].priority <= priority)
    ensures forall i :: 0 <= i < k ==> q[i].priority <= priority
  {
  }

  class HookTable {
    const slots: array<Hook>
    var count: nat
    var finalized: bool

    ghost predicate Valid()
      reads this, slots
    {
      slots.Length == MAX_HOOKS && count <= MAX_HOOKS && Sorted(slots[..count]) && Distinct(slots[..count])
    }

    constructor ()
      ensures Valid() && fresh(slots) && count == 0 && !finalized
    {
      slots := new Hook[MAX_HOOKS](_ => Hook("", 0, false, false, false, false));
      count, finalized := 0, false;
    }

    /** `hv_pm_register_hook`. */
    method Register(h: Hook) returns (status: Status)
      requires Valid()
      modifies this`count, slots
      ensures Valid()
      ensures status ==
              if h.name == "" || h.priority == 0 then Invalid
              else if finalized then Finalized
              else if old(count) >= MAX_HOOKS then Full
              else if Named(old(slots[..count]), h.name) then Invalid
              else Registered
      ensures slots[..count] == if status == Registered then Inserted(old(slots[..count]), h) else old(slots[..count])
    {
      if h.name == "" || h.priority == 0 {
        return Invalid;
      }
      if finalized {
        return Finalized;
      }
      if count >= MAX_HOOKS {
        return Full;
      }
      for i := 0 to count
        invariant forall j :: 0 <= j < i ==> slots[j].name != h.name
      {
        if slots[i].name == h.name {
          assert slots[..count][i].name == h.name;
          return Invalid;
        }
      }
      ShiftIn(h);
      return Registered;
    }

    /** Move the hooks of larger priority up by one and put the new one in the gap. */
    method ShiftIn(h: Hook)
      requires Valid() && count < MAX_HOOKS && !Named(slots[..count], h.name)
      modifies this`count, slots
      ensures Valid() && slots[..count] == Inserted(old(slots[..count]), h)
    {
      ghost var q := slots[..count];
      var at := MakeGap(h.priority);
      slots[at] := h;
      count := count + 1;
      assert slots[..count] == q[..at] + [h] + q[at..] by { hide Inserted, Sorted, Distinct, Named; }
      hide Sorted, Distinct, Named;
      InsertedAt(q, h, at);
      InsertedKeeps(q, h, at);
    }

    method MakeGap(priority: nat) returns (at: nat)
      requires slots.Length == MAX_HOOKS && count < MAX_HOOKS && Sorted(slots[..count])
      modifies slots
      ensures at <= count
      ensures forall i :: 0 <= i < at ==> slots[i] == old(slots[i]) && old(slots[i]).priority <= priority
      ensures forall i :: at < i <= count ==> slots[i] == old(slots[i - 1])
      ensures forall i :: at <= i < count ==> old(slots[i]).priority > priority
    {
      hide Sorted;
      ghost var q := slots[..count];
      at := count;
      while at > 0 && slots[at - 1].priority > priority
        invariant 0 <= at <= count == |q| < MAX_HOOKS
        invariant forall i :: 0 <= i < at ==> slots[i] == q[i]
        invariant forall i :: at < i <= count ==> slots[i] == q[i - 1]
        invariant forall i :: at <= i < count ==> q[i].priority > priority
      {
        slots[at] := slots[at - 1];
        at := at - 1;
      }
      SortedBelow(q, at, priority);
    }

    /** `hv_pm_finalize_hooks`. */
    method Finalize()
      requires Valid()
      modifies this`finalized
      ensures Valid() && finalized
    {
      finalized := true;
    }

    /** Set-up: the table is what the registrations before the end of set-up make it, and no later one
        changes it. */
    method SetUp(hooks: seq<Hook>, late: seq<Hook>)
      requires Valid() && !finalized && count == 0
      modifies this`count, this`finalized, slots
      ensures Valid() && finalized && slots[..count] == Table(hooks)
    {
      hide Sorted, Distinct, Inserted, Named;
      for i := 0 to |hooks|
        invariant Valid() && !finalized && slots[..count] == Table(hooks[..i])
      {
        assert hooks[..i + 1][..i] == hooks[..i];
        var _ := Register(hooks[i]);
      }
      assert hooks[..|hooks|] == hooks;
      Finalize();
      for i := 0 to |late|
        invariant Valid() && finalized && slots[..count] == Table(hooks)
      {
        var status := Register(late[i]);
      }
    }
  }

  /** What the registrations make of an empty table: those that are turned down leave no trace. */
  function Table(hooks: seq<Hook>): seq<Hook> {
    if hooks == [] then []
    else
      var q, h := Table(hooks[..|hooks| - 1]), hooks[|hooks| - 1];
      if h.name == "" || h.priority == 0 || |q| >= MAX_HOOKS || Named(q, h.name) then q else Inserted(q, h)
  }
}
