/** The walk over a deadline-ordered run queue that renews what is due and puts it back in its place. */
module EdfWalk {
  import opened Common
  import opened OrderedQueues
  import opened PolicyThreads

  /** The queue key of a thread, from the key of its data. */
  function KeyOf<T>(threads: map<Tid, PolicyThread<T>>, key: T -> int): Tid -> int {
    t => if t in threads then key(threads[t].data) else 0
  }

  /** The threads of `who` that are due have their data renewed. */
  function Renewed<T>(threads: map<Tid, PolicyThread<T>>, who: set<Tid>, due: T -> bool,
                      renew: T -> T): map<Tid, PolicyThread<T>> {
    map t | t in threads ::
      if t in who && due(threads[t].data) then threads[t].(data := renew(threads[t].data)) else threads[t]
  }

  /** The first `i` nodes are not due. */
  ghost predicate FreshUpTo<T>(threads: map<Tid, PolicyThread<T>>, q: seq<Tid>, i: nat, due: T -> bool)
    requires i <= |q|
  {
    forall m :: 0 <= m < i ==> q[m] in threads && !due(threads[q[m]].data)
  }

  /** A proper queue; with `o` in order of the keys. */
  ghost predicate Ordered<T>(threads: map<Tid, PolicyThread<T>>, q: seq<Tid>, key: T -> int, o: bool) {
    InOrder(q, KeyOf(threads, key), o) && forall t :: t in q ==> t in threads
  }

  ghost predicate SameMembers(q: seq<Tid>, q': seq<Tid>) { forall x :: x in q' <==> x in q }

  /** Renewing what is due once is enough. */
  ghost predicate Renews<T>(threads: map<Tid, PolicyThread<T>>, q: seq<Tid>, due: T -> bool, renew: T -> T) {
    forall t :: t in q && t in threads && due(threads[t].data) ==> !due(renew(threads[t].data))
  }

  /** The node after `t`, or none at the end of the list. */
  function Next(q: seq<Tid>, t: Tid): Option<Tid>
    requires t in q
  {
    if q[0] == t then (if |q| == 1 then None else Some(q[1])) else Next(q[1..], t)
  }

  lemma {:induction false} NextAt(q: seq<Tid>, i: nat)
    requires NoDup(q) && i < |q|
    ensures Next(q, q[i]) == if i + 1 < |q| then Some(q[i + 1]) else None
  {
    if i > 0 {
      assert q[0] != q[i];
      NextAt(q[1..], i - 1);
    }
  }

  /** Move one due node: renew it, take it out and put it in its new place. `j` is where the node
      that followed it now stands. */
  method MoveDue<T>(threads: map<Tid, PolicyThread<T>>, q: seq<Tid>, t: Tid, key: T -> int, due: T -> bool,
                    renew: T -> T,
                    ghost i: nat, ghost o: bool)
    returns (threads': map<Tid, PolicyThread<T>>, q': seq<Tid>, ghost j: nat)
    requires Ordered(threads, q, key, o) && i < |q| && q[i] == t && FreshUpTo(threads, q, i, due)
    requires t in threads && !due(renew(threads[t].data))
    ensures threads' == threads[t := threads[t].(data := renew(threads[t].data))] && !due(threads'[t].data)
    ensures Ordered(threads', q', key, o) && SameMembers(q, q') && |q'| == |q| && i <= j <= |q|
    ensures i + 1 < |q| ==> j < |q| && q'[j] == q[i + 1]
    ensures i + 1 == |q| ==> j == |q|
    ensures FreshUpTo(threads', q', j, due)
  {
    var q1 := Remove(q, t);
    RemoveInOrder(q, KeyOf(threads, key), t, o);
    RemoveMembers(q, t);
    threads' := threads[t := threads[t].(data := renew(threads[t].data))];
    InOrderBySame(q1, KeyOf(threads, key), KeyOf(threads', key), o);
    InsertInOrder(q1, KeyOf(threads', key), t, false, o);
    InsertMembers(q1, KeyOf(threads', key), t, false);
    q' := InsertInto(q1, KeyOf(threads', key), t, false);
    j := MoveNode(q, i, KeyOf(threads', key), false, q');
    FreshMoved(threads, threads', q, q', i, j, due);
  }

  lemma FreshMoved<T>(threads: map<Tid, PolicyThread<T>>, threads': map<Tid, PolicyThread<T>>, q: seq<Tid>,
                      q': seq<Tid>, i: nat, j: nat, due: T -> bool)
    requires i < |q| && j <= |q'| && FreshUpTo(threads, q, i, due) && q[i] in threads'
    requires !due(threads'[q[i]].data) && forall x :: x in threads && x != q[i] ==>
               x in threads' && threads'[x] == threads[x]
    requires forall m :: 0 <= m < j ==> q'[m] == q[i] || q'[m] in q[..i]
    ensures FreshUpTo(threads', q', j, due)
  {
    forall m | 0 <= m < j
      ensures q'[m] in threads' && !due(threads'[q'[m]].data)
    {
      if q'[m] != q[i] {
        var k :| 0 <= k < i && q[k] == q'[m];
      }
    }
  }

  /** The list walk. The next node is noted before the node at hand is moved, so a node that was moved
      back is met again, by then not due. An ordered queue stays ordered; one that is not is still
      renewed as a whole, and left alone if nothing in it is due. */
  method Walk<T>(threads0: map<Tid, PolicyThread<T>>, q0: seq<Tid>, key: T -> int, due: T -> bool, renew: T -> T,
                 ghost o: bool)
    returns (threads: map<Tid, PolicyThread<T>>, q: seq<Tid>)
    requires Ordered(threads0, q0, key, o) && Renews(threads0, q0, due, renew)
    ensures threads == Renewed(threads0, Members(q0), due, renew)
    ensures Ordered(threads, q, key, o) && SameMembers(q0, q) && FreshUpTo(threads, q, |q|, due)
    ensures DueIn(threads0, q0, due) == {} ==> q == q0
  {
    hide Renews, NoDup, Ordered, Renewed, FreshUpTo, DueIn, SameMembers;
    threads, q := threads0, q0;
    var pos := if q == [] then None else Some(q[0]);
    ghost var idx, moved, left := 0, {}, DueIn(threads, q, due);
    RenewedNone(threads0, due, renew);
    FreshNone(threads0, q0, due);
    while pos.Some?
      invariant moved <= Members(q0) && threads == Renewed(threads0, moved, due, renew)
      invariant moved <= DueIn(threads0, q0, due) && (moved == {} ==> q == q0)
      invariant Ordered(threads, q, key, o) && SameMembers(q0, q)
      invariant idx <= |q| && (pos.Some? <==> idx < |q|) && (pos.Some? ==> q[idx] == pos.value)
      invariant FreshUpTo(threads, q, idx, due) && left == DueIn(threads, q, due)
      decreases left, |q| - idx
    {
      var t := pos.value;
      assert t in q;
      InOrdered(threads, q, key, o, t);
      NextAt(q, idx);
      var tmp := Next(q, t);
      if due(threads[t].data) {
        ghost var threads1, q1 := threads, q;
        StillOriginal(threads0, threads, q0, q, moved, due, renew, t);
        threads, q, idx := MoveDue(threads, q, t, key, due, renew, idx, o);
        FewerDue(threads1, q1, threads, q, t, due);
        left := DueIn(threads, q, due);
        RenewedMore(threads0, threads1, moved, due, renew, t);
        MembersThen(q0, q1, q, t);
        moved := moved + {t};
      } else {
        FreshMore(threads, q, idx, due);
        idx := idx + 1;
      }
      pos := tmp;
    }
    RenewedAll(threads0, moved, q0, q, due, renew);
  }

  ghost function DueIn<T>(threads: map<Tid, PolicyThread<T>>, q: seq<Tid>, due: T -> bool): set<Tid> {
    set x | x in q && x in threads && due(threads[x].data)
  }

  lemma FewerDue<T>(threads: map<Tid, PolicyThread<T>>, q: seq<Tid>, threads': map<Tid, PolicyThread<T>>, q': seq<Tid>,
                    t: Tid, due: T -> bool)
    requires t in threads && t in threads' && due(threads[t].data) && !due(threads'[t].data) && t in q
             && SameMembers(q, q')
    requires threads' == threads[t := threads'[t]]
    ensures DueIn(threads', q', due) < DueIn(threads, q, due)
  {
    assert t in DueIn(threads, q, due);
  }

  lemma RenewedNone<T>(threads: map<Tid, PolicyThread<T>>, due: T -> bool, renew: T -> T)
    ensures threads == Renewed(threads, {}, due, renew)
  {
  }

  lemma FreshNone<T>(threads: map<Tid, PolicyThread<T>>, q: seq<Tid>, due: T -> bool)
    ensures FreshUpTo(threads, q, 0, due) && SameMembers(q, q)
  {
  }

  lemma FreshMore<T>(threads: map<Tid, PolicyThread<T>>, q: seq<Tid>, i: nat, due: T -> bool)
    requires i < |q| && FreshUpTo(threads, q, i, due) && q[i] in threads && !due(threads[q[i]].data)
    ensures FreshUpTo(threads, q, i + 1, due)
  {
  }

  lemma InOrdered<T>(threads: map<Tid, PolicyThread<T>>, q: seq<Tid>, key: T -> int, o: bool, t: Tid)
    requires Ordered(threads, q, key, o) && t in q
    ensures t in threads && NoDup(q)
  {
  }

  lemma MembersThen(a: seq<Tid>, b: seq<Tid>, c: seq<Tid>, t: Tid)
    requires SameMembers(a, b) && SameMembers(b, c) && t in b
    ensures SameMembers(a, c) && t in Members(a)
  {
  }

  lemma StillOriginal<T>(threads: map<Tid, PolicyThread<T>>, threads1: map<Tid, PolicyThread<T>>, q: seq<Tid>,
                         q1: seq<Tid>, who: set<Tid>,
                         due: T -> bool, renew: T -> T, t: Tid)
    requires Renews(threads, q, due, renew) && threads1 == Renewed(threads, who, due, renew) && SameMembers(q, q1)
    requires t in q1 && t in threads1 && due(threads1[t].data)
    ensures t in threads && threads1[t] == threads[t] && !due(renew(threads[t].data)) && t in DueIn(threads, q, due)
  {
  }

  /** A node that is still due has not been renewed. */
  lemma RenewedMore<T>(threads: map<Tid, PolicyThread<T>>, threads1: map<Tid, PolicyThread<T>>, who: set<Tid>,
                       due: T -> bool, renew: T -> T, t: Tid)
    requires threads1 == Renewed(threads, who, due, renew) && t in threads && t in threads1 && threads1[t] == threads[t]
             && due(threads[t].data)
    ensures threads1[t := threads1[t].(data := renew(threads1[t].data))] == Renewed(threads, who + {t}, due, renew)
  {
  }

  /** When nothing queued is due any more, renewing the whole queue is what has been done. */
  lemma RenewedAll<T>(threads: map<Tid, PolicyThread<T>>, who: set<Tid>, q0: seq<Tid>, q: seq<Tid>, due: T -> bool,
                      renew: T -> T)
    requires who <= Members(q0) && SameMembers(q0, q) && FreshUpTo(Renewed(threads, who, due, renew), q, |q|, due)
    ensures Renewed(threads, who, due, renew) == Renewed(threads, Members(q0), due, renew)
  {
    var threads1 := Renewed(threads, who, due, renew);
    forall t | t in q0
      ensures t in threads1 && !due(threads1[t].data)
    {
      assert t in q;
      var m :| 0 <= m < |q| && q[m] == t;
    }
  }

  // -------------------------------------- queues ordered apart from one node

  /** In an ordered queue the node after another has no smaller key. */
  lemma NextIsLater(q: seq<Tid>, key: Tid -> int, c: Tid)
    requires InOrder(q, key, true) && c in q
    ensures Next(q, c).Some? ==> key(c) <= key(Next(q, c).value)
  {
    var i :| 0 <= i < |q| && q[i] == c;
    NextAt(q, i);
  }

  /** A queue that is ordered apart from `c`, with `t` put in its place: still ordered apart from `c`
      exactly when `t` is not put between `c` and a thread behind it with an earlier key. */
  lemma InsertApart(q: seq<Tid>, key: Tid -> int, t: Tid, c: Tid)
    requires NoDup(q) && t !in q && c in q && InOrder(Remove(q, c), key, true)
    ensures NoDup(Insert(q, key, t, false))
    ensures InOrder(Remove(Insert(q, key, t, false), c), key, true) <==>
            !(Next(q, c).Some? && key(Next(q, c).value) < key(t) < key(c))
  {
    var i :| 0 <= i < |q| && q[i] == c;
    NextAt(q, i);
    RemoveAt(q, i);
    InsertNoDup(q, key, t, false);
    PlaceAfterSmaller(q, key, t, false);
    var k := Place(q, key, t, false);
    var pos := if k <= i then k else k - 1;
    var rest := Remove(q, c);
    assert Sorted(rest, key);
    assert t !in rest by { RemoveMembers(q, c); }
    InsertThenRemove(q, key, t, i, k, pos);
    hide Remove, Insert, Place, Next, InOrder, NoDup, Sorted;
    PutInOrder(rest, key, t, pos);
    Apart(q, rest, key, t, c, i, k, pos);
  }

  lemma RemoveMid(a: seq<Tid>, c: Tid, b: seq<Tid>)
    requires NoDup(a + [c] + b)
    ensures Remove(a + [c] + b, c) == a + b
  {
    var q := a + [c] + b;
    RemoveAt(q, |a|);
    assert q[..|a|] == a && q[|a| + 1..] == b;
  }

  lemma InsertThenRemove(q: seq<Tid>, key: Tid -> int, t: Tid, i: nat, k: nat, pos: nat)
    requires NoDup(q) && t !in q && i < |q| && k == Place(q, key, t, false) && pos == if k <= i then k else k - 1
    ensures pos <= |Remove(q, q[i])|
    ensures Remove(Insert(q, key, t, false), q[i]) == Remove(q, q[i])[..pos] + [t] + Remove(q, q[i])[pos..]
  {
    InsertNoDup(q, key, t, false);
    InsertAtPlace(q, key, t, false);
    hide Remove, Insert, Place, NoDup;
    var r := q[..k] + [t] + q[k..];
    if k <= i {
      SplitBefore(q, t, i, k);
      PutBefore(q, r, q[..k], q[k..i], q[i + 1..], q[i], t);
    } else {
      SplitBehind(q, t, i, k);
      PutBehind(q, r, q[..i], q[i + 1..k], q[k..], q[i], t);
    }
  }

  lemma SplitBefore(q: seq<Tid>, t: Tid, i: nat, k: nat)
    requires k <= i < |q|
    ensures q == (q[..k] + q[k..i]) + [q[i]] + q[i + 1..]
    ensures q[..k] + [t] + q[k..] == (q[..k] + [t] + q[k..i]) + [q[i]] + q[i + 1..]
  {
    assert q[..k] + q[k..i] == q[..i];
    assert q[k..] == q[k..i] + [q[i]] + q[i + 1..];
  }

  lemma SplitBehind(q: seq<Tid>, t: Tid, i: nat, k: nat)
    requires i < k <= |q|
    ensures q == q[..i] + [q[i]] + (q[i + 1..k] + q[k..])
    ensures q[..k] + [t] + q[k..] == q[..i] + [q[i]] + (q[i + 1..k] + [t] + q[k..])
  {
    assert q[i + 1..] == q[i + 1..k] + q[k..];
    assert q[..k] == q[..i] + [q[i]] + q[i + 1..k];
  }

  lemma Assoc(a: seq<Tid>, b: seq<Tid>, c: seq<Tid>)
    ensures (a + b) + c == a + (b + c)
  {
  }

  lemma CutAt(a: seq<Tid>, b: seq<Tid>)
    ensures (a + b)[..|a|] == a && (a + b)[|a|..] == b
  {
  }

  lemma PutBefore(q: seq<Tid>, r: seq<Tid>, a: seq<Tid>, m: seq<Tid>, b: seq<Tid>, c: Tid, t: Tid)
    requires q == (a + m) + [c] + b && r == (a + [t] + m) + [c] + b && NoDup(q) && NoDup(r)
    ensures |a| <= |Remove(q, c)| && Remove(r, c) == Remove(q, c)[..|a|] + [t] + Remove(q, c)[|a|..]
  {
    hide Remove, NoDup;
    RemoveMid(a + m, c, b);
    RemoveMid(a + [t] + m, c, b);
    Assoc(a, m, b);
    Assoc(a + [t], m, b);
    CutAt(a, m + b);
  }

  lemma PutBehind(q: seq<Tid>, r: seq<Tid>, a: seq<Tid>, m: seq<Tid>, b: seq<Tid>, c: Tid, t: Tid)
    requires q == a + [c] + (m + b) && r == a + [c] + (m + [t] + b) && NoDup(q) && NoDup(r)
    ensures |a + m| <= |Remove(q, c)| && Remove(r, c) == Remove(q, c)[..|a + m|] + [t] + Remove(q, c)[|a + m|..]
  {
    hide Remove, NoDup;
    RemoveMid(a, c, m + b);
    RemoveMid(a, c, m + [t] + b);
    Assoc(a, m, b);
    Assoc(a, m + [t], b);
    Assoc(a, m, [t]);
    CutAt(a + m, b);
  }

  lemma PutInOrder(q: seq<Tid>, key: Tid -> int, t: Tid, pos: nat)
    requires InOrder(q, key, true) && t !in q && pos <= |q|
    ensures InOrder(q[..pos] + [t] + q[pos..], key, true) <==>
            (pos > 0 ==> key(q[pos - 1]) <= key(t)) && (pos < |q| ==> key(t) <= key(q[pos]))
  {
    var r := q[..pos] + [t] + q[pos..];
    assert pos > 0 ==> r[pos - 1] == q[pos - 1];
    assert pos < |q| ==> r[pos + 1] == q[pos];
    assert r[pos] == t;
    if (pos > 0 ==> key(q[pos - 1]) <= key(t)) && (pos < |q| ==> key(t) <= key(q[pos])) {
      forall a, b | 0 <= a < b < |r|
        ensures r[a] != r[b] && key(r[a]) <= key(r[b])
      {
        assert a < pos ==> r[a] == q[a];
        assert a > pos ==> r[a] == q[a - 1];
        assert b < pos ==> r[b] == q[b];
        assert b > pos ==> r[b] == q[b - 1];
      }
    }
  }

  lemma Apart(q: seq<Tid>, rest: seq<Tid>, key: Tid -> int, t: Tid, c: Tid, i: nat, k: nat, pos: nat)
    requires i < |q| && q[i] == c && rest == q[..i] + q[i + 1..] && Sorted(rest, key)
    requires k <= |q| && (forall j :: 0 <= j < k ==> key(q[j]) <= key(t)) && (k < |q| ==> key(t) < key(q[k]))
    requires pos == if k <= i then k else k - 1
    ensures ((pos > 0 ==> key(rest[pos - 1]) <= key(t)) && (pos < |rest| ==> key(t) <= key(rest[pos]))) <==>
            !(i + 1 < |q| && key(q[i + 1]) < key(t) < key(c))
  {
    assert forall j :: 0 <= j < i ==> rest[j] == q[j];
    assert forall j :: i <= j < |rest| ==> rest[j] == q[j + 1];
    if k == i && i + 1 < |q| {
      assert rest[pos] == q[i + 1];
    }
    if k < i && i + 1 < |q| {
      assert key(rest[k]) <= key(rest[i]);
    }
  }

  lemma {:induction false} RemoveSwaps(q: seq<Tid>, a: Tid, b: Tid)
    requires NoDup(q)
    ensures Remove(Remove(q, a), b) == Remove(Remove(q, b), a)
  {
    if q != [] {
      TailOrdered(q, _ => 0);
      RemoveSwaps(q[1..], a, b);
      RemoveMembers(q[1..], q[0]);
    }
  }

  /** The node after the current thread would be overtaken by `t`, which goes ahead of the current one. */
  predicate Overtaken(q: seq<Tid>, key: Tid -> int, t: Tid, curr: Option<Tid>) {
    && curr.Some? && curr.value in q
    && var next := Next(q, curr.value);
       next.Some? && key(next.value) < key(t) < key(curr.value)
  }

  /** A queue ordered apart from the current thread, in which `t` gets a new key and is put in its place:
      still ordered apart from the current thread exactly when nobody is overtaken. */
  lemma InsertNearly(q: seq<Tid>, key: Tid -> int, key': Tid -> int, t: Tid, curr: Option<Tid>)
    requires NoDup(q) && curr != Some(t) && InOrder(Others(q, curr), key, true)
    requires forall x :: x in q && x != t ==> key'(x) == key(x)
    ensures var q1 := Remove(q, t);
            NoDup(q1) && t !in q1 && NoDup(Insert(q1, key', t, false)) &&
            (InOrder(Others(Insert(q1, key', t, false), curr), key', true) <==> !Overtaken(q1, key', t, curr))
  {
    var q1 := Remove(q, t);
    RemoveMembers(q, t);
    RemoveNoDup(q, t);
    InsertNoDup(q1, key', t, false);
    if curr.Some? {
      var c := curr.value;
      RemoveSwaps(q, t, c);
      RemoveInOrder(Remove(q, c), key, t, true);
      RemoveMembers(q1, c);
      InOrderBySame(Remove(q1, c), key, key', true);
      if c in q1 {
        InsertApart(q1, key', t, c);
      } else {
        InsertInOrder(q1, key', t, false, true);
        InsertMembers(q1, key', t, false);
        RemoveMembers(Insert(q1, key', t, false), c);
      }
    } else {
      RemoveInOrder(q, key, t, true);
      InOrderBySame(q1, key, key', true);
      InsertInOrder(q1, key', t, false, true);
    }
  }

  /** In an ordered queue nobody is overtaken. */
  lemma NoneOvertaken(q: seq<Tid>, key: Tid -> int, t: Tid, curr: Option<Tid>)
    requires InOrder(q, key, true)
    ensures !Overtaken(q, key, t, curr)
  {
    if curr.Some? && curr.value in q {
      NextIsLater(q, key, curr.value);
    }
  }
}
