/** Run queues kept in order by insertion, as the scheduler policies keep their lists. */
module OrderedQueues {
  import opened Common

  ghost predicate Sorted(q: seq<Tid>, key: Tid -> int) {
    forall i, j :: 0 <= i < j < |q| ==> key(q[i]) <= key(q[j])
  }

  /** Before the first element with a larger key; with `turn`, also before equal keys. */
  function Insert(q: seq<Tid>, key: Tid -> int, t: Tid, turn: bool): (r: seq<Tid>)
  {
    if q == [] then [t]
    else if key(t) < key(q[0]) || (turn && key(t) == key(q[0])) then [t] + q
    else [q[0]] + Insert(q[1..], key, t, turn)
  }

  function Remove(q: seq<Tid>, t: Tid): seq<Tid> {
    if q == [] then [] else if q[0] == t then q[1..] else [q[0]] + Remove(q[1..], t)
  }

  /** The queue without the current thread. */
  function Others(q: seq<Tid>, curr: Option<Tid>): seq<Tid> {
    if curr.Some? then Remove(q, curr.value) else q
  }

  lemma {:induction false} InsertMembers(q: seq<Tid>, key: Tid -> int, t: Tid, turn: bool)
    ensures forall x :: x in Insert(q, key, t, turn) <==> x in q || x == t
    ensures |Insert(q, key, t, turn)| == |q| + 1
  {
    if q != [] {
      InsertMembers(q[1..], key, t, turn);
      assert q == [q[0]] + q[1..];
    }
  }

  /** A head that is new and no larger than the rest extends an ordered queue. */
  lemma ConsOrdered(x: Tid, r: seq<Tid>, key: Tid -> int)
    requires NoDup(r) && Sorted(r, key)
    requires forall y :: y in r ==> y != x && key(x) <= key(y)
    ensures NoDup([x] + r) && Sorted([x] + r, key)
  {
    var s := [x] + r;
    forall i, j | 0 <= i < j < |s|
      ensures s[i] != s[j] && key(s[i]) <= key(s[j])
    {
      assert s[j] == r[j - 1];
      assert s[j] in r;
    }
  }

  lemma TailOrdered(q: seq<Tid>, key: Tid -> int)
    requires NoDup(q) && Sorted(q, key) && q != []
    ensures NoDup(q[1..]) && Sorted(q[1..], key)
    ensures forall y :: y in q[1..] ==> y != q[0] && key(q[0]) <= key(y)
  {
    forall y | y in q[1..]
      ensures y != q[0] && key(q[0]) <= key(y)
    {
      var i :| 0 <= i < |q[1..]| && q[1..][i] == y;
      assert q[i + 1] == y;
    }
  }

  lemma {:induction false} InsertOrdered(q: seq<Tid>, key: Tid -> int, t: Tid, turn: bool)
    requires NoDup(q) && Sorted(q, key) && t !in q
    ensures NoDup(Insert(q, key, t, turn)) && Sorted(Insert(q, key, t, turn), key)
  {
    if q != [] {
      TailOrdered(q, key);
      if key(t) < key(q[0]) || (turn && key(t) == key(q[0])) {
        assert q == [q[0]] + q[1..];
        ConsOrdered(t, q, key);
      } else {
        InsertOrdered(q[1..], key, t, turn);
        InsertMembers(q[1..], key, t, turn);
        ConsOrdered(q[0], Insert(q[1..], key, t, turn), key);
      }
    }
  }

  lemma {:induction false} RemoveMembers(q: seq<Tid>, t: Tid)
    requires NoDup(q)
    ensures forall x :: x in Remove(q, t) <==> x in q && x != t
    ensures t !in q ==> Remove(q, t) == q
  {
    if q != [] && q[0] != t {
      RemoveMembers(q[1..], t);
      assert q == [q[0]] + q[1..];
    } else if q != [] {
      assert q == [q[0]] + q[1..];
    }
  }

  lemma {:induction false} RemoveOrdered(q: seq<Tid>, key: Tid -> int, t: Tid)
    requires NoDup(q) && Sorted(q, key)
    ensures NoDup(Remove(q, t)) && Sorted(Remove(q, t), key)
  {
    if q != [] {
      TailOrdered(q, key);
      if q[0] != t {
        RemoveOrdered(q[1..], key, t);
        RemoveMembers(q[1..], t);
        ConsOrdered(q[0], Remove(q[1..], t), key);
      }
    }
  }

  lemma {:induction false} RemoveNoDup(q: seq<Tid>, t: Tid)
    requires NoDup(q)
    ensures NoDup(Remove(q, t))
  {
    RemoveOrdered(q, _ => 0, t);
  }

  /** No node twice; with `o` also in order of the keys. */
  ghost predicate InOrder(q: seq<Tid>, key: Tid -> int, o: bool) { NoDup(q) && (o ==> Sorted(q, key)) }

  lemma {:induction false} InsertNoDup(q: seq<Tid>, key: Tid -> int, t: Tid, turn: bool)
    requires NoDup(q) && t !in q
    ensures NoDup(Insert(q, key, t, turn))
  {
    InsertAtPlace(q, key, t, turn);
    var r := Insert(q, key, t, turn);
    var k := Place(q, key, t, turn);
    forall i, j | 0 <= i < j < |r|
      ensures r[i] != r[j]
    {
      assert i < k ==> r[i] == q[i];
      assert i > k ==> r[i] == q[i - 1];
      assert j < k ==> r[j] == q[j];
      assert j > k ==> r[j] == q[j - 1];
    }
  }

  lemma InsertInOrder(q: seq<Tid>, key: Tid -> int, t: Tid, turn: bool, o: bool)
    requires InOrder(q, key, o) && t !in q
    ensures InOrder(Insert(q, key, t, turn), key, o)
  {
    InsertNoDup(q, key, t, turn);
    if o {
      InsertOrdered(q, key, t, turn);
    }
  }

  lemma RemoveInOrder(q: seq<Tid>, key: Tid -> int, t: Tid, o: bool)
    requires InOrder(q, key, o)
    ensures InOrder(Remove(q, t), key, o)
  {
    RemoveNoDup(q, t);
    if o {
      RemoveOrdered(q, key, t);
    }
  }

  lemma InOrderBySame(q: seq<Tid>, key: Tid -> int, key': Tid -> int, o: bool)
    requires InOrder(q, key, o) && forall x :: x in q ==> key(x) == key'(x)
    ensures InOrder(q, key', o)
  {
  }

  /** Keys that agree on the queue give the same order. */
  lemma SortedBySame(q: seq<Tid>, key: Tid -> int, key': Tid -> int)
    requires Sorted(q, key) && forall x :: x in q ==> key(x) == key'(x)
    ensures Sorted(q, key')
  {
  }

  lemma {:induction false} InsertSameKey(q: seq<Tid>, key: Tid -> int, key': Tid -> int, t: Tid, turn: bool)
    requires key(t) == key'(t) && forall x :: x in q ==> key(x) == key'(x)
    ensures Insert(q, key, t, turn) == Insert(q, key', t, turn)
  {
    if q != [] {
      InsertSameKey(q[1..], key, key', t, turn);
    }
  }

  /** A key that grows in place keeps the order exactly when it does not pass the next one. */
  lemma LaterInPlace(q: seq<Tid>, key: Tid -> int, key': Tid -> int, i: nat)
    requires NoDup(q) && Sorted(q, key) && i < |q| && key(q[i]) <= key'(q[i])
    requires forall x :: x in q && x != q[i] ==> key(x) == key'(x)
    ensures Sorted(q, key') <==> (i + 1 < |q| ==> key'(q[i]) <= key'(q[i + 1]))
  {
    if i + 1 < |q| ==> key'(q[i]) <= key'(q[i + 1]) {
      forall a, b | 0 <= a < b < |q|
        ensures key'(q[a]) <= key'(q[b])
      {
        assert key(q[a]) <= key(q[b]) && q[a] != q[b] && q[a] in q && q[b] in q;
        if a == i && b > i + 1 {
          assert key(q[i + 1]) <= key(q[b]) && q[i] != q[i + 1] && q[i + 1] in q;
        }
      }
    }
  }

  /** The list walk that finds the place. */
  method InsertInto(q: seq<Tid>, key: Tid -> int, t: Tid, turn: bool) returns (r: seq<Tid>)
    ensures r == Insert(q, key, t, turn)
  {
    var pos := 0;
    while pos < |q| && !Before(key, t, q[pos], turn)
      invariant 0 <= pos <= |q| && forall j :: 0 <= j < pos ==> !Before(key, t, q[j], turn)
    {
      pos := pos + 1;
    }
    PlaceIs(q, key, t, turn, pos);
    InsertAtPlace(q, key, t, turn);
    r := q[..pos] + [t] + q[pos..];
  }

  /** Everything ahead of `c` has a strictly smaller key. */
  ghost predicate First(q: seq<Tid>, key: Tid -> int, c: Tid) {
    forall i, j :: 0 <= i < j < |q| && q[j] == c ==> key(q[i]) < key(c)
  }

  lemma FirstInserted(q: seq<Tid>, key: Tid -> int, c: Tid)
    requires c !in q && Sorted(q, key)
    ensures First(Insert(q, key, c, true), key, c)
  {
    InsertAtPlace(q, key, c, true);
    PlaceAfterSmaller(q, key, c, true);
  }

  lemma {:induction false} PlaceAfterSmaller(q: seq<Tid>, key: Tid -> int, t: Tid, turn: bool)
    ensures forall i :: 0 <= i < Place(q, key, t, turn) ==> if turn then key(q[i]) < key(t) else key(q[i]) <= key(t)
    ensures var k := Place(q, key, t, turn); k < |q| ==> if turn then key(t) <= key(q[k]) else key(t) < key(q[k])
  {
    if q != [] && !(key(t) < key(q[0]) || (turn && key(t) == key(q[0]))) {
      PlaceAfterSmaller(q[1..], key, t, turn);
    }
  }

  /** Queueing another thread behind its equals does not overtake an equal key. */
  lemma FirstKept(q: seq<Tid>, key: Tid -> int, c: Tid, x: Tid)
    requires First(q, key, c) && NoDup(q) && Sorted(q, key) && x != c
    ensures First(Insert(q, key, x, false), key, c)
  {
    InsertAtPlace(q, key, x, false);
    PlaceAfterSmaller(q, key, x, false);
    var k, r := Place(q, key, x, false), Insert(q, key, x, false);
    forall i, j | 0 <= i < j < |r| && r[j] == c
      ensures key(r[i]) < key(c)
    {
      assert j < k ==> r[j] == q[j];
      assert j > k ==> r[j] == q[j - 1];
      assert i < k ==> r[i] == q[i];
      assert i > k ==> r[i] == q[i - 1];
    }
  }

  lemma FirstBySame(q: seq<Tid>, key: Tid -> int, key': Tid -> int, c: Tid)
    requires First(q, key, c) && forall x :: x in q ==> key(x) == key'(x)
    ensures First(q, key', c)
  {
  }

  // ---------------------------------------------------- walks that may move nodes

  /** Where `Insert` puts the new element. */
  function Place(q: seq<Tid>, key: Tid -> int, t: Tid, turn: bool): (k: nat)
    ensures k <= |q|
  {
    if q == [] then 0
    else if key(t) < key(q[0]) || (turn && key(t) == key(q[0])) then 0
    else 1 + Place(q[1..], key, t, turn)
  }

  lemma {:induction false} InsertAtPlace(q: seq<Tid>, key: Tid -> int, t: Tid, turn: bool)
    ensures var k := Place(q, key, t, turn);
            Insert(q, key, t, turn) == q[..k] + [t] + q[k..]
  {
    if q != [] && !(key(t) < key(q[0]) || (turn && key(t) == key(q[0]))) {
      InsertAtPlace(q[1..], key, t, turn);
      ConsSlices(q, Place(q[1..], key, t, turn), t);
    }
  }

  lemma ConsSlices(q: seq<Tid>, k: nat, t: Tid)
    requires q != [] && k <= |q[1..]|
    ensures [q[0]] + (q[1..][..k] + [t] + q[1..][k..]) == q[..k + 1] + [t] + q[k + 1..]
  {
    var a, b := q[1..][..k], q[1..][k..];
    assert q[..k + 1] == [q[0]] + a;
    assert q[k + 1..] == b;
    assert [q[0]] + (a + [t] + b) == ([q[0]] + a) + [t] + b;
  }

  /** The place is the first node that the new element goes before. */
  lemma {:induction false} PlaceIs(q: seq<Tid>, key: Tid -> int, t: Tid, turn: bool, pos: nat)
    requires pos <= |q| && forall j :: 0 <= j < pos ==> !Before(key, t, q[j], turn)
    requires pos < |q| ==> Before(key, t, q[pos], turn)
    ensures Place(q, key, t, turn) == pos
  {
    if pos > 0 {
      assert !Before(key, t, q[0], turn);
      forall j | 0 <= j < pos - 1
        ensures !Before(key, t, q[1..][j], turn)
      {
        assert q[1..][j] == q[j + 1];
      }
      PlaceIs(q[1..], key, t, turn, pos - 1);
    }
  }

  predicate Before(key: Tid -> int, t: Tid, x: Tid, turn: bool) { key(t) < key(x) || (turn && key(t) == key(x)) }

  lemma {:induction false} RemoveAt(q: seq<Tid>, i: nat)
    requires NoDup(q) && i < |q|
    ensures Remove(q, q[i]) == q[..i] + q[i + 1..]
  {
    if i > 0 {
      assert q[0] != q[i];
      RemoveAt(q[1..], i - 1);
      assert q[1..][i - 1] == q[i];
      assert q[..i] == [q[0]] + q[1..][..i - 1];
    }
  }

  /** Moving node `i` elsewhere: the node that followed it still follows exactly the nodes
      that preceded `i`, and perhaps the moved node. */
  lemma MoveNode(q: seq<Tid>, i: nat, key: Tid -> int, turn: bool, q': seq<Tid>) returns (j: nat)
    requires NoDup(q) && i < |q|
    requires q' == Insert(Remove(q, q[i]), key, q[i], turn)
    ensures |q'| == |q| && i <= j <= |q|
    ensures i + 1 < |q| ==> j < |q| && q'[j] == q[i + 1]
    ensures i + 1 == |q| ==> j == |q|
    ensures forall m :: 0 <= m < j ==> q'[m] == q[i] || q'[m] in q[..i]
  {
    var q1 := Remove(q, q[i]);
    RemoveAt(q, i);
    InsertAtPlace(q1, key, q[i], turn);
    var k := Place(q1, key, q[i], turn);
    j := if i < k then i else i + 1;
    forall m | 0 <= m < j
      ensures q'[m] == q[i] || q'[m] in q[..i]
    {
      if m < k {
        assert q'[m] == q1[m] == q[..i][m];
      } else if m > k {
        assert q'[m] == q1[m - 1] == q[..i][m - 1];
      }
    }
  }

  /** Three threads with rising keys can be in order in one way only. */
  lemma OrderOfThree(q: seq<Tid>, key: Tid -> int)
    requires InOrder(q, key, true) && (forall x :: x in q <==> x in {0, 1, 2}) && key(0) < key(1) < key(2)
    ensures q == [0, 1, 2]
  {
    forall a, b | 0 <= a < b < |q|
      ensures q[a] in {0, 1, 2} && q[b] in {0, 1, 2} && q[a] < q[b]
    {
      assert q[a] in q && q[b] in q && q[a] != q[b];
      assert key(q[a]) <= key(q[b]);
    }
    hide InOrder, Sorted, NoDup;
    assert 0 in q && 1 in q && 2 in q;
    var i0 :| 0 <= i0 < |q| && q[i0] == 0;
    var i1 :| 0 <= i1 < |q| && q[i1] == 1;
    var i2 :| 0 <= i2 < |q| && q[i2] == 2;
    assert i0 == 0 by {
      assert q[0] in q;
    }
    assert |q| == i2 + 1 by {
      assert q[|q| - 1] in q;
    }
    assert i1 == 1 by {
      assert q[1] in q;
    }
    assert i2 == 2 by {
      assert q[2] in q;
    }
  }
}
