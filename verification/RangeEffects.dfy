/** What the range operations do to the flat map, stated page by page, and what they keep
    of the tree on the way. */
module RangeEffects {
  import opened Common
  import opened Descriptors
  import opened TableTree

  /** What a range operation does to the translation of each page in its range. */
  datatype Op =
    | Delete
    | Modify(raise: Attr, clear: Attr)
    | Map(paddr: nat, vaddr: nat, prot: Attr, allowed: set<nat>)
  {
    /** Masks and protections carry no frame bits, and masks no type bits. */
    predicate Ok() {
      match this
      case Delete => true
      case Modify(raise, clear) => AttrOk(raise) && AttrOk(clear)
      case Map(_, _, prot, _) => prot & PFN_MASK == 0
    }
  }

  /** The promise: one page of the flat map. */
  function Apply(op: Op, v: nat, m: Option<Mapping>): Option<Mapping> {
    match op
    case Delete => None
    case Modify(raise, clear) => if m.None? then m else Some(m.value.(attr := Masked(m.value.attr, raise, clear)))
    case Map(pa, va, prot, _) =>
      if m.Some? || v < va then m else Some(Mapping(pa + (v - va), LeafAttr(prot)))
  }

  /** The level-`l` block of page `v` meets `[lo, hi)` and does not lie in it. */
  predicate Cut(l: nat, v: nat, lo: nat, hi: nat) {
    OffsetBounds(l, v);
    var b := v - Offset(l, v);
    lo < hi && b < hi && lo < b + Span(l) && !(lo <= b && b + Span(l) <= hi)
  }

  /** The leaf of page `v` after every block that `[lo, hi)` cuts has been split. */
  function Pieces(m: Leaf, v: nat, lo: nat, hi: nat): Leaf
    decreases m.lvl
  {
    if m.lvl >= 1 && Cut(m.lvl, v, lo, hi) then Pieces(Piece(m), v, lo, hi) else m
  }

  /** What the code does to one page: cut blocks are split first, then pages in range change.
      A new leaf has an allowed level; `Largest` says which. */
  predicate After(op: Op, v: nat, lo: nat, hi: nat, m0: Option<Leaf>, m1: Option<Leaf>) {
    if op.Map? then
      if lo <= v < hi && op.vaddr <= v && m0.None?
      then m1.Some? && (m1.value.lvl == 0 || m1.value.lvl in op.allowed) && Some(m1.value.at) == Apply(op, v, None)
      else m1 == m0
    else if m0.None? then m1 == m0
    else if lo <= v < hi && op.Delete? then m1 == None
    else
      var c := Pieces(m0.value, v, lo, hi);
      if lo <= v < hi && op.Modify?
      then m1 == Some(c.(at := c.at.(attr := Masked(c.at.attr, op.raise, op.clear))))
      else m1 == Some(c)
  }

  /** `op` on the range `[lo, hi)` has been carried out for the pages of `[w0, w1)`, and no
      other page has changed. */
  ghost predicate Changed(t0: Tree, t1: Tree, op: Op, lo: nat, hi: nat, w0: nat, w1: nat) {
    forall v: nat {:trigger LeafAt(t1, v)} :: v < PAGES ==>
      if w0 <= v < w1 then After(op, v, lo, hi, LeafAt(t0, v), LeafAt(t1, v)) else LeafAt(t1, v) == LeafAt(t0, v)
  }

  ghost predicate SameFlat(t0: Tree, t1: Tree) {
    forall v: nat {:trigger LeafAt(t1, v)} :: v < PAGES ==> LeafAt(t1, v) == LeafAt(t0, v)
  }

  lemma SameThenChanged(t0: Tree, t1: Tree, t2: Tree, op: Op, lo: nat, hi: nat, w0: nat, w1: nat)
    requires SameFlat(t0, t1) && Changed(t1, t2, op, lo, hi, w0, w1)
    ensures Changed(t0, t2, op, lo, hi, w0, w1)
  {
    hide LeafAt, After;
    forall v: nat | v < PAGES
      ensures if w0 <= v < w1 then After(op, v, lo, hi, LeafAt(t0, v), LeafAt(t2, v))
              else LeafAt(t2, v) == LeafAt(t0, v)
    {
      assert LeafAt(t1, v) == LeafAt(t0, v);
      assert LeafAt(t2, v) == LeafAt(t2, v);
    }
  }

  lemma ChangedThenSame(t0: Tree, t1: Tree, t2: Tree, op: Op, lo: nat, hi: nat, w0: nat, w1: nat)
    requires Changed(t0, t1, op, lo, hi, w0, w1) && SameFlat(t1, t2)
    ensures Changed(t0, t2, op, lo, hi, w0, w1)
  {
    hide LeafAt, After;
    forall v: nat | v < PAGES
      ensures if w0 <= v < w1 then After(op, v, lo, hi, LeafAt(t0, v), LeafAt(t2, v))
              else LeafAt(t2, v) == LeafAt(t0, v)
    {
      assert LeafAt(t2, v) == LeafAt(t1, v);
    }
  }

  lemma SameFlatRefl(t: Tree)
    ensures SameFlat(t, t)
  {
  }

  lemma ChangedThen(t0: Tree, t1: Tree, t2: Tree, op: Op, lo: nat, hi: nat, w0: nat, mid: nat, w1: nat)
    requires w0 <= mid <= w1
    requires Changed(t0, t1, op, lo, hi, w0, mid) && Changed(t1, t2, op, lo, hi, mid, w1)
    ensures Changed(t0, t2, op, lo, hi, w0, w1)
  {
    hide LeafAt, After;
    forall v: nat | v < PAGES
      ensures if w0 <= v < w1 then After(op, v, lo, hi, LeafAt(t0, v), LeafAt(t2, v))
              else LeafAt(t2, v) == LeafAt(t0, v)
    {
      assert if w0 <= v < mid then After(op, v, lo, hi, LeafAt(t0, v), LeafAt(t1, v))
             else LeafAt(t1, v) == LeafAt(t0, v);
      assert if mid <= v < w1 then After(op, v, lo, hi, LeafAt(t1, v), LeafAt(t2, v))
             else LeafAt(t2, v) == LeafAt(t1, v);
    }
  }

  /** Splitting a cut block first makes no difference to the result. */
  lemma SplitThenChanged(t0: Tree, t1: Tree, t2: Tree, g: Tag, i: nat, op: Op, lo: nat, hi: nat)
    requires !op.Map? && i < ENTRIES && TagOk(g) && SplitAt(t0, t1, g, i)
    requires Changed(t1, t2, op, lo, hi, Cell(g, i), Cell(g, i) + Span(g.lvl))
    requires Cut(g.lvl, Cell(g, i), lo, hi)
    ensures Changed(t0, t2, op, lo, hi, Cell(g, i), Cell(g, i) + Span(g.lvl))
  {
    hide LeafAt, Offset, Span, Cells, IndexAt;
    CellAligned(g.lvl, g.base, i);
    forall v: nat | v < PAGES
      ensures if InCell(g, i, v) then After(op, v, lo, hi, LeafAt(t0, v), LeafAt(t2, v))
              else LeafAt(t2, v) == LeafAt(t0, v)
    {
      assert if InCell(g, i, v) then After(op, v, lo, hi, LeafAt(t1, v), LeafAt(t2, v))
             else LeafAt(t2, v) == LeafAt(t1, v);
      if InCell(g, i, v) {
        IndexOfCell(g.lvl, g.base, i, v);
        assert Cut(g.lvl, v, lo, hi);
      }
    }
  }

  /** Tables above level `l` are untouched, except perhaps entry `(q, qi)`. */
  ghost predicate KeptAbove(l: int, t0: Tree, t1: Tree, q: nat, qi: nat) {
    && |t1.mem| == |t0.mem| && t1.root == t0.root && t1.start == t0.start
    && (forall p {:trigger p in t1.tag} :: p in t0.tag && t0.tag[p].lvl > l ==> p in t1.tag && t1.tag[p] == t0.tag[p])
    && (forall p, i: nat {:trigger At(t1.mem, p, i)} ::
          p in t0.tag && t0.tag[p].lvl > l && i < ENTRIES && (p != q || i != qi) && InPool(t0.mem, p) ==>
            At(t1.mem, p, i) == At(t0.mem, p, i))
  }

  /** No table other than the root and those in `e` is empty. */
  ghost predicate Trimmed(t: Tree, e: set<nat>) {
    forall p {:trigger p in e} {:trigger p in t.tag} :: p in t.tag ==> p in e || p == t.root || Occupied(t, p)
  }

  ghost predicate Occupied(t: Tree, p: nat) { InPool(t.mem, p) && !EmptyTable(t.mem, p) }

  lemma OccupiedKept(t0: Tree, t1: Tree, p: nat)
    requires Occupied(t0, p) && |t1.mem| == |t0.mem|
    requires forall i: nat :: i < ENTRIES && Present(At(t0.mem, p, i)) ==> Present(At(t1.mem, p, i))
    ensures Occupied(t1, p)
  {
    var i: nat :| i < ENTRIES && Present(At(t0.mem, p, i));
    assert Present(At(t1.mem, p, i));
  }

  lemma OccupiedBy(t: Tree, p: nat, i: nat)
    requires InPool(t.mem, p) && i < ENTRIES && Present(At(t.mem, p, i))
    ensures Occupied(t, p)
  {
  }

  /** One entry of table `p` changed; `p` is excused or its entry is still present. */
  lemma TrimmedAfterEntry(t0: Tree, t1: Tree, p: nat, i: nat, e: set<nat>)
    requires Inv(t0) && Trimmed(t0, e) && KeptAbove(-1, t0, t1, p, i)
    requires p in t0.tag && i < ENTRIES
    requires forall r :: r in t1.tag ==> r in t0.tag || r in e || Occupied(t1, r)
    requires p in e || Present(At(t1.mem, p, i))
    ensures Trimmed(t1, e)
  {
    forall r | r in t1.tag && r !in e && r != t1.root
      ensures Occupied(t1, r)
    {
      if r in t0.tag {
        OccupiedKept(t0, t1, r);
      }
    }
  }

  /** Changes below level `l`, or in table `p` at level `l`, stay within `KeptAbove`. */
  lemma KeptThen(l: nat, t0: Tree, t1: Tree, t2: Tree, q: nat, qi: nat, k: int, p: nat, i: nat)
    requires Inv(t0) && KeptAbove(l, t0, t1, q, qi) && KeptAbove(k, t1, t2, p, i) && k <= l
    requires p in t1.tag && (t1.tag[p].lvl <= l || (p == q && i == qi))
    ensures KeptAbove(l, t0, t2, q, qi)
  {
    forall r | r in t0.tag && t0.tag[r].lvl > l
      ensures r in t2.tag && t2.tag[r] == t0.tag[r]
    {
      assert r in t1.tag;
    }
    forall r, j: nat | r in t0.tag && t0.tag[r].lvl > l && j < ENTRIES && (r != q || j != qi)
      ensures At(t2.mem, r, j) == At(t0.mem, r, j)
    {
      assert r in t1.tag && At(t1.mem, r, j) == At(t0.mem, r, j);
    }
  }

  /** Deleting or modifying pages under an absent entry is doing nothing. */
  lemma ChangedAbsent(t: Tree, p: nat, i: nat, op: Op, lo: nat, hi: nat)
    requires Inv(t) && p in t.tag && i < ENTRIES && !op.Map? && !Present(At(t.mem, p, i))
    ensures Changed(t, t, op, lo, hi, Cell(t.tag[p], i), Cell(t.tag[p], i) + Span(t.tag[p].lvl))
  {
    hide IndexAt, Offset, Cells, Span, WalkFrom, LeafAt, Cut, Pieces;
    forall v: nat | v < PAGES && InCell(t.tag[p], i, v)
      ensures After(op, v, lo, hi, LeafAt(t, v), LeafAt(t, v))
    {
      FlatAtLeaf(t, p, i, v);
    }
  }

  /** What a present entry can be, and where `v` lies in it. */
  lemma EntryKinds(t: Tree, p: nat, i: nat, v: nat)
    requires Inv(t) && p in t.tag && i < ENTRIES && t.tag[p].lvl < TOP && InCell(t.tag[p], i, v)
    ensures InPool(t.mem, p)
    ensures t.tag[p].lvl >= 1 && Present(At(t.mem, p, i)) && !Large(At(t.mem, p, i)) ==>
              IsTable(t.tag[p].lvl, At(t.mem, p, i))
    ensures v - Offset(t.tag[p].lvl, v) == Cell(t.tag[p], i)
  {
    assert EntryOk(t, p, i);
    IndexOfCell(t.tag[p].lvl, t.tag[p].base, i, v);
  }

  /** The tables of `e` are tables above level `l`. */
  ghost predicate PathOk(t: Tree, e: set<nat>, l: int) {
    forall p :: p in e ==> p in t.tag && t.tag[p].lvl > l
  }

  lemma PathKept(l: int, t0: Tree, t1: Tree, q: nat, qi: nat, e: set<nat>)
    requires PathOk(t0, e, l) && KeptAbove(l, t0, t1, q, qi)
    ensures PathOk(t1, e, l)
  {
  }

  lemma KeptWeaken(k: int, l: int, t0: Tree, t1: Tree, q: nat, qi: nat)
    requires KeptAbove(k, t0, t1, q, qi) && k <= l
    ensures KeptAbove(l, t0, t1, q, qi)
  {
  }

  /** Nothing has been done yet, in an empty window. */
  lemma NothingYet(l: int, t: Tree, q: nat, qi: nat, op: Op, lo: nat, hi: nat, w: nat, e: set<nat>, e': set<nat>)
    requires Trimmed(t, e) && e <= e'
    ensures Trimmed(t, e') && KeptAbove(l, t, t, q, qi) && Changed(t, t, op, lo, hi, w, w)
  {
    hide LeafAt, After;
  }

  lemma TrimmedMore(t: Tree, e: set<nat>, e': set<nat>)
    requires Trimmed(t, e) && e <= e'
    ensures Trimmed(t, e')
  {
  }

  lemma RootKept(l: int, t0: Tree, t1: Tree, q: nat, qi: nat)
    requires KeptAbove(l, t0, t1, q, qi)
    ensures t1.root == t0.root
  {
  }

  lemma EntryKept(l: int, t0: Tree, t1: Tree, q: nat, qi: nat, p: nat, i: nat)
    requires Inv(t0) && KeptAbove(l, t0, t1, q, qi) && p in t0.tag && t0.tag[p].lvl > l && i < ENTRIES
    ensures |t1.mem| == |t0.mem| && t1.root == t0.root
    ensures (p, i) != (q, qi) ==> At(t1.mem, p, i) == At(t0.mem, p, i)
  {
  }

  lemma TagKept(l: int, t0: Tree, t1: Tree, q: nat, qi: nat, p: nat)
    requires KeptAbove(l, t0, t1, q, qi) && p in t0.tag && t0.tag[p].lvl > l
    ensures p in t1.tag && t1.tag[p] == t0.tag[p]
  {
  }

  /** One entry of table `c`, which hangs under `(q, qi)`, has been dealt with. */
  lemma EntryDone(l: nat, t0: Tree, t1: Tree, t2: Tree, q: nat, qi: nat, c: nat, index: nat, e: set<nat>)
    requires Inv(t0) && Inv(t1) && KeptAbove(l, t0, t1, q, qi) && KeptAbove(l - 1, t1, t2, c, index)
    requires c in t1.tag && t1.tag[c].lvl == l && q in t1.tag && t1.tag[q].lvl == l + 1 && qi < ENTRIES
    requires PathOk(t1, e, l - 1)
    ensures KeptAbove(l, t0, t2, q, qi) && PathOk(t2, e, l - 1) && t2.root == t0.root && |t2.mem| == |t1.mem|
    ensures c in t2.tag && t2.tag[c] == t1.tag[c] && q in t2.tag && t2.tag[q] == t1.tag[q]
    ensures At(t2.mem, q, qi) == At(t1.mem, q, qi)
  {
    hide KeptAbove, Inv, PathOk;
    EntryKept(l - 1, t1, t2, c, index, q, qi);
    RootKept(l, t0, t1, q, qi);
    TagKept(l - 1, t1, t2, c, index, c);
    TagKept(l - 1, t1, t2, c, index, q);
    PathKept(l - 1, t1, t2, c, index, e);
    KeptThen(l, t0, t1, t2, q, qi, l - 1, c, index);
  }

  /** The table behind a table entry. */
  lemma ChildOf(t: Tree, q: nat, qi: nat)
    requires Inv(t) && q in t.tag && qi < ENTRIES && IsTable(t.tag[q].lvl, At(t.mem, q, qi))
    ensures var f := At(t.mem, q, qi).frame;
            && f >= t.start && f - t.start in t.tag && f - t.start != t.root && f - t.start != q
            && t.tag[f - t.start] == Tag(t.tag[q].lvl - 1, Cell(t.tag[q], qi), q, qi)
            && Offset(t.tag[q].lvl, Cell(t.tag[q], qi)) == 0
            && InPool(t.mem, q) && InPool(t.mem, f - t.start)
  {
    assert EntryOk(t, q, qi);
    CellAligned(t.tag[q].lvl, t.tag[q].base, qi);
  }

  /** Freeing the emptied table, or keeping it occupied, restores the trimmed tree. */
  lemma AfterTryFree(l: nat, t0: Tree, t1: Tree, t2: Tree, q: nat, qi: nat, c: nat, e: set<nat>)
    requires Inv(t0) && Inv(t1) && KeptAbove(l, t0, t1, q, qi) && Trimmed(t1, e + {c})
    requires c in t1.tag && t1.tag[c].lvl <= l && q in e
    requires KeptAbove(-1, t1.(tag := t1.tag - {c}), t2, q, qi)
    requires t2.tag.Keys <= t1.tag.Keys && (c in t2.tag ==> Occupied(t2, c))
    ensures Trimmed(t2, e) && KeptAbove(l, t0, t2, q, qi)
  {
    forall r | r in t2.tag && r !in e && r != t2.root
      ensures Occupied(t2, r)
    {
      if r != c {
        assert r in t1.tag;
        OccupiedKept(t1, t2, r);
      }
    }
    forall r | r in t0.tag && t0.tag[r].lvl > l
      ensures r in t2.tag && t2.tag[r] == t0.tag[r]
    {
      assert r in t1.tag;
    }
    forall r, j: nat | r in t0.tag && t0.tag[r].lvl > l && j < ENTRIES && (r != q || j != qi)
      ensures At(t2.mem, r, j) == At(t0.mem, r, j)
    {
      assert r in t1.tag && At(t1.mem, r, j) == At(t0.mem, r, j);
    }
  }

  lemma LinkedKept(t0: Tree, t1: Tree, p: nat, i: nat, c: nat)
    requires Inv(t0) && SameTables(t0, t1.mem) && t1 == t0.(mem := t1.mem)
    requires p in t0.tag && i < ENTRIES && t0.tag[p].lvl >= 1 && c !in t0.tag
    ensures KeptAbove(-1, t0, Linked(t1, p, i, c), p, i)
  {
  }

  /** `local_modify_or_del_pte` on the descriptor. */
  function NewDesc(op: Op, d: Desc): Desc
    requires !op.Map?
  {
    if op.Modify? then d.(attr := Masked(d.attr, op.raise, op.clear)) else ABSENT
  }

  /** A leaf that lies in the range, replaced by what `op` makes of it. */
  lemma ChangedLeaf(t: Tree, p: nat, i: nat, op: Op, d: Desc, lo: nat, hi: nat)
    requires Inv(t) && p in t.tag && i < ENTRIES && op.Ok() && !op.Map?
    requires Present(At(t.mem, p, i)) && !IsTable(t.tag[p].lvl, At(t.mem, p, i))
    requires d == NewDesc(op, At(t.mem, p, i))
    requires lo <= Cell(t.tag[p], i) && Cell(t.tag[p], i) + Span(t.tag[p].lvl) <= hi
    ensures var t' := t.(mem := Put(t.mem, p, i, d));
            Inv(t') && Changed(t, t', op, lo, hi, Cell(t.tag[p], i), Cell(t.tag[p], i) + Span(t.tag[p].lvl))
  {
    hide IndexAt, Offset, Cells, Span, WalkFrom, LeafAt, Masked, AttrOk;
    var g, d0 := t.tag[p], At(t.mem, p, i);
    var t' := t.(mem := Put(t.mem, p, i, d));
    assert EntryOk(t, p, i);
    if op.Modify? {
      MaskedOk(d0.attr, op.raise, op.clear);
    }
    WriteLeaf(t, p, i, d);
    forall v: nat | v < PAGES
      ensures if InCell(g, i, v) then After(op, v, lo, hi, LeafAt(t, v), LeafAt(t', v))
              else LeafAt(t', v) == LeafAt(t, v)
    {
      if InCell(g, i, v) {
        FlatAtLeaf(t, p, i, v);
        IndexOfCell(g.lvl, g.base, i, v);
        assert !Cut(g.lvl, v, lo, hi);
      }
    }
  }

  /** Mapping over pages that are mapped already changes nothing. */
  lemma ChangedMapped(t: Tree, p: nat, i: nat, op: Op, lo: nat, hi: nat)
    requires Inv(t) && p in t.tag && i < ENTRIES && op.Map?
    requires Present(At(t.mem, p, i)) && !IsTable(t.tag[p].lvl, At(t.mem, p, i))
    ensures Changed(t, t, op, lo, hi, Cell(t.tag[p], i), Cell(t.tag[p], i) + Span(t.tag[p].lvl))
    ensures AllMapped(t, Cell(t.tag[p], i), Cell(t.tag[p], i) + Span(t.tag[p].lvl))
  {
    hide IndexAt, Offset, Cells, Span, WalkFrom, LeafAt;
    forall v: nat | v < PAGES && InCell(t.tag[p], i, v)
      ensures After(op, v, lo, hi, LeafAt(t, v), LeafAt(t, v)) && LeafAt(t, v).Some?
    {
      FlatAtLeaf(t, p, i, v);
    }
  }

  /** A new leaf in place of an absent entry maps exactly its own cell, at its own level. */
  lemma ChangedNewLeaf(t: Tree, p: nat, i: nat, op: Op, frame: nat, lo: nat, hi: nat)
    requires Inv(t) && p in t.tag && i < ENTRIES && t.tag[p].lvl < TOP && op.Map? && op.Ok()
             && !Present(At(t.mem, p, i))
    requires op.vaddr <= Cell(t.tag[p], i) && frame == op.paddr + (Cell(t.tag[p], i) - op.vaddr)
    requires Offset(t.tag[p].lvl, frame) == 0 && (t.tag[p].lvl == 0 || t.tag[p].lvl in op.allowed)
    requires lo <= Cell(t.tag[p], i) && Cell(t.tag[p], i) + Span(t.tag[p].lvl) <= hi
    ensures var t' := t.(mem := Put(t.mem, p, i, LeafDesc(t.tag[p].lvl, frame, op.prot)));
            && Inv(t') && Changed(t, t', op, lo, hi, Cell(t.tag[p], i), Cell(t.tag[p], i) + Span(t.tag[p].lvl))
            && MappedAt(t', t.tag[p].lvl, Cell(t.tag[p], i), Cell(t.tag[p], i) + Span(t.tag[p].lvl))
  {
    hide IndexAt, Offset, Cells, Span, WalkFrom, LeafAt, LeafAttr, EntryOk, ParentOk, TagOk, AttrOk;
    var g, d := t.tag[p], LeafDesc(t.tag[p].lvl, frame, op.prot);
    var t' := t.(mem := Put(t.mem, p, i, d));
    LeafAttrOnlyAddsAccessFlag(op.prot);
    WriteLeaf(t, p, i, d);
    forall v: nat | v < PAGES
      ensures if InCell(g, i, v) then After(op, v, lo, hi, LeafAt(t, v),
                                            LeafAt(t', v)) && LeafAt(t', v).Some? && LeafAt(t', v).value.lvl == g.lvl
              else LeafAt(t', v) == LeafAt(t, v)
    {
      if InCell(g, i, v) {
        FlatAtLeaf(t, p, i, v);
      }
    }
  }

  /** The pages of a table that lie outside the cells visited are outside the range, in blocks
      the range does not cut: the whole table is done. */
  lemma WindowGrows(t0: Tree, t1: Tree, c: nat, op: Op, lo: nat, hi: nat, w0: nat, w1: nat)
    requires Inv(t0) && c in t0.tag && Changed(t0, t1, op, lo, hi, w0, w1)
    requires Offset(t0.tag[c].lvl, w0) == 0 && Offset(t0.tag[c].lvl, w1) == 0
    requires w0 == t0.tag[c].base || (t0.tag[c].base <= w0 <= lo)
    requires w1 == t0.tag[c].base + Span(t0.tag[c].lvl + 1) || (hi <= w1 <= t0.tag[c].base + Span(t0.tag[c].lvl + 1))
    ensures Changed(t0, t1, op, lo, hi, t0.tag[c].base, t0.tag[c].base + Span(t0.tag[c].lvl + 1))
  {
    hide IndexAt, Offset, Cells, Span, WalkFrom, LeafAt, EntryOk, ParentOk, TagOk;
    var g := t0.tag[c];
    forall v: nat | v < PAGES && Covers(g, v)
      ensures After(op, v, lo, hi, LeafAt(t0, v), LeafAt(t1, v))
    {
      assert LeafAt(t1, v) == LeafAt(t1, v);
      if !(w0 <= v < w1) && LeafAt(t0, v).Some? {
        WalkReaches(t0, c, v);
        var k := LeafAt(t0, v).value.lvl;
        BlockOneSide(k, g.lvl, v, if v < w0 then w0 else w1);
        assert !Cut(k, v, lo, hi);
      }
    }
  }

  /** An operation on no page at all. */
  lemma EmptyRange(t: Tree, op: Op, lo: nat, w0: nat, w1: nat)
    ensures Changed(t, t, op, lo, lo, w0, w1)
  {
    hide LeafAt;
  }

  /** From the top-level cells visited to the whole map. */
  lemma WholeMap(t0: Tree, t1: Tree, op: Op, lo: nat, hi: nat, w0: nat, w1: nat)
    requires Inv(t0) && Changed(t0, t1, op, lo, hi, w0, w1) && w0 <= lo && hi <= w1 <= PAGES
    requires Offset(TOP, w0) == 0 && Offset(TOP, w1) == 0
    ensures Changed(t0, t1, op, lo, hi, 0, PAGES)
  {
    hide Changed, Offset, EntryOk, ParentOk;
    WindowGrows(t0, t1, t0.root, op, lo, hi, w0, w1);
  }

  /** The root entry for `v`, which starts at `w`. */
  lemma TopCell(t: Tree, v: nat, w: nat)
    requires Inv(t) && v < PAGES && Offset(TOP, w) == 0 && (v == w || w == v - Offset(TOP, v))
    ensures t.root in t.tag && t.tag[t.root].lvl == TOP && InPool(t.mem, t.root)
    ensures InCell(t.tag[t.root], IndexAt(TOP, v), v) && Cell(t.tag[t.root], IndexAt(TOP, v)) == w
    ensures NextCell(TOP, v) == w + Span(TOP) <= PAGES && Offset(TOP, w + Span(TOP)) == 0
    ensures Present(At(t.mem, t.root, IndexAt(TOP, v))) ==> IsTable(TOP, At(t.mem, t.root, IndexAt(TOP, v)))
  {
    hide Offset, Cells, IndexAt, EntryOk, ParentOk;
    RootCell(t, v);
    NextAligned(TOP, w);
    CellAligned(TOP, 0, IndexAt(TOP, v));
  }

  lemma EntryInPool(t: Tree, p: nat)
    requires Inv(t) && p in t.tag
    ensures InPool(t.mem, p)
  {
  }

  /** A block that the range does not contain, but enters at `v`, is cut by it. */
  lemma CutByRange(t: Tree, c: nat, i: nat, v: nat, lo: nat, hi: nat)
    requires Inv(t) && c in t.tag && i < ENTRIES && InCell(t.tag[c], i, v)
    requires lo <= v < hi && (v == lo || v == Cell(t.tag[c], i))
    requires NextCell(t.tag[c].lvl, v) > hi || Offset(t.tag[c].lvl, v) != 0
    ensures Cut(t.tag[c].lvl, Cell(t.tag[c], i), lo, hi) && TagOk(t.tag[c])
  {
    hide Offset, Span, Cells, IndexAt, EntryOk, ParentOk;
    var g := t.tag[c];
    CellAligned(g.lvl, g.base, i);
    IndexOfCell(g.lvl, g.base, i, v);
    IndexOfCell(g.lvl, g.base, i, Cell(g, i));
  }

  /** The new table under `(p, i)` holds the pieces of the block that was there. */
  lemma SplitLinked(t0: Tree, t1: Tree, p: nat, i: nat, c: nat)
    requires Inv(t0) && Inv(t1) && SameTables(t0, t1.mem) && t1 == t0.(mem := t1.mem)
    requires HoldsPieces(t1, p, i, c) && Large(At(t1.mem, p, i)) && c !in t0.tag
    ensures Inv(Linked(t1, p, i, c)) && KeptAbove(-1, t0, Linked(t1, p, i, c), p, i)
    ensures SplitAt(t0, Linked(t1, p, i, c), t0.tag[p], i)
    ensures Occupied(Linked(t1, p, i, c), c)
  {
    hide IndexAt, Offset, Cells, Span, WalkFrom, LeafAt, LeafAttr, EntryOk, ParentOk, TagOk, LeafOk, Inv, SplitAt,
      Linked;
    WriteFreePage(t0, t1.mem);
    LinkSplit(t1, p, i, c);
    SplitSame(t0, t1, Linked(t1, p, i, c), t0.tag[p], i);
    LinkedKept(t0, t1, p, i, c);
    PiecesThere(t1, p, i, c);
  }

  lemma SplitSame(t0: Tree, t1: Tree, t2: Tree, g: Tag, i: nat)
    requires SplitAt(t1, t2, g, i)
    requires forall v: nat :: v < PAGES ==> LeafAt(t1, v) == LeafAt(t0, v)
    ensures SplitAt(t0, t2, g, i)
  {
    hide LeafAt, InCell;
    forall v: nat | v < PAGES
      ensures if InCell(g, i, v)
              then LeafAt(t0, v).Some? && LeafAt(t0, v).value.lvl == g.lvl >= 1
                   && LeafAt(t2, v) == Some(Piece(LeafAt(t0, v).value))
              else LeafAt(t2, v) == LeafAt(t0, v)
    {
      assert LeafAt(t1, v) == LeafAt(t0, v);
      assert LeafAt(t2, v) == LeafAt(t2, v);
    }
  }

  lemma PiecesThere(t: Tree, p: nat, i: nat, c: nat)
    requires HoldsPieces(t, p, i, c) && c != p
    ensures Occupied(Linked(t, p, i, c), c)
  {
    hide Cells, LeafAttr;
    assert At(t.mem, c, 0) == SplitDesc(t.tag[p].lvl, At(t.mem, p, i), 0);
    OccupiedBy(Linked(t, p, i, c), c, 0);
  }

  // --------------------------------------------------- the size of new leaves

  ghost predicate AllMapped(t: Tree, w0: nat, w1: nat) {
    forall v: nat {:trigger LeafAt(t, v)} :: w0 <= v < w1 && v < PAGES ==> LeafAt(t, v).Some?
  }

  ghost predicate MappedAt(t: Tree, l: nat, w0: nat, w1: nat) {
    forall v: nat {:trigger LeafAt(t, v)} :: w0 <= v < w1 && v < PAGES ==>
      LeafAt(t, v).Some? && LeafAt(t, v).value.lvl == l
  }

  /** Policy, range and alignment allow the level-`l` block of `v` to be one leaf of `op`. */
  predicate Eligible(op: Op, l: nat, v: nat, hi: nat)
    requires op.Map?
  {
    OffsetBounds(l, v);
    var b := v - Offset(l, v);
    1 <= l < TOP && l in op.allowed && op.vaddr <= b && b + Span(l) <= hi && Offset(l, op.paddr + (b - op.vaddr)) == 0
  }

  /** No page of the level-`l` block of `v` is mapped. */
  ghost predicate Vacant(t: Tree, l: nat, v: nat) {
    forall u: nat {:trigger LeafAt(t, u)} :: u < PAGES && SameBlock(l, v, u) ==> LeafAt(t, u).None?
  }

  /** Every block up to level `top` that could be one leaf, and was vacant, is one leaf or part
      of a larger one. */
  ghost predicate Largest(t0: Tree, t1: Tree, op: Op, hi: nat, w0: nat, w1: nat, top: nat)
    requires op.Map?
  {
    forall v: nat, l: nat {:trigger LeafAt(t1, v), Eligible(op, l, v, hi)} ::
      w0 <= v < w1 && v < PAGES && 1 <= l <= top && Eligible(op, l, v, hi) && Vacant(t0, l, v) ==>
        LeafAt(t1, v).Some? && l <= LeafAt(t1, v).value.lvl
  }

  lemma LargestNothing(t: Tree, op: Op, hi: nat, w: nat, top: nat)
    requires op.Map?
    ensures Largest(t, t, op, hi, w, w, top)
  {
  }

  /** Where every page was mapped before, there is nothing to show. */
  lemma LargestMapped(t: Tree, op: Op, hi: nat, w0: nat, w1: nat, top: nat)
    requires op.Map? && AllMapped(t, w0, w1)
    ensures Largest(t, t, op, hi, w0, w1, top)
  {
    hide LeafAt, Offset, Span, Eligible;
    forall v: nat, l: nat | w0 <= v < w1 && v < PAGES
      ensures !Vacant(t, l, v)
    {
      OffsetBounds(l, v);
      assert SameBlock(l, v, v) && LeafAt(t, v).Some?;
    }
  }

  /** A new leaf of level `top` settles its cell. */
  lemma LargestLeaf(t0: Tree, t1: Tree, op: Op, hi: nat, w0: nat, w1: nat, top: nat)
    requires op.Map? && MappedAt(t1, top, w0, w1)
    ensures Largest(t0, t1, op, hi, w0, w1, top)
  {
  }

  lemma LargestSame(t0: Tree, t1: Tree, t2: Tree, op: Op, hi: nat, w0: nat, w1: nat, top: nat)
    requires op.Map? && SameFlat(t0, t1) && Largest(t1, t2, op, hi, w0, w1, top)
    ensures Largest(t0, t2, op, hi, w0, w1, top)
  {
    hide LeafAt, Offset, Span, Eligible, SameBlock;
    forall v: nat, l: nat | w0 <= v < w1 && v < PAGES && 1 <= l <= top && Eligible(op, l, v, hi) && Vacant(t0, l, v)
      ensures LeafAt(t2, v).Some? && l <= LeafAt(t2, v).value.lvl
    {
      forall u: nat | u < PAGES && SameBlock(l, v, u)
        ensures LeafAt(t1, u).None?
      {
        assert LeafAt(t0, u).None?;
      }
    }
  }

  /** From the entries of a child table to the entry above it, which was not a candidate:
      either not eligible or not vacant. */
  lemma LargestUp(t0: Tree, t1: Tree, g: Tag, i: nat, op: Op, hi: nat)
    requires op.Map? && i < ENTRIES && TagOk(g) && g.lvl >= 1
    requires Largest(t0, t1, op, hi, Cell(g, i), Cell(g, i) + Span(g.lvl), g.lvl - 1)
    requires !Eligible(op, g.lvl, Cell(g, i), hi)
             || exists u: nat :: u < PAGES && InCell(g, i, u) && LeafAt(t0, u).Some?
    ensures Largest(t0, t1, op, hi, Cell(g, i), Cell(g, i) + Span(g.lvl), g.lvl)
  {
    hide LeafAt, Offset, Span, Cells, IndexAt;
    CellAligned(g.lvl, g.base, i);
    forall v: nat | InCell(g, i, v) && v < PAGES
      ensures !(Eligible(op, g.lvl, v, hi) && Vacant(t0, g.lvl, v))
    {
      IndexOfCell(g.lvl, g.base, i, v);
      IndexOfCell(g.lvl, g.base, i, Cell(g, i));
      if Eligible(op, g.lvl, v, hi) {
        assert Eligible(op, g.lvl, Cell(g, i), hi);
        var u: nat :| u < PAGES && InCell(g, i, u) && LeafAt(t0, u).Some?;
        assert SameBlock(g.lvl, v, u);
      }
    }
  }

  lemma LargestThen(t0: Tree, t1: Tree, t2: Tree, op: Op, lo: nat, hi: nat, w0: nat, mid: nat, w1: nat, top: nat,
                    a: nat)
    requires op.Map? && w0 <= mid <= w1 && top <= a && Offset(a, mid) == 0
    requires Changed(t0, t1, op, lo, hi, w0, mid) && Changed(t1, t2, op, lo, hi, mid, w1)
    requires Largest(t0, t1, op, hi, w0, mid, top) && Largest(t1, t2, op, hi, mid, w1, top)
    ensures Largest(t0, t2, op, hi, w0, w1, top)
  {
    hide LeafAt, Offset, Span, Eligible, After;
    forall v: nat, l: nat | w0 <= v < w1 && v < PAGES && 1 <= l <= top && Eligible(op, l, v, hi) && Vacant(t0, l, v)
      ensures LeafAt(t2, v).Some? && l <= LeafAt(t2, v).value.lvl
    {
      if v < mid {
        assert LeafAt(t2, v) == LeafAt(t1, v);
      } else {
        BlockOneSide(l, a, v, mid);
        forall u: nat | u < PAGES && SameBlock(l, v, u)
          ensures LeafAt(t1, u).None?
        {
          assert LeafAt(t1, u) == LeafAt(t0, u);
        }
      }
    }
  }

  /** Pages outside the range are in no eligible block. */
  lemma LargestGrows(t0: Tree, t1: Tree, op: Op, hi: nat, w0: nat, w1: nat, x0: nat, x1: nat, top: nat)
    requires op.Map? && Largest(t0, t1, op, hi, w0, w1, top)
    requires (w0 <= x0 || w0 <= op.vaddr) && (x1 <= w1 || hi <= w1)
    ensures Largest(t0, t1, op, hi, x0, x1, top)
  {
    hide LeafAt, Offset, Span, Vacant;
    forall v: nat, l: nat | x0 <= v < x1 && v < PAGES && 1 <= l <= top && Eligible(op, l, v, hi) && Vacant(t0, l, v)
      ensures LeafAt(t1, v).Some? && l <= LeafAt(t1, v).value.lvl
    {
      OffsetBounds(l, v);
    }
  }

  /** A table that is not empty, in a trimmed tree, maps some page. */
  lemma {:induction false} OccupiedMaps(t: Tree, e: set<nat>, n: nat) returns (u: nat)
    requires Inv(t) && Trimmed(t, e) && n in t.tag && PathOk(t, e, t.tag[n].lvl) && Occupied(t, n)
    ensures u < PAGES && Covers(t.tag[n], u) && LeafAt(t, u).Some?
    decreases t.tag[n].lvl
  {
    hide IndexAt, Offset, Cells, Span, WalkFrom, LeafAt, ParentOk;
    var g := t.tag[n];
    var i: nat :| i < ENTRIES && Present(At(t.mem, n, i));
    CellAligned(g.lvl, g.base, i);
    if IsTable(g.lvl, At(t.mem, n, i)) {
      ChildOf(t, n, i);
      u := OccupiedMaps(t, e, At(t.mem, n, i).frame - t.start);
    } else {
      u := Cell(g, i);
      FlatAtLeaf(t, n, i, u);
    }
  }

  /** One step of the walk of `v` from the root, at table `p` on its way. */
  lemma WalkStep(t: Tree, p: nat, v: nat)
    requires Inv(t) && p in t.tag && Covers(t.tag[p], v)
    ensures InPool(t.mem, p)
    ensures var l := t.tag[p].lvl;
            var d := At(t.mem, p, IndexAt(l, v));
            && (!Present(d) ==> LeafAt(t, v) == None)
            && (Present(d) && !IsTable(l, d) ==>
                  LeafOk(l, d) && LeafAt(t, v) == Some(Leaf(Mapping(d.frame + Offset(l, v), d.attr), l)))
            && (IsTable(l, d) ==>
                  && d.frame >= t.start && d.frame - t.start in t.tag && InPool(t.mem, d.frame - t.start)
                  && t.tag[d.frame - t.start].lvl == l - 1 && Covers(t.tag[d.frame - t.start], v))
  {
    hide IndexAt, Offset, Cells, Span, WalkFrom, LeafAt, Inv, EntryOk, LeafOk, Covers;
    WalkReaches(t, p, v);
    WalkDown(t, p, v);
  }

  /** A tree a caller may hold between operations. */
  ghost predicate Settled(t: Tree) { Inv(t) && Trimmed(t, {}) }

  lemma RootExcused(t: Tree)
    requires Inv(t)
    ensures Trimmed(t, {t.root}) <==> Trimmed(t, {})
    ensures PathOk(t, {t.root}, TOP - 1)
  {
  }

  /** The root entry for `v`, and the cell it covers. */
  lemma RootCell(t: Tree, v: nat)
    requires Inv(t) && v < PAGES
    ensures t.root in t.tag && t.tag[t.root].lvl == TOP && InPool(t.mem, t.root)
    ensures InCell(t.tag[t.root], IndexAt(TOP, v), v)
    ensures v - Offset(TOP, v) == Cell(t.tag[t.root], IndexAt(TOP, v))
    ensures Present(At(t.mem, t.root, IndexAt(TOP, v))) ==> IsTable(TOP, At(t.mem, t.root, IndexAt(TOP, v)))
  {
    var i := IndexAt(TOP, v);
    CellOf(TOP, 0, v);
    assert EntryOk(t, t.root, i);
  }

  lemma TrimmedDrop(t: Tree, e: set<nat>, c: nat)
    requires Trimmed(t, e + {c}) && Occupied(t, c)
    ensures Trimmed(t, e)
  {
  }

  /** An entry that is not made one leaf could not have been: it is a table, hence not vacant,
      or one of the leaf conditions fails. */
  lemma NotOneLeaf(t: Tree, e: set<nat>, c: nat, i: nat, paddr: nat, v: nat, hi: nat, op: Op)
    requires Inv(t) && Trimmed(t, e) && c in t.tag && i < ENTRIES && 1 <= t.tag[c].lvl < TOP && InCell(t.tag[c], i, v)
    requires PathOk(t, e, t.tag[c].lvl - 1) && op.Map?
    requires op.vaddr <= v < hi && paddr == op.paddr + (v - op.vaddr) && (v == op.vaddr || v == Cell(t.tag[c], i))
    requires if Present(At(t.mem, c, i)) then IsTable(t.tag[c].lvl, At(t.mem, c, i))
             else !(t.tag[c].lvl in op.allowed && Offset(t.tag[c].lvl, paddr) == 0 && Offset(t.tag[c].lvl, v) == 0
                    && NextCell(t.tag[c].lvl, v) <= hi)
    ensures TagOk(t.tag[c])
    ensures !Eligible(op, t.tag[c].lvl, Cell(t.tag[c], i), hi)
            || exists u: nat :: u < PAGES && InCell(t.tag[c], i, u) && LeafAt(t, u).Some?
  {
    hide IndexAt, Offset, Cells, Span, WalkFrom, LeafAt, EntryOk, ParentOk;
    var g := t.tag[c];
    CellAligned(g.lvl, g.base, i);
    IndexOfCell(g.lvl, g.base, i, v);
    IndexOfCell(g.lvl, g.base, i, Cell(g, i));
    if Present(At(t.mem, c, i)) {
      ChildOf(t, c, i);
      var n := At(t.mem, c, i).frame - t.start;
      assert n !in e;
      var u := OccupiedMaps(t, e, n);
    }
  }

  // ------------------------------------------------- when the promise is met

  /** The promise for the whole map: `op` on the pages of the range, nothing elsewhere. */
  ghost predicate Exactly(t0: Tree, t1: Tree, op: Op, lo: nat, hi: nat) {
    forall v: nat {:trigger Flat(t1, v)} :: v < PAGES ==>
      Flat(t1, v) == if lo <= v < hi then Apply(op, v, Flat(t0, v)) else Flat(t0, v)
  }

  /** If page `w` is inside a block, that block has its access flag set. */
  predicate FlagAtCut(t: Tree, w: nat) {
    w < PAGES && LeafAt(t, w).Some? && Offset(LeafAt(t, w).value.lvl, w) != 0 ==> HasFlag(LeafAt(t, w).value.at.attr)
  }

  /** A leaf has attribute bits only, and its block lies below the top of the map. */
  lemma LeafGood(t: Tree, v: nat)
    requires Inv(t) && v < PAGES && LeafAt(t, v).Some?
    ensures AttrOk(LeafAt(t, v).value.at.attr) && LeafAt(t, v).value.lvl < TOP
  {
    hide IndexAt, Offset, Cells, Span, WalkFrom, LeafAt, EntryOk, ParentOk, TagOk, AttrOk;
    RootCovers(t, v);
    LeafGoodFrom(t, t.root, v);
  }

  lemma {:induction false} LeafGoodFrom(t: Tree, p: nat, v: nat)
    requires Inv(t) && p in t.tag && Covers(t.tag[p], v) && LeafAt(t, v).Some?
    ensures AttrOk(LeafAt(t, v).value.at.attr) && LeafAt(t, v).value.lvl < TOP
    decreases t.tag[p].lvl
  {
    hide IndexAt, Offset, Cells, Span, WalkFrom, LeafAt, EntryOk, ParentOk, TagOk, AttrOk;
    WalkStep(t, p, v);
    var d := At(t.mem, p, IndexAt(t.tag[p].lvl, v));
    if IsTable(t.tag[p].lvl, d) {
      LeafGoodFrom(t, d.frame - t.start, v);
    }
  }

  /** Splitting adds the access flag to the pieces, and nothing else. */
  lemma {:induction false} PiecesAddFlag(m: Leaf, v: nat, lo: nat, hi: nat)
    requires AttrOk(m.at.attr)
    ensures var c := Pieces(m, v, lo, hi);
            && c.at.frame == m.at.frame
            && c.at.attr == if m.lvl >= 1 && Cut(m.lvl, v, lo, hi) then WithFlag(m.at.attr) else m.at.attr
    decreases m.lvl
  {
    hide AttrOk, LeafAttr, Cut, HasFlag, WithFlag;
    if m.lvl >= 1 && Cut(m.lvl, v, lo, hi) {
      LeafAttrOk(m.at.attr);
      PiecesAddFlag(Piece(m), v, lo, hi);
      FlagTwice(m.at.attr);
    }
  }

  /** The leaf of a page, read at another page of its block. */
  lemma BlockMate(t: Tree, v: nat, u: nat)
    requires Inv(t) && v < PAGES && LeafAt(t, v).Some? && SameBlock(LeafAt(t, v).value.lvl, v, u)
    ensures u < PAGES && SameLeaf(LeafAt(t, v).value, v, LeafAt(t, u), u)
  {
    hide IndexAt, Offset, Cells, Span, WalkFrom, EntryOk, ParentOk, TagOk, SameBlock;
    RootCovers(t, v);
    OneLeafPerBlock(t, t.root, v, u, LeafAt(t, v).value);
  }

  /** A page outside the range keeps its translation, or its block was cut by the range and the
      page gained the access flag. */
  lemma OutsideOnlyFlag(t0: Tree, t1: Tree, op: Op, lo: nat, hi: nat, v: nat)
    requires Inv(t0) && Changed(t0, t1, op, lo, hi, 0, PAGES) && !op.Map? && v < PAGES && !(lo <= v < hi)
    ensures Flat(t1, v).Some? == Flat(t0, v).Some?
    ensures Flat(t0, v).Some? ==>
              && Flat(t1, v).value.frame == Flat(t0, v).value.frame
              && Flat(t1, v).value.attr ==
                   (if LeafAt(t0, v).value.lvl >= 1 && Cut(LeafAt(t0, v).value.lvl, v, lo, hi)
                    then WithFlag(Flat(t0, v).value.attr) else Flat(t0, v).value.attr)
  {
    hide LeafAt, Cut;
    assert After(op, v, lo, hi, LeafAt(t0, v), LeafAt(t1, v));
    if LeafAt(t0, v).Some? {
      LeafGood(t0, v);
      PiecesAddFlag(LeafAt(t0, v).value, v, lo, hi);
    }
  }

  lemma CutNotEmpty(l: nat, v: nat, lo: nat, hi: nat)
    requires Cut(l, v, lo, hi)
    ensures lo < hi
  {
  }

  /** A cut block holds one end of the range in its interior. */
  lemma CutHoldsAnEnd(t: Tree, v: nat, lo: nat, hi: nat)
    requires Inv(t) && v < PAGES && LeafAt(t, v).Some? && LeafAt(t, v).value.lvl >= 1
    requires Cut(LeafAt(t, v).value.lvl, v, lo, hi) && FlagAtCut(t, lo) && FlagAtCut(t, hi)
    ensures HasFlag(LeafAt(t, v).value.at.attr)
  {
    hide LeafAt, Offset, Span;
    var k := LeafAt(t, v).value.lvl;
    OffsetBounds(k, v);
    var b := v - Offset(k, v);
    var w := if b < lo then lo else hi;
    assert b < w < b + Span(k);
    BlockMate(t, v, w);
    OffsetInBlock(k, b, w);
  }

  /** ... and an end of the range in the interior of a block cuts that block. */
  lemma EndCuts(l: nat, w: nat, u: nat, lo: nat, hi: nat)
    requires lo < hi && Offset(l, w) != 0 && ((w == lo && u + 1 == lo) || (w == hi && u == hi))
    ensures l >= 1 && Cut(l, u, lo, hi) && SameBlock(l, w, u)
  {
    hide Offset, Span;
    OffsetOfPage(l, w);
    OffsetBounds(l, w);
    OffsetInBlock(l, w - Offset(l, w), u);
  }

  /** The range operation does exactly what it promises if and only if the blocks that the two
      ends of the range fall into, when they fall inside one, have their access flag set. */
  lemma ExactlyWhen(t0: Tree, t1: Tree, op: Op, lo: nat, hi: nat)
    requires Inv(t0) && Changed(t0, t1, op, lo, hi, 0, PAGES) && !op.Map? && lo <= hi
    ensures Exactly(t0, t1, op, lo, hi) <==> lo == hi || (FlagAtCut(t0, lo) && FlagAtCut(t0, hi))
  {
    hide LeafAt, Cut, Offset, Pieces, Inv, HasFlag, After;
    if lo == hi || (FlagAtCut(t0, lo) && FlagAtCut(t0, hi)) {
      forall v: nat | v < PAGES
        ensures Flat(t1, v) == if lo <= v < hi then Apply(op, v, Flat(t0, v)) else Flat(t0, v)
      {
        ExactPage(t0, t1, op, lo, hi, v);
      }
    } else if !FlagAtCut(t0, hi) {
      FlagGained(t0, t1, op, lo, hi, hi, hi);
    } else {
      OffsetZero(LeafAt(t0, lo).value.lvl);
      FlagGained(t0, t1, op, lo, hi, lo, lo - 1);
    }
  }

  lemma ExactPage(t0: Tree, t1: Tree, op: Op, lo: nat, hi: nat, v: nat)
    requires Inv(t0) && Changed(t0, t1, op, lo, hi, 0, PAGES) && !op.Map? && v < PAGES
    requires lo == hi || (FlagAtCut(t0, lo) && FlagAtCut(t0, hi))
    ensures Flat(t1, v) == if lo <= v < hi then Apply(op, v, Flat(t0, v)) else Flat(t0, v)
  {
    hide LeafAt, Offset, Pieces, Inv, AttrOk, FlagAtCut, Span, HasFlag, WithFlag, Masked, Cut;
    assert After(op, v, lo, hi, LeafAt(t0, v), LeafAt(t1, v));
    if LeafAt(t0, v).Some? {
      var m := LeafAt(t0, v).value;
      LeafGood(t0, v);
      PiecesAddFlag(m, v, lo, hi);
      if m.lvl >= 1 && Cut(m.lvl, v, lo, hi) {
        CutNotEmpty(m.lvl, v, lo, hi);
        CutHoldsAnEnd(t0, v, lo, hi);
        FlagTwice(m.at.attr);
      }
    }
  }

  /** Page `u`, outside the range but in the block that the end `w` falls into. */
  lemma FlagGained(t0: Tree, t1: Tree, op: Op, lo: nat, hi: nat, w: nat, u: nat)
    requires Inv(t0) && Changed(t0, t1, op, lo, hi, 0, PAGES) && !op.Map? && lo < hi
    requires !FlagAtCut(t0, w) && ((w == lo && u + 1 == lo) || (w == hi && u == hi))
    ensures u < PAGES && !(lo <= u < hi) && Flat(t0, u).Some? && Flat(t1, u).Some? && Flat(t1, u) != Flat(t0, u)
    ensures !HasFlag(Flat(t0, u).value.attr) && HasFlag(Flat(t1, u).value.attr)
  {
    hide LeafAt, Offset, Cut, Inv, Span;
    var m := LeafAt(t0, w).value;
    EndCuts(m.lvl, w, u, lo, hi);
    BlockMate(t0, w, u);
    OutsideOnlyFlag(t0, t1, op, lo, hi, u);
    FlagTwice(m.at.attr);
  }
}
