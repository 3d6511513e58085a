/** The page-table tree as it lies in pool memory, and the flat map it denotes.

    `tag` gives every table page its level, the first page it covers and the
    parent entry that points at it.  With it the tree invariant is local: each
    entry is checked against the tags of its own table and of its child. */
module TableTree {
  import opened Common
  import opened Descriptors

  datatype Tag = Tag(lvl: nat, base: nat, up: nat, ui: nat)

  datatype Tree = Tree(mem: seq<Desc>, tag: map<nat, Tag>, start: nat, root: nat)

  predicate InPool(mem: seq<Desc>, p: nat) { p * ENTRIES + ENTRIES <= |mem| }

  function At(mem: seq<Desc>, p: nat, i: nat): Desc
    requires InPool(mem, p) && i < ENTRIES
  {
    mem[p * ENTRIES + i]
  }

  function Put(mem: seq<Desc>, p: nat, i: nat, d: Desc): (r: seq<Desc>)
    requires InPool(mem, p) && i < ENTRIES
    ensures |r| == |mem|
    ensures forall q: nat, j: nat :: InPool(mem, q) && j < ENTRIES ==>
              At(r, q, j) == if q == p && j == i then d else At(mem, q, j)
  {
    mem[p * ENTRIES + i := d]
  }

  function Cell(g: Tag, i: nat): nat { g.base + Cells(g.lvl, i) }

  predicate InCell(g: Tag, i: nat, v: nat) { Cell(g, i) <= v < Cell(g, i) + Span(g.lvl) }

  predicate Covers(g: Tag, v: nat) { g.base <= v < g.base + Span(g.lvl + 1) }

  /** `pgtable_lookup_entry`, with the translated frame instead of the entry. */
  function WalkFrom(mem: seq<Desc>, start: nat, p: nat, l: nat, v: nat): (m: Option<Leaf>)
    ensures m.Some? ==> m.value.lvl <= l
    decreases l
  {
    if !InPool(mem, p) then None else
    var d := At(mem, p, IndexAt(l, v));
    if !Present(d) then None
    else if l == 0 || (l < TOP && Large(d)) then Some(Leaf(Mapping(d.frame + Offset(l, v), d.attr), l))
    else if d.frame < start then None
    else WalkFrom(mem, start, d.frame - start, l - 1, v)
  }

  /** What a page translates to, and the level of the leaf that translates it. */
  function LeafAt(t: Tree, v: nat): Option<Leaf> {
    WalkFrom(t.mem, t.start, t.root, TOP, v)
  }

  /** The flat map of a tree: page to frame and attributes. */
  function Flat(t: Tree, v: nat): Option<Mapping> {
    var m := LeafAt(t, v);
    if m.None? then None else Some(m.value.at)
  }

  // -------------------------------------------------------------- invariant

  /** A present entry above level 0 that is not a block points at a table. */
  predicate IsTable(l: nat, d: Desc) { l >= 1 && d.ty == TABLE_DESC }

  predicate LeafOk(l: nat, d: Desc) {
    && l < TOP
    && d.ty == (if l == 0 then PAGE_DESC else BLOCK_DESC)
    && Offset(l, d.frame) == 0
    && AttrOk(d.attr)
  }

  ghost predicate EntryOk(t: Tree, p: nat, i: nat)
    requires p in t.tag && InPool(t.mem, p) && i < ENTRIES
  {
    var d, g := At(t.mem, p, i), t.tag[p];
    Present(d) ==>
      if IsTable(g.lvl, d)
      then
        && t.start <= d.frame
        && d.frame - t.start in t.tag
        && t.tag[d.frame - t.start] == Tag(g.lvl - 1, Cell(g, i), p, i)
      else LeafOk(g.lvl, d)
  }

  predicate TagOk(g: Tag) {
    g.lvl <= TOP && Offset(g.lvl + 1, g.base) == 0 && g.base + Span(g.lvl + 1) <= PAGES
  }

  ghost predicate ParentOk(t: Tree, p: nat)
    requires p in t.tag
  {
    var g := t.tag[p];
    p != t.root ==>
      && g.up in t.tag && g.ui < ENTRIES && InPool(t.mem, g.up)
      && t.tag[g.up].lvl == g.lvl + 1
      && g.base == Cell(t.tag[g.up], g.ui)
      && At(t.mem, g.up, g.ui) == TableDesc(t.start + p)
  }

  ghost predicate Inv(t: Tree) {
    && t.root in t.tag
    && t.tag[t.root].lvl == TOP && t.tag[t.root].base == 0
    && (forall p :: p in t.tag ==> InPool(t.mem, p) && TagOk(t.tag[p]))
    && (forall p, i: nat {:trigger EntryOk(t, p, i)} :: p in t.tag && i < ENTRIES ==> EntryOk(t, p, i))
    && (forall p {:trigger ParentOk(t, p)} :: p in t.tag ==> ParentOk(t, p))
  }

  // ------------------------------------------------------------------ walks

  /** `mem'` holds the same entry for `v` in every table that covers it. */
  ghost predicate SamePath(t: Tree, mem': seq<Desc>, v: nat)
    requires Inv(t) && |mem'| == |t.mem|
  {
    forall r {:trigger Covers(t.tag[r], v)} :: r in t.tag && Covers(t.tag[r], v) ==>
      At(mem', r, IndexAt(t.tag[r].lvl, v)) == At(t.mem, r, IndexAt(t.tag[r].lvl, v))
  }

  /** A walk reads one entry of each table that covers the page, nothing else. */
  lemma {:induction false} SameWalk(t: Tree, mem': seq<Desc>, q: nat, v: nat)
    requires Inv(t) && q in t.tag && Covers(t.tag[q], v)
    requires |mem'| == |t.mem|
    requires SamePath(t, mem', v)
    ensures WalkFrom(mem', t.start, q, t.tag[q].lvl, v) == WalkFrom(t.mem, t.start, q, t.tag[q].lvl, v)
    decreases t.tag[q].lvl
  {
    hide IndexAt, Offset, Cells, Span;
    var g := t.tag[q];
    var i := IndexAt(g.lvl, v);
    var d := At(t.mem, q, i);
    assert EntryOk(t, q, i);
    if IsTable(g.lvl, d) {
      CellOf(g.lvl, g.base, v);
      CellAligned(g.lvl, g.base, i);
      SameWalk(t, mem', d.frame - t.start, v);
      assert WalkFrom(mem', t.start, q, g.lvl, v) == WalkFrom(mem', t.start, d.frame - t.start, g.lvl - 1, v);
    }
  }

  /** From the root, the walk of a page passes through every table covering it. */
  lemma {:induction false} WalkReaches(t: Tree, p: nat, v: nat)
    requires Inv(t) && p in t.tag && Covers(t.tag[p], v)
    ensures LeafAt(t, v) == WalkFrom(t.mem, t.start, p, t.tag[p].lvl, v)
    decreases TOP - t.tag[p].lvl
  {
    hide IndexAt, Offset, Cells, Span;
    if p != t.root {
      assert ParentOk(t, p);
      var g := t.tag[p];
      var up := t.tag[g.up];
      CellAligned(up.lvl, up.base, g.ui);
      IndexOfCell(up.lvl, up.base, g.ui, v);
      WalkReaches(t, g.up, v);
    }
  }

  lemma SameCell(g: Tag, k: nat, v: nat, u: nat)
    requires k <= g.lvl && Offset(g.lvl + 1, g.base) == 0 && Covers(g, v) && SameBlock(k, v, u)
    ensures Covers(g, u) && IndexAt(g.lvl, u) == IndexAt(g.lvl, v)
    ensures Offset(g.lvl, u) + v == Offset(g.lvl, v) + u
    ensures InCell(g, IndexAt(g.lvl, v), v) && InCell(g, IndexAt(g.lvl, v), u)
  {
    hide Offset, Cells, Span, SameBlock, IndexAt;
    var i := IndexAt(g.lvl, v);
    CellOf(g.lvl, g.base, v);
    CellAligned(g.lvl, g.base, i);
    SameBlockAbove(k, g.lvl, v, u, Cell(g, i));
    IndexOfCell(g.lvl, g.base, i, u);
  }

  /** `n` is the leaf `m` of page `v`, seen from page `u`. */
  predicate SameLeaf(m: Leaf, v: nat, n: Option<Leaf>, u: nat) {
    n.Some? && n.value.lvl == m.lvl && n.value.at.attr == m.at.attr && n.value.at.frame + v == m.at.frame + u
  }

  lemma TagAligned(t: Tree, p: nat)
    requires Inv(t) && p in t.tag
    ensures Offset(t.tag[p].lvl + 1, t.tag[p].base) == 0 && InPool(t.mem, p)
  {
  }

  /** The table behind a table entry covers the entry's cell. */
  lemma ChildCovers(t: Tree, p: nat, i: nat, v: nat)
    requires Inv(t) && p in t.tag && i < ENTRIES && InCell(t.tag[p], i, v) && IsTable(t.tag[p].lvl, At(t.mem, p, i))
    ensures var d := At(t.mem, p, i);
            && d.frame >= t.start && d.frame - t.start in t.tag && InPool(t.mem, d.frame - t.start)
            && t.tag[d.frame - t.start].lvl == t.tag[p].lvl - 1 && Covers(t.tag[d.frame - t.start], v)
  {
    hide IndexAt, Offset, Cells, Span, ParentOk;
    assert EntryOk(t, p, i);
  }

  lemma LeafEntry(t: Tree, p: nat, i: nat)
    requires Inv(t) && p in t.tag && i < ENTRIES && Present(At(t.mem, p, i)) && !IsTable(t.tag[p].lvl, At(t.mem, p, i))
    ensures LeafOk(t.tag[p].lvl, At(t.mem, p, i))
    ensures t.tag[p].lvl == 0 || (t.tag[p].lvl < TOP && Large(At(t.mem, p, i)))
  {
    assert EntryOk(t, p, i);
  }

  /** One step of the walk of `v` at table `p`: absent, a leaf, or the table below. */
  lemma WalkDown(t: Tree, p: nat, v: nat)
    requires Inv(t) && p in t.tag && Covers(t.tag[p], v)
    ensures InPool(t.mem, p)
    ensures var l := t.tag[p].lvl;
            var d, m := At(t.mem, p, IndexAt(l, v)), WalkFrom(t.mem, t.start, p, l, v);
            && (!Present(d) ==> m == None)
            && (Present(d) && !IsTable(l, d) ==>
                  LeafOk(l, d) && m == Some(Leaf(Mapping(d.frame + Offset(l, v), d.attr), l)))
            && (IsTable(l, d) ==>
                  && d.frame >= t.start && d.frame - t.start in t.tag && InPool(t.mem, d.frame - t.start)
                  && t.tag[d.frame - t.start].lvl == l - 1 && Covers(t.tag[d.frame - t.start], v)
                  && m == WalkFrom(t.mem, t.start, d.frame - t.start, l - 1, v))
  {
    TagAligned(t, p);
    hide IndexAt, Offset, Cells, Span, ParentOk, EntryOk, LeafOk, TagOk, Inv, WalkFrom;
    var g := t.tag[p];
    var i := IndexAt(g.lvl, v);
    CellOf(g.lvl, g.base, v);
    WalkOnce(t.mem, t.start, p, g.lvl, v);
    if IsTable(g.lvl, At(t.mem, p, i)) {
      ChildCovers(t, p, i, v);
    } else if Present(At(t.mem, p, i)) {
      LeafEntry(t, p, i);
    }
  }

  lemma WalkOnce(mem: seq<Desc>, start: nat, p: nat, l: nat, v: nat)
    requires InPool(mem, p)
    ensures var d, m := At(mem, p, IndexAt(l, v)), WalkFrom(mem, start, p, l, v);
            && (!Present(d) ==> m == None)
            && (Present(d) && (l == 0 || (l < TOP && Large(d))) ==>
                  m == Some(Leaf(Mapping(d.frame + Offset(l, v), d.attr), l)))
            && (IsTable(l, d) && start <= d.frame ==> m == WalkFrom(mem, start, d.frame - start, l - 1, v))
  {
    hide Offset;
  }

  /** All pages of a leaf's block translate through that leaf. */
  lemma {:induction false} OneLeafPerBlock(t: Tree, p: nat, v: nat, u: nat, m: Leaf)
    requires Inv(t) && p in t.tag && Covers(t.tag[p], v)
    requires WalkFrom(t.mem, t.start, p, t.tag[p].lvl, v) == Some(m) && SameBlock(m.lvl, v, u)
    ensures Covers(t.tag[p], u) && SameLeaf(m, v, WalkFrom(t.mem, t.start, p, t.tag[p].lvl, u), u)
    decreases t.tag[p].lvl
  {
    hide IndexAt, Offset, Cells, Span, ParentOk, EntryOk, SameBlock, WalkFrom, Inv, Covers, LeafOk, TagOk, At, InPool;
    var g := t.tag[p];
    TagAligned(t, p);
    SameCell(g, m.lvl, v, u);
    WalkDown(t, p, v);
    WalkDown(t, p, u);
    var d := At(t.mem, p, IndexAt(g.lvl, v));
    if IsTable(g.lvl, d) {
      OneLeafPerBlock(t, d.frame - t.start, v, u, m);
    }
  }

  lemma RootCovers(t: Tree, v: nat)
    requires Inv(t) && v < PAGES
    ensures Covers(t.tag[t.root], v)
  {
  }

  /** Writing one entry of a table does not change the walk of other pages. */
  lemma WalkElsewhere(t: Tree, p: nat, i: nat, d: Desc, v: nat)
    requires Inv(t) && p in t.tag && i < ENTRIES && v < PAGES
    requires !InCell(t.tag[p], i, v)
    ensures WalkFrom(Put(t.mem, p, i, d), t.start, t.root, TOP, v) == LeafAt(t, v)
  {
    hide IndexAt, Offset, Cells, Span;
    var mem' := Put(t.mem, p, i, d);
    RootCovers(t, v);
    forall r | r in t.tag && Covers(t.tag[r], v)
      ensures At(mem', r, IndexAt(t.tag[r].lvl, v)) == At(t.mem, r, IndexAt(t.tag[r].lvl, v))
    {
      CellOf(t.tag[r].lvl, t.tag[r].base, v);
    }
    SameWalk(t, mem', t.root, v);
  }

  // ------------------------------------------------------- primitive updates

  /** What page `v` of cell `i` translates to when the entry is the leaf `d`. */
  function CellLeaf(g: Tag, i: nat, d: Desc, v: nat): Option<Leaf>
    requires InCell(g, i, v)
  {
    if Present(d) then Some(Leaf(Mapping(d.frame + (v - Cell(g, i)), d.attr), g.lvl)) else None
  }

  /** An entry that is not a table can be replaced by any leaf or by nothing. */
  lemma WriteLeafKeepsInv(t: Tree, p: nat, i: nat, d: Desc)
    requires Inv(t) && p in t.tag && i < ENTRIES
    requires !IsTable(t.tag[p].lvl, At(t.mem, p, i))
    requires Present(d) ==> LeafOk(t.tag[p].lvl, d)
    ensures Inv(t.(mem := Put(t.mem, p, i, d)))
  {
    hide IndexAt, Offset, Cells, Span;
    var t' := t.(mem := Put(t.mem, p, i, d));
    forall q, j: nat | q in t'.tag && j < ENTRIES
      ensures EntryOk(t', q, j)
    {
      assert EntryOk(t, q, j);
    }
    forall q | q in t'.tag
      ensures ParentOk(t', q)
    {
      assert ParentOk(t, q);
    }
  }

  /** ... and then the flat map changes in that entry's cell and nowhere else. */
  lemma WriteLeaf(t: Tree, p: nat, i: nat, d: Desc)
    requires Inv(t) && p in t.tag && i < ENTRIES
    requires !IsTable(t.tag[p].lvl, At(t.mem, p, i))
    requires Present(d) ==> LeafOk(t.tag[p].lvl, d)
    ensures var t' := t.(mem := Put(t.mem, p, i, d));
            && Inv(t')
            && forall v: nat :: v < PAGES ==>
                 LeafAt(t', v) == if !InCell(t.tag[p], i, v) then LeafAt(t, v) else CellLeaf(t.tag[p], i, d, v)
  {
    hide IndexAt, Offset, Cells, Span;
    var g := t.tag[p];
    var t' := t.(mem := Put(t.mem, p, i, d));
    WriteLeafKeepsInv(t, p, i, d);
    forall v: nat | v < PAGES
      ensures LeafAt(t', v) == if !InCell(g, i, v) then LeafAt(t, v) else CellLeaf(g, i, d, v)
    {
      if InCell(g, i, v) {
        IndexOfCell(g.lvl, g.base, i, v);
        WalkReaches(t', p, v);
      } else {
        WalkElsewhere(t, p, i, d, v);
      }
    }
  }

  /** A page whose entry is not a table translates through that entry. */
  lemma FlatAtLeaf(t: Tree, p: nat, i: nat, v: nat)
    requires Inv(t) && p in t.tag && i < ENTRIES && InCell(t.tag[p], i, v)
    requires !IsTable(t.tag[p].lvl, At(t.mem, p, i))
    ensures LeafAt(t, v) == CellLeaf(t.tag[p], i, At(t.mem, p, i), v)
  {
    hide IndexAt, Offset, Cells, Span;
    assert EntryOk(t, p, i);
    IndexOfCell(t.tag[p].lvl, t.tag[p].base, i, v);
    WalkReaches(t, p, v);
  }

  /** Memory that agrees on every table page. */
  ghost predicate SameTables(t: Tree, mem': seq<Desc>) {
    && |mem'| == |t.mem|
    && forall p, i: nat {:trigger At(mem', p, i)} :: p in t.tag && i < ENTRIES && InPool(t.mem, p) ==>
         At(mem', p, i) == At(t.mem, p, i)
  }

  /** Pool pages that are not tables can be written freely. */
  lemma WriteFreePage(t: Tree, mem': seq<Desc>)
    requires Inv(t) && SameTables(t, mem')
    ensures Inv(t.(mem := mem'))
    ensures forall v: nat :: v < PAGES ==> LeafAt(t.(mem := mem'), v) == LeafAt(t, v)
  {
    hide IndexAt, Offset, Cells, Span;
    var t' := t.(mem := mem');
    forall q, j: nat | q in t'.tag && j < ENTRIES
      ensures EntryOk(t', q, j)
    {
      assert EntryOk(t, q, j);
    }
    forall q | q in t'.tag
      ensures ParentOk(t', q)
    {
      assert ParentOk(t, q);
    }
    forall v: nat | v < PAGES
      ensures LeafAt(t', v) == LeafAt(t, v)
    {
      RootCovers(t, v);
      SameWalk(t, mem', t.root, v);
    }
  }

  /** Page `c` holds only leaves of level `l`, or nothing. */
  ghost predicate OnlyLeaves(mem: seq<Desc>, c: nat, l: nat)
    requires InPool(mem, c)
  {
    forall j: nat {:trigger At(mem, c, j)} :: j < ENTRIES ==>
      Present(At(mem, c, j)) ==> LeafOk(l, At(mem, c, j)) && !IsTable(l, At(mem, c, j))
  }

  function Linked(t: Tree, p: nat, i: nat, c: nat): Tree
    requires p in t.tag && InPool(t.mem, p) && i < ENTRIES && t.tag[p].lvl >= 1
  {
    t.(mem := Put(t.mem, p, i, TableDesc(t.start + c)),
       tag := t.tag[c := Tag(t.tag[p].lvl - 1, Cell(t.tag[p], i), p, i)])
  }

  /** A prepared page may be hung under an entry that is not a table. */
  lemma LinkKeepsInv(t: Tree, p: nat, i: nat, c: nat)
    requires Inv(t) && p in t.tag && i < ENTRIES && t.tag[p].lvl >= 1
    requires !IsTable(t.tag[p].lvl, At(t.mem, p, i))
    requires c !in t.tag && InPool(t.mem, c) && OnlyLeaves(t.mem, c, t.tag[p].lvl - 1)
    ensures Inv(Linked(t, p, i, c))
  {
    hide IndexAt, Offset, Cells, Span;
    var t' := Linked(t, p, i, c);
    CellAligned(t.tag[p].lvl, t.tag[p].base, i);
    forall q, j: nat | q in t'.tag && j < ENTRIES
      ensures EntryOk(t', q, j)
    {
      if q != c {
        assert EntryOk(t, q, j);
      } else {
        assert At(t'.mem, c, j) == At(t.mem, c, j);
      }
    }
    forall q | q in t'.tag
      ensures ParentOk(t', q)
    {
      if q != c {
        assert ParentOk(t, q);
      }
    }
  }

  /** After the link the cell translates through the new table, the rest as before. */
  lemma FlatLinked(t: Tree, p: nat, i: nat, c: nat, v: nat)
    requires Inv(t) && p in t.tag && i < ENTRIES && t.tag[p].lvl >= 1 && v < PAGES
    requires c !in t.tag && InPool(t.mem, c) && Inv(Linked(t, p, i, c))
    requires OnlyLeaves(t.mem, c, t.tag[p].lvl - 1)
    ensures !InCell(t.tag[p], i, v) ==> LeafAt(Linked(t, p, i, c), v) == LeafAt(t, v)
    ensures InCell(t.tag[p], i, v) ==> FlatThrough(t, Linked(t, p, i, c), c, v)
  {
    hide IndexAt, Offset, Cells, Span, EntryOk, ParentOk, TagOk, LeafOk;
    if InCell(t.tag[p], i, v) {
      FlatLinkedIn(t, p, i, c, v);
    } else {
      WalkElsewhere(t, p, i, TableDesc(t.start + c), v);
    }
  }

  /** In `t'`, page `v` translates through its entry in table `c` of `t`. */
  ghost predicate FlatThrough(t: Tree, t': Tree, c: nat, v: nat) {
    && c in t'.tag && InPool(t.mem, c)
    && var j := IndexAt(t'.tag[c].lvl, v);
       && InCell(t'.tag[c], j, v)
       && LeafAt(t', v) == CellLeaf(t'.tag[c], j, At(t.mem, c, j), v)
  }

  lemma FlatLinkedIn(t: Tree, p: nat, i: nat, c: nat, v: nat)
    requires Inv(t) && p in t.tag && i < ENTRIES && t.tag[p].lvl >= 1 && InCell(t.tag[p], i, v)
    requires c !in t.tag && InPool(t.mem, c) && Inv(Linked(t, p, i, c))
    requires OnlyLeaves(t.mem, c, t.tag[p].lvl - 1)
    ensures FlatThrough(t, Linked(t, p, i, c), c, v)
  {
    hide IndexAt, Offset, Cells, Span;
    var t' := Linked(t, p, i, c);
    var g := t'.tag[c];
    CellOf(g.lvl, g.base, v);
    var j := IndexAt(g.lvl, v);
    assert At(t'.mem, c, j) == At(t.mem, c, j);
    assert EntryOk(t', c, j);
    FlatAtLeaf(t', c, j, v);
  }

  ghost predicate EmptyTable(mem: seq<Desc>, c: nat)
    requires InPool(mem, c)
  {
    forall j: nat {:trigger At(mem, c, j)} :: j < ENTRIES ==> !Present(At(mem, c, j))
  }

  /** Hanging an empty table under an absent entry changes no translation. */
  lemma LinkEmpty(t: Tree, p: nat, i: nat, c: nat)
    requires Inv(t) && p in t.tag && i < ENTRIES && t.tag[p].lvl >= 1
    requires !Present(At(t.mem, p, i))
    requires c !in t.tag && InPool(t.mem, c) && EmptyTable(t.mem, c)
    ensures Inv(Linked(t, p, i, c))
    ensures forall v: nat :: v < PAGES ==> LeafAt(Linked(t, p, i, c), v) == LeafAt(t, v)
  {
    hide IndexAt, Offset, Cells, Span;
    LinkKeepsInv(t, p, i, c);
    forall v: nat | v < PAGES
      ensures LeafAt(Linked(t, p, i, c), v) == LeafAt(t, v)
    {
      FlatLinked(t, p, i, c, v);
      if InCell(t.tag[p], i, v) {
        FlatAtLeaf(t, p, i, v);
      }
    }
  }

  /** Entry `j` of the table that replaces the block `d` of level `l`. */
  function SplitDesc(l: nat, d: Desc, j: nat): Desc
    requires l >= 1
  {
    LeafDesc(l - 1, d.frame + Cells(l - 1, j), d.attr)
  }

  /** What splitting its block makes of a leaf: one level finer, with the access flag. */
  function Piece(m: Leaf): Leaf
    requires m.lvl >= 1
  {
    Leaf(m.at.(attr := LeafAttr(m.at.attr)), m.lvl - 1)
  }

  /** In `t1` the block behind entry `i` of `g` has been split; nothing else differs from `t0`. */
  ghost predicate SplitAt(t0: Tree, t1: Tree, g: Tag, i: nat) {
    forall v: nat {:trigger LeafAt(t1, v)} :: v < PAGES ==>
      if InCell(g, i, v)
      then LeafAt(t0, v).Some? && LeafAt(t0, v).value.lvl == g.lvl >= 1
           && LeafAt(t1, v) == Some(Piece(LeafAt(t0, v).value))
      else LeafAt(t1, v) == LeafAt(t0, v)
  }

  /** Page `c` holds the pieces of the block behind entry `i` of table `p`. */
  ghost predicate HoldsPieces(t: Tree, p: nat, i: nat, c: nat) {
    && p in t.tag && i < ENTRIES && t.tag[p].lvl >= 1 && InPool(t.mem, p) && InPool(t.mem, c)
    && forall j: nat {:trigger At(t.mem, c, j)} :: j < ENTRIES ==>
         At(t.mem, c, j) == SplitDesc(t.tag[p].lvl, At(t.mem, p, i), j)
  }

  lemma PiecesAreLeaves(t: Tree, p: nat, i: nat, c: nat)
    requires Inv(t) && HoldsPieces(t, p, i, c) && Large(At(t.mem, p, i))
    ensures OnlyLeaves(t.mem, c, t.tag[p].lvl - 1)
  {
    hide IndexAt, Offset, Cells, Span, WalkFrom, LeafAt, LeafAttr, ParentOk, AttrOk;
    var g, d := t.tag[p], At(t.mem, p, i);
    assert EntryOk(t, p, i);
    LeafAttrOk(d.attr);
    forall j: nat | j < ENTRIES
      ensures LeafOk(g.lvl - 1, At(t.mem, c, j)) && !IsTable(g.lvl - 1, At(t.mem, c, j))
    {
      CellAligned(g.lvl - 1, d.frame, j);
    }
  }

  /** Replacing a block by the table of its pieces moves no page. */
  lemma LinkSplit(t: Tree, p: nat, i: nat, c: nat)
    requires Inv(t) && HoldsPieces(t, p, i, c) && Large(At(t.mem, p, i)) && c !in t.tag
    ensures Inv(Linked(t, p, i, c))
    ensures SplitAt(t, Linked(t, p, i, c), t.tag[p], i)
  {
    hide IndexAt, Offset, Cells, Span, WalkFrom, LeafAt, LeafAttr, ParentOk, EntryOk, LeafOk, TagOk;
    var g, d := t.tag[p], At(t.mem, p, i);
    PiecesAreLeaves(t, p, i, c);
    LinkKeepsInv(t, p, i, c);
    forall v: nat | v < PAGES
      ensures if InCell(g, i, v)
              then LeafAt(t, v).Some? && LeafAt(t, v).value.lvl == g.lvl >= 1
                   && LeafAt(Linked(t, p, i, c), v) == Some(Piece(LeafAt(t, v).value))
              else LeafAt(Linked(t, p, i, c), v) == LeafAt(t, v)
    {
      FlatLinked(t, p, i, c, v);
      if InCell(g, i, v) {
        FlatAtLeaf(t, p, i, v);
      }
    }
  }

  function Unlinked(t: Tree, p: nat, i: nat, c: nat): Tree
    requires InPool(t.mem, p) && i < ENTRIES
  {
    t.(mem := Put(t.mem, p, i, ABSENT), tag := t.tag - {c})
  }

  /** Cutting an empty table off its parent entry changes no translation. */
  lemma Unlink(t: Tree, p: nat, i: nat, c: nat)
    requires Inv(t) && p in t.tag && i < ENTRIES
    requires c in t.tag && c != t.root && t.tag[c].up == p && t.tag[c].ui == i
    requires EmptyTable(t.mem, c)
    ensures Inv(Unlinked(t, p, i, c))
    ensures forall v: nat :: v < PAGES ==> LeafAt(Unlinked(t, p, i, c), v) == LeafAt(t, v)
  {
    hide IndexAt, Offset, Cells, Span;
    var t' := Unlinked(t, p, i, c);
    assert ParentOk(t, c);
    forall q, j: nat | q in t'.tag && j < ENTRIES
      ensures EntryOk(t', q, j)
    {
      assert EntryOk(t, q, j);
    }
    forall q | q in t'.tag
      ensures ParentOk(t', q)
    {
      assert ParentOk(t, q);
    }
    forall v: nat | v < PAGES
      ensures LeafAt(t', v) == LeafAt(t, v)
    {
      if InCell(t.tag[p], i, v) {
        FlatAtLeaf(t', p, i, v);
        CellOf(t.tag[c].lvl, t.tag[c].base, v);
        FlatAtLeaf(t, c, IndexAt(t.tag[c].lvl, v), v);
      } else {
        WalkElsewhere(t, p, i, ABSENT, v);
      }
    }
  }

  // ------------------------------------------------------------ reachability

  /** Entry `i` of table `p` points at table `c`. */
  predicate Points(mem: seq<Desc>, start: nat, p: nat, i: nat, c: nat) {
    InPool(mem, p) && i < ENTRIES && At(mem, p, i) == TableDesc(start + c)
  }

  /** Pool pages at `depth` steps below the root, by following table entries; no tags involved. */
  ghost function Reach(mem: seq<Desc>, start: nat, root: nat, depth: nat): set<nat> {
    if depth == 0 then {root}
    else Children(mem, start, Reach(mem, start, root, depth - 1))
  }

  ghost function Children(mem: seq<Desc>, start: nat, ps: set<nat>): set<nat> {
    set c: nat | c < |mem| && PointedAt(mem, start, ps, c)
  }

  ghost predicate PointedAt(mem: seq<Desc>, start: nat, ps: set<nat>, c: nat) {
    exists p, i :: p in ps && Points(mem, start, p, i, c)
  }

  /** The tables reachable from the root: those above level 0 are the ones followed. */
  ghost function Reachable(t: Tree): set<nat> {
    Reach(t.mem, t.start, t.root, 0) + Reach(t.mem, t.start, t.root, 1)
    + Reach(t.mem, t.start, t.root, 2) + Reach(t.mem, t.start, t.root, 3)
  }

  /** Depth and level add up, so the pages at one depth are the tables of one level. */
  lemma {:induction false} ReachIsLevel(t: Tree, depth: nat)
    requires Inv(t) && depth <= TOP
    ensures forall c: nat :: c in Reach(t.mem, t.start, t.root, depth) <==> c in t.tag && t.tag[c].lvl == TOP - depth
  {
    if depth == 0 {
      forall c: nat | c in t.tag && t.tag[c].lvl == TOP
        ensures c == t.root
      {
        assert ParentOk(t, c);
      }
    } else {
      ReachIsLevel(t, depth - 1);
      var up := Reach(t.mem, t.start, t.root, depth - 1);
      forall c: nat
        ensures c in Reach(t.mem, t.start, t.root, depth) <==> c in t.tag && t.tag[c].lvl == TOP - depth
      {
        if c in Reach(t.mem, t.start, t.root, depth) {
          var p, i :| p in up && Points(t.mem, t.start, p, i, c);
          assert EntryOk(t, p, i);
        }
        if c in t.tag && t.tag[c].lvl == TOP - depth {
          assert ParentOk(t, c);
          var g := t.tag[c];
          assert g.up in up && Points(t.mem, t.start, g.up, g.ui, c);
        }
      }
    }
  }

  /** The tagged pages are the reachable tables, and each but the root has one parent entry. */
  lemma TablesAreReachable(t: Tree)
    requires Inv(t)
    ensures Reachable(t) == t.tag.Keys
  {
    ReachIsLevel(t, 0);
    ReachIsLevel(t, 1);
    ReachIsLevel(t, 2);
    ReachIsLevel(t, 3);
  }

  /** Tables above level 0, the ones whose entries point at tables. */
  ghost function Inner(t: Tree): set<nat> {
    Reach(t.mem, t.start, t.root, 0) + Reach(t.mem, t.start, t.root, 1) + Reach(t.mem, t.start, t.root, 2)
  }

  lemma InnerTables(t: Tree)
    requires Inv(t)
    ensures forall p: nat :: p in Inner(t) <==> p in t.tag && t.tag[p].lvl >= 1
  {
    ReachIsLevel(t, 0);
    ReachIsLevel(t, 1);
    ReachIsLevel(t, 2);
  }

  /** The parent entry of a table is the one its tag records. */
  lemma ParentIsTagged(t: Tree, c: nat, p: nat, i: nat)
    requires Inv(t) && c in t.tag && c != t.root
    requires p in t.tag && t.tag[p].lvl >= 1 && i < ENTRIES
    ensures Points(t.mem, t.start, p, i, c) <==> p == t.tag[c].up && i == t.tag[c].ui
  {
    hide Span, Cells, Offset;
    assert ParentOk(t, c);
    assert EntryOk(t, p, i);
  }

  /** One table of each level covers a page, at most. */
  lemma {:induction false} OneTablePerLevel(t: Tree, p: nat, q: nat, v: nat)
    requires Inv(t) && p in t.tag && q in t.tag && t.tag[p].lvl == t.tag[q].lvl && Covers(t.tag[p], v)
             && Covers(t.tag[q], v)
    ensures p == q
    decreases TOP - t.tag[p].lvl
  {
    hide Span, Cells, Offset, IndexAt, EntryOk, LeafOk;
    assert ParentOk(t, p) && ParentOk(t, q);
    if p != t.root && q != t.root {
      var g, h := t.tag[p], t.tag[q];
      var a, b := t.tag[g.up], t.tag[h.up];
      IndexOfCell(a.lvl, a.base, g.ui, v);
      IndexOfCell(b.lvl, b.base, h.ui, v);
      OneTablePerLevel(t, g.up, h.up, v);
    }
  }

  /** Every reachable table but the root has exactly one parent entry. */
  lemma OneParent(t: Tree, c: nat)
    requires Inv(t) && c in Reachable(t) && c != t.root
    ensures exists p, i :: p in Inner(t) && Points(t.mem, t.start, p, i, c)
    ensures forall p, i, p', i' ::
              p in Inner(t) && Points(t.mem, t.start, p, i, c) && p' in Inner(t)
              && Points(t.mem, t.start, p', i', c) ==>
                p == p' && i == i'
  {
    TablesAreReachable(t);
    InnerTables(t);
    assert ParentOk(t, c);
    hide Reach, Reachable, Inner, Span, Cells, Offset, Inv, EntryOk;
    var g := t.tag[c];
    ParentIsTagged(t, c, g.up, g.ui);
    forall p, i | p in Inner(t) && Points(t.mem, t.start, p, i, c)
      ensures p == g.up && i == g.ui
    {
      ParentIsTagged(t, c, p, i);
    }
  }
}
