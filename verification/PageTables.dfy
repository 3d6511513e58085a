/** The page-table engine: pool pages, splitting, and the range operations that
    modify, delete and add mappings in place. */
module PageTables {
  import opened Common
  import opened Descriptors
  import opened TableTree
  import opened RangeEffects
  import opened PagePool

  const PAGE_SIZE: nat := 4096
  const UINT64_MAX: nat := 0xffff_ffff_ffff_ffff

  function PageUp(a: nat): nat { (a + (PAGE_SIZE - 1)) / PAGE_SIZE }

  function PageDown(a: nat): nat { a / PAGE_SIZE }

  datatype MapRequest = MapRequest(paddr: nat, vaddr: nat, size: nat, prot: Attr, allowed: set<nat>)
  {
    function Op(): (op: Op)
      ensures op.Map?
    {
      Map(PageUp(paddr), PageUp(vaddr), prot, allowed)
    }
  }


  datatype Status = Done | Invalid | Panic

  /** The requests `pgtable_add_map_deferred` turns away. */
  predicate Rejected(r: MapRequest) {
    || r.size == 0
    || !(r.allowed <= {0, 1, 2}) || 0 !in r.allowed
    || r.vaddr > UINT64_MAX - (PAGE_SIZE - 1) || r.paddr > UINT64_MAX - (PAGE_SIZE - 1)
    || PageDown(r.size) == 0
    || PageDown(r.size) * PAGE_SIZE > UINT64_MAX - PageUp(r.vaddr) * PAGE_SIZE
    || PageDown(r.size) * PAGE_SIZE > UINT64_MAX - PageUp(r.paddr) * PAGE_SIZE
  }

  /** One empty root table is a well-formed tree that maps nothing. */
  lemma EmptyRoot(t: Tree)
    requires InPool(t.mem, t.root) && EmptyTable(t.mem, t.root)
    requires t.tag == map[t.root := Tag(TOP, 0, 0, 0)]
    ensures Settled(t) && forall v: nat :: v < PAGES ==> LeafAt(t, v) == None
  {
    assert Offset(TOP + 1, 0) == 0;
  }

  /** Deferred, every table that left the tree has its bit in the batch and earlier bits stay;
      otherwise the batch is untouched. */
  ghost predicate RetiredSince(tag0: map<nat, Tag>, slot0: map<nat, nat>, tag1: map<nat, Tag>, slot1: map<nat, nat>,
                               deferred: bool) {
    if deferred
    then
      && (forall b {:trigger b in slot0} {:trigger b in slot1} :: b in slot0 ==> b in slot1 && slot1[b] == slot0[b])
      && (forall p {:trigger p in tag0} {:trigger p in tag1} :: p in tag0 && p !in tag1 ==>
            p % WORD in slot1 && slot1[p % WORD] == p)
    else slot1 == slot0
  }

  lemma NoneRetired(tag0: map<nat, Tag>, tag1: map<nat, Tag>, slot: map<nat, nat>, deferred: bool)
    requires tag0.Keys <= tag1.Keys
    ensures RetiredSince(tag0, slot, tag1, slot, deferred)
  {
    assert forall p :: p in tag0 ==> p in tag1.Keys;
  }

  lemma RetiredThen(tag0: map<nat, Tag>, slot0: map<nat, nat>, tag1: map<nat, Tag>, slot1: map<nat, nat>,
                    tag2: map<nat, Tag>, slot2: map<nat, nat>, deferred: bool)
    requires RetiredSince(tag0, slot0, tag1, slot1, deferred) && RetiredSince(tag1, slot1, tag2, slot2, deferred)
    ensures RetiredSince(tag0, slot0, tag2, slot2, deferred)
  {
  }


  /** The table covers a page of `[lo, hi)`. */
  predicate Meets(g: Tag, lo: nat, hi: nat) { g.base < hi && lo < g.base + Span(g.lvl + 1) }

  /** Every table is an old one, or covers a page of `[lo, hi)`. */
  ghost predicate Sprouted(tag0: map<nat, Tag>, tag1: map<nat, Tag>, lo: nat, hi: nat) {
    forall p {:trigger p in tag1} :: p in tag1 ==> (p in tag0 && tag1[p] == tag0[p]) || Meets(tag1[p], lo, hi)
  }

  lemma SproutedThen(tag0: map<nat, Tag>, tag1: map<nat, Tag>, tag2: map<nat, Tag>, lo: nat, hi: nat)
    requires Sprouted(tag0, tag1, lo, hi) && Sprouted(tag1, tag2, lo, hi)
    ensures Sprouted(tag0, tag2, lo, hi)
  {
  }

  lemma NoneSprouted(tag0: map<nat, Tag>, lo: nat, hi: nat)
    ensures Sprouted(tag0, tag0, lo, hi)
  {
  }

  /** The table behind an entry that a page of the range uses. */
  lemma OneSprouted(tag0: map<nat, Tag>, tag1: map<nat, Tag>, p: nat, i: nat, c: nat, v: nat, lo: nat, hi: nat)
    requires p in tag0 && tag0[p].lvl >= 1 && InCell(tag0[p], i, v) && lo <= v < hi
    requires tag1 == tag0 || tag1 == tag0[c := Tag(tag0[p].lvl - 1, Cell(tag0[p], i), p, i)]
    ensures Sprouted(tag0, tag1, lo, hi)
  {
  }

  function Pages(lo: nat, hi: nat): set<nat> { if lo >= hi then {} else Pages(lo, hi - 1) + {hi - 1} }

  lemma {:induction false} PagesBetween(lo: nat, hi: nat)
    ensures forall p :: p in Pages(lo, hi) <==> lo <= p < hi
  {
    if lo < hi {
      PagesBetween(lo, hi - 1);
    }
  }

  lemma PagesDrop(lo: nat, p: nat)
    requires lo <= p
    ensures p in Pages(lo, p + 1) && Pages(lo, p + 1) - {p} == Pages(lo, p)
  {
    PagesBetween(lo, p);
  }

  /** Page `c` is the lowest clear one of its word, which is the word of the hint unless that is full. */
  ghost predicate LowestTaken(used0: seq<bool>, used1: seq<bool>, hint: nat, c: nat)
    requires hint * WORD + WORD <= |used0|
  {
    && c < |used0| && !used0[c] && used1 == used0[c := true]
    && (forall b: nat :: c / WORD * WORD <= b < c ==> used0[b])
    && (c / WORD == hint || FullWord(used0, hint))
  }

  /** If the first `i` pages are used, page `i` is next. */
  lemma FirstFree(used: seq<bool>, used': seq<bool>, i: nat, c: nat)
    requires |used| == 2 * WORD && i <= WORD && LowestTaken(used, used', 0, c)
    requires forall p: nat {:trigger used[p]} :: p < |used| ==> (used[p] <==> p < i)
    ensures c == i
  {
    assert !used[i];
    assert i < WORD ==> !FullWord(used, 0);
    assert c / WORD * WORD <= i;
  }

  ghost predicate MarksExactly(used: seq<bool>, tag: map<nat, Tag>) {
    forall p: nat {:trigger used[p]} :: p < |used| ==> (used[p] <==> p in tag)
  }

  ghost predicate OneWord(slot: map<nat, nat>) { forall b :: b in slot ==> slot[b] == b }

  /** Clearing the pages named by the batch word clears the retired pages exactly when
      each retired page is the one its bit names. */
  lemma BatchFreed(used0: seq<bool>, used1: seq<bool>, tag: map<nat, Tag>, slot: map<nat, nat>)
    requires |used1| == |used0|
    requires forall b :: b in slot ==> b < WORD && slot[b] < |used0| && slot[b] % WORD == b && slot[b] !in tag
    requires forall p: nat {:trigger used0[p]} :: p < |used0| ==>
               (used0[p] <==> p in tag || (p % WORD in slot && slot[p % WORD] == p))
    requires forall p: nat {:trigger used1[p]} :: p < |used1| ==> (used1[p] <==> used0[p] && p !in slot)
    ensures MarksExactly(used1, tag) <==> OneWord(slot)
  {
    if b :| b in slot && slot[b] != b {
      // the page retired under this bit is still marked used
      assert used0[slot[b]] && slot[b] !in slot && used1[slot[b]];
    }
  }

  class PageTable {
    const start: nat
    const words: nat
    const mem: array<Desc>
    const used: array<bool>
    const retiredBits: array<bool>
    var hint: nat
    var root: nat
    var retiredPages: nat
    ghost var tag: map<nat, Tag>
    /** The page retired under each bit of the batch word. */
    ghost var slot: map<nat, nat>

    ghost function T(): Tree
      reads this, mem
    {
      Tree(mem[..], tag, start, root)
    }

    ghost predicate Retired(p: nat)
      reads this
    {
      p % WORD in slot && slot[p % WORD] == p
    }

    ghost predicate Layout()
      reads this
    {
      && words > 0 && hint < words && used != retiredBits
      && mem.Length == words * WORD * ENTRIES
      && used.Length == words * WORD
      && retiredBits.Length == WORD
    }

    /** Used pages are the tables, the pages in `own` and the retired pages. */
    ghost predicate ValidWith(own: set<nat>)
      reads this, mem, used, retiredBits
    {
      && Layout()
      && Inv(T())
      && (forall p: nat {:trigger used[p]} :: p < used.Length ==> (used[p] <==> p in tag || p in own || Retired(p)))
      && (forall p :: p in own ==> p < used.Length && p !in tag && !Retired(p))
      && (forall b :: b in slot ==> slot[b] < used.Length && slot[b] % WORD == b && slot[b] !in tag)
      && (forall b: nat {:trigger retiredBits[b]} :: b < WORD ==> (retiredBits[b] <==> b in slot))
      && retiredPages == |slot|
    }

    ghost predicate Valid()
      reads this, mem, used, retiredBits
    {
      ValidWith({})
    }

    /** `init_page_pool` and `pgtable_create_root`: an empty map. */
    constructor (start: nat, words: nat)
      requires words > 0
      ensures Valid() && Inv(T()) && Settled(T()) && fresh(mem) && fresh(used) && fresh(retiredBits)
      ensures this.words == words && this.start == start && slot == map[] && tag.Keys == {root} && root == 0
              && hint == 0
      ensures forall v: nat :: v < PAGES ==> LeafAt(T(), v) == None
    {
      hide IndexAt, Offset, Cells, Span, LeafAt, WalkFrom, EntryOk, ParentOk, TagOk, Inv, Trimmed;
      this.start, this.words, hint := start, words, 0;
      mem := new Desc[words * WORD * ENTRIES](_ => ABSENT);
      used := new bool[words * WORD](_ => false);
      retiredBits := new bool[WORD](_ => false);
      retiredPages, slot := 0, map[];
      root, tag := 0, map[0 := Tag(TOP, 0, 0, 0)];
      new;
      used[0] := true;
      EmptyRoot(T());
    }

    ghost predicate Exhausted()
      reads used
    {
      forall p: nat {:trigger used[p]} :: p < used.Length ==> used[p]
    }

    /** `sanitize_pte` on a whole page. */
    method Sanitize(c: nat)
      requires InPool(mem[..], c)
      modifies mem
      ensures EmptyTable(mem[..], c)
      ensures forall p: nat, i: nat {:trigger At(mem[..], p, i)} ::
                InPool(mem[..], p) && i < ENTRIES && p != c ==> At(mem[..], p, i) == old(At(mem[..], p, i))
    {
      for i := 0 to ENTRIES
        invariant forall x: nat {:trigger mem[x]} :: c * ENTRIES <= x < c * ENTRIES + i ==> mem[x] == ABSENT
        invariant forall x: nat {:trigger mem[x]} :: x < mem.Length && !(c * ENTRIES <= x < c * ENTRIES + i) ==>
                    mem[x] == old(mem[x])
      {
        mem[c * ENTRIES + i] := ABSENT;
      }
    }

    /** `alloc_page`.  Running out of pages panics. */
    method AllocPage(ghost own: set<nat>) returns (ok: bool, c: nat)
      requires ValidWith(own)
      modifies this`hint, mem, used
      ensures ok <==> !old(Exhausted())
      ensures !ok ==> Exhausted() && ValidWith(own)
      ensures ok ==> ValidWith(own + {c}) && InPool(mem[..], c) && EmptyTable(mem[..], c)
      ensures ok ==> SameTables(old(T()), mem[..])
      ensures ok ==> LowestTaken(old(used[..]), used[..], old(hint), c) && hint == c / WORD
    {
      ok, c := FindClear(used, words, hint);
      if !ok {
        return;
      }
      ghost var k: nat :| k < words && c / WORD == Wrap(hint, k, words) && FullBefore(used[..], words, hint, k);
      assert Wrap(hint, 0, words) == hint;
      hint := c / WORD;
      used[c] := true;
      ghost var t0 := T();
      Sanitize(c);
      WriteFreePage(t0, mem[..]);
    }

    /** `defer_pgtable_page`: free now, or set the page's bit in the batch word.
        A bit already set panics. */
    method FreeOrRetire(c: nat, deferred: bool, ghost own: set<nat>) returns (ok: bool)
      requires ValidWith(own) && c in own
      modifies this`slot, this`retiredPages, used, retiredBits
      ensures ok ==> ValidWith(own - {c})
      ensures ok && !deferred ==> slot == old(slot) && used[..] == old(used[..])[c := false]
      ensures ok && deferred ==> slot == old(slot)[c % WORD := c] && used[..] == old(used[..])
      ensures !ok <==> deferred && c % WORD in old(slot)
      ensures !ok ==> words > 1 && old(slot)[c % WORD] != c && unchanged(this) && unchanged(used)
    {
      if !deferred {
        used[c] := false;
        return true;
      }
      var b := c % WORD;
      if retiredBits[b] {
        return false;
      }
      retiredBits[b] := true;
      retiredPages := retiredPages + 1;
      slot := slot[b := c];
      return true;
    }

    /** Only the root is a table. */
    lemma OnlyRootIsLow()
      requires Valid() && tag.Keys == {root}
      ensures Low(tag)
    {
      SpanGrows(TOP);
    }

    /** In a pool of one word without a batch, tables of the first block alone do not exhaust it. */
    lemma RoomLeft()
      requires words == 1 && slot == map[] && Low(tag)
      ensures Valid() ==> !Exhausted()
    {
      hide Inv;
      if Valid() {
        LowLeavesRoom(T());
        var p :| 0 <= p < 5 && p !in tag;
        assert used.Length == WORD && !used[p];
      }
    }

    /** The pages of the first word and one more are handed out, one after another. */
    method TakeFirstWord()
      requires Valid() && words == 2 && hint == 0 && used.Length == 2 * WORD
      requires forall p: nat {:trigger used[p]} :: p < used.Length ==> (used[p] <==> p == 0)
      modifies this`hint, mem, used
      ensures ValidWith(Pages(1, WORD + 1))
    {
      hide Inv, SameTables, EmptyTable, ValidWith;
      for i := 1 to WORD + 1
        invariant (i <= WORD ==> hint == 0) && ValidWith(Pages(1, i))
        invariant forall p: nat {:trigger used[p]} :: p < used.Length ==> (used[p] <==> p < i)
      {
        ghost var used0 := used[..];
        assert !used[2 * WORD - 1];
        var ok, c := AllocPage(Pages(1, i));
        FirstFree(used0, used[..], i, c);
      }
    }

    /** The last of them is retired, the others are freed. */
    method RetireLast()
      requires ValidWith(Pages(1, WORD + 1)) && slot == map[]
      modifies this`slot, this`retiredPages, used, retiredBits
      ensures Valid() && slot == map[0 := WORD]
    {
      hide Inv, ValidWith;
      PagesDrop(1, WORD);
      var ok := FreeOrRetire(WORD, true, Pages(1, WORD + 1));
      for i := WORD downto 1
        invariant ValidWith(Pages(1, i)) && slot == map[0 := WORD]
      {
        PagesDrop(1, i);
        ok := FreeOrRetire(i, false, Pages(1, i + 1));
      }
    }

    lemma SizeOf()
      requires Valid()
      ensures used.Length == words * WORD && |used[..]| == used.Length
    {
    }

    lemma Marked()
      requires Valid()
      ensures forall p :: p in tag ==> p < used.Length && used[p]
      ensures forall p: nat {:trigger used[p]} :: p < used.Length ==> (used[p] <==> p in tag || Retired(p))
    {
      TablesInPool(T());
    }

    /** Write the table descriptor that puts page `c` under entry `(p, i)`. */
    method LinkPage(p: nat, i: nat, c: nat)
      requires ValidWith({c}) && p in tag && i < ENTRIES && tag[p].lvl >= 1
      requires Inv(Linked(T(), p, i, c))
      modifies this`tag, mem
      ensures Valid() && T() == Linked(old(T()), p, i, c)
    {
      hide IndexAt, Offset, Cells, Span, WalkFrom, LeafAt, EntryOk, ParentOk, TagOk, LeafOk;
      mem[p * ENTRIES + i] := TableDesc(start + c);
      tag := tag[c := Tag(tag[p].lvl - 1, Cell(tag[p], i), p, i)];
      assert T() == Linked(old(T()), p, i, c);
    }

    /** Allocate a child table under an absent entry. */
    method LinkNewTable(p: nat, i: nat) returns (ok: bool, c: nat)
      requires Valid() && p in tag && i < ENTRIES && tag[p].lvl >= 1 && !Present(At(mem[..], p, i))
      modifies this`hint, this`tag, mem, used
      ensures !ok ==> Exhausted() && Valid() && tag == old(tag)
      ensures ok ==> Valid() && Inv(T()) && c !in old(tag)
      ensures ok ==> tag == old(tag)[c := Tag(old(tag[p]).lvl - 1, Cell(old(tag[p]), i), p, i)]
      ensures ok ==> At(mem[..], p, i) == TableDesc(start + c) && KeptAbove(-1, old(T()), T(), p, i)
      ensures ok ==> SameFlat(old(T()), T())
    {
      hide IndexAt, Offset, Cells, Span, WalkFrom, LeafAt, EntryOk, ParentOk, TagOk, LeafOk, LowestTaken;
      ghost var t0 := T();
      ok, c := AllocPage({});
      assert {} + {c} == {c};
      if ok {
        ghost var t1 := T();
        WriteFreePage(t0, mem[..]);
        LinkEmpty(t1, p, i, c);
        LinkedKept(t0, t1, p, i, c);
        LinkPage(p, i, c);
      }
    }

    /** The first half of `split_large_page`: a new page, filled with the pieces. */
    method PreparePieces(l: nat, p: nat, i: nat) returns (ok: bool, c: nat)
      requires Valid() && p in tag && i < ENTRIES && 1 <= l < TOP && tag[p].lvl == l
      requires Large(At(mem[..], p, i))
      modifies this`hint, mem, used
      ensures !ok ==> Exhausted() && Valid()
      ensures ok ==> ValidWith({c}) && SameTables(old(T()), mem[..]) && HoldsPieces(T(), p, i, c)
    {
      hide IndexAt, Offset, Cells, Span, WalkFrom, LeafAt, LeafAttr, EntryOk, ParentOk, TagOk;
      ghost var t0 := T();
      var d := mem[p * ENTRIES + i];
      ok, c := AllocPage({});
      assert {} + {c} == {c};
      if ok {
        FillSplit(l, c, d);
        WriteFreePage(t0, mem[..]);
      }
    }

    /** `split_large_page`: the block becomes a table of its pieces, and no page moves. */
    method SplitLargePage(l: nat, p: nat, i: nat) returns (ok: bool, c: nat)
      requires Valid() && p in tag && i < ENTRIES && 1 <= l < TOP && tag[p].lvl == l
      requires Large(At(mem[..], p, i))
      modifies this`hint, this`tag, mem, used
      ensures !ok ==> Exhausted() && Valid() && tag == old(tag)
      ensures ok ==> Valid() && Inv(T()) && c !in old(tag)
      ensures ok ==> tag == old(tag)[c := Tag(l - 1, Cell(old(tag[p]), i), p, i)] && Occupied(T(), c)
      ensures ok ==> At(mem[..], p, i) == TableDesc(start + c) && KeptAbove(-1, old(T()), T(), p, i)
      ensures ok ==> SplitAt(old(T()), T(), old(tag[p]), i)
    {
      hide IndexAt, Offset, Cells, Span, WalkFrom, LeafAt, LeafAttr, EntryOk, ParentOk, TagOk, LeafOk, SplitAt;
      ghost var t0 := T();
      ok, c := PreparePieces(l, p, i);
      if ok {
        ghost var t1 := T();
        SplitLinked(t0, t1, p, i, c);
        LinkPage(p, i, c);
      }
    }

    /** The pieces of block `d` into page `c`, the address advancing by one piece each time. */
    method FillSplit(l: nat, c: nat, d: Desc)
      requires 1 <= l && InPool(mem[..], c)
      modifies mem
      ensures forall j: nat {:trigger At(mem[..], c, j)} :: j < ENTRIES ==> At(mem[..], c, j) == SplitDesc(l, d, j)
      ensures forall p: nat, i: nat {:trigger At(mem[..], p, i)} ::
                InPool(mem[..], p) && i < ENTRIES && p != c ==> At(mem[..], p, i) == old(At(mem[..], p, i))
    {
      var frame := d.frame;
      CellsTile(l - 1, 0);
      for i := 0 to ENTRIES
        invariant frame == d.frame + Cells(l - 1, i)
        invariant forall x: nat {:trigger mem[x]} :: c * ENTRIES <= x < c * ENTRIES + i ==>
                    mem[x] == SplitDesc(l, d, x - c * ENTRIES)
        invariant forall x: nat {:trigger mem[x]} :: x < mem.Length && !(c * ENTRIES <= x < c * ENTRIES + i) ==>
                    mem[x] == old(mem[x])
      {
        mem[c * ENTRIES + i] := LeafDesc(l - 1, frame, d.attr);
        CellsTile(l - 1, i);
        frame := frame + Span(l - 1);
      }
    }

    /** `local_modify_or_del_pte`. */
    method ChangeLeaf(p: nat, i: nat, op: Op, ghost lo: nat, ghost hi: nat)
      requires Valid() && op.Ok() && !op.Map? && p in tag && i < ENTRIES
      requires Present(At(mem[..], p, i)) && !IsTable(tag[p].lvl, At(mem[..], p, i))
      requires lo <= Cell(tag[p], i) && Cell(tag[p], i) + Span(tag[p].lvl) <= hi
      modifies mem
      ensures Valid() && Inv(T()) && KeptAbove(-1, old(T()), T(), p, i)
      ensures op.Modify? ==> Present(At(mem[..], p, i))
      ensures Changed(old(T()), T(), op, lo, hi, Cell(tag[p], i), Cell(tag[p], i) + Span(tag[p].lvl))
    {
      hide IndexAt, Offset, Cells, Span, WalkFrom, LeafAt;
      ghost var t0 := T();
      var d := NewDesc(op, mem[p * ENTRIES + i]);
      ChangedLeaf(t0, p, i, op, d, lo, hi);
      if op.Delete? || d != mem[p * ENTRIES + i] {
        mem[p * ENTRIES + i] := d;
      }
      assert mem[..] == Put(t0.mem, p, i, d);
    }

    method IsEmpty(c: nat) returns (empty: bool)
      requires InPool(mem[..], c)
      ensures empty <==> EmptyTable(mem[..], c)
    {
      var index := 0;
      while index < ENTRIES && !Present(mem[c * ENTRIES + index])
        invariant index <= ENTRIES
        invariant forall j: nat {:trigger At(mem[..], c, j)} :: j < index ==> !Present(At(mem[..], c, j))
      {
        index := index + 1;
      }
      empty := index == ENTRIES;
      assert !empty ==> Present(At(mem[..], c, index));
    }

    /** `try_to_free_pgtable_page`, after a delete. */
    method TryFree(q: nat, qi: nat, c: nat, deferred: bool) returns (ok: bool)
      requires Valid() && c in tag && c != root && tag[c].up == q && tag[c].ui == qi
      modifies this, mem, used, retiredBits
      ensures ok ==> Valid() && KeptAbove(-1, old(T()).(tag := old(tag) - {c}), T(), q, qi)
      ensures ok ==> (c in tag <==> !EmptyTable(old(mem[..]), c))
      ensures ok && c in tag ==> T() == old(T()) && slot == old(slot) && Occupied(T(), c)
      ensures ok && c !in tag ==> tag == old(tag) - {c}
      ensures ok && c !in tag ==> slot == if deferred then old(slot)[c % WORD := c] else old(slot)
      ensures ok ==> RetiredSince(old(tag), old(slot), tag, slot, deferred)
      ensures ok ==> SameFlat(old(T()), T())
      ensures !ok ==> deferred && words > 1
      ensures !deferred ==> slot == old(slot)
      ensures root == old(root) && (tag == old(tag) || tag == old(tag) - {c})
    {
      hide IndexAt, Offset, Cells, Span, WalkFrom, LeafAt;
      ghost var t0 := T();
      assert ParentOk(t0, c);
      var empty := IsEmpty(c);
      if !empty {
        return true;
      }
      Unlink(t0, q, qi, c);
      mem[q * ENTRIES + qi] := ABSENT;
      tag := tag - {c};
      assert T() == Unlinked(t0, q, qi, c);
      assert {c} - {c} == {};
      ok := FreeOrRetire(c, deferred, {c});
    }

    /** Where an operation on `[lo, vend)` may enter table entry `(q, qi)`: at the first page of
        its cell, or at `lo`. */
    ghost predicate RangePre(l: nat, q: nat, qi: nat, lo: nat, va: nat, vend: nat, e: set<nat>)
      reads this, mem, used, retiredBits
    {
      && Valid() && Inv(T()) && Trimmed(T(), e) && l < TOP
      && q in tag && tag[q].lvl == l + 1 && qi < ENTRIES && IsTable(l + 1, At(mem[..], q, qi))
      && InCell(tag[q], qi, va) && lo <= va < vend && (va == lo || va == Cell(tag[q], qi))
      && PathOk(T(), e, l)
    }

    /** ... and what it leaves: the operation is done in that cell. */
    ghost predicate RangePost(t0: Tree, l: nat, q: nat, qi: nat, lo: nat, vend: nat, op: Op, e: set<nat>)
      requires q in t0.tag
      reads this, mem, used, retiredBits
    {
      && Valid() && Inv(T()) && Trimmed(T(), e) && KeptAbove(l, t0, T(), q, qi)
      && Changed(t0, T(), op, lo, vend, Cell(t0.tag[q], qi), Cell(t0.tag[q], qi) + Span(l + 1))
    }

    /** The body of the level-0 loop. */
    method ChangeEntry0(c: nat, index: nat, op: Op, ghost lo: nat, ghost hi: nat, ghost e: set<nat>)
      requires Valid() && op.Ok() && !op.Map? && c in tag && index < ENTRIES && tag[c].lvl == 0
      requires lo <= Cell(tag[c], index) && Cell(tag[c], index) + Span(0) <= hi
      requires Trimmed(T(), e) && (op.Delete? ==> c in e)
      modifies mem
      ensures Valid() && Inv(T()) && Trimmed(T(), e) && KeptAbove(-1, old(T()), T(), c, index)
      ensures Changed(old(T()), T(), op, lo, hi, Cell(tag[c], index), Cell(tag[c], index) + Span(0))
    {
      hide IndexAt, Offset, Cells, Span, WalkFrom, LeafAt;
      ghost var t := T();
      if Present(mem[c * ENTRIES + index]) {
        ChangeLeaf(c, index, op, lo, hi);
        TrimmedAfterEntry(t, T(), c, index, e);
      } else {
        ChangedAbsent(t, c, index, op, lo, hi);
      }
    }

    /** `modify_or_del_pgtl0`. */
    method ModifyOrDelete0(q: nat, qi: nat, va: nat, vend: nat, op: Op, deferred: bool,
                           ghost lo: nat, ghost e: set<nat>)
      returns (ok: bool)
      requires RangePre(0, q, qi, lo, va, vend, e) && op.Ok() && !op.Map? && (op.Delete? ==> q in e)
      modifies this, mem, used, retiredBits
      ensures ok ==> RangePost(old(T()), 0, q, qi, lo, vend, op, e)
      ensures ok ==> RetiredSince(old(tag), old(slot), tag, slot, deferred)
      ensures ok && op.Modify? ==> At(mem[..], q, qi) == old(At(mem[..], q, qi))
      ensures !ok ==> deferred && words > 1
      ensures Sprouted(old(tag), tag, lo, vend) && (!deferred ==> slot == old(slot))
    {
      hide IndexAt, Offset, Cells, Span, WalkFrom, LeafAt, Inv, Changed, Apply, TagOk, EntryOk, ParentOk, Valid,
        ValidWith, Trimmed, KeptAbove, RetiredSince, Sprouted;
      ghost var t0 := T();
      ChildOf(t0, q, qi);
      var c := mem[q * ENTRIES + qi].frame - start;
      ghost var g := tag[c];
      ghost var e' := if op.Delete? then e + {c} else e;
      var v, index := va, IndexAt(0, va);
      SpanOfPage();
      CellOf(0, g.base, va);
      NothingYet(0, t0, q, qi, op, lo, vend, va, e, e');
      CellsTile(0, 0);
      while index < ENTRIES
        modifies mem
        invariant index <= ENTRIES && va <= v <= vend
        invariant index < ENTRIES ==> v == Cell(g, index) && v < vend
        invariant index == ENTRIES ==> v == g.base + Span(1)
        invariant Valid() && Inv(T())
        invariant Trimmed(T(), e') && KeptAbove(0, t0, T(), q, qi)
        invariant At(mem[..], q, qi) == At(t0.mem, q, qi)
        invariant Changed(t0, T(), op, lo, vend, va, v)
      {
        ghost var t1 := T();
        CellsTile(0, index);
        ChangeEntry0(c, index, op, lo, vend, e');
        EntryKept(-1, t1, T(), c, index, q, qi);
        KeptThen(0, t0, t1, T(), q, qi, -1, c, index);
        ChangedThen(t0, t1, T(), op, lo, vend, va, v, v + 1);
        v := v + 1;
        if v >= vend {
          break;
        }
        index := index + 1;
      }
      OffsetOfPage(0, va);
      OffsetOfPage(0, v);
      WindowGrows(t0, T(), c, op, lo, vend, va, v);
      ok := FinishTable(0, q, qi, c, op, deferred, t0, lo, vend, e, g.base, g.base + Span(1));
    }

    /** The tail of every level: after a delete the table is freed if it is now empty. */
    method FinishTable(l: nat, q: nat, qi: nat, c: nat, op: Op, deferred: bool,
                       ghost t0: Tree, ghost lo: nat, ghost hi: nat, ghost e: set<nat>, ghost w0: nat, ghost w1: nat)
      returns (ok: bool)
      requires Valid() && q in tag && c in tag && c != root && tag[c].up == q && tag[c].ui == qi && tag[c].lvl <= l
      requires Inv(t0) && KeptAbove(l, t0, T(), q, qi) && Changed(t0, T(), op, lo, hi, w0, w1) && !op.Map?
      requires if op.Delete? then q in e && Trimmed(T(), e + {c}) else Trimmed(T(), e)
      modifies this, mem, used, retiredBits
      ensures ok ==> Valid() && Inv(T()) && Trimmed(T(), e) && KeptAbove(l, t0, T(), q, qi)
      ensures ok ==> Changed(t0, T(), op, lo, hi, w0, w1)
      ensures ok ==> RetiredSince(old(tag), old(slot), tag, slot, deferred)
      ensures op.Modify? ==> ok && T() == old(T())
      ensures !ok ==> deferred && words > 1
      ensures Sprouted(old(tag), tag, lo, hi) && (!deferred ==> slot == old(slot))
    {
      hide IndexAt, Offset, Cells, Span, WalkFrom, LeafAt, Inv, TagOk, EntryOk, ParentOk, Changed, SameFlat;
      if op.Modify? {
        return true;
      }
      ghost var t1 := T();
      ok := TryFree(q, qi, c, deferred);
      if ok {
        AfterTryFree(l, t0, t1, T(), q, qi, c, e);
        ChangedThenSame(t0, t1, T(), op, lo, hi, w0, w1);
      }
    }

    /** One entry of a level-1 or level-2 table: skip it, change a block that lies in the
        range, or split a block that does not and descend. */
    method ChangeEntry(l: nat, c: nat, index: nat, v: nat, vend: nat, op: Op, deferred: bool,
                       ghost lo: nat, ghost e: set<nat>)
      returns (ok: bool)
      requires Valid() && Inv(T()) && Trimmed(T(), e) && 1 <= l < TOP
      requires op.Ok() && !op.Map? && (op.Delete? ==> c in e)
      requires c in tag && index < ENTRIES && tag[c].lvl == l && InCell(tag[c], index, v)
      requires lo <= v < vend && (v == lo || v == Cell(tag[c], index))
      requires PathOk(T(), e, l - 1)
      modifies this, mem, used, retiredBits
      ensures ok ==> Valid() && Inv(T()) && Trimmed(T(), e) && KeptAbove(l - 1, old(T()), T(), c, index)
      ensures ok ==> Changed(old(T()), T(), op, lo, vend, Cell(old(tag[c]), index), Cell(old(tag[c]), index) + Span(l))
      ensures ok ==> RetiredSince(old(tag), old(slot), tag, slot, deferred)
      ensures !ok ==> (Exhausted() && Valid()) || (deferred && words > 1)
      ensures Sprouted(old(tag), tag, lo, vend) && (!deferred ==> slot == old(slot))
      decreases l, 0
    {
      hide IndexAt, Offset, Cells, Span, WalkFrom, LeafAt, Inv, Changed, Apply, TagOk, EntryOk, ParentOk,
        Valid, ValidWith, Trimmed, KeptAbove, PathOk, SameFlat, SplitAt, RetiredSince, Sprouted, InCell;
      ghost var t0, slot0 := T(), slot;
      EntryKinds(t0, c, index, v);
      NoneRetired(tag, tag, slot, deferred);
      NoneSprouted(tag, lo, vend);
      var d := mem[c * ENTRIES + index];
      if !Present(d) {
        ChangedAbsent(t0, c, index, op, lo, vend);
        NothingYet(l - 1, t0, c, index, op, lo, vend, v, e, e);
        return true;
      }
      if !Large(d) {
        ok := ModifyOrDelete(l - 1, c, index, v, vend, op, deferred, lo, e);
        return;
      }
      if NextCell(l, v) <= vend && Offset(l, v) == 0 {
        ChangeLeaf(c, index, op, lo, vend);
        EntryKept(-1, t0, T(), c, index, c, index);
        TrimmedAfterEntry(t0, T(), c, index, e);
        KeptWeaken(-1, l - 1, t0, T(), c, index);
        return true;
      }
      CutByRange(t0, c, index, v, lo, vend);
      var n;
      ok, n := SplitLargePage(l, c, index);
      OneSprouted(t0.tag, tag, c, index, n, v, lo, vend);
      if !ok {
        return;
      }
      TrimmedAfterEntry(t0, T(), c, index, e);
      KeptWeaken(-1, l - 1, t0, T(), c, index);
      PathKept(l - 1, t0, T(), c, index, e);
      ghost var t1 := T();
      ok := ModifyOrDelete(l - 1, c, index, v, vend, op, deferred, lo, e);
      SproutedThen(t0.tag, t1.tag, tag, lo, vend);
      if ok {
        KeptThen(l - 1, t0, t1, T(), c, index, l - 1, c, index);
        SplitThenChanged(t0, t1, T(), t0.tag[c], index, op, lo, vend);
        NoneRetired(t0.tag, t1.tag, slot0, deferred);
        RetiredThen(t0.tag, slot0, t1.tag, slot0, tag, slot, deferred);
      }
    }

    /** The loop of `modify_or_del_pgtl1` and `modify_or_del_pgtl2` over the entries of table `c`. */
    method ChangeCells(l: nat, q: nat, qi: nat, c: nat, va: nat, vend: nat, op: Op, deferred: bool,
                       ghost lo: nat, ghost e: set<nat>)
      returns (ok: bool)
      requires Valid() && Inv(T()) && Trimmed(T(), e) && 1 <= l < TOP && PathOk(T(), e, l - 1)
      requires op.Ok() && !op.Map? && (op.Delete? ==> c in e)
      requires q in tag && tag[q].lvl == l + 1 && qi < ENTRIES && c in tag && tag[c].lvl == l
      requires Covers(tag[c], va) && lo <= va < vend && (va == lo || va == tag[c].base)
      modifies this, mem, used, retiredBits
      ensures ok ==> Valid() && Inv(T()) && Trimmed(T(), e) && KeptAbove(l, old(T()), T(), q, qi)
      ensures ok ==> Changed(old(T()), T(), op, lo, vend, old(tag[c]).base, old(tag[c]).base + Span(l + 1))
      ensures ok ==> RetiredSince(old(tag), old(slot), tag, slot, deferred)
      ensures ok ==> root == old(root) && c in tag && tag[c] == old(tag[c]) && q in tag && tag[q] == old(tag[q])
      ensures ok ==> InPool(mem[..], q) && InPool(old(mem[..]), q) && At(mem[..], q, qi) == At(old(mem[..]), q, qi)
      ensures !ok ==> (Exhausted() && Valid()) || (deferred && words > 1)
      ensures Sprouted(old(tag), tag, lo, vend) && (!deferred ==> slot == old(slot))
      decreases l, 1
    {
      hide IndexAt, Offset, Cells, Span, WalkFrom, LeafAt, Inv, Changed, Apply, TagOk, EntryOk, ParentOk, Valid,
        ValidWith, Trimmed, KeptAbove, RetiredSince, PathOk, Sprouted;
      ghost var t0, slot0, g := T(), slot, tag[c];
      TagAligned(t0, c);
      EntryInPool(t0, q);
      var v, index := va, IndexAt(l, va);
      CellOf(l, g.base, va);
      ghost var w0, w := Cell(g, index), Cell(g, index);
      CellAligned(l, g.base, index);
      NothingYet(l, t0, q, qi, op, lo, vend, w0, e, e);
      NoneRetired(tag, tag, slot, deferred);
      NoneSprouted(tag, lo, vend);
      CellsTile(l, 0);
      while index < ENTRIES
        invariant index <= ENTRIES && w0 <= w && Offset(l, w) == 0
        invariant index < ENTRIES ==>
                    lo <= v < vend && w == Cell(g, index) && InCell(g, index, v) && (v == lo || v == w)
        invariant index == ENTRIES ==> w == g.base + Span(l + 1)
        invariant Valid() && Inv(T()) && root == t0.root && c in tag && tag[c] == g && q in tag && tag[q] == t0.tag[q]
        invariant Trimmed(T(), e) && PathOk(T(), e, l - 1) && KeptAbove(l, t0, T(), q, qi)
        invariant InPool(mem[..], q) && At(mem[..], q, qi) == At(t0.mem, q, qi)
        invariant Changed(t0, T(), op, lo, vend, w0, w)
        invariant RetiredSince(t0.tag, slot0, tag, slot, deferred) && Sprouted(t0.tag, tag, lo, vend)
                  && (!deferred ==> slot == slot0)
      {
        ghost var t1, slot1 := T(), slot;
        CellsTile(l, index);
        IndexOfCell(l, g.base, index, v);
        NextAligned(l, w);
        var next := NextCell(l, v);
        ok := ChangeEntry(l, c, index, v, vend, op, deferred, lo, e);
        SproutedThen(t0.tag, t1.tag, tag, lo, vend);
        if !ok {
          return;
        }
        EntryDone(l, t0, t1, T(), q, qi, c, index, e);
        ChangedThen(t0, t1, T(), op, lo, vend, w0, w, next);
        RetiredThen(t0.tag, slot0, t1.tag, slot1, tag, slot, deferred);
        w := next;
        if next >= vend {
          break;
        }
        v := next;
        index := index + 1;
      }
      WindowGrows(t0, T(), c, op, lo, vend, w0, w);
      return true;
    }

    /** `modify_or_del_pgtl1` and `modify_or_del_pgtl2`, the same text at two levels. */
    method ModifyOrDelete(l: nat, q: nat, qi: nat, va: nat, vend: nat, op: Op, deferred: bool,
                          ghost lo: nat, ghost e: set<nat>)
      returns (ok: bool)
      requires RangePre(l, q, qi, lo, va, vend, e) && op.Ok() && !op.Map? && (op.Delete? ==> q in e)
      modifies this, mem, used, retiredBits
      ensures ok ==> RangePost(old(T()), l, q, qi, lo, vend, op, e)
      ensures ok ==> RetiredSince(old(tag), old(slot), tag, slot, deferred)
      ensures ok && op.Modify? ==> At(mem[..], q, qi) == old(At(mem[..], q, qi))
      ensures !ok ==> (Exhausted() && Valid()) || (deferred && words > 1)
      ensures Sprouted(old(tag), tag, lo, vend) && (!deferred ==> slot == old(slot))
      decreases l, 2
    {
      hide IndexAt, Offset, Cells, Span, WalkFrom, LeafAt, Inv, Changed, Apply, TagOk, EntryOk, ParentOk, Valid,
        ValidWith, Trimmed, KeptAbove, RetiredSince, Sprouted;
      if l == 0 {
        ok := ModifyOrDelete0(q, qi, va, vend, op, deferred, lo, e);
        return;
      }
      ghost var t0, slot0 := T(), slot;
      ChildOf(t0, q, qi);
      var c := mem[q * ENTRIES + qi].frame - start;
      ghost var g := tag[c];
      ghost var e' := if op.Delete? then e + {c} else e;
      TrimmedMore(t0, e, e');
      ok := ChangeCells(l, q, qi, c, va, vend, op, deferred, lo, e');
      if !ok {
        return;
      }
      ghost var t1, slot1 := T(), slot;
      ok := FinishTable(l, q, qi, c, op, deferred, t0, lo, vend, e, g.base, g.base + Span(l + 1));
      SproutedThen(t0.tag, t1.tag, tag, lo, vend);
      if ok {
        RetiredThen(t0.tag, slot0, t1.tag, slot1, tag, slot, deferred);
      }
    }

    /** Write a new leaf over an absent entry. */
    method SetLeaf(l: nat, p: nat, i: nat, frame: nat, op: Op, ghost hi: nat)
      requires Valid() && Inv(T()) && p in tag && i < ENTRIES && tag[p].lvl == l < TOP && op.Map? && op.Ok()
      requires !Present(At(mem[..], p, i)) && (l == 0 || l in op.allowed) && Cell(tag[p], i) + Span(l) <= hi
      requires op.vaddr <= Cell(tag[p], i) && frame == op.paddr + (Cell(tag[p], i) - op.vaddr) && Offset(l, frame) == 0
      modifies mem
      ensures Valid() && Inv(T()) && KeptAbove(-1, old(T()), T(), p, i) && Present(At(mem[..], p, i))
      ensures Changed(old(T()), T(), op, op.vaddr, hi, Cell(tag[p], i), Cell(tag[p], i) + Span(l))
      ensures MappedAt(T(), l, Cell(tag[p], i), Cell(tag[p], i) + Span(l))
    {
      hide IndexAt, Offset, Cells, Span, WalkFrom, LeafAt, LeafAttr, EntryOk, ParentOk, TagOk, Changed, MappedAt;
      ghost var t0 := T();
      ChangedNewLeaf(t0, p, i, op, frame, op.vaddr, hi);
      mem[p * ENTRIES + i] := LeafDesc(l, frame, op.prot);
      assert mem[..] == Put(t0.mem, p, i, LeafDesc(l, frame, op.prot));
    }

    /** `pgtable_map_allows_leaf` with the stage-1 `large_page_support`. */
    predicate AllowsLeaf(allowed: set<nat>, l: nat, paddr: nat, v: nat, vend: nat) {
      l in allowed && 1 <= l < TOP && Offset(l, paddr) == 0 && Offset(l, v) == 0 && NextCell(l, v) <= vend
    }

    /** An entry that becomes a leaf, or is one already. */
    method AddHere(l: nat, c: nat, index: nat, paddr: nat, v: nat, vend: nat, op: Op, ghost e: set<nat>)
      requires Valid() && Inv(T()) && Trimmed(T(), e) && l < TOP && op.Map? && op.Ok()
      requires op.vaddr <= v < vend && paddr == op.paddr + (v - op.vaddr)
      requires c in tag && index < ENTRIES && tag[c].lvl == l && InCell(tag[c], index, v)
      requires if Present(At(mem[..], c, index)) then !IsTable(l, At(mem[..], c, index))
               else l == 0 || AllowsLeaf(op.allowed, l, paddr, v, vend)
      modifies mem
      ensures Valid() && Inv(T()) && Trimmed(T(), e) && KeptAbove(l - 1, old(T()), T(), c, index)
      ensures Changed(old(T()), T(), op, op.vaddr, vend, Cell(tag[c], index), Cell(tag[c], index) + Span(l))
      ensures Largest(old(T()), T(), op, vend, Cell(tag[c], index), Cell(tag[c], index) + Span(l), l)
      ensures Present(At(mem[..], c, index))
    {
      hide IndexAt, Offset, Cells, Span, WalkFrom, LeafAt, Inv, Changed, Apply, TagOk, EntryOk, ParentOk,
        Valid, ValidWith, Trimmed, KeptAbove, PathOk, SameFlat, Largest, AllMapped, MappedAt;
      ghost var t0 := T();
      ghost var w0, w1 := Cell(tag[c], index), Cell(tag[c], index) + Span(l);
      EntryKinds(t0, c, index, v);
      SpanOfPage();
      if Present(mem[c * ENTRIES + index]) {
        ChangedMapped(t0, c, index, op, op.vaddr, vend);
        LargestMapped(t0, op, vend, w0, w1, l);
        NothingYet(l - 1, t0, c, index, op, op.vaddr, vend, v, e, e);
      } else {
        OffsetOfPage(l, paddr);
        SetLeaf(l, c, index, paddr, op, vend);
        LargestLeaf(t0, T(), op, vend, w0, w1, l);
        EntryKept(-1, t0, T(), c, index, c, index);
        TrimmedAfterEntry(t0, T(), c, index, e);
        KeptWeaken(-1, l - 1, t0, T(), c, index);
      }
    }

    /** The table behind an entry that cannot be one leaf: linked if absent. */
    method TableBelow(l: nat, c: nat, index: nat, ghost e: set<nat>) returns (ok: bool, ghost n: nat)
      requires Valid() && Inv(T()) && Trimmed(T(), e) && 1 <= l <= TOP && c in tag && index < ENTRIES && tag[c].lvl == l
      requires Present(At(mem[..], c, index)) ==> IsTable(l, At(mem[..], c, index))
      requires PathOk(T(), e, l - 1)
      modifies this`hint, this`tag, mem, used
      ensures !ok ==> Exhausted() && Valid()
      ensures tag == old(tag) || tag == old(tag)[n := Tag(l - 1, Cell(old(tag[c]), index), c, index)]
      ensures ok ==> Valid() && Inv(T()) && Trimmed(T(), e + {n}) && KeptAbove(-1, old(T()), T(), c, index)
      ensures ok ==> IsTable(l, At(mem[..], c, index)) && At(mem[..], c, index).frame >= start
                     && n == At(mem[..], c, index).frame - start
      ensures ok ==> SameFlat(old(T()), T())
    {
      hide IndexAt, Offset, Cells, Span, WalkFrom, LeafAt, Inv, TagOk, EntryOk, ParentOk,
        Valid, ValidWith, Trimmed, KeptAbove, PathOk, SameFlat;
      ghost var t0 := T();
      EntryInPool(t0, c);
      if !Present(mem[c * ENTRIES + index]) {
        ok, n := LinkNewTable(c, index);
        if !ok {
          return;
        }
        TrimmedMore(t0, e, e + {n});
        TrimmedAfterEntry(t0, T(), c, index, e + {n});
      } else {
        ChildOf(t0, c, index);
        n := mem[c * ENTRIES + index].frame - start;
        TrimmedMore(t0, e, e + {n});
        NothingYet(-1, t0, c, index, Delete, 0, 0, 0, e, e);
        SameFlatRefl(t0);
        return true, n;
      }
    }

    /** One entry of the table being filled: keep what is mapped, install a leaf where
        alignment and policy allow it, otherwise descend into a child table. */
    method AddEntry(l: nat, c: nat, index: nat, paddr: nat, v: nat, vend: nat, op: Op, ghost e: set<nat>)
      returns (ok: bool)
      requires Valid() && Inv(T()) && Trimmed(T(), e) && l < TOP && op.Map? && op.Ok()
      requires c in tag && index < ENTRIES && tag[c].lvl == l && InCell(tag[c], index, v)
      requires op.vaddr <= v < vend && paddr == op.paddr + (v - op.vaddr) && (v == op.vaddr || v == Cell(tag[c], index))
      requires PathOk(T(), e, l - 1)
      modifies this`hint, this`tag, mem, used
      ensures ok ==> Valid() && Inv(T()) && Trimmed(T(), e) && KeptAbove(l - 1, old(T()), T(), c, index)
      ensures ok ==>
                Changed(old(T()), T(), op, op.vaddr, vend, Cell(old(tag[c]), index), Cell(old(tag[c]), index) + Span(l))
      ensures ok ==> Largest(old(T()), T(), op, vend, Cell(old(tag[c]), index), Cell(old(tag[c]), index) + Span(l), l)
      ensures ok ==> Present(At(mem[..], c, index))
      ensures !ok ==> Exhausted() && Valid()
      ensures Sprouted(old(tag), tag, op.vaddr, vend)
      decreases l, 0
    {
      hide IndexAt, Offset, Cells, Span, WalkFrom, LeafAt, Inv, Changed, Apply, TagOk, EntryOk, ParentOk,
        Valid, ValidWith, Trimmed, KeptAbove, PathOk, SameFlat, Largest, Sprouted;
      ghost var t0 := T();
      EntryKinds(t0, c, index, v);
      NoneSprouted(tag, op.vaddr, vend);
      var d := mem[c * ENTRIES + index];
      if (Present(d) && (l == 0 || Large(d))) || (!Present(d)
                                                  && (l == 0 || AllowsLeaf(op.allowed, l, paddr, v, vend))) {
        AddHere(l, c, index, paddr, v, vend, op, e);
        return true;
      }
      NotOneLeaf(t0, e, c, index, paddr, v, vend, op);
      ghost var n: nat;
      ok, n := TableBelow(l, c, index, e);
      OneSprouted(t0.tag, tag, c, index, n, v, op.vaddr, vend);
      if !ok {
        return;
      }
      KeptWeaken(-1, l - 1, t0, T(), c, index);
      PathKept(l - 1, t0, T(), c, index, e);
      TagKept(-1, t0, T(), c, index, c);
      ghost var t1 := T();
      ok := AddRange(l - 1, c, index, paddr, v, vend, op, e);
      SproutedThen(t0.tag, t1.tag, tag, op.vaddr, vend);
      if ok {
        KeptThen(l - 1, t0, t1, T(), c, index, l - 1, c, index);
        SameThenChanged(t0, t1, T(), op, op.vaddr, vend, Cell(t0.tag[c], index), Cell(t0.tag[c], index) + Span(l));
        LargestSame(t0, t1, T(), op, vend, Cell(t0.tag[c], index), Cell(t0.tag[c], index) + Span(l), l - 1);
        LargestUp(t0, T(), t0.tag[c], index, op, vend);
      }
    }

    /** The loop of `add_pgtl0`, `add_pgtl1` and `add_pgtl2` over the entries of table `c`. */
    method AddCells(l: nat, q: nat, qi: nat, c: nat, pstart: nat, va: nat, vend: nat, op: Op, ghost e: set<nat>)
      returns (ok: bool)
      requires Valid() && Inv(T()) && Trimmed(T(), e) && l < TOP && PathOk(T(), e, l - 1) && op.Map? && op.Ok()
      requires q in tag && tag[q].lvl == l + 1 && qi < ENTRIES && c in tag && tag[c].lvl == l
      requires op.vaddr <= va < vend && pstart == op.paddr + (va - op.vaddr)
      requires Covers(tag[c], va) && (va == op.vaddr || va == tag[c].base)
      modifies this`hint, this`tag, mem, used
      ensures ok ==> Valid() && Inv(T()) && Trimmed(T(), e) && KeptAbove(l, old(T()), T(), q, qi) && Occupied(T(), c)
      ensures ok ==> Changed(old(T()), T(), op, op.vaddr, vend, old(tag[c]).base, old(tag[c]).base + Span(l + 1))
      ensures ok ==> Largest(old(T()), T(), op, vend, old(tag[c]).base, old(tag[c]).base + Span(l + 1), l)
      ensures ok ==> InPool(mem[..], q) && InPool(old(mem[..]), q) && At(mem[..], q, qi) == At(old(mem[..]), q, qi)
      ensures !ok ==> Exhausted() && Valid()
      ensures Sprouted(old(tag), tag, op.vaddr, vend)
      decreases l, 1
    {
      hide IndexAt, Offset, Cells, Span, WalkFrom, LeafAt, Inv, Changed, Apply, TagOk, EntryOk, ParentOk,
        Valid, ValidWith, Trimmed, KeptAbove, Occupied, Largest, PathOk, Sprouted;
      ghost var t0, g := T(), tag[c];
      TagAligned(t0, c);
      EntryInPool(t0, q);
      var v, paddr, index := va, pstart, IndexAt(l, va);
      CellOf(l, g.base, va);
      ghost var w0, w := Cell(g, index), Cell(g, index);
      CellAligned(l, g.base, index);
      NothingYet(l, t0, q, qi, op, op.vaddr, vend, w0, e, e);
      LargestNothing(t0, op, vend, w0, l);
      NoneSprouted(tag, op.vaddr, vend);
      CellsTile(l, 0);
      while index < ENTRIES
        invariant index <= ENTRIES && w0 <= w && Offset(l, w) == 0
        invariant index < ENTRIES ==> op.vaddr <= v < vend && w == Cell(g, index) && InCell(g, index, v)
                                      && (v == op.vaddr || v == w) && paddr == op.paddr + (v - op.vaddr)
        invariant index == ENTRIES ==> w == g.base + Span(l + 1)
        invariant index == IndexAt(l, va) || Occupied(T(), c)
        invariant Valid() && Inv(T()) && c in tag && tag[c] == g && q in tag && tag[q] == t0.tag[q]
        invariant Trimmed(T(), e) && PathOk(T(), e, l - 1) && KeptAbove(l, t0, T(), q, qi)
        invariant InPool(mem[..], q) && At(mem[..], q, qi) == At(t0.mem, q, qi)
        invariant Changed(t0, T(), op, op.vaddr, vend, w0, w) && Largest(t0, T(), op, vend, w0, w, l)
        invariant Sprouted(t0.tag, tag, op.vaddr, vend)
      {
        ghost var t1 := T();
        CellsTile(l, index);
        IndexOfCell(l, g.base, index, v);
        NextAligned(l, w);
        var next := NextCell(l, v);
        ok := AddEntry(l, c, index, paddr, v, vend, op, e);
        SproutedThen(t0.tag, t1.tag, tag, op.vaddr, vend);
        if !ok {
          return;
        }
        EntryDone(l, t0, t1, T(), q, qi, c, index, e);
        EntryInPool(T(), c);
        LargestThen(t0, t1, T(), op, op.vaddr, vend, w0, w, next, l, l);
        ChangedThen(t0, t1, T(), op, op.vaddr, vend, w0, w, next);
        OccupiedBy(T(), c, index);
        w := next;
        if next >= vend {
          break;
        }
        paddr, v := paddr + (next - v), next;
        index := index + 1;
      }
      WindowGrows(t0, T(), c, op, op.vaddr, vend, w0, w);
      LargestGrows(t0, T(), op, vend, w0, w, g.base, g.base + Span(l + 1), l);
      return true;
    }

    /** `add_pgtl0`, `add_pgtl1` and `add_pgtl2`. */
    method AddRange(l: nat, q: nat, qi: nat, pstart: nat, va: nat, vend: nat, op: Op, ghost e: set<nat>)
      returns (ok: bool)
      requires Valid() && Inv(T()) && l < TOP && op.Map? && op.Ok() && op.vaddr <= va < vend
               && pstart == op.paddr + (va - op.vaddr)
      requires q in tag && tag[q].lvl == l + 1 && qi < ENTRIES && IsTable(l + 1, At(mem[..], q, qi))
      requires At(mem[..], q, qi).frame >= start
      requires Trimmed(T(), e + {At(mem[..], q, qi).frame - start}) && PathOk(T(), e, l)
      requires InCell(tag[q], qi, va) && (va == op.vaddr || va == Cell(tag[q], qi))
      modifies this`hint, this`tag, mem, used
      ensures ok ==> RangePost(old(T()), l, q, qi, op.vaddr, vend, op, e)
      ensures ok ==> Largest(old(T()), T(), op, vend, Cell(old(tag[q]), qi), Cell(old(tag[q]), qi) + Span(l + 1), l)
      ensures ok ==> At(mem[..], q, qi) == old(At(mem[..], q, qi))
      ensures !ok ==> Exhausted() && Valid()
      ensures Sprouted(old(tag), tag, op.vaddr, vend)
      decreases l, 2
    {
      hide IndexAt, Offset, Cells, Span, WalkFrom, LeafAt, Inv, Changed, Apply, TagOk, EntryOk, ParentOk,
        Valid, ValidWith, Trimmed, KeptAbove, Occupied, Largest, Sprouted;
      ChildOf(T(), q, qi);
      var c := mem[q * ENTRIES + qi].frame - start;
      ok := AddCells(l, q, qi, c, pstart, va, vend, op, e + {c});
      if ok {
        TrimmedDrop(T(), e, c);
      }
    }

    /** `pgtable_modify_or_del_map_deferred`.  What becomes of each page of the whole map, when
        that is exactly the promise, and where the tables go that are no longer needed. */
    method ModifyOrDeleteMap(vaddrBase: nat, size: nat, op: Op, deferred: bool) returns (ok: bool)
      requires Valid() && Settled(T()) && op.Ok() && !op.Map?
      requires PageUp(vaddrBase) + PageDown(size) <= PAGES
      modifies this, mem, used, retiredBits
      ensures ok ==> Valid() && Settled(T()) && root == old(root)
      ensures ok ==> Changed(old(T()), T(), op, PageUp(vaddrBase), PageUp(vaddrBase) + PageDown(size), 0, PAGES)
      ensures ok ==> var lo, hi := PageUp(vaddrBase), PageUp(vaddrBase) + PageDown(size);
                     Exactly(old(T()), T(), op, lo, hi) <==>
                       lo == hi || (FlagAtCut(old(T()), lo) && FlagAtCut(old(T()), hi))
      ensures ok ==> RetiredSince(old(tag), old(slot), tag, slot, deferred)
      ensures !ok ==> (Exhausted() && Valid()) || (deferred && words > 1)
      ensures Sprouted(old(tag), tag, PageUp(vaddrBase), PageUp(vaddrBase) + PageDown(size))
              && (!deferred ==> slot == old(slot))
    {
      hide IndexAt, Offset, Cells, Span, WalkFrom, LeafAt, Inv, Changed, Apply, TagOk, EntryOk, ParentOk,
        Valid, ValidWith, Trimmed, KeptAbove, PathOk, RetiredSince, Exactly, FlagAtCut, Sprouted;
      ghost var t0, slot0 := T(), slot;
      var va := PageUp(vaddrBase);
      var v, vend := va, va + PageDown(size);
      NoneRetired(tag, tag, slot, deferred);
      NoneSprouted(tag, va, vend);
      if va == vend {
        EmptyRange(t0, op, va, 0, PAGES);
        ExactlyWhen(t0, t0, op, va, vend);
        return true;
      }
      RootExcused(t0);
      OffsetBounds(TOP, va);
      ghost var w0, w := va - Offset(TOP, va), va - Offset(TOP, va);
      NothingYet(TOP - 1, t0, root, 0, op, va, vend, w0, {}, {});
      while v < vend
        invariant va <= v && root == t0.root && w0 <= w <= PAGES && Offset(TOP, w) == 0
        invariant (v == va && w == w0) || v == w
        invariant Valid() && Inv(T()) && Trimmed(T(), {root}) && Changed(t0, T(), op, va, vend, w0, w)
        invariant RetiredSince(t0.tag, slot0, tag, slot, deferred) && Sprouted(t0.tag, tag, va, vend)
                  && (!deferred ==> slot == slot0)
      {
        ghost var t1, slot1 := T(), slot;
        TopCell(t1, v, w);
        RootExcused(t1);
        var next := NextCell(TOP, v);
        var i := IndexAt(TOP, v);
        if !Present(mem[root * ENTRIES + i]) {
          ChangedAbsent(t1, root, i, op, va, vend);
          NoneRetired(tag, tag, slot, deferred);
        } else {
          ok := ModifyOrDelete(TOP - 1, root, i, v, vend, op, deferred, va, {root});
          SproutedThen(t0.tag, t1.tag, tag, va, vend);
          if !ok {
            return;
          }
          RootKept(TOP - 1, t1, T(), t1.root, i);
        }
        ChangedThen(t0, t1, T(), op, va, vend, w0, w, next);
        RetiredThen(t0.tag, slot0, t1.tag, slot1, tag, slot, deferred);
        v, w := next, next;
      }
      RootExcused(T());
      WholeMap(t0, T(), op, va, vend, w0, w);
      ExactlyWhen(t0, T(), op, va, vend);
      return true;
    }

    /** `pgtable_add_map_deferred`: exactly the unmapped pages of the range are mapped, by the
        largest leaves that policy, alignment and what was mapped before allow. */
    method AddMap(r: MapRequest) returns (s: Status)
      requires Valid() && Settled(T()) && r.prot & PFN_MASK == 0
      requires !Rejected(r) ==> PageUp(r.vaddr) + PageDown(r.size) <= PAGES
      modifies this`hint, this`tag, mem, used
      ensures s == Invalid <==> Rejected(r)
      ensures s == Invalid ==> T() == old(T()) && Valid()
      ensures s == Done ==> Valid() && Settled(T())
      ensures s == Done ==>
                Changed(old(T()), T(), r.Op(), PageUp(r.vaddr), PageUp(r.vaddr) + PageDown(r.size), 0, PAGES)
      ensures s == Done ==> Largest(old(T()), T(), r.Op(), PageUp(r.vaddr) + PageDown(r.size), 0, PAGES, TOP - 1)
      ensures s == Panic ==> Exhausted() && Valid()
      ensures Sprouted(old(tag), tag, PageUp(r.vaddr), PageUp(r.vaddr) + PageDown(r.size))
    {
      hide IndexAt, Offset, Cells, Span, WalkFrom, LeafAt, Inv, Changed, Apply, TagOk, EntryOk, ParentOk,
        Valid, ValidWith, Trimmed, KeptAbove, PathOk, SameFlat, Largest, Sprouted;
      NoneSprouted(tag, PageUp(r.vaddr), PageUp(r.vaddr) + PageDown(r.size));
      if Rejected(r) {
        return Invalid;
      }
      ghost var t0 := T();
      var op := r.Op();
      var v, paddr, vend := op.vaddr, op.paddr, op.vaddr + PageDown(r.size);
      RootExcused(t0);
      OffsetBounds(TOP, v);
      ghost var w0, w := v - Offset(TOP, v), v - Offset(TOP, v);
      NothingYet(TOP - 1, t0, root, 0, op, v, vend, w0, {}, {});
      LargestNothing(t0, op, vend, w0, TOP - 1);
      while v < vend
        invariant op.vaddr <= v && w0 <= w <= PAGES && Offset(TOP, w) == 0 && paddr == op.paddr + (v - op.vaddr)
        invariant (v == op.vaddr && w == w0) || v == w
        invariant Valid() && Inv(T()) && Trimmed(T(), {root})
        invariant Changed(t0, T(), op, op.vaddr, vend, w0, w) && Largest(t0, T(), op, vend, w0, w, TOP - 1)
        invariant Sprouted(t0.tag, tag, op.vaddr, vend)
      {
        ghost var t1 := T();
        TopCell(t1, v, w);
        var next := NextCell(TOP, v);
        var ok := AddTop(v, vend, paddr, op, w);
        SproutedThen(t0.tag, t1.tag, tag, op.vaddr, vend);
        if !ok {
          return Panic;
        }
        LargestThen(t0, t1, T(), op, op.vaddr, vend, w0, w, next, TOP - 1, TOP);
        ChangedThen(t0, t1, T(), op, op.vaddr, vend, w0, w, next);
        paddr, v, w := paddr + (next - v), next, next;
      }
      RootExcused(T());
      WholeMap(t0, T(), op, op.vaddr, vend, w0, w);
      LargestGrows(t0, T(), op, vend, w0, w, 0, PAGES, TOP - 1);
      return Done;
    }

    /** The body of the top-level loop: make sure the root entry is a table, then fill it. */
    method AddTop(v: nat, vend: nat, paddr: nat, op: Op, ghost w: nat) returns (ok: bool)
      requires Valid() && Inv(T()) && Trimmed(T(), {root}) && v < vend <= PAGES
      requires op.Map? && op.Ok() && op.vaddr <= v && paddr == op.paddr + (v - op.vaddr)
      requires Offset(TOP, w) == 0 && (v == w || (v == op.vaddr && w == v - Offset(TOP, v)))
      modifies this`hint, this`tag, mem, used
      ensures ok ==> Valid() && Inv(T()) && Trimmed(T(), {root})
      ensures ok ==> Changed(old(T()), T(), op, op.vaddr, vend, w, w + Span(TOP))
      ensures ok ==> Largest(old(T()), T(), op, vend, w, w + Span(TOP), TOP - 1)
      ensures !ok ==> Exhausted() && Valid()
      ensures Sprouted(old(tag), tag, op.vaddr, vend)
    {
      hide IndexAt, Offset, Cells, Span, WalkFrom, LeafAt, Inv, Changed, Apply, TagOk, EntryOk, ParentOk,
        Valid, ValidWith, Trimmed, KeptAbove, PathOk, SameFlat, Largest, Sprouted;
      ghost var t0 := T();
      TopCell(t0, v, w);
      RootExcused(t0);
      var i := IndexAt(TOP, v);
      ghost var n;
      ok, n := TableBelow(TOP, root, i, {root});
      OneSprouted(t0.tag, tag, t0.root, i, n, v, op.vaddr, vend);
      if !ok {
        return;
      }
      TagKept(-1, t0, T(), t0.root, i, t0.root);
      RootExcused(T());
      ghost var t1 := T();
      ok := AddRange(TOP - 1, root, i, paddr, v, vend, op, {root});
      SproutedThen(t0.tag, t1.tag, tag, op.vaddr, vend);
      if ok {
        SameThenChanged(t0, t1, T(), op, op.vaddr, vend, w, w + Span(TOP));
        LargestSame(t0, t1, T(), op, vend, w, w + Span(TOP), TOP - 1);
      }
    }

    /** Every retired page is the one its bit names. */
    ghost predicate OneWordBatch()
      reads this
    {
      OneWord(slot)
    }

    /** In a pool of one word every batch is of that kind. */
    lemma OneWordPool()
      requires Valid() && words == 1
      ensures OneWordBatch()
    {
    }

    /** `pgtable_free_retired_pages`.  The bit of page `p` is bit `p % 64` of the first word, so
        what is freed for a bit is the lowest page with that bit: the batch is freed exactly
        when no page beyond the first word was retired.  Freeing a free page panics. */
    method FreeRetired() returns (ok: bool)
      requires Valid()
      modifies this`slot, this`retiredPages, used, retiredBits
      ensures ok <==> forall b :: b in old(slot) ==> old(used[..])[b]
      ensures ok ==> slot == map[] && retiredPages == 0
      ensures ok ==> forall p: nat :: p < used.Length ==> (used[p] <==> old(used[p]) && p !in old(slot))
      ensures old(OneWordBatch()) ==> ok && Valid()
      ensures ok && MarksExactly(used[..], tag) <==> old(OneWordBatch())
    {
      hide IndexAt, Offset, Cells, Span, WalkFrom, LeafAt, Inv, TagOk, EntryOk, ParentOk;
      ghost var slot0, used0 := slot, used[..];
      var freed;
      ok, freed := SweepBatch(used, retiredBits, slot.Keys);
      if ok {
        BatchFreed(used0, used[..], tag, slot0);
      }
      if !ok || freed != retiredPages {
        return false;
      }
      retiredPages := 0;
      slot := map[];
    }

    /** `pgtable_lookup_entry`: the leaf that translates `v`, with its level, or nothing. */
    method Lookup(v: nat) returns (r: Option<(Desc, nat)>)
      requires Valid() && v < PAGES
      ensures r.None? <==> LeafAt(T(), v).None?
      ensures r.Some? ==> r.value.1 < TOP && LeafOk(r.value.1, r.value.0)
      ensures r.Some? ==>
                LeafAt(T(), v) == Some(Leaf(Mapping(r.value.0.frame + Offset(r.value.1, v), r.value.0.attr), r.value.1))
    {
      hide IndexAt, Offset, Cells, Span, WalkFrom, LeafAt, Inv, TagOk, EntryOk, ParentOk;
      ghost var t := T();
      RootCovers(t, v);
      RootCell(t, v);
      WalkStep(t, root, v);
      var d3 := mem[root * ENTRIES + IndexAt(3, v)];
      if !Present(d3) {
        return None;
      }
      var p2 := d3.frame - start;
      WalkStep(t, p2, v);
      var d2 := mem[p2 * ENTRIES + IndexAt(2, v)];
      if !Present(d2) {
        return None;
      }
      if Large(d2) {
        return Some((d2, 2));
      }
      var p1 := d2.frame - start;
      WalkStep(t, p1, v);
      var d1 := mem[p1 * ENTRIES + IndexAt(1, v)];
      if !Present(d1) {
        return None;
      }
      if Large(d1) {
        return Some((d1, 1));
      }
      var p0 := d1.frame - start;
      var d0 := mem[p0 * ENTRIES + IndexAt(0, v)];
      WalkStep(t, p0, v);
      return if Present(d0) then Some((d0, 0)) else None;
    }

    /** Used pages are the reachable tables and the retired pages, which are not reachable. */
    lemma UsedPages()
      requires Valid()
      ensures forall p: nat {:trigger used[p]} :: p < used.Length ==>
                (used[p] <==> p in Reachable(T()) || Retired(p))
      ensures forall p: nat :: p in Reachable(T()) ==> p < used.Length && !Retired(p)
    {
      TablesAreReachable(T());
    }

    /** The pool's accounts: tables in the tree, pages marked used, pages retired. */
    ghost function Books(): Pool
      reads this, used
    {
      Pool(tag.Keys, (set p: nat | p < used.Length && used[p]), slot.Values)
    }

    /** Used pages are the tables and the retired pages, and no page is both. */
    lemma BooksBalance()
      requires Valid()
      ensures Books().Balanced()
    {
      hide Inv, EntryOk, ParentOk, TagOk;
      forall p: nat | p < used.Length && used[p]
        ensures p in tag.Keys + slot.Values
      {
        if p !in tag {
          assert Retired(p) && p % WORD in slot;
        }
      }
      forall p | p in slot.Values
        ensures p < used.Length && used[p] && p !in tag.Keys
      {
        var b :| b in slot && slot[b] == p;
        assert Retired(p);
      }
      TablesInPool(T());
      assert forall p: nat :: p in tag.Keys ==> p < used.Length && used[p];
    }

    /** One request. */
    method Serve(req: Request) returns (ok: bool)
      requires Valid() && Settled(T()) && req.Fits() && (words == 1 || (!req.Defers() && slot == map[]))
      modifies this, mem, used, retiredBits
      ensures ok ==> Valid() && Settled(T()) && Served(req, old(T()), T()) && PoolStep(req, old(Books()), Books())
      ensures ok && words != 1 ==> slot == map[]
      ensures !ok ==> Exhausted()
    {
      hide Valid, ValidWith, Inv, Trimmed, WalkFrom, LeafAt, Exhausted, Rejected, Changed, Largest, Settled, Exactly,
        FlagAtCut;
      ghost var t0, slot0, b0 := T(), slot, Books();
      BooksBalance();
      match req {
        case Change(base, size, op, deferred) =>
          ok := ModifyOrDeleteMap(base, size, op, deferred);
          if ok {
            BooksBalance();
            RetiredBooks(t0.tag, slot0, tag, slot, deferred);
          }
        case Add(r) =>
          var s := AddMap(r);
          ok := s != Panic;
          EmptyRange(t0, r.Op(), 0, 0, PAGES);
          if ok {
            BooksBalance();
          }
        case FreeBatch =>
          OneWordAlways();
          ok := FreeRetired();
          assert T() == t0;
          EmptyRange(t0, Delete, 0, 0, PAGES);
          BooksBalance();
      }
    }

    lemma OneWordAlways()
      requires Valid() && (words == 1 || slot == map[])
      ensures OneWordBatch()
    {
    }

    /** Any sequence of requests from an empty map.  The tree stays settled.  The flat map is what
        the requests, one after another, make of each page, up to access flags, and exactly that
        if no modify clears the flag.  The pool's accounts follow `PoolStep`. */
    method RunAll(reqs: seq<Request>) returns (ok: bool, ghost hist: seq<Pool>)
      requires Valid() && Settled(T()) && slot == map[] && forall v: nat :: v < PAGES ==> LeafAt(T(), v) == None
      requires forall k :: 0 <= k < |reqs| ==> reqs[k].Fits() && (words == 1 || !reqs[k].Defers())
      modifies this, mem, used, retiredBits
      ensures ok ==> Valid() && Settled(T())
      ensures ok ==> forall v: nat :: v < PAGES ==> UpToFlag(Flat(T(), v), Expected(reqs, v))
      ensures ok && (forall k :: 0 <= k < |reqs| ==> reqs[k].KeepsFlag()) ==>
                forall v: nat :: v < PAGES ==> Flat(T(), v) == Expected(reqs, v)
      ensures ok ==> PoolRun(reqs, hist) && hist[0] == old(Books()) && hist[|reqs|] == Books()
      ensures !ok ==> Exhausted()
    {
      hide Valid, ValidWith, Inv, Trimmed, WalkFrom, LeafAt, Exhausted, Settled, Books, Flat, Expected, Served,
        PoolStep;
      hist := [Books()];
      EmptyExpected(reqs, T());
      for k := 0 to |reqs|
        invariant Valid() && Settled(T()) && (words == 1 || slot == map[])
        invariant AsExpected(T(), reqs[..k])
        invariant |hist| == k + 1 && hist[0] == old(Books()) && hist[k] == Books()
        invariant forall j :: 0 <= j < k ==> PoolStep(reqs[j], hist[j], hist[j + 1])
      {
        ghost var t0 := T();
        ok := Serve(reqs[k]);
        if !ok {
          return;
        }
        SettledInv(t0);
        ExpectedStep(reqs, k, t0, T());
        hist := hist + [Books()];
      }
      assert reqs[..|reqs|] == reqs;
      return true, hist;
    }
  }

  lemma SettledInv(t: Tree)
    requires Settled(t)
    ensures Inv(t)
  {
  }

  lemma TablesInPool(t: Tree)
    requires Inv(t)
    ensures forall p: nat :: p in t.tag.Keys ==> InPool(t.mem, p)
  {
  }

  lemma RetiredBooks(tag0: map<nat, Tag>, slot0: map<nat, nat>, tag1: map<nat, Tag>, slot1: map<nat, nat>,
                     deferred: bool)
    requires RetiredSince(tag0, slot0, tag1, slot1, deferred)
    ensures slot0.Values <= slot1.Values && (!deferred ==> slot1.Values == slot0.Values)
    ensures deferred ==> tag0.Keys - tag1.Keys <= slot1.Values
  {
    if deferred {
      forall p | p in slot0.Values
        ensures p in slot1.Values
      {
        var b :| b in slot0 && slot0[b] == p;
        assert b in slot1 && slot1[b] == p;
      }
      forall p | p in tag0.Keys - tag1.Keys
        ensures p in slot1.Values
      {
        assert p in tag0 && p !in tag1 && p % WORD in slot1;
      }
    }
  }

  // ------------------------------------------------------------------- runs

  datatype Request = Change(vaddr: nat, size: nat, op: Op, deferred: bool) | Add(r: MapRequest) | FreeBatch
  {
    /** What the caller must respect: 48-bit addresses, and bits that stay out of the frame field. */
    predicate Fits() {
      match this
      case Change(vaddr, size, op, _) => op.Ok() && !op.Map? && PageUp(vaddr) + PageDown(size) <= PAGES
      case Add(r) => r.prot & PFN_MASK == 0 && (!Rejected(r) ==> PageUp(r.vaddr) + PageDown(r.size) <= PAGES)
      case FreeBatch => true
    }

    predicate Defers() { Change? && deferred }

    /** A modify whose masks leave the access flag set. */
    predicate KeepsFlag() { Change? && op.Modify? ==> HasFlag(op.raise) || !HasFlag(op.clear) }

    /** The pages asked for. */
    function Range(): (nat, nat) {
      match this
      case Change(vaddr, size, _, _) => (PageUp(vaddr), PageUp(vaddr) + PageDown(size))
      case Add(r) => if Rejected(r) then (0, 0) else (PageUp(r.vaddr), PageUp(r.vaddr) + PageDown(r.size))
      case FreeBatch => (0, 0)
    }

    function Effect(): Op {
      match this
      case Change(_, _, op, _) => op
      case Add(r) => r.Op()
      case FreeBatch => Delete
    }

    function On(v: nat, m: Option<Mapping>): Option<Mapping> {
      if Range().0 <= v < Range().1 then Apply(Effect(), v, m) else m
    }
  }

  /** The request has had its effect on every page. */
  ghost predicate Served(req: Request, t0: Tree, t1: Tree) {
    Changed(t0, t1, req.Effect(), req.Range().0, req.Range().1, 0, PAGES)
  }

  /** The flat map after `reqs`, page by page. */
  function Expected(reqs: seq<Request>, v: nat): Option<Mapping> {
    if reqs == [] then None
    else reqs[|reqs| - 1].On(v, Expected(reqs[..|reqs| - 1], v))
  }

  /** Equal but for the access flag. */
  predicate UpToFlag(m0: Option<Mapping>, m1: Option<Mapping>) {
    if m0.None? then m1.None?
    else m1.Some? && m0.value.frame == m1.value.frame && SameButFlag(m0.value.attr, m1.value.attr)
  }

  /** Up to flags, and exactly, with every flag set, if every request keeps flags. */
  ghost predicate AsExpected(t: Tree, reqs: seq<Request>) {
    && (forall v: nat {:trigger Flat(t, v)} :: v < PAGES ==> UpToFlag(Flat(t, v), Expected(reqs, v)))
    && ((forall k :: 0 <= k < |reqs| ==> reqs[k].KeepsFlag()) ==>
          forall v: nat {:trigger Flat(t, v)} :: v < PAGES ==>
            Flat(t, v) == Expected(reqs, v) && (Flat(t, v).Some? ==> HasFlag(Flat(t, v).value.attr)))
  }

  lemma EmptyExpected(reqs: seq<Request>, t: Tree)
    requires forall v: nat :: v < PAGES ==> LeafAt(t, v) == None
    ensures AsExpected(t, reqs[..0])
  {
  }

  /** One page through one request, up to flags. */
  lemma PageStep(req: Request, v: nat, m0: Option<Leaf>, m1: Option<Leaf>, x: Option<Mapping>)
    requires After(req.Effect(), v, req.Range().0, req.Range().1, m0, m1)
    requires m0.Some? ==> AttrOk(m0.value.at.attr)
    requires UpToFlag(Plain(m0), x)
    ensures UpToFlag(Plain(m1), req.On(v, x))
    ensures req.KeepsFlag() && Plain(m0) == x && (m0.Some? ==> HasFlag(m0.value.at.attr)) ==>
              Plain(m1) == req.On(v, x) && (m1.Some? ==> HasFlag(m1.value.at.attr))
  {
    hide AttrOk, HasFlag, WithFlag, Masked, Cut, Pieces, LeafAttr, Rejected, SameButFlag;
    var op, lo, hi := req.Effect(), req.Range().0, req.Range().1;
    if op.Map? {
      LeafAttrOnlyAddsAccessFlag(op.prot);
      SameAsItself(LeafAttr(op.prot));
    } else if m0.Some? && !(op.Delete? && lo <= v < hi) {
      LeafStep(op, v, lo, hi, m0.value, x.value.attr);
    }
  }

  lemma LeafStep(op: Op, v: nat, lo: nat, hi: nat, m: Leaf, a: Attr)
    requires !op.Map? && AttrOk(m.at.attr) && SameButFlag(m.at.attr, a)
    ensures var c := Pieces(m, v, lo, hi).at;
            && c.frame == m.at.frame && SameButFlag(c.attr, a)
            && (HasFlag(m.at.attr) ==> c.attr == m.at.attr)
            && (op.Modify? ==> SameButFlag(Masked(c.attr, op.raise, op.clear), Masked(a, op.raise, op.clear)))
            && (op.Modify? && HasFlag(m.at.attr) && (HasFlag(op.raise) || !HasFlag(op.clear)) ==>
                  HasFlag(Masked(c.attr, op.raise, op.clear)))
  {
    hide AttrOk, HasFlag, WithFlag, Masked, Cut, Pieces, LeafAttr, SameButFlag;
    var c := Pieces(m, v, lo, hi).at;
    PiecesAddFlag(m, v, lo, hi);
    FlagTwice(m.at.attr);
    SameFlagless(m.at.attr, a);
    if op.Modify? {
      MaskedSameButFlag(c.attr, a, op.raise, op.clear);
      if HasFlag(m.at.attr) && (HasFlag(op.raise) || !HasFlag(op.clear)) {
        MaskedHasFlag(c.attr, op.raise, op.clear);
      }
    }
  }

  function Plain(m: Option<Leaf>): Option<Mapping> { if m.None? then None else Some(m.value.at) }

  lemma ExpectedStep(reqs: seq<Request>, k: nat, t0: Tree, t1: Tree)
    requires k < |reqs| && Inv(t0) && AsExpected(t0, reqs[..k]) && Served(reqs[k], t0, t1)
    ensures AsExpected(t1, reqs[..k + 1])
  {
    hide LeafAt, After, HasFlag, WithFlag, AttrOk, Inv;
    assert reqs[..k + 1][..k] == reqs[..k];
    var next := reqs[..k + 1];
    var keep := forall j :: 0 <= j < |next| ==> next[j].KeepsFlag();
    if keep {
      assert forall j :: 0 <= j < k ==> reqs[..k][j] == next[j];
      assert next[k].KeepsFlag();
    }
    forall v: nat | v < PAGES
      ensures UpToFlag(Flat(t1, v), Expected(reqs[..k + 1], v))
      ensures keep ==>
                Flat(t1, v) == Expected(reqs[..k + 1], v) && (Flat(t1, v).Some? ==> HasFlag(Flat(t1, v).value.attr))
    {
      assert UpToFlag(Flat(t0, v), Expected(reqs[..k], v));
      assert LeafAt(t1, v) == LeafAt(t1, v);
      if LeafAt(t0, v).Some? {
        LeafGood(t0, v);
      }
      PageStep(reqs[k], v, LeafAt(t0, v), LeafAt(t1, v), Expected(reqs[..k], v));
    }
  }

  /** The pool at one moment. */
  datatype Pool = Pool(tables: set<nat>, used: set<nat>, retired: set<nat>)
  {
    ghost predicate Balanced() { used == tables + retired && tables !! retired }
  }

  /** What a request may do to the pool's accounts. */
  ghost predicate PoolStep(req: Request, s0: Pool, s1: Pool) {
    && s0.Balanced() && s1.Balanced()
    && match req {
         case Change(_, _, _, deferred) =>
           && s0.retired <= s1.retired
           && (if deferred then s0.tables - s1.tables <= s1.retired else s1.retired == s0.retired)
         case Add(_) => s1.retired == s0.retired
         case FreeBatch => s1.tables == s0.tables && s1.retired == {}
       }
  }

  ghost predicate PoolRun(reqs: seq<Request>, hist: seq<Pool>) {
    |hist| == |reqs| + 1 && forall j :: 0 <= j < |reqs| ==> PoolStep(reqs[j], hist[j], hist[j + 1])
  }

  /** A table detached by a deferred request stays marked used, and out of the tree, in every
      later state until a batch free; that frees it, and frees only retired pages. */
  lemma {:induction false} HeldUntilFreed(reqs: seq<Request>, hist: seq<Pool>, i: nat, j: nat, p: nat)
    requires PoolRun(reqs, hist) && i < j <= |reqs| && reqs[i].Defers()
    requires p in hist[i].tables && p !in hist[i + 1].tables
    requires forall k :: i < k < j ==> !reqs[k].FreeBatch?
    ensures p in hist[j].retired && p in hist[j].used && p !in hist[j].tables
    ensures j < |reqs| && reqs[j].FreeBatch? ==>
              p !in hist[j + 1].used && hist[j + 1].used == hist[j].used - hist[j].retired == hist[j].tables
  {
    assert PoolStep(reqs[i], hist[i], hist[i + 1]);
    if j > i + 1 {
      HeldUntilFreed(reqs, hist, i, j - 1, p);
    }
    assert PoolStep(reqs[j - 1], hist[j - 1], hist[j]);
    if j < |reqs| {
      assert PoolStep(reqs[j], hist[j], hist[j + 1]);
    }
  }

  // ------------------------------------------------- limits of the two promises

  const BLOCK_SIZE: nat := ENTRIES * PAGE_SIZE
  const READ_ONLY: Attr := 0x80

  /** A block is mapped, its access flag is cleared, and its first page is made read-only. */
  function FlagRequests(): seq<Request> {
    [Add(MapRequest(0, 0, BLOCK_SIZE, ATTR_NORMAL, {0, 1})),
     Change(0, BLOCK_SIZE, Modify(0, PAGE_AF), false),
     Change(0, PAGE_SIZE, Modify(READ_ONLY, 0), false)]
  }

  lemma FirstBlock()
    ensures Span(1) == ENTRIES <= PAGES && Offset(1, 0) == 0 && Offset(1, 1) == 1
    ensures NextCell(1, 0) == ENTRIES && NextCell(1, 1) == ENTRIES
  {
    assert Offset(0, 0) == 0 && Span(0) == 1;
  }

  lemma FlagBits()
    ensures AttrOk(0) && AttrOk(PAGE_AF) && AttrOk(READ_ONLY) && ATTR_NORMAL & PFN_MASK == 0
    ensures LeafAttr(ATTR_NORMAL) == ATTR_NORMAL && Masked(ATTR_NORMAL, 0, PAGE_AF) == 0x300
    ensures !HasFlag(0x300) && !HasFlag(Masked(0x300, 0, 0))
  {
  }

  /** An eligible block of an empty map becomes one leaf. */
  lemma BlockMapped(t0: Tree, t1: Tree, v: nat)
    requires forall u: nat :: u < PAGES ==> LeafAt(t0, u) == None
    requires v < 2
    requires Changed(t0, t1, Map(0, 0, ATTR_NORMAL, {0, 1}), 0, ENTRIES, 0, PAGES)
    requires Largest(t0, t1, Map(0, 0, ATTR_NORMAL, {0, 1}), ENTRIES, 0, PAGES, TOP - 1)
    ensures LeafAt(t1, v) == Some(Leaf(Mapping(v, ATTR_NORMAL), 1))
  {
    hide LeafAt, LeafAttr, Eligible, Vacant, AttrOk, Masked, HasFlag, Offset, Span;
    FlagBits();
    var op := Map(0, 0, ATTR_NORMAL, {0, 1});
    FirstEligible(v);
    assert After(op, v, 0, ENTRIES, LeafAt(t0, v), LeafAt(t1, v));
    NothingMapped(t0, 1, v);
  }

  lemma FirstEligible(v: nat)
    requires v < 2
    ensures Eligible(Map(0, 0, ATTR_NORMAL, {0, 1}), 1, v, ENTRIES) && ENTRIES <= PAGES
  {
    hide Offset, Span;
    FirstBlock();
    OffsetZero(1);
  }

  lemma NothingMapped(t: Tree, l: nat, v: nat)
    requires forall u: nat :: u < PAGES ==> LeafAt(t, u) == None
    ensures Vacant(t, l, v)
  {
    hide LeafAt;
  }

  lemma FlagCleared(t1: Tree, t2: Tree)
    requires LeafAt(t1, 1) == Some(Leaf(Mapping(1, ATTR_NORMAL), 1))
    requires Changed(t1, t2, Modify(0, PAGE_AF), 0, ENTRIES, 0, PAGES)
    ensures LeafAt(t2, 1) == Some(Leaf(Mapping(1, 0x300), 1)) && !FlagAtCut(t2, 1)
  {
    hide LeafAt, Offset, Span, Masked, HasFlag;
    FirstBlock();
    FlagBits();
    assert After(Modify(0, PAGE_AF), 1, 0, ENTRIES, LeafAt(t1, 1), LeafAt(t2, 1));
    assert !Cut(1, 1, 0, ENTRIES);
  }

  /** All tables cover a page of the first block. */
  ghost predicate Low(tag: map<nat, Tag>) { forall p {:trigger p in tag} :: p in tag ==> Meets(tag[p], 0, ENTRIES) }

  lemma StillLow(tag0: map<nat, Tag>, tag1: map<nat, Tag>, hi: nat)
    requires Low(tag0) && Sprouted(tag0, tag1, 0, hi) && hi <= ENTRIES
    ensures Low(tag1)
  {
    hide Span;
  }

  /** Such tables all cover page 0, so there are no more of them than levels. */
  lemma LowLeavesRoom(t: Tree)
    requires Inv(t) && Low(t.tag)
    ensures exists p :: 0 <= p < 5 && p !in t.tag
  {
    hide Inv, Low;
    if forall p :: 0 <= p < 5 ==> p in t.tag {
      forall p, q | 0 <= p < q < 5
        ensures t.tag[p].lvl <= TOP && t.tag[q].lvl <= TOP && t.tag[p].lvl != t.tag[q].lvl
      {
        LevelsDiffer(t, p, q);
      }
      FiveLevels(t.tag[0].lvl, t.tag[1].lvl, t.tag[2].lvl, t.tag[3].lvl, t.tag[4].lvl);
    }
  }

  lemma LevelsDiffer(t: Tree, p: nat, q: nat)
    requires Inv(t) && Low(t.tag) && p in t.tag && q in t.tag && p != q
    ensures t.tag[p].lvl <= TOP && t.tag[q].lvl <= TOP && t.tag[p].lvl != t.tag[q].lvl
  {
    hide Inv, Span, Offset;
    CoversFirst(t, p);
    CoversFirst(t, q);
    if t.tag[p].lvl == t.tag[q].lvl {
      OneTablePerLevel(t, p, q, 0);
    }
  }

  lemma FiveLevels(a: nat, b: nat, c: nat, d: nat, e: nat)
    requires a <= TOP && b <= TOP && c <= TOP && d <= TOP && e <= TOP
    ensures a == b || a == c || a == d || a == e || b == c || b == d || b == e || c == d || c == e || d == e
  {
  }

  lemma CoversFirst(t: Tree, p: nat)
    requires Inv(t) && p in t.tag && Meets(t.tag[p], 0, ENTRIES)
    ensures Covers(t.tag[p], 0) && t.tag[p].lvl <= TOP
  {
    var g := t.tag[p];
    FirstBlock();
    OffsetZero(g.lvl + 1);
    SpanGrows(g.lvl);
    OffsetInBlock(g.lvl + 1, 0, g.base);
  }

  lemma {:induction false} SpanGrows(l: nat)
    ensures Span(l + 1) >= ENTRIES
  {
    if l > 0 {
      SpanGrows(l - 1);
    } else {
      FirstBlock();
    }
  }

  /** Clearing the access flag of a block and then modifying one page of it: the second call
      puts the flag back on the other pages, which it was not asked to change. */
  method ClearedFlagComesBack() returns (pt: PageTable)
    ensures fresh(pt) && pt.Valid() && Flat(pt.T(), 1).Some? && HasFlag(Flat(pt.T(), 1).value.attr)
    ensures Expected(FlagRequests(), 1).Some? && !HasFlag(Expected(FlagRequests(), 1).value.attr)
  {
    hide LeafAt, Changed, Largest, FlagAtCut, Settled, Exactly, HasFlag, Masked, LeafAttr, AttrOk, Inv, Trimmed,
      Offset, Span, Expected, RetiredSince, Rejected, PageTable.Valid, PageTable.ValidWith, PageTable.Exhausted, Low,
      Sprouted;
    FirstBlock();
    FlagBits();
    FlagExpected();
    FlagRequestsFit();
    pt := new PageTable(0, 1);
    ghost var t0 := pt.T();
    pt.OnlyRootIsLow();
    var s := pt.AddMap(MapRequest(0, 0, BLOCK_SIZE, ATTR_NORMAL, {0, 1}));
    StillLow(t0.tag, pt.tag, ENTRIES);
    pt.RoomLeft();
    ghost var t1 := pt.T();
    BlockMapped(t0, t1, 1);
    var ok := pt.ModifyOrDeleteMap(0, BLOCK_SIZE, Modify(0, PAGE_AF), false);
    StillLow(t1.tag, pt.tag, ENTRIES);
    pt.RoomLeft();
    ghost var t2 := pt.T();
    FlagCleared(t1, t2);
    ok := pt.ModifyOrDeleteMap(0, PAGE_SIZE, Modify(READ_ONLY, 0), false);
    StillLow(t2.tag, pt.tag, 1);
    pt.RoomLeft();
    SettledInv(t2);
    FlagGained(t2, pt.T(), Modify(READ_ONLY, 0), 0, 1, 1, 1);
  }

  lemma FlagRequestsFit()
    ensures !Rejected(MapRequest(0, 0, BLOCK_SIZE, ATTR_NORMAL, {0, 1}))
    ensures PageUp(0) == 0 && PageDown(BLOCK_SIZE) == ENTRIES && PageDown(PAGE_SIZE) == 1
  {
  }

  lemma FlagExpected()
    ensures Expected(FlagRequests(), 1).Some? && !HasFlag(Expected(FlagRequests(), 1).value.attr)
  {
    hide HasFlag, Masked, LeafAttr;
    FlagBits();
    var reqs := FlagRequests();
    assert reqs[..2][..1][..0] == [] && reqs[..2][1] == reqs[1] && reqs[..2][..1][0] == reqs[0];
    assert !Rejected(reqs[0].r);
    assert Expected(reqs[..2][..1], 1) == Some(Mapping(1, ATTR_NORMAL));
    assert Expected(reqs[..2], 1) == Some(Mapping(1, 0x300));
  }

  method SecondWordRetired() returns (pt: PageTable)
    ensures fresh(pt) && fresh(pt.used) && fresh(pt.retiredBits) && pt.Valid()
    ensures pt.words == 2 && pt.used.Length == 2 * WORD
    ensures pt.tag.Keys == {pt.root} && pt.root == 0 && pt.slot == map[0 := WORD]
  {
    hide Inv, Settled, LeafAt, EmptyTable, PageTable.Valid, PageTable.ValidWith;
    pt := new PageTable(0, 2);
    pt.SizeOf();
    pt.Marked();
    pt.TakeFirstWord();
    pt.RetireLast();
  }

  /** A pool of two words, the root in page 0.  Page 64, handed out after the first word and retired
      in a batch, shares bit 0 of the batch word with the root: the sweep takes the mark from the live
      root table and leaves it on the retired page. */
  method SecondWordPageIsNotFreed() returns (pt: PageTable, ok: bool)
    ensures ok && pt.words == 2 && pt.tag.Keys == {pt.root} && pt.root == 0 && pt.slot == map[] && pt.used.Length == 128
    ensures !pt.used[0] && pt.used[64] && !pt.Valid()
  {
    hide Inv, PageTable.Valid, PageTable.ValidWith, PageTable.OneWordBatch, MarksExactly;
    pt := SecondWordRetired();
    pt.Marked();
    ok := pt.FreeRetired();
    if pt.Valid() {
      pt.Marked();
    }
  }
}
