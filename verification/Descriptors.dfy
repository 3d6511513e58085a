/** Translation-table descriptors and the geometry of the four-level walk.

    A 64-bit descriptor is kept as its three disjoint fields: the type field
    (bits 1:0), the output frame (bits 47:12) and everything else.  `ModifiedWord`
    and `LeafWord` are the two operations on the packed word; `ModifyStaysInField`
    and `LeafWordFields` show what they do to the three fields.  Addresses are
    counted in 4 KiB pages; level 0 is the finest level. */
module Descriptors {
  import opened Common

  type Attr = bv64

  datatype Desc = Desc(ty: nat, frame: nat, attr: Attr)

  /** What one page translates to. */
  datatype Mapping = Mapping(frame: nat, attr: Attr)

  /** ... and the level of the entry that says so. */
  datatype Leaf = Leaf(at: Mapping, lvl: nat)

  const TABLE_DESC: nat := 3
  const BLOCK_DESC: nat := 1
  const PAGE_DESC: nat := 3
  const TYPE_MASK: bv64 := 0x3
  const PFN_MASK: bv64 := 0x0000_ffff_ffff_f000
  const PAGE_AF: Attr := 0x400
  const ATTR_IDX_DEVICE: Attr := 0x4
  const ATTR_NORMAL: Attr := 0x700

  const ENTRIES: nat := 512
  const TOP: nat := 3
  /** Number of pages below 2^48. */
  const PAGES: nat := Span(TOP + 1)

  /** The sanitized descriptor. */
  const ABSENT: Desc := Desc(0, 0, 0)

  predicate Present(d: Desc) { d.ty % 2 == 1 }

  predicate Large(d: Desc) { d.ty == BLOCK_DESC }

  /** Pages covered by one entry at level `l`. */
  function Span(l: nat): (s: nat)
    ensures s > 0
  {
    if l == 0 then 1 else ENTRIES * Span(l - 1)
  }

  /** `i` times `Span(l)`: the distance of cell `i` from the start of its table. */
  function Cells(l: nat, i: nat): nat {
    if l == 0 then i else ENTRIES * Cells(l - 1, i)
  }

  /** The index field of level `l` in a page number. */
  function IndexAt(l: nat, v: nat): (i: nat)
    ensures i < ENTRIES
  {
    if l == 0 then v % ENTRIES else IndexAt(l - 1, v / ENTRIES)
  }

  /** The page number modulo `Span(l)`: its distance into a level-`l` block. */
  function Offset(l: nat, v: nat): nat {
    if l == 0 then 0 else Offset(l - 1, v / ENTRIES) * ENTRIES + v % ENTRIES
  }

  /** Attribute bits lie outside the type and frame fields. */
  predicate AttrOk(a: Attr) { a & (PFN_MASK | TYPE_MASK) == 0 }

  predicate HasFlag(a: Attr) { a & PAGE_AF != 0 }

  function WithFlag(a: Attr): Attr { a | PAGE_AF }

  predicate SameButFlag(a: Attr, b: Attr) { a | PAGE_AF == b | PAGE_AF }

  lemma FlagTwice(a: Attr)
    ensures WithFlag(WithFlag(a)) == WithFlag(a) && HasFlag(WithFlag(a))
    ensures WithFlag(a) == a <==> HasFlag(a)
  {
  }

  function Masked(a: Attr, raise: Attr, clear: Attr): Attr { (a & !clear) | raise }

  /** The attribute bits the stage-1 hook stores in a leaf. */
  function LeafAttr(prot: Attr): Attr {
    var p := (prot & !TYPE_MASK) | PAGE_AF;
    if p & (ATTR_IDX_DEVICE | ATTR_NORMAL) == 0 then p | ATTR_NORMAL else p
  }

  function LeafDesc(l: nat, frame: nat, prot: Attr): Desc {
    Desc(if l == 0 then PAGE_DESC else BLOCK_DESC, frame, LeafAttr(prot))
  }

  function TableDesc(frame: nat): Desc { Desc(TABLE_DESC, frame, 0) }

  /** The hook's "missing memory type defaults to normal" branch is never taken: the access
      flag it has just set is one of the bits it then tests for.  So it drops the type bits,
      adds the flag and does nothing else. */
  lemma LeafAttrOnlyAddsAccessFlag(prot: Attr)
    ensures LeafAttr(prot) == WithFlag(prot & !TYPE_MASK) && HasFlag(LeafAttr(prot))
    ensures prot & PFN_MASK == 0 ==> AttrOk(LeafAttr(prot))
    ensures LeafAttr(prot) == prot <==> HasFlag(prot) && prot & TYPE_MASK == 0
  {
    FlagIsTested(prot);
    FlagThere(prot);
  }

  lemma FlagIsTested(prot: Attr)
    ensures ((prot & !TYPE_MASK) | PAGE_AF) & (ATTR_IDX_DEVICE | ATTR_NORMAL) != 0
    ensures ((prot & !TYPE_MASK) | PAGE_AF) & PAGE_AF != 0
    ensures prot & PFN_MASK == 0 ==> AttrOk((prot & !TYPE_MASK) | PAGE_AF)
  {
  }

  lemma FlagThere(prot: Attr)
    ensures (prot & !TYPE_MASK) | PAGE_AF == prot <==> prot & PAGE_AF != 0 && prot & TYPE_MASK == 0
  {
  }

  // ------------------------------------------------------- the packed word

  function TypeOf(w: bv64): bv64 { w & TYPE_MASK }

  function PfnOf(w: bv64): bv64 { w & PFN_MASK }

  function AttrOf(w: bv64): Attr { w & !(PFN_MASK | TYPE_MASK) }

  /** `local_modify_or_del_pte` on the word. */
  function ModifiedWord(w: bv64, raise: Attr, clear: Attr): bv64 { (w & !clear) | raise }

  /** `ppt_set_pgentry` and `make_pgentry` on the word of a leaf. */
  function LeafWord(page: bv64, prot: Attr, ty: bv64): bv64 {
    var p := (prot & !TYPE_MASK) | ty | PAGE_AF;
    (if p & (ATTR_IDX_DEVICE | ATTR_NORMAL) == 0 then p | ATTR_NORMAL else p) | page
  }

  /** A modify leaves the type and the frame of every descriptor alone exactly when both of
      its masks do; then it masks the attribute field and nothing else. */
  lemma ModifyStaysInField(raise: Attr, clear: Attr)
    ensures AttrOk(raise) && AttrOk(clear) <==>
            forall w: bv64 :: TypeOf(ModifiedWord(w, raise, clear)) == TypeOf(w)
                              && PfnOf(ModifiedWord(w, raise, clear)) == PfnOf(w)
    ensures AttrOk(raise) && AttrOk(clear) ==>
              forall w: bv64 :: AttrOf(ModifiedWord(w, raise, clear)) == Masked(AttrOf(w), raise, clear)
  {
    forall w: bv64 | AttrOk(raise) && AttrOk(clear)
      ensures TypeOf(ModifiedWord(w, raise, clear)) == TypeOf(w)
      ensures PfnOf(ModifiedWord(w, raise, clear)) == PfnOf(w)
      ensures AttrOf(ModifiedWord(w, raise, clear)) == Masked(AttrOf(w), raise, clear)
    {
      ModifyFields(w, raise, clear);
    }
    OnlyMasksInField(raise, clear, ModifiedWord(0, raise, clear), ModifiedWord(PFN_MASK | TYPE_MASK, raise, clear));
  }

  lemma ModifyFields(w: bv64, raise: Attr, clear: Attr)
    requires AttrOk(raise) && AttrOk(clear)
    ensures TypeOf(ModifiedWord(w, raise, clear)) == TypeOf(w)
    ensures PfnOf(ModifiedWord(w, raise, clear)) == PfnOf(w)
    ensures AttrOf(ModifiedWord(w, raise, clear)) == Masked(AttrOf(w), raise, clear)
  {
    hide AttrOk, TypeOf, PfnOf, AttrOf, ModifiedWord, Masked;
    TypeKept(w, raise, clear);
    PfnKept(w, raise, clear);
    AttrMasked(w, raise, clear);
  }

  lemma TypeKept(w: bv64, raise: Attr, clear: Attr)
    requires AttrOk(raise) && AttrOk(clear)
    ensures TypeOf(ModifiedWord(w, raise, clear)) == TypeOf(w)
  {
  }

  lemma PfnKept(w: bv64, raise: Attr, clear: Attr)
    requires AttrOk(raise) && AttrOk(clear)
    ensures PfnOf(ModifiedWord(w, raise, clear)) == PfnOf(w)
  {
  }

  lemma AttrMasked(w: bv64, raise: Attr, clear: Attr)
    requires AttrOk(raise)
    ensures AttrOf(ModifiedWord(w, raise, clear)) == Masked(AttrOf(w), raise, clear)
  {
    FieldMasked(w, raise, clear, PFN_MASK | TYPE_MASK);
  }

  lemma FieldMasked(w: bv64, raise: Attr, clear: Attr, f: bv64)
    requires raise & f == 0
    ensures ((w & !clear) | raise) & !f == ((w & !f) & !clear) | raise
  {
  }

  lemma OnlyMasksInField(raise: Attr, clear: Attr, none: bv64, full: bv64)
    requires none == ModifiedWord(0, raise, clear) && full == ModifiedWord(PFN_MASK | TYPE_MASK, raise, clear)
    ensures TypeOf(none) == TypeOf(0) && PfnOf(none) == PfnOf(0)
            && TypeOf(full) == TypeOf(PFN_MASK | TYPE_MASK) && PfnOf(full) == PfnOf(PFN_MASK | TYPE_MASK)
            ==> AttrOk(raise) && AttrOk(clear)
  {
  }

  /** A leaf built from a page address, attribute bits and a type has those three fields,
      the attributes as `LeafAttr` gives them. */
  lemma LeafWordFields(page: bv64, prot: Attr, ty: bv64)
    requires PfnOf(page) == page && TypeOf(ty) == ty && PfnOf(prot) == 0
    ensures TypeOf(LeafWord(page, prot, ty)) == ty
    ensures PfnOf(LeafWord(page, prot, ty)) == page
    ensures AttrOf(LeafWord(page, prot, ty)) == LeafAttr(prot)
  {
  }

  lemma LeafAttrOk(a: Attr)
    requires AttrOk(a)
    ensures AttrOk(LeafAttr(a)) && LeafAttr(a) == WithFlag(a)
  {
    FlagIsTested(a);
  }

  lemma SameAsItself(a: Attr)
    ensures SameButFlag(a, a)
  {
  }

  lemma SameFlagless(a: Attr, b: Attr)
    requires SameButFlag(a, b)
    ensures SameButFlag(WithFlag(a), b)
  {
  }

  /** Masks do not tell attributes apart that differ in the flag only. */
  lemma MaskedSameButFlag(a: Attr, b: Attr, raise: Attr, clear: Attr)
    requires SameButFlag(a, b)
    ensures SameButFlag(Masked(a, raise, clear), Masked(b, raise, clear))
  {
  }

  lemma MaskedHasFlag(a: Attr, raise: Attr, clear: Attr)
    requires HasFlag(a) && (HasFlag(raise) || !HasFlag(clear))
    ensures HasFlag(Masked(a, raise, clear))
  {
  }

  lemma MaskedOk(a: Attr, raise: Attr, clear: Attr)
    requires AttrOk(a) && AttrOk(raise)
    ensures AttrOk(Masked(a, raise, clear))
  {
  }

  lemma OffsetOfPage(l: nat, v: nat)
    ensures l == 0 ==> Offset(l, v) == 0
  {
  }

  lemma {:induction false} OffsetZero(l: nat)
    ensures Offset(l, 0) == 0
  {
    if l > 0 {
      OffsetZero(l - 1);
    }
  }

  lemma SpanOfPage()
    ensures Span(0) == 1
  {
  }

  /** The offset is the remainder: in a block it is the distance from its start. */
  lemma {:induction false} OffsetInBlock(l: nat, base: nat, v: nat)
    requires Offset(l, base) == 0 && base <= v < base + Span(l)
    ensures Offset(l, v) == v - base
  {
    if l > 0 {
      OffsetInBlock(l - 1, base / ENTRIES, v / ENTRIES);
    }
  }

  /** Every page lies in the block found by subtracting its offset. */
  lemma {:induction false} OffsetBounds(l: nat, v: nat)
    ensures Offset(l, v) <= v && Offset(l, v) < Span(l)
    ensures Offset(l, v - Offset(l, v)) == 0
  {
    if l > 0 {
      OffsetBounds(l - 1, v / ENTRIES);
      var o := Offset(l - 1, v / ENTRIES);
      assert v - Offset(l, v) == (v / ENTRIES - o) * ENTRIES;
    }
  }

  /** The start of the next level-`l` block after `v`. */
  function NextCell(l: nat, v: nat): nat {
    OffsetBounds(l, v);
    v - Offset(l, v) + Span(l)
  }

  /** Consecutive cells adjoin, and the cells of a table fill it. */
  lemma {:induction false} CellsTile(l: nat, i: nat)
    ensures Cells(l, 0) == 0
    ensures Cells(l, i + 1) == Cells(l, i) + Span(l)
    ensures i < ENTRIES ==> Cells(l, i) + Span(l) <= Cells(l, ENTRIES)
    ensures Cells(l, ENTRIES) == Span(l + 1)
  {
    if l > 0 {
      CellsTile(l - 1, i);
    }
  }

  /** A page in cell `i` of an aligned table has index `i` there. */
  lemma {:induction false} IndexOfCell(l: nat, base: nat, i: nat, v: nat)
    requires i < ENTRIES && Offset(l + 1, base) == 0
    requires base + Cells(l, i) <= v < base + Cells(l, i) + Span(l)
    ensures base <= v < base + Span(l + 1)
    ensures IndexAt(l, v) == i
    ensures Offset(l, v) == v - (base + Cells(l, i))
  {
    CellsTile(l, i);
    if l > 0 {
      IndexOfCell(l - 1, base / ENTRIES, i, v / ENTRIES);
    }
  }

  /** Conversely `v` lies in the cell that its index selects. */
  lemma {:induction false} CellOf(l: nat, base: nat, v: nat)
    requires Offset(l + 1, base) == 0 && base <= v < base + Span(l + 1)
    ensures base + Cells(l, IndexAt(l, v)) <= v < base + Cells(l, IndexAt(l, v)) + Span(l)
    ensures Offset(l, v) == v - (base + Cells(l, IndexAt(l, v)))
  {
    if l > 0 {
      CellOf(l - 1, base / ENTRIES, v / ENTRIES);
    }
  }

  /** Each cell of a table is an aligned block inside it. */
  lemma CellAligned(l: nat, base: nat, i: nat)
    requires i < ENTRIES && Offset(l + 1, base) == 0
    ensures Offset(l, base + Cells(l, i)) == 0
    ensures base + Cells(l, i) + Span(l) <= base + Span(l + 1)
  {
    CellsTile(l, i);
    IndexOfCell(l, base, i, base + Cells(l, i));
  }

  /** An address aligned for a level is aligned for every finer one. */
  lemma {:induction false} AlignedBelow(k: nat, l: nat, w: nat)
    requires k <= l && Offset(l, w) == 0
    ensures Offset(k, w) == 0
  {
    if 0 < k {
      AlignedBelow(k - 1, l - 1, w / ENTRIES);
    }
  }

  /** An aligned address does not cut a block of its level or a finer one. */
  lemma {:induction false} BlockOneSide(k: nat, l: nat, v: nat, w: nat)
    requires k <= l && Offset(l, w) == 0
    ensures v < w ==> NextCell(k, v) <= w
    ensures w <= v ==> w <= v - Offset(k, v)
  {
    AlignedBelow(k, l, w);
    OffsetBounds(k, v);
    SameLevelSide(k, v, w);
  }

  lemma {:induction false} SameLevelSide(k: nat, v: nat, w: nat)
    requires Offset(k, w) == 0
    ensures v < w ==> v - Offset(k, v) + Span(k) <= w
    ensures w <= v ==> w <= v - Offset(k, v)
  {
    if k > 0 {
      SameLevelSide(k - 1, v / ENTRIES, w / ENTRIES);
      OffsetBounds(k - 1, v / ENTRIES);
    }
  }

  lemma {:induction false} NextAligned(l: nat, b: nat)
    requires Offset(l, b) == 0
    ensures Offset(l, b + Span(l)) == 0
  {
    if l > 0 {
      NextAligned(l - 1, b / ENTRIES);
      assert (b + Span(l)) / ENTRIES == b / ENTRIES + Span(l - 1);
    }
  }

  /** The pages of one level-`k` block lie in one block of every coarser level. */
  predicate SameBlock(k: nat, v: nat, u: nat) {
    OffsetBounds(k, v);
    v - Offset(k, v) <= u < NextCell(k, v)
  }

  lemma SameBlockAbove(k: nat, l: nat, v: nat, u: nat, b: nat)
    requires k <= l && SameBlock(k, v, u) && Offset(l, b) == 0 && b <= v < b + Span(l)
    ensures b <= u < b + Span(l)
  {
    BlockOneSide(k, l, v, b);
    NextAligned(l, b);
    BlockOneSide(k, l, v, b + Span(l));
  }
}
