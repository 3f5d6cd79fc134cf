/** Adding and removing mappings through the window. */
module Paging {
  import opened Mmu

  /** Page `u` uses the same page-table entry as page `v`. */
  ghost predicate Aliases(m: Memory, dir: nat, u: nat, v: nat) {
    Present(Pde(m, dir, u)) && Present(Pde(m, dir, v)) && TableOf(m, dir, u) == TableOf(m, dir, v) && PteIdx(u) == PteIdx(v)
  }

  /** Frame `f` serves no directory entry and is not the directory. */
  ghost predicate NotATable(m: Memory, dir: nat, f: nat) {
    f != dir && forall i :: 0 <= i < ENTRIES && Present(WordAt(m, dir, i)) ==> FrameOf(WordAt(m, dir, i)) != f
  }

  /** Entry for a page in frame `f`. */
  function EntryFor(f: nat): (e: nat)
    ensures Present(e) && Writable(e) && ForUser(e) && FrameOf(e) == f
  {
    f * PAGE + US_RW_P
  }

  /** Memory after mapping page `v`, whose table exists, to frame `f`. */
  function AddEntry(m: Memory, dir: nat, v: nat, f: nat): Memory {
    Write(m, TableOf(m, dir, v), PteIdx(v), EntryFor(f))
  }

  /** Memory after giving `v` a new, empty table in frame `t` and mapping it to frame `f`. */
  function AddTable(m: Memory, dir: nat, v: nat, t: nat, f: nat): Memory
    requires v < SPACE
  {
    Write(Clear(Write(m, dir, PdeIdx(v), EntryFor(t)), t), t, PteIdx(v), EntryFor(f))
  }

  function RemoveEntry(m: Memory, dir: nat, v: nat): Memory {
    var e := Pte(m, dir, v);
    Write(m, TableOf(m, dir, v), PteIdx(v), e - e % 2)
  }

  /** Writing a page-table entry changes the translation of the pages that use that entry and of
      no others, and leaves the window in place. */
  lemma EntryWritten(m: Memory, n: Memory, dir: nat, v: nat, w: nat, u: nat)
    requires SelfMapped(m, dir) && v < SPACE && u < SPACE && PdeIdx(v) != ENTRIES - 1 && Present(Pde(m, dir, v))
    requires n == Write(m, TableOf(m, dir, v), PteIdx(v), w)
    ensures SelfMapped(n, dir) && Pde(n, dir, u) == Pde(m, dir, u)
    ensures Pte(n, dir, u) == if TableOf(m, dir, u) == TableOf(m, dir, v) && PteIdx(u) == PteIdx(v) then w else Pte(m, dir, u)
  {
    hide Write, PdeIdx, PteIdx;
    assert TableOf(m, dir, v) != dir;
  }

  /** Exactly the pages that share the entry of `v` are mapped with it. */
  lemma AddExact(m: Memory, dir: nat, v: nat, f: nat, u: nat)
    requires SelfMapped(m, dir) && v < SPACE && u < SPACE && PdeIdx(v) != ENTRIES - 1 && Present(Pde(m, dir, v))
    requires !Mapped(m, dir, v)
    ensures
      var n := AddEntry(m, dir, v, f);
      && SelfMapped(n, dir) && Mapped(n, dir, v) && Translate(n, dir, v) == f
      && (SameAt(m, n, dir, u) <==> !Aliases(m, dir, u, v))
      && (UserWrites(n, dir, v) <==> Writable(Pde(m, dir, v)) && ForUser(Pde(m, dir, v)))
      && (!Aliases(m, dir, u, v) ==> (UserWrites(n, dir, u) <==> UserWrites(m, dir, u)))
  {
    hide Write, PdeIdx, PteIdx, SelfMapped, EntryFor;
    var n := AddEntry(m, dir, v, f);
    EntryWritten(m, n, dir, v, EntryFor(f), u);
    EntryWritten(m, n, dir, v, EntryFor(f), v);
  }

  /** Unmapping what was mapped restores every translation. */
  lemma AddThenRemove(m: Memory, dir: nat, v: nat, f: nat, u: nat)
    requires SelfMapped(m, dir) && v < SPACE && u < SPACE && PdeIdx(v) != ENTRIES - 1 && Present(Pde(m, dir, v))
    requires !Mapped(m, dir, v)
    ensures
      var n := RemoveEntry(AddEntry(m, dir, v, f), dir, v);
      SelfMapped(n, dir) && SameAt(m, n, dir, u)
  {
    hide Write, PdeIdx, PteIdx, SelfMapped, EntryFor;
    var a := AddEntry(m, dir, v, f);
    EntryWritten(m, a, dir, v, EntryFor(f), u);
    EntryWritten(m, a, dir, v, EntryFor(f), v);
    var e := Pte(a, dir, v);
    EntryWritten(a, RemoveEntry(a, dir, v), dir, v, e - e % 2, u);
  }

  /** A new table makes the one page mapped, besides the new table's own page in the window; all
      other translations stay. */
  lemma AddTableExact(m: Memory, dir: nat, v: nat, t: nat, f: nat, u: nat)
    requires SelfMapped(m, dir) && v < SPACE && u < SPACE && PdeIdx(v) != ENTRIES - 1 && !Present(Pde(m, dir, v))
    requires NotATable(m, dir, t)
    ensures
      var n := AddTable(m, dir, v, t, f);
      && SelfMapped(n, dir) && Mapped(n, dir, v) && Translate(n, dir, v) == f && UserWrites(n, dir, v)
      && (u / PAGE != v / PAGE && u / PAGE != PtePtr(v) / PAGE ==> SameAt(m, n, dir, u))
      && (u / PAGE == PtePtr(v) / PAGE ==> Mapped(n, dir, u) && Translate(n, dir, u) == t)
  {
    hide Write, Clear, PdeIdx, PteIdx, EntryFor, PtePtr, AddTable;
    WindowIndices(v);
    SamePage(u, v);
    SamePage(u, PtePtr(v));
    TableWords(m, AddTable(m, dir, v, t, f), dir, v, t, f);
    var n := AddTable(m, dir, v, t, f);
    assert WordAt(n, dir, ENTRIES - 1) == WordAt(m, dir, ENTRIES - 1);
  }

  /** Pages are told apart by their two indices. */
  lemma SamePage(u: nat, v: nat)
    ensures u / PAGE == v / PAGE <==> PdeIdx(u) == PdeIdx(v) && PteIdx(u) == PteIdx(v)
  {
    PageNumber(u);
    PageNumber(v);
    hide PdeIdx, PteIdx;
  }

  lemma PageNumber(v: nat)
    ensures v / PAGE == ENTRIES * PdeIdx(v) + PteIdx(v)
  {
    assert v / REGION == v / PAGE / ENTRIES;
  }

  lemma TableWords(m: Memory, n: Memory, dir: nat, v: nat, t: nat, f: nat)
    requires v < SPACE && t != dir && n == AddTable(m, dir, v, t, f)
    ensures forall i: nat :: i < ENTRIES ==> WordAt(n, dir, i) == if i == PdeIdx(v) then EntryFor(t) else WordAt(m, dir, i)
    ensures forall i: nat :: WordAt(n, t, i) == if i == PteIdx(v) then EntryFor(f) else 0
    ensures forall g: nat, i: nat :: g != dir && g != t ==> WordAt(n, g, i) == WordAt(m, g, i)
  {
  }
}
