/** The two-level address translation of the 80386 (section 5.2 of its Programmer's Reference Manual). */
module Mmu {
  const PAGE := 0x1000
  const ENTRIES := 0x400
  const REGION := 0x40_0000
  const SPACE := 0x1_0000_0000
  const US_RW_P := 7

  /** The words of physical memory, by frame; frames not listed hold zeros. */
  type Memory = map<nat, seq<nat>>

  function WordAt(m: Memory, f: nat, i: nat): nat {
    if f in m && i < |m[f]| then m[f][i] else 0
  }

  function Table(m: Memory, f: nat): (t: seq<nat>)
    ensures |t| == ENTRIES && forall i :: 0 <= i < ENTRIES ==> t[i] == WordAt(m, f, i)
  {
    seq(ENTRIES, i requires 0 <= i < ENTRIES => WordAt(m, f, i))
  }

  function Present(e: nat): bool {
    e % 2 == 1
  }

  /** The R/W and U/S bits of an entry (section 6.4 of the manual). */
  predicate Writable(e: nat) {
    e / 2 % 2 == 1
  }

  predicate ForUser(e: nat) {
    e / 4 % 2 == 1
  }

  function FrameOf(e: nat): nat {
    e / PAGE
  }

  function PdeIdx(v: nat): (i: nat)
    ensures v < SPACE ==> i < ENTRIES
  {
    v / REGION
  }

  function PteIdx(v: nat): (i: nat)
    ensures i < ENTRIES
  {
    v / PAGE % ENTRIES
  }

  function Pde(m: Memory, dir: nat, v: nat): nat {
    WordAt(m, dir, PdeIdx(v))
  }

  /** The frame that holds the page-table entry of `v`. */
  function TableOf(m: Memory, dir: nat, v: nat): nat {
    FrameOf(Pde(m, dir, v))
  }

  function Pte(m: Memory, dir: nat, v: nat): nat {
    WordAt(m, TableOf(m, dir, v), PteIdx(v))
  }

  predicate Mapped(m: Memory, dir: nat, v: nat) {
    Present(Pde(m, dir, v)) && Present(Pte(m, dir, v))
  }

  /** The frame a mapped page is in. */
  function Translate(m: Memory, dir: nat, v: nat): nat
    requires Mapped(m, dir, v)
  {
    FrameOf(Pte(m, dir, v))
  }

  /** Programs outside the kernel may read and write the page: both entries on the way to it say so. */
  predicate UserWrites(m: Memory, dir: nat, v: nat) {
    && Mapped(m, dir, v) && Writable(Pde(m, dir, v)) && Writable(Pte(m, dir, v))
    && ForUser(Pde(m, dir, v)) && ForUser(Pte(m, dir, v))
  }

  /** The last directory entry points back at the directory; no other does. */
  ghost predicate SelfMapped(m: Memory, dir: nat) {
    && Present(WordAt(m, dir, ENTRIES - 1)) && FrameOf(WordAt(m, dir, ENTRIES - 1)) == dir
    && forall i :: 0 <= i < ENTRIES - 1 && Present(WordAt(m, dir, i)) ==> FrameOf(WordAt(m, dir, i)) != dir
  }

  /** Two translations of a page agree. */
  ghost predicate SameAt(m: Memory, n: Memory, dir: nat, v: nat) {
    && (Mapped(n, dir, v) <==> Mapped(m, dir, v))
    && (Mapped(m, dir, v) && Mapped(n, dir, v) ==> Translate(n, dir, v) == Translate(m, dir, v))
  }

  /** The word of memory a mapped, word-aligned virtual address denotes: its frame and index. */
  function Cell(m: Memory, dir: nat, v: nat): (nat, nat)
    requires Mapped(m, dir, v)
  {
    (Translate(m, dir, v), v % PAGE / 4)
  }

  function Write(m: Memory, f: nat, i: nat, w: nat): (n: Memory)
    requires i < ENTRIES
    ensures forall g: nat, k: nat :: WordAt(n, g, k) == if g == f && k == i then w else if g == f && k >= ENTRIES then 0 else WordAt(m, g, k)
  {
    m[f := Table(m, f)[i := w]]
  }

  function Clear(m: Memory, f: nat): (n: Memory)
    ensures forall g: nat, k: nat :: WordAt(n, g, k) == if g == f then 0 else WordAt(m, g, k)
  {
    m[f := []]
  }

  // ---- the window onto the tables ----

  /** Virtual address of the page-table entry of `v`. */
  function PtePtr(v: nat): nat {
    0xffc0_0000 + PdeIdx(v) * PAGE + PteIdx(v) * 4
  }

  /** Virtual address of the directory entry of `v`. */
  function PdePtr(v: nat): nat {
    0xffff_f000 + PdeIdx(v) * 4
  }

  lemma WindowIndices(v: nat)
    requires v < SPACE
    ensures PtePtr(v) < SPACE && PdeIdx(PtePtr(v)) == ENTRIES - 1 && PteIdx(PtePtr(v)) == PdeIdx(v)
    ensures PtePtr(v) % PAGE / 4 == PteIdx(v)
    ensures PdePtr(v) < SPACE && PdeIdx(PdePtr(v)) == ENTRIES - 1 && PteIdx(PdePtr(v)) == ENTRIES - 1
    ensures PdePtr(v) % PAGE / 4 == PdeIdx(v)
  {
  }

  /** Seen through the last directory entry, the directory entry of `v` is a word of memory at
      `PdePtr(v)`, and, when it is present, so is the page-table entry of `v`, at `PtePtr(v)`. */
  lemma Window(m: Memory, dir: nat, v: nat)
    requires SelfMapped(m, dir) && v < SPACE
    ensures Mapped(m, dir, PdePtr(v)) && Cell(m, dir, PdePtr(v)) == (dir, PdeIdx(v))
    ensures Mapped(m, dir, PtePtr(v)) <==> Present(Pde(m, dir, v))
    ensures Mapped(m, dir, PtePtr(v)) ==> Cell(m, dir, PtePtr(v)) == (TableOf(m, dir, v), PteIdx(v))
  {
    WindowIndices(v);
    hide PtePtr, PdePtr, PdeIdx, PteIdx;
  }
}
