/** Address spaces: the boot directory, the directories of processes and what they share. */
module AddressSpaces {
  import opened Mmu
  import opened Paging

  const KERNEL := 0x300
  const BOOT_DIR := 0x100

  /** The frame the loader's directory entry `i` leads to: entries 0 and 0x300 share the first table. */
  function BootFrame(i: nat): nat {
    if i == 0 || i == KERNEL then BOOT_DIR + 1
    else if i == ENTRIES - 1 then BOOT_DIR
    else BOOT_DIR + 2 + (if i > KERNEL then i - KERNEL - 1 else 0)
  }

  /** The directory the loader builds. */
  ghost predicate Boot(m: Memory) {
    forall i: nat :: i < ENTRIES ==> WordAt(m, BOOT_DIR, i) == if i == 0 || i >= KERNEL then EntryFor(BootFrame(i)) else 0
  }

  lemma BootEntry(m: Memory, v: nat)
    requires Boot(m) && v < SPACE
    ensures Present(Pde(m, BOOT_DIR, v)) <==> PdeIdx(v) == 0 || PdeIdx(v) >= KERNEL
    ensures Present(Pde(m, BOOT_DIR, v)) ==> TableOf(m, BOOT_DIR, v) == BootFrame(PdeIdx(v))
  {
    hide EntryFor, PdeIdx, BootFrame;
  }

  /** In the boot directory two pages share an entry exactly when one mirrors the other: the first
      four megabytes and the first four of the kernel's gigabyte. */
  lemma BootMirror(m: Memory, u: nat, v: nat)
    requires Boot(m) && u < SPACE && v < SPACE && u / PAGE != v / PAGE
    ensures SelfMapped(m, BOOT_DIR)
    ensures Aliases(m, BOOT_DIR, u, v) <==>
              PteIdx(u) == PteIdx(v) && ((PdeIdx(u) == 0 && PdeIdx(v) == KERNEL) || (PdeIdx(u) == KERNEL && PdeIdx(v) == 0))
  {
    assert PdeIdx(u) != PdeIdx(v) || PteIdx(u) != PteIdx(v);
    hide PdeIdx, PteIdx, EntryFor;
    BootEntry(m, u);
    BootEntry(m, v);
    BootSelf(m);
  }

  lemma BootSelf(m: Memory)
    requires Boot(m)
    ensures SelfMapped(m, BOOT_DIR)
  {
    hide EntryFor;
  }

  /** The kernel's first heap page, once mapped, shows at one megabyte as well. */
  lemma MirrorOfHeapStart(m: Memory, f: nat)
    requires Boot(m) && !Mapped(m, BOOT_DIR, 0xc010_0000)
    ensures
      var n := AddEntry(m, BOOT_DIR, 0xc010_0000, f);
      Mapped(n, BOOT_DIR, 0xc010_0000) && Mapped(n, BOOT_DIR, 0x0010_0000) && Translate(n, BOOT_DIR, 0x0010_0000) == f
      && !SameAt(m, n, BOOT_DIR, 0x0010_0000)
  {
    var u, v := 0x0010_0000, 0xc010_0000;
    assert PdeIdx(u) == 0 && PdeIdx(v) == KERNEL && PteIdx(u) == PteIdx(v) == 0x100;
    hide PdeIdx, PteIdx, EntryFor, Write;
    BootMirror(m, u, v);
    BootEntry(m, v);
    BootEntry(m, u);
    AddExact(m, BOOT_DIR, v, f, u);
    EntryWritten(m, AddEntry(m, BOOT_DIR, v, f), BOOT_DIR, v, EntryFor(f), u);
  }

  // ---- directories of processes ----

  /** The kernel's entries are the same in both directories, and lead to neither directory. */
  ghost predicate ShareKernel(m: Memory, a: nat, b: nat) {
    forall i :: KERNEL <= i < ENTRIES - 1 ==>
      && WordAt(m, a, i) == WordAt(m, b, i)
      && Present(WordAt(m, a, i)) && FrameOf(WordAt(m, a, i)) != a && FrameOf(WordAt(m, a, i)) != b
  }

  predicate InKernel(v: nat) {
    KERNEL * REGION <= v < 0xffc0_0000
  }

  lemma KernelIdx(v: nat)
    requires InKernel(v)
    ensures v < SPACE && KERNEL <= PdeIdx(v) < ENTRIES - 1
  {
  }

  /** The directory of a new process: zeros, the kernel's entries, and itself at the end. */
  function NewDirectory(m: Memory, dir: nat, own: nat): Memory {
    m[own := seq(ENTRIES, i requires 0 <= i < ENTRIES =>
      if i == ENTRIES - 1 then EntryFor(own) else if i >= KERNEL then WordAt(m, dir, i) else 0)]
  }

  lemma NewDirectoryWords(m: Memory, dir: nat, own: nat, g: nat, i: nat)
    requires i < ENTRIES
    ensures WordAt(NewDirectory(m, dir, own), g, i) ==
      if g != own then WordAt(m, g, i)
      else if i == ENTRIES - 1 then EntryFor(own) else if i >= KERNEL then WordAt(m, dir, i) else 0
  {
    hide EntryFor;
  }

  /** A new process sees the kernel as its creator does and nothing below it. */
  lemma NewProcess(m: Memory, dir: nat, own: nat, v: nat)
    requires SelfMapped(m, dir) && own != dir && v < SPACE
    requires forall i :: KERNEL <= i < ENTRIES - 1 ==> Present(WordAt(m, dir, i)) && FrameOf(WordAt(m, dir, i)) != own
    ensures
      var n := NewDirectory(m, dir, own);
      && SelfMapped(n, own) && ShareKernel(n, dir, own)
      && (v < KERNEL * REGION ==> !Mapped(n, own, v))
      && (InKernel(v) ==> (Mapped(n, own, v) <==> Mapped(n, dir, v)) && (Mapped(n, own, v) ==> Translate(n, own, v) == Translate(n, dir, v)))
      && (InKernel(v) ==> SameAt(m, n, dir, v))
  {
    var n := NewDirectory(m, dir, own);
    assert v < KERNEL * REGION ==> PdeIdx(v) < KERNEL;
    assert InKernel(v) ==> KERNEL <= PdeIdx(v) < ENTRIES - 1;
    hide PdeIdx, EntryFor, NewDirectory, InKernel, PteIdx;
    forall g: nat, i: nat | i < ENTRIES ensures WordAt(n, g, i) ==
      if g != own then WordAt(m, g, i)
      else if i == ENTRIES - 1 then EntryFor(own) else if i >= KERNEL then WordAt(m, dir, i) else 0
    {
      NewDirectoryWords(m, dir, own, g, i);
    }
  }

  /** What one process maps in the kernel's gigabyte, all processes see. */
  lemma KernelShared(m: Memory, a: nat, b: nat, v: nat, f: nat, u: nat)
    requires SelfMapped(m, a) && ShareKernel(m, a, b) && InKernel(v) && InKernel(u) && !Mapped(m, a, v)
    ensures
      var n := AddEntry(m, a, v, f);
      && ShareKernel(n, a, b)
      && (Mapped(n, a, u) <==> Mapped(n, b, u)) && (Mapped(n, a, u) && Mapped(n, b, u) ==> Translate(n, a, u) == Translate(n, b, u))
      && Mapped(n, b, v) && Translate(n, b, v) == f
  {
    KernelIdx(u);
    KernelIdx(v);
    hide Write, PdeIdx, PteIdx, EntryFor;
    var n := AddEntry(m, a, v, f);
    AddExact(m, a, v, f, u);
    assert TableOf(m, a, v) != a && TableOf(m, a, v) != b;
    forall i | 0 <= i < ENTRIES ensures WordAt(n, a, i) == WordAt(m, a, i) && WordAt(n, b, i) == WordAt(m, b, i) {
    }
  }

  /** The page tables as the running kernel changes them: every access goes through a virtual address. */
  class PageTables {
    var mem: Memory
    const dir: nat

    method Peek(v: nat) returns (w: nat)
      requires Mapped(mem, dir, v)
      ensures w == WordAt(mem, Cell(mem, dir, v).0, Cell(mem, dir, v).1)
    {
      var f := Translate(mem, dir, v);
      w := WordAt(mem, f, v % PAGE / 4);
    }

    method Poke(v: nat, w: nat)
      requires Mapped(mem, dir, v)
      modifies this
      ensures mem == Write(old(mem), old(Cell(mem, dir, v)).0, old(Cell(mem, dir, v)).1, w)
    {
      mem := Write(mem, Translate(mem, dir, v), v % PAGE / 4, w);
    }

    method ZeroPage(v: nat)
      requires Mapped(mem, dir, v)
      modifies this
      ensures mem == Clear(old(mem), old(Translate(mem, dir, v)))
    {
      mem := Clear(mem, Translate(mem, dir, v));
    }

    /** Maps page `v` to frame `f`; `table` is the frame a new table gets if there is none for `v`. */
    method PageTableAdd(v: nat, f: nat, table: nat) returns (ok: bool)
      requires SelfMapped(mem, dir) && v < SPACE && PdeIdx(v) != ENTRIES - 1
      requires Present(Pde(mem, dir, v)) || NotATable(mem, dir, table)
      modifies this
      ensures ok <==> !old(Mapped(mem, dir, v))
      ensures mem == if !ok then old(mem)
                     else if Present(old(Pde(mem, dir, v))) then AddEntry(old(mem), dir, v, f)
                     else AddTable(old(mem), dir, v, table, f)
    {
      ghost var m := mem;
      Window(mem, dir, v);
      hide Write, Clear, PdeIdx, PteIdx, EntryFor, PtePtr, PdePtr;
      var pde := Peek(PdePtr(v));
      if Present(pde) {
        var pte := Peek(PtePtr(v));
        if Present(pte) {
          return false;
        }
        Poke(PtePtr(v), EntryFor(f));
      } else {
        Poke(PdePtr(v), EntryFor(table));
        NewEntry(m, mem, dir, v, table);
        ZeroPage(PtePtr(v));
        ZeroedTable(m, mem, dir, v, table);
        Poke(PtePtr(v), EntryFor(f));
      }
      ok := true;
    }

    method PageTableRemove(v: nat)
      requires SelfMapped(mem, dir) && v < SPACE && Present(Pde(mem, dir, v))
      modifies this
      ensures mem == RemoveEntry(old(mem), dir, v)
    {
      Window(mem, dir, v);
      hide Write, PdeIdx, PteIdx, PtePtr, PdePtr;
      var pte := Peek(PtePtr(v));
      Poke(PtePtr(v), pte - pte % 2);
    }

    /** Physical address of a virtual one. */
    method AddrV2P(v: nat) returns (p: nat)
      requires SelfMapped(mem, dir) && v < SPACE && Present(Pde(mem, dir, v))
      ensures Mapped(mem, dir, v) ==> p / PAGE == Translate(mem, dir, v) && p % PAGE == v % PAGE
    {
      Window(mem, dir, v);
      hide PdeIdx, PteIdx, PtePtr, PdePtr;
      var pte := Peek(PtePtr(v));
      p := pte / PAGE * PAGE + v % PAGE;
    }
  }

  lemma NewEntry(m: Memory, n: Memory, dir: nat, v: nat, table: nat)
    requires SelfMapped(m, dir) && v < SPACE && PdeIdx(v) != ENTRIES - 1
    requires n == Write(m, dir, PdeIdx(v), EntryFor(table)) && table != dir
    ensures SelfMapped(n, dir) && Mapped(n, dir, PtePtr(v)) && Translate(n, dir, PtePtr(v)) == table
    ensures TableOf(n, dir, v) == table
  {
    hide Write, PteIdx, EntryFor, PtePtr, PdePtr;
    Window(n, dir, v);
  }

  lemma ZeroedTable(m: Memory, n: Memory, dir: nat, v: nat, table: nat)
    requires SelfMapped(m, dir) && v < SPACE && PdeIdx(v) != ENTRIES - 1 && table != dir
    requires n == Clear(Write(m, dir, PdeIdx(v), EntryFor(table)), table)
    ensures SelfMapped(n, dir) && Mapped(n, dir, PtePtr(v)) && Cell(n, dir, PtePtr(v)) == (table, PteIdx(v))
  {
    hide Write, Clear, PteIdx, EntryFor, PtePtr, PdePtr;
    Window(n, dir, v);
  }
}
