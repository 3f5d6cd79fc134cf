/** The kernel's heap on top of the page allocator: who has which page. */
module KernelHeap {
  import opened FiniteSets
  import opened Queues
  import opened BitRuns
  import opened PageStates
  import opened PageProofs
  import opened PageMaps
  import opened PageAllocator
  import opened HeapStates
  import opened HeapProofs
  import ArenaHeap

  /** Every page of the heap is a mapped page of the allocator. */
  ghost predicate HousedAt(h: Heap, s: Pages, base: nat, q: nat) {
    OwnsPage(h, q) ==> q >= base && (q - base) in s.table
  }

  ghost predicate Housed(h: Heap, s: Pages, base: nat) {
    forall q: nat :: HousedAt(h, s, base, q)
  }

  ghost predicate RestAt(h: Heap, s: Pages, start: Pages, base: nat, i: nat) {
    && (i in start.table <==> i in s.table && !OwnsPage(h, base + i))
    && (i in start.table && i in s.table ==> s.table[i] == start.table[i])
  }

  /** Apart from the heap's pages the allocator is as at `start`. */
  ghost predicate RestSame(h: Heap, s: Pages, start: Pages, base: nat) {
    && |s.pool| == |start.pool| && |s.vmap| == |start.vmap| && s.foreign == start.foreign && Tables(s) == Tables(start)
    && forall i: nat :: RestAt(h, s, start, base, i)
  }

  /** Two states of the allocator with the same mapped pages and page tables are the same. */
  lemma SamePages(s: Pages, t: Pages)
    requires Consistent(s) && Consistent(t) && s.table == t.table && Tables(s) == Tables(t)
    requires |s.pool| == |t.pool| && |s.vmap| == |t.vmap| && s.foreign == t.foreign
    ensures s == t
  {
    assert s.vmap == t.vmap;
    SameOwners(s, t);
    assert s.pool == t.pool;
  }

  lemma SameOwners(s: Pages, t: Pages)
    requires Maps(s.table, s.owner) && Maps(t.table, t.owner) && s.table == t.table && Tables(s) == Tables(t)
    ensures s.owner == t.owner
  {
    forall f ensures f in s.owner ==> f in t.owner && t.owner[f] == s.owner[f] {
      OwnerIn(s, t, f);
    }
    forall f ensures f in t.owner ==> f in s.owner && s.owner[f] == t.owner[f] {
      OwnerIn(t, s, f);
    }
  }

  lemma OwnerIn(s: Pages, t: Pages, f: nat)
    requires Maps(s.table, s.owner) && Maps(t.table, t.owner) && s.table == t.table && Tables(s) == Tables(t)
    ensures f in s.owner ==> f in t.owner && t.owner[f] == s.owner[f]
  {
    if f in s.owner && s.owner[f].ByTables? {
      assert f in Tables(t);
    }
  }

  /** When everything has been freed, the allocator is as it was before the heap took anything: both
      bitmaps, every mapping and every owner. */
  lemma EverythingBack(h: Heap, s: Pages, start: Pages, base: nat)
    requires ArenaHeap.Inv(h) && h.live == map[] && Consistent(s) && Consistent(start) && RestSame(h, s, start, base)
    ensures s == start
  {
    hide Consistent, Tables, HeapOk, NoneIdle;
    ArenaHeap.AllFreed(h);
    forall i: nat ensures i in s.table <==> i in start.table {
      assert RestAt(h, s, start, base, i);
    }
    forall i: nat | i in s.table ensures s.table[i] == start.table[i] {
      assert RestAt(h, s, start, base, i);
    }
    assert s.table == start.table;
    SamePages(s, start);
  }

  // ---- taking pages ----

  /** A run of clear virtual pages is not the heap's. */
  lemma RunIsFresh(h: Heap, s: Pages, base: nat, start: nat, n: nat)
    requires Housed(h, s, base) && Consistent(s) && ClearRun(s.vmap, start, n) && n >= 1
    ensures FreshRun(h, base + start, n)
  {
    hide Maps, OwnsPage;
    forall q: nat | base + start <= q < base + start + n ensures !OwnsPage(h, q) {
      assert HousedAt(h, s, base, q);
      var i: nat := q - base;
      assert !s.vmap[i];
    }
  }

  lemma TablesKept(s: Pages, t: Pages, start: nat, n: nat, k: nat)
    requires Mapping(s, t, start, n, k)
    ensures Tables(t) == Tables(s)
  {
    hide Maps, BitsOf, TableGrown, VmapTaken;
  }

  lemma TakenHoused(h: Heap, g: Heap, s: Pages, t: Pages, first: Pages, base: nat, start: nat, n: nat)
    requires Housed(h, s, base) && RestSame(h, s, first, base) && Consistent(s) && ClearRun(s.vmap, start, n) && Mapping(s, t, start, n, n)
    requires forall q: nat :: OwnsPage(g, q) <==> OwnsPage(h, q) || base + start <= q < base + start + n
    ensures Housed(g, t, base) && RestSame(g, t, first, base)
  {
    TablesKept(s, t, start, n, n);
    hide OwnsPage, Maps, OwnersGrown, Tables;
    forall q: nat ensures HousedAt(g, t, base, q) {
      assert HousedAt(h, s, base, q);
    }
    forall i: nat ensures RestAt(g, t, first, base, i) {
      assert RestAt(h, s, first, base, i);
      RunUnmapped(s, start, n, i);
    }
  }

  lemma RunUnmapped(s: Pages, start: nat, n: nat, i: nat)
    requires Consistent(s) && ClearRun(s.vmap, start, n)
    ensures start <= i < start + n ==> i !in s.table
  {
    hide Maps;
    assert i in s.table ==> i < |s.vmap| && s.vmap[i];
  }

  // ---- giving pages back ----

  lemma GivenHoused(h: Heap, g: Heap, s: Pages, t: Pages, first: Pages, base: nat, start: nat, n: nat)
    requires Housed(h, s, base) && RestSame(h, s, first, base) && Unmapping(s, t, start, n)
    requires forall q: nat :: OwnsPage(g, q) <==> OwnsPage(h, q) && !(base + start <= q < base + start + n)
    requires forall q: nat :: base + start <= q < base + start + n ==> OwnsPage(h, q)
    ensures Housed(g, t, base) && RestSame(g, t, first, base)
  {
    TablesLeft(s, t, start, n);
    hide OwnsPage, BitsOf, Tables;
    forall q: nat ensures HousedAt(g, t, base, q) {
      assert HousedAt(h, s, base, q);
    }
    forall i: nat ensures RestAt(g, t, first, base, i) {
      assert RestAt(h, s, first, base, i);
    }
  }

  lemma TablesLeft(s: Pages, t: Pages, start: nat, n: nat)
    requires Unmapping(s, t, start, n)
    ensures Tables(t) == Tables(s)
  {
    hide BitsOf;
  }

  lemma SameHoused(h: Heap, g: Heap, s: Pages, first: Pages, base: nat)
    requires Housed(h, s, base) && RestSame(h, s, first, base) && forall q: nat :: OwnsPage(g, q) <==> OwnsPage(h, q)
    ensures Housed(g, s, base) && RestSame(g, s, first, base)
  {
    hide OwnsPage, Tables;
    forall q: nat ensures HousedAt(g, s, base, q) {
      assert HousedAt(h, s, base, q);
    }
    forall i: nat ensures RestAt(g, s, first, base, i) {
      assert RestAt(h, s, first, base, i);
    }
  }

  /** Whether a request of the heap needs pages. */
  ghost predicate Asks(h: Heap, size: nat, poolSize: nat) {
    0 < size < poolSize && |h.free| == DESCS && ArenaHeap.Grows(h, size)
  }

  /** What the page allocator answers to a request of the heap: nothing if it is not asked, and otherwise
      what its search for a run and the number of free frames decide. */
  ghost predicate PagesAnswer(h: Heap, s: Pages, size: nat, poolSize: nat, p: MallocPages) {
    if !Asks(h, size, poolSize) then p == Nothing
    else |s.vmap| > 0 && exists first: int :: (first == -1 || first >= 0) && FirstRun(s, ArenaHeap.Need(size), first) && p == Outcome(s, ArenaHeap.Need(size), first)
  }

  ghost predicate FirstRun(s: Pages, n: nat, first: int)
    requires |s.vmap| > 0
  {
    1 <= n < MAX_PAGES ==> IsFirstFit(Searched(s.vmap, n), n, first)
  }

  /** The request needs pages, a run of virtual pages is clear for them, and there are fewer free frames. */
  ghost predicate TooFewFrames(h: Heap, s: Pages, size: nat, poolSize: nat) {
    var n := ArenaHeap.Need(size);
    && Asks(h, size, poolSize) && |Free(s.pool)| < n < MAX_PAGES
    && |s.vmap| > 0 && exists at: nat :: ClearRun(Searched(s.vmap, n), at, n)
  }

  /** That, and only that, leaves a request half done. */
  lemma HalfDone(h: Heap, s: Pages, size: nat, poolSize: nat, p: MallocPages)
    requires PagesAnswer(h, s, size, poolSize, p)
    ensures p.Partial? <==> TooFewFrames(h, s, size, poolSize)
  {
    hide Searched, Free;
    if Asks(h, size, poolSize) {
      var n := ArenaHeap.Need(size);
      var first :| (first == -1 || first >= 0) && FirstRun(s, n, first) && p == Outcome(s, n, first);
      OutcomeIs(s, n, first);
      if first != -1 && n < MAX_PAGES {
        assert ClearRun(Searched(s.vmap, n), first, n);
      }
    }
  }

  /** What a request for more than 1024 bytes gets, `n` being the smallest number of pages that hold them. From 3840
      pages on the kernel stops. Below that, and with enough free frames, it is refused exactly when no run of `n`
      virtual pages is clear. */
  ghost predicate LargeRight(s: Pages, size: nat, poolSize: nat, n: nat, r: ArenaHeap.MallocResult) {
    1024 < size < poolSize && SmallestRun(size, n) ==>
      && |s.vmap| > 0 && (r.Panics? <==> n >= 3840)
      && (n < 3840 && |Free(s.pool)| >= n ==> (r.Null? <==> forall at: nat :: !ClearRun(Searched(s.vmap, n), at, n)))
      && (n < 3840 && |Free(s.pool)| < n ==> r.Null?)
  }

  /** What any other request gets: it is refused exactly when it asks for nothing or too much, or when there is
      neither a free block of its size nor a page and a frame for more of them. */
  ghost predicate SmallRight(h: Heap, s: Pages, size: nat, poolSize: nat, r: ArenaHeap.MallocResult) {
    size <= 1024 || size >= poolSize ==>
      && !r.Panics? && |s.vmap| > 0 && |h.free| == DESCS
      && (r.Null? <==>
            || size == 0 || size >= poolSize
            || (h.free[Descriptor(size)] == [] && (Free(s.pool) == {} || forall at: nat :: !ClearRun(Searched(s.vmap, 1), at, 1))))
  }

  lemma SmallAnswer(h: Heap, s: Pages, base: nat, size: nat, poolSize: nat, p: MallocPages)
    requires |h.free| == DESCS && |s.vmap| > 0 && PagesAnswer(h, s, size, poolSize, p)
    ensures SmallRight(h, s, size, poolSize, ArenaHeap.Answer(h, size, poolSize, RunAt(base, p)))
  {
    hide Searched, Free, Block;
    if 0 < size <= 1024 && size < poolSize && h.free[Descriptor(size)] == [] {
      var first :| (first == -1 || first >= 0) && FirstRun(s, 1, first) && p == Outcome(s, 1, first);
      OutcomeIs(s, 1, first);
      if first != -1 {
        assert ClearRun(Searched(s.vmap, 1), first, 1);
      }
    }
  }

  lemma SmallestIsOne(size: nat, n: nat, m: nat)
    requires SmallestRun(size, n) && SmallestRun(size, m)
    ensures n == m
  {
  }

  lemma LargeAnswer(h: Heap, s: Pages, base: nat, size: nat, poolSize: nat, n: nat, p: MallocPages)
    requires |h.free| == DESCS && PagesAnswer(h, s, size, poolSize, p)
    ensures LargeRight(s, size, poolSize, n, ArenaHeap.Answer(h, size, poolSize, RunAt(base, p)))
  {
    hide Searched, Free;
    if 1024 < size < poolSize && SmallestRun(size, n) {
      SmallestIsOne(size, n, ArenaHeap.Need(size));
      var first :| (first == -1 || first >= 0) && FirstRun(s, n, first) && p == Outcome(s, n, first);
      OutcomeIs(s, n, first);
      if first != -1 && n < MAX_PAGES {
        assert ClearRun(Searched(s.vmap, n), first, n);
      }
    }
  }

  /** The first page the heap gets, or -1. */
  ghost function RunAt(base: nat, p: MallocPages): int {
    if p.Got? then base + p.start else -1
  }

  /** The heap of kernel threads. `start` is the state of the page allocator before the heap took anything. */
  class Heaps {
    const heap: ArenaHeap.Arenas
    const pages: PageAllocator
    ghost const start: Pages

    ghost predicate Valid()
      reads this, heap, pages, pages.tables
    {
      && ArenaHeap.Inv(heap.State()) && Consistent(pages.State()) && pages.Wired() && Consistent(start)
      && Housed(heap.State(), pages.State(), pages.base) && RestSame(heap.State(), pages.State(), start, pages.base)
    }

    constructor (pages: PageAllocator)
      requires Consistent(pages.State()) && pages.Wired()
      ensures Valid() && fresh(heap) && this.pages == pages && start == pages.State() && heap.live == map[]
    {
      this.pages, start := pages, pages.State();
      heap := new ArenaHeap.Arenas();
      new;
      ArenaHeap.AllFreed(heap.State());
      NothingOwned(heap.State(), pages.State(), pages.base);
    }

    /** Asks the page allocator, if the request needs pages. */
    method PagesNeeded(size: nat, poolSize: nat) returns (got: int, r: MallocPages)
      requires Valid()
      modifies pages, pages.tables
      ensures pages.Wired() && PagesAnswer(heap.State(), old(pages.State()), size, poolSize, r)
      ensures got == RunAt(pages.base, r)
      ensures r.Nothing? || r.Panics? ==> pages.State() == old(pages.State())
      ensures r.Partial? ==> !Consistent(pages.State())
      ensures r.Got? ==>
        var n := ArenaHeap.Need(size);
        && 1 <= n < MAX_PAGES && ClearRun(old(pages.vmap), r.start, n)
        && Mapping(old(pages.State()), pages.State(), r.start, n, n) && Consistent(pages.State())
    {
      hide HeapOk, NoneIdle, Consistent, Range, Backed, Mapping, ClearRun, Housed, RestSame, IsFirstFit, Outcome, Searched;
      FreeLists(heap.State());
      SomePages(pages.State());
      r := Nothing;
      got := -1;
      if 0 < size < poolSize {
        var small := size <= BIGGEST;
        var d := 0;
        if small {
          d := heap.FindDescriptor(size);
        }
        if !small || heap.free[d] == [] {
          var n := ArenaHeap.Need(size);
          ghost var first;
          r, first := pages.MallocPage(n);
          OutcomeIs(old(pages.State()), n, first);
          if r.Got? {
            got := pages.base + r.start;
          }
        }
      }
    }

    /** Allocates. What the heap and the page allocator answer is decided beforehand. Heap and allocator
        agree afterwards unless the allocator has left a request half done, keeping what it took; then
        the caller gets nothing. */
    method Malloc(size: nat, poolSize: nat) returns (r: ArenaHeap.MallocResult, p: MallocPages)
      requires Valid()
      modifies heap, pages, pages.tables
      ensures PagesAnswer(old(heap.State()), old(pages.State()), size, poolSize, p)
      ensures p.Partial? <==> TooFewFrames(old(heap.State()), old(pages.State()), size, poolSize)
      ensures |old(heap.free)| == DESCS && r == ArenaHeap.Answer(old(heap.State()), size, poolSize, RunAt(pages.base, p))
      ensures forall n: nat :: LargeRight(old(pages.State()), size, poolSize, n, r)
      ensures SmallRight(old(heap.State()), old(pages.State()), size, poolSize, r)
      ensures Valid() <==> !p.Partial?
      ensures r.Pointer? ==> Valid() && r.addr !in old(heap.live) && heap.live == old(heap.live)[r.addr := size]
      ensures !r.Pointer? ==> heap.State() == old(heap.State()) && (p.Partial? || pages.State() == old(pages.State()))
    {
      hide HeapOk, NoneIdle, Consistent, Range, Backed, Mapping, ClearRun, Housed, RestSame, FreshRun, OwnsPage, ArenaHeap.Answer, Tables,
        PagesAnswer, TooFewFrames, LargeRight, SmallRight;
      ghost var h, s := heap.State(), pages.State();
      FreeLists(h);
      var got;
      got, p := PagesNeeded(size, poolSize);
      ghost var n := ArenaHeap.Need(size);
      PagesAsked(h, s, size, poolSize, p);
      HalfDone(h, s, size, poolSize, p);
      if got != -1 {
        RunIsFresh(h, s, pages.base, p.start, n);
      }
      r := heap.SysMalloc(size, poolSize, got);
      AnswerIs(h, size, poolSize, got);
      SomePages(s);
      SmallAnswer(h, s, pages.base, size, poolSize, p);
      forall n: nat ensures LargeRight(s, size, poolSize, n, r) {
        LargeAnswer(h, s, pages.base, size, poolSize, n, p);
      }
      if p.Got? {
        TakenHoused(h, heap.State(), s, pages.State(), start, pages.base, p.start, n);
      } else if r.Pointer? {
        SameHoused(h, heap.State(), s, start, pages.base);
      }
    }

    /** Frees. An arena with nothing left in use goes back to the page allocator. */
    method Free(ptr: nat)
      requires Valid() && ptr in heap.live
      modifies heap, pages, pages.tables
      ensures Valid() && heap.live == old(heap.live) - {ptr}
    {
      hide HeapOk, NoneIdle, Consistent, Range, Backed, Unmapping, Housed, RestSame, OwnsPage, Tables;
      ghost var h, s := heap.State(), pages.State();
      ArenaHeap.FitsIn(h, ptr);
      var p := PageOf(ptr);
      var n := Span(heap.arenas[p]);
      heap.SysFree(ptr);
      if p in heap.arenas {
        SameHoused(h, heap.State(), s, start, pages.base);
      } else {
        ArenaPages(h, s, pages.base, p);
        SeparateOf(h);
        ArenaHeap.OwnsLess(h, heap.State(), p);
        pages.MfreePage(p - pages.base, n);
        GivenHoused(h, heap.State(), s, pages.State(), start, pages.base, p - pages.base, n);
      }
    }
  }

  lemma SeparateOf(h: Heap)
    requires HeapOk(h)
    ensures Separate(h)
  {
    hide Separate, ListsOk, ArenasOk, AllLiveOk;
  }

  /** The pages of an arena are mapped pages of the allocator. */
  lemma ArenaPages(h: Heap, s: Pages, base: nat, p: nat)
    requires HeapOk(h) && p in h.arenas && Housed(h, s, base)
    ensures Span(h.arenas[p]) >= 1 && base <= p
    ensures forall q: nat :: p <= q < p + Span(h.arenas[p]) ==> OwnsPage(h, q)
    ensures forall i :: p - base <= i < p - base + Span(h.arenas[p]) ==> i in s.table
  {
    hide Separate, ListsOk, AllLiveOk;
    SpansPositive(h);
    assert OwnsPage(h, p) && HousedAt(h, s, base, p);
    forall q: nat | p <= q < p + Span(h.arenas[p]) ensures OwnsPage(h, q) {
    }
    forall i | p - base <= i < p - base + Span(h.arenas[p]) ensures i in s.table {
      assert OwnsPage(h, base + i) && HousedAt(h, s, base, base + i);
    }
  }

  lemma NothingOwned(h: Heap, s: Pages, base: nat)
    requires h.arenas == map[]
    ensures Housed(h, s, base) && RestSame(h, s, s, base)
  {
    hide Tables;
    forall q: nat ensures HousedAt(h, s, base, q) {
    }
    forall i: nat ensures RestAt(h, s, s, base, i) {
    }
  }

  lemma FreeLists(h: Heap)
    requires ArenaHeap.Inv(h)
    ensures |h.free| == DESCS
  {
    hide Separate, ArenasOk, AllLiveOk;
  }

  lemma OutcomeIs(s: Pages, n: nat, first: int)
    requires first == -1 || first >= 0
    ensures
      var m := Outcome(s, n, first);
      && (m.Got? ==> m.start == first && 1 <= n < MAX_PAGES)
      && (m.Panics? <==> n == 0 || n >= MAX_PAGES) && (m.Partial? <==> first != -1 && |Free(s.pool)| < n < MAX_PAGES && n > 0)
  {
  }

  lemma PagesAsked(h: Heap, s: Pages, size: nat, poolSize: nat, p: MallocPages)
    requires PagesAnswer(h, s, size, poolSize, p)
    ensures !p.Nothing? ==> Asks(h, size, poolSize)
    ensures p.Got? ==> 1 <= ArenaHeap.Need(size) < MAX_PAGES
  {
    hide IsFirstFit, Searched, Free;
  }

  /** What an answer says about the pages. */
  lemma AnswerIs(h: Heap, size: nat, poolSize: nat, got: int)
    requires |h.free| == DESCS && (got == -1 || got >= 0)
    ensures
      var r := ArenaHeap.Answer(h, size, poolSize, got);
      r.Pointer? <==> 0 < size < poolSize && (ArenaHeap.Grows(h, size) ==> got >= 0 && ArenaHeap.Need(size) < MAX_PAGES)
  {
    hide Block;
  }

  // ---- sessions ----

  /** What a kernel thread does with the heap; `Give` names one of the pointers it holds. */
  datatype HeapCall = Take(size: nat) | Give(which: nat)

  /** The pointers held are those the heap has handed out. */
  ghost predicate Holds(held: seq<nat>, live: map<nat, nat>) {
    NoTwice(held) && forall p: nat :: p in held <==> p in live
  }

  lemma HoldsMore(held: seq<nat>, live: map<nat, nat>, p: nat, size: nat)
    requires Holds(held, live) && p !in live
    ensures Holds(held + [p], live[p := size])
  {
  }

  lemma HoldsLess(held: seq<nat>, live: map<nat, nat>, k: nat)
    requires Holds(held, live) && k < |held|
    ensures held[k] in live && Holds(held[..k] + held[k + 1..], live - {held[k]})
  {
    var rest := held[..k] + held[k + 1..];
    forall p: nat ensures p in rest <==> p in live - {held[k]} {
      if p in held && p != held[k] {
        var i :| 0 <= i < |held| && held[i] == p;
        assert rest[if i < k then i else i - 1] == p;
      }
    }
  }

  /** Gives back every pointer held: the page allocator is then as it was before the heap took anything. */
  method FreeAll(h: Heaps, held: seq<nat>)
    requires h.Valid() && Holds(held, h.heap.live)
    modifies h.heap, h.pages, h.pages.tables
    ensures h.Valid() && h.heap.live == map[] && h.pages.State() == h.start
  {
    hide HeapOk, NoneIdle, Consistent, Range, Backed, Housed, RestSame;
    var left := held;
    while left != []
      invariant h.Valid() && Holds(left, h.heap.live)
      decreases |left|
    {
      HoldsLess(left, h.heap.live, 0);
      assert left[..0] + left[1..] == left[1..];
      h.Free(left[0]);
      left := left[1..];
    }
    assert h.heap.live == map[];
    EverythingBack(h.heap.State(), h.pages.State(), h.start, h.pages.base);
  }

  /** Any sequence of calls, and at its end every pointer given back: the page allocator is as it was, both
      bitmaps, every mapping and every owner. The sequence is cut short only by a request the allocator leaves
      half done, in the state `g`, `s`. */
  method Session(h: Heaps, calls: seq<HeapCall>, poolSize: nat) returns (done: nat, ghost g: Heap, ghost s: Pages)
    requires h.Valid() && h.heap.live == map[]
    modifies h.heap, h.pages, h.pages.tables
    ensures done <= |calls|
    ensures done == |calls| ==> h.Valid() && h.heap.live == map[] && h.pages.State() == h.start
    ensures done < |calls| ==> ArenaHeap.Inv(g) && Consistent(s) && calls[done].Take? && TooFewFrames(g, s, calls[done].size, poolSize)
  {
    hide HeapOk, NoneIdle, Consistent, Range, Backed, Housed, RestSame, PagesAnswer, ArenaHeap.Answer, TooFewFrames;
    var held := [];
    done, g, s := 0, h.heap.State(), h.pages.State();
    while done < |calls|
      invariant done <= |calls| && h.Valid() && Holds(held, h.heap.live)
    {
      g, s := h.heap.State(), h.pages.State();
      match calls[done] {
        case Take(size) =>
          var r, p := h.Malloc(size, poolSize);
          if p.Partial? {
            return;
          }
          if r.Pointer? {
            HoldsMore(held, g.live, r.addr, size);
            held := held + [r.addr];
          }
        case Give(which) =>
          if held != [] {
            var k := which % |held|;
            HoldsLess(held, g.live, k);
            h.Free(held[k]);
            held := held[..k] + held[k + 1..];
          }
      }
      done := done + 1;
    }
    FreeAll(h, held);
  }
}
