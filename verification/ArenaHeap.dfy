/** The heap of the kernel or of one process. */
module ArenaHeap {
  import opened Queues
  import opened FiniteSets
  import opened HeapStates
  import opened HeapFrames
  import opened HeapProofs

  const MAX_PAGES := 3840

  datatype MallocResult = Null | Pointer(addr: nat) | Panics

  /** Pages a request asks the page allocator for, if it asks. */
  function Need(size: nat): nat {
    if size > BIGGEST then PagesFor(size) else 1
  }

  /** What a request gets; `got` is the first page of the run the page allocator has for it, or -1. */
  ghost function Answer(h: Heap, size: nat, poolSize: nat, got: int): MallocResult
    requires |h.free| == DESCS && (got == -1 || got >= 0)
  {
    if size == 0 || size >= poolSize then Null
    else if size > BIGGEST then
      if PagesFor(size) >= MAX_PAGES then Panics
      else if got == -1 then Null else Pointer(PAGE * got + HEADER)
    else
      var d := Descriptor(size);
      if h.free[d] != [] then Pointer(h.free[d][0])
      else if got == -1 then Null else Pointer(Block(got, d, 0))
  }

  /** Whether a request asks the page allocator. */
  ghost predicate Grows(h: Heap, size: nat)
    requires |h.free| == DESCS
  {
    size > BIGGEST || h.free[Descriptor(size)] == []
  }

  ghost predicate Inv(h: Heap) {
    HeapOk(h) && NoneIdle(h)
  }

  /** What is handed out lies inside its arena, behind the header. */
  lemma FitsIn(h: Heap, b: nat)
    requires HeapOk(h) && b in h.live
    ensures PageOf(b) in h.arenas && b >= PAGE * PageOf(b) + HEADER
    ensures b + h.live[b] <= PAGE * (PageOf(b) + Span(h.arenas[PageOf(b)]))
  {
    hide Block, PerArena, Separate, ListsOk, IsBlock, FreeIdx;
    assert LiveOk(h, b) && ArenaOk(h, PageOf(b));
    var p := PageOf(b);
    if h.arenas[p].Small? {
      var i := LiveBlock(h, b);
      BlockInside(p, h.arenas[p].desc, i);
      assert BlockOk(h, p, h.arenas[p].desc, i);
    }
  }

  /** Memory handed out to two callers does not overlap. */
  lemma LiveDisjoint(h: Heap, b: nat, c: nat)
    requires HeapOk(h) && b in h.live && c in h.live && b < c
    ensures b + h.live[b] <= c
  {
    hide Block, PerArena, ListsOk, ArenasOk, AllLiveOk;
    FitsIn(h, b);
    FitsIn(h, c);
    if PageOf(b) == PageOf(c) {
      SamePage(h, b, c);
    } else {
      assert Beside(h, PageOf(b), PageOf(c));
    }
  }

  lemma SamePage(h: Heap, b: nat, c: nat)
    requires HeapOk(h) && b in h.live && c in h.live && b < c && PageOf(b) == PageOf(c)
    ensures b + h.live[b] <= c
  {
    hide Block, PerArena, Separate, ListsOk, IsBlock, FreeIdx;
    assert LiveOk(h, b) && LiveOk(h, c);
    var p := PageOf(b);
    if h.arenas[p].Small? {
      var d := h.arenas[p].desc;
      var i := LiveBlock(h, b);
      var j := LiveBlock(h, c);
      assert BlockOk(h, p, d, i);
      if j < i {
        BlocksApart(p, d, j, i);
      } else if i < j {
        BlocksApart(p, d, i, j);
      }
    }
  }

  /** A free block lies inside its arena's page, behind the header. */
  lemma FreeBlock(h: Heap, d: nat, c: nat) returns (j: nat)
    requires HeapOk(h) && d < DESCS && c in h.free[d]
    ensures PageOf(c) in h.arenas && h.arenas[PageOf(c)].Small? && h.arenas[PageOf(c)].desc == d
    ensures j < PerArena(d) && c == Block(PageOf(c), d, j)
    ensures PAGE * PageOf(c) + HEADER <= c && c + BlockSize(d) <= PAGE * (PageOf(c) + 1)
  {
    hide Separate, ArenasOk, AllLiveOk, Block, PerArena;
    assert FreeOk(h, d, c) && IsBlock(d, c);
    j :| 0 <= j < PerArena(d) && c == Block(PageOf(c), d, j);
    BlockInside(PageOf(c), d, j);
  }

  /** Memory handed out does not meet a free block, so neither the links kept in free blocks nor what
      a caller stores can damage the other. */
  lemma LiveBesideFree(h: Heap, b: nat, d: nat, c: nat)
    requires HeapOk(h) && b in h.live && d < DESCS && c in h.free[d]
    ensures b + h.live[b] <= c || c + BlockSize(d) <= b
  {
    hide Block, PerArena, Separate, ArenasOk, AllLiveOk, ListsOk;
    FitsIn(h, b);
    var j := FreeBlock(h, d, c);
    if PageOf(b) == PageOf(c) {
      LiveFreeSamePage(h, b, d, c, j);
    } else {
      ArenasBeside(h, PageOf(b), PageOf(c));
    }
  }

  lemma ArenasBeside(h: Heap, p: nat, q: nat)
    requires HeapOk(h) && p in h.arenas && q in h.arenas && p != q
    ensures p + Span(h.arenas[p]) <= q || q + Span(h.arenas[q]) <= p
  {
    hide ArenasOk, AllLiveOk, ListsOk;
    assert Beside(h, p, q);
  }

  lemma LiveFreeSamePage(h: Heap, b: nat, d: nat, c: nat, j: nat)
    requires HeapOk(h) && b in h.live && d < DESCS && c in h.free[d] && PageOf(b) == PageOf(c)
    requires PageOf(c) in h.arenas && h.arenas[PageOf(c)].Small? && h.arenas[PageOf(c)].desc == d
    requires j < PerArena(d) && c == Block(PageOf(c), d, j)
    ensures b + h.live[b] <= c || c + BlockSize(d) <= b
  {
    hide Block, PerArena, Separate, ListsOk, IsBlock, FreeIdx;
    assert LiveOk(h, b) && ArenaOk(h, PageOf(b));
    var i := LiveBlock(h, b);
    assert BlockOk(h, PageOf(b), d, i) && BlockOk(h, PageOf(b), d, j);
    if i < j {
      BlocksApart(PageOf(b), d, i, j);
    } else if j < i {
      BlocksApart(PageOf(b), d, j, i);
    }
  }

  /** Memory handed out does not meet the header of any arena. */
  lemma LiveBesideHeaders(h: Heap, b: nat, q: nat)
    requires HeapOk(h) && b in h.live && q in h.arenas
    ensures PAGE * q + HEADER <= b || b + h.live[b] <= PAGE * q
  {
    hide Block, PerArena, Separate, ArenasOk, AllLiveOk, ListsOk;
    FitsIn(h, b);
    if PageOf(b) != q {
      ArenasBeside(h, PageOf(b), q);
    }
  }

  /** Free blocks do not meet the header of any arena either. */
  lemma FreeBesideHeaders(h: Heap, d: nat, c: nat, q: nat)
    requires HeapOk(h) && d < DESCS && c in h.free[d] && q in h.arenas
    ensures PAGE * q + HEADER <= c || c + BlockSize(d) <= PAGE * q
  {
    hide Block, PerArena, Separate, ArenasOk, AllLiveOk, ListsOk;
    var j := FreeBlock(h, d, c);
    if PageOf(c) != q {
      ArenasBeside(h, PageOf(c), q);
    }
  }

  /** Two free blocks, of the same list or of different ones, do not overlap. */
  lemma FreeDisjoint(h: Heap, d: nat, c: nat, e: nat, f: nat)
    requires HeapOk(h) && d < DESCS && e < DESCS && c in h.free[d] && f in h.free[e] && c < f
    ensures c + BlockSize(d) <= f
  {
    hide Block, PerArena, Separate, ArenasOk, AllLiveOk, ListsOk;
    var i := FreeBlock(h, d, c);
    var j := FreeBlock(h, e, f);
    if PageOf(c) != PageOf(f) {
      ArenasBeside(h, PageOf(c), PageOf(f));
    } else if i < j {
      BlocksApart(PageOf(c), d, i, j);
    } else if j < i {
      BlocksApart(PageOf(c), d, j, i);
    }
  }

  /** When everything has been freed, every page has been given back. */
  lemma AllFreed(h: Heap)
    requires Inv(h) && h.live == map[]
    ensures h.arenas == map[] && forall d :: 0 <= d < DESCS ==> h.free[d] == []
  {
    hide Block, PerArena, Separate, AllLiveOk;
    forall p ensures p !in h.arenas {
      assert ArenaOk(h, p);
      if p in h.arenas && h.arenas[p].Small? {
        AllBlocksFree(h, p);
      }
    }
    assert h.arenas == map[];
    forall d | 0 <= d < DESCS ensures h.free[d] == [] {
      HeadIn(h.free[d]);
      forall b ensures b !in h.free[d] {
        assert FreeOk(h, d, b);
      }
    }
  }

  lemma HeadIn(list: seq<nat>)
    ensures list == [] || list[0] in list
  {
  }

  lemma AllBlocksFree(h: Heap, p: nat)
    requires HeapOk(h) && h.live == map[] && p in h.arenas && h.arenas[p].Small?
    ensures h.arenas[p].desc < DESCS && h.arenas[p].cnt == PerArena(h.arenas[p].desc)
  {
    hide Block, PerArena, Separate, AllLiveOk, ListsOk;
    assert ArenaOk(h, p);
    var d := h.arenas[p].desc;
    forall i: nat | i < PerArena(d) ensures Block(p, d, i) in h.free[d] {
      assert BlockOk(h, p, d, i);
    }
    assert FreeIdx(h.free[d], p, d) == RunOf(0, PerArena(d));
  }

  lemma SweptStep(list: seq<nat>, left: seq<nat>, p: nat, d: nat, i: nat)
    requires d < DESCS && NoTwice(list) && Swept(list, left, p, d, i)
    ensures Swept(list, Without(left, Block(p, d, i)), p, d, i + 1)
  {
    hide Block, Without, NoTwice;
    WithoutHas(left, Block(p, d, i));
    forall b ensures b in Without(left, Block(p, d, i)) <==> b in list && !(exists k: nat :: k < i + 1 && b == Block(p, d, k)) {
      assert (exists k: nat :: k < i + 1 && b == Block(p, d, k)) <==> (exists k: nat :: k < i && b == Block(p, d, k)) || b == Block(p, d, i);
    }
  }

  lemma {:induction false} PurgedNone(list: seq<nat>, p: nat, d: nat)
    requires d < DESCS
    ensures Purged(list, p, d, 0) == list
  {
    if list != [] {
      PurgedNone(list[1..], p, d);
    }
  }

  lemma AmongStep(p: nat, d: nat, n: nat, b: nat)
    requires d < DESCS
    ensures AmongFirst(p, d, n + 1, b) <==> AmongFirst(p, d, n, b) || b == Block(p, d, n)
    ensures !AmongFirst(p, d, n, Block(p, d, n))
  {
    hide Block;
    if AmongFirst(p, d, n, Block(p, d, n)) {
      var i: nat :| i < n && Block(p, d, n) == Block(p, d, i);
      SameIndex(p, d, n, i);
    }
  }

  /** Blocks that are not there need not be taken out. */
  lemma {:induction false} PurgedSame(list: seq<nat>, p: nat, d: nat, n: nat)
    requires d < DESCS && Block(p, d, n) !in list
    ensures Purged(list, p, d, n + 1) == Purged(list, p, d, n)
  {
    hide Block, AmongFirst;
    if list != [] {
      PurgedSame(list[1..], p, d, n);
      AmongStep(p, d, n, list[0]);
    }
  }

  lemma {:induction false} PurgedStep(list: seq<nat>, p: nat, d: nat, n: nat)
    requires d < DESCS && NoTwice(list)
    ensures Without(Purged(list, p, d, n), Block(p, d, n)) == Purged(list, p, d, n + 1)
  {
    hide Block, AmongFirst;
    if list != [] {
      AmongStep(p, d, n, list[0]);
      if list[0] == Block(p, d, n) {
        PurgedSame(list[1..], p, d, n);
        assert Purged(list, p, d, n)[1..] == Purged(list[1..], p, d, n);
      } else {
        PurgedStep(list[1..], p, d, n);
        if AmongFirst(p, d, n, list[0]) {
          assert Purged(list, p, d, n) == Purged(list[1..], p, d, n);
          assert Purged(list, p, d, n + 1) == Purged(list[1..], p, d, n + 1);
        } else {
          assert Purged(list, p, d, n)[1..] == Purged(list[1..], p, d, n);
        }
      }
    }
  }

  /** All blocks of an arena are the blocks of its page. */
  lemma {:induction false} PurgedPage(list: seq<nat>, p: nat, d: nat)
    requires d < DESCS && forall b :: b in list ==> (PageOf(b) == p <==> AmongFirst(p, d, PerArena(d), b))
    ensures Purged(list, p, d, PerArena(d)) == OffPage(list, p)
  {
    hide PageOf, AmongFirst, PerArena;
    if list != [] {
      PurgedPage(list[1..], p, d);
    }
  }

  lemma PageBlocks(h: Heap, p: nat, d: nat, b: nat)
    requires HeapOk(h) && d < DESCS && b in h.free[d]
    ensures PageOf(b) == p <==> AmongFirst(p, d, PerArena(d), b)
  {
    hide Separate, ArenasOk, AllLiveOk, Block, PerArena;
    assert FreeOk(h, d, b);
    if AmongFirst(p, d, PerArena(d), b) {
      var i: nat :| i < PerArena(d) && b == Block(p, d, i);
      BlockInside(p, d, i);
    }
  }

  lemma {:induction false} OffPageLast(list: seq<nat>, b: nat)
    ensures OffPage(list + [b], PageOf(b)) == OffPage(list, PageOf(b))
  {
    hide PageOf;
    if list == [] {
      assert list + [b] == [b];
    } else {
      OffPageLast(list[1..], b);
      assert (list + [b])[1..] == list[1..] + [b];
    }
  }

  class Arenas {
    var arenas: map<nat, Arena>
    var free: seq<seq<nat>>
    ghost var live: map<nat, nat>

    ghost function State(): Heap
      reads this
    {
      Heap(arenas, free, live)
    }

    /** A fresh set of descriptors. */
    constructor ()
      ensures Inv(State()) && live == map[]
    {
      arenas, free, live := map[], [[], [], [], [], [], [], []], map[];
    }

    method FindDescriptor(size: nat) returns (d: nat)
      requires size <= BIGGEST
      ensures d == Descriptor(size)
    {
      d := 0;
      while d < DESCS && size > BlockSize(d)
        invariant d < DESCS && forall e :: 0 <= e < d ==> BlockSize(e) < size
        decreases DESCS - d
      {
        d := d + 1;
      }
    }

    /** Splits page `p` into blocks of kind `d`. */
    method Split(p: nat, d: nat)
      requires HeapOk(State()) && FreshRun(State(), p, 1) && d < DESCS && free[d] == []
      modifies this
      ensures State() == Grown(old(State()), p, d) && HeapOk(State())
    {
      ghost var h := State();
      GrowOk(h, p, d);
      hide HeapOk, FreshRun, Block, PerArena;
      ListsLen(h);
      arenas := arenas[p := Small(d, PerArena(d))];
      var i := 0;
      while i < PerArena(d)
        invariant i <= PerArena(d) && |free| == DESCS && free == h.free[d := Blocks(p, d, i)]
        invariant live == h.live && arenas == h.arenas[p := Small(d, PerArena(d))]
      {
        var b := Block(p, d, i);
        forall j | 0 <= j < i ensures free[d][j] != b {
          SameIndex(p, d, j, i);
        }
        assert b !in free[d];
        assert Blocks(p, d, i) + [b] == Blocks(p, d, i + 1);
        free := free[d := free[d] + [b]];
        i := i + 1;
      }
      assert h.free[d] + Blocks(p, d, i) == Blocks(p, d, i);
    }

    /** `got` is the first page of a run of `Need(size)` pages that are not the heap's, or -1. */
    method SysMalloc(size: nat, poolSize: nat, got: int) returns (r: MallocResult)
      requires Inv(State()) && (got == -1 || (got >= 0 && FreshRun(State(), got, Need(size))))
      modifies this
      ensures Inv(State())
      ensures |old(free)| == DESCS && r == Answer(old(State()), size, poolSize, got)
      ensures r.Pointer? ==> r.addr !in old(live) && live == old(live)[r.addr := size]
      ensures !r.Pointer? ==> State() == old(State())
      ensures r.Pointer? && size > BIGGEST ==>
        got >= 0 && free == old(free) && exists n: nat :: SmallestRun(size, n) && arenas == old(arenas)[got := Large(n)]
      ensures r.Pointer? && size <= BIGGEST ==>
        var d := Descriptor(size);
        var list := if old(free)[d] != [] then old(free)[d] else Blocks(got, d, PerArena(d));
        list != [] && r.addr == list[0] && free == old(free)[d := list[1..]]
      ensures r.Pointer? ==> forall q: nat :: OwnsPage(State(), q) <==>
                OwnsPage(old(State()), q) || (Grows(old(State()), size) && got <= q < got + Need(size))
    {
      hide HeapOk, FreshRun, Block, PerArena, NoneIdle, OwnsPage;
      ghost var h := State();
      ListsLen(h);
      if !(size > 0 && size < poolSize) {
        return Null;
      }
      if size > BIGGEST {
        var n := PagesFor(size);
        if n >= MAX_PAGES {
          return Panics;
        }
        if got == -1 {
          return Null;
        }
        TakeRunOk(h, got, n, size);
        RunNotIdle(h, got, n, size);
        FreshKey(h, got, n);
        OwnsMore(h, TakenRun(h, got, n, size), got, Large(n));
        arenas := arenas[got := Large(n)];
        live := live[PAGE * got + HEADER := size];
        return Pointer(PAGE * got + HEADER);
      }
      var d := FindDescriptor(size);
      if free[d] == [] {
        if got == -1 {
          return Null;
        }
        Split(got, d);
        FreshKey(h, got, 1);
        OwnsMore(h, State(), got, Small(d, PerArena(d)));
        assert h.free[d] + Blocks(got, d, PerArena(d)) == Blocks(got, d, PerArena(d));
      }
      ghost var lists := free;
      r := Pop(d, size, h, got);
      assert lists[d := lists[d][1..]] == h.free[d := lists[d][1..]];
    }

    /** Hands out the first free block; the lists may just have been refilled. */
    method Pop(d: nat, size: nat, ghost h: Heap, ghost got: int) returns (r: MallocResult)
      requires HeapOk(State()) && d < DESCS && |free| == DESCS && free[d] != [] && size <= BlockSize(d)
      requires NoneIdle(h) && |h.free| == DESCS
      requires (State() == h || (got >= 0 && h.free[d] == [] && State() == Grown(h, got, d)))
      modifies this
      ensures Inv(State()) && r == Pointer(old(free[d][0])) && free == old(free)[d := old(free[d])[1..]]
      ensures r.addr !in old(live) && live == old(live)[r.addr := size]
      ensures forall q: nat :: OwnsPage(State(), q) <==> OwnsPage(old(State()), q)
    {
      hide HeapOk, Block, PerArena, OwnsPage;
      ghost var g := State();
      ghost var i := HeadOf(g, d);
      TakeOk(g, d, size);
      var b := free[d][0];
      free := free[d := free[d][1..]];
      live := live[b := size];
      var a := arenas[PageOf(b)];
      arenas := arenas[PageOf(b) := a.(cnt := a.cnt - 1)];
      PopNotIdle(h, g, d, got, size);
      OwnsSame(g, State(), PageOf(b));
      r := Pointer(b);
    }

    /** Takes memory back: a block joins the end of its free list. An arena left without a block in use is given up;
        its blocks leave the list and all others keep their order. */
    method SysFree(ptr: nat)
      requires Inv(State()) && ptr in live
      modifies this
      ensures Inv(State()) && live == old(live) - {ptr}
      ensures PageOf(ptr) in old(arenas) && (old(arenas[PageOf(ptr)]).Large? ==> PageOf(ptr) !in arenas)
      ensures PageOf(ptr) !in arenas ==> arenas == old(arenas) - {PageOf(ptr)}
      ensures |old(free)| == DESCS && (old(arenas[PageOf(ptr)]).Large? ==> free == old(free))
      ensures old(arenas[PageOf(ptr)]).Small? ==>
        var d := old(arenas[PageOf(ptr)]).desc;
        && d < DESCS && (PageOf(ptr) in arenas ==> free == old(free)[d := old(free)[d] + [ptr]])
        && (PageOf(ptr) !in arenas ==> free == old(free)[d := OffPage(old(free)[d], PageOf(ptr))])
        && (PageOf(ptr) !in arenas <==> old(arenas[PageOf(ptr)]).cnt + 1 == PerArena(d))
      ensures PageOf(ptr) in arenas ==> forall q: nat :: OwnsPage(State(), q) <==> OwnsPage(old(State()), q)
    {
      hide HeapOk, Block, PerArena, NoneIdle, OwnsPage;
      ghost var h := State();
      FitsIn(h, ptr);
      ListsLen(h);
      var p := PageOf(ptr);
      var a := arenas[p];
      if a.Large? {
        FreeRunOk(h, ptr);
        LessNotIdle(h, Heap(h.arenas - {p}, h.free, h.live - {ptr}), p);
        arenas := arenas - {p};
        live := live - {ptr};
      } else {
        ghost var i := LiveBlock(h, ptr);
        ReturnOk(h, ptr);
        OffPageLast(free[a.desc], ptr);
        free := free[a.desc := free[a.desc] + [ptr]];
        live := live - {ptr};
        arenas := arenas[p := a.(cnt := a.cnt + 1)];
        if a.cnt + 1 == PerArena(a.desc) {
          Sweep(p, a.desc);
          LessNotIdle(h, State(), p);
        } else {
          CountBound(State(), p);
          MoreNotIdle(h, State(), p);
          OwnsSame(h, State(), p);
        }
      }
    }

    /** Unlinks all blocks of an idle arena and gives its page up. */
    method Sweep(p: nat, d: nat)
      requires HeapOk(State()) && d < DESCS && p in arenas && arenas[p] == Small(d, PerArena(d))
      modifies this
      ensures HeapOk(State()) && live == old(live) && arenas == old(arenas) - {p}
      ensures |old(free)| == DESCS && free == old(free)[d := OffPage(old(free[d]), p)]
    {
      hide HeapOk, Block, PerArena, Swept, Without, NoTwice, Purged, OffPage;
      ghost var h := State();
      ListsLen(h);
      IdleArena(h, p);
      ListNoTwice(h, d);
      SweptNone(h.free[d], p, d);
      PurgedNone(h.free[d], p, d);
      var i := 0;
      while i < PerArena(d)
        invariant i <= PerArena(d) && |free| == DESCS && free == h.free[d := free[d]]
        invariant free[d] == Purged(h.free[d], p, d, i)
        invariant Swept(h.free[d], free[d], p, d, i) && arenas == h.arenas && live == h.live
      {
        var b := Block(p, d, i);
        StillThere(h.free[d], free[d], p, d, i);
        assert b in free[d];
        SweptStep(h.free[d], free[d], p, d, i);
        PurgedStep(h.free[d], p, d, i);
        free := free[d := Without(free[d], b)];
        i := i + 1;
      }
      SweptOk(h, p, d, free[d]);
      forall b | b in h.free[d] ensures PageOf(b) == p <==> AmongFirst(p, d, PerArena(d), b) {
        PageBlocks(h, p, d, b);
      }
      PurgedPage(h.free[d], p, d);
      arenas := arenas - {p};
    }
  }

  lemma FreshKey(h: Heap, p: nat, n: nat)
    requires HeapOk(h) && FreshRun(h, p, n)
    ensures p !in h.arenas
  {
    SpansPositive(h);
    NotThere(h, p, n);
  }

  /** The pages of a heap with one arena more. */
  lemma OwnsMore(h: Heap, g: Heap, p: nat, a: Arena)
    requires g.arenas == h.arenas[p := a] && p !in h.arenas
    ensures forall q: nat :: OwnsPage(g, q) <==> OwnsPage(h, q) || p <= q < p + Span(a)
  {
    forall q: nat ensures OwnsPage(g, q) <==> OwnsPage(h, q) || p <= q < p + Span(a) {
      if OwnsPage(h, q) {
        var k :| k in h.arenas && k <= q < k + Span(h.arenas[k]);
        assert k in g.arenas && g.arenas[k] == h.arenas[k];
      }
      if p <= q < p + Span(a) {
        assert p in g.arenas;
      }
    }
  }

  /** A change of counters does not change the pages. */
  lemma OwnsSame(h: Heap, g: Heap, p: nat)
    requires p in h.arenas && p in g.arenas && g.arenas == h.arenas[p := g.arenas[p]] && Span(g.arenas[p]) == Span(h.arenas[p])
    ensures forall q: nat :: OwnsPage(g, q) <==> OwnsPage(h, q)
  {
    forall q: nat ensures OwnsPage(g, q) <==> OwnsPage(h, q) {
      if OwnsPage(h, q) {
        var k :| k in h.arenas && k <= q < k + Span(h.arenas[k]);
        assert k in g.arenas && Span(g.arenas[k]) == Span(h.arenas[k]);
      }
      if OwnsPage(g, q) {
        var k :| k in g.arenas && k <= q < k + Span(g.arenas[k]);
        assert k in h.arenas && Span(g.arenas[k]) == Span(h.arenas[k]);
      }
    }
  }

  /** The pages of a heap with one arena less. */
  lemma OwnsLess(h: Heap, g: Heap, p: nat)
    requires Separate(h) && p in h.arenas && g.arenas == h.arenas - {p}
    ensures forall q: nat :: OwnsPage(g, q) <==> OwnsPage(h, q) && !(p <= q < p + Span(h.arenas[p]))
  {
    forall q: nat ensures OwnsPage(g, q) <==> OwnsPage(h, q) && !(p <= q < p + Span(h.arenas[p])) {
      if OwnsPage(h, q) && !(p <= q < p + Span(h.arenas[p])) {
        var k :| k in h.arenas && k <= q < k + Span(h.arenas[k]);
        assert k in g.arenas;
      }
      if OwnsPage(g, q) {
        var k :| k in g.arenas && k <= q < k + Span(g.arenas[k]);
        assert k in h.arenas && Beside(h, p, k);
      }
    }
  }

  lemma StillThere(list: seq<nat>, left: seq<nat>, p: nat, d: nat, i: nat)
    requires d < DESCS && Swept(list, left, p, d, i) && Block(p, d, i) in list
    ensures Block(p, d, i) in left
  {
    hide Block;
    forall k: nat | k < i ensures Block(p, d, i) != Block(p, d, k) {
      SameIndex(p, d, i, k);
    }
  }

  lemma SweptNone(list: seq<nat>, p: nat, d: nat)
    requires d < DESCS
    ensures Swept(list, list, p, d, 0)
  {
  }

  lemma ListNoTwice(h: Heap, d: nat)
    requires HeapOk(h) && d < DESCS
    ensures NoTwice(h.free[d])
  {
  }

  lemma RunNotIdle(h: Heap, p: nat, n: nat, size: nat)
    requires NoneIdle(h)
    ensures NoneIdle(TakenRun(h, p, n, size))
  {
  }

  lemma LessNotIdle(h: Heap, g: Heap, p: nat)
    requires NoneIdle(h) && forall q :: q in g.arenas ==> q in h.arenas && q != p && g.arenas[q] == h.arenas[q]
    ensures NoneIdle(g)
  {
    hide PerArena;
  }

  lemma MoreNotIdle(h: Heap, g: Heap, p: nat)
    requires NoneIdle(h) && g.arenas.Keys == h.arenas.Keys && p in g.arenas && forall q :: q in h.arenas && q != p ==> g.arenas[q] == h.arenas[q]
    requires g.arenas[p].Small? ==> g.arenas[p].desc < DESCS && g.arenas[p].cnt < PerArena(g.arenas[p].desc)
    ensures NoneIdle(g)
  {
    hide PerArena;
  }

  /** An arena never counts more free blocks than it has blocks. */
  lemma CountBound(h: Heap, p: nat)
    requires HeapOk(h) && p in h.arenas && h.arenas[p].Small?
    ensures h.arenas[p].desc < DESCS && h.arenas[p].cnt <= PerArena(h.arenas[p].desc)
  {
    hide Block, PerArena, Separate, AllLiveOk, ListsOk;
    assert ArenaOk(h, p);
    var d := h.arenas[p].desc;
    SubsetSize(FreeIdx(h.free[d], p, d), RunOf(0, PerArena(d)));
  }

  lemma PopNotIdle(h: Heap, g: Heap, d: nat, got: int, size: nat)
    requires HeapOk(g) && NoneIdle(h) && |h.free| == |g.free| == DESCS && d < DESCS && g.free[d] != []
    requires g == h || (got >= 0 && h.free[d] == [] && g == Grown(h, got, d))
    requires
      var b := g.free[d][0];
      PageOf(b) in g.arenas && g.arenas[PageOf(b)].Small? && g.arenas[PageOf(b)].cnt >= 1
    ensures NoneIdle(Taken(g, d, size))
  {
    hide HeapOk, Block, PerArena;
    if g != h {
      BlockInside(got, d, 0);
      assert g.free[d][0] == Block(got, d, 0);
    }
  }
}
