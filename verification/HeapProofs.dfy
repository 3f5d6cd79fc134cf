/** Every operation on arenas and free lists keeps the heap consistent. */
module HeapProofs {
  import opened Queues
  import opened FiniteSets
  import opened HeapStates
  import opened HeapFrames

  /** A block lies inside its page, behind the header. */
  lemma BlockInside(p: nat, d: nat, i: nat)
    requires d < DESCS && i < PerArena(d)
    ensures PageOf(Block(p, d, i)) == p
    ensures PAGE * p + HEADER <= Block(p, d, i) && Block(p, d, i) + BlockSize(d) <= PAGE * p + PAGE
  {
    assert i * BlockSize(d) + BlockSize(d) <= PerArena(d) * BlockSize(d) <= PAGE - HEADER;
  }

  /** Different blocks of an arena do not overlap. */
  lemma BlocksApart(p: nat, d: nat, i: nat, j: nat)
    requires d < DESCS && i < j
    ensures Block(p, d, i) + BlockSize(d) <= Block(p, d, j)
  {
    assert (j - i - 1) * BlockSize(d) >= 0;
    assert j * BlockSize(d) - i * BlockSize(d) == (j - i - 1) * BlockSize(d) + BlockSize(d);
  }

  lemma IsBlockAt(p: nat, d: nat, i: nat)
    requires d < DESCS && i < PerArena(d)
    ensures IsBlock(d, Block(p, d, i))
  {
    BlockInside(p, d, i);
  }

  lemma SmallKept(h: Heap, g: Heap, q: nat, d: nat, cnt: nat)
    requires SmallOk(h, q, d, cnt) && |g.free| == DESCS && forall i: nat :: SameBlock(h, g, q, d, i)
    ensures SmallOk(g, q, d, cnt)
  {
    hide Block, PerArena;
    forall i: nat ensures BlockOk(g, q, d, i) {
      assert BlockOk(h, q, d, i) && SameBlock(h, g, q, d, i);
    }
    forall i: nat ensures i in FreeIdx(g.free[d], q, d) <==> i in FreeIdx(h.free[d], q, d) {
      assert SameBlock(h, g, q, d, i);
    }
    assert FreeIdx(g.free[d], q, d) == FreeIdx(h.free[d], q, d);
  }

  /** Arenas in other pages are not affected by what happens in page `p`. */
  lemma ArenaKept(h: Heap, g: Heap, p: nat, q: nat)
    requires ArenaOk(h, q) && SameElsewhere(h, g, p) && q != p
    ensures ArenaOk(g, q)
  {
    hide Block, PerArena, SmallOk;
    if q in h.arenas {
      match h.arenas[q]
      case Small(d, cnt) =>
        DescOf(h, q);
        forall i: nat ensures SameBlock(h, g, q, d, i) {
          if i < PerArena(d) {
            BlockInside(q, d, i);
          }
        }
        SmallKept(h, g, q, d, cnt);
      case Large(pages) =>
        assert PageOf(PAGE * q + HEADER) == q;
    }
  }

  lemma DescOf(h: Heap, q: nat)
    requires ArenaOk(h, q) && q in h.arenas && h.arenas[q].Small?
    ensures h.arenas[q].desc < DESCS && |h.free| == DESCS
  {
  }

  lemma ArenasKept(h: Heap, g: Heap, p: nat)
    requires ArenasOk(h) && SameElsewhere(h, g, p) && ArenaOk(g, p)
    ensures ArenasOk(g)
  {
    hide ArenaOk, SameElsewhere;
    forall q ensures ArenaOk(g, q) {
      assert ArenaOk(h, q);
      if q != p {
        ArenaKept(h, g, p, q);
      }
    }
  }

  lemma SeparateKept(h: Heap, g: Heap, p: nat)
    requires Separate(h) && g.arenas.Keys == h.arenas.Keys
    requires (forall q :: q in h.arenas ==> Span(g.arenas[q]) == Span(h.arenas[q]))
    ensures Separate(g)
  {
    forall a, b ensures Beside(g, a, b) {
      assert Beside(h, a, b);
    }
  }

  lemma SeparateAdded(h: Heap, g: Heap, p: nat, n: nat)
    requires Separate(h) && FreshRun(h, p, n) && p !in h.arenas && g.arenas.Keys == h.arenas.Keys + {p}
    requires p in g.arenas && Span(g.arenas[p]) == n
    requires forall q :: q in h.arenas ==> q in g.arenas && g.arenas[q] == h.arenas[q] && Span(h.arenas[q]) >= 1
    ensures Separate(g)
  {
    forall a, b ensures Beside(g, a, b) {
      assert Beside(h, a, b);
      if a == p && b in h.arenas {
        RunBeside(h, p, n, b);
      } else if b == p && a in h.arenas {
        RunBeside(h, p, n, a);
      }
    }
  }

  lemma NotThere(h: Heap, p: nat, n: nat)
    requires FreshRun(h, p, n) && forall q :: q in h.arenas ==> Span(h.arenas[q]) >= 1
    ensures p !in h.arenas
  {
    assert p in h.arenas ==> OwnsPage(h, p);
  }

  lemma RunBeside(h: Heap, p: nat, n: nat, q: nat)
    requires FreshRun(h, p, n) && q in h.arenas && Span(h.arenas[q]) >= 1
    ensures p + n <= q || q + Span(h.arenas[q]) <= p
  {
    if p <= q < p + n {
      assert OwnsPage(h, q);
    } else if q < p {
      assert q <= p < q + Span(h.arenas[q]) ==> OwnsPage(h, p);
    }
  }

  lemma SpansPositive(h: Heap)
    requires ArenasOk(h)
    ensures forall q :: q in h.arenas ==> Span(h.arenas[q]) >= 1
  {
    forall q | q in h.arenas ensures Span(h.arenas[q]) >= 1 {
      assert ArenaOk(h, q);
    }
  }

  lemma SeparateRemoved(h: Heap, g: Heap, p: nat)
    requires Separate(h) && g.arenas == h.arenas - {p}
    ensures Separate(g)
  {
    forall a, b ensures Beside(g, a, b) {
      assert Beside(h, a, b);
    }
  }

  /** Nothing of a page outside the heap is free or in use. */
  lemma Untouched(h: Heap, p: nat, b: nat)
    requires HeapOk(h) && p !in h.arenas && PageOf(b) == p
    ensures b !in h.live && forall d :: 0 <= d < DESCS ==> b !in h.free[d]
  {
    hide Separate, ArenasOk;
    assert LiveOk(h, b);
    forall d | 0 <= d < DESCS ensures b !in h.free[d] {
      assert FreeOk(h, d, b);
    }
  }

  /** A set of that many indices is all of them. */
  lemma AllOf(s: set<nat>, n: nat)
    requires |s| == n && forall i :: i in s ==> i < n
    ensures s == RunOf(0, n)
  {
    if s != RunOf(0, n) {
      assert s < RunOf(0, n);
      SubsetSize(s, RunOf(0, n));
    }
  }

  // ---- a new arena ----

  lemma GrownPage(h: Heap, p: nat, d: nat)
    requires HeapOk(h) && p !in h.arenas && d < DESCS && h.free[d] == []
    ensures ArenaOk(Grown(h, p, d), p)
  {
    hide Block, PerArena, Separate, ArenasOk, AllLiveOk, ListsOk, HeapOk;
    ListsLen(h);
    var g, n := Grown(h, p, d), PerArena(d);
    forall i: nat | i < n ensures Block(p, d, i) in g.free[d] && Block(p, d, i) !in g.live {
      assert g.free[d][i] == Block(p, d, i);
      BlockInside(p, d, i);
      Untouched(h, p, Block(p, d, i));
    }
    forall i: nat ensures BlockOk(g, p, d, i) {
    }
    assert FreeIdx(g.free[d], p, d) == RunOf(0, n);
  }

  lemma ListsLen(h: Heap)
    requires HeapOk(h)
    ensures |h.free| == DESCS
  {
  }

  lemma GrownElsewhere(h: Heap, p: nat, d: nat)
    requires |h.free| == DESCS && d < DESCS && h.free[d] == []
    ensures SameElsewhere(h, Grown(h, p, d), p)
  {
    hide Block, PerArena;
    var g := Grown(h, p, d);
    forall b | b in g.free[d] ensures PageOf(b) == p {
      var i :| 0 <= i < PerArena(d) && g.free[d][i] == b;
      BlockInside(p, d, i);
    }
  }

  lemma GrownLists(h: Heap, p: nat, d: nat)
    requires ListsOk(h) && d < DESCS && h.free[d] == [] && p !in h.arenas
    ensures ListsOk(Grown(h, p, d))
  {
    hide Block, PerArena, IsBlock;
    var g := Grown(h, p, d);
    forall e, b ensures FreeOk(g, e, b) {
      assert FreeOk(h, e, b);
      if e == d && b in g.free[d] {
        var i :| 0 <= i < PerArena(d) && g.free[d][i] == b;
        BlockInside(p, d, i);
        IsBlockAt(p, d, i);
      }
    }
    forall i, j | 0 <= i < j < |g.free[d]| ensures g.free[d][i] != g.free[d][j] {
      BlocksApart(p, d, i, j);
    }
    assert NoTwice(g.free[d]);
  }

  lemma LiveKept(h: Heap, g: Heap)
    requires AllLiveOk(h) && g.live == h.live && forall q :: q in h.arenas ==> q in g.arenas && g.arenas[q] == h.arenas[q]
    ensures AllLiveOk(g)
  {
    hide IsBlock;
    forall b ensures LiveOk(g, b) {
      assert LiveOk(h, b);
    }
  }

  lemma GrowOk(h: Heap, p: nat, d: nat)
    requires HeapOk(h) && FreshRun(h, p, 1) && d < DESCS && h.free[d] == []
    ensures HeapOk(Grown(h, p, d)) && p !in h.arenas
  {
    var g := Grown(h, p, d);
    hide Block, PerArena, Separate, ArenasOk, AllLiveOk, ListsOk, ArenaOk, SameElsewhere, FreshRun;
    ListsLen(h);
    SpansPositive(h);
    NotThere(h, p, 1);
    SeparateAdded(h, g, p, 1);
    GrownPage(h, p, d);
    GrownElsewhere(h, p, d);
    GrownLists(h, p, d);
    ArenasKept(h, g, p);
    LiveKept(h, g);
  }

  // ---- handing out a block ----

  /** The head of a free list is a block of an arena of that kind, with its index. */
  lemma HeadOf(h: Heap, d: nat) returns (i: nat)
    requires HeapOk(h) && d < DESCS && h.free[d] != []
    ensures
      var b := h.free[d][0];
      var p := PageOf(b);
      && p in h.arenas && h.arenas[p].Small? && h.arenas[p].desc == d && h.arenas[p].cnt >= 1
      && i < PerArena(d) && b == Block(p, d, i) && b !in h.live
      && SmallOk(h, p, d, h.arenas[p].cnt)
  {
    hide Block, PerArena, Separate, AllLiveOk;
    var b := h.free[d][0];
    assert FreeOk(h, d, b);
    var p := PageOf(b);
    i :| i < PerArena(d) && b == Block(p, d, i);
    assert ArenaOk(h, p) && BlockOk(h, p, d, i);
    assert i in FreeIdx(h.free[d], p, d);
  }

  lemma SameIndex(p: nat, d: nat, i: nat, j: nat)
    requires d < DESCS
    ensures Block(p, d, i) == Block(p, d, j) <==> i == j
  {
    if i < j {
      BlocksApart(p, d, i, j);
    } else if j < i {
      BlocksApart(p, d, j, i);
    }
  }

  /** Only block `i` of page `p` changes hands. */
  lemma TakenPage(h: Heap, g: Heap, p: nat, d: nat, i: nat, cnt: nat, size: nat)
    requires SmallOk(h, p, d, cnt) && cnt >= 1 && i < PerArena(d) && |g.free| == DESCS && size <= BlockSize(d)
    requires h.free[d] != [] && NoTwice(h.free[d]) && h.free[d][0] == Block(p, d, i) && g.free[d] == h.free[d][1..]
    requires g.live == h.live[Block(p, d, i) := size]
    ensures SmallOk(g, p, d, cnt - 1)
  {
    hide Block, PerArena;
    forall j: nat ensures (Block(p, d, j) in g.free[d] <==> Block(p, d, j) in h.free[d] && j != i) {
      Dequeued(h.free[d], Block(p, d, j));
      SameIndex(p, d, i, j);
    }
    assert FreeIdx(g.free[d], p, d) == FreeIdx(h.free[d], p, d) - {i};
    assert i in FreeIdx(h.free[d], p, d);
    forall j: nat ensures BlockOk(g, p, d, j) {
      assert BlockOk(h, p, d, j);
      SameIndex(p, d, i, j);
    }
  }

  lemma TakenLists(h: Heap, g: Heap, d: nat, p: nat, n: nat)
    requires ListsOk(h) && d < DESCS && h.free[d] != [] && g.free == h.free[d := h.free[d][1..]]
    requires p in h.arenas && h.arenas[p].Small? && g.arenas == h.arenas[p := h.arenas[p].(cnt := n)]
    ensures ListsOk(g)
  {
    hide IsBlock;
    forall e, b ensures FreeOk(g, e, b) {
      assert FreeOk(h, e, b);
      Dequeued(h.free[d], b);
    }
    Dequeued(h.free[d], 0);
  }

  lemma TakenElsewhere(h: Heap, g: Heap, d: nat, p: nat, b: nat, size: nat)
    requires |h.free| == DESCS && d < DESCS && h.free[d] != [] && NoTwice(h.free[d]) && h.free[d][0] == b
    requires PageOf(b) == p
    requires g.free == h.free[d := h.free[d][1..]] && g.live == h.live[b := size] && p in h.arenas && p in g.arenas
    requires g.arenas == h.arenas[p := g.arenas[p]]
    ensures SameElsewhere(h, g, p)
  {
    forall c, e | 0 <= e < DESCS && PageOf(c) != p ensures c in g.free[e] <==> c in h.free[e] {
      Dequeued(h.free[d], c);
    }
  }

  lemma TakenLive(h: Heap, g: Heap, p: nat, d: nat, b: nat, size: nat, n: nat)
    requires AllLiveOk(h) && p in h.arenas && h.arenas[p].Small? && h.arenas[p].desc == d && IsBlock(d, b)
    requires PageOf(b) == p
    requires g.live == h.live[b := size] && g.arenas == h.arenas[p := h.arenas[p].(cnt := n)]
    ensures AllLiveOk(g)
  {
    hide IsBlock;
    forall c ensures LiveOk(g, c) {
      assert LiveOk(h, c);
    }
  }

  lemma TakeOk(h: Heap, d: nat, size: nat)
    requires HeapOk(h) && d < DESCS && h.free[d] != [] && size <= BlockSize(d)
    requires
      var b := h.free[d][0];
      PageOf(b) in h.arenas && h.arenas[PageOf(b)].Small? && h.arenas[PageOf(b)].cnt >= 1
    ensures HeapOk(Taken(h, d, size))
  {
    var b, g := h.free[d][0], Taken(h, d, size);
    var p := PageOf(b);
    hide Block, PerArena, Separate, ArenasOk, AllLiveOk, SmallOk, SameElsewhere, IsBlock, NoTwice;
    var i := HeadOf(h, d);
    IsBlockAt(p, d, i);
    TakenPage(h, g, p, d, i, h.arenas[p].cnt, size);
    TakenElsewhere(h, g, d, p, b, size);
    ArenasKept(h, g, p);
    TakenLists(h, g, d, p, h.arenas[p].cnt - 1);
    TakenLive(h, g, p, d, b, size, h.arenas[p].cnt - 1);
    SeparateKept(h, g, p);
  }

  // ---- a run of pages ----

  lemma TakenRunElsewhere(h: Heap, p: nat, n: nat, size: nat)
    requires |h.free| == DESCS
    ensures SameElsewhere(h, TakenRun(h, p, n, size), p)
  {
  }

  lemma TakenRunLive(h: Heap, p: nat, n: nat, size: nat)
    requires AllLiveOk(h) && p !in h.arenas
    ensures AllLiveOk(TakenRun(h, p, n, size))
  {
    hide IsBlock;
    var g := TakenRun(h, p, n, size);
    forall b ensures LiveOk(g, b) {
      assert LiveOk(h, b);
    }
  }

  lemma TakenRunLists(h: Heap, p: nat, n: nat, size: nat)
    requires ListsOk(h) && p !in h.arenas
    ensures ListsOk(TakenRun(h, p, n, size))
  {
    hide IsBlock, NoTwice;
    var g := TakenRun(h, p, n, size);
    forall d, b ensures FreeOk(g, d, b) {
      assert FreeOk(h, d, b);
    }
  }

  lemma TakeRunOk(h: Heap, p: nat, n: nat, size: nat)
    requires HeapOk(h) && FreshRun(h, p, n) && SmallestRun(size, n) && size > BIGGEST
    ensures HeapOk(TakenRun(h, p, n, size)) && PAGE * p + HEADER !in h.live
  {
    var g := TakenRun(h, p, n, size);
    assert LargeOk(g, p, n);
    hide Separate, ArenasOk, AllLiveOk, ListsOk, SameElsewhere, FreshRun;
    ListsLen(h);
    SpansPositive(h);
    NotThere(h, p, n);
    Untouched(h, p, PAGE * p + HEADER);
    SeparateAdded(h, g, p, n);
    TakenRunElsewhere(h, p, n, size);
    ArenasKept(h, g, p);
    TakenRunLive(h, p, n, size);
    TakenRunLists(h, p, n, size);
  }

  // ---- taking a block back ----

  lemma ReturnedPage(h: Heap, g: Heap, p: nat, d: nat, i: nat, cnt: nat)
    requires SmallOk(h, p, d, cnt) && i < PerArena(d) && |g.free| == DESCS && Block(p, d, i) in h.live
    requires g.free[d] == h.free[d] + [Block(p, d, i)] && g.live == h.live - {Block(p, d, i)}
    ensures SmallOk(g, p, d, cnt + 1) && Block(p, d, i) !in h.free[d]
  {
    hide Block, PerArena;
    assert BlockOk(h, p, d, i);
    forall j: nat ensures (Block(p, d, j) in g.free[d] <==> Block(p, d, j) in h.free[d] || j == i) {
      SameIndex(p, d, i, j);
    }
    assert FreeIdx(g.free[d], p, d) == FreeIdx(h.free[d], p, d) + {i};
    forall j: nat ensures BlockOk(g, p, d, j) {
      assert BlockOk(h, p, d, j);
      SameIndex(p, d, i, j);
    }
  }

  lemma ReturnedLists(h: Heap, g: Heap, p: nat, d: nat, b: nat, n: nat)
    requires ListsOk(h) && d < DESCS && b !in h.free[d] && IsBlock(d, b) && PageOf(b) == p
    requires g.free == h.free[d := h.free[d] + [b]]
    requires p in h.arenas && h.arenas[p].Small? && h.arenas[p].desc == d
    requires g.arenas == h.arenas[p := h.arenas[p].(cnt := n)]
    ensures ListsOk(g)
  {
    hide IsBlock;
    forall e, c ensures FreeOk(g, e, c) {
      assert FreeOk(h, e, c);
    }
    forall e | 0 <= e < DESCS ensures NoTwice(g.free[e]) {
      assert NoTwice(h.free[e]);
      assert forall k :: 0 <= k < |h.free[d]| ==> h.free[d][k] in h.free[d];
    }
  }

  lemma ReturnedLive(h: Heap, g: Heap, p: nat, b: nat, n: nat)
    requires AllLiveOk(h) && p in h.arenas && h.arenas[p].Small? && g.live == h.live - {b}
    requires g.arenas == h.arenas[p := h.arenas[p].(cnt := n)]
    ensures AllLiveOk(g)
  {
    hide IsBlock;
    forall c ensures LiveOk(g, c) {
      assert LiveOk(h, c);
    }
  }

  /** A pointer in use in a small arena is one of its blocks. */
  lemma LiveBlock(h: Heap, b: nat) returns (i: nat)
    requires HeapOk(h) && b in h.live && PageOf(b) in h.arenas && h.arenas[PageOf(b)].Small?
    ensures
      var p := PageOf(b);
      var a := h.arenas[p];
      && a.desc < DESCS && |h.free| == DESCS && i < PerArena(a.desc) && b == Block(p, a.desc, i) && IsBlock(a.desc, b)
      && SmallOk(h, p, a.desc, a.cnt)
  {
    hide Block, PerArena, Separate, ListsOk;
    assert LiveOk(h, b) && ArenaOk(h, PageOf(b));
    var d := h.arenas[PageOf(b)].desc;
    i :| i < PerArena(d) && b == Block(PageOf(b), d, i);
  }

  lemma ReturnOk(h: Heap, b: nat)
    requires HeapOk(h) && b in h.live && PageOf(b) in h.arenas && h.arenas[PageOf(b)].Small?
    requires |h.free| == DESCS && h.arenas[PageOf(b)].desc < DESCS
    ensures HeapOk(Returned(h, b)) && b !in h.free[h.arenas[PageOf(b)].desc]
  {
    var g, p := Returned(h, b), PageOf(b);
    var d, n := h.arenas[p].desc, h.arenas[p].cnt + 1;
    hide Block, PerArena, Separate, ArenasOk, AllLiveOk, ListsOk, SmallOk, SameElsewhere, IsBlock, NoTwice;
    var i := LiveBlock(h, b);
    ReturnedPage(h, g, p, d, i, h.arenas[p].cnt);
    ReturnedElsewhere(h, g, p, d, b);
    ArenasKept(h, g, p);
    ReturnedLists(h, g, p, d, b, n);
    ReturnedLive(h, g, p, b, n);
    SeparateKept(h, g, p);
  }

  lemma ReturnedElsewhere(h: Heap, g: Heap, p: nat, d: nat, b: nat)
    requires |h.free| == DESCS && d < DESCS && PageOf(b) == p && p in h.arenas && p in g.arenas
    requires g.free == h.free[d := h.free[d] + [b]] && g.live == h.live - {b}
    requires g.arenas == h.arenas[p := g.arenas[p]]
    ensures SameElsewhere(h, g, p)
  {
  }

  // ---- giving pages back ----

  /** An arena with as many free blocks as blocks has them all in the free list. */
  lemma IdleArena(h: Heap, p: nat)
    requires HeapOk(h) && p in h.arenas && h.arenas[p].Small?
    requires h.arenas[p].desc < DESCS && h.arenas[p].cnt == PerArena(h.arenas[p].desc)
    ensures |h.free| == DESCS && forall i: nat :: i < PerArena(h.arenas[p].desc) ==> Block(p, h.arenas[p].desc, i) in h.free[h.arenas[p].desc]
    ensures forall b :: PageOf(b) == p ==> b !in h.live
  {
    hide Block, PerArena, Separate, ListsOk;
    var d := h.arenas[p].desc;
    assert ArenaOk(h, p);
    AllOf(FreeIdx(h.free[d], p, d), PerArena(d));
    forall i: nat | i < PerArena(d) ensures Block(p, d, i) in h.free[d] {
      assert i in RunOf(0, PerArena(d));
    }
    forall i: nat | i < PerArena(d) ensures Block(p, d, i) !in h.live {
      assert BlockOk(h, p, d, i);
    }
    forall b | PageOf(b) == p ensures b !in h.live {
      if b in h.live {
        var i := LiveBlock(h, b);
      }
    }
  }

  lemma SweptPage(h: Heap, d: nat, p: nat, left: seq<nat>, b: nat)
    requires HeapOk(h) && d < DESCS && p in h.arenas && h.arenas[p] == Small(d, PerArena(d))
    requires Swept(h.free[d], left, p, d, PerArena(d))
    ensures b in left <==> b in h.free[d] && PageOf(b) != p
  {
    hide Block, PerArena, Separate, ArenasOk, AllLiveOk;
    if b in h.free[d] && PageOf(b) == p {
      assert FreeOk(h, d, b);
    }
    if i: nat :| i < PerArena(d) && b == Block(p, d, i) {
      BlockInside(p, d, i);
    }
  }

  lemma SweptOk(h: Heap, p: nat, d: nat, left: seq<nat>)
    requires HeapOk(h) && d < DESCS && p in h.arenas && h.arenas[p] == Small(d, PerArena(d))
    requires Swept(h.free[d], left, p, d, PerArena(d))
    ensures HeapOk(Heap(h.arenas - {p}, h.free[d := left], h.live))
  {
    var g := Heap(h.arenas - {p}, h.free[d := left], h.live);
    hide Block, PerArena, Separate, ArenasOk, ArenaOk, NoTwice, IsBlock, LiveOk;
    forall b ensures b in left <==> b in h.free[d] && PageOf(b) != p {
      SweptPage(h, d, p, left, b);
    }
    IdleArena(h, p);
    GoneElsewhere(h, g, p, d, left);
    GoneArena(g, p);
    ArenasKept(h, g, p);
    SeparateRemoved(h, g, p);
    GoneLists(h, g, p, d, left);
    GoneLive(h, g, p);
  }

  lemma GoneArena(g: Heap, p: nat)
    requires p !in g.arenas
    ensures ArenaOk(g, p)
  {
  }

  lemma GoneElsewhere(h: Heap, g: Heap, p: nat, d: nat, left: seq<nat>)
    requires |h.free| == DESCS && d < DESCS && g == Heap(h.arenas - {p}, h.free[d := left], h.live)
    requires forall b :: b in left <==> b in h.free[d] && PageOf(b) != p
    ensures SameElsewhere(h, g, p)
  {
  }

  lemma GoneLists(h: Heap, g: Heap, p: nat, d: nat, left: seq<nat>)
    requires ListsOk(h) && d < DESCS && g == Heap(h.arenas - {p}, h.free[d := left], h.live) && NoTwice(left)
    requires p in h.arenas && h.arenas[p].Small? && h.arenas[p].desc == d
    requires forall b :: b in left <==> b in h.free[d] && PageOf(b) != p
    ensures ListsOk(g)
  {
    hide IsBlock, NoTwice;
    forall e, b ensures FreeOk(g, e, b) {
      assert FreeOk(h, e, b);
    }
  }

  lemma GoneLive(h: Heap, g: Heap, p: nat)
    requires AllLiveOk(h) && g.arenas == h.arenas - {p} && g.live == h.live && forall b :: PageOf(b) == p ==> b !in h.live
    ensures AllLiveOk(g)
  {
    hide IsBlock;
    forall b ensures LiveOk(g, b) {
      assert LiveOk(h, b);
    }
  }

  lemma FreeRunOk(h: Heap, b: nat)
    requires HeapOk(h) && b in h.live && PageOf(b) in h.arenas && h.arenas[PageOf(b)].Large?
    ensures HeapOk(Heap(h.arenas - {PageOf(b)}, h.free, h.live - {b}))
  {
    var p := PageOf(b);
    var g := Heap(h.arenas - {p}, h.free, h.live - {b});
    hide Block, PerArena, Separate, ArenasOk, ArenaOk, NoTwice, IsBlock;
    assert LiveOk(h, b);
    forall c ensures LiveOk(g, c) {
      assert LiveOk(h, c);
    }
    forall d, c ensures FreeOk(g, d, c) {
      assert FreeOk(h, d, c);
    }
    SeparateRemoved(h, g, p);
    GoneArena(g, p);
    ArenasKept(h, g, p);
  }
}
