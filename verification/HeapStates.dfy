/** The arena heap: blocks of seven sizes carved out of pages, and runs of pages for larger requests. */
module HeapStates {
  import opened Queues

  const PAGE := 4096
  const HEADER := 12
  const DESCS := 7
  const BIGGEST := 1024

  function BlockSize(d: nat): (s: nat)
    requires d < DESCS
    ensures 16 <= s <= BIGGEST
  {
    match d
    case 0 => 16 case 1 => 32 case 2 => 64 case 3 => 128 case 4 => 256 case 5 => 512 case 6 => 1024
  }

  function PerArena(d: nat): (n: nat)
    requires d < DESCS
    ensures 3 <= n <= 255 && n * BlockSize(d) <= PAGE - HEADER < (n + 1) * BlockSize(d)
  {
    (PAGE - HEADER) / BlockSize(d)
  }

  /** The seven sizes double from 16 to 1024. */
  lemma BlockSizes(d: nat)
    requires d < DESCS
    ensures BlockSize(0) == 16 && BlockSize(6) == 1024 && (d > 0 ==> BlockSize(d) == 2 * BlockSize(d - 1))
  {
  }

  /** Address of block `i` of the arena in page `p`. */
  function Block(p: nat, d: nat, i: nat): nat
    requires d < DESCS
  {
    PAGE * p + HEADER + i * BlockSize(d)
  }

  function PageOf(b: nat): nat {
    b / PAGE
  }

  /** The header at the start of an arena: `cnt` free blocks of kind `desc`, or a run of pages. */
  datatype Arena = Small(desc: nat, cnt: nat) | Large(pages: nat)

  /** `live` is bookkeeping: the pointers handed out and the sizes they were asked for. */
  datatype Heap = Heap(arenas: map<nat, Arena>, free: seq<seq<nat>>, live: map<nat, nat>)

  function Span(a: Arena): nat {
    if a.Large? then a.pages else 1
  }

  /** Pages of the heap. */
  ghost predicate OwnsPage(h: Heap, q: nat) {
    exists p :: p in h.arenas && p <= q < p + Span(h.arenas[p])
  }

  ghost predicate Beside(h: Heap, p: nat, q: nat) {
    p in h.arenas && q in h.arenas && p != q ==> p + Span(h.arenas[p]) <= q || q + Span(h.arenas[q]) <= p
  }

  /** Arenas do not overlap. */
  ghost predicate Separate(h: Heap) {
    forall p, q :: Beside(h, p, q)
  }

  ghost predicate IsBlock(d: nat, b: nat) {
    d < DESCS && exists i: nat :: i < PerArena(d) && b == Block(PageOf(b), d, i)
  }

  /** The free blocks of the arena in page `p`. */
  ghost function FreeIdx(list: seq<nat>, p: nat, d: nat): set<nat>
    requires d < DESCS
  {
    set i: nat | i < PerArena(d) && Block(p, d, i) in list
  }

  /** Every block of a small arena is either free or in use by somebody it is big enough for. */
  ghost predicate BlockOk(h: Heap, p: nat, d: nat, i: nat)
    requires |h.free| == DESCS && d < DESCS
  {
    i < PerArena(d) ==>
      var b := Block(p, d, i);
      (b in h.free[d] <==> b !in h.live) && (b in h.live ==> h.live[b] <= BlockSize(d))
  }

  ghost predicate SmallOk(h: Heap, p: nat, d: nat, cnt: nat) {
    && |h.free| == DESCS && d < DESCS
    && cnt == |FreeIdx(h.free[d], p, d)|
    && forall i: nat :: BlockOk(h, p, d, i)
  }

  ghost predicate LargeOk(h: Heap, p: nat, pages: nat) {
    var b := PAGE * p + HEADER;
    pages >= 1 && b in h.live && h.live[b] > BIGGEST && SmallestRun(h.live[b], pages)
  }

  /** A run of `n` pages holds `size` bytes behind a header, and no shorter one does. */
  predicate SmallestRun(size: nat, n: nat) {
    n >= 1 && PAGE * (n - 1) < size + HEADER <= PAGE * n
  }

  ghost predicate ArenaOk(h: Heap, p: nat) {
    p in h.arenas ==>
      match h.arenas[p]
      case Small(d, cnt) => SmallOk(h, p, d, cnt)
      case Large(pages) => LargeOk(h, p, pages)
  }

  ghost predicate ArenasOk(h: Heap) {
    forall p :: ArenaOk(h, p)
  }

  /** A free block of kind `d` lies in a small arena of kind `d`. */
  ghost predicate FreeOk(h: Heap, d: nat, b: nat)
    requires |h.free| == DESCS
  {
    d < DESCS && b in h.free[d] ==>
      IsBlock(d, b) && PageOf(b) in h.arenas && h.arenas[PageOf(b)].Small? && h.arenas[PageOf(b)].desc == d
  }

  ghost predicate ListsOk(h: Heap) {
    && |h.free| == DESCS
    && (forall d, b :: FreeOk(h, d, b))
    && (forall d :: 0 <= d < DESCS ==> NoTwice(h.free[d]))
  }

  /** A pointer in use is a block of a small arena or the start of a run of pages. */
  ghost predicate LiveOk(h: Heap, b: nat) {
    b in h.live ==>
      && PageOf(b) in h.arenas
      && match h.arenas[PageOf(b)]
         case Small(d, cnt) => IsBlock(d, b)
         case Large(pages) => b == PAGE * PageOf(b) + HEADER
  }

  ghost predicate AllLiveOk(h: Heap) {
    forall b :: LiveOk(h, b)
  }

  ghost predicate HeapOk(h: Heap) {
    Separate(h) && ListsOk(h) && ArenasOk(h) && AllLiveOk(h)
  }

  /** No arena has all its blocks free: such an arena is given back. */
  ghost predicate NoneIdle(h: Heap) {
    forall p :: p in h.arenas && h.arenas[p].Small? ==> h.arenas[p].desc < DESCS && h.arenas[p].cnt < PerArena(h.arenas[p].desc)
  }

  /** A run of pages that does not touch the heap's. */
  ghost predicate FreshRun(h: Heap, p: nat, n: nat) {
    n >= 1 && forall q :: p <= q < p + n ==> !OwnsPage(h, q)
  }

  // ---- what the operations do ----

  function Descriptor(size: nat): (d: nat)
    requires size <= BIGGEST
    ensures d < DESCS && size <= BlockSize(d) && forall e :: 0 <= e < d ==> BlockSize(e) < size
  {
    if size <= 16 then 0 else if size <= 32 then 1 else if size <= 64 then 2 else if size <= 128 then 3
    else if size <= 256 then 4 else if size <= 512 then 5 else 6
  }

  function PagesFor(size: nat): (n: nat)
    ensures SmallestRun(size, n)
  {
    (size + HEADER + PAGE - 1) / PAGE
  }

  function Blocks(p: nat, d: nat, n: nat): (s: seq<nat>)
    requires d < DESCS
    ensures |s| == n && forall i :: 0 <= i < n ==> s[i] == Block(p, d, i)
  {
    seq(n, i requires 0 <= i < n => Block(p, d, i))
  }

  /** A new arena: all its blocks join the free list. */
  function Grown(h: Heap, p: nat, d: nat): Heap
    requires |h.free| == DESCS && d < DESCS
  {
    h.(arenas := h.arenas[p := Small(d, PerArena(d))], free := h.free[d := h.free[d] + Blocks(p, d, PerArena(d))])
  }

  /** The first free block is handed out. */
  function Taken(h: Heap, d: nat, size: nat): Heap
    requires |h.free| == DESCS && d < DESCS && h.free[d] != []
    requires PageOf(h.free[d][0]) in h.arenas && h.arenas[PageOf(h.free[d][0])].Small?
    requires h.arenas[PageOf(h.free[d][0])].cnt >= 1
  {
    var b := h.free[d][0];
    var a := h.arenas[PageOf(b)];
    Heap(h.arenas[PageOf(b) := a.(cnt := a.cnt - 1)], h.free[d := h.free[d][1..]], h.live[b := size])
  }

  function TakenRun(h: Heap, p: nat, n: nat, size: nat): Heap {
    Heap(h.arenas[p := Large(n)], h.free, h.live[PAGE * p + HEADER := size])
  }

  function Returned(h: Heap, b: nat): Heap
    requires |h.free| == DESCS && PageOf(b) in h.arenas && h.arenas[PageOf(b)].Small?
    requires h.arenas[PageOf(b)].desc < DESCS
  {
    var a := h.arenas[PageOf(b)];
    Heap(h.arenas[PageOf(b) := a.(cnt := a.cnt + 1)], h.free[a.desc := h.free[a.desc] + [b]], h.live - {b})
  }

  /** The list without its blocks in page `p`, in the same order. */
  function OffPage(list: seq<nat>, p: nat): seq<nat> {
    if list == [] then [] else (if PageOf(list[0]) == p then [] else [list[0]]) + OffPage(list[1..], p)
  }

  ghost predicate AmongFirst(p: nat, d: nat, n: nat, b: nat)
    requires d < DESCS
  {
    exists i: nat :: i < n && b == Block(p, d, i)
  }

  /** The list without the first `n` blocks of the arena in page `p`, in the same order. */
  ghost function Purged(list: seq<nat>, p: nat, d: nat, n: nat): seq<nat>
    requires d < DESCS
  {
    if list == [] then [] else (if AmongFirst(p, d, n, list[0]) then [] else [list[0]]) + Purged(list[1..], p, d, n)
  }

  /** The list without the blocks of page `p`. */
  ghost predicate Swept(list: seq<nat>, left: seq<nat>, p: nat, d: nat, n: nat)
    requires d < DESCS
  {
    && (NoTwice(list) ==> NoTwice(left))
    && forall b :: b in left <==> b in list && !(exists i: nat :: i < n && b == Block(p, d, i))
  }
}

/** Block by block agreement of two heaps. */
module HeapFrames {
  import opened HeapStates

  ghost predicate SameBlock(h: Heap, g: Heap, q: nat, d: nat, i: nat) {
    |h.free| == |g.free| == DESCS && d < DESCS && (i < PerArena(d) ==>
      var b := Block(q, d, i);
      && (b in g.free[d] <==> b in h.free[d]) && (b in g.live <==> b in h.live)
      && (b in h.live && b in g.live ==> g.live[b] == h.live[b]))
  }

  /** Outside page `p` nothing changed. */
  ghost predicate SameElsewhere(h: Heap, g: Heap, p: nat) {
    && |h.free| == |g.free| == DESCS
    && (forall b, d :: 0 <= d < DESCS && PageOf(b) != p ==> (b in g.free[d] <==> b in h.free[d]))
    && (forall b :: PageOf(b) != p ==> (b in g.live <==> b in h.live) && (b in h.live && b in g.live ==> g.live[b] == h.live[b]))
    && (forall q :: q != p ==> (q in g.arenas <==> q in h.arenas) && (q in h.arenas && q in g.arenas ==> g.arenas[q] == h.arenas[q]))
  }
}
