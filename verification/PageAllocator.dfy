/** Virtual pages, physical frames and the mapping between them, as the page allocator keeps them. */
module PageStates {
  import opened FiniteSets
  import opened BitRuns

  const MAX_PAGES := 3840

  /** No frame below 0x102000 is ever handed out: there are the low megabyte, the first page directory and the first
      page table. */
  const LOWEST_FRAME := 0x102

  /** Who has a taken frame: a mapped page, or a page table. */
  datatype Holder = ByPage(page: nat) | ByTables

  /** `pool[f]`: frame `f` is taken. `vmap[i]`: virtual page `i` is taken. `table` maps virtual pages to
      frames; `owner` is bookkeeping: who has each taken frame. The last bit of `vmap` is the one
      behind the map, which a search for two pages or more also tests; `foreign` says that whatever
      lies in memory there has it set. */
  datatype Pages = Pages(pool: seq<bool>, vmap: seq<bool>, table: map<nat, nat>, owner: map<nat, Holder>, foreign: bool)

  ghost predicate Maps(table: map<nat, nat>, owner: map<nat, Holder>) {
    && (forall i :: i in table ==> table[i] in owner && owner[table[i]] == ByPage(i))
    && (forall f :: f in owner && owner[f].ByPage? ==> owner[f].page in table && table[owner[f].page] == f)
  }

  /** The virtual pages that are not to be had: the mapped ones, and the one behind the map if its bit
      is not the allocator's. */
  ghost function Taken(s: Pages): set<nat>
    requires |s.vmap| > 0
  {
    s.table.Keys + (if s.foreign then {|s.vmap| - 1} else {})
  }

  ghost predicate VmapOk(s: Pages) {
    |s.vmap| > 0 && BitsOf(s.vmap, Taken(s)) && (s.foreign ==> |s.vmap| - 1 !in s.table)
  }

  /** Taken virtual pages are exactly the mapped ones, no frame is mapped twice, and the taken frames
      are those mapped and those that hold page tables. */
  ghost predicate Consistent(s: Pages) {
    Maps(s.table, s.owner) && VmapOk(s) && BitsOf(s.pool, s.owner.Keys)
  }

  /** The frames that hold page tables. */
  ghost function Tables(s: Pages): set<nat> {
    set f | f in s.owner && s.owner[f].ByTables?
  }

  ghost predicate VmapTaken(b: seq<bool>, c: seq<bool>, start: nat, n: nat) {
    |c| == |b| && start + n <= |b| && forall i :: 0 <= i < |b| ==> (c[i] <==> b[i] || start <= i < start + n)
  }

  /** `u` has the entries of `t` and those of the first `k` pages of the run, which lead to frames
      clear in `pool`. */
  ghost predicate TableGrown(t: map<nat, nat>, u: map<nat, nat>, pool: seq<bool>, start: nat, k: nat) {
    && (forall i :: i in t ==> i in u && u[i] == t[i])
    && (forall i :: i in u ==> i in t || start <= i < start + k)
    && (forall i :: start <= i < start + k ==> i in u && u[i] < |pool| && !pool[u[i]])
  }

  ghost predicate OwnersGrown(o: map<nat, Holder>, p: map<nat, Holder>, start: nat, k: nat) {
    && (forall f :: f in o ==> f in p && p[f] == o[f])
    && (forall f :: f in p && f !in o ==> p[f].ByPage? && start <= p[f].page < start + k)
  }

  /** `t` is `s` with the first `k` pages of the run at `start` mapped to frames that were free; the
      whole run of `n` is taken in the map of virtual pages. */
  ghost predicate Mapping(s: Pages, t: Pages, start: nat, n: nat, k: nat) {
    && k <= n && VmapTaken(s.vmap, t.vmap, start, n) && |t.pool| == |s.pool| && t.foreign == s.foreign
    && TableGrown(s.table, t.table, s.pool, start, k) && OwnersGrown(s.owner, t.owner, start, k)
    && Maps(t.table, t.owner) && BitsOf(t.pool, t.owner.Keys) && |Free(t.pool)| == |Free(s.pool)| - k
  }

  /** The frames of the run's first `k` pages are the lowest that were free, in ascending order. */
  ghost predicate LowestFrames(s: Pages, t: Pages, start: nat, k: nat) {
    && (forall i :: start <= i < start + k ==> i in t.table)
    && (forall i, j :: start <= i < j < start + k ==> t.table[i] < t.table[j])
    && (forall i, g :: start <= i < start + k && 0 <= g < t.table[i] && g < |s.pool| && g < |t.pool| && !s.pool[g] ==> t.pool[g])
  }

  datatype MallocPages = Got(start: nat) | Nothing | Partial(start: nat) | Panics

  /** What a request for `n` pages gets when first fit finds `start`. */
  ghost function Outcome(s: Pages, n: nat, start: int): MallocPages
    requires start == -1 || start >= 0
  {
    if n == 0 || n >= MAX_PAGES then Panics
    else if start == -1 then Nothing
    else if |Free(s.pool)| >= n then Got(start)
    else Partial(start)
  }

  /** The bits a search for `n` pages looks at. */
  function Searched(vmap: seq<bool>, n: nat): seq<bool>
    requires |vmap| > 0
  {
    if n == 1 then vmap[..|vmap| - 1] else vmap
  }

  /** `t` is `s` without the run of `n` pages at `start` and the frames they were in. */
  ghost predicate Unmapping(s: Pages, t: Pages, start: nat, n: nat) {
    && |t.vmap| == |s.vmap| && |t.pool| == |s.pool| && t.foreign == s.foreign
    && (forall i :: 0 <= i < |s.vmap| ==> (t.vmap[i] <==> s.vmap[i] && !(start <= i < start + n)))
    && t.table == s.table - RunOf(start, n)
    && t.owner.Keys <= s.owner.Keys && (forall f :: f in t.owner ==> t.owner[f] == s.owner[f])
    && (forall f :: f in s.owner ==> (f in t.owner <==> !(s.owner[f].ByPage? && start <= s.owner[f].page < start + n)))
    && BitsOf(t.pool, t.owner.Keys)
  }
}

/** Counting pages and frames. */
module PageProofs {
  import opened FiniteSets
  import opened BitRuns
  import opened PageStates

  /** As many frames are taken as pages are mapped and page tables held. */
  lemma {:induction false} SameSize(table: map<nat, nat>, owner: map<nat, Holder>, tables: set<nat>)
    requires Maps(table, owner) && tables == set f | f in owner && owner[f].ByTables?
    ensures |owner.Keys| == |table.Keys| + |tables|
    decreases |table.Keys|
  {
    if table.Keys == {} {
      assert owner.Keys == tables;
    } else {
      var i :| i in table.Keys;
      var f := table[i];
      SameSize(table - {i}, owner - {f}, tables);
      assert (table - {i}).Keys == table.Keys - {i} && (owner - {f}).Keys == owner.Keys - {f};
    }
  }

  /** With one virtual page more than frames, the pages left are the frames left, those held by page
      tables, and the one behind the map if it is to be had. */
  lemma PagesLeft(s: Pages)
    requires Consistent(s) && |s.vmap| == |s.pool| + 1
    ensures |Free(s.vmap)| == |Free(s.pool)| + |Tables(s)| + if s.foreign then 0 else 1
  {
    hide BitsOf, Maps, Free;
    ClearCount(s.vmap, Taken(s));
    ClearCount(s.pool, s.owner.Keys);
    SameSize(s.table, s.owner, Tables(s));
  }

  lemma RunIsFree(b: seq<bool>, start: nat, n: nat)
    requires ClearRun(b, start, n)
    ensures RunOf(start, n) <= Free(b)
  {
  }

  /** A request that first fit satisfies ends half done exactly when it asks for more pages than there are
      frames. It can ask for no more than the frames left, those held by page tables, and one. So while no
      frame holds a page table, it ends half done exactly when the bit behind the map is to be had and the
      request is for one page more than there are frames, which is then every page left. */
  lemma PartialExactly(s: Pages, n: nat, start: nat)
    requires Consistent(s) && |s.vmap| == |s.pool| + 1
    requires ClearRun(s.vmap, start, n) && 1 <= n < MAX_PAGES
    ensures Outcome(s, n, start).Partial? ==> |Free(s.pool)| < n <= |Free(s.pool)| + |Tables(s)| + if s.foreign then 0 else 1
    ensures Tables(s) == {} ==> (Outcome(s, n, start).Partial? <==> !s.foreign && n == |Free(s.pool)| + 1)
    ensures Tables(s) == {} && Outcome(s, n, start).Partial? ==> RunOf(start, n) == Free(s.vmap)
  {
    hide BitsOf, Maps, Free, ClearRun;
    PagesLeft(s);
    RunIsFree(s.vmap, start, n);
    SubsetSize(RunOf(start, n), Free(s.vmap));
  }

  lemma AllClear(b: seq<bool>, n: nat)
    requires |b| == n >= 1 && forall i :: 0 <= i < n ==> !b[i]
    ensures IsFirstFit(b, n, 0) && ClearRun(b, 0, n) && |Free(b)| == n
  {
    ClearCount(b, {});
  }

  /** It happens: eight frames, all free, and a request for nine pages. */
  lemma PartialReached(s: Pages)
    requires s == Pages(seq(8, i => false), seq(9, i => false), map[], map[], false)
    ensures Consistent(s) && Tables(s) == {} && IsFirstFit(Searched(s.vmap, 9), 9, 0) && Outcome(s, 9, 0) == Partial(0)
  {
    AllClear(s.pool, 8);
    AllClear(s.vmap, 9);
  }

  /** It happens with the bit behind the map set, too, once a frame holds a page table: seven frames are
      free, and the request is for the eight pages of the map. */
  lemma PartialBehindTables(s: Pages)
    requires s == Pages(seq(8, i => i == 0), seq(9, i => i == 8), map[], map[0 := ByTables], true)
    ensures Consistent(s) && Tables(s) == {0} && IsFirstFit(Searched(s.vmap, 8), 8, 0) && Outcome(s, 8, 0) == Partial(0)
  {
    ClearCount(s.pool, {0});
    assert ClearRun(s.vmap, 0, 8);
  }
}

/** The page tables behind the map from pages to frames. */
module PageMaps {
  import opened Mmu
  import opened Paging
  import opened AddressSpaces

  /** The address of page `i` of a range that starts with page number `base`. */
  function Addr(base: nat, i: nat): nat {
    PAGE * (base + i)
  }

  ghost predicate ReadyAt(m: Memory, dir: nat, base: nat, n: nat, i: nat) {
    i < n ==> Addr(base, i) < SPACE && PdeIdx(Addr(base, i)) != ENTRIES - 1 && Present(Pde(m, dir, Addr(base, i)))
  }

  ghost predicate NoAlias(m: Memory, dir: nat, base: nat, n: nat, i: nat, j: nat) {
    i < n && j < n && i != j ==> !Aliases(m, dir, Addr(base, i), Addr(base, j))
  }

  /** All page tables of the range are there, and no two pages share an entry. */
  ghost predicate Range(m: Memory, dir: nat, base: nat, n: nat) {
    SelfMapped(m, dir) && (forall i: nat :: ReadyAt(m, dir, base, n, i)) && (forall i: nat, j: nat :: NoAlias(m, dir, base, n, i, j))
  }

  ghost predicate BackedAt(m: Memory, dir: nat, base: nat, frame: nat, n: nat, table: map<nat, nat>, i: nat) {
    i < n ==>
      && (i in table <==> Mapped(m, dir, Addr(base, i)))
      && (i in table && Mapped(m, dir, Addr(base, i)) ==> Translate(m, dir, Addr(base, i)) == frame + table[i])
  }

  /** The page tables map exactly the pages of `table`, to the frames it says, counted from `frame`. */
  ghost predicate Backed(m: Memory, dir: nat, base: nat, frame: nat, n: nat, table: map<nat, nat>) {
    forall i: nat :: BackedAt(m, dir, base, frame, n, table, i)
  }

  /** Writing the entry of one page of a range keeps the range and the entries of the other pages. */
  lemma RangeKept(m: Memory, w: Memory, dir: nat, base: nat, n: nat, i: nat, e: nat)
    requires Range(m, dir, base, n) && i < n
    requires w == Write(m, TableOf(m, dir, Addr(base, i)), PteIdx(Addr(base, i)), e)
    ensures Range(w, dir, base, n)
    ensures forall j: nat :: j < n ==> Pde(w, dir, Addr(base, j)) == Pde(m, dir, Addr(base, j))
    ensures forall j: nat :: j < n ==> Pte(w, dir, Addr(base, j)) == if j == i then e else Pte(m, dir, Addr(base, j))
  {
    hide Write, PdeIdx, PteIdx, SelfMapped, Addr, Pde, Pte;
    forall j: nat | j < n
      ensures SelfMapped(w, dir) && Pde(w, dir, Addr(base, j)) == Pde(m, dir, Addr(base, j))
      ensures Pte(w, dir, Addr(base, j)) == if j == i then e else Pte(m, dir, Addr(base, j))
    {
      assert ReadyAt(m, dir, base, n, i) && ReadyAt(m, dir, base, n, j) && NoAlias(m, dir, base, n, j, i);
      EntryWritten(m, w, dir, Addr(base, i), e, Addr(base, j));
    }
    assert SelfMapped(w, dir);
    forall j: nat ensures ReadyAt(w, dir, base, n, j) {
      assert ReadyAt(m, dir, base, n, j);
    }
    forall j: nat, k: nat ensures NoAlias(w, dir, base, n, j, k) {
      assert NoAlias(m, dir, base, n, j, k);
    }
  }

  /** Mapping a page of the range. */
  lemma AddBacked(m: Memory, dir: nat, base: nat, frame: nat, n: nat, table: map<nat, nat>, i: nat, f: nat)
    requires Range(m, dir, base, n) && Backed(m, dir, base, frame, n, table) && i < n && i !in table
    ensures !Mapped(m, dir, Addr(base, i))
    ensures
      var w := AddEntry(m, dir, Addr(base, i), frame + f);
      Range(w, dir, base, n) && Backed(w, dir, base, frame, n, table[i := f])
  {
    hide Write, PdeIdx, PteIdx, Range, Addr, Pde, Pte, EntryFor;
    assert BackedAt(m, dir, base, frame, n, table, i);
    ReadyIs(m, dir, base, n, i);
    var w := AddEntry(m, dir, Addr(base, i), frame + f);
    RangeKept(m, w, dir, base, n, i, EntryFor(frame + f));
    var more := table[i := f];
    forall j: nat ensures BackedAt(w, dir, base, frame, n, more, j) {
      assert BackedAt(m, dir, base, frame, n, table, j);
    }
  }

  lemma ReadyIs(m: Memory, dir: nat, base: nat, n: nat, i: nat)
    requires Range(m, dir, base, n) && i < n
    ensures SelfMapped(m, dir) && Addr(base, i) < SPACE && PdeIdx(Addr(base, i)) != ENTRIES - 1 && Present(Pde(m, dir, Addr(base, i)))
  {
    hide SelfMapped, Addr, PdeIdx, Pde;
    assert ReadyAt(m, dir, base, n, i);
  }

  /** Unmapping a page of the range. */
  lemma RemoveBacked(m: Memory, dir: nat, base: nat, frame: nat, n: nat, table: map<nat, nat>, i: nat)
    requires Range(m, dir, base, n) && Backed(m, dir, base, frame, n, table) && i < n
    ensures
      var w := RemoveEntry(m, dir, Addr(base, i));
      Range(w, dir, base, n) && Backed(w, dir, base, frame, n, table - {i})
  {
    hide Write, PdeIdx, PteIdx, Range, Addr, Pde, Pte;
    var w, e := RemoveEntry(m, dir, Addr(base, i)), Pte(m, dir, Addr(base, i));
    RangeKept(m, w, dir, base, n, i, e - e % 2);
    var less := table - {i};
    forall j: nat ensures BackedAt(w, dir, base, frame, n, less, j) {
      assert BackedAt(m, dir, base, frame, n, table, j);
    }
  }

  /** The kernel's heap range in the boot directory: every table is there, and no two pages share an entry,
      although the first four megabytes mirror part of the range. */
  lemma BootRange(m: Memory, base: nat, n: nat)
    requires Boot(m) && KERNEL * ENTRIES <= base && base + n <= (ENTRIES - 1) * ENTRIES
    ensures Range(m, BOOT_DIR, base, n)
  {
    hide EntryFor, Boot;
    BootSelf(m);
    forall i: nat ensures ReadyAt(m, BOOT_DIR, base, n, i) {
      if i < n {
        KernelPage(base, n, i);
        BootEntry(m, Addr(base, i));
      }
    }
    forall i: nat, j: nat ensures NoAlias(m, BOOT_DIR, base, n, i, j) {
      if i < n && j < n && i != j {
        KernelPage(base, n, i);
        KernelPage(base, n, j);
        DifferentPages(base, i, j);
        BootMirror(m, Addr(base, i), Addr(base, j));
      }
    }
  }

  lemma DifferentPages(base: nat, i: nat, j: nat)
    requires i != j
    ensures Addr(base, i) / PAGE != Addr(base, j) / PAGE
  {
  }

  lemma KernelPage(base: nat, n: nat, i: nat)
    requires KERNEL * ENTRIES <= base && base + n <= (ENTRIES - 1) * ENTRIES && i < n
    ensures Addr(base, i) < SPACE && KERNEL <= PdeIdx(Addr(base, i)) < ENTRIES - 1
  {
  }

  /** A range of which nothing is mapped yet. */
  lemma BackedNone(m: Memory, dir: nat, base: nat, frame: nat, n: nat)
    requires forall i: nat :: i < n ==> !Mapped(m, dir, Addr(base, i))
    ensures Backed(m, dir, base, frame, n, map[])
  {
    hide Mapped, Addr, Translate;
    forall i: nat ensures BackedAt(m, dir, base, frame, n, map[], i) {
    }
  }
}

/** The page allocator. */
module PageAllocator {
  import opened Mmu
  import opened Paging
  import opened AddressSpaces
  import opened PageMaps
  import opened FiniteSets
  import opened BitRuns
  import opened Bitmap
  import opened PageStates
  import opened PageProofs

  lemma MappingStart(s: Pages, t: Pages, start: nat, n: nat)
    requires Consistent(s) && t == s.(vmap := t.vmap) && VmapTaken(s.vmap, t.vmap, start, n)
    ensures Mapping(s, t, start, n, 0)
  {
  }

  lemma MapsMore(t: map<nat, nat>, o: map<nat, Holder>, i: nat, f: nat)
    requires Maps(t, o) && i !in t && f !in o
    ensures Maps(t[i := f], o[f := ByPage(i)])
  {
  }

  lemma TakeFrame(pool: seq<bool>, o: map<nat, Holder>, f: nat, h: Holder)
    requires BitsOf(pool, o.Keys) && f < |pool| && !pool[f]
    ensures BitsOf(pool[f := true], o[f := h].Keys) && |Free(pool[f := true])| == |Free(pool)| - 1
  {
    assert Free(pool[f := true]) == Free(pool) - {f};
  }

  lemma MappingStep(s: Pages, t: Pages, u: Pages, start: nat, n: nat, k: nat, f: nat)
    requires Consistent(s) && ClearRun(s.vmap, start, n) && Mapping(s, t, start, n, k) && k < n && f < |t.pool|
    requires !t.pool[f]
    requires u == t.(pool := t.pool[f := true], table := t.table[start + k := f], owner := t.owner[f := ByPage(start + k)])
    ensures Mapping(s, u, start, n, k + 1)
  {
    hide Maps, BitsOf, VmapTaken, ClearRun, Free, TableGrown, OwnersGrown;
    OwnersKept(s.owner, t.owner, start, k);
    NotYet(s, t, start, n, k);
    FreeBefore(s, t, f);
    TableStep(s.table, t.table, s.pool, start, k, f);
    OwnersStep(s.owner, t.owner, start, k, f);
    MapsMore(t.table, t.owner, start + k, f);
    TakeFrame(t.pool, t.owner, f, ByPage(start + k));
  }

  /** A search fails exactly when nothing fits. */
  lemma FitOrNot(b: seq<bool>, n: nat)
    ensures forall r: int :: IsFirstFit(b, n, r) ==> (r == -1 <==> forall at: nat :: !ClearRun(b, at, n))
  {
    hide ClearRun;
  }

  lemma NoneYet(s: Pages, t: Pages, start: nat)
    ensures LowestFrames(s, t, start, 0)
  {
  }

  lemma LowestNext(s: Pages, t: Pages, u: Pages, start: nat, n: nat, k: nat, f: nat)
    requires Consistent(s) && ClearRun(s.vmap, start, n) && Mapping(s, t, start, n, k) && k < n && f < |t.pool|
    requires LowestFrames(s, t, start, k) && IsFirstFit(t.pool, 1, f) && !t.pool[f]
    requires u == t.(pool := t.pool[f := true], table := t.table[start + k := f], owner := t.owner[f := ByPage(start + k)])
    ensures LowestFrames(s, u, start, k + 1)
  {
    hide Maps, BitsOf, VmapTaken, ClearRun, Free, TableGrown, OwnersGrown, LowestFrames, IsFirstFit;
    OwnersKept(s.owner, t.owner, start, k);
    NotYet(s, t, start, n, k);
    FreeBefore(s, t, f);
    LowestStep(s, t, u, start, n, k, f);
  }

  lemma LowestStep(s: Pages, t: Pages, u: Pages, start: nat, n: nat, k: nat, f: nat)
    requires Mapping(s, t, start, n, k) && LowestFrames(s, t, start, k) && IsFirstFit(t.pool, 1, f) && f < |t.pool| && !s.pool[f]
    requires u == t.(pool := t.pool[f := true], table := t.table[start + k := f], owner := t.owner[f := ByPage(start + k)])
    requires start + k !in t.table
    ensures LowestFrames(s, u, start, k + 1)
  {
    hide Maps, BitsOf, VmapTaken, Free, OwnersGrown;
    assert ClearRun(t.pool, f, 1);
    forall g | 0 <= g < f ensures t.pool[g] {
      assert !ClearRun(t.pool, g, 1);
    }
    forall i | start <= i < start + k ensures t.table[i] < f {
      TakenNow(s, t, start, n, k, i);
    }
  }

  /** The frames of mapped pages are taken. */
  lemma TakenNow(s: Pages, t: Pages, start: nat, n: nat, k: nat, i: nat)
    requires Mapping(s, t, start, n, k) && i in t.table
    ensures t.table[i] < |t.pool| && t.pool[t.table[i]]
  {
    hide VmapTaken, Free, OwnersGrown, TableGrown;
  }

  lemma OwnersKept(o: map<nat, Holder>, p: map<nat, Holder>, start: nat, k: nat)
    requires OwnersGrown(o, p, start, k)
    ensures forall g :: g in o ==> g in p
  {
  }

  lemma TableStep(t: map<nat, nat>, u: map<nat, nat>, pool: seq<bool>, start: nat, k: nat, f: nat)
    requires TableGrown(t, u, pool, start, k) && start + k !in u && f < |pool| && !pool[f]
    ensures TableGrown(t, u[start + k := f], pool, start, k + 1)
  {
  }

  lemma OwnersStep(o: map<nat, Holder>, p: map<nat, Holder>, start: nat, k: nat, f: nat)
    requires OwnersGrown(o, p, start, k) && f !in p
    ensures OwnersGrown(o, p[f := ByPage(start + k)], start, k + 1)
  {
  }

  lemma NotYet(s: Pages, t: Pages, start: nat, n: nat, k: nat)
    requires VmapOk(s) && ClearRun(s.vmap, start, n) && k < n
    requires TableGrown(s.table, t.table, s.pool, start, k)
    ensures start + k !in t.table
  {
    assert !s.vmap[start + k];
  }

  lemma FreeBefore(s: Pages, t: Pages, f: nat)
    requires BitsOf(s.pool, s.owner.Keys) && BitsOf(t.pool, t.owner.Keys) && |t.pool| == |s.pool| && f < |t.pool|
    requires !t.pool[f]
    requires forall g :: g in s.owner ==> g in t.owner
    ensures !s.pool[f] && f !in t.owner
  {
  }

  lemma MappedConsistent(s: Pages, t: Pages, start: nat, n: nat, k: nat)
    requires Consistent(s) && ClearRun(s.vmap, start, n) && Mapping(s, t, start, n, k)
    ensures Consistent(t) <==> k == n
  {
    hide Maps, Free, OwnersGrown;
    if k < n {
      NotYet(s, t, start, n, k);
    }
  }

  /** Giving back a run restores everything, whichever frames it had. */
  lemma TakeThenRelease(s: Pages, t: Pages, w: Pages, start: nat, n: nat)
    requires Consistent(s) && ClearRun(s.vmap, start, n) && Mapping(s, t, start, n, n) && Unmapping(t, w, start, n)
    ensures w == s
  {
    VmapBack(s, t, w, start, n);
    TableBack(s, t, w, start, n);
    OwnersBack(s, t, w, start, n);
    PoolBack(s, w);
  }

  lemma VmapBack(s: Pages, t: Pages, w: Pages, start: nat, n: nat)
    requires ClearRun(s.vmap, start, n) && VmapTaken(s.vmap, t.vmap, start, n) && Unmapping(t, w, start, n)
    ensures w.vmap == s.vmap
  {
    hide BitsOf;
  }

  lemma TableBack(s: Pages, t: Pages, w: Pages, start: nat, n: nat)
    requires VmapOk(s) && ClearRun(s.vmap, start, n)
    requires TableGrown(s.table, t.table, s.pool, start, n) && Unmapping(t, w, start, n)
    ensures w.table == s.table
  {
    forall i | i in s.table ensures !(start <= i < start + n) {
      assert s.vmap[i];
    }
  }

  lemma OwnersBack(s: Pages, t: Pages, w: Pages, start: nat, n: nat)
    requires Maps(s.table, s.owner) && VmapOk(s) && ClearRun(s.vmap, start, n)
    requires OwnersGrown(s.owner, t.owner, start, n) && Unmapping(t, w, start, n)
    ensures w.owner == s.owner
  {
    forall f | f in s.owner && s.owner[f].ByPage? ensures !(start <= s.owner[f].page < start + n) {
      assert s.vmap[s.owner[f].page];
    }
    hide BitsOf, ClearRun, Maps;
    forall f ensures f in w.owner <==> f in s.owner {
    }
  }

  lemma PoolBack(s: Pages, w: Pages)
    requires BitsOf(s.pool, s.owner.Keys) && BitsOf(w.pool, w.owner.Keys) && w.owner == s.owner
    requires |w.pool| == |s.pool|
    ensures w.pool == s.pool
  {
  }

  // ---- giving back ----

  /** `t` has given back the first `k` pages of the run; the map of virtual pages is as it was. */
  ghost predicate Releasing(s: Pages, t: Pages, start: nat, k: nat) {
    && t.vmap == s.vmap && t.foreign == s.foreign && |t.pool| == |s.pool| && t.table == s.table - RunOf(start, k)
    && (forall f :: f in t.owner <==> f in s.owner && !(s.owner[f].ByPage? && start <= s.owner[f].page < start + k))
    && (forall f :: f in t.owner ==> f in s.owner && t.owner[f] == s.owner[f])
    && BitsOf(t.pool, t.owner.Keys)
  }

  lemma ReleasingStart(s: Pages, start: nat)
    requires Consistent(s)
    ensures Releasing(s, s, start, 0)
  {
    hide Maps, BitsOf, VmapOk;
    assert s.table - RunOf(start, 0) == s.table;
  }

  lemma ReleasingStep(s: Pages, t: Pages, u: Pages, start: nat, k: nat, f: nat)
    requires Maps(s.table, s.owner) && Releasing(s, t, start, k) && start + k in s.table && f == s.table[start + k]
    requires f < |t.pool|
    requires u == t.(pool := t.pool[f := false], table := t.table - {start + k}, owner := t.owner - {f})
    ensures Releasing(s, u, start, k + 1)
  {
    DropFrame(t.pool, t.owner, f);
    hide BitsOf;
    assert u.table == s.table - RunOf(start, k + 1);
    forall g ensures g in u.owner <==> g in s.owner && !(s.owner[g].ByPage? && start <= s.owner[g].page < start + k + 1) {
    }
  }

  lemma DropFrame(pool: seq<bool>, o: map<nat, Holder>, f: nat)
    requires BitsOf(pool, o.Keys) && f < |pool|
    ensures BitsOf(pool[f := false], (o - {f}).Keys)
  {
  }

  lemma VmapReleased(b: seq<bool>, c: seq<bool>, taken: set<nat>, start: nat, n: nat)
    requires BitsOf(b, taken) && |c| == |b|
    requires forall i :: 0 <= i < |b| ==> (c[i] <==> b[i] && !(start <= i < start + n))
    ensures BitsOf(c, taken - RunOf(start, n))
  {
  }

  lemma KeysLess(s: Pages, u: Pages, start: nat, n: nat)
    requires |u.vmap| == |s.vmap| > 0 && u.table == s.table - RunOf(start, n) && u.foreign == s.foreign
    requires s.foreign ==> |s.vmap| - 1 !in s.table
    requires forall i :: start <= i < start + n ==> i in s.table
    ensures Taken(u) == Taken(s) - RunOf(start, n)
  {
    assert s.foreign ==> |s.vmap| - 1 !in RunOf(start, n);
  }

  lemma TakenLess(s: Pages, u: Pages, start: nat, n: nat)
    requires VmapOk(s) && u.table == s.table - RunOf(start, n) && u.foreign == s.foreign
    requires |u.vmap| == |s.vmap| && forall i :: 0 <= i < |s.vmap| ==> (u.vmap[i] <==> s.vmap[i] && !(start <= i < start + n))
    requires forall i :: start <= i < start + n ==> i in s.table
    ensures VmapOk(u)
  {
    hide BitsOf;
    VmapReleased(s.vmap, u.vmap, Taken(s), start, n);
    KeysLess(s, u, start, n);
  }

  lemma MapsLess(s: Pages, t: Pages, start: nat, n: nat)
    requires Maps(s.table, s.owner) && Releasing(s, t, start, n)
    ensures Maps(t.table, t.owner)
  {
    hide BitsOf;
  }

  lemma ReleasedUnmaps(s: Pages, t: Pages, u: Pages, start: nat, n: nat)
    requires Consistent(s) && Releasing(s, t, start, n) && u == t.(vmap := u.vmap) && start + n <= |s.vmap|
    requires |u.vmap| == |s.vmap| && forall i :: 0 <= i < |s.vmap| ==> (u.vmap[i] <==> s.vmap[i] && !(start <= i < start + n))
    requires forall i :: start <= i < start + n ==> i in s.table
    ensures Unmapping(s, u, start, n) && Consistent(u)
  {
    hide BitsOf, Maps, VmapOk;
    MapsLess(s, t, start, n);
    TakenLess(s, u, start, n);
  }

  lemma ConsistentPool(s: Pages)
    requires Consistent(s)
    ensures BitsOf(s.pool, s.owner.Keys)
  {
  }

  ghost function TableTaken(s: Pages, f: nat): Pages
    requires f < |s.pool|
  {
    s.(pool := s.pool[f := true], owner := s.owner[f := ByTables])
  }

  /** A frame for a page table: nobody had it, and nothing else changes. */
  lemma TableTakenOk(s: Pages, f: nat)
    requires Consistent(s) && f < |s.pool| && !s.pool[f]
    ensures f !in s.owner && Consistent(TableTaken(s, f)) && Tables(TableTaken(s, f)) == Tables(s) + {f}
  {
    hide VmapOk, Free;
    TakeFrame(s.pool, s.owner, f, ByTables);
    assert f !in s.owner;
    VmapSame(s, TableTaken(s, f));
  }

  lemma VmapSame(s: Pages, t: Pages)
    requires VmapOk(s) && t.vmap == s.vmap && t.table == s.table && t.foreign == s.foreign
    ensures VmapOk(t)
  {
  }

  function NoPages(n: nat, foreign: bool): Pages {
    Pages(seq(n, i => false), seq(n + 1, i => i == n && foreign), map[], map[], foreign)
  }

  lemma NoPagesOk(n: nat, foreign: bool)
    ensures Consistent(NoPages(n, foreign)) && Tables(NoPages(n, foreign)) == {}
  {
  }

  /** The allocator of one range of pages and one pool of frames. `base` is the number of the range's first
      page, `frame` that of the pool's first frame. `table` is bookkeeping for what the page tables say. */
  class PageAllocator {
    var pool: seq<bool>
    var vmap: seq<bool>
    const tables: PageTables
    const base: nat
    const frame: nat
    ghost var table: map<nat, nat>
    ghost var owner: map<nat, Holder>
    ghost const foreign: bool

    /** A pool of `n` free frames and a range of `n` pages, none of them mapped. */
    constructor (n: nat, tables: PageTables, base: nat, frame: nat, foreign: bool)
      requires Range(tables.mem, tables.dir, base, n + 1) && LOWEST_FRAME <= frame
      requires forall i: nat :: i < n + 1 ==> !Mapped(tables.mem, tables.dir, Addr(base, i))
      ensures this.tables == tables && this.base == base && this.frame == frame
      ensures State() == NoPages(n, foreign) && Consistent(State()) && Wired()
    {
      pool, vmap := seq(n, i => false), seq(n + 1, i => i == n && foreign);
      this.tables, this.base, this.frame, this.foreign := tables, base, frame, foreign;
      table, owner := map[], map[];
      new;
      NoPagesOk(n, foreign);
      BackedNone(tables.mem, tables.dir, base, frame, n + 1);
    }

    ghost function State(): Pages
      reads this
    {
      Pages(pool, vmap, table, owner, foreign)
    }

    /** The page tables say what `table` says. */
    ghost predicate Wired()
      reads this, tables
    {
      && Range(tables.mem, tables.dir, base, |vmap|) && Backed(tables.mem, tables.dir, base, frame, |vmap|, table)
      && LOWEST_FRAME <= frame
    }

    /** Takes a free frame for `holder`. */
    method Palloc(ghost holder: Holder) returns (f: int)
      requires BitsOf(pool, owner.Keys)
      modifies this`pool, this`owner
      ensures IsFirstFit(old(pool), 1, f)
      ensures f == -1 <==> Free(old(pool)) == {}
      ensures f == -1 ==> pool == old(pool) && owner == old(owner)
      ensures f != -1 ==> 0 <= f < |old(pool)| && !old(pool)[f] && pool == old(pool)[f := true] && owner == old(owner)[f := holder]
    {
      f := FirstFit(pool, 1);
      if f == -1 {
        forall i | 0 <= i < |pool| ensures pool[i] {
          assert !ClearRun(pool, i, 1);
        }
        return;
      }
      assert f in Free(pool);
      pool := pool[f := true];
      owner := owner[f := holder];
    }

    /** Takes a free frame for a page table. No page is mapped to it. */
    method TableFrame() returns (f: int)
      requires Consistent(State())
      modifies this`pool, this`owner
      ensures f == -1 <==> Free(old(pool)) == {}
      ensures f == -1 ==> State() == old(State())
      ensures f != -1 ==> 0 <= f < |old(pool)| && State() == TableTaken(old(State()), f)
      ensures Consistent(State())
    {
      hide Consistent, Free;
      ghost var s := State();
      ConsistentPool(s);
      f := Palloc(ByTables);
      if f != -1 {
        TableTakenOk(s, f);
      }
    }

    /** Takes the first fit for `n` virtual pages. */
    method VaddrGet(n: nat) returns (start: int)
      requires n >= 1 && |vmap| > 0
      modifies this`vmap
      ensures IsFirstFit(Searched(old(vmap), n), n, start)
      ensures start == -1 ==> vmap == old(vmap)
      ensures start != -1 ==> ClearRun(old(vmap), start, n) && VmapTaken(old(vmap), vmap, start, n)
    {
      start := FirstFit(Searched(vmap, n), n);
      if start == -1 {
        return;
      }
      assert forall i :: start <= i < start + n ==> Searched(vmap, n)[i] == vmap[i];
      var cnt := 0;
      while cnt < n
        invariant cnt <= n && VmapTaken(old(vmap), vmap, start, cnt)
      {
        vmap := vmap[start + cnt := true];
        cnt := cnt + 1;
      }
    }

    /** Enters page `i` in the page tables. The check that it is not entered yet passes. */
    method MapPage(i: nat, f: nat)
      requires Wired() && i < |vmap| && i !in table
      modifies this`table, tables
      ensures table == old(table)[i := f] && Wired()
    {
      hide Range, Backed, PdeIdx, Addr, AddEntry, Pde;
      AddBacked(tables.mem, tables.dir, base, frame, |vmap|, table, i, f);
      ReadyIs(tables.mem, tables.dir, base, |vmap|, i);
      var ok := tables.PageTableAdd(Addr(base, i), frame + f, 0);
      assert ok;
      table := table[i := f];
    }

    /** Removes page `i` from the page tables: the frame it was in, counted from the first of the pool. */
    method UnmapPage(i: nat) returns (f: nat)
      requires Wired() && i < |vmap| && i in table && table[i] < |pool|
      modifies this`table, tables
      ensures f == old(table)[i] && table == old(table) - {i} && Wired()
    {
      hide Range, Backed, PdeIdx, Addr, RemoveEntry, Pde;
      BackedIs(tables.mem, tables.dir, base, frame, |vmap|, table, i);
      ReadyIs(tables.mem, tables.dir, base, |vmap|, i);
      PageAligned(base, i);
      var p := tables.AddrV2P(Addr(base, i));
      assert p % PAGE == 0 && p >= 0x102000 && frame * PAGE <= p < (frame + |pool|) * PAGE;
      f := p / PAGE - frame;
      RemoveBacked(tables.mem, tables.dir, base, frame, |vmap|, table, i);
      tables.PageTableRemove(Addr(base, i));
      table := table - {i};
    }

    /** Maps a run of `n` pages. Failing half way leaves what was done. */
    method MallocPage(n: nat) returns (r: MallocPages, ghost start: int)
      requires Consistent(State()) && Wired()
      modifies this, tables
      ensures Wired()
      ensures 1 <= n < MAX_PAGES ==> IsFirstFit(Searched(old(vmap), n), n, start)
      ensures (start == -1 || start >= 0) && r == Outcome(old(State()), n, start)
      ensures r.Got? ==> ClearRun(old(vmap), start, n) && Mapping(old(State()), State(), start, n, n) && Consistent(State())
      ensures (r.Panics? <==> n == 0 || n >= 3840) && (r.Nothing? <==> 1 <= n < 3840 && forall at: nat :: !ClearRun(Searched(old(vmap), n), at, n))
      ensures r.Got? || r.Partial? ==> (r.Got? <==> |Free(old(pool))| >= n)
      ensures r.Got? ==> LowestFrames(old(State()), State(), start, n)
      ensures r.Partial? ==> ClearRun(old(vmap), start, n) && Mapping(old(State()), State(), start, n, |Free(old(pool))|) && !Consistent(State())
      ensures r.Nothing? || r.Panics? ==> State() == old(State())
    {
      hide Maps, BitsOf, TableGrown, OwnersGrown, VmapTaken, Free, ClearRun, Searched, IsFirstFit, VmapOk, Range, Backed, PdeIdx, Addr,
        LowestFrames;
      SomePages(State());
      start := -1;
      FitOrNot(Searched(vmap, n), n);
      if !(n > 0 && n < MAX_PAGES) {
        return Panics, start;
      }
      ghost var s := State();
      var first := VaddrGet(n);
      start := first;
      if first == -1 {
        return Nothing, start;
      }
      FitStarts(Searched(s.vmap, n), n, first);
      MappingStart(s, State(), first, n);
      NoneYet(s, State(), first);
      var k := 0;
      while k < n
        invariant 0 <= k <= n && Mapping(s, State(), first, n, k) && LowestFrames(s, State(), first, k) && Wired()
      {
        ghost var t := State();
        var f := Palloc(ByPage(first + k));
        if f == -1 {
          NoneLeft(s, t, first, n, k);
          return Partial(first), start;
        }
        PageOfRun(s, t, first, n, k);
        MapPage(first + k, f);
        MappingStep(s, t, State(), first, n, k, f);
        LowestNext(s, t, State(), first, n, k, f);
        k := k + 1;
      }
      MappedConsistent(s, State(), first, n, n);
      r := Got(first);
    }

    /** Unmaps `n` pages and frees their frames and addresses. */
    method MfreePage(start: nat, n: nat)
      requires Consistent(State()) && Wired() && n >= 1 && forall i :: start <= i < start + n ==> i in table
      modifies this, tables
      ensures Wired()
      ensures Unmapping(old(State()), State(), start, n) && Consistent(State())
    {
      hide BitsOf, Maps, Releasing, Unmapping, Range, Backed, VmapOk, PdeIdx, Addr;
      ghost var s := State();
      InRange(s, start, n);
      ReleasingStart(s, start);
      var cnt := 0;
      while cnt < n
        invariant 0 <= cnt <= n && Releasing(s, State(), start, cnt) && vmap == s.vmap && Wired()
      {
        ghost var t := State();
        StillMapped(s, t, start, n, cnt);
        var f := UnmapPage(start + cnt);
        pool := pool[f := false];
        owner := owner - {f};
        ReleasingStep(s, t, State(), start, cnt, f);
        cnt := cnt + 1;
      }
      ghost var t := State();
      cnt := 0;
      while cnt < n
        invariant 0 <= cnt <= n && |vmap| == |s.vmap|
        invariant forall i :: 0 <= i < |s.vmap| ==> (vmap[i] <==> s.vmap[i] && !(start <= i < start + cnt))
        invariant State() == t.(vmap := vmap) && Wired()
      {
        vmap := vmap[start + cnt := false];
        cnt := cnt + 1;
      }
      ReleasedUnmaps(s, t, State(), start, n);
    }
  }

  lemma SomePages(s: Pages)
    requires Consistent(s)
    ensures |s.vmap| > 0
  {
    hide Maps, BitsOf;
  }

  lemma PageAligned(base: nat, i: nat)
    ensures Addr(base, i) % PAGE == 0
  {
  }

  lemma BackedIs(m: Memory, dir: nat, base: nat, frame: nat, n: nat, table: map<nat, nat>, i: nat)
    requires Backed(m, dir, base, frame, n, table) && i < n && i in table
    ensures Mapped(m, dir, Addr(base, i)) && Translate(m, dir, Addr(base, i)) == frame + table[i]
  {
    hide Mapped, Translate, Addr;
    assert BackedAt(m, dir, base, frame, n, table, i);
  }

  /** The next page of a run is in range and not mapped. */
  lemma PageOfRun(s: Pages, t: Pages, start: nat, n: nat, k: nat)
    requires Consistent(s) && ClearRun(s.vmap, start, n) && Mapping(s, t, start, n, k) && k < n
    ensures start + k < |t.vmap| && start + k !in t.table
  {
    NotYet(s, t, start, n, k);
  }

  lemma FitStarts(b: seq<bool>, n: nat, r: int)
    requires IsFirstFit(b, n, r)
    ensures r == -1 || r >= 0
  {
  }

  lemma NoneLeft(s: Pages, t: Pages, start: nat, n: nat, k: nat)
    requires Consistent(s) && ClearRun(s.vmap, start, n) && Mapping(s, t, start, n, k) && k < n && Free(t.pool) == {}
    ensures |Free(s.pool)| == k && !Consistent(t)
  {
    MappedConsistent(s, t, start, n, k);
  }

  lemma InRange(s: Pages, start: nat, n: nat)
    requires Consistent(s) && n >= 1 && forall i :: start <= i < start + n ==> i in s.table
    ensures start + n <= |s.vmap|
  {
    assert start + n - 1 in s.table;
  }

  lemma StillMapped(s: Pages, t: Pages, start: nat, n: nat, k: nat)
    requires Consistent(s) && Releasing(s, t, start, k) && k < n && forall i :: start <= i < start + n ==> i in s.table
    ensures start + k in t.table && t.table[start + k] == s.table[start + k] && t.table[start + k] < |t.pool|
  {
  }
}
