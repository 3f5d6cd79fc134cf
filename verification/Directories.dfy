/** Directory operations on the blocks of a partition. */
module Directories {
  import opened Sectors
  import opened BitRuns
  import opened Volumes
  import opened FileIO
  import opened FileAppend
  import opened DirEntries
  import opened DirViews
  import opened DirStates
  import opened DirListing
  import opened Queues

  lemma UntouchedView(v: Vol, w: Vol, q: nat)
    requires Untouched(v, w, q)
    ensures DirView(w, q) == DirView(v, q)
  {
    var n := v.inodes[q];
    forall i | 0 <= i < 12 ensures ViewOf(w.disk, n)[i] == ViewOf(v.disk, n)[i] {
      assert Place(v.disk, n, i) == n.sectors[i];
    }
  }

  /** Overwriting a data block moves nobody's blocks. */
  lemma DataKeepsLayouts(v: Vol, d: Disk, ino: nat, i: nat)
    requires Sound(v) && ino in v.inodes && i < MAX_BLOCKS && Place(v.disk, v.inodes[ino], i) != 0
    requires forall l: nat :: l != Place(v.disk, v.inodes[ino], i) ==> Get(d, l) == Get(v.disk, l)
    ensures Layouts(d, v.inodes) == Layouts(v.disk, v.inodes)
  {
    assert Layouts(v.disk, v.inodes)[ino][i] == Place(v.disk, v.inodes[ino], i);
    forall q | q in v.inodes && v.inodes[q].sectors[12] != 0
      ensures Get(d, v.inodes[q].sectors[12]) == Get(v.disk, v.inodes[q].sectors[12])
    {
      OthersTable(v, q);
    }
    LayoutsKept(v.disk, d, v.inodes);
  }

  lemma DataKeepsOthers(v: Vol, w: Vol, ino: nat, i: nat)
    requires Sound(v) && ino in v.inodes && i < MAX_BLOCKS && Place(v.disk, v.inodes[ino], i) != 0
    requires forall l: nat :: l != Place(v.disk, v.inodes[ino], i) ==> Get(w.disk, l) == Get(v.disk, l)
    requires w.inodes.Keys == v.inodes.Keys && forall q :: q in v.inodes && q != ino ==> w.inodes[q] == v.inodes[q]
    ensures forall q :: q in v.inodes && q != ino ==> Untouched(v, w, q)
  {
    assert Layouts(v.disk, v.inodes)[ino][i] == Place(v.disk, v.inodes[ino], i);
    forall q | q in v.inodes && q != ino ensures Untouched(v, w, q) {
      OthersUntouched(v, w, ino, q);
    }
  }

  /** Overwriting one data block and the size of one inode touches no other inode. */
  lemma DataWritten(v: Vol, w: Vol, ino: nat, i: nat, sec: Sector, size: nat)
    requires Sound(v) && ino in v.inodes && i < MAX_BLOCKS && Place(v.disk, v.inodes[ino], i) != 0
    requires w == v.(disk := v.disk[Place(v.disk, v.inodes[ino], i) := sec], inodes := v.inodes[ino := v.inodes[ino].(size := size)])
    ensures Sound(w) && SamePlan(v, w)
    ensures forall q :: q in v.inodes && q != ino ==> Untouched(v, w, q)
  {
    assert Layouts(v.disk, v.inodes)[ino][i] == Place(v.disk, v.inodes[ino], i);
    DataKeepsLayouts(v, w.disk, ino, i);
    SizeOnly(v, w, ino);
    DataKeepsOthers(v, w, ino, i);
  }

  /** The blocks of one directory are pairwise different. */
  lemma BlocksDiffer(v: Vol, ino: nat, i: nat, j: nat)
    requires Sound(v) && ino in v.inodes && i < 12 && j < 12 && i != j && v.inodes[ino].sectors[i] != 0
    ensures v.inodes[ino].sectors[i] != v.inodes[ino].sectors[j]
  {
    var l := Layouts(v.disk, v.inodes)[ino];
    assert l[i] == v.inodes[ino].sectors[i] && l[j] == v.inodes[ino].sectors[j];
    assert v.owner[l[i]] == (ino, i);
  }

  lemma ViewWritten(d: Disk, n: INode, m: INode, i: nat, sec: Sector)
    requires |n.sectors| == 13 && m.sectors == n.sectors && i < 12 && n.sectors[i] != 0
    requires forall j :: 0 <= j < 12 && j != i ==> n.sectors[j] != n.sectors[i]
    ensures ViewOf(d[n.sectors[i] := sec], m) == ViewOf(d, n)[i := Slots(sec)]
  {
  }

  lemma BlockWritten(v: Vol, w: Vol, ino: nat, i: nat, sec: Sector, size: nat)
    requires Sound(v) && ino in v.inodes && i < 12 && v.inodes[ino].sectors[i] != 0
    requires w == v.(disk := v.disk[v.inodes[ino].sectors[i] := sec], inodes := v.inodes[ino := v.inodes[ino].(size := size)])
    ensures DirChanged(v, w, ino, DirView(v, ino)[i := Slots(sec)], size)
  {
    DataWritten(v, w, ino, i, sec, size);
    forall j | 0 <= j < 12 && j != i ensures v.inodes[ino].sectors[j] != v.inodes[ino].sectors[i] {
      BlocksDiffer(v, ino, i, j);
    }
    ViewWritten(v.disk, v.inodes[ino], w.inodes[ino], i, sec);
  }

  lemma SlotStored(v: Vol, w: Vol, ino: nat, i: nat, k: nat, e: Slot, size: nat)
    requires Sound(v) && ino in v.inodes && i < 12 && v.inodes[ino].sectors[i] != 0 && k < PER_SECTOR && ValidSlot(e)
    requires
      var lba := v.inodes[ino].sectors[i];
      w == v.(disk := v.disk[lba := Splice(Get(v.disk, lba), ENTRY_SIZE * k, Encode(e))],
              inodes := v.inodes[ino := v.inodes[ino].(size := size)])
    ensures DirChanged(v, w, ino, DirView(v, ino)[i := DirView(v, ino)[i][k := e]], size)
  {
    var sec := Get(v.disk, v.inodes[ino].sectors[i]);
    SlotWritten(sec, k, e);
    BlockWritten(v, w, ino, i, Splice(sec, ENTRY_SIZE * k, Encode(e)), size);
  }

  lemma DirChangedTrans(u: Vol, v: Vol, w: Vol, ino: nat, x: View, a: nat, y: View, b: nat)
    requires DirChanged(u, v, ino, x, a) && DirChanged(v, w, ino, y, b)
    ensures DirChanged(u, w, ino, y, b)
  {
    forall q | q in u.inodes && q != ino ensures Untouched(u, w, q) {
      UntouchedTrans(u, v, w, q);
    }
  }

  /** A directory that has just been given a block is a sound inode, its other blocks as before. */
  lemma HoleFilled(v: Vol, w: Vol, ino: nat, i: nat, lba: Word)
    requires Sound(v) && ino in v.inodes && i < 12 && v.inodes[ino].sectors[12] == 0 && lba != 0
    requires Growing(v, w, ino, Put(Layout(v.disk, v.inodes[ino]), i, lba))
    ensures Sound(w) && w.inodes[ino].sectors == Put(v.inodes[ino].sectors, i, lba)
    ensures forall q :: q in v.inodes && q != ino ==> Untouched(v, w, q)
  {
    var l := Put(Layout(v.disk, v.inodes[ino]), i, lba);
    assert Layout(w.disk, w.inodes[ino]) == l by {
      forall j | 0 <= j <= TABLE ensures Layout(w.disk, w.inodes[ino])[j] == l[j] {
      }
    }
    Settled(v, w, ino, l);
    forall q | q in v.inodes && q != ino ensures Untouched(v, w, q) {
      OthersUntouched(v, w, ino, q);
    }
  }

  lemma AloneSlots(e: Slot)
    requires ValidSlot(e)
    ensures Slots(Splice(Zeros(512), 0, Encode(e))) == Alone(e)
  {
    ZeroSlots();
    SlotWritten(Zeros(512), 0, e);
  }

  lemma FreshBlockStored(v: Vol, w: Vol, x: Vol, ino: nat, i: nat, lba: Word, e: Slot, size: nat)
    requires Sound(v) && ino in v.inodes && i < 12 && v.inodes[ino].sectors[12] == 0 && lba != 0 && ValidSlot(e)
    requires Growing(v, w, ino, Put(Layout(v.disk, v.inodes[ino]), i, lba))
    requires x == w.(disk := w.disk[lba := Splice(Zeros(512), 0, Encode(e))],
                     inodes := w.inodes[ino := w.inodes[ino].(size := size)])
    ensures DirChanged(v, x, ino, DirView(v, ino)[i := Alone(e)], size)
  {
    HoleFilled(v, w, ino, i, lba);
    BlockWritten(w, x, ino, i, Splice(Zeros(512), 0, Encode(e)), size);
    AloneSlots(e);
    OtherBlocks(v.disk, v.inodes[ino], w.inodes[ino], i, Alone(e));
    forall q | q in v.inodes && q != ino ensures Untouched(v, x, q) {
      UntouchedTrans(v, w, x, q);
    }
  }

  lemma OtherBlocks(d: Disk, n: INode, m: INode, i: nat, b: seq<Slot>)
    requires |n.sectors| == 13 && |m.sectors| == 13 && i < 12
    requires forall j :: 0 <= j < 12 && j != i ==> n.sectors[j] == m.sectors[j]
    ensures ViewOf(d, n)[i := b] == ViewOf(d, m)[i := b]
  {
  }

  // ---- insertion ----

  method FindFree(b: seq<Slot>) returns (k: nat)
    ensures FirstFree(b, k)
  {
    k := 0;
    while k < |b| && Live(b[k])
      invariant k <= |b| && forall j :: 0 <= j < k ==> Live(b[j])
    {
      k := k + 1;
    }
  }

  /** Writes the entry into slot `k` of block `i` and counts it. */
  method StoreSlot(vol: Volume, ino: nat, i: nat, k: nat, e: Slot)
    requires Sound(vol.State()) && ino in vol.inodes && i < 12 && vol.inodes[ino].sectors[i] != 0
    requires k < PER_SECTOR && ValidSlot(e)
    modifies vol
    ensures var x := old(DirView(vol.State(), ino));
            DirChanged(old(vol.State()), vol.State(), ino, x[i := x[i][k := e]], old(vol.inodes[ino].size) + ENTRY_SIZE)
    ensures vol.bmap == old(vol.bmap)
  {
    ghost var v := vol.State();
    var n := vol.inodes[ino];
    var lba := n.sectors[i];
    vol.disk := vol.disk[lba := Splice(Get(vol.disk, lba), ENTRY_SIZE * k, Encode(e))];
    vol.inodes := vol.inodes[ino := n.(size := n.size + ENTRY_SIZE)];
    SlotStored(v, vol.State(), ino, i, k, e, n.size + ENTRY_SIZE);
  }

  /** Gives the directory a fresh block `i` whose first slot is the entry. */
  method StoreInFreshBlock(vol: Volume, ino: nat, i: nat, e: Slot) returns (ok: bool)
    requires Sound(vol.State()) && ino in vol.inodes && i < 12 && ValidSlot(e)
    requires vol.inodes[ino].sectors[i] == 0 && vol.inodes[ino].sectors[12] == 0
    modifies vol
    ensures ok <==> old(Free(vol.bmap)) != {}
    ensures !ok ==> vol.State() == old(vol.State())
    ensures ok ==> DirChanged(old(vol.State()), vol.State(), ino, old(DirView(vol.State(), ino))[i := Alone(e)], old(vol.inodes[ino].size) + ENTRY_SIZE)
  {
    ghost var v := vol.State();
    ghost var l := Layout(vol.disk, vol.inodes[ino]);
    GrowingStart(v, ino);
    var lba := vol.BlockBitmapAlloc(ino, i);
    if lba == -1 {
      return false;
    }
    var n := vol.inodes[ino];
    var ss := Put(n.sectors, i, lba);
    vol.inodes := vol.inodes[ino := n.(sectors := ss)];
    GrowingStep(v, v, ino, l, vol.State(), i, lba);
    ghost var w := vol.State();
    vol.disk := vol.disk[lba := Splice(Zeros(512), 0, Encode(e))];
    vol.inodes := vol.inodes[ino := n.(sectors := ss, size := n.size + ENTRY_SIZE)];
    FreshBlockStored(v, w, vol.State(), ino, i, lba, e, n.size + ENTRY_SIZE);
    ok := true;
  }

  lemma Gained(v: Vol, w: Vol, ino: nat, e: Slot, y: View, size: nat)
    requires IsDir(v, ino) && DirChanged(v, w, ino, y, size) && DirOk(y, ino, size)
    requires Gains(DirView(v, ino), y, e)
    ensures DirGained(v, w, ino, e)
  {
  }

  /** A new entry in a free slot is named once. */
  lemma StoredOnce(x: View, i: nat, k: nat, e: Slot)
    requires i < |x| && k < |x[i]| && !Live(x[i][k]) && Fresh(x, e)
    ensures TwiceIs(x, x[i := x[i][k := e]], e.ino, false)
  {
    var y := x[i := x[i][k := e]];
    forall j: nat, m | j < |x| && 0 <= m < |x[j]| ensures !IsRef(x[j][m], e.ino) {
      assert LiveAt(x, j, m) ==> !Clash(x[j][m], e);
    }
    forall t: nat, j: nat ensures NamedTwice(y, j, t) <==> NamedTwice(x, j, t) {
      SlotTwice(x, i, k, e, j, t);
    }
    assert forall j: nat :: !NamedTwice(x, j, e.ino);
  }

  lemma SlotTwice(x: View, i: nat, k: nat, e: Slot, j: nat, t: nat)
    requires i < |x| && k < |x[i]| && !Live(x[i][k])
    requires forall j: nat, m :: j < |x| && 0 <= m < |x[j]| ==> !IsRef(x[j][m], e.ino)
    ensures NamedTwice(x[i := x[i][k := e]], j, t) <==> NamedTwice(x, j, t)
  {
    var y := x[i := x[i][k := e]];
    if NamedTwice(x, j, t) {
      var a, b :| 0 <= a < b < |x[j]| && IsRef(x[j][a], t) && IsRef(x[j][b], t);
      assert IsRef(y[j][a], t) && IsRef(y[j][b], t);
    }
    if NamedTwice(y, j, t) {
      var a, b :| 0 <= a < b < |y[j]| && IsRef(y[j][a], t) && IsRef(y[j][b], t);
      assert IsRef(x[j][a], t) && IsRef(x[j][b], t);
    }
  }

  /** A new entry in a fresh block is named twice. */
  lemma StoredTwice(x: View, i: nat, e: Slot)
    requires i < |x| && x[i] == [] && Fresh(x, e)
    ensures TwiceIs(x, x[i := Doubled(e)], e.ino, true)
  {
    var y := x[i := Doubled(e)];
    assert y[i][0] == e && y[i][1] == e && IsRef(y[i][0], e.ino) && NamedTwice(y, i, e.ino);
    forall t: nat, j: nat | t != e.ino ensures NamedTwice(y, j, t) <==> NamedTwice(x, j, t) {
      if j == i {
        forall m | 0 <= m < |y[i]| ensures !IsRef(y[i][m], t) {
        }
      }
    }
  }

  lemma GainedFree(v: Vol, w: Vol, ino: nat, i: nat, k: nat, e: Slot, x: View, y: View)
    requires IsDir(v, ino) && x == DirView(v, ino) && Fresh(x, e) && i < 12 && k < |x[i]| && !Live(x[i][k])
    requires y == x[i := x[i][k := e]] && DirChanged(v, w, ino, y, v.inodes[ino].size + ENTRY_SIZE)
    ensures DirGained(v, w, ino, e) && TwiceIs(x, DirView(w, ino), e.ino, false) && DirView(w, ino) == y
  {
    StoredOnce(x, i, k, e);
    InsertFree(x, ino, v.inodes[ino].size, i, k, e, y);
    Gained(v, w, ino, e, y, v.inodes[ino].size + ENTRY_SIZE);
  }

  lemma GainedTwice(v: Vol, w: Vol, ino: nat, i: nat, e: Slot)
    requires IsDir(v, ino) && Fresh(DirView(v, ino), e) && i < 12 && DirView(v, ino)[i] == []
    requires DirChanged(v, w, ino, DirView(v, ino)[i := Doubled(e)], v.inodes[ino].size + 2 * ENTRY_SIZE)
    ensures DirGained(v, w, ino, e) && TwiceIs(DirView(v, ino), DirView(w, ino), e.ino, true)
    ensures DirView(w, ino) == DirView(v, ino)[i := Doubled(e)]
  {
    var y := DirView(v, ino)[i := Doubled(e)];
    StoredTwice(DirView(v, ino), i, e);
    InsertFreshBlock(DirView(v, ino), ino, v.inodes[ino].size, i, e, y);
    Gained(v, w, ino, e, y, v.inodes[ino].size + 2 * ENTRY_SIZE);
  }

  /** The second store into a fresh block: slot 1 is the first free one. */
  lemma AloneThenAgain(x: View, i: nat, e: Slot, k: nat)
    requires |x| == 12 && i < 12 && Live(e) && FirstFree(Alone(e), k)
    ensures k == 1
    ensures x[i := Alone(e)][i := Alone(e)[k := e]] == x[i := Doubled(e)]
  {
    assert Alone(e)[1] == EMPTY;
    assert Alone(e)[1 := e] == Doubled(e);
  }

  lemma GainedAgain(u: Vol, v: Vol, w: Vol, ino: nat, i: nat, k: nat, e: Slot)
    requires IsDir(u, ino) && Fresh(DirView(u, ino), e) && i < 12 && DirView(u, ino)[i] == []
    requires DirChanged(u, v, ino, DirView(u, ino)[i := Alone(e)], u.inodes[ino].size + ENTRY_SIZE)
    requires FirstFree(Alone(e), k) && k < PER_SECTOR
    requires DirChanged(v, w, ino, DirView(v, ino)[i := DirView(v, ino)[i][k := e]], v.inodes[ino].size + ENTRY_SIZE)
    ensures DirGained(u, w, ino, e) && TwiceIs(DirView(u, ino), DirView(w, ino), e.ino, true)
    ensures DirView(w, ino) == DirView(u, ino)[i := Doubled(e)]
  {
    var x, size := DirView(u, ino), u.inodes[ino].size;
    AloneThenAgain(x, i, e, k);
    DirChangedTrans(u, v, w, ino, x[i := Alone(e)], size + ENTRY_SIZE, x[i := Doubled(e)], size + 2 * ENTRY_SIZE);
    GainedTwice(u, w, ino, i, e);
  }

  /** The search for a free slot in an existing block, and the store into it. */
  method StoreFirstFree(vol: Volume, ino: nat, i: nat, e: Slot) returns (k: nat)
    requires Sound(vol.State()) && ino in vol.inodes && i < 12 && ValidSlot(e)
    requires DirView(vol.State(), ino)[i] != []
    modifies vol
    ensures FirstFree(old(DirView(vol.State(), ino))[i], k)
    ensures k == PER_SECTOR ==> vol.State() == old(vol.State())
    ensures vol.bmap == old(vol.bmap)
    ensures k != PER_SECTOR ==>
              var x := old(DirView(vol.State(), ino));
              k < |x[i]| && DirChanged(old(vol.State()), vol.State(), ino, x[i := x[i][k := e]], old(vol.inodes[ino].size) + ENTRY_SIZE)
  {
    k := FindFree(Slots(Get(vol.disk, vol.inodes[ino].sectors[i])));
    if k < PER_SECTOR {
      StoreSlot(vol, ino, i, k, e);
    }
  }

  /** The hole turn: the fresh block gets the entry in its first slot, and the search for a free slot
      that follows stores it again. */
  method FillHole(vol: Volume, ino: nat, i: nat, e: Slot) returns (ok: bool)
    requires Sound(vol.State()) && IsDir(vol.State(), ino) && Fresh(DirView(vol.State(), ino), e) && i < 12
    requires DirView(vol.State(), ino)[i] == []
    modifies vol
    ensures ok <==> old(Free(vol.bmap)) != {}
    ensures ok ==> DirGained(old(vol.State()), vol.State(), ino, e)
    ensures ok ==> TwiceIs(old(DirView(vol.State(), ino)), DirView(vol.State(), ino), e.ino, true)
    ensures ok ==> DirView(vol.State(), ino) == old(DirView(vol.State(), ino))[i := Doubled(e)]
    ensures !ok ==> vol.State() == old(vol.State())
  {
    ghost var v := vol.State();
    ok := StoreInFreshBlock(vol, ino, i, e);
    if ok {
      ghost var w := vol.State();
      var k := StoreFirstFree(vol, ino, i, e);
      assert Alone(e)[1] == EMPTY;
      GainedAgain(v, w, vol.State(), ino, i, k, e);
    }
  }

  /** One turn of the insertion loop. */
  method TryBlock(vol: Volume, ino: nat, i: nat, e: Slot) returns (r: BlockTry)
    requires Sound(vol.State()) && IsDir(vol.State(), ino) && Fresh(DirView(vol.State(), ino), e) && i < 12
    modifies vol
    ensures r == if old(DirView(vol.State(), ino)[i]) == []
                 then (if old(Free(vol.bmap)) == {} then OutOfBlocks else Stored(true))
                 else if HasRoom(old(DirView(vol.State(), ino)[i])) then Stored(false) else Full
    ensures r.Stored? ==> DirGained(old(vol.State()), vol.State(), ino, e)
    ensures r.Stored? ==> TwiceIs(old(DirView(vol.State(), ino)), DirView(vol.State(), ino), e.ino, r.twice)
    ensures r.Stored? ==> StoredIn(old(DirView(vol.State(), ino)), DirView(vol.State(), ino), e, r.twice, i)
    ensures r == Stored(false) ==> vol.bmap == old(vol.bmap)
    ensures !r.Stored? ==> vol.State() == old(vol.State())
  {
    if vol.inodes[ino].sectors[i] == 0 {
      var ok := FillHole(vol, ino, i, e);
      return if ok then Stored(true) else OutOfBlocks;
    }
    ghost var v, x := vol.State(), DirView(vol.State(), ino);
    var k := StoreFirstFree(vol, ino, i, e);
    if k == PER_SECTOR {
      return Full;
    }
    GainedFree(v, vol.State(), ino, i, k, e, x, x[i := x[i][k := e]]);
    r := Stored(false);
  }

  /** Adds entry `e` to directory `ino`. Its contents gain exactly `e`; in a fresh block, and only there,
      the entry fills two slots. Nothing is said of a directory whose direct blocks are all full. */
  method SyncDirEntry(vol: Volume, ino: nat, e: Slot) returns (r: InsertResult)
    requires Sound(vol.State()) && IsDir(vol.State(), ino) && Fresh(DirView(vol.State(), ino), e)
    modifies vol
    ensures r == InsertOutcome(old(DirView(vol.State(), ino)), old(Free(vol.bmap)))
    ensures r.Inserted? ==> DirGained(old(vol.State()), vol.State(), ino, e)
    ensures r.Inserted? ==> TwiceIs(old(DirView(vol.State(), ino)), DirView(vol.State(), ino), e.ino, r.twice)
    ensures InsertsRight(old(DirView(vol.State(), ino)), old(Free(vol.bmap)), r)
    ensures r.Inserted? ==> StoredFirst(old(DirView(vol.State(), ino)), DirView(vol.State(), ino), e, r.twice)
    ensures r == Inserted(false) ==> vol.bmap == old(vol.bmap)
    ensures r.NoBlock? ==> vol.State() == old(vol.State())
  {
    hide TwiceIs, Gains, Untouched, Sound, DirOk, ViewOf, Fresh, StoredIn, StoredFirst, InsertsRight, SamePlan;
    ghost var x: View := DirView(vol.State(), ino);
    OutcomeInserts(x, Free(vol.bmap));
    var i := 0;
    while i < 12
      invariant 0 <= i <= 12 && vol.State() == old(vol.State())
      invariant RoomFrom(x, 0) == RoomFrom(x, i)
      invariant forall j :: 0 <= j < i ==> !HasRoom(x[j])
    {
      var t := TryBlock(vol, ino, i, e);
      if !t.Full? {
        if t.Stored? {
          StoredThere(x, DirView(vol.State(), ino), e, t.twice, i);
        }
        return if t.Stored? then Inserted(t.twice) else NoBlock;
      }
      i := i + 1;
    }
    r := BeyondDirect;
  }

  // ---- removal ----

  lemma ScanStep(b: seq<Slot>, idx: nat, target: nat, s: BlockScan, t: BlockScan)
    requires idx < |b| && Scanned(b[..idx], target, s) && !s.clash
    requires
      var e := b[idx];
      t == if !Live(e) then s
           else if e.name == "." then s.(first := true)
           else if e.name == ".." then s
           else if e.ino != target then s.(entries := s.entries + 1)
           else if s.found == -1 then s.(entries := s.entries + 1, found := idx)
           else s.(clash := true)
    ensures Scanned(b[..idx + 1], target, t)
  {
    var c := b[..idx + 1];
    assert c[..idx] == b[..idx] && c[idx] == b[idx];
    assert forall k :: 0 <= k < idx ==> c[k] == b[..idx][k];
  }

  /** One pass over the slots of a block: counts proper entries and looks for `target`. */
  method ScanBlock(b: seq<Slot>, target: nat) returns (s: BlockScan)
    ensures Scanned(b, target, s)
  {
    s := BlockScan(0, -1, false, false);
    var idx := 0;
    while idx < |b|
      invariant 0 <= idx <= |b| && !s.clash && Scanned(b[..idx], target, s)
    {
      ghost var t := s;
      var e := b[idx];
      if Live(e) {
        if e.name == "." {
          s := s.(first := true);
        } else if e.name != ".." {
          if e.ino != target {
            s := s.(entries := s.entries + 1);
          } else if s.found == -1 {
            s := s.(entries := s.entries + 1, found := idx);
          } else {
            s := s.(clash := true);
          }
        }
      }
      ScanStep(b, idx, target, t, s);
      if s.clash {
        ClashStays(b, idx + 1, target, s);
        return;
      }
      idx := idx + 1;
    }
    assert b[..idx] == b;
  }

  lemma ClashStays(b: seq<Slot>, n: nat, target: nat, s: BlockScan)
    requires n <= |b| && s.clash && Scanned(b[..n], target, s)
    ensures Scanned(b, target, s)
  {
    var k, m :| 0 <= k < m < n && IsRef(b[..n][k], target) && IsRef(b[..n][m], target);
    assert IsRef(b[k], target) && IsRef(b[m], target);
  }

  lemma DirectLayout(d: Disk, n: INode, i: nat, lba: Word, size: nat)
    requires |n.sectors| == 13 && n.sectors[12] == 0 && i < 12
    ensures Layout(d, n.(sectors := Put(n.sectors, i, lba), size := size)) == Put(Layout(d, n), i, lba)
  {
    var m := n.(sectors := Put(n.sectors, i, lba), size := size);
    forall j | 0 <= j <= TABLE ensures Layout(d, m)[j] == Put(Layout(d, n), i, lba)[j] {
    }
  }

  /** Giving a direct block of a directory back. */
  lemma BlockDropped(v: Vol, w: Vol, ino: nat, i: nat, size: nat)
    requires Sound(v) && ino in v.inodes && i < 12 && v.inodes[ino].sectors[i] != 0 && v.inodes[ino].sectors[12] == 0
    requires w == v.(bmap := w.bmap, owner := v.owner - {v.inodes[ino].sectors[i]},
                     inodes := v.inodes[ino := v.inodes[ino].(sectors := Put(v.inodes[ino].sectors, i, 0), size := size)])
    requires BitsMatch(w.bmap, w.owner, w.start) && |w.bmap| == |v.bmap|
    ensures Sound(w)
  {
    var ls := Layouts(v.disk, v.inodes);
    assert ls[ino][i] == v.inodes[ino].sectors[i];
    Disclaim(ls, v.owner, ino, i);
    DirectLayout(v.disk, v.inodes[ino], i, 0, size);
    LayoutsUpdate(v.disk, v.inodes, ino, w.inodes[ino]);
  }

  lemma BlockDroppedView(v: Vol, w: Vol, ino: nat, i: nat, size: nat)
    requires Sound(v) && ino in v.inodes && 0 < i < 12 && v.inodes[ino].sectors[i] != 0
    requires v.inodes[ino].sectors[12] == 0
    requires w == v.(bmap := w.bmap, owner := v.owner - {v.inodes[ino].sectors[i]},
                     inodes := v.inodes[ino := v.inodes[ino].(sectors := Put(v.inodes[ino].sectors, i, 0), size := size)])
    requires BitsMatch(w.bmap, w.owner, w.start) && |w.bmap| == |v.bmap|
    ensures DirChanged(v, w, ino, DirView(v, ino)[i := []], size)
  {
    BlockDropped(v, w, ino, i, size);
    forall q | q in v.inodes && q != ino ensures Untouched(v, w, q) {
    }
    assert DirView(w, ino) == DirView(v, ino)[i := []];
  }

  lemma Lost(v: Vol, w: Vol, ino: nat, i: nat, k: nat, target: nat, x: View, y: View)
    requires IsDir(v, ino) && x == DirView(v, ino) && i < 12 && k < |x[i]| && IsRef(x[i][k], target)
    requires forall m :: 0 <= m < |x[i]| && m != k ==> !IsRef(x[i][m], target)
    requires y == if CountEntries(x[i]) == 1 && !(exists m :: 0 <= m < |x[i]| && Live(x[i][m]) && x[i][m].name == ".")
                  then x[i := []] else x[i := x[i][k := EMPTY]]
    requires v.inodes[ino].size >= ENTRY_SIZE ==> DirChanged(v, w, ino, y, v.inodes[ino].size - ENTRY_SIZE)
    ensures DirLost(v, w, ino, x[i][k])
  {
    hide Owns, BitsMatch, Untouched, Loses, SamePlan, Removed;
    Remove(x, ino, v.inodes[ino].size, i, k, target, y);
    assert Removed(x, y, i, k);
  }

  lemma SizeCounts(v: Vol, ino: nat, i: nat, k: nat)
    requires IsDir(v, ino) && LiveAt(DirView(v, ino), i, k)
    ensures v.inodes[ino].size >= ENTRY_SIZE
  {
    TotalNone(DirView(v, ino));
  }

  /** Gives block `i` of a directory back together with its only entry. */
  method DropBlock(vol: Volume, ino: nat, i: nat, size: nat)
    requires Sound(vol.State()) && ino in vol.inodes && 0 < i < 12
    requires vol.inodes[ino].sectors[i] != 0 && vol.inodes[ino].sectors[12] == 0
    modifies vol
    ensures DirChanged(old(vol.State()), vol.State(), ino, old(DirView(vol.State(), ino))[i := []], size)
  {
    ghost var v := vol.State();
    var n := vol.inodes[ino];
    assert Layouts(v.disk, v.inodes)[ino][i] == n.sectors[i];
    vol.BlockBitmapFree(n.sectors[i]);
    vol.inodes := vol.inodes[ino := n.(sectors := Put(n.sectors, i, 0), size := size)];
    BlockDroppedView(v, vol.State(), ino, i, size);
  }

  /** Clears slot `k` of block `i`. */
  method ClearSlot(vol: Volume, ino: nat, i: nat, k: nat, size: nat)
    requires Sound(vol.State()) && ino in vol.inodes && i < 12 && vol.inodes[ino].sectors[i] != 0 && k < PER_SECTOR
    modifies vol
    ensures var x := old(DirView(vol.State(), ino));
            DirChanged(old(vol.State()), vol.State(), ino, x[i := x[i][k := EMPTY]], size)
  {
    ghost var v := vol.State();
    var n := vol.inodes[ino];
    EncodeEmpty();
    vol.disk := vol.disk[n.sectors[i] := Splice(Get(vol.disk, n.sectors[i]), ENTRY_SIZE * k, Zeros(ENTRY_SIZE))];
    vol.inodes := vol.inodes[ino := n.(size := size)];
    SlotStored(v, vol.State(), ino, i, k, EMPTY, size);
  }

  /** All entries that name one inode sit in one block. */
  lemma OneBlock(w: View, i: nat, j: nat, target: nat)
    requires NoClash(w) && NamedIn(w, i, target) && NamedIn(w, j, target)
    ensures i == j
  {
    var k :| 0 <= k < |w[i]| && IsRef(w[i][k], target);
    var m :| 0 <= m < |w[j]| && IsRef(w[j][m], target);
    assert LiveAt(w, i, k) && LiveAt(w, j, m) && Apart(w, i, k, j, m);
  }

  lemma FirstBlockDecides(w: View, i: nat, target: nat)
    requires NoClash(w) && NamedIn(w, i, target)
    ensures Named(w, target) && (NamedTwice(w, i, target) <==> Twice(w, target))
  {
    forall j: nat | NamedTwice(w, j, target) ensures j == i {
      OneBlock(w, i, j, target);
    }
  }

  lemma FirstHasDot(v: Vol, ino: nat)
    requires IsDir(v, ino)
    ensures var b := DirView(v, ino)[0]; exists m :: 0 <= m < |b| && Live(b[m]) && b[m].name == "."
  {
    hide NoClash, NoneHollow, Total, ViewOf;
    var b := DirView(v, ino)[0];
    assert Live(b[0]) && b[0].name == ".";
  }

  /** What a pass over block `i` that has found one entry amounts to. */
  ghost predicate FoundOne(x: View, i: nat, s: BlockScan, target: nat) {
    i < |x| && Scanned(x[i], target, s) && !s.clash && s.found != -1
  }

  lemma FoundAt(v: Vol, ino: nat, i: nat, s: BlockScan, target: nat)
    requires IsDir(v, ino) && FoundOne(DirView(v, ino), i, s, target)
    ensures
      var x := DirView(v, ino);
      && 0 <= s.found < |x[i]| && |x[i]| <= PER_SECTOR && LiveAt(x, i, s.found) && IsRef(x[i][s.found], target)
      && v.inodes[ino].size >= ENTRY_SIZE && (!s.first ==> i > 0)
  {
    hide NoClash, NoneHollow, Total, ViewOf, Dots;
    SizeCounts(v, ino, i, s.found);
    FirstHasDot(v, ino);
  }

  lemma LostDropped(v: Vol, w: Vol, ino: nat, i: nat, s: BlockScan, target: nat)
    requires IsDir(v, ino) && FoundOne(DirView(v, ino), i, s, target) && i < 12 && s.entries == 1 && !s.first
    requires v.inodes[ino].size >= ENTRY_SIZE ==> DirChanged(v, w, ino, DirView(v, ino)[i := []], v.inodes[ino].size - ENTRY_SIZE)
    ensures DirLost(v, w, ino, DirView(v, ino)[i][s.found])
  {
    hide DirOk, DirLost, DirChanged, ViewOf;
    var x := DirView(v, ino);
    Lost(v, w, ino, i, s.found, target, x, x[i := []]);
  }

  lemma LostCleared(v: Vol, w: Vol, ino: nat, i: nat, s: BlockScan, target: nat)
    requires IsDir(v, ino) && FoundOne(DirView(v, ino), i, s, target) && i < 12 && !(s.entries == 1 && !s.first)
    requires
      var x := DirView(v, ino);
      v.inodes[ino].size >= ENTRY_SIZE ==> DirChanged(v, w, ino, x[i := x[i][s.found := EMPTY]], v.inodes[ino].size - ENTRY_SIZE)
    ensures DirLost(v, w, ino, DirView(v, ino)[i][s.found])
  {
    hide DirOk, DirLost, DirChanged, ViewOf;
    var x := DirView(v, ino);
    Lost(v, w, ino, i, s.found, target, x, x[i := x[i][s.found := EMPTY]]);
  }

  /** Takes the entry found out of block `i`, and the block with it if it is the only one there. */
  method TakeOut(vol: Volume, ino: nat, i: nat, s: BlockScan, ghost target: nat)
    requires Sound(vol.State()) && IsDir(vol.State(), ino) && i < 12 && vol.inodes[ino].sectors[i] != 0
    requires FoundOne(DirView(vol.State(), ino), i, s, target) && 0 <= s.found < |DirView(vol.State(), ino)[i]|
    modifies vol
    ensures DirLost(old(vol.State()), vol.State(), ino, old(DirView(vol.State(), ino))[i][s.found])
  {
    hide Owns, BitsMatch, DirLost, DirChanged, DirOk, FoundOne, ViewOf, LiveAt;
    ghost var v := vol.State();
    var n, k := vol.inodes[ino], s.found;
    FoundAt(v, ino, i, s, target);
    if s.entries == 1 && !s.first {
      DropBlock(vol, ino, i, n.size - ENTRY_SIZE);
      LostDropped(v, vol.State(), ino, i, s, target);
    } else {
      ClearSlot(vol, ino, i, k, n.size - ENTRY_SIZE);
      LostCleared(v, vol.State(), ino, i, s, target);
    }
  }

  /** One turn of the removal loop: block `i` names `target`, or does not. */
  method RemoveFrom(vol: Volume, ino: nat, i: nat, target: nat) returns (r: DeleteResult, ghost gone: Slot)
    requires Sound(vol.State()) && IsDir(vol.State(), ino) && i < 12
    modifies vol
    ensures r.NotFound? <==> !NamedIn(old(DirView(vol.State(), ino)), i, target)
    ensures !r.NotFound? ==> Named(old(DirView(vol.State(), ino)), target)
    ensures !r.NotFound? ==> (r.Panicked? <==> Twice(old(DirView(vol.State(), ino)), target))
    ensures r.Deleted? ==> IsRef(gone, target) && Has(old(DirView(vol.State(), ino)), gone)
    ensures r.Deleted? ==> DirLost(old(vol.State()), vol.State(), ino, gone)
    ensures !r.Deleted? ==> vol.State() == old(vol.State())
  {
    hide Owns, BitsMatch, DirLost, DirChanged, Named, Twice, NoClash, NoneHollow, Dots, Total;
    ghost var v, x := vol.State(), DirView(vol.State(), ino);
    gone := EMPTY;
    var n := vol.inodes[ino];
    if n.sectors[i] == 0 {
      return NotFound, gone;
    }
    var s := ScanBlock(Slots(Get(vol.disk, n.sectors[i])), target);
    if !s.clash && s.found == -1 {
      return NotFound, gone;
    }
    FirstBlockDecides(x, i, target);
    if s.clash {
      return DeleteResult.Panicked, gone;
    }
    gone := x[i][s.found];
    assert LiveAt(x, i, s.found);
    TakeOut(vol, ino, i, s, target);
    r := Deleted;
  }

  /** Removes the entry that names inode `target`. The removal panics exactly when the entry is stored
      twice, which is what an insertion into a fresh block does. */
  method DeleteDirEntry(vol: Volume, ino: nat, target: nat) returns (r: DeleteResult, ghost gone: Slot)
    requires Sound(vol.State()) && IsDir(vol.State(), ino)
    modifies vol
    ensures r.Panicked? <==> Twice(old(DirView(vol.State(), ino)), target)
    ensures r.NotFound? <==> !Named(old(DirView(vol.State(), ino)), target)
    ensures r.Deleted? ==> IsRef(gone, target) && Has(old(DirView(vol.State(), ino)), gone)
    ensures r.Deleted? ==> DirLost(old(vol.State()), vol.State(), ino, gone)
    ensures !r.Deleted? ==> vol.State() == old(vol.State())
  {
    ghost var x: View := DirView(vol.State(), ino);
    var i := 0;
    while i < 12
      invariant 0 <= i <= 12 && vol.State() == old(vol.State())
      invariant NotNamedBefore(x, i, target)
    {
      r, gone := RemoveFrom(vol, ino, i, target);
      if !r.NotFound? {
        return;
      }
      NotNamedStep(x, i, target);
      i := i + 1;
    }
    NamedNowhere(x, target);
    r, gone := NotFound, EMPTY;
  }

  /** An entry inserted and then deleted: the deletion panics exactly when the insertion went to a fresh
      block, and otherwise leaves the directory with the contents it had. */
  method InsertThenDelete(vol: Volume, ino: nat, e: Slot) returns (i: InsertResult, d: DeleteResult)
    requires Sound(vol.State()) && IsDir(vol.State(), ino) && Fresh(DirView(vol.State(), ino), e)
    modifies vol
    ensures i == InsertOutcome(old(DirView(vol.State(), ino)), old(Free(vol.bmap)))
    ensures i.Inserted? ==> d == if i.twice then DeleteResult.Panicked else Deleted
    ensures i == Inserted(false) ==>
      IsDir(vol.State(), ino) && forall f :: Has(DirView(vol.State(), ino), f) <==> Has(old(DirView(vol.State(), ino)), f)
  {
    hide Sound, DirOk, ViewOf, InsertOutcome, Twice, Named, DirGained, DirLost, Has;
    ghost var x := DirView(vol.State(), ino);
    i := SyncDirEntry(vol, ino, e);
    d := NotFound;
    if i.Inserted? {
      ghost var v := vol.State();
      GainedIs(old(vol.State()), v, ino, e);
      ghost var gone;
      d, gone := DeleteDirEntry(vol, ino, e.ino);
      if d.Deleted? {
        LostAgain(v, vol.State(), ino, e, gone, x);
      }
    }
  }

  lemma GainedIs(v: Vol, w: Vol, ino: nat, e: Slot)
    requires DirGained(v, w, ino, e) && Fresh(DirView(v, ino), e)
    ensures Sound(w) && IsDir(w, ino) && Named(DirView(w, ino), e.ino)
    ensures Gains(DirView(v, ino), DirView(w, ino), e)
    ensures !Has(DirView(v, ino), e)
  {
    hide Sound, DirOk, Gains, Untouched, ViewOf;
    var x, y := DirView(v, ino), DirView(w, ino);
    GainsIt(x, y, e);
    var i, k :| LiveAt(y, i, k) && y[i][k] == e;
    assert NamedIn(y, i, e.ino);
    forall j, m | LiveAt(x, j, m) ensures x[j][m] != e {
      assert !Clash(x[j][m], e);
    }
  }

  lemma GainsIt(x: View, y: View, e: Slot)
    requires Gains(x, y, e)
    ensures Has(y, e)
  {
  }

  lemma LostAgain(v: Vol, w: Vol, ino: nat, e: Slot, gone: Slot, x: View)
    requires IsDir(v, ino) && DirLost(v, w, ino, gone) && IsRef(gone, e.ino) && IsRef(e, e.ino) && Has(DirView(v, ino), gone)
    requires Gains(x, DirView(v, ino), e) && !Has(x, e)
    ensures IsDir(w, ino) && forall f :: Has(DirView(w, ino), f) <==> Has(x, f)
  {
    hide Shape, ValidSlots, Dots, NoneHollow, Total, ViewOf;
    var y := DirView(v, ino);
    GainsIt(x, y, e);
    var i, k :| LiveAt(y, i, k) && y[i][k] == e;
    var j, m :| LiveAt(y, j, m) && y[j][m] == gone;
    assert Apart(y, i, k, j, m);
  }

  lemma NotNamedStep(w: View, n: nat, target: nat)
    requires NotNamedBefore(w, n, target) && !NamedIn(w, n, target)
    ensures NotNamedBefore(w, n + 1, target)
  {
  }

  lemma NamedNowhere(w: View, target: nat)
    requires |w| == 12 && NotNamedBefore(w, 12, target)
    ensures !Named(w, target) && !Twice(w, target)
  {
    forall i: nat ensures !NamedTwice(w, i, target) {
      assert !NamedIn(w, i, target);
    }
  }

  // ---- search and listing ----

  datatype Option<T> = None | Some(value: T)

  method FindName(b: seq<Slot>, name: string) returns (k: nat)
    ensures k <= |b| && (k < |b| ==> b[k].name == name) && forall j :: 0 <= j < k ==> b[j].name != name
  {
    k := 0;
    while k < |b| && b[k].name != name
      invariant k <= |b| && forall j :: 0 <= j < k ==> b[j].name != name
    {
      k := k + 1;
    }
  }

  /** The addresses of all 140 data blocks of an inode. */
  method AllBlocks(disk: Disk, n: INode) returns (blocks: seq<Word>)
    requires |n.sectors| == 13
    ensures |blocks| == MAX_BLOCKS && forall i :: 0 <= i < MAX_BLOCKS ==> blocks[i] == Place(disk, n, i)
  {
    blocks := n.sectors[..12] + ZeroWords(128);
    if n.sectors[12] != 0 {
      blocks := n.sectors[..12] + TableWords(Get(disk, n.sectors[12]));
    }
  }

  /** Looks a name up, block by block and slot by slot, without looking at the type of the slot. */
  method SearchDirEntry(vol: Volume, ino: nat, name: string) returns (r: Option<Slot>)
    requires IsDir(vol.State(), ino) && name != ""
    ensures r.Some? ==> Has(DirView(vol.State(), ino), r.value) && r.value.name == name
    ensures r.None? ==> forall e :: Has(DirView(vol.State(), ino), e) ==> e.name != name
  {
    ghost var x: View := DirView(vol.State(), ino);
    var n := vol.inodes[ino];
    var blocks := AllBlocks(vol.disk, n);
    var i := 0;
    while i < MAX_BLOCKS
      invariant 0 <= i <= MAX_BLOCKS
      invariant forall j, k :: 0 <= j < i && j < 12 && 0 <= k < |x[j]| ==> x[j][k].name != name
    {
      if blocks[i] != 0 {
        var b := Slots(Get(vol.disk, blocks[i]));
        var k := FindName(b, name);
        if k < |b| {
          assert LiveAt(x, i, k) && x[i][k] == b[k];
          return Some(b[k]);
        }
      }
      i := i + 1;
    }
    r := None;
  }

  /** The entry a name is bound to is the only one with that name. */
  lemma BindingUnique(w: View, self: nat, e: Slot, f: Slot)
    requires WellFormed(w, self) && Has(w, e) && Has(w, f) && e.name == f.name
    ensures e == f
  {
    var i, k :| LiveAt(w, i, k) && w[i][k] == e;
    var j, m :| LiveAt(w, j, m) && w[j][m] == f;
    assert Apart(w, i, k, j, m);
  }

  /** Progress of a listing through the slots: everything met before is among the `pos / 24` entries
      already returned. */
  ghost predicate Walked(w: View, i: nat, k: nat, cur: nat, pos: nat) {
    i < |w| && k <= |w[i]| && cur == ENTRY_SIZE * |Met(w, i, k)| && cur <= pos && Met(w, i, k) <= KeptAll(w)
  }

  lemma WalkStep(w: View, i: nat, k: nat, cur: nat, pos: nat)
    requires Walked(w, i, k, cur, pos) && k < |w[i]| && pos % ENTRY_SIZE == 0
    ensures !Live(w[i][k]) ==> Walked(w, i, k + 1, cur, pos)
    ensures Live(w[i][k]) && cur < pos ==> Walked(w, i, k + 1, cur + ENTRY_SIZE, pos)
    ensures Live(w[i][k]) && cur >= pos ==> pos / ENTRY_SIZE < Total(w) && KeptAll(w)[pos / ENTRY_SIZE] == w[i][k]
  {
    MetStep(w, i, k);
  }

  lemma WalkBlock(w: View, i: nat, cur: nat, pos: nat)
    requires i + 1 < |w| && Walked(w, i, |w[i]|, cur, pos)
    ensures Walked(w, i + 1, 0, cur, pos)
  {
    MetBlock(w, i);
    KeptAllPrefix(w, i + 1);
    assert Met(w, i + 1, 0) == KeptAll(w[..i + 1]);
  }

  lemma WalkEnd(w: View, cur: nat, pos: nat)
    requires |w| > 0 && Walked(w, |w| - 1, |w[|w| - 1]|, cur, pos)
    ensures ENTRY_SIZE * Total(w) <= pos
  {
    MetBlock(w, |w| - 1);
    assert w[..|w|] == w;
  }

  /** The slots of one block during a listing. */
  method ReadBlock(b: seq<Slot>, ghost w: View, ghost i: nat, cur0: nat, pos: nat) returns (r: Option<Slot>, cur: nat)
    requires i < |w| && b == w[i] && Walked(w, i, 0, cur0, pos) && pos % ENTRY_SIZE == 0
    ensures r.None? ==> Walked(w, i, |b|, cur, pos)
    ensures r.Some? ==> pos / ENTRY_SIZE < Total(w) && r.value == KeptAll(w)[pos / ENTRY_SIZE]
  {
    cur := cur0;
    var k := 0;
    while k < |b|
      invariant 0 <= k <= |b| && Walked(w, i, k, cur, pos)
    {
      WalkStep(w, i, k, cur, pos);
      if Live(b[k]) {
        if cur < pos {
          cur := cur + ENTRY_SIZE;
        } else {
          assert cur == pos;
          return Some(b[k]), cur;
        }
      }
      k := k + 1;
    }
    r := None;
  }

  /** Returns the live entry at position `pos` of the listing, whatever holes lie between. */
  method DirRead(vol: Volume, ino: nat, pos: nat) returns (r: Option<Slot>, pos': nat)
    requires IsDir(vol.State(), ino) && pos % ENTRY_SIZE == 0
    ensures
      var all := KeptAll(DirView(vol.State(), ino));
      if pos / ENTRY_SIZE < |all|
      then r == Some(all[pos / ENTRY_SIZE]) && pos' == pos + ENTRY_SIZE
      else r == None && pos' == pos
  {
    ghost var x: View := DirView(vol.State(), ino);
    var n := vol.inodes[ino];
    pos' := pos;
    var cur, i := 0, 0;
    assert x[..0] == [] && x[0][..0] == [];
    while i < 12
      invariant 0 <= i <= 12
      invariant i < 12 ==> Walked(x, i, 0, cur, pos)
      invariant i == 12 ==> ENTRY_SIZE * Total(x) <= pos
    {
      if pos >= n.size {
        return None, pos;
      }
      r := None;
      if n.sectors[i] != 0 {
        r, cur := ReadBlock(Slots(Get(vol.disk, n.sectors[i])), x, i, cur, pos);
        if r.Some? {
          return r, pos + ENTRY_SIZE;
        }
      }
      assert Walked(x, i, |x[i]|, cur, pos);
      if i + 1 < 12 {
        WalkBlock(x, i, cur, pos);
      } else {
        WalkEnd(x, cur, pos);
      }
      i := i + 1;
    }
    r := None;
  }

  /** Reading until nothing is returned lists every live slot once, in order: the directory's entries, each once
      exactly when none is stored twice. */
  method ListDir(vol: Volume, ino: nat) returns (all: seq<Slot>)
    requires IsDir(vol.State(), ino)
    ensures all == KeptAll(DirView(vol.State(), ino))
    ensures forall e :: e in all <==> Has(DirView(vol.State(), ino), e)
    ensures forall e :: Repeats(all, e) <==> Has(DirView(vol.State(), ino), e) && !IsDot(e) && Twice(DirView(vol.State(), ino), e.ino)
    ensures NoTwice(all) <==> forall t: nat :: !Twice(DirView(vol.State(), ino), t)
  {
    hide Repeats, Twice, NoTwice, Has;
    ghost var k := KeptAll(DirView(vol.State(), ino));
    all := [];
    var e, pos := DirRead(vol, ino, 0);
    while e.Some?
      invariant ListedTo(k, all, e, pos)
      decreases |k| - |all|
    {
      all := all + [e.value];
      ListedStep(k, all, pos);
      e, pos := DirRead(vol, ino, pos);
    }
    forall s ensures s in all <==> Has(DirView(vol.State(), ino), s) {
      KeptAllMember(DirView(vol.State(), ino), s);
    }
    ListedOnce(DirView(vol.State(), ino), ino);
  }

  /** Adds an entry and lists the directory. The listing gains the entry at the place of the first free slot; if no
      hole lies before a live entry that is the end, and none does afterwards. */
  method InsertThenList(vol: Volume, ino: nat, e: Slot) returns (before: seq<Slot>, r: InsertResult, after: seq<Slot>)
    requires Sound(vol.State()) && IsDir(vol.State(), ino) && Fresh(DirView(vol.State(), ino), e)
    modifies vol
    ensures before == KeptAll(old(DirView(vol.State(), ino)))
    ensures r.Inserted? ==> ListGains(old(DirView(vol.State(), ino)), before, after, e, r.twice)
    ensures r.Inserted? && NoHoles(old(DirView(vol.State(), ino))) ==>
      after == before + Copies(e, r.twice) && ino in vol.inodes && |vol.inodes[ino].sectors| == 13 && NoHoles(DirView(vol.State(), ino))
  {
    hide Sound, Repeats, Twice, TwiceIs, NoTwice, Has, KeptAll, NoHoles, StoredFirst, ListGains, Gains, InsertsRight, DirOk, ViewOf;
    ghost var x := DirView(vol.State(), ino);
    before := ListDir(vol, ino);
    r := SyncDirEntry(vol, ino, e);
    after := [];
    if r.Inserted? {
      after := ListDir(vol, ino);
      ghost var y := DirView(vol.State(), ino);
      InsertGains(x, y, e, r.twice);
      if NoHoles(x) {
        ListedLast(x, y, e, r.twice);
        NoHolesKept(x, y, e, r.twice);
      }
    }
  }

  /** `all` is the part of the listing `k` before the entry `e` just read. */
  ghost predicate ListedTo(k: seq<Slot>, all: seq<Slot>, e: Option<Slot>, pos: nat) {
    && all <= k
    && match e
       case Some(s) => |all| < |k| && s == k[|all|] && pos == ENTRY_SIZE * (|all| + 1)
       case None => |all| == |k|
  }

  lemma ListedStep(k: seq<Slot>, all: seq<Slot>, pos: nat)
    requires |all| > 0 && ListedTo(k, all[..|all| - 1], Some(all[|all| - 1]), pos)
    ensures all <= k && pos % ENTRY_SIZE == 0 && pos / ENTRY_SIZE == |all|
  {
  }
}
