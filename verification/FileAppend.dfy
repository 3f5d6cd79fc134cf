/** The append path: block collection with allocation, then the copying loop. */
module FileAppend {
  import opened Sectors
  import opened BitRuns
  import opened Volumes
  import opened FileIO
  import opened BlockCounts

  /** From `v` to `w` only inode `ino` gained blocks: it now has `k`, keeps the ones it had, and no
      sector anybody owned changed except its own indirect table. */
  ghost predicate Grew(v: Vol, w: Vol, ino: nat, k: nat) {
    && Sound(v) && Sound(w) && SameBut(v, w, ino)
    && w.inodes[ino].size == v.inodes[ino].size
    && BlockShape(Layout(w.disk, w.inodes[ino]), k)
    && (forall i :: 0 <= i <= TABLE && Place(v.disk, v.inodes[ino], i) != 0 ==>
          Place(w.disk, w.inodes[ino], i) == Place(v.disk, v.inodes[ino], i))
    && (forall l :: l in v.owner && v.owner[l] != (ino, TABLE) ==> Get(w.disk, l) == Get(v.disk, l))
  }

  /** Nothing but inode `ino`, the disk, the block bitmap and the owners differ. */
  ghost predicate SameBut(v: Vol, w: Vol, ino: nat) {
    && ino in v.inodes && w.inodes.Keys == v.inodes.Keys
    && (forall q :: q in v.inodes && q != ino ==> w.inodes[q] == v.inodes[q])
    && w.ibits == v.ibits && w.dirs == v.dirs && SamePlan(v, w)
    && (forall l :: l in v.owner ==> l in w.owner && w.owner[l] == v.owner[l])
  }

  /** What is known while blocks are being added to inode `ino`: `l` is the layout it is to have. */
  ghost predicate Growing(v: Vol, w: Vol, ino: nat, l: seq<Word>) {
    && Sound(v) && SameBut(v, w, ino) && w.disk == v.disk
    && w.inodes[ino].size == v.inodes[ino].size && w.inodes[ino].no == ino
    && |w.inodes[ino].sectors| == 13 && |l| == 141
    && (forall i :: 0 <= i < DIRECT ==> w.inodes[ino].sectors[i] == l[i])
    && w.inodes[ino].sectors[12] == l[TABLE]
    && (forall i :: 0 <= i <= TABLE && Place(v.disk, v.inodes[ino], i) != 0 ==> l[i] == Place(v.disk, v.inodes[ino], i))
    && Owns(Layouts(v.disk, v.inodes)[ino := l], w.owner)
    && BitsMatch(w.bmap, w.owner, w.start)
  }

  /** `blocks` holds the addresses of blocks `from` up to but excluding `to`. */
  ghost predicate Collected(d: Disk, n: INode, blocks: seq<Word>, from: nat, to: nat) {
    && |n.sectors| == 13 && |blocks| == MAX_BLOCKS && to <= MAX_BLOCKS
    && (forall i :: from <= i < to ==> blocks[i] == Place(d, n, i))
  }

  /** An append that ran out of blocks: nothing on the disk changed and no other inode did, but it has taken every
      block that was free and none is given back. */
  ghost predicate Aborted(v: Vol, w: Vol, ino: nat) {
    && ino in v.inodes && w.inodes.Keys == v.inodes.Keys
    && (forall q :: q in v.inodes && q != ino ==> w.inodes[q] == v.inodes[q])
    && w.inodes[ino].size == v.inodes[ino].size
    && w.disk == v.disk && w.ibits == v.ibits && w.dirs == v.dirs && w.start == v.start
    && |w.bmap| == |v.bmap| && Free(w.bmap) == {}
  }

  lemma GrowingStart(v: Vol, ino: nat)
    requires Sound(v) && ino in v.inodes
    ensures Growing(v, v, ino, Layout(v.disk, v.inodes[ino]))
  {
    var ls := Layouts(v.disk, v.inodes);
    assert ls[ino := Layout(v.disk, v.inodes[ino])] == ls;
  }

  lemma SameDiskPlan(v: Vol, w: Vol, x: Vol)
    requires SamePlan(v, w) && x.disk == w.disk && x.start == w.start && |x.bmap| == |w.bmap| && |x.ibits| == |w.ibits|
    ensures SamePlan(v, x)
  {
  }

  /** One more block `lba`, recorded in place `i`: a direct place or the table through the inode,
      an indirect place in memory only. */
  lemma GrowingStep(v: Vol, w: Vol, ino: nat, l: seq<Word>, x: Vol, i: nat, lba: Word)
    requires Growing(v, w, ino, l) && i <= TABLE && l[i] == 0 && lba != 0 && lba !in w.owner
    requires x.disk == w.disk && x.ibits == w.ibits && x.dirs == w.dirs && x.start == w.start && |x.bmap| == |w.bmap|
    requires x.owner == w.owner[lba := (ino, i)] && BitsMatch(x.bmap, x.owner, x.start)
    requires
      x.inodes == if i < DIRECT then w.inodes[ino := w.inodes[ino].(sectors := Put(w.inodes[ino].sectors, i, lba))]
                  else if i == TABLE then w.inodes[ino := w.inodes[ino].(sectors := Put(w.inodes[ino].sectors, 12, lba))]
                  else w.inodes
    ensures Growing(v, x, ino, Put(l, i, lba))
  {
    hide Owns, BitsMatch, SamePlan;
    var ls := Layouts(v.disk, v.inodes);
    var ms: map<nat, seq<Word>> := ls[ino := l];
    SameDiskPlan(v, w, x);
    Claim(ms, w.owner, ino, i, lba);
    assert ms[ino := Put(l, i, lba)] == ls[ino := Put(l, i, lba)];
    assert Place(v.disk, v.inodes[ino], i) == 0;
  }

  /** Direct places only: the layout the inode has now is the one it is to have. */
  lemma GrownDirect(v: Vol, w: Vol, ino: nat, l: seq<Word>, k: nat)
    requires Growing(v, w, ino, l) && BlockShape(l, k) && k <= DIRECT
    ensures Grew(v, w, ino, k)
  {
    var n := w.inodes[ino];
    assert Layout(w.disk, n) == l by {
      forall i | 0 <= i <= TABLE ensures Place(w.disk, n, i) == l[i] {
      }
    }
    Settled(v, w, ino, l);
  }

  lemma Settled(v: Vol, w: Vol, ino: nat, l: seq<Word>)
    requires Sound(v) && SameBut(v, w, ino) && |w.inodes[ino].sectors| == 13
    requires Layout(w.disk, w.inodes[ino]) == l
    requires forall q :: q in v.inodes && q != ino && v.inodes[q].sectors[12] != 0 ==>
               Get(w.disk, v.inodes[q].sectors[12]) == Get(v.disk, v.inodes[q].sectors[12])
    requires w.inodes[ino].no == ino && Owns(Layouts(v.disk, v.inodes)[ino := l], w.owner)
    requires BitsMatch(w.bmap, w.owner, w.start)
    ensures Sound(w)
  {
    hide Owns, BitsMatch;
    forall q | q in v.inodes && q != ino ensures Layout(w.disk, w.inodes[q]) == Layout(v.disk, v.inodes[q]) {
      forall i | 0 <= i <= TABLE ensures Place(w.disk, w.inodes[q], i) == Place(v.disk, v.inodes[q], i) {
      }
    }
    assert Layouts(w.disk, w.inodes) == Layouts(v.disk, v.inodes)[ino := l];
  }

  /** An inode whose table sector holds the packed indirect part of `l` has layout `l`. */
  lemma TableLayout(d: Disk, n: INode, l: seq<Word>)
    requires |n.sectors| == 13 && |l| == 141 && l[TABLE] != 0 && n.sectors[12] == l[TABLE]
    requires forall i :: 0 <= i < DIRECT ==> n.sectors[i] == l[i]
    requires Get(d, l[TABLE]) == Pack(l[DIRECT..TABLE])
    ensures Layout(d, n) == l
  {
    var ws := l[DIRECT..TABLE];
    TableRoundTrip(ws);
    LayoutFromTable(d, n, l, ws);
  }

  lemma LayoutFromTable(d: Disk, n: INode, l: seq<Word>, ws: seq<Word>)
    requires |n.sectors| == 13 && |l| == 141 && n.sectors[12] == l[TABLE] != 0
    requires forall i :: 0 <= i < DIRECT ==> n.sectors[i] == l[i]
    requires TableWords(Get(d, l[TABLE])) == ws == l[DIRECT..TABLE]
    ensures Layout(d, n) == l
  {
    forall i | 0 <= i <= TABLE ensures Layout(d, n)[i] == l[i] {
    }
  }

  /** Sectors owned by others are not this inode's new or old table. */
  lemma TableIsMine(v: Vol, w: Vol, ino: nat, l: seq<Word>, s: nat)
    requires Growing(v, w, ino, l) && l[TABLE] != 0
    requires s in v.owner && v.owner[s] != (ino, TABLE)
    ensures s != l[TABLE]
  {
    var ms: map<nat, seq<Word>> := Layouts(v.disk, v.inodes)[ino := l];
    assert ms[ino][TABLE] == l[TABLE];
    assert w.owner[s] == v.owner[s];
  }

  lemma TableInPlan(v: Vol, w: Vol, ino: nat, l: seq<Word>, s: Sector)
    requires Growing(v, w, ino, l) && l[TABLE] != 0
    ensures SamePlan(v, w.(disk := w.disk[l[TABLE] := s]))
  {
    var ms: map<nat, seq<Word>> := Layouts(v.disk, v.inodes)[ino := l];
    assert ms[ino][TABLE] == l[TABLE];
  }

  /** Writing the table changes no sector of anybody else. */
  lemma OnlyTable(v: Vol, w: Vol, ino: nat, l: seq<Word>, d: Disk)
    requires Growing(v, w, ino, l) && l[TABLE] != 0 && d == w.disk[l[TABLE] := Pack(l[DIRECT..TABLE])]
    ensures forall s :: s in v.owner && v.owner[s] != (ino, TABLE) ==> Get(d, s) == Get(v.disk, s)
    ensures forall q :: q in v.inodes && q != ino && v.inodes[q].sectors[12] != 0 ==>
              Get(d, v.inodes[q].sectors[12]) == Get(v.disk, v.inodes[q].sectors[12])
  {
    forall s | s in v.owner && v.owner[s] != (ino, TABLE) ensures Get(d, s) == Get(v.disk, s) {
      hide Owns, BitsMatch;
      TableIsMine(v, w, ino, l, s);
    }
    forall q | q in v.inodes && q != ino && v.inodes[q].sectors[12] != 0
      ensures Get(d, v.inodes[q].sectors[12]) == Get(v.disk, v.inodes[q].sectors[12])
    {
      OthersTable(v, q);
    }
  }

  /** The indirect table is written last, in one piece. */
  lemma GrownIndirect(v: Vol, w: Vol, ino: nat, l: seq<Word>, k: nat, x: Vol)
    requires Growing(v, w, ino, l) && BlockShape(l, k) && k > DIRECT
    requires x == w.(disk := w.disk[l[TABLE] := Pack(l[DIRECT..TABLE])])
    ensures Grew(v, x, ino, k)
  {
    hide Owns, BitsMatch, SamePlan, Place;
    TableInPlan(v, w, ino, l, Pack(l[DIRECT..TABLE]));
    TableLayout(x.disk, x.inodes[ino], l);
    OnlyTable(v, w, ino, l, x.disk);
    Settled(v, x, ino, l);
  }

  lemma OthersTable(v: Vol, q: nat)
    requires Sound(v) && q in v.inodes && v.inodes[q].sectors[12] != 0
    ensures v.inodes[q].sectors[12] in v.owner && v.owner[v.inodes[q].sectors[12]] == (q, TABLE)
  {
    assert Layouts(v.disk, v.inodes)[q][TABLE] == v.inodes[q].sectors[12];
  }

  /** Allocates one block for place `i`. The direct places and the table are recorded in the inode
      at once; indirect places only when the table is written. */
  method Extend(vol: Volume, ino: nat, i: nat, ghost v: Vol, ghost l: seq<Word>) returns (lba: int)
    requires Growing(v, vol.State(), ino, l) && i <= TABLE && l[i] == 0
    modifies vol
    ensures lba == -1 <==> old(Free(vol.bmap)) == {}
    ensures lba == -1 ==> Growing(v, vol.State(), ino, l) && vol.bmap == old(vol.bmap) && Free(vol.bmap) == {}
    ensures lba != -1 ==> 0 < lba < 0x1_0000_0000 && Growing(v, vol.State(), ino, Put(l, i, lba))
    ensures lba != -1 ==> |Free(vol.bmap)| == |old(Free(vol.bmap))| - 1
  {
    ghost var w := vol.State();
    lba := vol.BlockBitmapAlloc(ino, i);
    if lba == -1 {
      return;
    }
    var n := vol.inodes[ino];
    if i < DIRECT {
      assert n.sectors[i] == 0;
      vol.inodes := vol.inodes[ino := n.(sectors := Put(n.sectors, i, lba))];
    } else if i == TABLE {
      assert n.sectors[12] == 0;
      vol.inodes := vol.inodes[ino := n.(sectors := Put(n.sectors, 12, lba))];
    }
    GrowingStep(v, w, ino, l, vol.State(), i, lba);
  }

  /** The 12 direct places suffice. */
  method AllocDirect(vol: Volume, ino: nat, has: nat, will: nat) returns (ok: bool, blocks: seq<Word>)
    requires Sound(vol.State()) && ino in vol.inodes && 1 <= has <= will <= DIRECT
    requires BlockShape(Layout(vol.disk, vol.inodes[ino]), has)
    modifies vol
    ensures ok <==> |old(Free(vol.bmap))| >= will - has
    ensures ok ==> Grew(old(vol.State()), vol.State(), ino, will)
    ensures ok ==> Collected(vol.disk, vol.inodes[ino], blocks, has - 1, will)
    ensures !ok ==> Aborted(old(vol.State()), vol.State(), ino)
  {
    hide Owns, BitsMatch, Free;
    ghost var v := vol.State();
    ghost var l := Layout(vol.disk, vol.inodes[ino]);
    GrowingStart(v, ino);
    assert vol.inodes[ino].sectors[has - 1] != 0;
    blocks := Put(ZeroWords(MAX_BLOCKS), has - 1, vol.inodes[ino].sectors[has - 1]);
    var i := has;
    while i < will
      invariant has <= i <= will && |blocks| == MAX_BLOCKS
      invariant Growing(v, vol.State(), ino, l) && BlockShape(l, i)
      invariant forall j :: has - 1 <= j < i ==> blocks[j] == l[j]
      invariant |Free(vol.bmap)| == |Free(v.bmap)| - (i - has)
    {
      var lba := Extend(vol, ino, i, v, l);
      if lba == -1 {
        return false, blocks;
      }
      blocks, l := Put(blocks, i, lba), Put(l, i, lba);
      i := i + 1;
    }
    GrownDirect(v, vol.State(), ino, l, will);
    ok := true;
  }

  /** While the table exists and the blocks before `i` do, and only in memory from place 12 on. */
  ghost predicate TablePending(l: seq<Word>, blocks: seq<Word>, has: nat, i: nat) {
    && |l| == 141 && |blocks| == MAX_BLOCKS && 1 <= has <= i <= MAX_BLOCKS
    && (forall j :: 0 <= j < MAX_BLOCKS ==> (l[j] != 0 <==> j < i)) && l[TABLE] != 0
    && (forall j :: has - 1 <= j < i ==> blocks[j] == l[j])
    && (forall j :: DIRECT <= j < MAX_BLOCKS ==> blocks[j] == l[j])
  }

  /** The allocating loop of the second and third case. */
  method AllocRest(vol: Volume, ino: nat, blocks0: seq<Word>, has: nat, will: nat, ghost v: Vol, ghost l0: seq<Word>)
    returns (ok: bool, blocks: seq<Word>, ghost l: seq<Word>)
    requires Growing(v, vol.State(), ino, l0) && TablePending(l0, blocks0, has, has) && has <= will <= MAX_BLOCKS
    modifies vol
    ensures ok <==> |old(Free(vol.bmap))| >= will - has
    ensures Growing(v, vol.State(), ino, l) && l[TABLE] == l0[TABLE]
    ensures !ok ==> Free(vol.bmap) == {}
    ensures ok ==> TablePending(l, blocks, has, will)
  {
    hide Growing, Free;
    blocks, l := blocks0, l0;
    var i := has;
    while i < will
      invariant has <= i <= will
      invariant Growing(v, vol.State(), ino, l) && TablePending(l, blocks, has, i) && l[TABLE] == l0[TABLE]
      invariant |Free(vol.bmap)| == |old(Free(vol.bmap))| - (i - has)
    {
      var lba := Extend(vol, ino, i, v, l);
      if lba == -1 {
        return false, blocks, l;
      }
      blocks, l := Put(blocks, i, lba), Put(l, i, lba);
      i := i + 1;
    }
    ok := true;
  }

  /** Writes the collected indirect addresses as the table. */
  method WriteTable(vol: Volume, ino: nat, tab: Word, blocks: seq<Word>, has: nat, will: nat, ghost v: Vol, ghost l: seq<Word>)
    requires Growing(v, vol.State(), ino, l) && TablePending(l, blocks, has, will)
    requires will > DIRECT && tab == l[TABLE]
    modifies vol`disk
    ensures Grew(v, vol.State(), ino, will)
    ensures Collected(vol.disk, vol.inodes[ino], blocks, has - 1, will)
  {
    assert blocks[DIRECT..] == l[DIRECT..TABLE];
    ghost var w := vol.State();
    vol.disk := vol.disk[tab := Pack(blocks[DIRECT..])];
    TableLayout(vol.disk, vol.inodes[ino], l);
    GrownIndirect(v, w, ino, l, will, vol.State());
  }

  /** The old data ends in a direct block and the new data reaches the indirect ones. */
  method AllocAcross(vol: Volume, ino: nat, has: nat, will: nat) returns (ok: bool, blocks: seq<Word>)
    requires Sound(vol.State()) && ino in vol.inodes && 1 <= has <= DIRECT < will <= MAX_BLOCKS
    requires BlockShape(Layout(vol.disk, vol.inodes[ino]), has)
    modifies vol
    ensures ok <==> |old(Free(vol.bmap))| >= will - has + 1
    ensures ok ==> Grew(old(vol.State()), vol.State(), ino, will)
    ensures ok ==> Collected(vol.disk, vol.inodes[ino], blocks, has - 1, will)
    ensures !ok ==> Aborted(old(vol.State()), vol.State(), ino)
  {
    ghost var v := vol.State();
    ghost var l := Layout(vol.disk, vol.inodes[ino]);
    GrowingStart(v, ino);
    blocks := Put(ZeroWords(MAX_BLOCKS), has - 1, vol.inodes[ino].sectors[has - 1]);
    var tab := Extend(vol, ino, TABLE, v, l);
    if tab == -1 {
      return false, blocks;
    }
    l := Put(l, TABLE, tab);
    ok, blocks, l := AllocRest(vol, ino, blocks, has, will, v, l);
    if ok {
      WriteTable(vol, ino, tab, blocks, has, will, v, l);
    }
  }

  /** The old data already reaches the indirect blocks. */
  method AllocIndirect(vol: Volume, ino: nat, has: nat, will: nat) returns (ok: bool, blocks: seq<Word>)
    requires Sound(vol.State()) && ino in vol.inodes && DIRECT < has <= will <= MAX_BLOCKS
    requires BlockShape(Layout(vol.disk, vol.inodes[ino]), has)
    modifies vol
    ensures ok <==> |old(Free(vol.bmap))| >= will - has
    ensures ok ==> Grew(old(vol.State()), vol.State(), ino, will)
    ensures ok ==> Collected(vol.disk, vol.inodes[ino], blocks, has - 1, will)
    ensures !ok ==> Aborted(old(vol.State()), vol.State(), ino)
  {
    ghost var v := vol.State();
    ghost var l := Layout(vol.disk, vol.inodes[ino]);
    GrowingStart(v, ino);
    var tab := vol.inodes[ino].sectors[12];
    assert tab == l[TABLE] != 0;
    blocks := ZeroWords(DIRECT) + TableWords(Get(vol.disk, tab));
    ok, blocks, l := AllocRest(vol, ino, blocks, has, will, v, l);
    if ok {
      WriteTable(vol, ino, tab, blocks, has, will, v, l);
    }
  }

  /** Blocks an append needs beyond the ones the file has, the indirect table included. */
  function BlocksNeeded(has: nat, will: nat): nat
    requires has <= will
  {
    will - has + if has <= DIRECT < will then 1 else 0
  }

  /** Collects the blocks the append will touch, allocating the missing ones. */
  method CollectForWrite(vol: Volume, ino: nat, has: nat, will: nat) returns (ok: bool, blocks: seq<Word>)
    requires Sound(vol.State()) && ino in vol.inodes && 1 <= has <= will <= MAX_BLOCKS
    requires BlockShape(Layout(vol.disk, vol.inodes[ino]), has)
    modifies vol
    ensures ok <==> |old(Free(vol.bmap))| >= BlocksNeeded(has, will)
    ensures ok ==> Grew(old(vol.State()), vol.State(), ino, will)
    ensures ok ==> Collected(vol.disk, vol.inodes[ino], blocks, has - 1, will)
    ensures !ok ==> Aborted(old(vol.State()), vol.State(), ino)
  {
    if will == has {
      var n := vol.inodes[ino];
      if has <= DIRECT {
        blocks := Put(ZeroWords(MAX_BLOCKS), has - 1, n.sectors[has - 1]);
      } else {
        assert Layout(vol.disk, n)[TABLE] != 0;
        assert n.sectors[12] != 0;
        blocks := ZeroWords(DIRECT) + TableWords(Get(vol.disk, n.sectors[12]));
      }
      ok := true;
    } else if will <= DIRECT {
      ok, blocks := AllocDirect(vol, ino, has, will);
    } else if has <= DIRECT {
      ok, blocks := AllocAcross(vol, ino, has, will);
    } else {
      ok, blocks := AllocIndirect(vol, ino, has, will);
    }
  }

  /** The first write to a file gives it its first block. */
  method FirstBlock(vol: Volume, ino: nat) returns (ok: bool)
    requires Sound(vol.State()) && IsFile(vol.State(), ino)
    modifies vol
    ensures ok <==> old(vol.inodes[ino].sectors[0]) != 0 || old(Free(vol.bmap)) != {}
    ensures ok ==> Grew(old(vol.State()), vol.State(), ino, old(vol.inodes[ino].size) / BLOCK_SIZE + 1)
    ensures ok ==> |Free(vol.bmap)| == |old(Free(vol.bmap))| - if old(vol.inodes[ino].sectors[0]) == 0 then 1 else 0
    ensures vol.disk == old(vol.disk)
    ensures !ok ==> Aborted(old(vol.State()), vol.State(), ino)
  {
    ghost var v := vol.State();
    ghost var l := Layout(vol.disk, vol.inodes[ino]);
    assert l[0] == vol.inodes[ino].sectors[0];
    if vol.inodes[ino].sectors[0] == 0 {
      GrowingStart(v, ino);
      var lba := Extend(vol, ino, 0, v, l);
      if lba == -1 {
        return false;
      }
      GrownDirect(v, vol.State(), ino, Put(l, 0, lba), 1);
    }
    ok := true;
  }

  /** Inode `q`, its layout and everything it owns are the same in both states. */
  ghost predicate Untouched(v: Vol, w: Vol, q: nat) {
    && q in v.inodes && q in w.inodes && w.inodes[q] == v.inodes[q] && |v.inodes[q].sectors| == 13
    && (forall i :: 0 <= i <= TABLE ==> Place(w.disk, v.inodes[q], i) == Place(v.disk, v.inodes[q], i))
    && (forall i :: 0 <= i <= TABLE && Place(v.disk, v.inodes[q], i) != 0 ==>
          Get(w.disk, Place(v.disk, v.inodes[q], i)) == Get(v.disk, Place(v.disk, v.inodes[q], i)))
  }

  /** If only sectors owned by `ino`, or by nobody, changed, then every other inode is untouched. */
  lemma OthersUntouched(v: Vol, w: Vol, ino: nat, q: nat)
    requires Sound(v) && q in v.inodes && q != ino && q in w.inodes && w.inodes[q] == v.inodes[q]
    requires forall l :: l in v.owner && v.owner[l].0 != ino ==> Get(w.disk, l) == Get(v.disk, l)
    ensures Untouched(v, w, q)
  {
    var n := v.inodes[q];
    forall i | 0 <= i <= TABLE && Place(v.disk, n, i) != 0
      ensures Get(w.disk, Place(v.disk, n, i)) == Get(v.disk, Place(v.disk, n, i))
    {
      assert Layouts(v.disk, v.inodes)[q][i] == Place(v.disk, n, i);
    }
    if n.sectors[12] != 0 {
      assert Place(v.disk, n, TABLE) != 0;
    }
  }

  lemma UntouchedContent(v: Vol, w: Vol, q: nat)
    requires Sound(v) && IsFile(v, q) && Untouched(v, w, q)
    ensures Content(w.disk, w.inodes[q]) == Content(v.disk, v.inodes[q])
  {
    var n := v.inodes[q];
    forall k | 0 <= k < n.size ensures Content(w.disk, n)[k] == Content(v.disk, n)[k] {
      assert Layout(v.disk, n)[k / BLOCK_SIZE] != 0;
    }
  }

  /** Gaining blocks changes no byte of any file. */
  lemma GrewContent(v: Vol, w: Vol, ino: nat, k: nat)
    requires Grew(v, w, ino, k) && IsFile(v, ino)
    ensures w.inodes[ino].size == v.inodes[ino].size
    ensures Content(w.disk, w.inodes[ino]) == Content(v.disk, v.inodes[ino])
    ensures forall q :: q in v.inodes && q != ino ==> Untouched(v, w, q)
  {
    hide BitsMatch, Untouched;
    forall q | q in v.inodes && q != ino ensures Untouched(v, w, q) {
      OthersUntouched(v, w, ino, q);
    }
    var n := v.inodes[ino];
    forall k | 0 <= k < n.size ensures Content(w.disk, w.inodes[ino])[k] == Content(v.disk, n)[k] {
      GrewBlock(v, w, ino, k / BLOCK_SIZE);
    }
  }

  /** Growing leaves a file's blocks where they are and as they are. */
  lemma GrewBlock(v: Vol, w: Vol, ino: nat, i: nat)
    requires Sound(v) && ino in v.inodes && i < MAX_BLOCKS && SameBut(v, w, ino) && |w.inodes[ino].sectors| == 13
    requires IsFile(v, ino) && i * BLOCK_SIZE < v.inodes[ino].size
    requires forall i :: 0 <= i <= TABLE && Place(v.disk, v.inodes[ino], i) != 0 ==>
               Place(w.disk, w.inodes[ino], i) == Place(v.disk, v.inodes[ino], i)
    requires forall l :: l in v.owner && v.owner[l] != (ino, TABLE) ==> Get(w.disk, l) == Get(v.disk, l)
    ensures Place(w.disk, w.inodes[ino], i) == Place(v.disk, v.inodes[ino], i)
    ensures Get(w.disk, Place(v.disk, v.inodes[ino], i)) == Get(v.disk, Place(v.disk, v.inodes[ino], i))
  {
    hide BitsMatch, SameBut;
    assert Layout(v.disk, v.inodes[ino])[i] != 0;
    assert Layouts(v.disk, v.inodes)[ino][i] == Place(v.disk, v.inodes[ino], i);
  }

  /** Block addresses a write of `count` bytes at `from` may touch. */
  ghost function Window(blocks: seq<Word>, from: nat, count: nat): set<nat>
    requires |blocks| == MAX_BLOCKS && (from + count) / BLOCK_SIZE < MAX_BLOCKS
  {
    set j | from / BLOCK_SIZE <= j <= (from + count) / BLOCK_SIZE :: blocks[j]
  }

  ghost predicate Distinct(blocks: seq<Word>, from: nat, count: nat)
    requires |blocks| == MAX_BLOCKS && (from + count) / BLOCK_SIZE < MAX_BLOCKS
  {
    forall i, j :: from / BLOCK_SIZE <= i < j <= (from + count) / BLOCK_SIZE ==> blocks[i] != blocks[j]
  }

  /** The write has got to byte `cur`: what is before `from` in its sector is kept, `from` to `cur`
      is the data, and only sectors of the window were written. */
  ghost predicate Copied(d0: Disk, d: Disk, blocks: seq<Word>, from: nat, cur: nat, buf: seq<Byte>)
    requires |blocks| == MAX_BLOCKS && (from + |buf|) / BLOCK_SIZE < MAX_BLOCKS
  {
    && from <= cur <= from + |buf|
    && (forall k :: from <= k < cur ==> Get(d, blocks[k / BLOCK_SIZE])[k % BLOCK_SIZE] == buf[k - from])
    && (forall j :: 0 <= j < from % BLOCK_SIZE ==>
          Get(d, blocks[from / BLOCK_SIZE])[j] == Get(d0, blocks[from / BLOCK_SIZE])[j])
    && (forall l: nat :: l !in Window(blocks, from, |buf|) ==> Get(d, l) == Get(d0, l))
  }

  /** One chunk of `data`: the first is merged into the sector read from the disk, later ones start
      a sector. */
  lemma CopyChunk(d0: Disk, d: Disk, blocks: seq<Word>, from: nat, cur: nat, buf: seq<Byte>, base: Sector, data: seq<Byte>, e: Disk)
    requires |blocks| == MAX_BLOCKS && (from + |buf|) / BLOCK_SIZE < MAX_BLOCKS && Distinct(blocks, from, |buf|)
    requires Copied(d0, d, blocks, from, cur, buf)
    requires cur + |data| <= from + |buf| && |data| <= BLOCK_SIZE - cur % BLOCK_SIZE
    requires data == buf[cur - from..cur - from + |data|]
    requires (cur == from && base == Get(d, blocks[cur / BLOCK_SIZE])) || (cur > from && cur % BLOCK_SIZE == 0)
    requires e == d[blocks[cur / BLOCK_SIZE] := Splice(base, cur % BLOCK_SIZE, data)]
    ensures Copied(d0, e, blocks, from, cur + |data|, buf)
  {
    var s := cur / BLOCK_SIZE;
    forall k | from <= k < cur + |data| ensures Get(e, blocks[k / BLOCK_SIZE])[k % BLOCK_SIZE] == buf[k - from] {
      CopyByte(d0, d, blocks, from, cur, buf, base, data, e, k);
    }
    hide Distinct, Splice;
    CopyHead(d0, d, blocks, from, cur, buf, base, data, e);
    assert blocks[s] in Window(blocks, from, |buf|);
  }

  lemma CopyByte(d0: Disk, d: Disk, blocks: seq<Word>, from: nat, cur: nat, buf: seq<Byte>, base: Sector, data: seq<Byte>, e: Disk, k: nat)
    requires |blocks| == MAX_BLOCKS && (from + |buf|) / BLOCK_SIZE < MAX_BLOCKS && Distinct(blocks, from, |buf|)
    requires Copied(d0, d, blocks, from, cur, buf)
    requires cur + |data| <= from + |buf| && |data| <= BLOCK_SIZE - cur % BLOCK_SIZE
    requires data == buf[cur - from..cur - from + |data|]
    requires (cur == from && base == Get(d, blocks[cur / BLOCK_SIZE])) || (cur > from && cur % BLOCK_SIZE == 0)
    requires e == d[blocks[cur / BLOCK_SIZE] := Splice(base, cur % BLOCK_SIZE, data)]
    requires from <= k < cur + |data|
    ensures Get(e, blocks[k / BLOCK_SIZE])[k % BLOCK_SIZE] == buf[k - from]
  {
    hide Window;
    var s := cur / BLOCK_SIZE;
    if k >= cur {
      assert k / BLOCK_SIZE == s && k % BLOCK_SIZE == cur % BLOCK_SIZE + (k - cur);
    } else {
      assert from / BLOCK_SIZE <= k / BLOCK_SIZE <= s;
    }
  }

  /** What lies before the data in its first sector stays. */
  lemma CopyHead(d0: Disk, d: Disk, blocks: seq<Word>, from: nat, cur: nat, buf: seq<Byte>, base: Sector, data: seq<Byte>, e: Disk)
    requires |blocks| == MAX_BLOCKS && (from + |buf|) / BLOCK_SIZE < MAX_BLOCKS && Distinct(blocks, from, |buf|)
    requires Copied(d0, d, blocks, from, cur, buf)
    requires cur + |data| <= from + |buf| && |data| <= BLOCK_SIZE - cur % BLOCK_SIZE
    requires data == buf[cur - from..cur - from + |data|]
    requires (cur == from && base == Get(d, blocks[cur / BLOCK_SIZE])) || (cur > from && cur % BLOCK_SIZE == 0)
    requires e == d[blocks[cur / BLOCK_SIZE] := Splice(base, cur % BLOCK_SIZE, data)]
    ensures forall j :: 0 <= j < from % BLOCK_SIZE ==>
              Get(e, blocks[from / BLOCK_SIZE])[j] == Get(d0, blocks[from / BLOCK_SIZE])[j]
  {
    hide Window;
    if cur > from {
      assert from / BLOCK_SIZE < cur / BLOCK_SIZE;
    }
  }

  /** Bytes the next turn of the copying loop writes: what is left, or what fits in the sector. */
  function ChunkSize(size: nat, left: nat): (c: nat)
    ensures c <= left && c <= BLOCK_SIZE - size % BLOCK_SIZE && (left > 0 ==> c > 0)
    ensures c < left ==> (size + c) % BLOCK_SIZE == 0
  {
    var secLeft := BLOCK_SIZE - size % BLOCK_SIZE;
    if left < secLeft then left else secLeft
  }

  /** One turn of the copying loop, with `done` bytes written before it. */
  method WriteChunk(vol: Volume, ino: nat, blocks: seq<Word>, buf: seq<Byte>, done: nat, ghost d0: Disk, ghost from: nat)
    returns (chunk: nat)
    requires ino in vol.inodes && |blocks| == MAX_BLOCKS && (from + |buf|) / BLOCK_SIZE < MAX_BLOCKS
    requires Distinct(blocks, from, |buf|) && done < |buf| && vol.inodes[ino].size == from + done
    requires Copied(d0, vol.disk, blocks, from, from + done, buf)
    requires done > 0 ==> (from + done) % BLOCK_SIZE == 0
    modifies vol`disk, vol`inodes
    ensures chunk == ChunkSize(from + done, |buf| - done)
    ensures vol.inodes == old(vol.inodes)[ino := old(vol.inodes[ino]).(size := from + done + chunk)]
    ensures Copied(d0, vol.disk, blocks, from, from + done + chunk, buf)
  {
    var n := vol.inodes[ino];
    chunk := ChunkSize(n.size, |buf| - done);
    var secLba := blocks[n.size / BLOCK_SIZE];
    var ioBuf: Sector := if done == 0 then Get(vol.disk, secLba) else Zeros(512);
    var data := buf[done..done + chunk];
    ghost var d := vol.disk;
    vol.disk := vol.disk[secLba := Splice(ioBuf, n.size % BLOCK_SIZE, data)];
    CopyChunk(d0, d, blocks, from, n.size, buf, ioBuf, data, vol.disk);
    vol.inodes := vol.inodes[ino := n.(size := n.size + chunk)];
  }

  /** The copying loop of an append. */
  method WriteData(vol: Volume, ino: nat, blocks: seq<Word>, buf: seq<Byte>)
    requires ino in vol.inodes && |blocks| == MAX_BLOCKS
    requires (vol.inodes[ino].size + |buf|) / BLOCK_SIZE < MAX_BLOCKS
    requires Distinct(blocks, vol.inodes[ino].size, |buf|)
    modifies vol`disk, vol`inodes
    ensures vol.inodes == old(vol.inodes)[ino := old(vol.inodes[ino]).(size := old(vol.inodes[ino].size) + |buf|)]
    ensures var from := old(vol.inodes[ino].size);
            Copied(old(vol.disk), vol.disk, blocks, from, from + |buf|, buf)
  {
    ghost var d0, n0, from := vol.disk, vol.inodes[ino], vol.inodes[ino].size;
    var bytesWritten := 0;
    while bytesWritten < |buf|
      invariant 0 <= bytesWritten <= |buf|
      invariant vol.inodes == old(vol.inodes)[ino := n0.(size := from + bytesWritten)]
      invariant Copied(d0, vol.disk, blocks, from, from + bytesWritten, buf)
      invariant 0 < bytesWritten < |buf| ==> (from + bytesWritten) % BLOCK_SIZE == 0
    {
      var chunk := WriteChunk(vol, ino, blocks, buf, bytesWritten, d0, from);
      bytesWritten := bytesWritten + chunk;
    }
  }

  /** The file got `buf` at its end and nothing else about any file or directory changed. */
  ghost predicate Appended(v: Vol, w: Vol, ino: nat, buf: seq<Byte>) {
    && Sound(w) && IsFile(v, ino) && IsFile(w, ino)
    && w.inodes.Keys == v.inodes.Keys && w.ibits == v.ibits && w.dirs == v.dirs && SamePlan(v, w)
    && Content(w.disk, w.inodes[ino]) == Content(v.disk, v.inodes[ino]) + buf
    && (forall q :: q in v.inodes && q != ino ==> Untouched(v, w, q))
  }

  /** Blocks of one file are pairwise different, and owned by it. */
  lemma WindowOwned(v: Vol, ino: nat, blocks: seq<Word>, from: nat, count: nat)
    requires Sound(v) && ino in v.inodes && |blocks| == MAX_BLOCKS && (from + count) / BLOCK_SIZE < MAX_BLOCKS
    requires BlockShape(Layout(v.disk, v.inodes[ino]), (from + count) / BLOCK_SIZE + 1)
    requires Collected(v.disk, v.inodes[ino], blocks, from / BLOCK_SIZE, (from + count) / BLOCK_SIZE + 1)
    ensures Distinct(blocks, from, count)
    ensures forall l :: l in Window(blocks, from, count) ==> l in v.owner && v.owner[l].0 == ino && v.owner[l].1 < MAX_BLOCKS
  {
    forall j | from / BLOCK_SIZE <= j <= (from + count) / BLOCK_SIZE
      ensures blocks[j] in v.owner && v.owner[blocks[j]] == (ino, j)
    {
      assert Layouts(v.disk, v.inodes)[ino][j] == blocks[j];
    }
  }

  /** After the copying loop every byte is where a reader looks for it. */
  lemma FilledContent(d: Disk, e: Disk, n: INode, blocks: seq<Word>, buf: seq<Byte>)
    requires |n.sectors| == 13 && |blocks| == MAX_BLOCKS && (n.size + |buf|) / BLOCK_SIZE < MAX_BLOCKS
    requires Collected(d, n, blocks, n.size / BLOCK_SIZE, (n.size + |buf|) / BLOCK_SIZE + 1)
    requires Copied(d, e, blocks, n.size, n.size + |buf|, buf)
    requires forall i :: 0 <= i <= TABLE ==> Place(e, n, i) == Place(d, n, i)
    requires forall i :: 0 <= i < n.size / BLOCK_SIZE ==> Place(d, n, i) !in Window(blocks, n.size, |buf|)
    ensures Content(e, n.(size := n.size + |buf|)) == Content(d, n) + buf
  {
    var m := n.(size := n.size + |buf|);
    forall k | 0 <= k < m.size ensures Content(e, m)[k] == (Content(d, n) + buf)[k] {
      var i := k / BLOCK_SIZE;
      assert Place(e, m, i) == Place(e, n, i) == Place(d, n, i);
      if k < n.size && i == n.size / BLOCK_SIZE {
        assert k % BLOCK_SIZE < n.size % BLOCK_SIZE;
      }
    }
  }

  /** A state whose file `ino` is ready to take `count` more bytes into `blocks`. */
  ghost predicate Ready(v: Vol, ino: nat, blocks: seq<Word>, count: nat) {
    && Sound(v) && ino in v.inodes && ino !in v.dirs && |blocks| == MAX_BLOCKS
    && (v.inodes[ino].size + count) / BLOCK_SIZE < MAX_BLOCKS
    && BlockShape(Layout(v.disk, v.inodes[ino]), (v.inodes[ino].size + count) / BLOCK_SIZE + 1)
    && Collected(v.disk, v.inodes[ino], blocks, v.inodes[ino].size / BLOCK_SIZE, (v.inodes[ino].size + count) / BLOCK_SIZE + 1)
  }

  /** `w` is `v` after the copying loop. */
  ghost predicate Stored(v: Vol, w: Vol, ino: nat, blocks: seq<Word>, buf: seq<Byte>) {
    && Ready(v, ino, blocks, |buf|)
    && Copied(v.disk, w.disk, blocks, v.inodes[ino].size, v.inodes[ino].size + |buf|, buf)
    && w == v.(disk := w.disk, inodes := v.inodes[ino := v.inodes[ino].(size := v.inodes[ino].size + |buf|)])
  }

  lemma StoredLayouts(v: Vol, w: Vol, ino: nat, blocks: seq<Word>, buf: seq<Byte>)
    requires Stored(v, w, ino, blocks, buf)
    ensures Layouts(w.disk, v.inodes) == Layouts(v.disk, v.inodes)
    ensures forall i :: 0 <= i <= TABLE ==> Place(w.disk, v.inodes[ino], i) == Place(v.disk, v.inodes[ino], i)
  {
    WindowOwned(v, ino, blocks, v.inodes[ino].size, |buf|);
    forall q | q in v.inodes && v.inodes[q].sectors[12] != 0
      ensures Get(w.disk, v.inodes[q].sectors[12]) == Get(v.disk, v.inodes[q].sectors[12])
    {
      OthersTable(v, q);
    }
    LayoutsKept(v.disk, w.disk, v.inodes);
    assert Layouts(w.disk, v.inodes)[ino] == Layouts(v.disk, v.inodes)[ino];
  }

  lemma StoredOthers(v: Vol, w: Vol, ino: nat, blocks: seq<Word>, buf: seq<Byte>)
    requires Stored(v, w, ino, blocks, buf)
    ensures forall q :: q in v.inodes && q != ino ==> Untouched(v, w, q)
  {
    WindowOwned(v, ino, blocks, v.inodes[ino].size, |buf|);
    forall q | q in v.inodes && q != ino ensures Untouched(v, w, q) {
      OthersUntouched(v, w, ino, q);
    }
  }

  lemma StoredPlan(v: Vol, w: Vol, ino: nat, blocks: seq<Word>, buf: seq<Byte>)
    requires Stored(v, w, ino, blocks, buf)
    ensures SamePlan(v, w)
  {
    hide Owns, Window, Collected, Distinct, Place;
    WindowOwned(v, ino, blocks, v.inodes[ino].size, |buf|);
  }

  lemma StoredFile(v: Vol, w: Vol, ino: nat, blocks: seq<Word>, buf: seq<Byte>)
    requires Stored(v, w, ino, blocks, buf)
    ensures Sound(w) && IsFile(w, ino)
    ensures Content(w.disk, w.inodes[ino]) == Content(v.disk, v.inodes[ino]) + buf
  {
    hide Owns, BitsMatch, Window, Copied, Content, Collected, Distinct, Place;
    StoredLayouts(v, w, ino, blocks, buf);
    EarlierBlocks(v, ino, blocks, |buf|);
    FilledContent(v.disk, w.disk, v.inodes[ino], blocks, buf);
    SizeOnly(v, w, ino);
  }

  lemma EarlierBlocks(v: Vol, ino: nat, blocks: seq<Word>, count: nat)
    requires Sound(v) && ino in v.inodes && |blocks| == MAX_BLOCKS
    requires (v.inodes[ino].size + count) / BLOCK_SIZE < MAX_BLOCKS
    requires BlockShape(Layout(v.disk, v.inodes[ino]), (v.inodes[ino].size + count) / BLOCK_SIZE + 1)
    requires Collected(v.disk, v.inodes[ino], blocks, v.inodes[ino].size / BLOCK_SIZE, (v.inodes[ino].size + count) / BLOCK_SIZE + 1)
    ensures forall i :: 0 <= i < v.inodes[ino].size / BLOCK_SIZE ==>
              Place(v.disk, v.inodes[ino], i) !in Window(blocks, v.inodes[ino].size, count)
  {
    var n := v.inodes[ino];
    var l := Layouts(v.disk, v.inodes)[ino];
    forall i, j | 0 <= i < n.size / BLOCK_SIZE <= j <= (n.size + count) / BLOCK_SIZE
      ensures Place(v.disk, n, i) != blocks[j]
    {
      assert l[i] == Place(v.disk, n, i) && l[j] == blocks[j];
      assert v.owner[l[i]] == (ino, i) && v.owner[l[j]] == (ino, j);
    }
  }

  /** Changing only a size and data sectors keeps the partition sound. */
  lemma SizeOnly(v: Vol, w: Vol, ino: nat)
    requires Sound(v) && ino in v.inodes
    requires w.inodes.Keys == v.inodes.Keys && w.inodes[ino] == v.inodes[ino].(size := w.inodes[ino].size)
    requires forall q :: q in v.inodes && q != ino ==> w.inodes[q] == v.inodes[q]
    requires w == v.(disk := w.disk, inodes := w.inodes)
    requires Layouts(w.disk, v.inodes) == Layouts(v.disk, v.inodes)
    ensures Sound(w)
    ensures Layout(w.disk, w.inodes[ino]) == Layout(v.disk, v.inodes[ino])
  {
    hide Owns, BitsMatch;
    forall q | q in v.inodes ensures Layout(w.disk, w.inodes[q]) == Layout(v.disk, v.inodes[q]) {
      assert Layouts(w.disk, v.inodes)[q] == Layouts(v.disk, v.inodes)[q];
      forall i | 0 <= i <= TABLE ensures Place(w.disk, w.inodes[q], i) == Place(w.disk, v.inodes[q], i) {
      }
    }
    assert Layouts(w.disk, w.inodes) == Layouts(v.disk, v.inodes);
  }

  lemma UntouchedTrans(u: Vol, v: Vol, w: Vol, q: nat)
    requires Untouched(u, v, q) && Untouched(v, w, q)
    ensures Untouched(u, w, q)
  {
  }

  /** `Wraps`: the sum of size and count does not fit in 32 bits and passes the size check as a small number, a
      case of which nothing is said. */
  datatype WriteResult = Written(count: nat) | TooBig | NoSpace | Panicked | Wraps

  /** How an append ends, decided before it starts. Exactly 71680 bytes pass the size check but not
      the later assertion on the number of blocks. */
  function WriteOutcome(size: nat, unwritten: bool, count: nat, free: nat): WriteResult {
    var total := size + count;
    if total >= 0x1_0000_0000 then Wraps
    else if total > 71680 then TooBig
    else if unwritten && free == 0 then NoSpace
    else if total == 71680 then WriteResult.Panicked
    else
      var need := BlocksNeeded(size / BLOCK_SIZE + 1, total / BLOCK_SIZE + 1) + if unwritten then 1 else 0;
      if free < need then NoSpace else Written(count)
  }

  /** How many places inode `ino` uses. */
  ghost function UsedBy(v: Vol, ino: nat): nat
    requires ino in v.inodes && |v.inodes[ino].sectors| == 13
  {
    |Used(Layout(v.disk, v.inodes[ino]))|
  }

  /** How an append of `count` bytes to file `ino` ends. It is refused above 71680 bytes. Otherwise it is done
      exactly if it stays below and the free blocks, with those the file has, are enough for the new size. */
  ghost predicate WritesRight(v: Vol, ino: nat, count: nat, r: WriteResult)
    requires ino in v.inodes && |v.inodes[ino].sectors| == 13
  {
    var total := v.inodes[ino].size + count;
    && (r.Wraps? <==> total >= 0x1_0000_0000)
    && (r.TooBig? <==> 71680 < total < 0x1_0000_0000)
    && (r.Written? <==> total < 71680 && |Free(v.bmap)| + UsedBy(v, ino) >= PlacesOf(total / 512 + 1))
    && (r.Panicked? <==> total == 71680 && |Free(v.bmap)| + UsedBy(v, ino) > 0)
    && (r.Written? ==> r.count == count)
  }

  lemma OutcomeIsRight(v: Vol, ino: nat, count: nat)
    requires IsFile(v, ino)
    ensures
      var n := v.inodes[ino];
      WritesRight(v, ino, count, WriteOutcome(n.size, n.sectors[0] == 0, count, |Free(v.bmap)|))
  {
    hide Used, Free;
    var n := v.inodes[ino];
    var l := Layout(v.disk, n);
    assert l[0] == n.sectors[0];
    if BlockShape(l, 0) {
      ShapeUses(l, 0);
    } else {
      ShapeUses(l, n.size / BLOCK_SIZE + 1);
    }
  }

  /** Blocks that other inodes keep are kept by them before and after. */
  lemma OthersKeep(v: Vol, w: Vol, ino: nat)
    requires Sound(v) && Sound(w) && w.inodes.Keys == v.inodes.Keys && forall q :: q in v.inodes && q != ino ==> Untouched(v, w, q)
    ensures Others(w.owner, ino) == Others(v.owner, ino)
  {
    hide Sound, Untouched;
    forall a: nat ensures a in Others(v.owner, ino) <==> a in Others(w.owner, ino) {
      if a in Others(v.owner, ino) {
        KeptOn(v, w, ino, a);
      }
      if a in Others(w.owner, ino) {
        KeptBefore(v, w, ino, a);
      }
    }
  }

  lemma KeptOn(v: Vol, w: Vol, ino: nat, a: nat)
    requires Sound(v) && Sound(w) && forall q :: q in v.inodes && q != ino ==> Untouched(v, w, q)
    requires a in v.owner && v.owner[a].0 != ino
    ensures a in w.owner && w.owner[a] == v.owner[a]
  {
    hide BitsMatch, Place;
    var (q, i) := v.owner[a];
    assert Untouched(v, w, q);
    assert Layouts(v.disk, v.inodes)[q][i] == a;
    assert Layouts(w.disk, w.inodes)[q][i] == a;
  }

  lemma KeptBefore(v: Vol, w: Vol, ino: nat, a: nat)
    requires Sound(v) && Sound(w) && w.inodes.Keys == v.inodes.Keys && forall q :: q in v.inodes && q != ino ==> Untouched(v, w, q)
    requires a in w.owner && w.owner[a].0 != ino
    ensures a in v.owner && v.owner[a] == w.owner[a]
  {
    hide BitsMatch, Place;
    var (q, i) := w.owner[a];
    assert Untouched(v, w, q);
    assert Layouts(w.disk, w.inodes)[q][i] == a;
    assert Layouts(v.disk, v.inodes)[q][i] == a;
  }

  /** A file gets its blocks from the free ones and from nowhere else. */
  lemma BlocksMove(v: Vol, w: Vol, ino: nat)
    requires Sound(v) && Sound(w) && ino in v.inodes && w.inodes.Keys == v.inodes.Keys && |w.bmap| == |v.bmap|
    requires forall q :: q in v.inodes && q != ino ==> Untouched(v, w, q)
    ensures |Free(w.bmap)| + UsedBy(w, ino) == |Free(v.bmap)| + UsedBy(v, ino)
  {
    OthersKeep(v, w, ino);
    FreeAndOwned(v);
    FreeAndOwned(w);
    MineAreUsed(v, ino);
    MineAreUsed(w, ino);
    hide Sound, Free, Mine, Others, Used, Untouched;
    SplitOwner(v.owner, ino);
    SplitOwner(w.owner, ino);
  }

  method StoreData(vol: Volume, ino: nat, blocks: seq<Word>, buf: seq<Byte>)
    requires Ready(vol.State(), ino, blocks, |buf|)
    modifies vol
    ensures Stored(old(vol.State()), vol.State(), ino, blocks, buf)
  {
    WindowOwned(vol.State(), ino, blocks, vol.inodes[ino].size, |buf|);
    WriteData(vol, ino, blocks, buf);
  }

  /** Ready for the data, with every file and directory as it was. */
  ghost predicate Prepared(v: Vol, w: Vol, ino: nat, blocks: seq<Word>, count: nat) {
    && IsFile(v, ino) && Ready(w, ino, blocks, count)
    && w.inodes.Keys == v.inodes.Keys && w.ibits == v.ibits && w.dirs == v.dirs && SamePlan(v, w)
    && w.inodes[ino].size == v.inodes[ino].size
    && Content(w.disk, w.inodes[ino]) == Content(v.disk, v.inodes[ino])
    && (forall q :: q in v.inodes && q != ino ==> Untouched(v, w, q))
  }

  lemma GrewTwice(u: Vol, v: Vol, w: Vol, ino: nat, blocks: seq<Word>, count: nat)
    requires IsFile(u, ino) && u.inodes[ino].size + count < 71680
    requires Grew(u, v, ino, u.inodes[ino].size / BLOCK_SIZE + 1)
    requires Grew(v, w, ino, (u.inodes[ino].size + count) / BLOCK_SIZE + 1)
    requires Collected(w.disk, w.inodes[ino], blocks, u.inodes[ino].size / BLOCK_SIZE, (u.inodes[ino].size + count) / BLOCK_SIZE + 1)
    ensures Prepared(u, w, ino, blocks, count)
  {
    hide Owns, BitsMatch, Content, Untouched, Place;
    GrewContent(u, v, ino, u.inodes[ino].size / BLOCK_SIZE + 1);
    GrewContent(v, w, ino, (u.inodes[ino].size + count) / BLOCK_SIZE + 1);
    forall q | q in u.inodes && q != ino ensures Untouched(u, w, q) {
      UntouchedTrans(u, v, w, q);
    }
  }

  lemma GrewSize(v: Vol, w: Vol, ino: nat, k: nat)
    requires Grew(v, w, ino, k)
    ensures |w.bmap| == |v.bmap|
  {
  }

  /** Everything of an append up to the copying loop; `Written` stands for being ready for it. */
  method PrepareWrite(vol: Volume, ino: nat, count: nat) returns (r: WriteResult, blocks: seq<Word>)
    requires Sound(vol.State()) && IsFile(vol.State(), ino)
    modifies vol
    ensures r == WriteOutcome(old(vol.inodes[ino].size), old(vol.inodes[ino].sectors[0]) == 0, count, |old(Free(vol.bmap))|)
    ensures r.Written? ==> Prepared(old(vol.State()), vol.State(), ino, blocks, count)
    ensures r.TooBig? ==> unchanged(vol)
    ensures r.NoSpace? ==> Aborted(old(vol.State()), vol.State(), ino)
  {
    hide Owns, BitsMatch, Content, Untouched, Prepared, SamePlan, Place, Free, Collected, FileShape, Layout;
    ghost var v := vol.State();
    blocks := [];
    var size := vol.inodes[ino].size;
    if size + count >= 0x1_0000_0000 {
      return Wraps, blocks;
    }
    if size + count > BLOCK_SIZE * 140 {
      return TooBig, blocks;
    }
    var ok := FirstBlock(vol, ino);
    if !ok {
      return NoSpace, blocks;
    }
    ghost var w := vol.State();
    GrewSize(v, w, ino, size / BLOCK_SIZE + 1);
    var has := size / BLOCK_SIZE + 1;
    var will := (size + count) / BLOCK_SIZE + 1;
    if !(will <= 140) {
      return WriteResult.Panicked, blocks;
    }
    ok, blocks := CollectForWrite(vol, ino, has, will);
    if !ok {
      return NoSpace, blocks;
    }
    GrewTwice(v, w, vol.State(), ino, blocks, count);
    r := Written(count);
  }

  /** A successful append adds exactly `buf` to the file and touches no other inode; it panics
      exactly when the new size would be 71680. */
  method FileWrite(vol: Volume, ino: nat, buf: seq<Byte>) returns (r: WriteResult)
    requires Sound(vol.State()) && IsFile(vol.State(), ino)
    modifies vol
    ensures r == WriteOutcome(old(vol.inodes[ino].size), old(vol.inodes[ino].sectors[0]) == 0, |buf|, |old(Free(vol.bmap))|)
    ensures WritesRight(old(vol.State()), ino, |buf|, r)
    ensures r.Written? ==> Appended(old(vol.State()), vol.State(), ino, buf)
    ensures r.Written? ==> |Free(vol.bmap)| == |old(Free(vol.bmap))| + UsedBy(old(vol.State()), ino) - PlacesOf(vol.inodes[ino].size / 512 + 1)
    ensures r.TooBig? ==> unchanged(vol)
    ensures r.NoSpace? ==> Aborted(old(vol.State()), vol.State(), ino)
  {
    hide Appended, Ready, Content, Untouched, SamePlan, FileShape, Sound, Stored, WritesRight, WriteOutcome, Free, UsedBy;
    ghost var v := vol.State();
    OutcomeIsRight(v, ino, |buf|);
    var blocks;
    r, blocks := PrepareWrite(vol, ino, |buf|);
    if !r.Written? {
      return;
    }
    ghost var w := vol.State();
    StoreData(vol, ino, blocks, buf);
    StoredAfterPrepared(v, w, vol.State(), ino, blocks, buf);
    BlocksTaken(v, w, vol.State(), ino, blocks, buf);
  }

  /** The file has grown by the places it uses more. */
  lemma BlocksTaken(u: Vol, v: Vol, w: Vol, ino: nat, blocks: seq<Word>, buf: seq<Byte>)
    requires Sound(u) && Prepared(u, v, ino, blocks, |buf|) && Stored(v, w, ino, blocks, buf) && Appended(u, w, ino, buf)
    ensures |Free(w.bmap)| == |Free(u.bmap)| + UsedBy(u, ino) - PlacesOf(w.inodes[ino].size / 512 + 1)
  {
    BlocksMove(u, w, ino);
    ReadyShape(v, w, ino, blocks, buf);
    hide Sound, Stored, Prepared, Free, Used, BlockShape;
    ShapeUses(Layout(w.disk, w.inodes[ino]), w.inodes[ino].size / BLOCK_SIZE + 1);
  }

  lemma ReadyShape(v: Vol, w: Vol, ino: nat, blocks: seq<Word>, buf: seq<Byte>)
    requires Stored(v, w, ino, blocks, buf)
    ensures |w.inodes[ino].sectors| == 13 && BlockShape(Layout(w.disk, w.inodes[ino]), w.inodes[ino].size / BLOCK_SIZE + 1)
  {
    hide Owns, BitsMatch, Window, Copied, Collected, Distinct, Place;
    StoredLayouts(v, w, ino, blocks, buf);
    SizeOnly(v, w, ino);
  }

  lemma StoredAfterPrepared(u: Vol, v: Vol, w: Vol, ino: nat, blocks: seq<Word>, buf: seq<Byte>)
    requires Prepared(u, v, ino, blocks, |buf|) && Stored(v, w, ino, blocks, buf)
    ensures Appended(u, w, ino, buf)
  {
    StoredFile(v, w, ino, blocks, buf);
    StoredPlan(v, w, ino, blocks, buf);
    StoredOthers(v, w, ino, blocks, buf);
    forall q | q in u.inodes && q != ino ensures Untouched(u, w, q) {
      UntouchedTrans(u, v, w, q);
    }
  }
}
