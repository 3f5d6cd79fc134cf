/** Creating and removing files and directories. */
module FsOps {
  import opened Sectors
  import opened BitRuns
  import opened Volumes
  import opened FileIO
  import opened FileAppend
  import opened DirEntries
  import opened DirViews
  import opened DirStates
  import opened Directories
  import opened NameTree
  import opened FsStates
  import opened NameTreeProofs
  import opened FsProofs
  import opened InodeStates
  import opened InodeOps
  import opened FreshDirs
  import opened OpStates

  /** An entry for an inode that was not live fits next to all others. */
  lemma FreshEntry(v: Vol, dir: nat, e: Slot)
    requires Inv(v) && dir in v.dirs && ValidSlot(e) && Live(e) && !IsDot(e)
    requires NoneNamed(ViewAt(v, dir), e.name) && e.ino !in v.inodes
    ensures Fresh(ViewAt(v, dir), e)
  {
    hide Sound, Shapes, Tree, RootFirst, NamesOf, ViewAt, ValidSlot;
    DirsLive(v);
    EntriesAre(v);
    var w := ViewAt(v, dir);
    forall i, k | LiveAt(w, i, k) ensures !Clash(w[i][k], e) {
      assert Has(w, w[i][k]);
      EntryFits(NamesOf(v), dir, w[i][k]);
    }
  }

  lemma IsDirAt(v: Vol, dir: nat)
    requires Inv(v) && dir in v.dirs
    ensures dir in v.inodes && IsDir(v, dir) && ViewAt(v, dir) == DirView(v, dir)
  {
    hide Tree, NamesOf, RootFirst, DirOk, Owns, BitsMatch;
    assert ShapeOk(v, dir);
  }

  lemma KeepsDir(v: Vol, u: Vol, dir: nat)
    requires Inv(v) && dir in v.dirs && Untouched(v, u, dir) && dir in u.dirs
    ensures IsDir(u, dir) && ViewAt(u, dir) == ViewAt(v, dir) && DirView(u, dir) == DirView(v, dir)
  {
    hide Tree, NamesOf, RootFirst, DirOk, Sound;
    IsDirAt(v, dir);
    UntouchedShape(v, u, dir);
  }

  lemma CreatedBy(v: Vol, u: Vol, w: Vol, dir: nat, e: Slot)
    requires Inv(v) && dir in v.dirs && e.ino < |v.ibits| && !v.ibits[e.ino] && u == AddInode(v, e.ino)
    requires e.ftype == FT_REGULAR && !IsDot(e) && DirGained(u, w, dir, e)
    ensures Created(v, w, dir, e) && Inv(w)
  {
    hide Shapes, Tree, NamesOf, RootFirst, Gains, IsDir, IsFile, Untouched, Owns, BitsMatch, OthersKept, ViewAt;
    AddInodeSound(v, e.ino);
    AddInodeFile(v, e.ino);
    IsDirAt(v, dir);
    KeepsDir(v, u, dir);
    DirGainedView(u, w, dir, e);
    KeptThrough(v, u, w, {dir});
    UntouchedShape(u, w, e.ino);
    SameINode(u, w, e.ino);
    FirstKept(v, u, w, dir);
    PlanTrans(v, u, w);
    CreatedInv(v, w, dir, e);
  }

  lemma DirGainedView(u: Vol, w: Vol, dir: nat, e: Slot)
    requires DirGained(u, w, dir, e)
    ensures Gains(ViewAt(u, dir), ViewAt(w, dir), e)
  {
    hide Sound, DirOk, Gains, Untouched;
  }

  lemma StoredTwice(u: Vol, w: Vol, dir: nat, e: Slot, twice: bool)
    requires DirGained(u, w, dir, e) && TwiceIs(DirView(u, dir), DirView(w, dir), e.ino, twice)
    ensures Twice(ViewAt(w, dir), e.ino) <==> twice
  {
    hide Sound, DirOk, Gains, Untouched, Twice;
  }

  lemma SameINode(v: Vol, w: Vol, q: nat)
    requires Untouched(v, w, q)
    ensures q in v.inodes && q in w.inodes && w.inodes[q] == v.inodes[q]
  {
  }

  lemma FirstKept(v: Vol, u: Vol, w: Vol, dir: nat)
    requires Untouched(v, u, dir) && dir in w.inodes && |w.inodes[dir].sectors| == 13 && w.start == v.start
    requires w.inodes[dir].sectors[0] == u.inodes[dir].sectors[0]
    ensures SameFirst(v, w, dir)
  {
  }

  lemma KeptThrough(v: Vol, u: Vol, w: Vol, but: set<nat>)
    requires forall q :: q in v.inodes && q !in but ==> Untouched(v, u, q)
    requires forall q :: q in u.inodes && q !in but ==> Untouched(u, w, q)
    ensures OthersKept(v, w, but)
  {
    forall q ensures KeptAt(v, w, but, q) {
      if q in v.inodes && q !in but {
        assert Untouched(v, u, q);
        hide Place;
        UntouchedTrans(v, u, w, q);
      }
    }
  }

  /** Creates an empty file. `memory` and `slot` say whether the heap had room for the inode and the
      file table for the descriptor. */
  method FileCreate(vol: Volume, dir: nat, name: string, memory: bool, slot: bool) returns (r: CreateResult)
    requires Inv(vol.State()) && dir in vol.dirs && ValidName(name) && name != "." && name != ".."
    requires NoneNamed(ViewAt(vol.State(), dir), name)
    modifies vol
    ensures CreateOutcome(old(vol.State()), vol.State(), dir, memory, slot, r)
    ensures r.Made? ==> Created(old(vol.State()), vol.State(), dir, Slot(name, r.ino, FT_REGULAR)) && Inv(vol.State())
    ensures !r.Made? && !r.Beyond? ==> vol.State() == old(vol.State())
  {
    hide Shapes, Tree, NamesOf, RootFirst, Owns, BitsMatch, Fresh, NoneNamed, IsDir, IsFile, InsertOutcome, TwiceIs,
      Untouched, ViewAt, Created;
    ghost var v := vol.State();
    var ino := InodeBitmapAlloc(vol);
    if ino == -1 {
      return NoInode;
    }
    ghost var u := vol.State();
    RollBack(v, ino);
    if memory && slot {
      var e := Slot(name, ino, FT_REGULAR);
      FreshEntry(v, dir, e);
      AddInodeSound(v, ino);
      AddInodeFile(v, ino);
      IsDirAt(v, dir);
      KeepsDir(v, u, dir);
      var t := SyncDirEntry(vol, dir, e);
      if t.Inserted? {
        CreatedBy(v, u, vol.State(), dir, e);
        StoredTwice(u, vol.State(), dir, e, t.twice);
        return Made(ino);
      }
      if t.BeyondDirect? {
        return Beyond;
      }
    }
    vol.ibits := vol.ibits[ino := false];
    vol.inodes := vol.inodes - {ino};
    r := if !memory then NoMemory else if !slot then NoSlot else NoEntry;
  }

  // ---- mkdir ----

  lemma BornClaim(v: Vol, ino: Word, lba: Word)
    requires Sound(v) && ino < |v.ibits| && !v.ibits[ino] && lba != 0 && lba !in v.owner
    ensures ino !in v.inodes && Owns(Layouts(v.disk, v.inodes[ino := DirINode(ino, lba)]), v.owner[lba := (ino, 0)])
  {
    hide Place, BitsMatch, Owns;
    var m := INode(ino, 0, FRESH_SECTORS);
    var x := AddInode(v, ino);
    AddInodeSound(v, ino);
    var ls := Layouts(x.disk, x.inodes);
    FreshPlace(x.disk, ino);
    Claim(ls, x.owner, ino, 0, lba);
    DirectLayout(v.disk, m, 0, lba, 2 * ENTRY_SIZE);
    LayoutsUpdate(x.disk, x.inodes, ino, DirINode(ino, lba));
    assert x.inodes[ino := DirINode(ino, lba)] == v.inodes[ino := DirINode(ino, lba)];
  }

  lemma FreshPlace(d: Disk, ino: nat)
    ensures Layout(d, INode(ino, 0, FRESH_SECTORS))[0] == 0
  {
  }

  lemma TablesKept(v: Vol, u: Vol, ino: Word, lba: Word, dir: Word)
    requires Sound(v) && DirBorn(v, u, ino, lba, dir)
    ensures Layouts(u.disk, u.inodes) == Layouts(v.disk, u.inodes)
  {
    hide DotSector, BitsMatch;
    forall p | p in u.inodes && u.inodes[p].sectors[12] != 0
      ensures Get(u.disk, u.inodes[p].sectors[12]) == Get(v.disk, u.inodes[p].sectors[12])
    {
      assert Layouts(v.disk, v.inodes)[p][TABLE] == u.inodes[p].sectors[12];
    }
    LayoutsKept(v.disk, u.disk, u.inodes);
  }

  lemma BornPlan(v: Vol, u: Vol, ino: Word, lba: Word, dir: Word)
    requires DirBorn(v, u, ino, lba, dir)
    ensures SamePlan(v, u)
  {
    hide DotSector;
    assert lba in u.owner;
  }

  lemma BornOthers(v: Vol, u: Vol, ino: Word, lba: Word, dir: Word)
    requires Sound(v) && DirBorn(v, u, ino, lba, dir) && ino !in v.inodes
    ensures forall q :: q in v.inodes ==> Untouched(v, u, q)
  {
    hide Owns, BitsMatch, DotSector, Untouched;
    forall q | q in v.inodes ensures Untouched(v, u, q) {
      OthersUntouched(v, u, ino, q);
    }
  }

  lemma BornSound(v: Vol, u: Vol, ino: Word, lba: Word, dir: Word)
    requires Sound(v) && DirBorn(v, u, ino, lba, dir)
    ensures Sound(u) && ino !in v.inodes
    ensures forall q :: q in v.inodes ==> Untouched(v, u, q)
    ensures v.dirs <= u.dirs && v.dirs <= v.inodes.Keys && SamePlan(v, u) && ino < |u.ibits|
  {
    hide Owns, BitsMatch, DotSector, Untouched, Layouts, SamePlan;
    BornPlan(v, u, ino, lba, dir);
    BornClaim(v, ino, lba);
    TablesKept(v, u, ino, lba, dir);
    BornOthers(v, u, ino, lba, dir);
  }

  lemma BornDir(v: Vol, u: Vol, ino: Word, lba: Word, dir: Word)
    requires DirBorn(v, u, ino, lba, dir)
    ensures IsDir(u, ino) && ViewAt(u, ino) == DotView(ino, dir)
    ensures LiveSet(ViewAt(u, ino)) == DotsOf(ino, dir) && DotDot(ViewAt(u, ino)) == dir
  {
    hide DotSector, BitsMatch, DirOk, LiveSet, DotDot, DotView, DotsOf;
    DotViewOf(u.disk, u.inodes[ino], ino, dir);
    DotDirOk(ino, dir);
    DotSet(ino, dir);
  }

  lemma MadeDirBy(v: Vol, u: Vol, w: Vol, dir: Word, e: Slot, lba: Word)
    requires Inv(v) && dir in v.dirs && DirBorn(v, u, e.ino, lba, dir)
    requires e.ftype == FT_DIRECTORY && !IsDot(e) && DirGained(u, w, dir, e)
    ensures MadeDir(v, w, dir, e) && Inv(w)
  {
    hide Sound, Shapes, Tree, NamesOf, RootFirst, Gains, IsDir, IsFile, Untouched, OthersKept, ViewAt, DotSector,
      BitsMatch, LiveSet, DotDot, DotsOf;
    BornSound(v, u, e.ino, lba, dir);
    BornDir(v, u, e.ino, lba, dir);
    IsDirAt(v, dir);
    KeepsDir(v, u, dir);
    DirGainedView(u, w, dir, e);
    KeptThrough(v, u, w, {dir});
    UntouchedShape(u, w, e.ino);
    SameINode(u, w, e.ino);
    SectorsOf(w, dir);
    FirstKept(v, u, w, dir);
    PlanTrans(v, u, w);
    MadeDirInv(v, w, dir, e);
  }

  lemma SectorsOf(v: Vol, p: nat)
    requires Sound(v) && p in v.inodes
    ensures |v.inodes[p].sectors| == 13
  {
  }

  /** The first data block is the root directory's. */
  lemma FirstIsRoots(v: Vol)
    requires Sound(v) && RootFirst(v)
    ensures v.start in v.owner && v.owner[v.start] == (ROOT, 0)
  {
    assert Layouts(v.disk, v.inodes)[ROOT][0] == v.start;
  }

  /** Takes an inode and a block for a new directory and writes its dots. */
  method BearDir(vol: Volume, dir: Word) returns (no: int, block: int)
    requires Sound(vol.State()) && RootFirst(vol.State())
    modifies vol
    ensures no == -1 <==> old(Free(vol.ibits)) == {}
    ensures block == -1 <==> no == -1 || old(Free(vol.bmap)) == {}
    ensures no != -1 ==> 0 <= no < |old(vol.ibits)| && IsFirstFit(old(vol.ibits), 1, no)
    ensures block == -1 ==> vol.State() == old(vol.State())
    ensures block != -1 ==>
      && vol.start < block < vol.start + |old(vol.bmap)| && IsFirstFit(old(vol.bmap), 1, block - vol.start)
      && vol.bmap == old(vol.bmap)[block - vol.start := true] && block !in old(vol.owner)
      && DirBorn(old(vol.State()), vol.State(), no, block, dir)
  {
    hide Sound, RootFirst, BitsMatch, DotSector, Free, IsFirstFit;
    ghost var v := vol.State();
    no := InodeBitmapAlloc(vol);
    block := -1;
    if no == -1 {
      return;
    }
    BitsOf(v);
    RollBack(v, no);
    block := vol.BlockBitmapAlloc(no, 0);
    if block == -1 {
      vol.ibits := vol.ibits[no := false];
      vol.inodes := vol.inodes - {no};
      return;
    }
    FirstIsRoots(v);
    assert block - vol.start != 0;
    vol.disk := vol.disk[block := DotSector(no, dir)];
    assert v.inodes[no := INode(no, 0, FRESH_SECTORS)][no := DirINode(no, block)] == v.inodes[no := DirINode(no, block)];
    vol.inodes := vol.inodes[no := DirINode(no, block)];
    vol.dirs := vol.dirs + {no};
  }

  lemma FreeLess(bmap: seq<bool>, b: nat)
    requires b < |bmap|
    ensures Free(bmap[b := true]) == Free(bmap) - {b}
  {
  }

  /** What is left when a directory that was born is forgotten, but not its block. */
  lemma Forgotten(v: Vol, u: Vol, w: Vol, ino: Word, lba: Word, dir: Word)
    requires Sound(v) && DirBorn(v, u, ino, lba, dir) && v.start <= lba < v.start + |v.bmap|
    requires u.bmap == v.bmap[lba - v.start := true]
    requires w == u.(ibits := u.ibits[ino := false], inodes := u.inodes - {ino}, dirs := u.dirs - {ino}, owner := u.owner - {lba})
    ensures LostBlock(v, w, lba)
  {
    hide BitsMatch, Owns, DotSector;
    assert ino !in v.inodes && ino !in v.dirs;
    assert w.ibits == v.ibits && w.inodes == v.inodes && w.dirs == v.dirs && w.owner == v.owner;
  }

  /** Makes a directory: an inode, a block with its dots, an entry in its parent. */
  method Mkdir(vol: Volume, dir: Word, name: string) returns (r: MkdirResult, ghost ino: Word, ghost lba: nat)
    requires Inv(vol.State()) && dir in vol.dirs && ValidName(name) && name != "." && name != ".."
    requires NoneNamed(ViewAt(vol.State(), dir), name)
    modifies vol
    ensures MkdirAnswers(old(vol.State()), vol.State(), dir, r, ino, lba)
    ensures MkdirEffect(old(vol.State()), vol.State(), dir, name, r)
  {
    hide Sound, Shapes, Tree, NamesOf, RootFirst, BitsMatch, Fresh, NoneNamed, IsDir, IsFile, InsertOutcome, Untouched, ViewAt,
      MadeDir, DotSector, Free, IsFirstFit, LostBlock, TwiceIs, Has, DirBorn, DirGained, DirOk, DirView;
    ghost var v := vol.State();
    BitsOf(v);
    var no, block := BearDir(vol, dir);
    ino, lba := if no == -1 then 0 else no, if block == -1 then 0 else block;
    if no == -1 {
      return NoInodeLeft, ino, lba;
    }
    if block == -1 {
      return NoBlockLeft, ino, lba;
    }
    ghost var u := vol.State();
    var e := Slot(name, no, FT_DIRECTORY);
    BornSound(v, u, no, block, dir);
    FreshEntry(v, dir, e);
    IsDirAt(v, dir);
    KeepsDir(v, u, dir);
    FreeLess(v.bmap, block - v.start);
    var t := SyncDirEntry(vol, dir, e);
    if t.Inserted? {
      MadeDirBy(v, u, vol.State(), dir, e, block);
      StoredTwice(u, vol.State(), dir, e, t.twice);
      return DirMade(no), ino, lba;
    }
    if t.BeyondDirect? {
      return BeyondBlocks, ino, lba;
    }
    vol.ibits := vol.ibits[no := false];
    vol.inodes := vol.inodes - {no};
    vol.dirs := vol.dirs - {no};
    vol.owner := vol.owner - {block};
    Forgotten(v, u, vol.State(), no, block, dir);
    r := Leaked(block);
  }

  lemma BitsOf(v: Vol)
    requires Sound(v)
    ensures BitsMatch(v.bmap, v.owner, v.start) && v.start + |v.bmap| <= 0x8000_0000 && 0 < v.start
    ensures |v.ibits| <= 4096
    ensures v.dirs <= v.inodes.Keys
  {
  }

  /** A lost block is a set bit that belongs to nobody. */
  lemma LostBlockUnsound(v: Vol, w: Vol, lba: nat)
    requires Sound(v) && LostBlock(v, w, lba)
    ensures !Sound(w)
  {
    hide Owns;
    assert w.bmap[lba - v.start] && v.start + (lba - v.start) !in w.owner;
  }

  // ---- unlink ----

  lemma RefUnique(v: Vol, dir: nat, e: Slot, f: Slot)
    requires IsDir(v, dir) && Has(DirView(v, dir), e) && Has(DirView(v, dir), f) && IsRef(e, f.ino) && IsRef(f, f.ino)
    ensures e == f
  {
    hide Shape, ValidSlots, Dots, NoneHollow, Total, ViewOf;
    var w := DirView(v, dir);
    var i, k :| LiveAt(w, i, k) && w[i][k] == e;
    var j, m :| LiveAt(w, j, m) && w[j][m] == f;
    assert Apart(w, i, k, j, m);
  }

  /** A live entry that is no dot is a reference. */
  lemma NamedHere(v: Vol, dir: nat, e: Slot)
    requires IsDir(v, dir) && Has(DirView(v, dir), e) && !IsDot(e)
    ensures IsRef(e, e.ino) && Named(DirView(v, dir), e.ino)
  {
    hide DirOk, ViewOf;
    var w := DirView(v, dir);
    var i, k :| LiveAt(w, i, k) && w[i][k] == e;
    assert NamedIn(w, i, e.ino);
  }

  /** What an entry found in a directory is. */
  lemma EntryKind(v: Vol, dir: nat, e: Slot)
    requires Inv(v) && dir in v.dirs && Has(ViewAt(v, dir), e)
    ensures e.ino in v.inodes && (e.ftype == FT_DIRECTORY <==> e.ino in v.dirs)
    ensures e.ftype != FT_DIRECTORY ==> !IsDot(e) && e.ino != dir
    ensures !IsDot(e) ==> e.ino != ROOT
    ensures e.name == "." ==> e.ino == dir
    ensures e.name == ".." && e.ino != ROOT ==> !IsEmpty(v, e.ino)
    ensures !IsDot(e) && e.ftype == FT_DIRECTORY ==> e.ino != dir
  {
    hide Sound, Shapes, RootFirst, ViewAt, Has, NamesUnique, AllNamed, Acyclic, NamesOf;
    DirsLive(v);
    EntriesAre(v);
    var n := NamesOf(v);
    assert EntryOk(n, dir, e) && ParentOk(n, dir);
    if e.name == ".." && e.ino != ROOT {
      RootIsOwnParent(n, dir);
      var f :| Entry(n, e.ino, f) && !IsDot(f) && f.ino == dir;
      assert Has(ViewAt(v, e.ino), f);
    }
    if !IsDot(e) && e.ftype == FT_DIRECTORY {
      ParentNames(n, dir, e);
    }
  }

  lemma RootIsOwnParent(n: Names, d: nat)
    requires Tree(n) && d in n.dirs && n.parent[d] != ROOT
    ensures d != ROOT
  {
    assert ParentOk(n, ROOT);
  }

  lemma NotFirstAfter(v: Vol, u: Vol, dir: nat, ino: nat)
    requires Inv(v) && ino != ROOT && Sound(u) && u.start == v.start
    requires u == v || (SameFirst(v, u, dir) && OthersKept(v, u, {dir}))
    ensures NotFirst(u, ino)
  {
    hide Sound, Shapes, Tree, NamesOf, OthersKept;
    if u != v {
      RootKept(v, u, {dir}, dir);
    }
    FirstIsRoots(u);
  }

  lemma DirLostKept(v: Vol, u: Vol, dir: nat, e: Slot)
    requires DirLost(v, u, dir, e)
    ensures OthersKept(v, u, {dir}) && SameFirst(v, u, dir) && Loses(ViewAt(v, dir), ViewAt(u, dir), e)
    ensures dir in u.dirs && IsDir(u, dir)
  {
    hide Owns, BitsMatch, DirOk, Loses, Untouched;
    forall q ensures KeptAt(v, u, {dir}, q) {
    }
  }

  /** Losing the name and then the inode. */
  lemma LostThenReleased(v: Vol, u: Vol, w: Vol, dir: nat, e: Slot)
    requires DirLost(v, u, dir, e) && e.ino in v.inodes && e.ino != dir && Released(u, w, e.ino)
    ensures Sound(w) && IsDir(w, dir) && SameFirst(v, w, dir)
    ensures Loses(ViewAt(v, dir), ViewAt(w, dir), e) && OthersKept(v, w, {dir, e.ino})
    ensures w.inodes.Keys == v.inodes.Keys - {e.ino} && w.dirs == v.dirs - {e.ino} && SamePlan(v, w)
  {
    hide Sound, Owns, BitsMatch, DirOk, Loses, Untouched, OthersKept, Dropped, ViewAt, IsDir;
    PlanTrans(v, u, w);
    DirLostKept(v, u, dir, e);
    ReleasedSound(u, w, e.ino);
    DirStays(u, w, dir);
    KeptThroughBoth(v, u, w, dir, e.ino);
  }

  lemma FreedBy(v: Vol, u: Vol, w: Vol, dir: nat, e: Slot)
    requires Sound(v) && DirLost(v, u, dir, e) && e.ino in v.inodes && e.ino != dir && Released(u, w, e.ino)
    ensures Freed(v, w, e.ino)
  {
    hide DirOk, Loses, BitsMatch, Place;
    assert Untouched(v, u, e.ino);
    forall i | 0 <= i <= TABLE ensures FreedAt(v, w, Place(v.disk, v.inodes[e.ino], i)) {
      DroppedAt(u, w, e.ino, i);
    }
  }

  lemma DroppedAt(u: Vol, w: Vol, ino: nat, i: nat)
    requires Sound(u) && Released(u, w, ino) && ino in u.inodes && i <= TABLE
    ensures |u.inodes[ino].sectors| == 13 && FreedAt(u, w, Place(u.disk, u.inodes[ino], i))
  {
    hide Place;
    var l := Place(u.disk, u.inodes[ino], i);
    assert Layouts(u.disk, u.inodes)[ino][i] == l;
    if l != 0 {
      assert u.owner[l] == (ino, i);
    }
  }

  lemma DirStays(u: Vol, w: Vol, dir: nat)
    requires Sound(u) && IsDir(u, dir) && Untouched(u, w, dir) && dir in w.dirs
    ensures IsDir(w, dir) && ViewAt(w, dir) == ViewAt(u, dir) && dir in w.inodes && w.inodes[dir] == u.inodes[dir]
    ensures |u.inodes[dir].sectors| == 13
  {
    hide Sound, DirOk;
    UntouchedShape(u, w, dir);
  }

  lemma KeptThroughBoth(v: Vol, u: Vol, w: Vol, dir: nat, ino: nat)
    requires OthersKept(v, u, {dir}) && forall q :: q in u.inodes && q != ino ==> Untouched(u, w, q)
    ensures OthersKept(v, w, {dir, ino})
  {
    forall q ensures KeptAt(v, w, {dir, ino}, q) {
      assert KeptAt(v, u, {dir}, q);
      if q in v.inodes && q != dir && q != ino {
        SameINode(v, u, q);
        hide Place;
        UntouchedTrans(v, u, w, q);
      }
    }
  }

  lemma UnlinkedBy(v: Vol, u: Vol, w: Vol, dir: nat, e: Slot)
    requires Inv(v) && dir in v.dirs && Has(ViewAt(v, dir), e) && e.ftype != FT_DIRECTORY
    requires DirLost(v, u, dir, e) && Released(u, w, e.ino)
    ensures Unlinked(v, w, dir, e) && Inv(w)
  {
    hide Sound, Shapes, Tree, NamesOf, RootFirst, DirLost, Released, Loses, OthersKept, ViewAt, IsDir, Has, SameFirst;
    EntryKind(v, dir, e);
    LostThenReleased(v, u, w, dir, e);
    UnlinkedInv(v, w, dir, e);
  }

  /** Removes the file with inode `ino`, which entry `e` of directory `dir` names, and its entry. */
  method RemoveFile(vol: Volume, dir: nat, ino: nat, ghost e: Slot) returns (r: UnlinkResult)
    requires Inv(vol.State()) && dir in vol.dirs && Has(ViewAt(vol.State(), dir), e) && e.ino == ino
    requires e.ftype != FT_DIRECTORY
    modifies vol
    ensures r == if Twice(old(ViewAt(vol.State(), dir)), ino) then Panics else Removed
    ensures UnlinkEffect(old(vol.State()), vol.State(), dir, e, r)
  {
    hide Sound, Shapes, Tree, NamesOf, RootFirst, DirLost, Released, Loses, OthersKept, ViewAt, IsDir, Has,
      SameFirst, Unlinked, DirView, Named, Twice, Freed;
    ghost var v := vol.State();
    IsDirAt(v, dir);
    EntryKind(v, dir, e);
    NamedHere(v, dir, e);
    var d, gone := DeleteDirEntry(vol, dir, ino);
    if d.Panicked? {
      return Panics;
    }
    RefUnique(v, dir, gone, e);
    ghost var u := vol.State();
    LostFacts(v, u, dir, e);
    NotFirstAfter(v, u, dir, ino);
    InodeRelease(vol, ino);
    UnlinkedBy(v, u, vol.State(), dir, e);
    FreedBy(v, u, vol.State(), dir, e);
    r := Removed;
  }

  lemma LostFacts(v: Vol, u: Vol, dir: nat, e: Slot)
    requires DirLost(v, u, dir, e)
    ensures Sound(u) && u.start == v.start && u.inodes.Keys == v.inodes.Keys && SameFirst(v, u, dir)
    ensures OthersKept(v, u, {dir})
  {
    hide Sound, DirOk, Loses, Untouched;
    DirLostKept(v, u, dir, e);
  }

  // ---- rmdir ----

  /** An empty directory has its first block and no other. */
  lemma EmptyDir(v: Vol, d: nat)
    requires Inv(v) && d in v.dirs
    ensures d in v.inodes && |v.inodes[d].sectors| == 13
    ensures v.inodes[d].size == 2 * ENTRY_SIZE <==> IsEmpty(v, d)
    ensures IsEmpty(v, d) ==> forall i :: 1 <= i < 13 ==> v.inodes[d].sectors[i] == 0
  {
    hide Tree, NamesOf, RootFirst, DirOk, Owns, BitsMatch, Slots, Has;
    IsDirAt(v, d);
    EmptyExactly(DirView(v, d), d, v.inodes[d].size);
    if IsEmpty(v, d) {
      forall i | 1 <= i < 12 ensures v.inodes[d].sectors[i] == 0 {
        assert DirView(v, d)[i] == [];
      }
    }
  }

  lemma RemovedDirBy(v: Vol, u: Vol, w: Vol, dir: nat, e: Slot)
    requires Inv(v) && dir in v.dirs && Has(ViewAt(v, dir), e) && e.ftype == FT_DIRECTORY && !IsDot(e)
    requires IsEmpty(v, e.ino)
    requires DirLost(v, u, dir, e) && Released(u, w, e.ino)
    ensures RemovedDir(v, w, dir, e) && Inv(w)
  {
    hide Sound, Shapes, Tree, NamesOf, RootFirst, DirLost, Released, Loses, OthersKept, ViewAt, IsDir, Has,
      SameFirst, IsEmpty;
    EntryKind(v, dir, e);
    LostThenReleased(v, u, w, dir, e);
    RemovedDirInv(v, w, dir, e);
  }

  /** Releasing a directory that its parent still names breaks the tree. */
  lemma OrphanBreaks(v: Vol, w: Vol, dir: nat)
    requires Inv(v) && dir in v.dirs && dir != ROOT && Released(v, w, dir)
    ensures !Tree(NamesOf(w))
  {
    hide Sound, Shapes, RootFirst, ViewAt, Has, NamesUnique, AllNamed, Acyclic, NamesOf, Dropped, BitsMatch,
      Untouched;
    DirsLive(v);
    EntriesAre(v);
    EntriesAre(w);
    var n, m := NamesOf(v), NamesOf(w);
    assert ParentOk(n, dir);
    var p := n.parent[dir];
    var f :| Entry(n, p, f) && !IsDot(f) && f.ino == dir;
    NotOwnParent(n, p, f);
    ReleasedSound(v, w, dir);
    DirsLive(w);
    KeepsDir(v, w, p);
    assert Entry(m, p, f) && !EntryOk(m, p, f);
  }

  lemma NotOwnParent(n: Names, p: nat, f: Slot)
    requires Tree(n) && Entry(n, p, f) && !IsDot(f) && f.ino in n.dirs
    ensures p != f.ino && p in n.dirs
  {
    assert EntryOk(n, p, f);
    ParentNames(n, p, f);
  }

  /** An empty directory names nobody. */
  lemma EmptyNamesNone(v: Vol, d: nat, target: nat)
    requires IsEmpty(v, d)
    ensures !Named(ViewAt(v, d), target) && !Twice(ViewAt(v, d), target)
  {
    hide ViewAt;
    var w := ViewAt(v, d);
    forall i: nat, k: nat | LiveAt(w, i, k) ensures IsDot(w[i][k]) {
      assert Has(w, w[i][k]);
    }
    forall i: nat ensures !NamedIn(w, i, target) {
      assert forall k :: i < |w| && 0 <= k < |w[i]| && Live(w[i][k]) ==> LiveAt(w, i, k);
    }
    forall i: nat ensures !NamedTwice(w, i, target) {
      assert !NamedIn(w, i, target);
    }
  }

  lemma EntryTyped(v: Vol, dir: nat, e: Slot)
    requires IsDir(v, dir) && Has(DirView(v, dir), e)
    ensures e.ftype == FT_REGULAR || e.ftype == FT_DIRECTORY
  {
    hide Shape, Dots, NoneHollow, NoClash, Total, ViewOf;
  }

  /** Whether a directory holds nothing but its dots, by its size. */
  method DirIsEmpty(vol: Volume, d: nat) returns (r: bool)
    requires Inv(vol.State()) && d in vol.dirs
    ensures r <==> IsEmpty(vol.State(), d)
  {
    hide Sound, Shapes, Tree, NamesOf, RootFirst, IsEmpty;
    EmptyDir(vol.State(), d);
    r := vol.inodes[d].size == 2 * ENTRY_SIZE;
  }

  /** Removes the empty directory with inode `ino`, which entry `f` of `dir` names. */
  method DirRemove(vol: Volume, dir: nat, ino: nat, ghost f: Slot) returns (r: RmdirResult)
    requires Inv(vol.State()) && dir in vol.dirs && Has(ViewAt(vol.State(), dir), f) && f.ino == ino
    requires ino != ROOT && f.ftype == FT_DIRECTORY && ino in vol.dirs && IsEmpty(vol.State(), ino)
    modifies vol
    ensures r == RmdirOutcome(old(vol.State()), dir, f)
    ensures RmdirEffect(old(vol.State()), vol.State(), dir, f, r)
  {
    hide Sound, Shapes, Tree, NamesOf, RootFirst, DirLost, Released, ViewAt, IsDir, Has, RemovedDir, DirView, Named, Twice, IsEmpty,
      OthersKept, SameFirst, Freed;
    ghost var v := vol.State();
    IsDirAt(v, dir);
    EntryKind(v, dir, f);
    EmptyDir(v, ino);
    var i := 1;
    while i < 13
      invariant 1 <= i <= 13 && vol.State() == v
    {
      assert vol.inodes[ino].sectors[i] == 0;
      i := i + 1;
    }
    if IsDot(f) {
      EmptyNamesNone(v, dir, ino);
    } else {
      NamedHere(v, dir, f);
    }
    var d, gone := DeleteDirEntry(vol, dir, ino);
    if d.Panicked? {
      return Stops;
    }
    ghost var u := vol.State();
    if d.Deleted? {
      RefUnique(v, dir, gone, f);
      LostFacts(v, u, dir, f);
    }
    NotFirstAfter(v, u, dir, ino);
    InodeRelease(vol, ino);
    if d.Deleted? {
      RemovedDirBy(v, u, vol.State(), dir, f);
      FreedBy(v, u, vol.State(), dir, f);
      return Gone;
    }
    OrphanBreaks(v, vol.State(), dir);
    r := Orphaned;
  }
}
