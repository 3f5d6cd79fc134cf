/** What the operations on names promise. */
module OpStates {
  import opened Sectors
  import opened BitRuns
  import opened Volumes
  import opened FileIO
  import opened FileAppend
  import opened DirEntries
  import opened DirViews
  import opened DirStates
  import opened NameTree
  import opened FsStates
  import opened InodeStates
  import opened FreshDirs

  ghost predicate NoneNamed(w: View, name: string) {
    forall e :: Has(w, e) ==> e.name != name
  }

  /** `NoEntry`: no block is left for the entry. `Beyond`: the direct blocks of the parent are all full, a
      case of which nothing is said. */
  datatype CreateResult = Made(ino: Word) | NoInode | NoMemory | NoSlot | NoEntry | Beyond

  /** What creating a file comes to: the first thing there is no room for decides. */
  ghost predicate CreateOutcome(v: Vol, w: Vol, dir: nat, memory: bool, slot: bool, r: CreateResult) {
    if Free(v.ibits) == {} then r.NoInode?
    else if !memory then r.NoMemory?
    else if !slot then r.NoSlot?
    else
      match InsertOutcome(ViewAt(v, dir), Free(v.bmap))
      case Inserted(twice) =>
        r.Made? && IsFirstFit(v.ibits, 1, r.ino) && (!twice ==> w.bmap == v.bmap) && (Twice(ViewAt(w, dir), r.ino) <==> twice)
      case NoBlock => r.NoEntry?
      case BeyondDirect => r.Beyond?
  }

  // ---- mkdir ----

  /** Inode `ino` has become a directory whose dots are in block `lba`; nobody names it yet. */
  ghost predicate DirBorn(v: Vol, u: Vol, ino: Word, lba: Word, dir: Word) {
    && ino < |v.ibits| && !v.ibits[ino] && lba != 0 && lba !in v.owner
    && u == AddInode(v, ino).(disk := v.disk[lba := DotSector(ino, dir)], bmap := u.bmap, owner := v.owner[lba := (ino, 0)],
                              inodes := v.inodes[ino := DirINode(ino, lba)], dirs := v.dirs + {ino})
    && BitsMatch(u.bmap, u.owner, u.start) && |u.bmap| == |v.bmap|
  }

  /** `Leaked`: no block was left for the parent's entry, and the block taken for the dots stays taken.
      `BeyondBlocks`: the direct blocks of the parent are all full, a case of which nothing is said. */
  datatype MkdirResult = DirMade(ino: Word) | NoInodeLeft | NoBlockLeft | Leaked(lba: nat) | BeyondBlocks

  ghost function MkdirOutcome(w: View, ibits: seq<bool>, bmap: seq<bool>, ino: Word, lba: nat, start: nat): MkdirResult {
    if Free(ibits) == {} then NoInodeLeft
    else if Free(bmap) == {} then NoBlockLeft
    else
      match InsertOutcome(w, Free(bmap) - {lba - start})
      case Inserted(_) => DirMade(ino)
      case NoBlock => Leaked(lba)
      case BeyondDirect => BeyondBlocks
  }

  /** What making a directory comes to, with the first free inode and the first free block. */
  ghost predicate MkdirAnswers(v: Vol, w: Vol, dir: nat, r: MkdirResult, ino: Word, lba: nat) {
    && (!r.NoInodeLeft? ==> IsFirstFit(v.ibits, 1, ino))
    && (r.DirMade? || r.Leaked? || r.BeyondBlocks? ==> v.start <= lba < v.start + |v.bmap| && IsFirstFit(v.bmap, 1, lba - v.start))
    && r == MkdirOutcome(ViewAt(v, dir), v.ibits, v.bmap, ino, lba, v.start)
    && (r.DirMade? ==>
          var twice := InsertOutcome(ViewAt(v, dir), Free(v.bmap) - {lba - v.start}) == Inserted(true);
          (!twice ==> w.bmap == v.bmap[lba - v.start := true]) && (Twice(ViewAt(w, dir), ino) <==> twice))
  }

  /** A block is marked in use that nobody owns. */
  ghost predicate LostBlock(v: Vol, w: Vol, lba: nat) {
    && v.start <= lba < v.start + |v.bmap| && lba !in v.owner
    && w == v.(disk := w.disk, bmap := v.bmap[lba - v.start := true])
    && (forall l :: l != lba ==> Get(w.disk, l) == Get(v.disk, l))
  }

  /** The blocks of inode `ino` have been given back. */
  ghost predicate Freed(v: Vol, w: Vol, ino: nat) {
    && ino in v.inodes && |v.inodes[ino].sectors| == 13
    && forall i :: 0 <= i <= TABLE ==> FreedAt(v, w, Place(v.disk, v.inodes[ino], i))
  }

  ghost predicate FreedAt(v: Vol, w: Vol, l: nat) {
    l != 0 ==> v.start <= l < v.start + |w.bmap| && !w.bmap[l - v.start]
  }

  // ---- unlink ----

  /** `Unknown`: the path is several slashes alone, a case of which nothing is said. */
  datatype UnlinkResult = Removed | Missing | IsDirectory | InUse | Panics | Unknown

  ghost predicate UnlinkEffect(v: Vol, w: Vol, dir: nat, e: Slot, r: UnlinkResult) {
    if r.Removed? then Unlinked(v, w, dir, e) && Inv(w) && Freed(v, w, e.ino) else w == v
  }

  // ---- rmdir ----

  /** `Orphaned`: the directory is gone, but its parent still names it. `Unknown`: the path is several
      slashes alone, a case of which nothing is said. */
  datatype RmdirResult = Gone | NoSuch | NotDirectory | NotEmpty | Orphaned | Stops | Unknown

  ghost function RmdirOutcome(v: Vol, dir: nat, e: Slot): RmdirResult {
    if e.ino == ROOT then Stops
    else if e.ftype == FT_REGULAR then NotDirectory
    else if !IsEmpty(v, e.ino) then NotEmpty
    else if Twice(ViewAt(v, dir), e.ino) then Stops
    else if e.name == "." then Orphaned
    else Gone
  }

  ghost predicate RmdirEffect(v: Vol, w: Vol, dir: nat, e: Slot, r: RmdirResult) {
    match r
    case Gone => RemovedDir(v, w, dir, e) && Inv(w) && Freed(v, w, e.ino)
    case Orphaned => Released(v, w, dir) && !Tree(NamesOf(w))
    case _ => w == v
  }

  /** How a partition looks after a mkdir with outcome `r`. */
  ghost predicate MkdirEffect(v: Vol, w: Vol, dir: Word, name: string, r: MkdirResult) {
    match r
    case DirMade(ino) => MadeDir(v, w, dir, Slot(name, ino, FT_DIRECTORY)) && Inv(w)
    case Leaked(lba) => LostBlock(v, w, lba)
    case BeyondBlocks => true
    case _ => w == v
  }
}
