/** Whole partitions: every inode is a well-formed file or directory and the names form a tree. */
module FsStates {
  import opened Sectors
  import opened Volumes
  import opened FileIO
  import opened FileAppend
  import opened DirEntries
  import opened DirViews
  import opened DirStates
  import opened NameTree

  /** The slots of inode `p`, if it is one. */
  ghost function ViewAt(v: Vol, p: nat): View {
    if p in v.inodes && |v.inodes[p].sectors| == 13 then DirView(v, p) else []
  }

  ghost predicate ShapeOk(v: Vol, p: nat) {
    p in v.inodes ==> if p in v.dirs then IsDir(v, p) else IsFile(v, p)
  }

  ghost predicate Shapes(v: Vol) {
    forall p :: ShapeOk(v, p)
  }

  ghost function LiveSet(w: View): set<Slot> {
    set i, k | 0 <= i < |w| && 0 <= k < |w[i]| && Live(w[i][k]) :: w[i][k]
  }

  /** The inode the ".." entry names. */
  ghost function DotDot(w: View): nat {
    if |w| == 12 && |w[0]| == PER_SECTOR then w[0][1].ino else ROOT
  }

  ghost function NamesOf(v: Vol): Names {
    Names(v.inodes.Keys, v.dirs, map d | d in v.dirs :: LiveSet(ViewAt(v, d)), map d | d in v.dirs :: DotDot(ViewAt(v, d)))
  }

  /** The root directory starts in the first data block. */
  ghost predicate RootFirst(v: Vol) {
    ROOT in v.inodes && |v.inodes[ROOT].sectors| == 13 && v.inodes[ROOT].sectors[0] == v.start
  }

  ghost predicate SameFirst(v: Vol, w: Vol, d: nat) {
    && d in v.inodes && d in w.inodes && |v.inodes[d].sectors| == |w.inodes[d].sectors| == 13
    && w.inodes[d].sectors[0] == v.inodes[d].sectors[0] && w.start == v.start
  }

  /** What every reachable partition satisfies. */
  ghost predicate Inv(v: Vol) {
    Sound(v) && Shapes(v) && Tree(NamesOf(v)) && RootFirst(v)
  }

  ghost predicate KeptAt(v: Vol, w: Vol, but: set<nat>, q: nat) {
    q in v.inodes && q !in but ==> Untouched(v, w, q)
  }

  /** All inodes of `v` outside `but` are untouched in `w`. */
  ghost predicate OthersKept(v: Vol, w: Vol, but: set<nat>) {
    forall q :: KeptAt(v, w, but, q)
  }

  ghost predicate SameView(v: Vol, w: Vol, but: set<nat>, d: nat) {
    d in v.dirs && d !in but ==> ViewAt(w, d) == ViewAt(v, d)
  }

  ghost predicate ViewsKept(v: Vol, w: Vol, but: set<nat>) {
    forall d :: SameView(v, w, but, d)
  }

  /** A new regular file, empty, named by entry `e` of directory `dir`. */
  ghost predicate Created(v: Vol, w: Vol, dir: nat, e: Slot) {
    && dir in v.dirs && e.ino !in v.inodes && e.ftype == FT_REGULAR && !IsDot(e)
    && w.inodes.Keys == v.inodes.Keys + {e.ino} && w.dirs == v.dirs
    && e.ino in w.inodes && w.inodes[e.ino].size == 0
    && Gains(ViewAt(v, dir), ViewAt(w, dir), e) && OthersKept(v, w, {dir}) && SameFirst(v, w, dir)
    && Sound(w) && IsFile(w, e.ino) && IsDir(w, dir) && SamePlan(v, w)
  }

  /** A new directory with nothing but its dots, named by entry `e` of directory `dir`. */
  ghost predicate MadeDir(v: Vol, w: Vol, dir: Word, e: Slot) {
    && dir in v.dirs && e.ino !in v.inodes && e.ftype == FT_DIRECTORY && !IsDot(e)
    && w.inodes.Keys == v.inodes.Keys + {e.ino} && w.dirs == v.dirs + {e.ino}
    && LiveSet(ViewAt(w, e.ino)) == DotsOf(e.ino, dir) && DotDot(ViewAt(w, e.ino)) == dir
    && Gains(ViewAt(v, dir), ViewAt(w, dir), e) && OthersKept(v, w, {dir}) && SameFirst(v, w, dir)
    && Sound(w) && IsDir(w, e.ino) && IsDir(w, dir) && SamePlan(v, w)
  }

  /** The file named by entry `e` of `dir` is gone, with its name and its blocks. */
  ghost predicate Unlinked(v: Vol, w: Vol, dir: nat, e: Slot) {
    && dir in v.dirs && e.ftype != FT_DIRECTORY && !IsDot(e)
    && w.inodes.Keys == v.inodes.Keys - {e.ino} && w.dirs == v.dirs
    && Has(ViewAt(v, dir), e) && Loses(ViewAt(v, dir), ViewAt(w, dir), e) && OthersKept(v, w, {dir, e.ino}) && SameFirst(v, w, dir)
    && Sound(w) && IsDir(w, dir) && SamePlan(v, w)
  }

  /** Nothing but its dots is left in directory `d`. */
  ghost predicate IsEmpty(v: Vol, d: nat) {
    forall f :: Has(ViewAt(v, d), f) ==> IsDot(f)
  }

  /** The empty directory named by entry `e` of `dir` is gone, with its name and its blocks. */
  ghost predicate RemovedDir(v: Vol, w: Vol, dir: nat, e: Slot) {
    && dir in v.dirs && e.ftype == FT_DIRECTORY && !IsDot(e)
    && w.inodes.Keys == v.inodes.Keys - {e.ino} && w.dirs == v.dirs - {e.ino} && IsEmpty(v, e.ino)
    && Has(ViewAt(v, dir), e) && Loses(ViewAt(v, dir), ViewAt(w, dir), e) && OthersKept(v, w, {dir, e.ino}) && SameFirst(v, w, dir)
    && Sound(w) && IsDir(w, dir) && SamePlan(v, w)
  }
}
