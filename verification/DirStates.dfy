/** Directories as states of a partition: what one looks like and how an operation may change it. */
module DirStates {
  import opened Sectors
  import opened Volumes
  import opened FileAppend
  import opened DirEntries
  import opened DirViews

  /** The slots in the direct blocks of a directory inode. */
  ghost function ViewOf(d: Disk, n: INode): (w: View)
    requires |n.sectors| == 13
    ensures |w| == 12
  {
    seq(12, i requires 0 <= i < 12 => if n.sectors[i] == 0 then [] else Slots(Get(d, n.sectors[i])))
  }

  /** A directory that lives in its direct blocks. */
  ghost predicate IsDir(v: Vol, ino: nat) {
    && ino in v.inodes && ino in v.dirs && |v.inodes[ino].sectors| == 13
    && v.inodes[ino].sectors[12] == 0
    && DirOk(ViewOf(v.disk, v.inodes[ino]), ino, v.inodes[ino].size)
  }

  ghost function DirView(v: Vol, ino: nat): View
    requires ino in v.inodes && |v.inodes[ino].sectors| == 13
  {
    ViewOf(v.disk, v.inodes[ino])
  }

  /** Only inode `ino` was changed, and it now shows `x` and has size `size`. */
  ghost predicate DirChanged(v: Vol, w: Vol, ino: nat, x: View, size: nat) {
    && Sound(w) && ino in v.inodes && |v.inodes[ino].sectors| == 13
    && w.inodes.Keys == v.inodes.Keys && w.ibits == v.ibits && w.dirs == v.dirs && SamePlan(v, w)
    && (forall q :: q in v.inodes && q != ino ==> Untouched(v, w, q))
    && w.inodes[ino].size == size && w.inodes[ino].sectors[12] == v.inodes[ino].sectors[12]
    && (v.inodes[ino].sectors[0] != 0 ==> w.inodes[ino].sectors[0] == v.inodes[ino].sectors[0])
    && DirView(w, ino) == x
  }

  /** The first entry written to a fresh block, and nothing else in it. */
  function Alone(e: Slot): (b: seq<Slot>)
    ensures |b| == PER_SECTOR
  {
    [e] + seq(PER_SECTOR - 1, k => EMPTY)
  }

  /** `k` is the first free slot of a block, or 21 when it is full. */
  ghost predicate FirstFree(b: seq<Slot>, k: nat) {
    k <= |b| && (forall j :: 0 <= j < k ==> Live(b[j])) && (k < |b| ==> !Live(b[k]))
  }

  /** A missing block, or one with a free slot, can take an entry. */
  ghost predicate HasRoom(b: seq<Slot>) {
    b == [] || exists k :: 0 <= k < |b| && !Live(b[k])
  }

  /** `twice` says that the entry went to a fresh block and was stored in two slots of it. */
  datatype InsertResult = Inserted(twice: bool) | NoBlock | BeyondDirect

  /** The first block from `i` on that can take an entry. */
  ghost function RoomFrom(w: View, i: nat): nat
    decreases |w| - i
  {
    if i >= |w| || HasRoom(w[i]) then i else RoomFrom(w, i + 1)
  }

  /** What an insertion does, seen from the slots: the first block with room decides. */
  ghost function InsertOutcome(w: View, free: set<nat>): InsertResult {
    var i := RoomFrom(w, 0);
    if i >= |w| then BeyondDirect
    else if w[i] != [] then Inserted(false)
    else if free == {} then NoBlock
    else Inserted(true)
  }

  /** Block `i` is the first that can take an entry. */
  ghost predicate FirstRoom(x: View, i: nat) {
    i < |x| && HasRoom(x[i]) && forall j :: 0 <= j < i ==> !HasRoom(x[j])
  }

  /** `y` is `x` with `e` stored in the first block with room: in its first free slot, or, if the block is a fresh
      one, in its first two. */
  ghost predicate StoredAt(x: View, y: View, e: Slot, twice: bool, i: nat, k: nat) {
    && FirstRoom(x, i) && (twice <==> x[i] == [])
    && if twice then k == 0 && y == x[i := Doubled(e)] else FirstFree(x[i], k) && k < |x[i]| && y == x[i := x[i][k := e]]
  }

  ghost predicate StoredFirst(x: View, y: View, e: Slot, twice: bool) {
    exists i: nat, k: nat :: StoredAt(x, y, e, twice, i, k)
  }

  /** `y` is `x` with `e` stored in block `i`, wherever that is. */
  ghost predicate StoredIn(x: View, y: View, e: Slot, twice: bool, i: nat) {
    && i < |x| && (twice <==> x[i] == []) && (twice ==> y == x[i := Doubled(e)])
    && (!twice ==> exists k: nat :: FirstFree(x[i], k) && k < |x[i]| && y == x[i := x[i][k := e]])
  }

  lemma StoredThere(x: View, y: View, e: Slot, twice: bool, i: nat)
    requires StoredIn(x, y, e, twice, i) && FirstRoom(x, i)
    ensures StoredFirst(x, y, e, twice)
  {
    hide Doubled, HasRoom, FirstFree, FirstRoom;
    if twice {
      assert StoredAt(x, y, e, twice, i, 0);
    } else {
      var k: nat :| FirstFree(x[i], k) && k < |x[i]| && y == x[i := x[i][k := e]];
      assert StoredAt(x, y, e, twice, i, k);
    }
  }

  lemma {:induction false} RoomIs(x: View, i: nat)
    ensures var r := RoomFrom(x, i); r >= i && (forall j :: i <= j < r && j < |x| ==> !HasRoom(x[j])) && (r < |x| ==> HasRoom(x[r]))
    decreases |x| - i
  {
    if i < |x| && !HasRoom(x[i]) {
      RoomIs(x, i + 1);
    }
  }

  /** The first block with room decides what an insertion comes to. */
  ghost predicate InsertsRight(x: View, free: set<nat>, r: InsertResult) {
    match r
    case Inserted(twice) => exists i: nat :: FirstRoom(x, i) && (twice <==> x[i] == []) && (twice ==> free != {})
    case NoBlock => free == {} && exists i: nat :: FirstRoom(x, i) && x[i] == []
    case BeyondDirect => forall i :: 0 <= i < |x| ==> !HasRoom(x[i])
  }

  lemma OutcomeInserts(x: View, free: set<nat>)
    ensures InsertsRight(x, free, InsertOutcome(x, free))
  {
    hide HasRoom, RoomFrom;
    RoomIs(x, 0);
    var i := RoomFrom(x, 0);
    if i < |x| {
      assert FirstRoom(x, i);
    }
  }

  /** The directory holds one entry more; every other inode is untouched. */
  ghost predicate DirGained(v: Vol, w: Vol, ino: nat, e: Slot) {
    && IsDir(v, ino) && IsDir(w, ino) && Sound(w)
    && w.inodes.Keys == v.inodes.Keys && w.ibits == v.ibits && w.dirs == v.dirs && SamePlan(v, w)
    && (forall q :: q in v.inodes && q != ino ==> Untouched(v, w, q))
    && Gains(DirView(v, ino), DirView(w, ino), e) && w.inodes[ino].sectors[0] == v.inodes[ino].sectors[0]
  }

  datatype BlockTry = Stored(twice: bool) | Full | OutOfBlocks

  /** `y` is `x` without the one slot that held `e`; all other entries are where they were. */
  ghost predicate TakenOut(x: View, y: View, e: Slot) {
    exists i: nat, k: nat :: Removed(x, y, i, k) && x[i][k] == e
  }

  /** The directory holds one entry less; every other inode is untouched. */
  ghost predicate DirLost(v: Vol, w: Vol, ino: nat, e: Slot) {
    && IsDir(v, ino) && IsDir(w, ino) && Sound(w)
    && w.inodes.Keys == v.inodes.Keys && w.ibits == v.ibits && w.dirs == v.dirs && SamePlan(v, w)
    && (forall q :: q in v.inodes && q != ino ==> Untouched(v, w, q))
    && Loses(DirView(v, ino), DirView(w, ino), e) && w.inodes[ino].sectors[0] == v.inodes[ino].sectors[0]
    && TakenOut(DirView(v, ino), DirView(w, ino), e)
  }

  datatype DeleteResult = Deleted | NotFound | Panicked

  /** What one pass over a block finds out about entries that name inode `target`. */
  datatype BlockScan = BlockScan(entries: nat, found: int, first: bool, clash: bool)

  ghost predicate Scanned(b: seq<Slot>, target: nat, s: BlockScan) {
    && (s.clash <==> exists k, m :: 0 <= k < m < |b| && IsRef(b[k], target) && IsRef(b[m], target))
    && (!s.clash ==>
          && s.entries == CountEntries(b)
          && (s.first <==> exists m :: 0 <= m < |b| && Live(b[m]) && b[m].name == ".")
          && (s.found == -1 ==> forall m :: 0 <= m < |b| ==> !IsRef(b[m], target))
          && (s.found != -1 ==>
                && 0 <= s.found < |b| && IsRef(b[s.found], target)
                && forall m :: 0 <= m < |b| && m != s.found ==> !IsRef(b[m], target)))
  }

  /** Inode `target` is named twice within block `i`. */
  ghost predicate NamedTwice(w: View, i: nat, target: nat) {
    i < |w| && exists k, m :: 0 <= k < m < |w[i]| && IsRef(w[i][k], target) && IsRef(w[i][m], target)
  }

  ghost predicate NamedIn(w: View, i: nat, target: nat) {
    i < |w| && exists k :: 0 <= k < |w[i]| && IsRef(w[i][k], target)
  }

  /** Some block names inode `target`, or names it twice. */
  ghost predicate Named(w: View, target: nat) {
    exists i: nat :: NamedIn(w, i, target)
  }

  ghost predicate Twice(w: View, target: nat) {
    exists i: nat :: NamedTwice(w, i, target)
  }

  /** The slots `y` name inode `ino` twice exactly when `twice` says so, and all others as `x` does. */
  ghost predicate TwiceIs(x: View, y: View, ino: nat, twice: bool) {
    (Twice(y, ino) <==> twice) && forall t :: t != ino ==> (Twice(y, t) <==> Twice(x, t))
  }

  ghost predicate NotNamedBefore(w: View, n: nat, target: nat) {
    forall i: nat :: i < n ==> !NamedIn(w, i, target)
  }
}
