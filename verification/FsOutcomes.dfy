/** When a call succeeds and when it is refused, said of the tree of names and of what is free. */
module FsOutcomes {
  import opened Sectors
  import opened BitRuns
  import opened Volumes
  import opened FileIO
  import opened BlockCounts
  import opened FileAppend
  import opened DirEntries
  import opened DirViews
  import opened DirStates
  import opened NameTree
  import opened FsStates
  import opened FsProofs
  import opened OpStates
  import opened Paths
  import opened Namespace
  import opened NamespaceOps
  import opened PathOps
  import opened InodeRecords
  import opened InodeCache
  import opened MountStates
  import opened FsIdeal
  import opened FsDecided
  import opened FsCallProofs
  import opened FsCalls

  /** Number `p` is the least that no inode has. */
  ghost predicate LeastUnused(v: Vol, p: nat) {
    p < |v.ibits| && p !in v.inodes && forall r: nat :: r < p ==> r in v.inodes
  }

  /** Every number is in use. */
  ghost predicate AllNumbered(v: Vol) {
    forall p: nat :: p < |v.ibits| ==> p in v.inodes
  }

  /** The first block of the directory that can take an entry is there, or there is a block to spare for it. */
  ghost predicate RoomIn(x: View, spare: int) {
    exists i: nat :: FirstRoom(x, i) && (x[i] == [] ==> spare > 0)
  }

  /** The first block that can take an entry is missing, and there is none to spare. */
  ghost predicate NoRoomIn(x: View, spare: int) {
    exists i: nat :: FirstRoom(x, i) && x[i] == [] && spare <= 0
  }

  ghost predicate EndsInName(path: string) {
    path != "" && path[|path| - 1] != '/'
  }

  /** The file and the new size in blocks. */
  ghost predicate AppendFits(v: Vol, f: nat, count: nat) {
    && f in v.inodes && |v.inodes[f].sectors| == 13
    && var total := v.inodes[f].size + count;
       total < 71680 && |Free(v.bmap)| + UsedBy(v, f) >= PlacesOf(total / 512 + 1)
  }

  ghost predicate AppendTooBig(v: Vol, f: nat, count: nat) {
    f in v.inodes && 71680 < v.inodes[f].size + count < 0x1_0000_0000
  }

  /** A call is done. */
  ghost predicate Succeeds(v: Vol, open: seq<Cached>, q: Request) {
    var s := SearchOf(NamesOf(v), q.path);
    match q
    case Create(path, memory, slot) =>
      && EndsInName(path) && MissingLastOf(NamesOf(v), path) && memory && slot
      && (exists p: nat :: p < 0x100 && LeastUnused(v, p)) && RoomIn(ViewAt(v, s.dir), |Free(v.bmap)|)
    case MakeDir(path) =>
      && MissingLastOf(NamesOf(v), path) && |Free(v.bmap)| > 0
      && (exists p: nat :: p < 0x100 && LeastUnused(v, p)) && RoomIn(ViewAt(v, s.dir), |Free(v.bmap)| - 1)
    case Append(path, bytes) => OpensFile(NamesOf(v), path) && AppendFits(v, s.ino, |bytes|)
    case Unlink(_) => s.Found? && !s.isDir && s.ino !in OpenNumbers(open) && !Twice(ViewAt(v, s.parent), s.ino)
    case RemoveDir(path) =>
      && s.Found? && s.isDir && s.ino != ROOT && IsEmpty(v, s.ino) && s.ino !in OpenNumbers(open)
      && !Twice(ViewAt(v, s.parent), s.ino) && LastName(path) != "."
  }

  /** A call is refused and changes nothing on the partition. */
  ghost predicate Refuses(v: Vol, open: seq<Cached>, q: Request) {
    var s := SearchOf(NamesOf(v), q.path);
    match q
    case Create(path, memory, slot) =>
      || !EndsInName(path) || !MissingLastOf(NamesOf(v), path) || !memory || !slot
      || AllNumbered(v) || NoRoomIn(ViewAt(v, s.dir), |Free(v.bmap)|)
    case MakeDir(path) =>
      !s.Unset? && (!MissingLastOf(NamesOf(v), path) || AllNumbered(v) || |Free(v.bmap)| == 0)
    case Append(path, bytes) => !OpensFile(NamesOf(v), path) || AppendTooBig(v, s.ino, |bytes|)
    case Unlink(_) => s.Lost? || (s.Found? && s.ino != ROOT && (s.isDir || s.ino in OpenNumbers(open)))
    case RemoveDir(_) => s.Lost? || (s.Found? && s.ino != ROOT && (!s.isDir || !IsEmpty(v, s.ino)))
  }

  /** The inode a call that is done is about. */
  ghost predicate RightInode(v: Vol, q: Request, ino: nat) {
    if q.Create? || q.MakeDir? then LeastUnused(v, ino)
    else var s := SearchOf(NamesOf(v), q.path); s.Found? && ino == s.ino
  }

  lemma NumberIs(v: Vol)
    requires Sound(v)
    ensures Free(v.ibits) == {} <==> AllNumbered(v)
    ensures var no := FirstClear(v.ibits); if no == -1 then AllNumbered(v) else no >= 0 && LeastUnused(v, no)
  {
    hide Owns, BitsMatch, FirstClear;
    var no := FirstClear(v.ibits);
    if no == -1 {
      forall p: nat | p < |v.ibits| ensures p in v.inodes {
        assert !ClearRun(v.ibits, p, 1);
      }
    } else {
      forall r: nat | r < no ensures r in v.inodes {
        assert !ClearRun(v.ibits, r, 1);
      }
      assert ClearRun(v.ibits, no, 1) && no in Free(v.ibits);
    }
  }

  lemma LeastIsOne(v: Vol, p: nat, r: nat)
    requires LeastUnused(v, p) && LeastUnused(v, r)
    ensures p == r
  {
  }

  lemma InsertIs(x: View, free: set<nat>)
    ensures InsertOutcome(x, free).Inserted? <==> RoomIn(x, |free|)
    ensures InsertOutcome(x, free).NoBlock? <==> NoRoomIn(x, |free|)
  {
    hide HasRoom, InsertOutcome;
    OutcomeInserts(x, free);
    forall i: nat, j: nat | FirstRoom(x, i) && FirstRoom(x, j) ensures i == j {
    }
  }

  lemma GivenIs(v: Vol)
    requires Sound(v)
    ensures Free(v.ibits) != {} ==>
      && (Given(v).Ok? <==> exists p: nat :: p < 0x100 && LeastUnused(v, p)) && (Given(v).Ok? ==> LeastUnused(v, Given(v).ino))
      && !Given(v).Refused?
    ensures Free(v.ibits) == {} ==> !exists p: nat :: LeastUnused(v, p)
  {
    hide Sound, FirstClear, Free;
    NumberIs(v);
    var no := FirstClear(v.ibits);
    if no >= 0 {
      forall p: nat | LeastUnused(v, p) ensures p == no {
        LeastIsOne(v, p, no);
      }
    }
  }

  lemma CreateOutcomes(v: Vol, dir: nat, memory: bool, slot: bool)
    requires Sound(v)
    ensures
      var o := CreateDecided(v, dir, memory, slot);
      var room := RoomIn(ViewAt(v, dir), |Free(v.bmap)|);
      && (o.Ok? <==> memory && slot && room && exists p: nat :: p < 0x100 && LeastUnused(v, p))
      && (o.Refused? <==> !memory || !slot || AllNumbered(v) || NoRoomIn(ViewAt(v, dir), |Free(v.bmap)|))
      && (o.Ok? ==> LeastUnused(v, o.ino))
  {
    hide Sound, FirstClear, Free, InsertOutcome, RoomIn, NoRoomIn, LeastUnused, AllNumbered, Given, ViewAt;
    NumberIs(v);
    GivenIs(v);
    InsertIs(ViewAt(v, dir), Free(v.bmap));
  }

  lemma MkdirOutcomes(v: Vol, dir: nat)
    requires Sound(v)
    ensures
      var o := MkdirDecided(v, dir);
      var room := RoomIn(ViewAt(v, dir), |Free(v.bmap)| - 1);
      && (o.Ok? <==> |Free(v.bmap)| > 0 && room && exists p: nat :: p < 0x100 && LeastUnused(v, p))
      && (o.Refused? <==> AllNumbered(v) || |Free(v.bmap)| == 0)
      && (o.Ok? ==> LeastUnused(v, o.ino))
  {
    hide Sound, FirstClear, Free, InsertOutcome, RoomIn, NoRoomIn, LeastUnused, AllNumbered, Given, ViewAt;
    NumberIs(v);
    GivenIs(v);
    OneBlockLess(v.bmap);
    InsertIs(ViewAt(v, dir), Free(v.bmap) - {FirstClear(v.bmap)});
  }

  lemma OneBlockLess(b: seq<bool>)
    ensures Free(b) != {} ==> |Free(b) - {FirstClear(b)}| == |Free(b)| - 1
  {
    hide FirstClear;
    var k := FirstClear(b);
    if k == -1 {
      forall p: nat | p < |b| ensures b[p] {
        assert !ClearRun(b, p, 1);
      }
    } else {
      assert ClearRun(b, k, 1) && k in Free(b);
    }
  }

  lemma AppendOutcomes(v: Vol, f: nat, count: nat)
    requires IsFile(v, f) && f < MAX_INODES
    ensures
      var o := AppendDecided(v, f, count);
      (o.Ok? <==> AppendFits(v, f, count)) && (o.Refused? <==> AppendTooBig(v, f, count)) && (o.Ok? ==> o.ino == f)
  {
    hide WriteOutcome, Free, UsedBy, FileShape;
    OutcomeIsRight(v, f, count);
  }

  lemma UnlinkOutcomes(v: Vol, open: seq<Cached>, path: string)
    requires Inv(v)
    ensures
      var q := Unlink(path);
      var o := Decided(v, open, q);
      (o.Ok? <==> Succeeds(v, open, q)) && (o.Refused? <==> Refuses(v, open, q)) && (o.Ok? ==> RightInode(v, q, o.ino))
  {
    hide Inv, SearchOf, NamesOf, ViewAt, Twice;
    var s := SearchOf(NamesOf(v), path);
    if s.Found? {
      if !s.isDir {
        NotRoot(v, path, s);
      }
      if s.ino != ROOT {
        FoundLive(v, path, s);
      }
    }
  }

  lemma NotRoot(v: Vol, path: string, s: Search)
    requires Inv(v) && s == SearchOf(NamesOf(v), path) && s.Found? && !s.isDir
    ensures s.ino != ROOT
  {
    hide Inv, NamesOf, Components, Walk;
    NotTheRoot(v, Components(path), s);
  }

  lemma RmdirOutcomes(v: Vol, open: seq<Cached>, path: string)
    requires Inv(v)
    ensures
      var q := RemoveDir(path);
      var o := Decided(v, open, q);
      (o.Ok? <==> Succeeds(v, open, q)) && (o.Refused? <==> Refuses(v, open, q)) && (o.Ok? ==> RightInode(v, q, o.ino))
  {
    hide Inv, SearchOf, NamesOf, ViewAt, Twice, IsEmpty, LastName;
    var s := SearchOf(NamesOf(v), path);
    if s.Found? && s.ino != ROOT {
      FoundLive(v, path, s);
    }
  }

  /** Every call: done exactly when `Succeeds` says so, refused exactly when `Refuses` does, and in all other cases
      something breaks. */
  lemma EveryOutcome(v: Vol, open: seq<Cached>, q: Request)
    requires Inv(v)
    ensures
      var o := Decided(v, open, q);
      (o.Ok? <==> Succeeds(v, open, q)) && (o.Refused? <==> Refuses(v, open, q)) && (o.Ok? ==> RightInode(v, q, o.ino))
  {
    hide Inv, SearchOf, NamesOf, ViewAt, Twice, IsEmpty, LastName, Components, Free, CreateDecided, MkdirDecided, AppendDecided,
      UnlinkDecided, RmdirDecided, FileAtEnd, LeastUnused, AllNumbered, RoomIn, NoRoomIn, AppendFits, AppendTooBig, IsFile, Sound;
    var s := SearchOf(NamesOf(v), q.path);
    SoundOf(v);
    match q
    case Create(path, memory, slot) =>
      if s.Lost? {
        CreateOutcomes(v, s.dir, memory, slot);
      }
    case MakeDir(path) =>
      if s.Lost? {
        MkdirOutcomes(v, s.dir);
      }
    case Append(path, bytes) =>
      if OpensFile(NamesOf(v), path) {
        IsFoundFile(v, path, s);
        AppendOutcomes(v, s.ino, |bytes|);
      }
    case Unlink(path) => UnlinkOutcomes(v, open, path);
    case RemoveDir(path) => RmdirOutcomes(v, open, path);
  }
}
