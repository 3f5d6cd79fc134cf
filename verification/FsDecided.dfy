/** What every call on a mounted partition comes to, decided by the state before it. */
module FsDecided {
  import opened Sectors
  import opened BitRuns
  import opened Volumes
  import opened FileIO
  import opened FileAppend
  import opened DirEntries
  import opened DirViews
  import opened DirStates
  import opened NameTree
  import opened FsStates
  import opened OpStates
  import opened Paths
  import opened Namespace
  import opened NamespaceOps
  import opened PathOps
  import opened InodeRecords
  import opened InodeCache
  import opened MountStates
  import opened FsIdeal

  /** The first clear bit, or -1. */
  ghost function FirstClear(b: seq<bool>): (r: int)
    ensures IsFirstFit(b, 1, r)
  {
    if b == [] then -1
    else
      var k := |b| - 1;
      var r := FirstClear(b[..k]);
      assert forall s: nat :: s < k ==> (ClearRun(b, s, 1) <==> ClearRun(b[..k], s, 1));
      if r != -1 then r else if b[k] then -1 else k
  }

  lemma FirstIs(b: seq<bool>, r: int)
    requires IsFirstFit(b, 1, r)
    ensures r == FirstClear(b)
  {
  }

  // ---- opening a file ----

  /** The path is that of a file, and nothing follows the file's name. */
  ghost predicate OpensFile(n: Names, path: string) {
    var s := SearchOf(n, path);
    path != "" && path[|path| - 1] != '/' && s.Found? && !s.isDir && FileAtEnd(n, Components(path), s)
  }

  /** Opening an existing file closes none of the directories searched: the last one stays open, unless
      the search never left the root. */
  ghost predicate LeavesOpen(n: Names, path: string) {
    OpensFile(n, path) && |Components(path)| > 1
  }

  /** The list of open inodes after a file has been opened and closed. */
  ghost function ListAfter(v: Vol, open: seq<Cached>, path: string): seq<Cached> {
    if LeavesOpen(NamesOf(v), path) && TABLE_SECTORS <= v.start
    then AfterOpen(InodesOf(v, open), SearchOf(NamesOf(v), path).parent).open
    else open
  }

  lemma OpenedGrows(s: Inodes, no: nat)
    ensures AfterOpen(s, no).open != s.open
  {
    hide Find, Load;
    var k := Find(s.open, no);
    if k < |s.open| {
      assert AfterOpen(s, no).open[k].count != s.open[k].count;
    } else {
      assert |AfterOpen(s, no).open| != |s.open|;
    }
  }

  /** The list is as it was exactly when no file was opened, or one in the root without leaving it. */
  lemma ListSame(v: Vol, open: seq<Cached>, path: string)
    requires TABLE_SECTORS <= v.start
    ensures ListAfter(v, open, path) == open <==> !LeavesOpen(NamesOf(v), path)
  {
    hide AfterOpen, FileAtEnd, SearchOf, NamesOf, Components;
    if LeavesOpen(NamesOf(v), path) {
      OpenedGrows(InodesOf(v, open), SearchOf(NamesOf(v), path).parent);
    }
  }

  // ---- the calls ----

  /** A new inode gets the first free number; above 255 its record is that of another. */
  ghost function Given(v: Vol): Outcome {
    var no := FirstClear(v.ibits);
    if 0 <= no < 0x100 then Ok(no) else Broken
  }

  ghost function CreateDecided(v: Vol, dir: nat, memory: bool, slot: bool): Outcome {
    if Free(v.ibits) == {} || !memory || !slot then Refused
    else
      match InsertOutcome(ViewAt(v, dir), Free(v.bmap))
      case Inserted(_) => Given(v)
      case NoBlock => Refused
      case BeyondDirect => Broken
  }

  /** The first free block is taken for the dots before the parent's entry is stored. */
  ghost function MkdirDecided(v: Vol, dir: nat): Outcome {
    if Free(v.ibits) == {} || Free(v.bmap) == {} then Refused
    else if InsertOutcome(ViewAt(v, dir), Free(v.bmap) - {FirstClear(v.bmap)}).Inserted? then Given(v)
    else Broken
  }

  ghost function AppendDecided(v: Vol, f: nat, count: nat): Outcome {
    if f in v.inodes && |v.inodes[f].sectors| == 13 && f < MAX_INODES then
      match WriteOutcome(v.inodes[f].size, v.inodes[f].sectors[0] == 0, count, |Free(v.bmap)|)
      case Written(_) => Ok(f)
      case TooBig => Refused
      case _ => Broken
    else Broken
  }

  ghost function UnlinkDecided(v: Vol, s: Search, open: set<nat>): Outcome {
    match UnlinkAnswer(v, s, open)
    case Removed => if s.Found? && s.ino < MAX_INODES then Ok(s.ino) else Broken
    case Panics => Broken
    case Unknown => Broken
    case _ => Refused
  }

  /** What removing a directory does, from what the search found. */
  ghost function RmdirAnswer(v: Vol, s: Search, last: string): RmdirResult {
    match s
    case Unset => RmdirResult.Unknown
    case Lost(_, _) => NoSuch
    case Found(ino, parent, isDir) =>
      if ino == ROOT then Stops
      else if !isDir then NotDirectory
      else if !IsEmpty(v, ino) then NotEmpty
      else if Twice(ViewAt(v, parent), ino) then Stops
      else if last == "." then Orphaned
      else Gone
  }

  /** Nobody looks whether the directory is open. */
  ghost function RmdirDecided(v: Vol, s: Search, last: string, open: set<nat>): Outcome {
    match RmdirAnswer(v, s, last)
    case Gone => if s.Found? && s.ino !in open && s.ino < MAX_INODES then Ok(s.ino) else Broken
    case Stops => Broken
    case Orphaned => Broken
    case Unknown => Broken
    case _ => Refused
  }

  ghost function LastName(path: string): string {
    if Components(path) == [] then "" else LastOf(path)
  }

  /** What a request comes to. */
  ghost function Decided(v: Vol, open: seq<Cached>, q: Request): Outcome {
    var s := SearchOf(NamesOf(v), q.path);
    match q
    case Create(path, memory, slot) =>
      if path != "" && path[|path| - 1] != '/' && MissingLastOf(NamesOf(v), path) then CreateDecided(v, s.dir, memory, slot) else Refused
    case MakeDir(path) =>
      if s.Unset? then Broken else if MissingLastOf(NamesOf(v), path) then MkdirDecided(v, s.dir) else Refused
    case Append(path, bytes) => if OpensFile(NamesOf(v), path) then AppendDecided(v, s.ino, |bytes|) else Refused
    case Unlink(_) => UnlinkDecided(v, s, OpenNumbers(open))
    case RemoveDir(path) => RmdirDecided(v, s, LastName(path), OpenNumbers(open))
  }

  /** All of a path is there but its last name. */
  ghost predicate MissingLastOf(n: Names, path: string) {
    var s := SearchOf(n, path);
    s.Lost? && s.depth == |Components(path)|
  }

  /** The list of open inodes after a call, by their numbers and counts. */
  ghost function ListNow(v: Vol, open: seq<Cached>, q: Request): seq<Cached> {
    if q.Append? then ListAfter(v, open, q.path) else open
  }

  /** The inodes a request that succeeds for `ino` may change. */
  ghost function Touched(n: Names, q: Request, ino: nat): set<nat> {
    var s := SearchOf(n, q.path);
    match q
    case Create(_, _, _) => if s.Lost? then {s.dir} else {}
    case MakeDir(_) => if s.Lost? then {s.dir} else {}
    case Append(_, _) => {ino}
    case Unlink(_) => if s.Found? then {s.parent, ino} else {ino}
    case RemoveDir(_) => if s.Found? then {s.parent, ino} else {ino}
  }

  // ---- what the calls answer is what is decided ----

  lemma CreateIs(v: Vol, w: Vol, dir: nat, memory: bool, slot: bool, r: CreateResult)
    requires CreateOutcome(v, w, dir, memory, slot, r)
    ensures CreateDecided(v, dir, memory, slot) ==
      match r
      case Made(ino) => if ino < 0x100 then Ok(ino) else Broken
      case Beyond => Broken
      case _ => Refused
  {
    hide InsertOutcome, Free, IsFirstFit, ViewAt, Twice, FirstClear;
    if r.Made? && IsFirstFit(v.ibits, 1, r.ino) {
      FirstIs(v.ibits, r.ino);
    }
  }

  lemma MkdirIs(v: Vol, w: Vol, dir: nat, r: MkdirResult, ino: Word, lba: nat)
    requires MkdirAnswers(v, w, dir, r, ino, lba)
    ensures MkdirDecided(v, dir) ==
      match r
      case DirMade(no) => if no < 0x100 then Ok(no) else Broken
      case Leaked(_) => Broken
      case BeyondBlocks => Broken
      case _ => Refused
  {
    hide InsertOutcome, Free, IsFirstFit, ViewAt, Twice, FirstClear;
    if !r.NoInodeLeft? {
      FirstIs(v.ibits, ino);
    }
    if r.DirMade? || r.Leaked? || r.BeyondBlocks? {
      FirstIs(v.bmap, lba - v.start);
    }
  }
}
