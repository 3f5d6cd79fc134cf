/** The calls that take a path: what they do to the partition and to every other path. */
module PathOps {
  import opened Sectors
  import opened BitRuns
  import opened Volumes
  import opened FileIO
  import opened DirEntries
  import opened DirViews
  import opened DirStates
  import opened NameTree
  import opened NameTreeProofs
  import opened FsStates
  import opened FsProofs
  import opened InodeStates
  import opened OpStates
  import opened FsOps
  import opened Paths
  import opened Namespace
  import opened NamespaceProofs
  import opened NamespaceOps

  /** A path the calls can take: absolute, shorter than 128 characters, made of one-byte characters,
      its names at most 15 long. */
  ghost predicate GoodPath(path: string) {
    && path != "" && path[0] == '/' && |path| < MAX_PATH_LEN && ShortNames(Components(path))
    && (forall i :: 0 <= i < |path| ==> 0 < path[i] as int < 0x100)
  }

  /** The last name of a path. */
  ghost function LastOf(path: string): string
    requires Components(path) != []
  {
    Components(path)[|Components(path)| - 1]
  }

  lemma {:induction false} NameBytes(s: string, i: nat)
    requires i < |Components(s)| && forall k :: 0 <= k < |s| ==> 0 < s[k] as int < 0x100
    ensures forall k :: 0 <= k < |Components(s)[i]| ==> 0 < Components(s)[i][k] as int < 0x100
    decreases |s|
  {
    if s[0] == '/' {
      NameBytes(s[1..], i);
    } else if i > 0 {
      NameLenSlashFree(s);
      NameBytes(s[NameLen(s)..], i - 1);
    }
  }

  /** The last name is one a directory can hold. */
  lemma LastValid(path: string)
    requires GoodPath(path) && Components(path) != []
    ensures ValidName(LastOf(path))
  {
    hide Components;
    var k := |Components(path)| - 1;
    ComponentsProper(path);
    NameBytes(path, k);
    var c := Components(path)[k];
    assert Proper(c);
    forall i | 0 <= i < |c| ensures c[i] != '/' {
      assert c[i] in c;
    }
  }

  /** A missing last name is not a dot, and nothing in the directory has it. */
  lemma MissingLast(v: Vol, cs: seq<string>, d: nat)
    requires Inv(v) && LostAt(NamesOf(v), cs, d, |cs|)
    ensures d in v.dirs && cs[|cs| - 1] != "." && cs[|cs| - 1] != ".." && NoneNamed(ViewAt(v, d), cs[|cs| - 1])
  {
    hide Inv, NamesOf, ViewAt, Has, Leads, Tree, Unambiguous;
    var n, name := NamesOf(v), cs[|cs| - 1];
    SpaceOf(v);
    DirsOf(v);
    LeadsDir(n, d, cs[..|cs| - 1]);
    EntriesAre(v);
    assert DotsIn(n, d);
    forall e | Has(ViewAt(v, d), e) ensures e.name != name {
      assert Entry(n, d, e);
    }
  }

  lemma LeadsDir(n: Names, d: nat, cs: seq<string>)
    requires Tree(n) && Leads(n, d, cs)
    ensures d in n.dirs
  {
    hide NamesUnique, AllNamed, ParentsOk, Acyclic;
    if cs != [] {
      var p, e :| Leads(n, p, cs[..|cs| - 1]) && Entry(n, p, e) && e.name == cs[|cs| - 1] && e.ftype == FT_DIRECTORY && e.ino == d;
      assert EntryOk(n, p, e);
    }
  }

  // ---- making ----

  /** `Unknown`: the path is several slashes alone, and the kernel goes on with an inode number it has
      never set. Nothing is said of that case. */
  datatype MakeResult<T> = Exists | NoParent | Unknown | Tried(result: T)

  /** A new name `e` in `dir`: the path that was missing finds it, and all other paths find what they found. */
  ghost predicate NewPath(n: Names, m: Names, path: string, dir: nat, e: Slot) {
    && SearchOf(m, path) == Found(e.ino, dir, e.ftype == FT_DIRECTORY)
    && StillFound(n, m, {})
  }

  lemma MkdirPath(v: Vol, w: Vol, path: string, dir: Word, e: Slot)
    requires Inv(v) && Inv(w) && MadeDir(v, w, dir, e) && Components(path) != []
    requires LostAt(NamesOf(v), Components(path), dir, |Components(path)|) && e.name == LastOf(path)
    ensures NewPath(NamesOf(v), NamesOf(w), path, dir, e)
  {
    hide Inv, NamesOf, MadeDir, Components, StillFound, LostAt, Walk, Tree, Unambiguous, AllDots;
    MadeDirInv(v, w, dir, e);
    MadeDirFacts(v, w, dir, e);
    var n, m := NamesOf(v), NamesOf(w);
    EntriesKept(n, dir, e);
    SpaceOf(w);
    MoreStillFound(n, m);
    NewNameFound(n, m, Components(path), dir, e);
  }

  lemma MadeDirFacts(v: Vol, w: Vol, dir: Word, e: Slot)
    requires Inv(v) && MadeDir(v, w, dir, e)
    ensures dir in NamesOf(v).entries && e.ino !in NamesOf(v).entries && dir != e.ino && e.ftype == FT_DIRECTORY
  {
    hide Shapes, Tree, RootFirst, Owns, BitsMatch, Gains, IsDir, OthersKept, SameFirst, ViewAt, LiveSet, DotDot,
      DotsOf;
    DirsLive(v);
  }

  lemma EntriesKept(n: Names, d: Word, e: Slot)
    requires d in n.entries && e.ino !in n.entries && d != e.ino
    ensures forall p, f :: Entry(n, p, f) ==> Entry(WithDir(n, d, e), p, f)
    ensures Entry(WithDir(n, d, e), d, e)
  {
  }

  /** Makes a directory. */
  method SysMkdir(vol: Volume, path: string) returns (r: MakeResult<MkdirResult>, dir: Word, ghost ino: Word, ghost lba: nat)
    requires Inv(vol.State()) && GoodPath(path)
    modifies vol
    ensures
      var s := SearchOf(NamesOf(old(vol.State())), path);
      && (r.Exists? <==> s.Found?) && (r.Unknown? <==> s.Unset?)
      && (r.NoParent? <==> s.Lost? && s.depth != |Components(path)|)
      && (r.Tried? ==> s == Lost(dir, |Components(path)|) && Components(path) != [] && dir in old(vol.dirs))
    ensures r.Exists? || r.NoParent? ==> vol.State() == old(vol.State())
    ensures r.Tried? ==> MkdirAnswers(old(vol.State()), vol.State(), dir, r.result, ino, lba)
    ensures r.Tried? ==> MkdirEffect(old(vol.State()), vol.State(), dir, LastOf(path), r.result)
    ensures r.Tried? && r.result.DirMade? ==>
      NewPath(NamesOf(old(vol.State())), NamesOf(vol.State()), path, dir, Slot(LastOf(path), r.result.ino, FT_DIRECTORY))
  {
    hide Inv, NamesOf, Components, MadeDir, LostBlock, NewPath, Walk, ViewAt, Has, NoneNamed, ShortNames,
      MkdirAnswers;
    ghost var v := vol.State();
    dir, ino, lba := 0, 0, 0;
    var s, searched, seen := SearchFile(vol, path);
    if s.Unset? {
      return MakeResult.Unknown, dir, ino, lba;
    }
    if s.Found? {
      return Exists, dir, ino, lba;
    }
    SearchMeans(NamesOf(v), Components(path));
    var depth, name := PathDepth(path);
    var reached := DepthOf(searched, path, seen);
    if depth != reached {
      return NoParent, dir, ino, lba;
    }
    MissingLast(v, Components(path), s.dir);
    LastValid(path);
    SmallNumber(v, s.dir);
    dir := s.dir;
    var made;
    made, ino, lba := Mkdir(vol, s.dir, name);
    if made.DirMade? {
      MkdirPath(v, vol.State(), path, dir, Slot(name, made.ino, FT_DIRECTORY));
    }
    r := Tried(made);
  }

  /** The number of names in a path, and the last of them. */
  method PathDepth(path: string) returns (depth: nat, last: string)
    ensures depth == |Components(path)|
    ensures depth > 0 ==> last == LastOf(path)
  {
    hide Components, Left;
    var name, rest := PathParse(path);
    depth, last := 0, "";
    ghost var all := Components(path);
    assert all[0..] == all;
    while name != ""
      invariant depth <= |all| && all[depth..] == Left(name, rest) && (depth > 0 ==> last == all[depth - 1])
      decreases |all| - depth
    {
      LeftStep(all, depth, name, rest);
      depth := depth + 1;
      last := name;
      name, rest := NextName(rest);
    }
    LeftNone(name, rest);
  }

  /** The depth of the part of a path a search has looked at. */
  method DepthOf(searched: string, ghost path: string, ghost seen: nat) returns (depth: nat)
    requires seen <= |Components(path)| && searched == Join(Components(path)[..seen])
    ensures depth == seen
  {
    hide Components, Join;
    var last;
    depth, last := PathDepth(searched);
    ComponentsProper(path);
    RenderRoundTrip(Components(path)[..seen]);
  }

  // ---- creating a file ----

  datatype OpenResult = TrailingSlash | ADirectory | NotReached | Present | Creation(result: CreateResult)

  lemma CreatePath(v: Vol, w: Vol, path: string, dir: nat, e: Slot)
    requires Inv(v) && Inv(w) && Created(v, w, dir, e) && Components(path) != []
    requires LostAt(NamesOf(v), Components(path), dir, |Components(path)|) && e.name == LastOf(path)
    ensures NewPath(NamesOf(v), NamesOf(w), path, dir, e)
  {
    hide Inv, NamesOf, Created, Components, StillFound, LostAt, Walk, Tree, Unambiguous, AllDots;
    CreatedInv(v, w, dir, e);
    CreatedFacts(v, w, dir, e);
    var n, m := NamesOf(v), NamesOf(w);
    FileEntriesKept(n, dir, e);
    SpaceOf(w);
    MoreStillFound(n, m);
    NewNameFound(n, m, Components(path), dir, e);
  }

  lemma CreatedFacts(v: Vol, w: Vol, dir: nat, e: Slot)
    requires Inv(v) && Created(v, w, dir, e)
    ensures dir in NamesOf(v).entries && e.ftype == FT_REGULAR
  {
    hide Shapes, Tree, RootFirst, Owns, BitsMatch, Gains, IsDir, IsFile, OthersKept, SameFirst, ViewAt, LiveSet,
      DotDot;
    DirsLive(v);
  }

  lemma FileEntriesKept(n: Names, d: nat, e: Slot)
    requires d in n.entries
    ensures forall p, f :: Entry(n, p, f) ==> Entry(WithFile(n, d, e), p, f)
    ensures Entry(WithFile(n, d, e), d, e)
  {
  }

  /** The file the search ended at is the last name of the path. */
  ghost predicate FileAtEnd(n: Names, cs: seq<string>, s: Search)
    requires s.Found?
  {
    cs != [] && exists e :: EntryAt(n, cs, |cs| - 1, s.parent, e) && e.ftype != FT_DIRECTORY && e.ino == s.ino
  }

  /** The search has looked at all names exactly when the file is the last of them. */
  lemma SeenAll(v: Vol, cs: seq<string>, s: Search, seen: nat)
    requires Inv(v) && s.Found? && 1 <= seen <= |cs|
    requires exists e :: EntryAt(NamesOf(v), cs, seen - 1, s.parent, e) && e.ftype != FT_DIRECTORY && e.ino == s.ino
    ensures FileAtEnd(NamesOf(v), cs, s) <==> seen == |cs|
  {
    hide Inv, NamesOf, EntryAt, Space;
    SpaceOf(v);
    if FileAtEnd(NamesOf(v), cs, s) {
      var e :| EntryAt(NamesOf(v), cs, seen - 1, s.parent, e) && e.ftype != FT_DIRECTORY && e.ino == s.ino;
      var f :| EntryAt(NamesOf(v), cs, |cs| - 1, s.parent, f);
      OneFile(NamesOf(v), cs, seen - 1, s.parent, e, |cs| - 1, s.parent, f);
    }
  }

  /** A path that does not end in a slash has a name. */
  lemma {:induction false} NamedPath(path: string)
    requires path != "" && path[|path| - 1] != '/'
    ensures Components(path) != []
    decreases |path|
  {
    if path[0] == '/' {
      NamedPath(path[1..]);
    }
  }

  /** Opens a file that is to be created. */
  method SysCreate(vol: Volume, path: string, memory: bool, slot: bool) returns (r: OpenResult, dir: nat)
    requires Inv(vol.State()) && GoodPath(path)
    modifies vol
    ensures
      var s, cs := SearchOf(NamesOf(old(vol.State())), path), Components(path);
      && (r.TrailingSlash? <==> path[|path| - 1] == '/')
      && (!r.TrailingSlash? ==> (r.ADirectory? <==> s.Found? && s.isDir))
      && (!r.TrailingSlash? && s.Found? && !s.isDir ==> r == if FileAtEnd(NamesOf(old(vol.State())), cs, s) then Present else NotReached)
      && (!r.TrailingSlash? && s.Lost? ==> (r.Creation? <==> s.depth == |cs|) && (r.NotReached? <==> s.depth != |cs|))
      && (r.Creation? ==> s == Lost(dir, |cs|) && cs != [])
    ensures !r.Creation? || (!r.result.Made? && !r.result.Beyond?) ==> vol.State() == old(vol.State())
    ensures r.Creation? ==> CreateOutcome(old(vol.State()), vol.State(), dir, memory, slot, r.result)
    ensures r.Creation? && r.result.Made? ==>
      var e := Slot(LastOf(path), r.result.ino, FT_REGULAR);
      && Created(old(vol.State()), vol.State(), dir, e) && Inv(vol.State())
      && NewPath(NamesOf(old(vol.State())), NamesOf(vol.State()), path, dir, e)
  {
    hide Inv, NamesOf, Components, Created, NewPath, Walk, ViewAt, Has, NoneNamed, ShortNames, CreateOutcome,
      EntryAt, FileAtEnd;
    ghost var v := vol.State();
    dir := 0;
    if path[|path| - 1] == '/' {
      return TrailingSlash, dir;
    }
    NamedPath(path);
    var s, searched, seen := SearchFile(vol, path);
    if s.Found? && s.isDir {
      return ADirectory, dir;
    }
    SearchMeans(NamesOf(v), Components(path));
    var depth, name := PathDepth(path);
    var reached := DepthOf(searched, path, seen);
    if s.Found? {
      SeenAll(v, Components(path), s, seen);
    }
    if depth != reached {
      return NotReached, dir;
    }
    if s.Found? {
      return Present, dir;
    }
    MissingLast(v, Components(path), s.dir);
    LastValid(path);
    dir := s.dir;
    var made := FileCreate(vol, s.dir, name, memory, slot);
    if made.Made? {
      CreatePath(v, vol.State(), path, dir, Slot(name, made.ino, FT_REGULAR));
    }
    r := Creation(made);
  }

  // ---- unlinking ----

  /** Inode `ino` has gone: no path finds it, and all others find what they found. */
  ghost predicate PathGone(n: Names, m: Names, ino: nat) {
    Unreachable(m, ino) && StillFound(n, m, {ino})
  }

  lemma UnlinkPath(v: Vol, w: Vol, dir: nat, e: Slot)
    requires Inv(v) && Inv(w) && Unlinked(v, w, dir, e)
    ensures PathGone(NamesOf(v), NamesOf(w), e.ino)
  {
    hide Inv, NamesOf, Unlinked, StillFound, Unreachable, Walk, Tree, Unambiguous, AllDots;
    UnlinkedInv(v, w, dir, e);
    UnlinkedFacts(v, w, dir, e);
    var n, m := NamesOf(v), NamesOf(w);
    OthersStay(n, dir, e);
    SpaceOf(v);
    SpaceOf(w);
    LessStillFound(n, m, dir, e);
    DeadUnreachable(m, e.ino);
  }

  lemma UnlinkedFacts(v: Vol, w: Vol, dir: nat, e: Slot)
    requires Inv(v) && Unlinked(v, w, dir, e)
    ensures dir in NamesOf(v).entries && Entry(NamesOf(v), dir, e) && e.ftype != FT_DIRECTORY
  {
    hide Shapes, Tree, RootFirst, Sound, Loses, IsDir, OthersKept, SameFirst, ViewAt, Has, NamesOf;
    EntriesAre(v);
  }

  lemma OthersStay(n: Names, d: nat, e: Slot)
    requires d in n.entries
    ensures forall p, f :: Entry(n, p, f) && !(p == d && f == e) ==> Entry(WithoutFile(n, d, e), p, f)
    ensures e.ino !in WithoutFile(n, d, e).live
  {
  }

  /** The entry a search has found. */
  lemma FoundEntry(v: Vol, cs: seq<string>, s: Search) returns (e: Slot)
    requires Inv(v) && s == Walk(NamesOf(v), ROOT, ROOT, cs, 0) && s.Found? && s.ino != ROOT
    ensures s.parent in v.dirs && Has(ViewAt(v, s.parent), e) && e.ino == s.ino
    ensures (e.ftype == FT_DIRECTORY <==> s.isDir)
    ensures s.isDir ==> cs != [] && e.name == cs[|cs| - 1]
  {
    hide Inv, NamesOf, ViewAt, Has, Tree, Unambiguous, AllDots;
    SpaceOf(v);
    EntriesAre(v);
    DirsOf(v);
    var n := NamesOf(v);
    SearchMeans(n, cs);
    var k: nat;
    if s.isDir {
      assert cs != [] by {
        assert Walk(n, ROOT, ROOT, [], 0) == Found(ROOT, ROOT, true);
      }
      k := |cs| - 1;
      e :| EntryAt(n, cs, k, s.parent, e) && e.ftype == FT_DIRECTORY && e.ino == s.ino;
    } else {
      k, e :| EntryAt(n, cs, k, s.parent, e) && e.ftype != FT_DIRECTORY && e.ino == s.ino;
    }
    LeadsDir(n, s.parent, cs[..k]);
  }

  /** What unlinking does, from what the search found. */
  ghost function UnlinkAnswer(v: Vol, s: Search, open: set<nat>): UnlinkResult {
    if s.Unset? then UnlinkResult.Unknown
    else if !s.Found? then Missing
    else if s.ino == ROOT then Panics
    else if s.isDir then IsDirectory
    else if s.ino in open then InUse
    else if Twice(ViewAt(v, s.parent), s.ino) then Panics
    else Removed
  }

  /** Unlinks a file; `open` are the inodes in the file table. */
  method SysUnlink(vol: Volume, path: string, open: set<nat>) returns (r: UnlinkResult, s: Search, ghost e: Slot)
    requires Inv(vol.State()) && GoodPath(path)
    modifies vol
    ensures s == SearchOf(NamesOf(old(vol.State())), path)
    ensures r == UnlinkAnswer(old(vol.State()), s, open)
    ensures !r.Removed? && !r.Unknown? ==> vol.State() == old(vol.State())
    ensures r.Removed? ==>
      && Unlinked(old(vol.State()), vol.State(), s.parent, e) && e.ino == s.ino && Inv(vol.State())
      && PathGone(NamesOf(old(vol.State())), NamesOf(vol.State()), s.ino)
  {
    hide Inv, NamesOf, Components, Unlinked, PathGone, Walk, ViewAt, Has, ShortNames, Twice, EntryAt, Join;
    ghost var v := vol.State();
    e := EMPTY;
    var searched;
    ghost var seen;
    s, searched, seen := SearchFile(vol, path);
    if s.Unset? {
      return UnlinkResult.Unknown, s, e;
    }
    if !s.Found? {
      return Missing, s, e;
    }
    if s.ino == ROOT {
      return Panics, s, e;
    }
    if s.isDir {
      return IsDirectory, s, e;
    }
    if s.ino in open {
      return InUse, s, e;
    }
    e := FoundEntry(v, Components(path), s);
    r := FsOps.RemoveFile(vol, s.parent, s.ino, e);
    if r.Removed? {
      UnlinkPath(v, vol.State(), s.parent, e);
    }
  }

  // ---- removing a directory ----

  /** Every other directory keeps its path. */
  ghost predicate PathsStay(n: Names, m: Names, gone: nat) {
    forall c, cs :: c != gone && IsPath(n, c, cs) ==> IsPath(m, c, cs)
  }

  lemma {:induction false} PathStays(n: Names, d: nat, e: Slot, c: nat, cs: seq<string>)
    requires Tree(n) && Entry(n, d, e) && !IsDot(e) && e.ftype == FT_DIRECTORY
    requires (forall g :: Entry(n, e.ino, g) ==> IsDot(g))
    requires c != e.ino && IsPath(n, c, cs)
    ensures IsPath(WithoutDir(n, d, e), c, cs)
    decreases |cs|
  {
    hide TreeShape, EntriesOk, AllNamed, ParentsOk, Acyclic, NamesUnique;
    if cs != [] {
      var p := n.parent[c];
      var f :| Entry(n, p, f) && f.name == cs[|cs| - 1] && f.ino == c && !IsDot(f);
      assert p != e.ino;
      PathStays(n, d, e, p, cs[..|cs| - 1]);
      assert Entry(WithoutDir(n, d, e), p, f);
    }
  }

  lemma RmdirPath(v: Vol, w: Vol, dir: nat, e: Slot)
    requires Inv(v) && Inv(w) && RemovedDir(v, w, dir, e)
    ensures Unreachable(NamesOf(w), e.ino) && PathsStay(NamesOf(v), NamesOf(w), e.ino)
    ensures OnlyLost(NamesOf(v), NamesOf(w), e.ino)
  {
    hide Inv, NamesOf, RemovedDir, Unreachable, OnlyLost, OneDoor, DoorClosed, Tree, Unambiguous, AllDots, IsPath, Entry;
    RemovedDirInv(v, w, dir, e);
    RemovedFacts(v, w, dir, e);
    var n, m := NamesOf(v), NamesOf(w);
    SpaceOf(v);
    SpaceOf(w);
    DeadUnreachable(m, e.ino);
    EmptyHasOneDoor(n, dir, e);
    AroundAll(n, m, dir, e);
    forall c, cs | c != e.ino && IsPath(n, c, cs) ensures IsPath(m, c, cs) {
      PathStays(n, dir, e, c, cs);
    }
  }

  lemma RemovedFacts(v: Vol, w: Vol, dir: nat, e: Slot)
    requires Inv(v) && RemovedDir(v, w, dir, e)
    ensures dir in NamesOf(v).entries && Entry(NamesOf(v), dir, e) && !IsDot(e) && e.ftype == FT_DIRECTORY
    ensures forall g :: Entry(NamesOf(v), e.ino, g) ==> IsDot(g)
  {
    hide Shapes, Tree, RootFirst, Sound, Loses, IsDir, OthersKept, SameFirst, ViewAt, Has, NamesOf;
    EntriesAre(v);
  }

  /** Removes an empty directory. */
  method SysRmdir(vol: Volume, path: string) returns (r: RmdirResult, s: Search, ghost e: Slot)
    requires Inv(vol.State()) && GoodPath(path)
    modifies vol
    ensures s == SearchOf(NamesOf(old(vol.State())), path)
    ensures
      && (r.NoSuch? <==> s.Lost?) && (r.Unknown? <==> s.Unset?)
      && (s.Found? && s.ino == ROOT ==> r == Stops)
      && (s.Found? && s.ino != ROOT ==>
            e.ino == s.ino && Has(old(ViewAt(vol.State(), s.parent)), e) && (s.isDir ==> e.name == LastOf(path)) &&
            (s.isDir <==> e.ftype == FT_DIRECTORY) && (!s.isDir <==> e.ftype == FT_REGULAR) &&
            r == RmdirOutcome(old(vol.State()), s.parent, e) && RmdirEffect(old(vol.State()), vol.State(), s.parent, e, r))
    ensures r.NoSuch? || r.Stops? || r.NotEmpty? || r.NotDirectory? ==> vol.State() == old(vol.State())
    ensures r.Gone? ==>
      && Unreachable(NamesOf(vol.State()), e.ino) && PathsStay(NamesOf(old(vol.State())), NamesOf(vol.State()), e.ino)
      && OnlyLost(NamesOf(old(vol.State())), NamesOf(vol.State()), e.ino)
  {
    hide Inv, NamesOf, Components, RemovedDir, Unreachable, PathsStay, OnlyLost, Walk, ViewAt, Has, ShortNames, Twice,
      EntryAt, Join, IsEmpty, Tree, Released;
    ghost var v := vol.State();
    e := EMPTY;
    var searched;
    ghost var seen;
    s, searched, seen := SearchFile(vol, path);
    if s.Unset? {
      return RmdirResult.Unknown, s, e;
    }
    if !s.Found? {
      return NoSuch, s, e;
    }
    if s.ino == ROOT {
      return Stops, s, e;
    }
    e := FoundEntry(v, Components(path), s);
    EntryKind(v, s.parent, e);
    KindOf(v, s.parent, e);
    if !s.isDir {
      return NotDirectory, s, e;
    }
    var empty := DirIsEmpty(vol, s.ino);
    if !empty {
      return NotEmpty, s, e;
    }
    r := DirRemove(vol, s.parent, s.ino, e);
    if r.Gone? {
      RmdirPath(v, vol.State(), s.parent, e);
    }
  }

  lemma KindOf(v: Vol, d: nat, e: Slot)
    requires Inv(v) && d in v.dirs && Has(ViewAt(v, d), e)
    ensures e.ftype == FT_REGULAR || e.ftype == FT_DIRECTORY
  {
    hide Inv, ViewAt, Has;
    IsDirAt(v, d);
    EntryTyped(v, d, e);
  }
}
