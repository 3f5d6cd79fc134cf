/** A run in which a directory is removed while a file once opened in it keeps it open. */
module FsHeld {
  import opened Sectors
  import opened FiniteSets
  import opened BitRuns
  import opened Volumes
  import opened FileIO
  import opened FileAppend
  import opened DirEntries
  import opened DirViews
  import opened DirStates
  import opened NameTree
  import opened FsStates
  import opened FsProofs
  import FsOps
  import opened OpStates
  import opened Paths
  import opened Namespace
  import opened NamespaceProofs
  import opened NamespaceOps
  import opened PathOps
  import opened Format
  import opened Formatting
  import opened InodeRecords
  import opened InodeCache
  import opened InodeCacheProofs
  import opened MountStates
  import opened MountProofs
  import opened FsIdeal
  import opened FsDecided
  import opened FsCallProofs
  import opened FsCalls
  import opened FsRuns
  import opened FsOverflow

  // ---- "/a" and "/a/a" ----

  const DIR: Slot := Slot([Letter(0)], 1, FT_DIRECTORY)
  const FILE: Slot := Slot([Letter(0)], 2, FT_REGULAR)

  /** The root holds the directory, and the directory holds `more` besides its dots. */
  ghost predicate Holding(n: Names, more: set<Slot>) {
    Entry(n, ROOT, DIR) && 1 in n.entries && n.entries[1] == DotsOf(1, ROOT) + more
  }

  lemma DirFound(n: Names)
    requires Space(n) && Entry(n, ROOT, DIR)
    ensures SearchOf(n, DirPath(0)) == Found(1, ROOT, true) && LastName(DirPath(0)) == [Letter(0)]
  {
    hide Components, Tree, AllDots, Bound;
    DirPathNames(0);
    BindingIs(n, ROOT, DIR);
    var cs: seq<string>, none: seq<string> := [[Letter(0)]], [];
    assert cs[1..] == none;
    assert Walk(n, 1, ROOT, none, 1) == Found(1, ROOT, true);
    assert Walk(n, ROOT, ROOT, cs, 0) == Walk(n, 1, ROOT, none, 1);
  }

  lemma FileFound(n: Names)
    requires Space(n) && Entry(n, ROOT, DIR) && Entry(n, 1, FILE)
    ensures SearchOf(n, FilePath(0, 0)) == Found(2, 1, false) && OpensFile(n, FilePath(0, 0)) && LeavesOpen(n, FilePath(0, 0))
  {
    hide Components, Tree, AllDots, Bound;
    FilePathNames(0, 0);
    BindingIs(n, ROOT, DIR);
    BindingIs(n, 1, FILE);
    var cs, more := [[Letter(0)], [Letter(0)]], [[Letter(0)]];
    assert cs[1..] == more && cs[..1] == more;
    assert Walk(n, 1, ROOT, more, 1) == Found(2, 1, false);
    assert Walk(n, ROOT, ROOT, cs, 0) == Walk(n, 1, ROOT, more, 1);
    assert SearchOf(n, FilePath(0, 0)) == Found(2, 1, false);
    assert Leads(n, ROOT, cs[..1][..0]) && Leads(n, 1, cs[..1]);
    assert EntryAt(n, cs, 1, 1, FILE);
  }

  // ---- the calls ----

  lemma DirMadeNames(v: Vol, open: seq<Cached>, w: Vol, now: seq<Cached>)
    requires Filled(v, open, 1, 0) && Stepped(v, open, w, now, MakeDir(DirPath(0)), Ok(1)) && DirsAt(1) == 0
    ensures Holding(NamesOf(w), {})
  {
    hide Inv, NamesOf, LettersBelow, Free, SearchOf, Components, Files, Mounted, DotsOf, Decided, OthersKept, SameNumbers;
    DirPathNames(0);
    RootLost(NamesOf(v), 0);
    var n, m := NamesOf(v), NamesOf(w);
    assert m == WithDir(n, ROOT, DIR);
    assert DotsOf(1, ROOT) + {} == DotsOf(1, ROOT);
  }

  lemma FileMadeNames(v: Vol, open: seq<Cached>, w: Vol, now: seq<Cached>)
    requires Holding(NamesOf(v), {}) && SearchOf(NamesOf(v), FilePath(0, 0)) == Lost(1, 2)
    requires Stepped(v, open, w, now, Create(FilePath(0, 0), true, true), Ok(2))
    ensures Holding(NamesOf(w), {FILE}) && 2 in Files(w) && Files(w)[2] == []
  {
    hide Inv, NamesOf, SearchOf, Components, Files, Mounted, DotsOf, Decided, OthersKept, SameNumbers;
    FilePathNames(0, 0);
    var n, m := NamesOf(v), NamesOf(w);
    assert m == WithFile(n, 1, FILE);
    assert DotsOf(1, ROOT) + {} + {FILE} == DotsOf(1, ROOT) + {FILE};
  }

  lemma AppendedNames(v: Vol, open: seq<Cached>, w: Vol, now: seq<Cached>, bytes: seq<Byte>)
    requires Stepped(v, open, w, now, Append(FilePath(0, 0), bytes), Ok(2))
    ensures NamesOf(w) == NamesOf(v)
  {
    hide Inv, NamesOf, SearchOf, Components, Files, Mounted, DotsOf, Decided, OthersKept, SameNumbers, FileAtEnd;
  }

  lemma UnlinkedNames(v: Vol, open: seq<Cached>, w: Vol, now: seq<Cached>)
    requires Holding(NamesOf(v), {FILE}) && SearchOf(NamesOf(v), FilePath(0, 0)) == Found(2, 1, false)
    requires Stepped(v, open, w, now, Unlink(FilePath(0, 0)), Ok(2))
    ensures Holding(NamesOf(w), {}) && NamesOf(w).live == NamesOf(v).live - {2}
  {
    hide Inv, NamesOf, SearchOf, Components, Files, Mounted, Decided, OthersKept, SameNumbers;
    var n, m := NamesOf(v), NamesOf(w);
    assert EntryFor(n, 1, 2) == FILE;
    assert m == WithoutFile(n, 1, FILE);
    assert n.entries[1] - {FILE} == DotsOf(1, ROOT) + {};
  }

  /** The file just created is empty, and any block will do for its first bytes. */
  lemma AppendRoom(v: Vol, count: nat, r: WriteResult)
    requires Inv(v) && 2 in Files(v) && Files(v)[2] == [] && Free(v.bmap) != {} && count < BLOCK_SIZE && AppendAnswers(v, 2, count, r)
    ensures r.Written?
  {
    hide Inv, Files, Free, Content;
    ShapeAt(v, 2);
    FileBytes(v, 2);
    assert |Free(v.bmap)| >= 1;
  }

  lemma HoldsOnlyDots(v: Vol)
    requires Inv(v) && Holding(NamesOf(v), {})
    ensures IsEmpty(v, 1)
  {
    hide Inv, NamesOf, ViewAt, Has;
    EntriesAre(v);
    forall f | Has(ViewAt(v, 1), f) ensures IsDot(f) {
      assert Entry(NamesOf(v), 1, f);
    }
  }

  /** No inode but the root is open on a new partition. */
  lemma OnlyRoot(v: Vol, open: seq<Cached>)
    requires Mounted(v, open) && v.inodes.Keys == RunOf(0, 1)
    ensures OpenNumbers(open) <= {ROOT}
  {
    hide Inv, TableAgrees, DeadClear, Small, Find;
  }

  /** A copy in memory is found before the record on the disk, whatever that holds by now. */
  lemma StaleWins(s: Inodes, d: Disk, no: nat)
    requires Find(s.open, no) < |s.open|
    ensures
      var t := AfterOpen(s.(disk := d), no);
      Find(t.open, no) < |t.open| && t.open[Find(t.open, no)].node == s.open[Find(s.open, no)].node
  {
    hide Find, Load;
    FindKept(s.open, AfterOpen(s.(disk := d), no).open, no);
  }

  /** The directory and the empty file are there, each stored once, and only the root may be open. */
  ghost predicate Prepared(v: Vol, open: seq<Cached>) {
    && Mounted(v, open) && v.inodes.Keys == RunOf(0, 3) && |v.ibits| == MAX_INODES && Free(v.bmap) != {} && {ROOT as nat, 1} <= v.dirs
    && Holding(NamesOf(v), {FILE}) && 2 in Files(v) && Files(v)[2] == []
    && !Twice(ViewAt(v, ROOT), 1) && !Twice(ViewAt(v, 1), 2) && OpenNumbers(open) <= {ROOT}
  }

  lemma SameOnce(v: Vol, open: seq<Cached>, w: Vol, now: seq<Cached>, q: Request, o: Outcome, dir: nat, ino: nat)
    requires Mounted(v, open) && Stepped(v, open, w, now, q, o) && o.Ok? && dir in v.dirs && dir !in Touched(NamesOf(v), q, o.ino)
    ensures Twice(ViewAt(w, dir), ino) <==> Twice(ViewAt(v, dir), ino)
  {
    hide Inv, TableAgrees, DeadClear, NoStale, Small, ViewAt, Twice, OthersKept, Touched, Decided, Abs, Right, Effect, SameNumbers;
    KeptView(v, w, Touched(NamesOf(v), q, o.ino), dir);
  }

  lemma PreparedIs(v: Vol, open: seq<Cached>)
    requires Filled(v, open, 3, 1) && DirsAt(3) == 1 && Holding(NamesOf(v), {FILE}) && 2 in Files(v) && Files(v)[2] == []
    requires !Twice(ViewAt(v, ROOT), 1) && !Twice(ViewAt(v, 1), 2) && OpenNumbers(open) <= {ROOT}
    ensures Prepared(v, open)
  {
    hide Mounted, NamesOf, Holding, Twice, ViewAt, Files, Free, RunOf, FewEntries;
    assert |Free(v.bmap)| >= 12;
  }

  /** Makes a directory and creates a file in it. */
  method Prepare(m: InodeStore, ghost n: nat) returns (made: Outcome, created: Outcome)
    requires Formatted(m.vol.State(), n) && n >= 14 && Mounted(m.vol.State(), m.open)
    modifies m`open, m.vol
    ensures made == Ok(1) && created == Ok(2) && Prepared(m.vol.State(), m.open)
  {
    hide Formatted, Filled, Inv, TableAgrees, Stepped, MkdirAnswers, CreateOutcome, SearchOf, NamesOf, Components, GoodPath, Files,
      MissingLastOf, Mounted, DirsAt, FilesAt, LastDir, Holding, Twice, ViewAt, Prepared;
    StartCounters();
    Counters(1);
    Counters(2);
    ghost var v0, open0 := m.vol.State(), m.open;
    FormattedFilled(v0, open0, n);
    RootReady(v0, open0, 1, 0);
    ghost var r, dir, ino, lba;
    made, r, dir, ino, lba := CallMkdir(m, DirPath(0));
    ghost var v1, open1 := m.vol.State(), m.open;
    MkdirRoom(v0, open0, 1, 0, r.result, v1, ino, lba);
    MadeFilled(v0, open0, v1, open1, 1, 0);
    FilledMounted(v1, open1, 2, 1);
    DirMadeNames(v0, open0, v1, open1);
    FilledOpen(v0, open0);
    OpenAfter(v0, open0, v1, open1, MakeDir(DirPath(0)), made);
    CurReady(v1, open1, 2, 1);
    FilledDirs(v1, open1, 2);
    ghost var s;
    created, s, dir := CallCreate(m, FilePath(0, 0), true, true);
    ghost var v2, open2 := m.vol.State(), m.open;
    CreateRoom(v1, open1, 2, 1, s.result, v2);
    CreatedFilled(v1, open1, v2, open2, 2, 1);
    FileMadeNames(v1, open1, v2, open2);
    SameOnce(v1, open1, v2, open2, Create(FilePath(0, 0), true, true), created, ROOT, 1);
    OpenAfter(v1, open1, v2, open2, Create(FilePath(0, 0), true, true), created);
    PreparedIs(v2, open2);
  }

  lemma FilledOpen(v: Vol, open: seq<Cached>)
    requires Filled(v, open, 1, 0)
    ensures Mounted(v, open) && OpenNumbers(open) <= {ROOT}
  {
    hide Mounted, NamesOf, FewEntries;
    OnlyRoot(v, open);
  }

  lemma FilledDirs(v: Vol, open: seq<Cached>, t: nat)
    requires Filled(v, open, t, 1) && t > 1
    ensures ROOT in v.dirs
  {
    hide Mounted, NamesOf, FewEntries;
  }

  /** The file has been written to and removed again; its directory is still open. */
  ghost predicate LeftBehind(v: Vol, open: seq<Cached>) {
    && Mounted(v, open) && v.inodes.Keys == RunOf(0, 2) && |v.ibits| == MAX_INODES
    && Holding(NamesOf(v), {}) && !Twice(ViewAt(v, ROOT), 1) && 1 in OpenNumbers(open)
  }

  lemma PreparedParts(v: Vol, open: seq<Cached>)
    requires Prepared(v, open)
    ensures Mounted(v, open) && Inv(v) && 2 in Files(v) && Files(v)[2] == [] && Free(v.bmap) != {} && {ROOT as nat, 1} <= v.dirs
    ensures Holding(NamesOf(v), {FILE}) && OpenNumbers(open) <= {ROOT} && !Twice(ViewAt(v, ROOT), 1) && !Twice(ViewAt(v, 1), 2)
    ensures SearchOf(NamesOf(v), FilePath(0, 0)) == Found(2, 1, false) && LeavesOpen(NamesOf(v), FilePath(0, 0))
    ensures OpensFile(NamesOf(v), FilePath(0, 0)) && GoodPath(FilePath(0, 0))
  {
    hide Mounted, NamesOf, Twice, ViewAt, Files, Free, RunOf, SearchOf, Components, GoodPath, DotsOf, Inv, Space, OpensFile, LeavesOpen,
      TableAgrees, NoStale, Small;
    MountedParts(v, open);
    SpaceOf(v);
    FileFound(NamesOf(v));
    FilePathNames(0, 0);
  }

  lemma OkIs(v: Vol, open: seq<Cached>, w: Vol, now: seq<Cached>, q: Request, o: Outcome)
    requires Stepped(v, open, w, now, q, o) && o.Ok? && (q.Append? || q.Unlink?) && SearchOf(NamesOf(v), q.path) == Found(2, 1, false)
    ensures o == Ok(2) && Mounted(w, now) && Inv(w) && |w.ibits| == |v.ibits|
    ensures Touched(NamesOf(v), q, 2) == if q.Append? then {2} else {1, 2}
  {
    hide Inv, TableAgrees, DeadClear, NoStale, Small, NamesOf, SearchOf, Components, Files, Decided, OthersKept, SameNumbers, FileAtEnd;
  }

  lemma LeftBehindIs(v: Vol, open: seq<Cached>, u: Vol, w: Vol, now: seq<Cached>)
    requires Prepared(v, open) && NamesOf(u) == NamesOf(v) && NamesOf(w).live == NamesOf(u).live - {2} && Mounted(w, now)
    requires Holding(NamesOf(w), {}) && !Twice(ViewAt(w, ROOT), 1) && 1 in OpenNumbers(now) && |w.ibits| == |v.ibits|
    ensures LeftBehind(w, now)
  {
    hide Mounted, NamesOf, Holding, Twice, ViewAt, Files, Free, Inv, TableAgrees, NoStale, Small;
    MountedParts(v, open);
    MountedParts(w, now);
    NamesAre(v);
    NamesAre(w);
    assert RunOf(0, 3) - {2} == RunOf(0, 2);
  }

  lemma SameDirs(v: Vol, w: Vol)
    requires Inv(v) && Inv(w) && NamesOf(v) == NamesOf(w)
    ensures w.dirs == v.dirs
  {
    hide Inv, NamesOf;
    NamesAre(v);
    NamesAre(w);
  }

  /** Appends to the file and removes it. */
  method WriteAndUnlink(m: InodeStore, bytes: seq<Byte>) returns (written: Outcome, unlinked: Outcome)
    requires Prepared(m.vol.State(), m.open) && |bytes| < BLOCK_SIZE
    modifies m`open, m.vol
    ensures written == Ok(2) && unlinked == Ok(2) && LeftBehind(m.vol.State(), m.open)
  {
    hide Inv, TableAgrees, Stepped, SearchOf, NamesOf, Components, GoodPath, Files, Prepared, Free,
      Mounted, Holding, Twice, ViewAt, OpensFile, LeavesOpen, AppendAnswers, LeftBehind, Touched;
    ghost var v2, open2 := m.vol.State(), m.open;
    PreparedParts(v2, open2);
    ghost var w;
    written, w := CallAppend(m, FilePath(0, 0), bytes);
    ghost var v3, open3 := m.vol.State(), m.open;
    ghost var append := Append(FilePath(0, 0), bytes);
    AppendRoom(v2, |bytes|, w);
    OkIs(v2, open2, v3, open3, append, written);
    AppendedNames(v2, open2, v3, open3, bytes);
    SameDirs(v2, v3);
    SameOnce(v2, open2, v3, open3, append, written, ROOT, 1);
    SameOnce(v2, open2, v3, open3, append, written, 1, 2);
    OpenAfter(v2, open2, v3, open3, append, written);
    ghost var r;
    unlinked, r := CallUnlink(m, FilePath(0, 0));
    ghost var v4, open4 := m.vol.State(), m.open;
    ghost var unlink := Unlink(FilePath(0, 0));
    OkIs(v3, open3, v4, open4, unlink, unlinked);
    UnlinkedNames(v3, open3, v4, open4);
    SameOnce(v3, open3, v4, open4, unlink, unlinked, ROOT, 1);
    OpenAfter(v3, open3, v4, open4, unlink, unlinked);
    LeftBehindIs(v2, open2, v3, v4, open4);
  }

  /** Makes a directory, creates a file in it, appends to the file, removes the file and then the directory. All
      goes well but the last: appending has left the directory open, and the copy of its inode outlives it. The
      partition itself is sound; but the next file created gets the number of that copy, and the copy says its first
      block is one that is free. */
  method HeldRun(m: InodeStore, bytes: seq<Byte>, ghost n: nat) returns (os: seq<Outcome>)
    requires Formatted(m.vol.State(), n) && n >= 14 && Mounted(m.vol.State(), m.open) && |bytes| < BLOCK_SIZE
    modifies m`open, m.vol
    ensures os == [Ok(1), Ok(2), Ok(2), Ok(2), Broken]
    ensures Inv(m.vol.State()) && TableAgrees(m.vol.State(), m.open) && m.vol.inodes.Keys == {ROOT as nat} && IsFirstFit(m.vol.ibits, 1, 1)
    ensures !NoStale(m.open, m.vol.inodes) && Find(m.open, 1) < |m.open|
    ensures
      var copy := m.open[Find(m.open, 1)].node;
      && |copy.sectors| == 13 && m.vol.start <= copy.sectors[0] < m.vol.start + |m.vol.bmap|
      && !m.vol.bmap[copy.sectors[0] - m.vol.start]
  {
    hide Formatted, Inv, TableAgrees, Stepped, SearchOf, NamesOf, Components, GoodPath, Prepared, LeftBehind, Mounted, RmdirAnswer,
      IsFirstFit, Find, Freed;
    var made, created := Prepare(m, n);
    var written, unlinked := WriteAndUnlink(m, bytes);
    ghost var v, open := m.vol.State(), m.open;
    LeftBehindParts(v, open);
    var removed;
    ghost var r, held;
    removed, r, held := CallRmdir(m, DirPath(0));
    FirstFreed(v, m.vol.State());
    NextNumber(m.vol.State());
    os := [made, created, written, unlinked, removed];
  }

  /** The same from a raw disk: any partition of 625 sectors or more. */
  method HeldFromScratch(disk: Disk, base: nat, sectors: nat, bytes: seq<Byte>) returns (m: InodeStore, os: seq<Outcome>)
    requires sectors >= FIXED_SECTORS + 14 && base + sectors < 0x8000_0000 && |bytes| < BLOCK_SIZE
    ensures os == [Ok(1), Ok(2), Ok(2), Ok(2), Broken] && 1 !in m.vol.inodes && 1 in OpenNumbers(m.open)
  {
    hide Inv, TableAgrees, Mounted, Formatted, Usable, BlockCount, BitmapSectors, NoStale, Find;
    ghost var len;
    m, len := FormatPartition(disk, base, sectors);
    EnoughBlocks(sectors - FIXED_SECTORS);
    os := HeldRun(m, bytes, Usable(len));
  }

  lemma LeftBehindParts(v: Vol, open: seq<Cached>)
    requires LeftBehind(v, open)
    ensures Mounted(v, open) && v.inodes.Keys - {1} == {ROOT as nat} && |v.ibits| == MAX_INODES && 1 in OpenNumbers(open)
    ensures SearchOf(NamesOf(v), DirPath(0)) == Found(1, ROOT, true) && GoodPath(DirPath(0))
    ensures RmdirAnswer(v, Found(1, ROOT, true), LastName(DirPath(0))).Gone? && 1 in v.dirs && Inv(v)
  {
    hide Mounted, NamesOf, Twice, ViewAt, SearchOf, Components, GoodPath, DotsOf, Inv, Space, LastName, IsEmpty, Find, TableAgrees,
      NoStale, Small, Letter;
    MountedParts(v, open);
    NamesAre(v);
    SpaceOf(v);
    DirFound(NamesOf(v));
    DirPathNames(0);
    HoldsOnlyDots(v);
    NotDot();
    assert RunOf(0, 2) - {1} == {ROOT as nat};
  }

  lemma NotDot()
    ensures [Letter(0)] != "."
  {
    assert [Letter(0)][0] != "."[0];
  }

  lemma FirstFreed(v: Vol, w: Vol)
    requires Inv(v) && 1 in v.dirs && Freed(v, w, 1) && w.start == v.start
    ensures |v.inodes[1].sectors| == 13 && v.inodes[1].sectors[0] != 0 && FreedAt(w, w, v.inodes[1].sectors[0])
  {
    hide Inv, NoClash, NoneHollow, ValidSlots, Total;
    FsOps.IsDirAt(v, 1);
    assert FreedAt(v, w, Place(v.disk, v.inodes[1], 0));
  }

  lemma NextNumber(v: Vol)
    requires Inv(v) && v.inodes.Keys == {ROOT as nat} && |v.ibits| == MAX_INODES
    ensures IsFirstFit(v.ibits, 1, 1)
  {
    hide Inv, FirstClear;
    SoundOf(v);
    assert RunOf(0, 1) == {0};
    FirstUnused(v, 1, FirstClear(v.ibits));
  }
}
