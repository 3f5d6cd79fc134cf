/** A run that gives out inode number 256. */
module FsOverflow {
  import opened Sectors
  import opened FiniteSets
  import opened BitRuns
  import opened Volumes
  import opened DirEntries
  import opened DirViews
  import opened DirStates
  import opened NameTree
  import opened FsStates
  import opened FsProofs
  import FsOps
  import opened OpStates
  import opened Paths
  import opened Namespace
  import opened NamespaceProofs
  import opened NamespaceOps
  import opened PathOps
  import opened Format
  import opened Formatting
  import opened FreshDirs
  import opened InodeRecords
  import opened InodeCache
  import opened InodeCacheProofs
  import opened MountStates
  import opened MountProofs
  import opened FsIdeal
  import opened FsDecided
  import opened FsCallProofs
  import opened FsCalls

  // ---- a directory with few entries has room in its first block ----

  ghost function SlotSet(b: seq<Slot>): set<Slot> {
    set k | 0 <= k < |b| :: b[k]
  }

  lemma {:induction false} DifferentSlots(b: seq<Slot>)
    requires forall k, m :: 0 <= k < m < |b| ==> b[k] != b[m]
    ensures |SlotSet(b)| == |b|
  {
    if b != [] {
      var k := |b| - 1;
      DifferentSlots(b[..k]);
      assert SlotSet(b) == SlotSet(b[..k]) + {b[k]};
      assert b[k] !in SlotSet(b[..k]);
    } else {
      assert SlotSet(b) == {};
    }
  }

  lemma {:induction false} SlotSubset(s: set<Slot>, t: set<Slot>)
    requires s <= t
    ensures |s| <= |t|
  {
    if s != {} {
      var e :| e in s;
      SlotSubset(s - {e}, t - {e});
    }
  }

  lemma FirstBlockFull(w: View, self: nat)
    requires WellFormed(w, self) && forall k :: 0 <= k < |w[0]| ==> Live(w[0][k])
    ensures |LiveSet(w)| >= PER_SECTOR
  {
    hide ValidSlots, NoneHollow, Total;
    forall k, m | 0 <= k < m < |w[0]| ensures w[0][k] != w[0][m] {
      assert LiveAt(w, 0, k) && LiveAt(w, 0, m) && Apart(w, 0, k, 0, m);
    }
    DifferentSlots(w[0]);
    SlotSubset(SlotSet(w[0]), LiveSet(w));
  }

  lemma HasRoomFor(v: Vol, d: nat, free: set<nat>)
    requires Inv(v) && d in v.dirs && d in NamesOf(v).entries && |NamesOf(v).entries[d]| < PER_SECTOR
    ensures InsertOutcome(ViewAt(v, d), free) == Inserted(false)
  {
    hide Sound, Shapes, Tree, RootFirst, LiveSet, ViewOf, ViewAt, NoClash, NoneHollow, ValidSlots, Total;
    FsOps.IsDirAt(v, d);
    var w := DirView(v, d);
    if forall k :: 0 <= k < |w[0]| ==> Live(w[0][k]) {
      FirstBlockFull(w, d);
    }
  }

  // ---- names and paths ----

  function Letter(k: nat): char
    requires k < 26
  {
    (97 + k) as char
  }

  ghost predicate Named(e: Slot, k: nat) {
    k < 26 && e.name == [Letter(k)]
  }

  /** The proper entries of directory `d` have names from the first `k` letters. */
  ghost predicate LettersBelow(n: Names, d: nat, k: nat) {
    forall e :: Entry(n, d, e) && !IsDot(e) ==> exists j: nat :: j < k && Named(e, j)
  }

  lemma LetterUnbound(n: Names, d: nat, k: nat)
    requires LettersBelow(n, d, k) && k < 26
    ensures !Bound(n, d, [Letter(k)])
  {
    forall e | Entry(n, d, e) ensures e.name != [Letter(k)] {
      if !IsDot(e) {
        var j: nat :| j < k && Named(e, j);
        assert e.name[0] == Letter(j);
      } else {
        assert e.name[0] == '.';
      }
    }
  }

  function DirPath(i: nat): string
    requires i < 26
  {
    ['/', Letter(i)]
  }

  function FilePath(i: nat, j: nat): string
    requires i < 26 && j < 26
  {
    ['/', Letter(i), '/', Letter(j)]
  }

  lemma LetterProper(i: nat)
    requires i < 26
    ensures Proper([Letter(i)])
  {
  }

  lemma DirPathNames(i: nat)
    requires i < 26
    ensures Components(DirPath(i)) == [[Letter(i)]] && GoodPath(DirPath(i)) && LastOf(DirPath(i)) == [Letter(i)]
  {
    hide Components;
    var cs := [[Letter(i)]];
    LetterProper(i);
    assert cs[..0] == [];
    assert Join(cs) == Join(cs[..0]) + "/" + [Letter(i)] == DirPath(i);
    RenderJoin(cs);
    RenderRoundTrip(cs);
  }

  lemma FilePathNames(i: nat, j: nat)
    requires i < 26 && j < 26
    ensures Components(FilePath(i, j)) == [[Letter(i)], [Letter(j)]] && GoodPath(FilePath(i, j))
    ensures LastOf(FilePath(i, j)) == [Letter(j)]
  {
    hide Components;
    var cs := [[Letter(i)], [Letter(j)]];
    LetterProper(i);
    LetterProper(j);
    assert cs[..1] == [[Letter(i)]] && cs[..1][..0] == [];
    assert Join(cs[..1]) == Join(cs[..1][..0]) + "/" + [Letter(i)] == ['/', Letter(i)];
    assert Join(cs) == Join(cs[..1]) + "/" + [Letter(j)] == FilePath(i, j);
    RenderJoin(cs);
    RenderRoundTrip(cs);
  }

  lemma DirPathLost(n: Names, i: nat)
    requires LettersBelow(n, ROOT, i) && i < 26
    ensures SearchOf(n, DirPath(i)) == Lost(ROOT, 1) && |Components(DirPath(i))| == 1
  {
    hide Components, LettersBelow, Bound;
    DirPathNames(i);
    LetterUnbound(n, ROOT, i);
  }

  lemma FilePathLost(n: Names, i: nat, j: nat, cur: Word)
    requires Space(n) && i < 26 && j < 26 && Entry(n, ROOT, Slot([Letter(i)], cur, FT_DIRECTORY)) && LettersBelow(n, cur, j)
    ensures SearchOf(n, FilePath(i, j)) == Lost(cur, 2) && |Components(FilePath(i, j))| == 2
  {
    hide Components, LettersBelow, Bound, Tree, AllDots;
    FilePathNames(i, j);
    BindingIs(n, ROOT, Slot([Letter(i)], cur, FT_DIRECTORY));
    LetterUnbound(n, cur, j);
    var cs, more := [[Letter(i)], [Letter(j)]], [[Letter(j)]];
    assert cs[1..] == more;
    assert Walk(n, cur, ROOT, more, 1) == Lost(cur, 2);
    assert Walk(n, ROOT, ROOT, cs, 0) == Walk(n, cur, ROOT, more, 1);
  }

  // ---- the run ----

  /** Directories made, and files in the last of them, when `t` inodes are in use: every directory gets
      nineteen files before the next is made. */
  function DirsAt(t: nat): nat {
    (t + 18) / 20
  }

  function FilesAt(t: nat): nat {
    if t < 2 then 0 else (t - 2) % 20
  }

  /** The name of the last directory made, and of the next file in it, when `t` inodes are in use. */
  function LastDir(t: nat): (i: nat)
    ensures i < 26
  {
    if 2 <= t <= 0x100 then DirsAt(t) - 1 else 0
  }

  function NextFile(t: nat): (j: nat)
    ensures j < 26
  {
    FilesAt(t)
  }

  function NextPath(t: nat): string {
    FilePath(LastDir(t), NextFile(t))
  }

  function LastEntry(t: nat, cur: Word): Slot {
    Slot([Letter(LastDir(t))], cur, FT_DIRECTORY)
  }

  /** How the two counters move. */
  lemma Counters(t: nat)
    requires 1 <= t <= 0x100
    ensures DirsAt(t) <= 13 && ((t - 1) % 20 == 0 ==> DirsAt(t) < 13 && DirsAt(t + 1) == DirsAt(t) + 1 && FilesAt(t + 1) == 0)
    ensures t > 1 ==> LastDir(t) == DirsAt(t) - 1
    ensures t < 0x100 ==> LastDir(t + 1) == DirsAt(t + 1) - 1
    ensures (t - 1) % 20 != 0 ==> t > 1 && FilesAt(t) < 19 && DirsAt(t + 1) == DirsAt(t) && FilesAt(t + 1) == FilesAt(t) + 1
  {
  }

  lemma StartCounters()
    ensures DirsAt(1) == 0 && FilesAt(1) == 0
  {
  }

  ghost predicate FewEntries(n: Names, d: nat, k: nat) {
    d in n.entries && |n.entries[d]| <= 2 + k && LettersBelow(n, d, k)
  }

  /** The numbers in use are those below `t`; `cur` is the directory made last. */
  ghost predicate Filled(v: Vol, open: seq<Cached>, t: nat, cur: Word) {
    && 1 <= t <= 0x100 && Mounted(v, open) && v.inodes.Keys == RunOf(0, t) && |v.ibits| == MAX_INODES
    && |Free(v.bmap)| + DirsAt(t) >= 13 && FewEntries(NamesOf(v), ROOT, DirsAt(t)) && ROOT in v.dirs
    && (t > 1 ==>
          && cur in v.dirs && cur != ROOT && FewEntries(NamesOf(v), cur, NextFile(t))
          && Entry(NamesOf(v), ROOT, LastEntry(t, cur)))
  }

  lemma FirstUnused(v: Vol, t: nat, ino: int)
    requires Sound(v) && v.inodes.Keys == RunOf(0, t) && t < |v.ibits| && IsFirstFit(v.ibits, 1, ino)
    ensures ino == t && t in Free(v.ibits)
  {
    hide Owns, BitsMatch;
    assert t !in v.inodes && !v.ibits[t] && ClearRun(v.ibits, t, 1);
    forall s: nat | s < t ensures !ClearRun(v.ibits, s, 1) {
      assert s in v.inodes && v.ibits[s];
    }
  }

  lemma MoreLetters(n: Names, m: Names, d: nat, k: nat, e: Slot)
    requires FewEntries(n, d, k) && k < 26 && e.name == [Letter(k)] && d in m.entries && m.entries[d] == n.entries[d] + {e}
    ensures FewEntries(m, d, k + 1)
  {
    forall f | Entry(m, d, f) && !IsDot(f) ensures exists j: nat :: j < k + 1 && Named(f, j) {
      if f == e {
        assert Named(f, k);
      } else {
        assert Entry(n, d, f);
        var j: nat :| j < k && Named(f, j);
        assert j < k + 1 && Named(f, j);
      }
    }
  }

  lemma OnlyDots(n: Names, d: Word, parent: Word)
    requires d in n.entries && n.entries[d] == DotsOf(d, parent)
    ensures FewEntries(n, d, 0)
  {
    assert forall e :: e in DotsOf(d, parent) ==> IsDot(e);
    assert |DotsOf(d, parent)| <= 2;
  }

  lemma RunMore(t: nat)
    ensures RunOf(0, t + 1) == RunOf(0, t) + {t}
  {
  }

  lemma NamesAre(v: Vol)
    requires Inv(v)
    ensures NamesOf(v).live == v.inodes.Keys && NamesOf(v).dirs == v.dirs && NamesOf(v).entries.Keys == v.dirs
  {
    hide Inv, NamesOf;
    DirsOf(v);
    EntriesAre(v);
  }

  lemma RootLost(n: Names, i: nat)
    requires FewEntries(n, ROOT, i) && i < 26
    ensures SearchOf(n, DirPath(i)) == Lost(ROOT, 1) && |Components(DirPath(i))| == 1
  {
    hide Components, LettersBelow, SearchOf;
    DirPathLost(n, i);
  }

  lemma MadeFilled(v: Vol, open: seq<Cached>, w: Vol, now: seq<Cached>, t: Word, cur: Word)
    requires Filled(v, open, t, cur) && (t - 1) % 20 == 0 && t < 0x100 && |Free(w.bmap)| == |Free(v.bmap)| - 1
    requires Stepped(v, open, w, now, MakeDir(DirPath(DirsAt(t))), Ok(t))
    ensures Filled(w, now, t + 1, t)
  {
    hide Inv, NamesOf, LettersBelow, Free, RunOf, SearchOf, Components, Files, FewEntries, DotsOf, DirsAt, FilesAt, LastDir, Fits, Done,
      Entry, Mounted, Decided, ListNow, Touched, OthersKept, SameNumbers, TableAgrees, DeadClear, NoStale, Small;
    FilledMounted(v, open, t, cur);
    MountedParts(v, open);
    MountedParts(w, now);
    Counters(t);
    var i := DirsAt(t);
    NamesAre(v);
    NamesAre(w);
    RunMore(t);
    DirPathNames(i);
    RootLost(NamesOf(v), i);
    MadeNames(v, w, t, i);
  }

  lemma MadeNames(v: Vol, w: Vol, t: Word, i: nat)
    requires i < 26 && FewEntries(NamesOf(v), ROOT, i) && Fits(Abs(v), MakeDir(DirPath(i)), t)
    requires Abs(w) == Done(Abs(v), MakeDir(DirPath(i)), t) && LastOf(DirPath(i)) == [Letter(i)]
    requires SearchOf(NamesOf(v), DirPath(i)).dir == ROOT && t != ROOT
    ensures FewEntries(NamesOf(w), ROOT, i + 1) && FewEntries(NamesOf(w), t, 0)
    ensures Entry(NamesOf(w), ROOT, Slot([Letter(i)], t, FT_DIRECTORY))
    ensures NamesOf(w).live == NamesOf(v).live + {t} && NamesOf(w).dirs == NamesOf(v).dirs + {t}
  {
    hide NamesOf, LettersBelow, SearchOf, Components, Files, FewEntries, DotsOf, LastOf;
    var e := Slot([Letter(i)], t, FT_DIRECTORY);
    var n, m := NamesOf(v), NamesOf(w);
    assert m == WithDir(n, ROOT, e);
    MoreLetters(n, m, ROOT, i, e);
    OnlyDots(m, t, ROOT);
  }

  lemma CurLost(v: Vol, t: nat, cur: Word)
    requires Inv(v) && 2 <= t <= 0x100 && FewEntries(NamesOf(v), cur, NextFile(t))
    requires Entry(NamesOf(v), ROOT, LastEntry(t, cur))
    ensures SearchOf(NamesOf(v), NextPath(t)) == Lost(cur, 2)
    ensures |Components(NextPath(t))| == 2
  {
    hide Inv, NamesOf, Components, LettersBelow, SearchOf, Space;
    SpaceOf(v);
    FilePathLost(NamesOf(v), LastDir(t), NextFile(t), cur);
  }

  lemma CreatedFilled(v: Vol, open: seq<Cached>, w: Vol, now: seq<Cached>, t: Word, cur: Word)
    requires Filled(v, open, t, cur) && (t - 1) % 20 != 0 && t < 0x100 && w.bmap == v.bmap
    requires Stepped(v, open, w, now, Create(NextPath(t), true, true), Ok(t))
    ensures Filled(w, now, t + 1, cur)
  {
    hide Inv, NamesOf, LettersBelow, Free, RunOf, SearchOf, Components, Files, FewEntries, DotsOf, DirsAt, FilesAt, LastDir, Fits, Done,
      Entry, Mounted, Decided, ListNow, Touched, OthersKept, SameNumbers, TableAgrees, DeadClear, NoStale, Small;
    FilledMounted(v, open, t, cur);
    MountedParts(v, open);
    MountedParts(w, now);
    Counters(t);
    var i, j := LastDir(t), NextFile(t);
    NamesAre(v);
    NamesAre(w);
    RunMore(t);
    FilePathNames(i, j);
    CurLost(v, t, cur);
    CreatedNames(v, w, t, i, j, cur, Slot([Letter(i)], cur, FT_DIRECTORY));
  }

  lemma CreatedNames(v: Vol, w: Vol, t: Word, i: nat, j: nat, cur: Word, e0: Slot)
    requires i < 25 && j < 26 && FewEntries(NamesOf(v), ROOT, i + 1) && FewEntries(NamesOf(v), cur, j) && cur != ROOT
    requires Fits(Abs(v), Create(FilePath(i, j), true, true), t)
    requires Abs(w) == Done(Abs(v), Create(FilePath(i, j), true, true), t) && LastOf(FilePath(i, j)) == [Letter(j)]
    requires SearchOf(NamesOf(v), FilePath(i, j)).dir == cur
    ensures FewEntries(NamesOf(w), ROOT, i + 1) && FewEntries(NamesOf(w), cur, j + 1)
    ensures Entry(NamesOf(v), ROOT, e0) ==> Entry(NamesOf(w), ROOT, e0)
    ensures NamesOf(w).live == NamesOf(v).live + {t} && NamesOf(w).dirs == NamesOf(v).dirs
  {
    hide NamesOf, SearchOf, Components, Files, LastOf;
    var e := Slot([Letter(j)], t, FT_REGULAR);
    var n, m := NamesOf(v), NamesOf(w);
    assert m == WithFile(n, cur, e);
    assert m.entries[ROOT] == n.entries[ROOT];
    assert forall f :: Entry(m, ROOT, f) <==> Entry(n, ROOT, f);
    hide FewEntries, LettersBelow;
    MoreLetters(n, m, cur, j, e);
  }

  lemma FormattedFilled(v: Vol, open: seq<Cached>, n: nat)
    requires Formatted(v, n) && n >= 14 && Mounted(v, open)
    ensures Filled(v, open, 1, 0)
  {
    hide Inv, NamesOf, LettersBelow, TableAgrees, DeadClear, NoStale, Small, DotSector, FewEntries, LiveSet, DotView;
    FormattedEntries(v, n);
    OnlyDots(NamesOf(v), ROOT, ROOT);
    FormattedFree(v, n);
    assert RunOf(0, 1) == {0};
  }

  lemma FormattedEntries(v: Vol, n: nat)
    requires Formatted(v, n)
    ensures ROOT in NamesOf(v).entries && NamesOf(v).entries[ROOT] == DotsOf(ROOT, ROOT)
  {
    hide DotSector, DotView, LiveSet, ViewAt, DotsOf;
    FormattedView(v, n);
    DotSet(ROOT, ROOT);
  }

  lemma FormattedFree(v: Vol, n: nat)
    requires Formatted(v, n)
    ensures |Free(v.bmap)| == n - 1
  {
    hide DotSector;
    ClearCount(v.bmap, {0});
  }

  lemma MkdirRoom(v: Vol, open: seq<Cached>, t: nat, cur: Word, r: MkdirResult, w: Vol, ino: Word, lba: nat)
    requires Filled(v, open, t, cur) && DirsAt(t) < 13 && MkdirAnswers(v, w, ROOT, r, ino, lba)
    ensures r == DirMade(t) && |Free(w.bmap)| == |Free(v.bmap)| - 1 && !Twice(ViewAt(w, ROOT), t)
  {
    hide Inv, LettersBelow, TableAgrees, DeadClear, NoStale, Small, InsertOutcome, ViewAt, NamesOf, Free, IsFirstFit, Twice;
    SoundOf(v);
    NamesAre(v);
    HasRoomFor(v, ROOT, Free(v.bmap) - {lba - v.start});
    assert Free(v.bmap) != {};
    SomeUnused(v, t);
    FirstUnused(v, t, ino);
    hide Filled;
    OneLess(v.bmap, lba - v.start);
  }

  lemma OneLess(b: seq<bool>, k: nat)
    requires IsFirstFit(b, 1, k)
    ensures k < |b| && |Free(b[k := true])| == |Free(b)| - 1
  {
    hide Free;
    FirstFitClear(b, k);
    TakeFree(b, k);
  }

  lemma SomeUnused(v: Vol, t: nat)
    requires Sound(v) && v.inodes.Keys == RunOf(0, t) && t < |v.ibits|
    ensures Free(v.ibits) != {}
  {
    hide Owns, BitsMatch;
    assert t !in v.inodes && t in Free(v.ibits);
  }

  lemma FirstFitClear(b: seq<bool>, k: nat)
    requires IsFirstFit(b, 1, k)
    ensures k < |b| && !b[k]
  {
  }

  lemma CreateRoom(v: Vol, open: seq<Cached>, t: nat, cur: Word, r: CreateResult, w: Vol)
    requires Filled(v, open, t, cur) && t > 1 && FilesAt(t) < 19 && CreateOutcome(v, w, cur, true, true, r)
    ensures r == CreateResult.Made(t) && w.bmap == v.bmap && !Twice(ViewAt(w, cur), t)
  {
    hide Inv, LettersBelow, TableAgrees, DeadClear, NoStale, Small, InsertOutcome, ViewAt, NamesOf, Free, IsFirstFit, Twice;
    SoundOf(v);
    NamesAre(v);
    HasRoomFor(v, cur, Free(v.bmap));
    SomeUnused(v, t);
    FirstUnused(v, t, r.ino);
  }

  /** On a new partition of at least fourteen blocks: thirteen directories under the root, nineteen files in
      each but the last. The fifteenth file of the last is given number 256; its inode is written over the
      record of the root directory, and the inode table no longer agrees. */
  method Reach256(m: InodeStore, ghost n: nat)
    requires Formatted(m.vol.State(), n) && n >= 14 && Mounted(m.vol.State(), m.open)
    modifies m`open, m.vol
    ensures Inv(m.vol.State()) && 0x100 in m.vol.inodes && !TableAgrees(m.vol.State(), m.open)
    ensures TABLE_SECTORS <= m.vol.start && Load(m.vol.disk, m.vol.start - TABLE_SECTORS, ROOT).no == 0x100
  {
    hide Formatted, Filled, Inv, TableAgrees, Stepped, MkdirAnswers, CreateOutcome, SearchOf, NamesOf, Components, GoodPath, Load,
      MissingLastOf, Mounted, DirsAt, FilesAt, LastDir;
    StartCounters();
    FormattedFilled(m.vol.State(), m.open, n);
    FilledMounted(m.vol.State(), m.open, 1, 0);
    var t, i, j := 1, 0, 0;
    ghost var cur: Word := 0;
    while t < 0x100
      invariant 1 <= t <= 0x100 && Filled(m.vol.State(), m.open, t, cur) && Mounted(m.vol.State(), m.open)
      invariant i == DirsAt(t) && j == FilesAt(t)
    {
      ghost var v, open := m.vol.State(), m.open;
      Counters(t);
      var o;
      if (t - 1) % 20 == 0 {
        ghost var r, dir, ino, lba;
        RootReady(v, open, t, cur);
        o, r, dir, ino, lba := CallMkdir(m, DirPath(i));
        MkdirRoom(v, open, t, cur, r.result, m.vol.State(), ino, lba);
        MadeFilled(v, open, m.vol.State(), m.open, t, cur);
        cur, i, j := t, i + 1, 0;
      } else {
        ghost var r, dir;
        CurReady(v, open, t, cur);
        o, r, dir := CallCreate(m, FilePath(i - 1, j), true, true);
        CreateRoom(v, open, t, cur, r.result, m.vol.State());
        CreatedFilled(v, open, m.vol.State(), m.open, t, cur);
        j := j + 1;
      }
      t := t + 1;
      FilledMounted(m.vol.State(), m.open, t, cur);
    }
    ghost var v, open := m.vol.State(), m.open;
    Counters(t);
    CurReady(v, open, t, cur);
    ghost var r, dir;
    var o;
    o, r, dir := CallCreate(m, FilePath(i - 1, j), true, true);
    CreateRoom(v, open, t, cur, r.result, m.vol.State());
  }

  lemma EnoughBlocks(free: nat)
    requires free >= 14
    ensures BlockCount(free) >= 8 && Usable(BlockCount(free)) >= 14
  {
  }

  /** The same from a raw disk: any partition of 625 sectors or more. */
  method Reach256FromScratch(disk: Disk, base: nat, sectors: nat) returns (m: InodeStore)
    requires sectors >= FIXED_SECTORS + 14 && base + sectors < 0x8000_0000
    ensures Inv(m.vol.State()) && 0x100 in m.vol.inodes && !TableAgrees(m.vol.State(), m.open)
  {
    hide Inv, TableAgrees, Mounted, Formatted, Usable, BlockCount, BitmapSectors, Load;
    ghost var len;
    m, len := FormatPartition(disk, base, sectors);
    EnoughBlocks(sectors - FIXED_SECTORS);
    Reach256(m, Usable(len));
  }

  lemma FilledMounted(v: Vol, open: seq<Cached>, t: nat, cur: Word)
    requires Filled(v, open, t, cur)
    ensures Mounted(v, open)
  {
    hide Mounted;
  }

  lemma RootReady(v: Vol, open: seq<Cached>, t: nat, cur: Word)
    requires Filled(v, open, t, cur) && DirsAt(t) < 26
    ensures MissingLastOf(NamesOf(v), DirPath(DirsAt(t))) && SearchOf(NamesOf(v), DirPath(DirsAt(t))) == Lost(ROOT, 1)
    ensures GoodPath(DirPath(DirsAt(t))) && |Components(DirPath(DirsAt(t)))| == 1
  {
    hide Mounted, NamesOf, SearchOf, Components, GoodPath, FewEntries;
    DirPathNames(DirsAt(t));
    RootLost(NamesOf(v), DirsAt(t));
  }

  lemma CurReady(v: Vol, open: seq<Cached>, t: nat, cur: Word)
    requires Filled(v, open, t, cur) && 1 < t
    ensures
      var path := NextPath(t);
      && MissingLastOf(NamesOf(v), path) && SearchOf(NamesOf(v), path) == Lost(cur, 2) && GoodPath(path) && |Components(path)| == 2
      && path[|path| - 1] != '/'
  {
    hide NamesOf, SearchOf, Components, GoodPath, FewEntries, Inv, TableAgrees, DeadClear, NoStale, Small;
    FilePathNames(LastDir(t), NextFile(t));
    CurLost(v, t, cur);
  }
}
