/** Each call, with the writing of the inode table that ends it, does what it is meant to do. */
module FsCallProofs {
  import opened Sectors
  import opened Volumes
  import opened FileIO
  import opened FileAppend
  import opened DirEntries
  import opened DirViews
  import opened DirStates
  import opened NameTree
  import opened FsStates
  import opened FsProofs
  import FsOps
  import opened OpStates
  import opened Paths
  import opened Namespace
  import opened NamespaceProofs
  import opened NamespaceOps
  import opened PathOps
  import opened InodeRecords
  import opened InodeCache
  import opened InodeCacheProofs
  import opened MountStates
  import opened MountProofs
  import opened FsIdeal
  import opened FsDecided

  /** A call comes to what the state before it decides. If that breaks nothing, the call has its meaning and
      leaves the partition mounted. What is refused changes nothing, and what is done changes no other inode. */
  ghost predicate Stepped(v: Vol, open: seq<Cached>, w: Vol, now: seq<Cached>, q: Request, o: Outcome) {
    && o == Decided(v, open, q)
    && (!o.Broken? ==>
          && Mounted(w, now) && |w.ibits| == |v.ibits| && SameNumbers(ListNow(v, open, q), now)
          && Right(Abs(v), q, o) && Abs(w) == Effect(Abs(v), q, o))
    && (o.Refused? ==> w == v && now == ListNow(v, open, q))
    && (o.Ok? ==> OthersKept(v, w, Touched(NamesOf(v), q, o.ino)))
  }

  lemma KeptPast(v: Vol, w: Vol, x: Vol, but: set<nat>)
    requires OthersKept(v, w, but) && OthersKept(w, x, {})
    ensures OthersKept(v, x, but)
  {
    hide Untouched;
    forall q ensures KeptAt(v, x, but, q) {
      assert KeptAt(v, w, but, q) && KeptAt(w, x, {}, q);
      if q in v.inodes && q !in but {
        FsOps.SameINode(v, w, q);
        UntouchedTrans(v, w, x, q);
      }
    }
  }

  /** From `v` a call has led to `w`, and writing the table to `x`; `touched` are the records written. */
  ghost predicate WroteTable(v: Vol, w: Vol, x: Vol, open: seq<Cached>, now: seq<Cached>, touched: set<nat>) {
    && SamePlan(v, w) && TableOnly(w, x) && TABLE_SECTORS <= v.start
    && Agree(InodesOf(x, now), w.inodes, {}) && SameNumbers(open, now)
    && SameRecords(v.disk, x.disk, v.start - TABLE_SECTORS, touched)
  }

  /** Numbers that have gone were written last with zeros, and were not open. */
  ghost predicate Cleared(v: Vol, w: Vol, x: Vol, open: seq<Cached>, touched: set<nat>)
    requires TABLE_SECTORS <= v.start
  {
    && (forall p :: p in touched && p !in w.inodes && p < MAX_INODES ==> RecordAt(x.disk, v.start - TABLE_SECTORS, p) == Zeros(RECORD))
    && (forall p :: p in v.inodes && p !in w.inodes ==> p in touched)
    && (forall k :: 0 <= k < |open| && open[k].node.no in v.inodes ==> open[k].node.no in w.inodes)
  }

  lemma MountedAfter(v: Vol, w: Vol, x: Vol, open: seq<Cached>, now: seq<Cached>, touched: set<nat>)
    requires Mounted(v, open) && Inv(w) && WroteTable(v, w, x, open, now, touched) && Cleared(v, w, x, open, touched)
    requires Small(w.inodes)
    ensures Mounted(x, now) && NamesOf(x) == NamesOf(w) && OthersKept(w, x, {}) && |x.ibits| == |v.ibits|
  {
    hide Inv, Agree, SamePlan, SameRecords, NamesOf, OthersKept, Small, RecordAt;
    TableInv(w, x);
    PlanStart(v, w);
    forall p: nat ensures ClearAt(x, p) {
      assert ClearAt(v, p);
      if p < MAX_INODES {
        RecordSame(v, x, touched, p);
      }
    }
    StaleKept(open, now, v.inodes, w.inodes);
  }

  lemma PlanStart(v: Vol, w: Vol)
    requires SamePlan(v, w)
    ensures w.start == v.start && |w.ibits| == |v.ibits|
  {
  }

  lemma RecordSame(v: Vol, x: Vol, touched: set<nat>, p: nat)
    requires TABLE_SECTORS <= v.start && SameRecords(v.disk, x.disk, v.start - TABLE_SECTORS, touched) && p < MAX_INODES
    ensures p !in touched ==> RecordAt(x.disk, v.start - TABLE_SECTORS, p) == RecordAt(v.disk, v.start - TABLE_SECTORS, p)
  {
    hide RecordAt;
    assert SameRecord(v.disk, x.disk, v.start - TABLE_SECTORS, touched, p);
  }

  // ---- bytes ----

  lemma KeptBytes(v: Vol, w: Vol, but: set<nat>, f: nat)
    requires Inv(v) && f in v.inodes && f !in v.dirs && OthersKept(v, w, but) && f !in but
    ensures Bytes(w, f) == Bytes(v, f)
  {
    hide Sound, Tree, NamesOf, RootFirst, Content;
    assert ShapeOk(v, f) && KeptAt(v, w, but, f);
    FileSize(v, f);
    UntouchedContent(v, w, f);
  }

  lemma AppendedBytes(v: Vol, w: Vol, f: nat, bytes: seq<Byte>)
    requires Appended(v, w, f, bytes)
    ensures Bytes(w, f) == Bytes(v, f) + bytes
  {
    hide Content, Sound;
    FileSize(v, f);
    FileSize(w, f);
  }

  lemma SameFiles(a: map<nat, seq<Byte>>, b: map<nat, seq<Byte>>)
    requires a.Keys == b.Keys && forall f :: f in a.Keys ==> a[f] == b[f]
    ensures a == b
  {
  }

  /** Writing the table leaves the files alone. */
  lemma TableFiles(w: Vol, x: Vol)
    requires Inv(w) && OthersKept(w, x, {}) && x.inodes == w.inodes && x.dirs == w.dirs
    ensures Files(x) == Files(w)
  {
    hide Inv, OthersKept, Bytes;
    forall f | f in Files(w) ensures Files(x)[f] == Files(w)[f] {
      KeptBytes(w, x, {}, f);
    }
    SameFiles(Files(x), Files(w));
  }

  /** The files a call leaves alone. */
  lemma KeptFile(v: Vol, w: Vol, but: set<nat>, f: nat)
    requires Inv(v) && OthersKept(v, w, but) && f in Files(v) && f in Files(w) && f !in but
    ensures Files(w)[f] == Files(v)[f]
  {
    hide Inv, OthersKept, Bytes;
    KeptBytes(v, w, but, f);
  }

  // ---- what the calls mean ----

  lemma CreateFiles(v: Vol, w: Vol, dir: nat, e: Slot)
    requires Inv(v) && Created(v, w, dir, e)
    ensures Files(w) == Files(v)[e.ino := []]
  {
    hide Created, Inv, OthersKept, Bytes;
    CreatedKeys(v, w, dir, e);
    forall f | f in Files(w) ensures Files(w)[f] == Files(v)[e.ino := []][f] {
      if f != e.ino {
        KeptFile(v, w, {dir}, f);
      }
    }
    SameFiles(Files(w), Files(v)[e.ino := []]);
  }

  lemma CreateMeans(v: Vol, w: Vol, x: Vol, q: Request, dir: nat, e: Slot)
    requires Inv(v) && Created(v, w, dir, e) && Inv(w) && OthersKept(w, x, {}) && NamesOf(x) == NamesOf(w)
    requires x.inodes == w.inodes && x.dirs == w.dirs && q.Create? && Components(q.path) != []
    requires SearchOf(NamesOf(v), q.path) == Lost(dir, |Components(q.path)|) && e == Slot(LastOf(q.path), e.ino, FT_REGULAR)
    ensures Fits(Abs(v), q, e.ino) && Abs(x) == Done(Abs(v), q, e.ino)
  {
    hide Created, Inv, OthersKept, Bytes, SearchOf, Components, NamesOf, Files, WithFile;
    CreatedKeys(v, w, dir, e);
    CreatedInv(v, w, dir, e);
    DirsOf(v);
    EntriesAre(v);
    SmallNumber(v, dir);
    TableFiles(w, x);
    CreateFiles(v, w, dir, e);
  }

  lemma CreatedKeys(v: Vol, w: Vol, dir: nat, e: Slot)
    requires Inv(v) && Created(v, w, dir, e)
    ensures w.inodes.Keys == v.inodes.Keys + {e.ino} && w.dirs == v.dirs && e.ino !in v.inodes && e.ino !in v.dirs
    ensures dir in v.dirs && v.dirs <= v.inodes.Keys && OthersKept(v, w, {dir}) && Bytes(w, e.ino) == []
  {
    hide Shapes, Tree, NamesOf, RootFirst, Owns, BitsMatch, IsDir, Gains, OthersKept, ViewAt, SameFirst, FileShape, SamePlan;
  }

  lemma MakeDirFiles(v: Vol, w: Vol, dir: Word, e: Slot)
    requires Inv(v) && MadeDir(v, w, dir, e)
    ensures Files(w) == Files(v)
  {
    hide MadeDir, Inv, OthersKept, Bytes;
    MadeDirKeys(v, w, dir, e);
    forall f | f in Files(w) ensures Files(w)[f] == Files(v)[f] {
      KeptFile(v, w, {dir as nat}, f);
    }
    SameFiles(Files(w), Files(v));
  }

  lemma MakeDirMeans(v: Vol, w: Vol, x: Vol, q: Request, dir: Word, e: Slot)
    requires Inv(v) && MadeDir(v, w, dir, e) && Inv(w) && OthersKept(w, x, {}) && NamesOf(x) == NamesOf(w)
    requires x.inodes == w.inodes && x.dirs == w.dirs && q.MakeDir? && Components(q.path) != []
    requires SearchOf(NamesOf(v), q.path) == Lost(dir, |Components(q.path)|) && e == Slot(LastOf(q.path), e.ino, FT_DIRECTORY)
    ensures Fits(Abs(v), q, e.ino) && Abs(x) == Done(Abs(v), q, e.ino)
  {
    hide MadeDir, Inv, OthersKept, Bytes, SearchOf, Components, NamesOf, Files, WithDir;
    MadeDirKeys(v, w, dir, e);
    MadeDirInv(v, w, dir, e);
    DirsOf(v);
    EntriesAre(v);
    SmallNumber(v, dir);
    TableFiles(w, x);
    MakeDirFiles(v, w, dir, e);
  }

  lemma MadeDirKeys(v: Vol, w: Vol, dir: Word, e: Slot)
    requires Inv(v) && MadeDir(v, w, dir, e)
    ensures w.inodes.Keys == v.inodes.Keys + {e.ino} && w.dirs == v.dirs + {e.ino} && e.ino !in v.inodes && e.ino !in v.dirs
    ensures dir in v.dirs && v.dirs <= v.inodes.Keys && OthersKept(v, w, {dir as nat})
  {
    hide Shapes, Tree, NamesOf, RootFirst, Owns, BitsMatch, IsDir, Gains, OthersKept, ViewAt, SameFirst, SamePlan, LiveSet,
      DotDot, DotsOf;
  }

  lemma AppendFiles(v: Vol, w: Vol, f: nat, bytes: seq<Byte>)
    requires Inv(v) && Appended(v, w, f, bytes)
    ensures f in Files(v) && Files(w) == Files(v)[f := Files(v)[f] + bytes]
  {
    hide Appended, Inv, OthersKept, Bytes;
    AppendedKeys(v, w, f, bytes);
    AppendedBytes(v, w, f, bytes);
    var goal := Files(v)[f := Files(v)[f] + bytes];
    forall g | g in Files(w) ensures Files(w)[g] == goal[g] {
      if g != f {
        KeptFile(v, w, {f}, g);
      }
    }
    SameFiles(Files(w), goal);
  }

  lemma AppendMeans(v: Vol, w: Vol, x: Vol, q: Request, f: Word)
    requires Inv(v) && q.Append? && Appended(v, w, f, q.bytes) && Inv(w) && OthersKept(w, x, {}) && NamesOf(x) == NamesOf(w)
    requires x.inodes == w.inodes && x.dirs == w.dirs
    requires var s := SearchOf(NamesOf(v), q.path); s.Found? && !s.isDir && s.ino == f && FileAtEnd(NamesOf(v), Components(q.path), s)
    ensures Fits(Abs(v), q, f) && Abs(x) == Done(Abs(v), q, f)
  {
    hide Appended, Inv, OthersKept, Bytes, SearchOf, Components, NamesOf, FileAtEnd, Files;
    AppendedInv(v, w, f, q.bytes);
    TableFiles(w, x);
    AppendFiles(v, w, f, q.bytes);
  }

  lemma AppendedKeys(v: Vol, w: Vol, f: nat, bytes: seq<Byte>)
    requires Inv(v) && Appended(v, w, f, bytes)
    ensures w.inodes.Keys == v.inodes.Keys && w.dirs == v.dirs && f in v.inodes && f !in v.dirs && f < 4096
    ensures OthersKept(v, w, {f})
  {
    AppendedKeeps(v, w, f, bytes);
    hide Shapes, Tree, NamesOf, RootFirst, Owns, BitsMatch, OthersKept, Content, FileShape, SamePlan, Untouched;
  }

  lemma UnlinkFiles(v: Vol, w: Vol, dir: nat, e: Slot)
    requires Inv(v) && Unlinked(v, w, dir, e)
    ensures Files(w) == Files(v) - {e.ino as nat}
  {
    hide Unlinked, Inv, OthersKept, Bytes, ViewAt, Has;
    UnlinkedKeys(v, w, dir, e);
    forall f | f in Files(w) ensures Files(w)[f] == Files(v)[f] {
      KeptFile(v, w, {dir, e.ino as nat}, f);
    }
    SameFiles(Files(w), Files(v) - {e.ino as nat});
  }

  lemma UnlinkMeans(v: Vol, w: Vol, x: Vol, q: Request, dir: nat, e: Slot)
    requires Inv(v) && Unlinked(v, w, dir, e) && Inv(w) && OthersKept(w, x, {}) && NamesOf(x) == NamesOf(w)
    requires x.inodes == w.inodes && x.dirs == w.dirs && q.Unlink?
    requires SearchOf(NamesOf(v), q.path) == Found(e.ino, dir, false)
    ensures Fits(Abs(v), q, e.ino) && Abs(x) == Done(Abs(v), q, e.ino)
  {
    hide Unlinked, Inv, OthersKept, Bytes, SearchOf, NamesOf, Files, WithoutFile, ViewAt, Has, NamedBy;
    UnlinkedKeys(v, w, dir, e);
    EntryIs(v, dir, e);
    UnlinkedInv(v, w, dir, e);
    TableFiles(w, x);
    UnlinkFiles(v, w, dir, e);
  }

  /** The entry that names an inode is the only one. */
  lemma EntryIs(v: Vol, dir: nat, e: Slot)
    requires Inv(v) && dir in v.dirs && Has(ViewAt(v, dir), e) && !IsDot(e)
    ensures dir in NamesOf(v).entries && NamedBy(NamesOf(v), dir, e.ino) && EntryFor(NamesOf(v), dir, e.ino) == e
    ensures e.ino in v.inodes && e.ino != ROOT && (e.ftype == FT_DIRECTORY <==> e.ino in v.dirs)
  {
    hide Sound, Shapes, RootFirst, NamesOf, ViewAt, Has, AllNamed, ParentsOk, Acyclic;
    EntriesAre(v);
    DirsOf(v);
    var n := NamesOf(v);
    assert Entry(n, dir, e) && EntryOk(n, dir, e);
    assert OneName(n, dir, e, dir, EntryFor(n, dir, e.ino));
  }

  lemma UnlinkedKeys(v: Vol, w: Vol, dir: nat, e: Slot)
    requires Inv(v) && Unlinked(v, w, dir, e)
    ensures w.inodes.Keys == v.inodes.Keys - {e.ino} && w.dirs == v.dirs && dir in v.dirs
    ensures Has(ViewAt(v, dir), e) && !IsDot(e) && e.ftype != FT_DIRECTORY && OthersKept(v, w, {dir, e.ino as nat})
  {
    hide Inv, Sound, IsDir, Loses, OthersKept, ViewAt, SameFirst, SamePlan, Has;
  }

  lemma RemoveDirFiles(v: Vol, w: Vol, dir: nat, e: Slot)
    requires Inv(v) && RemovedDir(v, w, dir, e)
    ensures Files(w) == Files(v)
  {
    hide RemovedDir, Inv, OthersKept, Bytes, ViewAt, Has;
    RemovedKeys(v, w, dir, e);
    EntryIs(v, dir, e);
    forall f | f in Files(w) ensures f in Files(v) && Files(w)[f] == Files(v)[f] {
      KeptFile(v, w, {dir, e.ino as nat}, f);
    }
    SameFiles(Files(w), Files(v));
  }

  lemma RemoveDirMeans(v: Vol, w: Vol, x: Vol, q: Request, dir: nat, e: Slot)
    requires Inv(v) && RemovedDir(v, w, dir, e) && Inv(w) && OthersKept(w, x, {}) && NamesOf(x) == NamesOf(w)
    requires x.inodes == w.inodes && x.dirs == w.dirs && q.RemoveDir?
    requires SearchOf(NamesOf(v), q.path) == Found(e.ino, dir, true)
    ensures Fits(Abs(v), q, e.ino) && Abs(x) == Done(Abs(v), q, e.ino)
  {
    hide RemovedDir, Inv, OthersKept, Bytes, SearchOf, NamesOf, Files, WithoutDir, ViewAt, Has, NamedBy;
    RemovedKeys(v, w, dir, e);
    EntryIs(v, dir, e);
    EntriesAre(v);
    DirsOf(v);
    RemovedDirInv(v, w, dir, e);
    TableFiles(w, x);
    RemoveDirFiles(v, w, dir, e);
  }

  lemma RemovedKeys(v: Vol, w: Vol, dir: nat, e: Slot)
    requires Inv(v) && RemovedDir(v, w, dir, e)
    ensures w.inodes.Keys == v.inodes.Keys - {e.ino} && w.dirs == v.dirs - {e.ino} && dir in v.dirs
    ensures Has(ViewAt(v, dir), e) && !IsDot(e) && e.ftype == FT_DIRECTORY && OthersKept(v, w, {dir, e.ino as nat})
    ensures forall f :: Has(ViewAt(v, e.ino), f) ==> IsDot(f)
  {
    hide Inv, Sound, IsDir, Loses, OthersKept, ViewAt, SameFirst, SamePlan, Has;
  }
}

/** The calls on a mounted partition: what changes is written back to the inode table before they end. */
module FsCalls {
  import opened Sectors
  import opened BitRuns
  import opened Volumes
  import opened FileIO
  import opened FileAppend
  import opened DirEntries
  import opened DirViews
  import opened DirStates
  import opened NameTree
  import opened FsStates
  import opened FsProofs
  import Directories
  import InodeStates
  import FsOps
  import opened OpStates
  import opened Paths
  import opened Namespace
  import opened NamespaceProofs
  import opened NamespaceOps
  import opened PathOps
  import opened InodeRecords
  import opened InodeCache
  import opened InodeCacheProofs
  import opened MountStates
  import opened MountProofs
  import opened Mounts
  import opened FsIdeal
  import opened FsDecided
  import opened FsCallProofs

  /** The data blocks have changed, the table not yet. */
  lemma DataFirst(v: Vol, w: Vol, open: seq<Cached>)
    requires TableAgrees(v, open) && SamePlan(v, w)
    ensures Agree(InodesOf(w, open), v.inodes, {})
    ensures SameRecords(v.disk, w.disk, v.start - TABLE_SECTORS, {})
  {
    hide Agree, SamePlan, SameRecords;
    PlanStart(v, w);
    PlanRecords(v, w);
    RecordsAgree(InodesOf(v, open), v.inodes, w.disk, {});
  }

  lemma MountedParts(v: Vol, open: seq<Cached>)
    requires Mounted(v, open)
    ensures Inv(v) && TableAgrees(v, open) && NoStale(open, v.inodes) && Small(v.inodes) && TABLE_SECTORS <= v.start
  {
    hide Inv, Agree;
  }

  lemma SmallAt(inodes: map<nat, INode>, p: nat)
    requires Small(inodes) && p in inodes
    ensures p < 0x100
  {
  }

  /** A number not in use: not open, and its record clear, whatever was written of inode `dir`. */
  lemma Unused(v: Vol, open: seq<Cached>, now: seq<Cached>, d: Disk, dir: nat, ino: nat)
    requires Mounted(v, open) && SameNumbers(open, now) && SameRecords(v.disk, d, v.start - TABLE_SECTORS, {dir})
    requires ino !in v.inodes && dir != ino && ino < MAX_INODES
    ensures Find(now, ino) == |now| && RecordAt(d, v.start - TABLE_SECTORS, ino) == Zeros(RECORD)
  {
    hide Inv, Agree, RecordAt, Find;
    assert ClearAt(v, ino) && SameRecord(v.disk, d, v.start - TABLE_SECTORS, {dir}, ino);
    StaleKept(open, now, v.inodes, v.inodes);
    NotOpen(now, v.inodes, ino);
  }

  /** Inode `ino` is live, and the record of its number modulo 256 holds it. */
  ghost predicate RecordedAs(v: Vol, ino: nat) {
    && ino in v.inodes && v.inodes[ino].no == ino && TABLE_SECTORS <= v.start
    && Load(v.disk, v.start - TABLE_SECTORS, ino % 0x100) == v.inodes[ino]
  }

  /** First fit gives out a number above 255 only when all below are in use: whichever record is overwritten
      then, it is that of a live inode. */
  lemma OverflowDestroys(v: Vol, ino: nat)
    requires Sound(v) && IsFirstFit(v.ibits, 1, ino) && ino >= 0x100
    ensures ino % 0x100 in v.inodes && forall p: nat :: p < 0x100 ==> p in v.inodes
  {
    hide Owns, BitsMatch;
    forall p: nat | p < 0x100 ensures p in v.inodes {
      assert !ClearRun(v.ibits, p, 1) && v.ibits[p];
    }
  }

  /** Writes back a directory and the inode that has been added to it. */
  method WriteAdded(m: InodeStore, dir: nat, ino: nat, ghost v: Vol)
    requires Mounted(v, m.open) && Inv(m.vol.State()) && SamePlan(v, m.vol.State())
    requires dir in v.inodes && ino !in v.inodes && dir in m.vol.inodes && ino in m.vol.inodes
    requires m.vol.inodes == v.inodes[dir := m.vol.inodes[dir]][ino := m.vol.inodes[ino]]
    modifies m`open, m.vol`disk
    ensures TableOnly(old(m.vol.State()), m.vol.State()) && (TableAgrees(m.vol.State(), m.open) <==> ino < 0x100)
    ensures ino < 0x100 ==> WroteTable(v, old(m.vol.State()), m.vol.State(), old(m.open), m.open, {dir, ino})
    ensures RecordedAs(m.vol.State(), ino)
  {
    hide Inv, Agree, SamePlan, SameRecords, TableOnly, SameNumbers, Find, RecordAt, Load, Mounted, Small, NoStale, ValidINode;
    ghost var w, open, table := m.vol.State(), m.open, m.vol.start - TABLE_SECTORS;
    MountedParts(v, open);
    PlanStart(v, w);
    DataFirst(v, w, open);
    SmallAt(v.inodes, dir);
    ValidAt(w, dir);
    ValidAt(w, ino);
    WriteBack(m, dir, v.inodes);
    ghost var x, now := m.vol.State(), m.open;
    RecordsTrans(v.disk, w.disk, x.disk, table, {}, {dir});
    assert {} + {dir} == {dir};
    Unused(v, open, now, x.disk, dir, ino);
    SyncNew(m, ino, v.inodes[dir := m.vol.inodes[dir]]);
    OnlyTrans(w, x, m.vol.State());
    if ino < 0x100 {
      RecordsTrans(v.disk, x.disk, m.vol.disk, table, {dir}, {ino});
      assert {dir} + {ino} == {dir, ino};
    }
  }

  /** Writes back a directory and clears the record of the inode that has gone from it. */
  method WriteRemoved(m: InodeStore, dir: nat, ino: nat, ghost v: Vol)
    requires Mounted(v, m.open) && Inv(m.vol.State()) && SamePlan(v, m.vol.State())
    requires dir in v.inodes && ino in v.inodes && dir != ino && dir in m.vol.inodes
    requires m.vol.inodes == v.inodes[dir := m.vol.inodes[dir]] - {ino}
    modifies m`open, m.vol`disk
    ensures WroteTable(v, old(m.vol.State()), m.vol.State(), old(m.open), m.open, {dir, ino})
    ensures RecordAt(m.vol.disk, v.start - TABLE_SECTORS, ino) == Zeros(RECORD)
    ensures Find(m.open, ino) < |m.open| ==> m.open[Find(m.open, ino)].node == v.inodes[ino]
  {
    hide Inv, Agree, SamePlan, SameRecords, TableOnly, SameNumbers, Find, RecordAt, Mounted, Small, NoStale, ValidINode;
    ghost var w, open, table := m.vol.State(), m.open, m.vol.start - TABLE_SECTORS;
    MountedParts(v, open);
    PlanStart(v, w);
    DataFirst(v, w, open);
    SmallAt(v.inodes, dir);
    ValidAt(w, dir);
    WriteBack(m, dir, v.inodes);
    ghost var x := m.vol.State();
    RecordsTrans(v.disk, w.disk, x.disk, table, {}, {dir});
    assert {} + {dir} == {dir};
    CopyIs(m.State(), v.inodes[dir := m.vol.inodes[dir]], ino);
    ClearRecord(m, ino, v.inodes[dir := m.vol.inodes[dir]]);
    OnlyTrans(w, x, m.vol.State());
    RecordsTrans(v.disk, x.disk, m.vol.disk, table, {dir}, {ino});
    assert {dir} + {ino} == {dir, ino};
  }

  lemma CopyIs(s: Inodes, latest: map<nat, INode>, no: nat)
    requires Agree(s, latest, {}) && no in latest
    ensures Find(s.open, no) < |s.open| ==> s.open[Find(s.open, no)].node == latest[no]
  {
    hide Find, Load;
    assert ReadsAs(s, no, latest[no], {});
  }

  /** The inodes after one has been added to a directory, or has gone from it. */
  lemma AddedInodes(v: Vol, w: Vol, dir: nat, ino: nat)
    requires OthersKept(v, w, {dir}) && dir in v.inodes && w.inodes.Keys == v.inodes.Keys + {ino} && ino !in v.inodes
    ensures w.inodes == v.inodes[dir := w.inodes[dir]][ino := w.inodes[ino]]
  {
    forall q | q in v.inodes && q != dir ensures w.inodes[q] == v.inodes[q] {
      assert KeptAt(v, w, {dir}, q);
    }
  }

  lemma RemovedInodes(v: Vol, w: Vol, dir: nat, ino: nat)
    requires OthersKept(v, w, {dir, ino}) && dir in v.inodes && dir != ino && w.inodes.Keys == v.inodes.Keys - {ino}
    ensures w.inodes == v.inodes[dir := w.inodes[dir]] - {ino}
  {
    forall q | q in v.inodes && q != dir && q != ino ensures w.inodes[q] == v.inodes[q] {
      assert KeptAt(v, w, {dir, ino}, q);
    }
  }

  lemma AddedCleared(v: Vol, w: Vol, x: Vol, open: seq<Cached>, dir: nat, ino: nat)
    requires TABLE_SECTORS <= v.start && w.inodes.Keys == v.inodes.Keys + {ino} && dir in v.inodes
    requires Small(v.inodes) && ino < 0x100
    ensures Cleared(v, w, x, open, {dir, ino}) && Small(w.inodes)
  {
    hide RecordAt;
  }

  lemma RemovedCleared(v: Vol, w: Vol, x: Vol, open: seq<Cached>, dir: nat, ino: nat)
    requires TABLE_SECTORS <= v.start && w.inodes.Keys == v.inodes.Keys - {ino} && dir in v.inodes && dir != ino
    requires RecordAt(x.disk, v.start - TABLE_SECTORS, ino) == Zeros(RECORD) && Find(open, ino) == |open| && Small(v.inodes)
    ensures Cleared(v, w, x, open, {dir, ino}) && Small(w.inodes)
  {
    hide RecordAt, Find;
  }

  lemma RefusedStep(v: Vol, open: seq<Cached>, q: Request)
    requires Mounted(v, ListNow(v, open, q)) && Decided(v, open, q).Refused?
    ensures Stepped(v, open, v, ListNow(v, open, q), q, Refused)
  {
    hide Mounted, Abs, Decided, ListNow, Touched;
  }

  lemma BrokenStep(v: Vol, open: seq<Cached>, w: Vol, now: seq<Cached>, q: Request)
    requires Decided(v, open, q).Broken?
    ensures Stepped(v, open, w, now, q, Broken)
  {
    hide Mounted, Abs, Decided;
  }

  lemma CreatedStep(v: Vol, w: Vol, x: Vol, open: seq<Cached>, now: seq<Cached>, q: Request, dir: nat, e: Slot)
    requires Mounted(v, open) && Created(v, w, dir, e) && Inv(w) && WroteTable(v, w, x, open, now, {dir, e.ino as nat})
    requires q.Create? && Components(q.path) != [] && e.ino < 0x100 && Decided(v, open, q) == Ok(e.ino)
    requires SearchOf(NamesOf(v), q.path) == Lost(dir, |Components(q.path)|) && e == Slot(LastOf(q.path), e.ino, FT_REGULAR)
    ensures Stepped(v, open, x, now, q, Ok(e.ino)) && Inv(x)
  {
    hide Inv, Created, SearchOf, Components, NamesOf, Agree, SamePlan, SameNumbers, SameRecords, OthersKept, Bytes, Small, NoStale,
      DeadClear, Cleared, Fits, Done, Abs, Decided;
    CreatedKeys(v, w, dir, e);
    AddedCleared(v, w, x, open, dir, e.ino);
    MountedAfter(v, w, x, open, now, {dir, e.ino as nat});
    CreateMeans(v, w, x, q, dir, e);
    KeptPast(v, w, x, {dir});
  }

  lemma PathStarts(path: string)
    requires GoodPath(path)
    ensures path != ""
  {
  }

  /** What creating a file comes to. */
  ghost predicate CreateBreaks(r: OpenResult) {
    r.Creation? && (r.result.Beyond? || (r.result.Made? && r.result.ino >= 0x100))
  }

  /** Creates a file and closes it again. Everything is as it is meant to be unless the directory's direct
      blocks are full or the file is given a number above 255; then, and only then, the table no longer
      agrees: the record of the number modulo 256 has been overwritten. */
  method CallCreate(m: InodeStore, path: string, memory: bool, slot: bool) returns (o: Outcome, ghost r: OpenResult, ghost dir: nat)
    requires Mounted(m.vol.State(), m.open) && GoodPath(path)
    modifies m`open, m.vol
    ensures Stepped(old(m.vol.State()), old(m.open), m.vol.State(), m.open, Create(path, memory, slot), o)
    ensures r.Creation? <==> MissingLastOf(NamesOf(old(m.vol.State())), path) && path[|path| - 1] != '/'
    ensures r.Creation? ==> SearchOf(NamesOf(old(m.vol.State())), path) == Lost(dir, |Components(path)|)
    ensures r.Creation? ==> CreateOutcome(old(m.vol.State()), m.vol.State(), dir, memory, slot, r.result)
    ensures o.Broken? <==> CreateBreaks(r)
    ensures r.Creation? && r.result.Made? && !o.Broken? ==> o == Ok(r.result.ino)
    ensures r.Creation? && r.result.Made? ==> Inv(m.vol.State()) && (TableAgrees(m.vol.State(), m.open) <==> r.result.ino < 0x100)
    ensures r.Creation? && r.result.Made? ==> RecordedAs(m.vol.State(), r.result.ino)
  {
    hide Inv, Created, SearchOf, Components, NamesOf, Mounted, WroteTable, TableOnly, TableAgrees, Small, NewPath, Stepped, OthersKept, Bytes,
      SamePlan, GoodPath, Load, CreateOutcome, CreateDecided, FileAtEnd;
    ghost var v, open := m.vol.State(), m.open;
    ghost var q := Create(path, memory, slot);
    MountedParts(v, open);
    PathStarts(path);
    var made, parent := SysCreate(m.vol, path, memory, slot);
    r, dir := made, parent;
    if made.Creation? {
      CreateIs(v, m.vol.State(), dir, memory, slot, made.result);
    }
    if made.Creation? && made.result.Beyond? {
      BrokenStep(v, open, m.vol.State(), m.open, q);
      return Broken, r, dir;
    }
    if !made.Creation? || !made.result.Made? {
      RefusedStep(v, open, q);
      return Refused, r, dir;
    }
    var no := made.result.ino;
    ghost var w, e := m.vol.State(), Slot(LastOf(path), no, FT_REGULAR);
    CreatedKeys(v, w, dir, e);
    CreatedPlan(v, w, dir, e);
    AddedInodes(v, w, dir, no);
    WriteAdded(m, parent, no, v);
    TableInv(w, m.vol.State());
    SameOutcome(v, w, m.vol.State(), dir, memory, slot, made.result);
    if no >= 0x100 {
      BrokenStep(v, open, m.vol.State(), m.open, q);
      return Broken, r, dir;
    }
    CreatedStep(v, w, m.vol.State(), open, m.open, q, dir, e);
    o := Ok(no);
  }

  /** Writing the table touches neither the bitmaps nor a directory. */
  lemma SameOutcome(v: Vol, w: Vol, x: Vol, dir: nat, memory: bool, slot: bool, r: CreateResult)
    requires CreateOutcome(v, w, dir, memory, slot, r) && TableOnly(w, x) && Inv(w) && dir in w.dirs
    ensures CreateOutcome(v, x, dir, memory, slot, r)
  {
    TableView(w, x, dir);
    hide InsertOutcome, Free, IsFirstFit, ViewAt, Twice, Inv;
  }

  lemma TableView(w: Vol, x: Vol, dir: nat)
    requires TableOnly(w, x) && Inv(w) && dir in w.dirs
    ensures ViewAt(x, dir) == ViewAt(w, dir)
  {
    hide Inv, ViewAt, OthersKept, NamesOf;
    TableInv(w, x);
    KeptView(w, x, {}, dir);
  }

  /** A directory that is not touched shows what it showed. */
  lemma KeptView(v: Vol, w: Vol, but: set<nat>, dir: nat)
    requires Inv(v) && OthersKept(v, w, but) && dir in v.dirs && dir !in but
    ensures ViewAt(w, dir) == ViewAt(v, dir)
  {
    hide Inv, DirOk, DirView;
    FsOps.IsDirAt(v, dir);
    assert KeptAt(v, w, but, dir);
    FsOps.SameINode(v, w, dir);
    Directories.UntouchedView(v, w, dir);
  }

  lemma CreatedPlan(v: Vol, w: Vol, dir: nat, e: Slot)
    requires Created(v, w, dir, e)
    ensures SamePlan(v, w)
  {
    hide Sound, IsFile, IsDir, Gains, OthersKept, ViewAt, SameFirst, SamePlan;
  }

  // ---- mkdir ----

  lemma MadeDirPlan(v: Vol, w: Vol, dir: Word, e: Slot)
    requires MadeDir(v, w, dir, e)
    ensures SamePlan(v, w)
  {
    hide Sound, IsDir, Gains, OthersKept, ViewAt, SameFirst, SamePlan, LiveSet, DotDot, DotsOf;
  }

  lemma MadeDirStep(v: Vol, w: Vol, x: Vol, open: seq<Cached>, now: seq<Cached>, q: Request, dir: Word, e: Slot)
    requires Mounted(v, open) && MadeDir(v, w, dir, e) && Inv(w) && WroteTable(v, w, x, open, now, {dir as nat, e.ino as nat})
    requires q.MakeDir? && Components(q.path) != [] && e.ino < 0x100 && Decided(v, open, q) == Ok(e.ino)
    requires SearchOf(NamesOf(v), q.path) == Lost(dir, |Components(q.path)|) && e == Slot(LastOf(q.path), e.ino, FT_DIRECTORY)
    ensures Stepped(v, open, x, now, q, Ok(e.ino)) && Inv(x)
  {
    hide Inv, MadeDir, SearchOf, Components, NamesOf, Agree, SamePlan, SameNumbers, SameRecords, OthersKept, Bytes, Small, NoStale,
      DeadClear, Cleared, Fits, Done, Abs, Decided;
    MadeDirKeys(v, w, dir, e);
    AddedCleared(v, w, x, open, dir, e.ino);
    MountedAfter(v, w, x, open, now, {dir as nat, e.ino as nat});
    MakeDirMeans(v, w, x, q, dir, e);
    KeptPast(v, w, x, {dir as nat});
  }

  ghost predicate MkdirBreaks(r: MakeResult<MkdirResult>) {
    r.Unknown? || (r.Tried? && (r.result.Leaked? || r.result.BeyondBlocks? || (r.result.DirMade? && r.result.ino >= 0x100)))
  }

  /** Makes a directory. */
  method CallMkdir(m: InodeStore, path: string) returns (o: Outcome, ghost r: MakeResult<MkdirResult>, ghost dir: Word, ghost ino: Word, ghost lba: nat)
    requires Mounted(m.vol.State(), m.open) && GoodPath(path)
    modifies m`open, m.vol
    ensures Stepped(old(m.vol.State()), old(m.open), m.vol.State(), m.open, MakeDir(path), o)
    ensures
      var s := SearchOf(NamesOf(old(m.vol.State())), path);
      (r.Exists? <==> s.Found?) && (r.Unknown? <==> s.Unset?) && (r.Tried? <==> MissingLastOf(NamesOf(old(m.vol.State())), path))
    ensures r.Tried? ==> SearchOf(NamesOf(old(m.vol.State())), path) == Lost(dir, |Components(path)|)
    ensures r.Tried? ==> MkdirAnswers(old(m.vol.State()), m.vol.State(), dir, r.result, ino, lba)
    ensures o.Broken? <==> MkdirBreaks(r)
    ensures r.Tried? && r.result.DirMade? && !o.Broken? ==> o == Ok(r.result.ino)
    ensures r.Tried? && r.result.DirMade? ==> Inv(m.vol.State()) && (TableAgrees(m.vol.State(), m.open) <==> r.result.ino < 0x100)
    ensures r.Tried? && r.result.DirMade? ==> RecordedAs(m.vol.State(), r.result.ino)
  {
    hide Inv, MadeDir, SearchOf, Components, NamesOf, Mounted, WroteTable, TableOnly, TableAgrees, Small, NewPath, Stepped, OthersKept, Bytes,
      SamePlan, GoodPath, LostBlock, Load, MkdirAnswers, MkdirDecided;
    ghost var v, open := m.vol.State(), m.open;
    ghost var q := MakeDir(path);
    MountedParts(v, open);
    var made, parent;
    made, parent, ino, lba := SysMkdir(m.vol, path);
    r, dir := made, parent;
    if made.Tried? {
      MkdirIs(v, m.vol.State(), dir, made.result, ino, lba);
    }
    if made.Unknown? || (made.Tried? && (made.result.Leaked? || made.result.BeyondBlocks?)) {
      BrokenStep(v, open, m.vol.State(), m.open, q);
      return Broken, r, dir, ino, lba;
    }
    if !made.Tried? || !made.result.DirMade? {
      RefusedStep(v, open, q);
      return Refused, r, dir, ino, lba;
    }
    var no := made.result.ino;
    ghost var w, e := m.vol.State(), Slot(LastOf(path), no, FT_DIRECTORY);
    MadeDirKeys(v, w, dir, e);
    MadeDirPlan(v, w, dir, e);
    AddedInodes(v, w, dir, no);
    WriteAdded(m, parent, no, v);
    TableInv(w, m.vol.State());
    SameAnswers(v, w, m.vol.State(), dir, made.result, ino, lba);
    if no >= 0x100 {
      BrokenStep(v, open, m.vol.State(), m.open, q);
      return Broken, r, dir, ino, lba;
    }
    MadeDirStep(v, w, m.vol.State(), open, m.open, q, dir, e);
    o := Ok(no);
  }

  lemma SameAnswers(v: Vol, w: Vol, x: Vol, dir: nat, r: MkdirResult, ino: Word, lba: nat)
    requires MkdirAnswers(v, w, dir, r, ino, lba) && TableOnly(w, x) && Inv(w) && dir in w.dirs
    ensures MkdirAnswers(v, x, dir, r, ino, lba)
  {
    TableView(w, x, dir);
    hide MkdirOutcome, InsertOutcome, Free, IsFirstFit, ViewAt, Twice, Inv;
  }

  // ---- appending ----

  /** The directory a file was found in is live. */
  lemma ParentLive(v: Vol, path: string, s: Search)
    requires Inv(v) && s == SearchOf(NamesOf(v), path) && s.Found? && !s.isDir
    ensures s.parent in v.inodes && s.parent in v.dirs && s.parent < MAX_INODES
  {
    hide Inv, NamesOf, Components, Walk, ViewAt, Has;
    NotTheRoot(v, Components(path), s);
    var e := FoundEntry(v, Components(path), s);
    SoundOf(v);
    DirsLive(v);
    ValidAt(v, s.parent);
  }

  /** Opens an existing file by its path: its number, or -1. The directory it was found in is not closed
      again: the list of open inodes is what it was exactly when the search has not left the root. */
  method OpenFile(m: InodeStore, path: string) returns (ino: int)
    requires Mounted(m.vol.State(), m.open) && GoodPath(path)
    modifies m`open
    ensures ino != -1 <==> OpensFile(NamesOf(m.vol.State()), path)
    ensures ino != -1 ==> ino == SearchOf(NamesOf(m.vol.State()), path).ino
    ensures Mounted(m.vol.State(), m.open) && m.open == ListAfter(m.vol.State(), old(m.open), path)
    ensures m.open == old(m.open) <==> ino == -1 || |Components(path)| == 1
  {
    hide Inv, NamesOf, Components, Walk, EntryAt, FileAtEnd, ShortNames, Join, Mounted, TableAgrees, AfterOpen, DeadClear, NoStale, Small;
    ghost var v, open := m.vol.State(), m.open;
    MountedParts(v, open);
    ListSame(v, open, path);
    if path[|path| - 1] == '/' {
      return -1;
    }
    NamedPath(path);
    var f, searched, seen := SearchFile(m.vol, path);
    if !f.Found? || f.isDir {
      return -1;
    }
    SeenAll(v, Components(path), f, seen);
    var depth, name := PathDepth(path);
    var reached := DepthOf(searched, path, seen);
    if depth != reached {
      return -1;
    }
    ino := f.ino;
    if depth > 1 {
      ParentLive(v, path, f);
      OpenMounted(v, open, f.parent);
      var dir := m.InodeOpen(f.parent);
    }
  }

  /** What a search finds is a file or a directory, as it says. */
  lemma FoundFile(v: Vol, cs: seq<string>, s: Search)
    requires Inv(v) && s == Walk(NamesOf(v), ROOT, ROOT, cs, 0) && s.Found? && !s.isDir
    ensures IsFile(v, s.ino) && s.ino < 4096
  {
    hide Sound, Shapes, Tree, NamesOf, RootFirst, ViewAt, Has, Walk, FileShape;
    RootIsDir(v);
    NotTheRoot(v, cs, s);
    var e := FoundEntry(v, cs, s);
    FsOps.EntryKind(v, s.parent, e);
    ShapeAt(v, s.ino);
    ValidAt(v, s.ino);
  }

  lemma NotTheRoot(v: Vol, cs: seq<string>, s: Search)
    requires Inv(v) && s == Walk(NamesOf(v), ROOT, ROOT, cs, 0) && s.Found? && !s.isDir
    ensures s.ino != ROOT
  {
    hide Sound, Shapes, NamesOf, RootFirst, Walk, NamesUnique, AllNamed, Acyclic;
    SearchMeans(NamesOf(v), cs);
    var k: nat, e :| EntryAt(NamesOf(v), cs, k, s.parent, e) && e.ftype != FT_DIRECTORY && e.ino == s.ino;
    assert EntryOk(NamesOf(v), s.parent, e);
    RootIsDir(v);
    DirsLive(v);
  }

  lemma ShapeAt(v: Vol, p: nat)
    requires Inv(v) && p in v.inodes && p !in v.dirs
    ensures IsFile(v, p)
  {
    hide Sound, Tree, NamesOf, RootFirst, FileShape;
    assert ShapeOk(v, p);
  }

  lemma AppendedStep(v: Vol, w: Vol, x: Vol, open: seq<Cached>, now: seq<Cached>, q: Request, f: Word)
    requires q.Append? && Mounted(v, ListNow(v, open, q)) && Appended(v, w, f, q.bytes) && Inv(w)
    requires WroteTable(v, w, x, ListNow(v, open, q), now, {f as nat}) && Decided(v, open, q) == Ok(f)
    requires OpensFile(NamesOf(v), q.path) && SearchOf(NamesOf(v), q.path).ino == f
    ensures Stepped(v, open, x, now, q, Ok(f))
  {
    hide Inv, Appended, SearchOf, Components, NamesOf, Agree, SamePlan, SameNumbers, SameRecords, OthersKept, Bytes, Small, NoStale,
      DeadClear, Cleared, Fits, Done, Abs, FileAtEnd, Decided, ListNow;
    AppendedKeys(v, w, f, q.bytes);
    SameCleared(v, w, x, ListNow(v, open, q), f);
    MountedAfter(v, w, x, ListNow(v, open, q), now, {f as nat});
    AppendMeans(v, w, x, q, f);
    KeptPast(v, w, x, {f as nat});
  }

  lemma SameCleared(v: Vol, w: Vol, x: Vol, open: seq<Cached>, f: nat)
    requires TABLE_SECTORS <= v.start && w.inodes.Keys == v.inodes.Keys && f in v.inodes && Small(v.inodes)
    ensures Cleared(v, w, x, open, {f}) && Small(w.inodes)
  {
    hide RecordAt;
  }

  lemma SameInodes(v: Vol, w: Vol, f: nat)
    requires OthersKept(v, w, {f}) && f in v.inodes && w.inodes.Keys == v.inodes.Keys
    ensures w.inodes == v.inodes[f := w.inodes[f]]
  {
    forall q | q in v.inodes && q != f ensures w.inodes[q] == v.inodes[q] {
      assert KeptAt(v, w, {f}, q);
    }
  }

  lemma AppendedPlan(v: Vol, w: Vol, f: nat, bytes: seq<Byte>)
    requires Appended(v, w, f, bytes)
    ensures SamePlan(v, w)
  {
    hide Sound, IsFile, Content, Untouched, SamePlan;
  }

  /** How an append of `count` bytes ends is decided beforehand. */
  ghost predicate AppendAnswers(v: Vol, f: nat, count: nat, r: WriteResult) {
    && f in v.inodes && |v.inodes[f].sectors| == 13
    && r == WriteOutcome(v.inodes[f].size, v.inodes[f].sectors[0] == 0, count, |Free(v.bmap)|) && WritesRight(v, f, count, r)
  }

  /** Appends to a file that is opened and closed for it; its directory stays open. */
  method CallAppend(m: InodeStore, path: string, bytes: seq<Byte>) returns (o: Outcome, ghost r: WriteResult)
    requires Mounted(m.vol.State(), m.open) && GoodPath(path)
    modifies m`open, m.vol
    ensures Stepped(old(m.vol.State()), old(m.open), m.vol.State(), m.open, Append(path, bytes), o)
    ensures
      var n := NamesOf(old(m.vol.State()));
      && (OpensFile(n, path) ==> AppendAnswers(old(m.vol.State()), SearchOf(n, path).ino, |bytes|, r))
      && (o.Ok? <==> OpensFile(n, path) && r.Written?)
      && (o.Refused? <==> !OpensFile(n, path) || r.TooBig?)
  {
    hide Inv, Appended, SearchOf, Components, NamesOf, Mounted, WroteTable, TableOnly, TableAgrees, Small, Stepped, OthersKept, Bytes,
      SamePlan, GoodPath, FileAtEnd, IsFile, Agree, SameNumbers, SameRecords, Find, Sound, WriteOutcome, WritesRight, ListAfter;
    ghost var v, open := m.vol.State(), m.open;
    ghost var q := Append(path, bytes);
    MountedParts(v, open);
    r := TooBig;
    ghost var s := SearchOf(NamesOf(v), path);
    var ino := OpenFile(m, path);
    assert m.open == ListNow(v, open, q);
    if ino == -1 {
      RefusedStep(v, open, q);
      return Refused, r;
    }
    IsFoundFile(v, path, s);
    FileParts(v, ino);
    SoundOf(v);
    var done := FileWrite(m.vol, ino, bytes);
    r := done;
    if done.TooBig? {
      RefusedStep(v, open, q);
      return Refused, r;
    }
    if !done.Written? {
      BrokenStep(v, open, m.vol.State(), m.open, q);
      return Broken, r;
    }
    ghost var w := m.vol.State();
    AppendedKeys(v, w, ino, bytes);
    AppendedPlan(v, w, ino, bytes);
    AppendedInv(v, w, ino, bytes);
    SameInodes(v, w, ino);
    WriteOne(m, ino, v);
    AppendedStep(v, w, m.vol.State(), open, m.open, q, ino);
    o := Ok(ino);
  }

  lemma FileParts(v: Vol, f: nat)
    requires IsFile(v, f)
    ensures f in v.inodes && |v.inodes[f].sectors| == 13
  {
  }

  lemma SoundOf(v: Vol)
    requires Inv(v)
    ensures Sound(v)
  {
    hide Sound, Shapes, Tree, RootFirst;
  }

  lemma IsFoundFile(v: Vol, path: string, s: Search)
    requires Inv(v) && s == SearchOf(NamesOf(v), path) && s.Found? && !s.isDir
    ensures IsFile(v, s.ino) && s.ino < 4096
  {
    hide Inv, NamesOf, Components, Walk;
    FoundFile(v, Components(path), s);
  }

  /** Writes back the one inode a call has changed. */
  method WriteOne(m: InodeStore, f: nat, ghost v: Vol)
    requires Mounted(v, m.open) && Inv(m.vol.State()) && SamePlan(v, m.vol.State())
    requires f in v.inodes && f in m.vol.inodes && m.vol.inodes == v.inodes[f := m.vol.inodes[f]]
    modifies m`open, m.vol`disk
    ensures WroteTable(v, old(m.vol.State()), m.vol.State(), old(m.open), m.open, {f})
  {
    hide Inv, Agree, SamePlan, SameRecords, TableOnly, SameNumbers, Find, RecordAt, Mounted, Small, NoStale, ValidINode;
    ghost var w, open, table := m.vol.State(), m.open, m.vol.start - TABLE_SECTORS;
    MountedParts(v, open);
    PlanStart(v, w);
    DataFirst(v, w, open);
    SmallAt(v.inodes, f);
    ValidAt(w, f);
    WriteBack(m, f, v.inodes);
    RecordsTrans(v.disk, w.disk, m.vol.disk, table, {}, {f});
    assert {} + {f} == {f};
  }

  // ---- unlinking ----

  lemma UnlinkedStep(v: Vol, w: Vol, x: Vol, open: seq<Cached>, now: seq<Cached>, q: Request, dir: nat, e: Slot)
    requires Mounted(v, open) && Unlinked(v, w, dir, e) && Inv(w) && WroteTable(v, w, x, open, now, {dir, e.ino as nat})
    requires RecordAt(x.disk, v.start - TABLE_SECTORS, e.ino) == Zeros(RECORD) && Find(open, e.ino) == |open| && dir != e.ino
    requires q.Unlink? && SearchOf(NamesOf(v), q.path) == Found(e.ino, dir, false) && Decided(v, open, q) == Ok(e.ino)
    ensures Stepped(v, open, x, now, q, Ok(e.ino))
  {
    hide Inv, Unlinked, SearchOf, NamesOf, Agree, SamePlan, SameNumbers, SameRecords, OthersKept, Bytes, Small, NoStale, RecordAt, Find,
      DeadClear, Cleared, Fits, Done, Abs, Decided;
    UnlinkedKeys(v, w, dir, e);
    SoundOf(v);
    DirsLive(v);
    RemovedCleared(v, w, x, open, dir, e.ino);
    MountedAfter(v, w, x, open, now, {dir, e.ino as nat});
    UnlinkMeans(v, w, x, q, dir, e);
    KeptPast(v, w, x, {dir, e.ino as nat});
  }

  lemma UnlinkedPlan(v: Vol, w: Vol, dir: nat, e: Slot)
    requires Inv(v) && Unlinked(v, w, dir, e)
    ensures SamePlan(v, w) && dir in v.inodes && dir != e.ino && e.ino in v.inodes
  {
    hide Inv, Sound, IsDir, Loses, OthersKept, ViewAt, SameFirst, SamePlan, Has;
    FsOps.EntryKind(v, dir, e);
    SoundOf(v);
    DirsLive(v);
  }

  /** Removes a file. It is not removed while it is open. */
  method CallUnlink(m: InodeStore, path: string) returns (o: Outcome, ghost r: UnlinkResult)
    requires Mounted(m.vol.State(), m.open) && GoodPath(path)
    modifies m`open, m.vol
    ensures Stepped(old(m.vol.State()), old(m.open), m.vol.State(), m.open, Unlink(path), o)
    ensures r == UnlinkAnswer(old(m.vol.State()), SearchOf(NamesOf(old(m.vol.State())), path), OpenNumbers(old(m.open)))
    ensures (o.Ok? <==> r.Removed?) && (o.Broken? <==> r.Panics? || r.Unknown?)
    ensures r.Panics? ==> m.vol.State() == old(m.vol.State()) && m.open == old(m.open)
  {
    hide Inv, Unlinked, SearchOf, Components, NamesOf, Mounted, WroteTable, TableOnly, TableAgrees, Small, Stepped, OthersKept, Bytes,
      SamePlan, GoodPath, PathGone, Find, Agree, RecordAt, UnlinkAnswer;
    ghost var v, open := m.vol.State(), m.open;
    ghost var q := Unlink(path);
    MountedParts(v, open);
    ghost var e;
    var done, s;
    done, s, e := SysUnlink(m.vol, path, OpenNumbers(m.open));
    r := done;
    UnlinkAnswers(v, s, OpenNumbers(open));
    if done.Panics? || done.Unknown? {
      BrokenStep(v, open, m.vol.State(), m.open, q);
      return Broken, r;
    }
    if !done.Removed? {
      RefusedStep(v, open, q);
      return Refused, r;
    }
    ghost var w := m.vol.State();
    UnlinkedKeys(v, w, s.parent, e);
    UnlinkedPlan(v, w, s.parent, e);
    ValidAt(v, s.ino);
    RemovedInodes(v, w, s.parent, s.ino);
    WriteRemoved(m, s.parent, s.ino, v);
    UnlinkedStep(v, w, m.vol.State(), open, m.open, q, s.parent, e);
    o := Ok(s.ino);
  }

  lemma UnlinkAnswers(v: Vol, s: Search, open: set<nat>)
    ensures UnlinkAnswer(v, s, open).Removed? ==> s.Found? && !s.isDir && s.ino !in open
  {
    hide ViewAt, Twice;
  }

  // ---- removing a directory ----

  lemma RemovedStep(v: Vol, w: Vol, x: Vol, open: seq<Cached>, now: seq<Cached>, q: Request, dir: nat, e: Slot)
    requires Mounted(v, open) && RemovedDir(v, w, dir, e) && Inv(w) && WroteTable(v, w, x, open, now, {dir, e.ino as nat})
    requires RecordAt(x.disk, v.start - TABLE_SECTORS, e.ino) == Zeros(RECORD) && Find(open, e.ino) == |open| && dir != e.ino
    requires q.RemoveDir? && SearchOf(NamesOf(v), q.path) == Found(e.ino, dir, true) && Decided(v, open, q) == Ok(e.ino)
    ensures Stepped(v, open, x, now, q, Ok(e.ino))
  {
    hide Inv, RemovedDir, SearchOf, NamesOf, Agree, SamePlan, SameNumbers, SameRecords, OthersKept, Bytes, Small, NoStale, RecordAt, Find,
      DeadClear, Cleared, Fits, Done, Abs, ViewAt, Has, Decided;
    RemovedKeys(v, w, dir, e);
    SoundOf(v);
    DirsLive(v);
    RemovedCleared(v, w, x, open, dir, e.ino);
    MountedAfter(v, w, x, open, now, {dir, e.ino as nat});
    RemoveDirMeans(v, w, x, q, dir, e);
    KeptPast(v, w, x, {dir, e.ino as nat});
  }

  lemma RemovedPlan(v: Vol, w: Vol, dir: nat, e: Slot)
    requires Inv(v) && RemovedDir(v, w, dir, e)
    ensures SamePlan(v, w) && dir in v.inodes && dir != e.ino && e.ino in v.inodes
  {
    hide Inv, Sound, IsDir, Loses, OthersKept, ViewAt, SameFirst, SamePlan, Has, IsEmpty;
    FsOps.EntryKind(v, dir, e);
    SoundOf(v);
    DirsLive(v);
  }

  /** The open list shows an inode that has gone exactly when somebody had it open. */
  lemma StaleExactly(v: Vol, w: Vol, x: Vol, open: seq<Cached>, now: seq<Cached>, dir: nat, ino: nat)
    requires NoStale(open, v.inodes) && w.inodes.Keys == v.inodes.Keys - {ino} && WroteTable(v, w, x, open, now, {dir, ino})
    ensures NoStale(now, x.inodes) <==> Find(open, ino) == |open|
    ensures OpenNumbers(now) == OpenNumbers(open)
  {
    hide SamePlan, Agree, SameRecords, Find;
    NumbersFind(open, now, ino);
    forall p: nat ensures p in OpenNumbers(now) <==> p in OpenNumbers(open) {
      NumbersFind(open, now, p);
    }
    var k := Find(now, ino);
    if k == |now| {
      forall j | 0 <= j < |now| ensures now[j].node.no in x.inodes {
        assert open[j].node.no in v.inodes;
      }
    }
  }

  lemma RmdirAnswered(v: Vol, path: string, s: Search, e: Slot, open: set<nat>, r: RmdirResult)
    requires Inv(v) && s == SearchOf(NamesOf(v), path)
    requires (r.NoSuch? <==> s.Lost?) && (r.Unknown? <==> s.Unset?) && (s.Found? && s.ino == ROOT ==> r == Stops)
    requires s.Found? && s.ino != ROOT ==>
      && e.ino == s.ino && Has(ViewAt(v, s.parent), e) && (s.isDir && Components(path) != [] ==> e.name == LastOf(path))
      && (s.isDir <==> e.ftype == FT_DIRECTORY) && (!s.isDir <==> e.ftype == FT_REGULAR) && r == RmdirOutcome(v, s.parent, e)
    ensures r == RmdirAnswer(v, s, LastName(path))
    ensures r.Gone? ==> s.Found? && RmdirDecided(v, s, LastName(path), open) == if s.ino in open then Broken else Ok(e.ino)
  {
    hide Inv, NamesOf, Components, SearchOf, ViewAt, Has, IsEmpty, Twice;
    if s.Found? && s.ino != ROOT {
      FoundLive(v, path, s);
    }
  }

  lemma FoundLive(v: Vol, path: string, s: Search)
    requires Inv(v) && s == SearchOf(NamesOf(v), path) && s.Found? && s.ino != ROOT
    ensures s.ino in v.inodes && s.ino < MAX_INODES && (s.isDir ==> Components(path) != [])
  {
    hide Inv, NamesOf, Components, Walk, ViewAt, Has;
    var e := FoundEntry(v, Components(path), s);
    FsOps.EntryKind(v, s.parent, e);
    ValidAt(v, s.ino);
  }

  lemma SameFreed(v: Vol, w: Vol, x: Vol, ino: nat)
    requires Freed(v, w, ino) && x.bmap == w.bmap
    ensures Freed(v, x, ino)
  {
    hide Place;
    forall i | 0 <= i <= TABLE ensures FreedAt(v, x, Place(v.disk, v.inodes[ino], i)) {
      assert FreedAt(v, w, Place(v.disk, v.inodes[ino], i));
    }
  }

  lemma WroteAgrees(v: Vol, w: Vol, x: Vol, open: seq<Cached>, now: seq<Cached>, touched: set<nat>)
    requires WroteTable(v, w, x, open, now, touched)
    ensures TableOnly(w, x) && TableAgrees(x, now) && |x.ibits| == |v.ibits| && x.inodes == w.inodes && x.bmap == w.bmap
  {
    hide Agree, SameRecords;
  }

  /** Removes an empty directory. The kernel does not look whether somebody has it open; if so, a copy of
      the inode that has gone stays in the open list. */
  method CallRmdir(m: InodeStore, path: string) returns (o: Outcome, ghost r: RmdirResult, ghost held: bool)
    requires Mounted(m.vol.State(), m.open) && GoodPath(path)
    modifies m`open, m.vol
    ensures Stepped(old(m.vol.State()), old(m.open), m.vol.State(), m.open, RemoveDir(path), o)
    ensures r == RmdirAnswer(old(m.vol.State()), SearchOf(NamesOf(old(m.vol.State())), path), LastName(path))
    ensures (o.Ok? <==> r.Gone? && !held) && (o.Broken? <==> r.Stops? || r.Orphaned? || r.Unknown? || (r.Gone? && held))
    ensures held <==> var s := SearchOf(NamesOf(old(m.vol.State())), path); s.Found? && s.ino in OpenNumbers(old(m.open))
    ensures r.Gone? ==> (NoStale(m.open, m.vol.inodes) <==> !held)
    ensures r.Gone? ==>
      var s := SearchOf(NamesOf(old(m.vol.State())), path);
      && s.Found? && s.ino in old(m.vol.inodes) && m.vol.inodes.Keys == old(m.vol.inodes).Keys - {s.ino}
      && Inv(m.vol.State()) && TableAgrees(m.vol.State(), m.open) && |m.vol.ibits| == |old(m.vol.ibits)|
      && (held ==> Find(m.open, s.ino) < |m.open| && m.open[Find(m.open, s.ino)].node == old(m.vol.inodes)[s.ino])
      && Freed(old(m.vol.State()), m.vol.State(), s.ino)
    ensures r.Stops? ==> m.vol.State() == old(m.vol.State()) && m.open == old(m.open)
  {
    hide Inv, RemovedDir, SearchOf, Components, NamesOf, Mounted, WroteTable, TableOnly, TableAgrees, Small, Stepped, OthersKept, Bytes,
      SamePlan, GoodPath, Find, Agree, RecordAt, RmdirOutcome, Unreachable, PathsStay, OnlyLost, InodeStates.Released, Tree, ViewAt, Has,
      RmdirAnswer, Freed;
    ghost var v, open := m.vol.State(), m.open;
    ghost var q := RemoveDir(path);
    MountedParts(v, open);
    ghost var e;
    var done, s;
    done, s, e := SysRmdir(m.vol, path);
    r := done;
    held := s.Found? && s.ino in OpenNumbers(open);
    RmdirAnswered(v, path, s, e, OpenNumbers(open), done);
    if done.Stops? || done.Orphaned? || done.Unknown? {
      BrokenStep(v, open, m.vol.State(), m.open, q);
      return Broken, r, held;
    }
    if !done.Gone? {
      RefusedStep(v, open, q);
      return Refused, r, held;
    }
    ghost var w := m.vol.State();
    RemovedKeys(v, w, s.parent, e);
    RemovedPlan(v, w, s.parent, e);
    RemovedInodes(v, w, s.parent, s.ino);
    WriteRemoved(m, s.parent, s.ino, v);
    WroteAgrees(v, w, m.vol.State(), open, m.open, {s.parent, s.ino});
    TableInv(w, m.vol.State());
    SameFreed(v, w, m.vol.State(), s.ino);
    StaleExactly(v, w, m.vol.State(), open, m.open, s.parent, s.ino);
    if s.ino in OpenNumbers(m.open) {
      BrokenStep(v, open, m.vol.State(), m.open, q);
      return Broken, r, held;
    }
    RemovedStep(v, w, m.vol.State(), open, m.open, q, s.parent, e);
    o := Ok(s.ino);
  }
}
