/** Each operation that succeeds keeps the invariant. */
module FsProofs {
  import opened Sectors
  import opened Volumes
  import opened FileIO
  import opened FileAppend
  import opened DirEntries
  import opened DirViews
  import opened DirStates
  import opened Directories
  import opened NameTree
  import opened NameTreeProofs
  import opened FsStates

  lemma LiveSetHas(w: View)
    ensures forall e :: e in LiveSet(w) <==> Has(w, e)
  {
    forall e ensures e in LiveSet(w) <==> Has(w, e) {
      if e in LiveSet(w) {
        var i, k :| 0 <= i < |w| && 0 <= k < |w[i]| && Live(w[i][k]) && w[i][k] == e;
        assert LiveAt(w, i, k);
      }
    }
  }

  lemma GainsSet(w: View, x: View, e: Slot)
    requires Gains(w, x, e)
    ensures LiveSet(x) == LiveSet(w) + {e} && DotDot(x) == DotDot(w)
  {
    LiveSetHas(w);
    LiveSetHas(x);
  }

  lemma LosesSet(w: View, x: View, e: Slot)
    requires Loses(w, x, e)
    ensures LiveSet(x) == LiveSet(w) - {e} && DotDot(x) == DotDot(w)
  {
    LiveSetHas(w);
    LiveSetHas(x);
  }

  /** An untouched inode keeps its shape, its bytes and its entries. */
  lemma UntouchedShape(v: Vol, w: Vol, q: nat)
    requires Sound(v) && ShapeOk(v, q) && Untouched(v, w, q) && (q in w.dirs <==> q in v.dirs)
    ensures ShapeOk(w, q) && ViewAt(w, q) == ViewAt(v, q)
  {
    UntouchedView(v, w, q);
    assert Layout(w.disk, v.inodes[q]) == Layout(v.disk, v.inodes[q]);
  }

  /** Shapes and entries outside the changed inodes stay. */
  lemma ShapesKept(v: Vol, w: Vol, but: set<nat>)
    requires Sound(v) && Shapes(v) && OthersKept(v, w, but)
    requires w.inodes.Keys - but == v.inodes.Keys - but && w.dirs - but == v.dirs - but && v.dirs <= v.inodes.Keys
    requires forall p :: p in but ==> ShapeOk(w, p)
    ensures Shapes(w) && ViewsKept(v, w, but)
  {
    forall p ensures ShapeOk(w, p) && SameView(v, w, but, p) {
      assert ShapeOk(v, p) && KeptAt(v, w, but, p);
      if p in v.inodes && p !in but {
        assert p in w.dirs - but <==> p in v.dirs - but;
        UntouchedShape(v, w, p);
      } else if p !in but {
        assert p !in w.inodes.Keys - but;
      }
    }
  }

  lemma OthersKeptMore(v: Vol, w: Vol, but: set<nat>, more: set<nat>)
    requires OthersKept(v, w, but) && but <= more
    ensures OthersKept(v, w, more)
  {
    hide Untouched;
    forall q ensures KeptAt(v, w, more, q) {
      assert KeptAt(v, w, but, q);
    }
  }

  lemma FewerViewsKept(v: Vol, w: Vol, but: set<nat>, more: set<nat>)
    requires ViewsKept(v, w, more) && forall d :: d in more && d in v.dirs ==> d in but
    ensures ViewsKept(v, w, but)
  {
    hide ViewAt;
    forall d ensures SameView(v, w, but, d) {
      assert SameView(v, w, more, d);
    }
  }

  lemma EntriesAre(v: Vol)
    ensures NamesOf(v).entries.Keys == v.dirs && NamesOf(v).parent.Keys == v.dirs
    ensures forall d, e :: Entry(NamesOf(v), d, e) <==> d in v.dirs && Has(ViewAt(v, d), e)
  {
    hide ViewAt, Has, LiveSet;
    forall d, e ensures Entry(NamesOf(v), d, e) <==> d in v.dirs && Has(ViewAt(v, d), e) {
      LiveSetHas(ViewAt(v, d));
    }
  }

  lemma DirsLive(v: Vol)
    requires Sound(v)
    ensures v.dirs <= v.inodes.Keys && NamesOf(v).live == v.inodes.Keys && NamesOf(v).dirs == v.dirs
  {
  }

  lemma EntryFits(n: Names, d: nat, e: Slot)
    requires Tree(n) && Entry(n, d, e)
    ensures e.ino in n.live && (e.ftype == FT_DIRECTORY <==> e.ino in n.dirs) && (!IsDot(e) ==> e.ino != ROOT)
  {
    assert EntryOk(n, d, e);
  }

  lemma RootKept(v: Vol, w: Vol, but: set<nat>, dir: nat)
    requires RootFirst(v) && OthersKept(v, w, but) && w.start == v.start
    requires (ROOT in but ==> dir == ROOT && SameFirst(v, w, dir))
    ensures RootFirst(w)
  {
    assert KeptAt(v, w, but, ROOT);
  }

  // ---- a new file ----

  lemma CreatedNames(v: Vol, w: Vol, dir: nat, e: Slot)
    requires dir in v.dirs && w.inodes.Keys == v.inodes.Keys + {e.ino} && w.dirs == v.dirs
    requires Gains(ViewAt(v, dir), ViewAt(w, dir), e) && ViewsKept(v, w, {dir})
    ensures NamesOf(w) == WithFile(NamesOf(v), dir, e)
  {
    hide ViewAt, Has, Gains, Loses, LiveSet, DotDot;
    GainsSet(ViewAt(v, dir), ViewAt(w, dir), e);
    forall d | d in v.dirs && d != dir ensures ViewAt(w, d) == ViewAt(v, d) {
      assert SameView(v, w, {dir}, d);
    }
    assert NamesOf(w).entries == WithFile(NamesOf(v), dir, e).entries;
    assert NamesOf(w).parent == NamesOf(v).parent;
  }

  /** Creating a file adds one leaf to the tree. */
  lemma CreatedInv(v: Vol, w: Vol, dir: nat, e: Slot)
    requires Inv(v) && Created(v, w, dir, e)
    ensures Inv(w) && NamesOf(w) == WithFile(NamesOf(v), dir, e)
  {
    hide Sound, Tree, IsDir, IsFile, ViewAt, Gains, OthersKept, ViewsKept, Shapes, RootFirst;
    DirsLive(v);
    assert w.inodes.Keys - {dir, e.ino} == v.inodes.Keys - {dir, e.ino};
    RootKept(v, w, {dir}, dir);
    OthersKeptMore(v, w, {dir}, {dir, e.ino});
    ShapesKept(v, w, {dir, e.ino});
    FewerViewsKept(v, w, {dir}, {dir, e.ino});
    CreatedNames(v, w, dir, e);
    AddFile(NamesOf(v), dir, e);
  }

  // ---- a new directory ----

  lemma SameMaps<T>(a: map<nat, T>, b: map<nat, T>)
    requires a.Keys == b.Keys && forall k :: k in a.Keys ==> a[k] == b[k]
    ensures a == b
  {
  }

  lemma MadeDirNames(v: Vol, w: Vol, dir: Word, e: Slot)
    requires dir in v.dirs && dir != e.ino && w.inodes.Keys == v.inodes.Keys + {e.ino} && w.dirs == v.dirs + {e.ino}
    requires e.ino !in v.dirs
    requires LiveSet(ViewAt(w, e.ino)) == DotsOf(e.ino, dir) && DotDot(ViewAt(w, e.ino)) == dir
    requires Gains(ViewAt(v, dir), ViewAt(w, dir), e) && ViewsKept(v, w, {dir})
    ensures NamesOf(w) == WithDir(NamesOf(v), dir, e)
  {
    hide ViewAt, Has, DotsOf, Gains, LiveSet, DotDot;
    GainsSet(ViewAt(v, dir), ViewAt(w, dir), e);
    forall d | d in v.dirs && d != dir ensures ViewAt(w, d) == ViewAt(v, d) {
      assert SameView(v, w, {dir}, d);
    }
    var m, n := WithDir(NamesOf(v), dir, e), NamesOf(w);
    SameMaps(n.entries, m.entries);
    SameMaps(n.parent, m.parent);
  }

  /** Making a directory adds one empty directory to the tree. */
  lemma MadeDirInv(v: Vol, w: Vol, dir: Word, e: Slot)
    requires Inv(v) && MadeDir(v, w, dir, e)
    ensures Inv(w) && NamesOf(w) == WithDir(NamesOf(v), dir, e)
  {
    hide Sound, Tree, IsDir, IsFile, ViewAt, Gains, OthersKept, ViewsKept, Shapes, RootFirst, LiveSet, DotDot, DotsOf;
    DirsLive(v);
    assert w.inodes.Keys - {dir, e.ino} == v.inodes.Keys - {dir, e.ino};
    assert w.dirs - {dir, e.ino} == v.dirs - {dir, e.ino};
    RootKept(v, w, {dir}, dir);
    OthersKeptMore(v, w, {dir}, {dir, e.ino});
    ShapesKept(v, w, {dir, e.ino});
    FewerViewsKept(v, w, {dir}, {dir, e.ino});
    MadeDirNames(v, w, dir, e);
    AddDir(NamesOf(v), dir, e);
  }

  // ---- a file gone ----

  lemma UnlinkedNames(v: Vol, w: Vol, dir: nat, e: Slot)
    requires dir in v.dirs && w.inodes.Keys == v.inodes.Keys - {e.ino} && w.dirs == v.dirs
    requires Loses(ViewAt(v, dir), ViewAt(w, dir), e) && ViewsKept(v, w, {dir})
    ensures NamesOf(w) == WithoutFile(NamesOf(v), dir, e)
  {
    hide ViewAt, Has, Gains, Loses, LiveSet, DotDot;
    LosesSet(ViewAt(v, dir), ViewAt(w, dir), e);
    forall d | d in v.dirs && d != dir ensures ViewAt(w, d) == ViewAt(v, d) {
      assert SameView(v, w, {dir}, d);
    }
    assert NamesOf(w).entries == WithoutFile(NamesOf(v), dir, e).entries;
    assert NamesOf(w).parent == NamesOf(v).parent;
  }

  /** Unlinking a file takes one leaf out of the tree. */
  lemma UnlinkedInv(v: Vol, w: Vol, dir: nat, e: Slot)
    requires Inv(v) && Unlinked(v, w, dir, e)
    ensures Inv(w) && NamesOf(w) == WithoutFile(NamesOf(v), dir, e)
  {
    hide Sound, Tree, IsDir, IsFile, ViewAt, Loses, OthersKept, ViewsKept, Shapes, Has, NamesOf, RootFirst;
    DirsLive(v);
    EntriesAre(v);
    EntryFits(NamesOf(v), dir, e);
    RootKept(v, w, {dir, e.ino}, dir);
    assert w.inodes.Keys - {dir, e.ino} == v.inodes.Keys - {dir, e.ino};
    ShapesKept(v, w, {dir, e.ino});
    FewerViewsKept(v, w, {dir}, {dir, e.ino});
    UnlinkedNames(v, w, dir, e);
    RemoveFile(NamesOf(v), dir, e);
  }

  // ---- a directory gone ----

  lemma RemovedDirNames(v: Vol, w: Vol, dir: nat, e: Slot)
    requires dir in v.dirs && dir != e.ino && w.inodes.Keys == v.inodes.Keys - {e.ino} && w.dirs == v.dirs - {e.ino}
    requires Loses(ViewAt(v, dir), ViewAt(w, dir), e) && ViewsKept(v, w, {dir, e.ino})
    ensures NamesOf(w) == WithoutDir(NamesOf(v), dir, e)
  {
    hide ViewAt, Has, Gains, Loses, LiveSet, DotDot;
    LosesSet(ViewAt(v, dir), ViewAt(w, dir), e);
    forall d | d in w.dirs && d != dir ensures ViewAt(w, d) == ViewAt(v, d) {
      assert SameView(v, w, {dir, e.ino}, d);
    }
    assert NamesOf(w).entries == WithoutDir(NamesOf(v), dir, e).entries;
    assert NamesOf(w).parent == WithoutDir(NamesOf(v), dir, e).parent;
  }

  /** Removing an empty directory takes it out of the tree. */
  lemma RemovedDirInv(v: Vol, w: Vol, dir: nat, e: Slot)
    requires Inv(v) && RemovedDir(v, w, dir, e)
    ensures Inv(w) && NamesOf(w) == WithoutDir(NamesOf(v), dir, e)
  {
    hide Sound, Tree, IsDir, IsFile, ViewAt, Loses, OthersKept, ViewsKept, Shapes, Has, NamesOf, RootFirst;
    DirsLive(v);
    EntriesAre(v);
    assert w.inodes.Keys - {dir, e.ino} == v.inodes.Keys - {dir, e.ino};
    assert w.dirs - {dir, e.ino} == v.dirs - {dir, e.ino};
    ParentNames(NamesOf(v), dir, e);
    RootKept(v, w, {dir, e.ino}, dir);
    ShapesKept(v, w, {dir, e.ino});
    RemovedDirNames(v, w, dir, e);
    RemoveDir(NamesOf(v), dir, e);
  }

  // ---- more bytes ----

  /** Appending leaves every name alone. */
  lemma AppendedInv(v: Vol, w: Vol, ino: nat, buf: seq<Byte>)
    requires Inv(v) && Appended(v, w, ino, buf)
    ensures Inv(w) && NamesOf(w) == NamesOf(v)
  {
    hide Sound, Tree, ViewAt, OthersKept, ViewsKept, Shapes, FileShape, Content, Untouched;
    DirsLive(v);
    AppendedKeeps(v, w, ino, buf);
    RootIsDir(v);
    RootKept(v, w, {ino}, ino);
    ShapesKept(v, w, {ino});
    FewerViewsKept(v, w, {}, {ino});
    SameNames(v, w);
  }

  lemma RootIsDir(v: Vol)
    requires Inv(v)
    ensures ROOT in v.dirs
  {
    hide Sound, Shapes, EntriesOk, NamesUnique, AllNamed, ParentsOk, Acyclic, LiveSet, DotDot;
  }

  lemma AppendedKeeps(v: Vol, w: Vol, ino: nat, buf: seq<Byte>)
    requires Appended(v, w, ino, buf)
    ensures OthersKept(v, w, {ino})
  {
    hide Sound, IsFile, Content, Untouched;
    forall q ensures KeptAt(v, w, {ino}, q) {
    }
  }

  lemma SameNames(v: Vol, w: Vol)
    requires w.inodes.Keys == v.inodes.Keys && w.dirs == v.dirs && ViewsKept(v, w, {})
    ensures NamesOf(w) == NamesOf(v)
  {
    hide LiveSet, ViewAt, DotDot;
    forall d | d in v.dirs ensures ViewAt(w, d) == ViewAt(v, d) {
      assert SameView(v, w, {}, d);
    }
    assert NamesOf(w).entries == NamesOf(v).entries;
    assert NamesOf(w).parent == NamesOf(v).parent;
  }
}
