/** Creating and removing names keeps the tree. */
module NameTreeProofs {
  import opened Sectors
  import opened DirEntries
  import opened NameTree

  /** `m` has the entries of `n` and possibly more. */
  lemma NamedMore(n: Names, m: Names)
    requires forall d, e :: Entry(n, d, e) ==> Entry(m, d, e)
    ensures forall p, c :: NamedBy(n, p, c) ==> NamedBy(m, p, c)
  {
    forall p, c | NamedBy(n, p, c) ensures NamedBy(m, p, c) {
      var e :| Entry(n, p, e) && !IsDot(e) && e.ino == c;
      assert Entry(m, p, e);
    }
  }

  /** The new entry `e` of `d` names an inode nobody named. */
  lemma AddedUnique(n: Names, m: Names, d: nat, e: Slot)
    requires EntriesOk(n) && NamesUnique(n) && e.ino !in n.live
    requires forall p, f :: Entry(m, p, f) && !IsDot(f) ==> Entry(n, p, f) || (p == d && f == e)
    ensures NamesUnique(m)
  {
    forall p, f, q, g ensures OneName(m, p, f, q, g) {
      assert OneName(n, p, f, q, g) && EntryOk(n, p, f) && EntryOk(n, q, g);
    }
  }

  lemma AddedNamed(n: Names, m: Names, d: nat, e: Slot)
    requires AllNamed(n) && m.live == n.live + {e.ino} && !IsDot(e) && Entry(m, d, e)
    requires forall p, f :: Entry(n, p, f) ==> Entry(m, p, f)
    ensures AllNamed(m)
  {
    NamedMore(n, m);
    forall c ensures IsNamed(m, c) {
      assert IsNamed(n, c);
      if c == e.ino {
        assert NamedBy(m, d, c);
      }
    }
  }

  lemma AddFile(n: Names, d: nat, e: Slot)
    requires Tree(n) && d in n.dirs && e.ino !in n.live && !IsDot(e) && e.ftype == FT_REGULAR
    ensures Tree(WithFile(n, d, e))
  {
    var m := WithFile(n, d, e);
    assert forall p, f :: Entry(m, p, f) <==> Entry(n, p, f) || (p == d && f == e);
    forall p, f ensures EntryOk(m, p, f) {
      assert EntryOk(n, p, f);
    }
    AddedUnique(n, m, d, e);
    AddedNamed(n, m, d, e);
    NamedMore(n, m);
    forall p ensures ParentOk(m, p) {
      assert ParentOk(n, p);
    }
    var depth :| Ranked(n, depth);
    assert Ranked(m, depth);
  }

  lemma AddDir(n: Names, d: Word, e: Slot)
    requires Tree(n) && d in n.dirs && e.ino !in n.live && !IsDot(e) && e.ftype == FT_DIRECTORY
    ensures Tree(WithDir(n, d, e))
  {
    var m := WithDir(n, d, e);
    assert forall p, f :: Entry(m, p, f) <==> if p == e.ino then f in DotsOf(e.ino, d) else Entry(n, p, f) || (p == d && f == e);
    forall p, f ensures EntryOk(m, p, f) {
      assert EntryOk(n, p, f);
    }
    AddedUnique(n, m, d, e);
    AddedNamed(n, m, d, e);
    NamedMore(n, m);
    assert NamedBy(m, d, e.ino) by {
      assert Entry(m, d, e);
    }
    forall p ensures ParentOk(m, p) {
      assert ParentOk(n, p);
    }
    AddDirRank(n, d, e);
  }

  lemma AddDirRank(n: Names, d: Word, e: Slot)
    requires TreeShape(n) && ParentsOk(n) && Acyclic(n) && d in n.dirs && e.ino !in n.live
    ensures Acyclic(WithDir(n, d, e))
  {
    var depth :| Ranked(n, depth);
    assert ParentOk(n, d);
    var deeper: map<nat, nat> := depth[e.ino := depth[d] + 1];
    forall p | p in n.dirs && p != ROOT ensures p in deeper && n.parent[p] in deeper && deeper[p] == deeper[n.parent[p]] + 1 {
      assert ParentOk(n, p);
    }
    assert Ranked(WithDir(n, d, e), deeper);
  }

  /** Names that survive the loss of entry `e` of `d`: all but the one it gave. */
  lemma NamedStill(n: Names, m: Names, d: nat, e: Slot, p: nat, c: nat)
    requires NamesUnique(n) && Entry(n, d, e) && !IsDot(e) && c != e.ino && p != e.ino
    requires forall q, f :: Entry(n, q, f) && q != e.ino && !(q == d && f == e) ==> Entry(m, q, f)
    requires NamedBy(n, p, c)
    ensures NamedBy(m, p, c)
  {
    var f :| Entry(n, p, f) && !IsDot(f) && f.ino == c;
    assert Entry(m, p, f);
  }

  lemma RemoveFile(n: Names, d: nat, e: Slot)
    requires Tree(n) && Entry(n, d, e) && !IsDot(e) && e.ftype != FT_DIRECTORY
    ensures Tree(WithoutFile(n, d, e))
  {
    var m := WithoutFile(n, d, e);
    assert EntryOk(n, d, e);
    assert forall p, f :: Entry(m, p, f) <==> Entry(n, p, f) && !(p == d && f == e);
    forall p, f ensures EntryOk(m, p, f) {
      assert EntryOk(n, p, f) && OneName(n, p, f, d, e) && ParentOk(n, p);
    }
    forall p, f, q, g ensures OneName(m, p, f, q, g) {
      assert OneName(n, p, f, q, g);
    }
    forall c ensures IsNamed(m, c) {
      assert IsNamed(n, c);
      if c in m.live && c != ROOT {
        var p :| NamedBy(n, p, c);
        var f :| Entry(n, p, f) && !IsDot(f) && f.ino == c;
        assert EntryOk(n, p, f);
        NamedStill(n, m, d, e, p, c);
      }
    }
    forall p ensures ParentOk(m, p) {
      assert ParentOk(n, p);
      if p in m.dirs && p != ROOT {
        NamedStill(n, m, d, e, n.parent[p], p);
      }
    }
    var depth :| Ranked(n, depth);
    assert Ranked(m, depth);
  }

  /** The directory that names a directory is its parent, and not itself. */
  lemma ParentNames(n: Names, d: nat, e: Slot)
    requires Tree(n) && Entry(n, d, e) && !IsDot(e) && e.ftype == FT_DIRECTORY
    ensures e.ino != ROOT && e.ino in n.dirs && n.parent[e.ino] == d && d != e.ino && d in n.dirs
  {
    assert EntryOk(n, d, e) && ParentOk(n, e.ino);
    var f :| Entry(n, n.parent[e.ino], f) && !IsDot(f) && f.ino == e.ino;
    assert OneName(n, d, e, n.parent[e.ino], f);
    var depth :| Ranked(n, depth);
  }

  /** No directory but an empty one's own "." and its parent's entry refers to it. */
  lemma EmptyUnreferenced(n: Names, d: nat, e: Slot, p: nat, f: Slot)
    requires Tree(n) && Entry(n, d, e) && !IsDot(e) && e.ftype == FT_DIRECTORY
    requires forall g :: Entry(n, e.ino, g) ==> IsDot(g)
    requires Entry(n, p, f) && p != e.ino && !(p == d && f == e)
    ensures f.ino != e.ino && n.parent[p] != e.ino
  {
    ParentNames(n, d, e);
    assert EntryOk(n, p, f) && OneName(n, p, f, d, e) && ParentOk(n, p);
    assert !NamedBy(n, e.ino, p);
  }

  lemma RemoveDir(n: Names, d: nat, e: Slot)
    requires Tree(n) && Entry(n, d, e) && !IsDot(e) && e.ftype == FT_DIRECTORY
    requires forall g :: Entry(n, e.ino, g) ==> IsDot(g)
    ensures Tree(WithoutDir(n, d, e))
  {
    var m := WithoutDir(n, d, e);
    ParentNames(n, d, e);
    assert forall p, f :: Entry(m, p, f) <==> Entry(n, p, f) && p != e.ino && !(p == d && f == e);
    forall p, f ensures EntryOk(m, p, f) {
      assert EntryOk(n, p, f);
      if Entry(m, p, f) {
        EmptyUnreferenced(n, d, e, p, f);
      }
    }
    forall p, f, q, g ensures OneName(m, p, f, q, g) {
      assert OneName(n, p, f, q, g);
    }
    RemoveDirNamed(n, d, e);
    RemoveDirParents(n, d, e);
  }

  lemma RemoveDirNamed(n: Names, d: nat, e: Slot)
    requires Tree(n) && Entry(n, d, e) && !IsDot(e) && e.ftype == FT_DIRECTORY
    requires forall g :: Entry(n, e.ino, g) ==> IsDot(g)
    ensures AllNamed(WithoutDir(n, d, e))
  {
    var m := WithoutDir(n, d, e);
    forall c ensures IsNamed(m, c) {
      assert IsNamed(n, c);
      if c in m.live && c != ROOT {
        var p :| NamedBy(n, p, c);
        NamedStill(n, m, d, e, p, c);
      }
    }
  }

  lemma RemoveDirParents(n: Names, d: nat, e: Slot)
    requires Tree(n) && Entry(n, d, e) && !IsDot(e) && e.ftype == FT_DIRECTORY
    requires forall g :: Entry(n, e.ino, g) ==> IsDot(g)
    ensures ParentsOk(WithoutDir(n, d, e)) && Acyclic(WithoutDir(n, d, e))
  {
    var m := WithoutDir(n, d, e);
    ParentNames(n, d, e);
    forall p ensures ParentOk(m, p) {
      assert ParentOk(n, p);
      if p in m.dirs && p != ROOT {
        assert n.parent[p] != e.ino by {
          assert !NamedBy(n, e.ino, p);
        }
        NamedStill(n, m, d, e, n.parent[p], p);
      }
    }
    var depth :| Ranked(n, depth);
    assert Ranked(m, depth);
  }
}
