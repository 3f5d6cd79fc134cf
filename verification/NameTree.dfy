/** The naming structure of a partition: which directory names which inode. */
module NameTree {
  import opened Sectors
  import opened DirEntries

  const ROOT := 0

  /** `entries[d]` are the live entries of directory `d`, `parent[d]` the inode its ".." names. */
  datatype Names = Names(live: set<nat>, dirs: set<nat>, entries: map<nat, set<Slot>>, parent: map<nat, nat>)

  ghost predicate Entry(n: Names, d: nat, e: Slot) {
    d in n.entries && e in n.entries[d]
  }

  /** Directory `d` has a proper entry for inode `c`. */
  ghost predicate NamedBy(n: Names, d: nat, c: nat) {
    exists e :: Entry(n, d, e) && !IsDot(e) && e.ino == c
  }

  ghost predicate TreeShape(n: Names) {
    ROOT in n.dirs && n.dirs <= n.live && n.entries.Keys == n.dirs && n.parent.Keys == n.dirs
  }

  /** Each entry names a live inode of the kind it says, "." the directory itself, ".." its parent. */
  ghost predicate EntryOk(n: Names, d: nat, e: Slot) {
    Entry(n, d, e) ==>
      && e.ino in n.live && (e.ftype == FT_DIRECTORY <==> e.ino in n.dirs)
      && (!IsDot(e) ==> e.ino != ROOT)
      && (e.name == "." ==> e.ino == d)
      && (e.name == ".." ==> d in n.parent && e.ino == n.parent[d])
  }

  ghost predicate EntriesOk(n: Names) {
    forall d, e :: EntryOk(n, d, e)
  }

  /** Two proper entries that name one inode are the same entry of the same directory. */
  ghost predicate OneName(n: Names, d: nat, e: Slot, f: nat, g: Slot) {
    Entry(n, d, e) && Entry(n, f, g) && !IsDot(e) && !IsDot(g) && e.ino == g.ino ==> d == f && e == g
  }

  ghost predicate NamesUnique(n: Names) {
    forall d, e, f, g :: OneName(n, d, e, f, g)
  }

  ghost predicate IsNamed(n: Names, c: nat) {
    c in n.live && c != ROOT ==> exists d :: NamedBy(n, d, c)
  }

  ghost predicate AllNamed(n: Names) {
    forall c :: IsNamed(n, c)
  }

  ghost predicate ParentOk(n: Names, d: nat) {
    d in n.dirs ==>
      d in n.parent && n.parent[d] in n.dirs && (if d == ROOT then n.parent[d] == ROOT else NamedBy(n, n.parent[d], d))
  }

  ghost predicate ParentsOk(n: Names) {
    forall d :: ParentOk(n, d)
  }

  /** A rank for directories that grows by one from parent to child. */
  ghost predicate Ranked(n: Names, depth: map<nat, nat>) {
    && ROOT in depth && depth[ROOT] == 0
    && forall d :: d in n.dirs && d != ROOT ==> d in n.parent && d in depth && n.parent[d] in depth && depth[d] == depth[n.parent[d]] + 1
  }

  ghost predicate Acyclic(n: Names) {
    exists depth :: Ranked(n, depth)
  }

  ghost predicate Tree(n: Names) {
    TreeShape(n) && EntriesOk(n) && NamesUnique(n) && AllNamed(n) && ParentsOk(n) && Acyclic(n)
  }

  /** A regular file `e` appears in directory `d`. */
  function WithFile(n: Names, d: nat, e: Slot): Names
    requires d in n.entries
  {
    n.(live := n.live + {e.ino}, entries := n.entries[d := n.entries[d] + {e}])
  }

  function DotsOf(self: Word, parent: Word): set<Slot> {
    {Slot(".", self, FT_DIRECTORY), Slot("..", parent, FT_DIRECTORY)}
  }

  /** A directory `e` appears in directory `d`, holding only its dots. */
  function WithDir(n: Names, d: Word, e: Slot): Names
    requires d in n.entries
  {
    n.(live := n.live + {e.ino}, dirs := n.dirs + {e.ino},
       entries := n.entries[d := n.entries[d] + {e}][e.ino := DotsOf(e.ino, d)],
       parent := n.parent[e.ino := d])
  }

  /** The file `e` disappears from directory `d`. */
  function WithoutFile(n: Names, d: nat, e: Slot): Names
    requires d in n.entries
  {
    n.(live := n.live - {e.ino}, entries := n.entries[d := n.entries[d] - {e}])
  }

  /** The directory `e` disappears from directory `d`. */
  function WithoutDir(n: Names, d: nat, e: Slot): Names
    requires d in n.entries
  {
    n.(live := n.live - {e.ino}, dirs := n.dirs - {e.ino},
       entries := n.entries[d := n.entries[d] - {e}] - {e.ino}, parent := n.parent - {e.ino})
  }
}
