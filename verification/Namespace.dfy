/** Resolving absolute paths in the tree of names. */
module Namespace {
  import opened DirEntries
  import opened NameTree
  import opened Paths

  /** `Found`: inode, directory it was found in, and whether it is a directory itself. `Lost`: the
      directory without the name and how many names were looked at. `Unset`: no answer was stored. */
  datatype Search = Found(ino: nat, parent: nat, isDir: bool) | Lost(dir: nat, depth: nat) | Unset

  ghost predicate SameName(n: Names, d: nat, e: Slot, f: Slot) {
    Entry(n, d, e) && Entry(n, d, f) && e.name == f.name ==> e == f
  }

  /** Within a directory a name has one meaning. */
  ghost predicate Unambiguous(n: Names) {
    forall d, e, f :: SameName(n, d, e, f)
  }

  ghost predicate DotsIn(n: Names, d: nat) {
    && (exists e :: Entry(n, d, e) && e.name == "." && e.ftype == FT_DIRECTORY)
    && (exists e :: Entry(n, d, e) && e.name == ".." && e.ftype == FT_DIRECTORY)
  }

  ghost predicate AllDots(n: Names) {
    forall d :: d in n.dirs ==> DotsIn(n, d)
  }

  ghost predicate Space(n: Names) {
    Tree(n) && Unambiguous(n) && AllDots(n)
  }

  ghost predicate Bound(n: Names, d: nat, name: string) {
    exists e :: Entry(n, d, e) && e.name == name
  }

  ghost function Binding(n: Names, d: nat, name: string): (e: Slot)
    requires Bound(n, d, name)
    ensures Entry(n, d, e) && e.name == name
  {
    var e :| Entry(n, d, e) && e.name == name; e
  }

  /** Follows the names `cs` from directory `d`, which was entered from `up`. A regular file ends
      the search, whatever names are left. */
  ghost function Walk(n: Names, d: nat, up: nat, cs: seq<string>, seen: nat): Search
    decreases |cs|
  {
    if cs == [] then Found(d, up, true)
    else if !Bound(n, d, cs[0]) then Lost(d, seen + 1)
    else
      var e := Binding(n, d, cs[0]);
      if e.ftype == FT_DIRECTORY then Walk(n, e.ino, d, cs[1..], seen + 1) else Found(e.ino, d, false)
  }

  /** `cs` names directory `d` from the root down. */
  ghost predicate IsPath(n: Names, d: nat, cs: seq<string>)
    decreases |cs|
  {
    if cs == [] then d == ROOT
    else
      && d != ROOT && d in n.parent
      && (exists e :: Entry(n, n.parent[d], e) && e.name == cs[|cs| - 1] && e.ino == d && !IsDot(e))
      && IsPath(n, n.parent[d], cs[..|cs| - 1])
  }

  /** Following `cs` from the root leads through directories to directory `d`. */
  ghost predicate Leads(n: Names, d: nat, cs: seq<string>)
    decreases |cs|
  {
    if cs == [] then d == ROOT
    else exists p, e :: Leads(n, p, cs[..|cs| - 1]) && Entry(n, p, e) && e.name == cs[|cs| - 1] && e.ftype == FT_DIRECTORY && e.ino == d
  }

  /** Searching for `cs` finds directory `d`. */
  ghost predicate FindsDir(n: Names, d: nat, cs: seq<string>) {
    exists up :: Walk(n, ROOT, ROOT, cs, 0) == Found(d, up, true)
  }

  /** Following `cs`, name number `depth` is missing in directory `d`. */
  ghost predicate LostAt(n: Names, cs: seq<string>, d: nat, depth: nat) {
    1 <= depth <= |cs| && Leads(n, d, cs[..depth - 1]) && !Bound(n, d, cs[depth - 1])
  }

  /** Following `cs`, name number `k` is entry `e` of directory `p`. */
  ghost predicate EntryAt(n: Names, cs: seq<string>, k: nat, p: nat, e: Slot) {
    k < |cs| && Leads(n, p, cs[..k]) && Entry(n, p, e) && e.name == cs[k]
  }

  /** What the answer of a search means. */
  ghost predicate Meaning(n: Names, cs: seq<string>, r: Search) {
    match r
    case Lost(d, depth) => LostAt(n, cs, d, depth)
    case Found(ino, p, isDir) =>
      if isDir then cs == [] || exists e :: EntryAt(n, cs, |cs| - 1, p, e) && e.ftype == FT_DIRECTORY && e.ino == ino
      else exists k, e :: EntryAt(n, cs, k, p, e) && e.ftype != FT_DIRECTORY && e.ino == ino
    case Unset => false
  }

  /** Searches that succeeded in `n`, except those for `gone`, give the same answer in `m`. */
  ghost predicate StillFound(n: Names, m: Names, gone: set<nat>) {
    forall cs :: SameSearch(n, m, gone, cs)
  }

  ghost predicate SameSearch(n: Names, m: Names, gone: set<nat>, cs: seq<string>) {
    var r := Walk(n, ROOT, ROOT, cs, 0);
    r.Found? && r.ino !in gone ==> Walk(m, ROOT, ROOT, cs, 0) == r
  }

  /** Following `cs` from directory `at` comes through directory `gone`. */
  ghost predicate Enters(n: Names, at: nat, cs: seq<string>, gone: nat)
    decreases |cs|
  {
    at == gone ||
    (cs != [] && Bound(n, at, cs[0]) && Binding(n, at, cs[0]).ftype == FT_DIRECTORY &&
     Enters(n, Binding(n, at, cs[0]).ino, cs[1..], gone))
  }

  /** Searches that do not come through directory `gone` give the same answer, and those that do are lost. */
  ghost predicate OnlyLost(n: Names, m: Names, gone: nat) {
    forall cs :: LostThrough(n, m, gone, cs)
  }

  ghost predicate LostThrough(n: Names, m: Names, gone: nat, cs: seq<string>) {
    var r := Walk(m, ROOT, ROOT, cs, 0);
    if Enters(n, ROOT, cs, gone) then r.Lost? else r == Walk(n, ROOT, ROOT, cs, 0)
  }

  /** No path finds inode `ino`. */
  ghost predicate Unreachable(n: Names, ino: nat) {
    forall cs :: Misses(n, ino, cs)
  }

  ghost predicate Misses(n: Names, ino: nat, cs: seq<string>) {
    var r := Walk(n, ROOT, ROOT, cs, 0);
    r.Found? ==> r.ino != ino
  }
}

/** Paths, their canonical forms and what they find. */
module NamespaceProofs {
  import opened DirEntries
  import opened NameTree
  import opened NameTreeProofs
  import opened Paths
  import opened Namespace

  lemma BindingIs(n: Names, d: nat, e: Slot)
    requires Unambiguous(n) && Entry(n, d, e)
    ensures Bound(n, d, e.name) && Binding(n, d, e.name) == e
  {
    assert SameName(n, d, e, Binding(n, d, e.name));
  }

  /** A directory has one path. */
  lemma {:induction false} PathUnique(n: Names, d: nat, cs: seq<string>, ds: seq<string>)
    requires Tree(n) && IsPath(n, d, cs) && IsPath(n, d, ds)
    ensures cs == ds
    decreases |cs|
  {
    hide TreeShape, EntriesOk, AllNamed, ParentsOk, Acyclic;
    if cs != [] && ds != [] {
      var i, j := |cs| - 1, |ds| - 1;
      var e :| Entry(n, n.parent[d], e) && e.name == cs[i] && e.ino == d && !IsDot(e);
      var f :| Entry(n, n.parent[d], f) && f.name == ds[j] && f.ino == d && !IsDot(f);
      assert OneName(n, n.parent[d], e, n.parent[d], f);
      PathUnique(n, n.parent[d], cs[..i], ds[..j]);
      assert cs == cs[..i] + [cs[i]] && ds == ds[..j] + [ds[j]];
    }
  }

  /** Every directory has a path. */
  lemma {:induction false} PathExists(n: Names, depth: map<nat, nat>, d: nat) returns (cs: seq<string>)
    requires Tree(n) && Ranked(n, depth) && d in n.dirs && d in depth
    ensures IsPath(n, d, cs) && |cs| == depth[d]
    decreases depth[d]
  {
    hide EntriesOk, NamesUnique, AllNamed, Acyclic;
    if d == ROOT {
      return [];
    }
    assert ParentOk(n, d);
    var p := n.parent[d];
    var above := PathExists(n, depth, p);
    var e :| Entry(n, p, e) && !IsDot(e) && e.ino == d;
    cs := above + [e.name];
    assert cs[..|cs| - 1] == above;
  }

  lemma PathDir(n: Names, d: nat, cs: seq<string>)
    requires Tree(n) && IsPath(n, d, cs)
    ensures d in n.dirs && d in n.parent && n.parent[d] in n.dirs
  {
    hide EntriesOk, NamesUnique, AllNamed, Acyclic;
    assert ParentOk(n, d) && ParentOk(n, ROOT);
  }

  /** The step of the argument that cleaning keeps the meaning: one more name. */
  lemma LeadsStep(n: Names, p: nat, e: Slot, cs: seq<string>)
    requires Space(n) && IsPath(n, p, cs) && Entry(n, p, e) && e.ftype == FT_DIRECTORY
    ensures IsPath(n, e.ino, Move(cs, e.name))
  {
    hide NamesUnique, AllNamed, Acyclic, Unambiguous, AllDots;
    PathDir(n, p, cs);
    assert EntryOk(n, p, e) && ParentOk(n, p) && ParentOk(n, ROOT);
    if !IsDot(e) {
      assert IsPath(n, e.ino, cs + [e.name]) by {
        ParentOfChild(n, p, e);
        assert (cs + [e.name])[..|cs|] == cs;
      }
    }
  }

  lemma ParentOfChild(n: Names, p: nat, e: Slot)
    requires Tree(n) && Entry(n, p, e) && !IsDot(e) && e.ftype == FT_DIRECTORY
    ensures e.ino != ROOT && e.ino in n.parent && n.parent[e.ino] == p
  {
    ParentNames(n, p, e);
  }

  /** Where a path through directories leads is where its canonical form leads. */
  lemma {:induction false} LeadsToWashed(n: Names, d: nat, cs: seq<string>)
    requires Space(n) && Leads(n, d, cs)
    ensures IsPath(n, d, Wash(cs))
    decreases |cs|
  {
    hide Space;
    if cs != [] {
      var k := |cs| - 1;
      var p, e :| Leads(n, p, cs[..k]) && Entry(n, p, e) && e.name == cs[k] && e.ftype == FT_DIRECTORY && e.ino == d;
      LeadsToWashed(n, p, cs[..k]);
      WashSnoc([], cs[..k], cs[k]);
      assert cs[..k] + [cs[k]] == cs;
      LeadsStep(n, p, e, Wash(cs[..k]));
    }
  }

  lemma {:induction false} PathLeads(n: Names, d: nat, cs: seq<string>)
    requires Tree(n) && IsPath(n, d, cs)
    ensures Leads(n, d, cs)
    decreases |cs|
  {
    hide TreeShape, NamesUnique, AllNamed, ParentsOk, Acyclic;
    if cs != [] {
      var k := |cs| - 1;
      var p := n.parent[d];
      var e :| Entry(n, p, e) && e.name == cs[k] && e.ino == d && !IsDot(e);
      PathDirs(n, d, cs);
      assert EntryOk(n, p, e);
      PathLeads(n, p, cs[..k]);
    }
  }

  lemma PathDirs(n: Names, d: nat, cs: seq<string>)
    requires Tree(n) && IsPath(n, d, cs)
    ensures d in n.dirs
  {
    PathDir(n, d, cs);
  }

  /** The walk over the names of a path that leads to a directory finds it. */
  lemma {:induction false} LeadsWalk(n: Names, d: nat, cs: seq<string>, more: seq<string>)
    requires Unambiguous(n) && Leads(n, d, cs)
    ensures exists up :: Walk(n, ROOT, ROOT, cs + more, 0) == Walk(n, d, up, more, |cs|)
    decreases |cs|
  {
    if cs == [] {
      assert cs + more == more;
      assert Walk(n, ROOT, ROOT, cs + more, 0) == Walk(n, d, ROOT, more, |cs|);
    } else {
      var k := |cs| - 1;
      var p, e :| Leads(n, p, cs[..k]) && Entry(n, p, e) && e.name == cs[k] && e.ftype == FT_DIRECTORY && e.ino == d;
      LeadsWalk(n, p, cs[..k], [cs[k]] + more);
      assert cs[..k] + ([cs[k]] + more) == cs + more;
      BindingIs(n, p, e);
      assert ([cs[k]] + more)[1..] == more;
      var up :| Walk(n, ROOT, ROOT, cs + more, 0) == Walk(n, p, up, [cs[k]] + more, k);
      assert Walk(n, p, up, [cs[k]] + more, k) == Walk(n, d, p, more, |cs|);
    }
  }

  lemma LeadsFinds(n: Names, d: nat, cs: seq<string>)
    requires Unambiguous(n) && Leads(n, d, cs)
    ensures FindsDir(n, d, cs)
  {
    LeadsWalk(n, d, cs, []);
    assert cs + [] == cs;
    var up :| Walk(n, ROOT, ROOT, cs, 0) == Walk(n, d, up, [], |cs|);
  }

  /** A walk that finds a directory led there through directories. */
  lemma {:induction false} FindsLeads(n: Names, d: nat, cs: seq<string>, at: nat, up: nat, pre: seq<string>)
    requires Leads(n, at, pre) && Walk(n, at, up, cs, |pre|).Found? && Walk(n, at, up, cs, |pre|).isDir
    requires Walk(n, at, up, cs, |pre|).ino == d
    ensures Leads(n, d, pre + cs)
    decreases |cs|
  {
    if cs == [] {
      assert pre + cs == pre;
    } else {
      var e := Binding(n, at, cs[0]);
      var q := pre + [cs[0]];
      assert q[..|q| - 1] == pre;
      assert Leads(n, e.ino, q);
      FindsLeads(n, d, cs[1..], e.ino, at, q);
      assert q + cs[1..] == pre + cs;
    }
  }

  /** Cleaning a path that finds a directory keeps what it finds, and the clean path is the
      directory's own. */
  lemma WashKeepsMeaning(n: Names, d: nat, cs: seq<string>)
    requires Space(n) && FindsDir(n, d, cs)
    ensures IsPath(n, d, Wash(cs)) && FindsDir(n, d, Wash(cs))
  {
    hide Tree, IsPath, Leads;
    var up :| Walk(n, ROOT, ROOT, cs, 0) == Found(d, up, true);
    RootLeads(n);
    FindsLeads(n, d, cs, ROOT, ROOT, []);
    assert [] + cs == cs;
    LeadsToWashed(n, d, cs);
    PathLeads(n, d, Wash(cs));
    LeadsFinds(n, d, Wash(cs));
  }

  /** A search answers what it says. */
  lemma {:induction false} WalkMeans(n: Names, at: nat, up: nat, pre: seq<string>, cs: seq<string>)
    requires Leads(n, at, pre)
    requires (pre != [] ==> exists e :: EntryAt(n, pre, |pre| - 1, up, e) && e.ftype == FT_DIRECTORY && e.ino == at)
    ensures Meaning(n, pre + cs, Walk(n, at, up, cs, |pre|))
    decreases |cs|
  {
    hide Leads, Entry;
    var all := pre + cs;
    if cs == [] {
      assert all == pre;
    } else {
      var k := |pre|;
      assert all[..k] == pre && all[k] == cs[0];
      if !Bound(n, at, cs[0]) {
        assert LostAt(n, all, at, k + 1);
      } else {
        var e := Binding(n, at, cs[0]);
        assert EntryAt(n, all, k, at, e);
        if e.ftype == FT_DIRECTORY {
          var q := pre + [cs[0]];
          assert q[..k] == pre && q[k] == cs[0] && EntryAt(n, q, k, at, e);
          LeadsOn(n, at, e, pre);
          WalkMeans(n, e.ino, at, q, cs[1..]);
          assert q + cs[1..] == all;
        }
      }
    }
  }

  lemma LeadsOn(n: Names, p: nat, e: Slot, pre: seq<string>)
    requires Leads(n, p, pre) && Entry(n, p, e) && e.ftype == FT_DIRECTORY
    ensures Leads(n, e.ino, pre + [e.name])
  {
    var q := pre + [e.name];
    assert q[..|q| - 1] == pre;
  }

  lemma SearchMeans(n: Names, cs: seq<string>)
    ensures Meaning(n, cs, Walk(n, ROOT, ROOT, cs, 0))
  {
    hide Walk, Meaning;
    RootLeads(n);
    WalkMeans(n, ROOT, ROOT, [], cs);
    assert [] + cs == cs;
  }

  /** More entries, and the old ones kept: every search that succeeded gives the same answer. */
  lemma {:induction false} WalkMore(n: Names, m: Names, at: nat, up: nat, cs: seq<string>, seen: nat)
    requires Unambiguous(m) && (forall d, e :: Entry(n, d, e) ==> Entry(m, d, e)) && Walk(n, at, up, cs, seen).Found?
    ensures Walk(m, at, up, cs, seen) == Walk(n, at, up, cs, seen)
    decreases |cs|
  {
    if cs != [] {
      var e := Binding(n, at, cs[0]);
      hide Unambiguous;
      BindingIs(m, at, e);
      if e.ftype == FT_DIRECTORY {
        WalkMore(n, m, e.ino, at, cs[1..], seen + 1);
      }
    }
  }

  lemma MoreStillFound(n: Names, m: Names)
    requires Unambiguous(m) && forall d, e :: Entry(n, d, e) ==> Entry(m, d, e)
    ensures StillFound(n, m, {})
  {
    hide Walk, Unambiguous;
    forall cs ensures SameSearch(n, m, {}, cs) {
      if Walk(n, ROOT, ROOT, cs, 0).Found? {
        WalkMore(n, m, ROOT, ROOT, cs, 0);
      }
    }
  }

  /** A file gone: every search that succeeded, and did not find it, gives the same answer. */
  lemma {:induction false} WalkLess(n: Names, m: Names, p: nat, gone: Slot, at: nat, up: nat, cs: seq<string>, seen: nat)
    requires Unambiguous(n) && Unambiguous(m) && Entry(n, p, gone) && gone.ftype != FT_DIRECTORY
    requires forall d, e :: Entry(n, d, e) && !(d == p && e == gone) ==> Entry(m, d, e)
    requires Walk(n, at, up, cs, seen).Found? && Walk(n, at, up, cs, seen).ino != gone.ino
    ensures Walk(m, at, up, cs, seen) == Walk(n, at, up, cs, seen)
    decreases |cs|
  {
    if cs != [] {
      var e := Binding(n, at, cs[0]);
      hide Unambiguous;
      BindingIs(m, at, e);
      if e.ftype == FT_DIRECTORY {
        WalkLess(n, m, p, gone, e.ino, at, cs[1..], seen + 1);
      }
    }
  }

  lemma LessStillFound(n: Names, m: Names, p: nat, gone: Slot)
    requires Unambiguous(n) && Unambiguous(m) && Entry(n, p, gone) && gone.ftype != FT_DIRECTORY
    requires forall d, e :: Entry(n, d, e) && !(d == p && e == gone) ==> Entry(m, d, e)
    ensures StillFound(n, m, {gone.ino})
  {
    hide Walk, Unambiguous;
    forall cs ensures SameSearch(n, m, {gone.ino}, cs) {
      if Walk(n, ROOT, ROOT, cs, 0).Found? && Walk(n, ROOT, ROOT, cs, 0).ino != gone.ino {
        WalkLess(n, m, p, gone, ROOT, ROOT, cs, 0);
      }
    }
  }

  /** The only way from outside into directory `e.ino` is its entry `e` in `d`. */
  ghost predicate OneDoor(n: Names, d: nat, e: Slot) {
    && Entry(n, d, e) && e.ftype == FT_DIRECTORY && d != e.ino
    && forall p, f :: Entry(n, p, f) && p != e.ino && f.ftype == FT_DIRECTORY && f.ino == e.ino ==> p == d && f == e
  }

  /** The entries left when directory `e.ino` and its entry `e` in `d` are gone. */
  ghost predicate DoorClosed(n: Names, m: Names, d: nat, e: Slot) {
    forall p, f :: Entry(m, p, f) <==> Entry(n, p, f) && p != e.ino && !(p == d && f == e)
  }

  lemma {:induction false} WalkAround(n: Names, m: Names, d: nat, e: Slot, at: nat, up: nat, cs: seq<string>, seen: nat)
    requires Unambiguous(n) && Unambiguous(m) && OneDoor(n, d, e) && DoorClosed(n, m, d, e) && at != e.ino
    ensures
      var r := Walk(m, at, up, cs, seen);
      if Enters(n, at, cs, e.ino) then r.Lost? else r == Walk(n, at, up, cs, seen)
    decreases |cs|
  {
    if cs != [] {
      if Bound(n, at, cs[0]) {
        var f := Binding(n, at, cs[0]);
        if at == d && f == e {
          ClosedName(n, m, d, e);
          assert Enters(n, e.ino, cs[1..], e.ino);
        } else {
          assert Entry(m, at, f);
          hide Unambiguous;
          BindingIs(m, at, f);
          if f.ftype == FT_DIRECTORY {
            WalkAround(n, m, d, e, f.ino, at, cs[1..], seen + 1);
          }
        }
      } else {
        assert !Bound(m, at, cs[0]);
      }
    }
  }

  lemma ClosedName(n: Names, m: Names, d: nat, e: Slot)
    requires Unambiguous(n) && Entry(n, d, e) && DoorClosed(n, m, d, e)
    ensures !Bound(m, d, e.name)
  {
    forall f | Entry(m, d, f) ensures f.name != e.name {
      assert SameName(n, d, e, f) && f != e;
    }
  }

  lemma AroundAll(n: Names, m: Names, d: nat, e: Slot)
    requires Unambiguous(n) && Unambiguous(m) && OneDoor(n, d, e) && DoorClosed(n, m, d, e) && e.ino != ROOT
    ensures OnlyLost(n, m, e.ino)
  {
    hide Walk, Unambiguous, Enters, OneDoor, DoorClosed;
    forall cs ensures LostThrough(n, m, e.ino, cs) {
      WalkAround(n, m, d, e, ROOT, ROOT, cs, 0);
    }
  }

  /** An empty directory has one door. */
  lemma EmptyHasOneDoor(n: Names, d: nat, e: Slot)
    requires Tree(n) && Entry(n, d, e) && !IsDot(e) && e.ftype == FT_DIRECTORY
    requires forall g :: Entry(n, e.ino, g) ==> IsDot(g)
    ensures OneDoor(n, d, e) && DoorClosed(n, WithoutDir(n, d, e), d, e) && e.ino != ROOT
  {
    hide AllNamed, Acyclic;
    assert EntryOk(n, d, e);
    forall p, f | Entry(n, p, f) && p != e.ino && f.ftype == FT_DIRECTORY && f.ino == e.ino ensures p == d && f == e {
      assert EntryOk(n, p, f) && ParentOk(n, p);
      assert OneName(n, d, e, p, f);
    }
  }

  /** A search ends at one file. */
  lemma OneFile(n: Names, cs: seq<string>, k: nat, p: nat, e: Slot, j: nat, q: nat, f: Slot)
    requires Space(n) && EntryAt(n, cs, k, p, e) && e.ftype != FT_DIRECTORY && EntryAt(n, cs, j, q, f)
    ensures j <= k
  {
    if k < j {
      hide Tree, AllDots, Leads, Walk;
      assert cs[..k] + [e.name] + cs[k + 1..j] == cs[..j];
      FileEndsSearch(n, p, cs[..k], e, cs[k + 1..j]);
      LeadsFinds(n, q, cs[..j]);
    }
  }

  /** Only live inodes are found. */
  lemma {:induction false} WalkLive(n: Names, at: nat, up: nat, cs: seq<string>, seen: nat)
    requires Tree(n) && at in n.live && Walk(n, at, up, cs, seen).Found?
    ensures Walk(n, at, up, cs, seen).ino in n.live
    decreases |cs|
  {
    hide NamesUnique, AllNamed, ParentsOk, Acyclic;
    if cs != [] {
      var e := Binding(n, at, cs[0]);
      assert EntryOk(n, at, e);
      if e.ftype == FT_DIRECTORY {
        WalkLive(n, e.ino, at, cs[1..], seen + 1);
      }
    }
  }

  lemma DeadUnreachable(n: Names, ino: nat)
    requires Tree(n) && ino !in n.live
    ensures Unreachable(n, ino)
  {
    assert ROOT in n.live;
    hide Walk, Tree;
    forall cs ensures Misses(n, ino, cs) {
      if Walk(n, ROOT, ROOT, cs, 0).Found? {
        WalkLive(n, ROOT, ROOT, cs, 0);
      }
    }
  }

  /** A new name in the directory a search ended in is found by that search. */
  lemma NewNameFound(n: Names, m: Names, cs: seq<string>, d: nat, e: Slot)
    requires Unambiguous(m) && (forall p, f :: Entry(n, p, f) ==> Entry(m, p, f)) && Entry(m, d, e)
    requires LostAt(n, cs, d, |cs|) && e.name == cs[|cs| - 1]
    ensures Walk(m, ROOT, ROOT, cs, 0) == Found(e.ino, d, e.ftype == FT_DIRECTORY)
  {
    var k := |cs| - 1;
    LeadsMore(n, m, d, cs[..k]);
    hide Unambiguous, Leads, Entry;
    LeadsWalk(m, d, cs[..k], [cs[k]]);
    assert cs[..k] + [cs[k]] == cs;
    BindingIs(m, d, e);
  }

  lemma {:induction false} LeadsMore(n: Names, m: Names, d: nat, cs: seq<string>)
    requires Leads(n, d, cs) && forall p, f :: Entry(n, p, f) ==> Entry(m, p, f)
    ensures Leads(m, d, cs)
    decreases |cs|
  {
    hide Entry;
    if cs != [] {
      var k := |cs| - 1;
      var p, e :| Leads(n, p, cs[..k]) && Entry(n, p, e) && e.name == cs[k] && e.ftype == FT_DIRECTORY && e.ino == d;
      LeadsMore(n, m, p, cs[..k]);
    }
  }

  lemma RootLeads(n: Names)
    ensures Leads(n, ROOT, [])
  {
  }

  /** Two paths find the same directory exactly when their canonical forms are equal. */
  lemma SameDirectory(n: Names, d: nat, cs: seq<string>, e: nat, ds: seq<string>)
    requires Space(n) && FindsDir(n, d, cs) && FindsDir(n, e, ds)
    ensures d == e <==> Wash(cs) == Wash(ds)
  {
    hide Tree, Unambiguous, AllDots, IsPath, Walk, Wash;
    WashKeepsMeaning(n, d, cs);
    WashKeepsMeaning(n, e, ds);
    if d == e {
      PathUnique(n, d, Wash(cs), Wash(ds));
    }
  }

  /** A regular file ends a search, whatever names follow. */
  lemma FileEndsSearch(n: Names, p: nat, cs: seq<string>, e: Slot, more: seq<string>)
    requires Space(n) && Leads(n, p, cs) && Entry(n, p, e) && e.ftype != FT_DIRECTORY
    ensures Walk(n, ROOT, ROOT, cs + [e.name] + more, 0) == Found(e.ino, p, false)
  {
    hide Tree, AllDots, Leads;
    LeadsWalk(n, p, cs, [e.name] + more);
    assert cs + ([e.name] + more) == cs + [e.name] + more;
    BindingIs(n, p, e);
  }

  lemma LeadsClean(n: Names, p: nat, cs: seq<string>, w: seq<string>, k: nat)
    requires Space(n) && Leads(n, p, cs) && Clean(w) && k <= |w| && Leads(n, p, w[..k])
    ensures w[..k] == Wash(cs)
  {
    hide Tree, Unambiguous, AllDots, Leads, IsPath;
    LeadsToWashed(n, p, cs);
    LeadsToWashed(n, p, w[..k]);
    WashClean([], w[..k]);
    assert [] + w[..k] == w[..k];
    PathUnique(n, p, w[..k], Wash(cs));
  }

  /** Cleaning a path that goes on behind the name of a file. The search for the path finds the file,
      whatever follows its name. The search for its clean form finds the file exactly when what follows
      does not take the file's name away again: "/f/x" and "/f/." keep their meaning, "/f/.." does not. */
  lemma WashedFile(n: Names, p: nat, cs: seq<string>, e: Slot, more: seq<string>)
    requires Space(n) && Leads(n, p, cs) && Entry(n, p, e) && e.ftype != FT_DIRECTORY
    ensures
      var path := cs + [e.name] + more;
      && Walk(n, ROOT, ROOT, path, 0) == Found(e.ino, p, false)
      && (Walk(n, ROOT, ROOT, Wash(path), 0) == Walk(n, ROOT, ROOT, path, 0) <==> Wash(cs) + [e.name] <= Wash(path))
  {
    var w := Wash(cs + [e.name] + more);
    hide Tree, Unambiguous, AllDots, Leads, Walk, Wash;
    FileEndsSearch(n, p, cs, e, more);
    WashIsClean(cs + [e.name] + more);
    if Wash(cs) + [e.name] <= w {
      LeadsToWashed(n, p, cs);
      PathLeads(n, p, Wash(cs));
      var k := |Wash(cs)| + 1;
      FileEndsSearch(n, p, Wash(cs), e, w[k..]);
      assert Wash(cs) + [e.name] + w[k..] == w;
    } else if Walk(n, ROOT, ROOT, w, 0) == Found(e.ino, p, false) {
      WashedFileBack(n, p, cs, e, w);
    }
  }

  lemma WashIsClean(cs: seq<string>)
    ensures Clean(Wash(cs))
  {
    WashClean([], cs);
  }

  lemma WashedFileBack(n: Names, p: nat, cs: seq<string>, e: Slot, w: seq<string>)
    requires Space(n) && Leads(n, p, cs) && Entry(n, p, e) && e.ftype != FT_DIRECTORY && Clean(w)
    requires Walk(n, ROOT, ROOT, w, 0) == Found(e.ino, p, false)
    ensures Wash(cs) + [e.name] <= w
  {
    hide Unambiguous, AllDots, Leads, Walk, Wash;
    SearchMeans(n, w);
    var k: nat, f :| EntryAt(n, w, k, p, f) && f.ftype != FT_DIRECTORY && f.ino == e.ino;
    LeadsClean(n, p, cs, w, k);
    NoDot(n, p, e);
    NoDot(n, p, f);
    assert OneName(n, p, e, p, f);
    assert w[..k] + [w[k]] == w[..k + 1];
  }

  /** Cleaning a path whose search is lost in directory `p`, behind the names `cs`, at the name `x`: the
      search for the clean form is lost in `p` exactly when the clean form still goes through `p`, and on
      to a name `p` does not have. "/x/.." is lost, and its clean form finds the root. */
  lemma WashedLost(n: Names, p: nat, cs: seq<string>, x: string, more: seq<string>)
    requires Space(n) && Leads(n, p, cs) && !Bound(n, p, x)
    ensures
      var path := cs + [x] + more;
      var w := Wash(path);
      && Walk(n, ROOT, ROOT, path, 0) == Lost(p, |cs| + 1)
      && (Walk(n, ROOT, ROOT, w, 0) == Lost(p, |Wash(cs)| + 1)
          <==> Wash(cs) <= w && |Wash(cs)| < |w| && !Bound(n, p, w[|Wash(cs)|]))
      && (Wash(cs) + [x] <= w ==> Walk(n, ROOT, ROOT, w, 0) == Lost(p, |Wash(cs)| + 1))
  {
    var w := Wash(cs + [x] + more);
    hide Tree, Unambiguous, AllDots, Leads, Walk, Wash;
    LostEndsSearch(n, p, cs, x, more);
    WashIsClean(cs + [x] + more);
    LeadsToWashed(n, p, cs);
    PathLeads(n, p, Wash(cs));
    var k := |Wash(cs)|;
    if Wash(cs) <= w && k < |w| && !Bound(n, p, w[k]) {
      LostEndsSearch(n, p, Wash(cs), w[k], w[k + 1..]);
      assert Wash(cs) + [w[k]] + w[k + 1..] == w;
    }
    if Walk(n, ROOT, ROOT, w, 0) == Lost(p, k + 1) {
      SearchMeans(n, w);
      LeadsClean(n, p, cs, w, k);
    }
  }

  lemma LostEndsSearch(n: Names, p: nat, cs: seq<string>, x: string, more: seq<string>)
    requires Space(n) && Leads(n, p, cs) && !Bound(n, p, x)
    ensures Walk(n, ROOT, ROOT, cs + [x] + more, 0) == Lost(p, |cs| + 1)
  {
    hide Tree, AllDots, Leads;
    LeadsWalk(n, p, cs, [x] + more);
    assert cs + ([x] + more) == cs + [x] + more;
  }

  /** One name behind the file: cleaning keeps the meaning exactly when that name is not "..". */
  lemma WashedFileThenOne(n: Names, p: nat, cs: seq<string>, e: Slot, x: string)
    requires Space(n) && Leads(n, p, cs) && Entry(n, p, e) && e.ftype != FT_DIRECTORY
    ensures
      var path := cs + [e.name] + [x];
      Walk(n, ROOT, ROOT, Wash(path), 0) == Walk(n, ROOT, ROOT, path, 0) <==> x != ".."
  {
    NoDot(n, p, e);
    hide Space, Leads, Walk;
    WashSnoc([], cs, e.name);
    WashSnoc([], cs + [e.name], x);
    WashedFile(n, p, cs, e, [x]);
  }

  lemma NoDot(n: Names, p: nat, e: Slot)
    requires Tree(n) && Entry(n, p, e) && e.ftype != FT_DIRECTORY
    ensures !IsDot(e)
  {
    assert EntryOk(n, p, e) && ParentOk(n, p);
  }
}
