/** Path search and the working directory's path, on the partition itself. */
module NamespaceOps {
  import opened Sectors
  import opened Volumes
  import opened DirEntries
  import opened DirViews
  import opened DirStates
  import opened Directories
  import opened NameTree
  import opened NameTreeProofs
  import opened FsStates
  import opened FsProofs
  import opened FsOps
  import opened Paths
  import opened Namespace
  import opened NamespaceProofs

  const MAX_PATH_LEN := 128

  lemma SpaceOf(v: Vol)
    requires Inv(v)
    ensures Space(NamesOf(v))
  {
    hide Sound, Shapes, Tree, NamesOf, RootFirst, ViewAt, Has;
    EntriesAre(v);
    DirsLive(v);
    var n := NamesOf(v);
    forall d, e, f ensures SameName(n, d, e, f) {
      if Entry(n, d, e) && Entry(n, d, f) && e.name == f.name {
        OneBinding(v, d, e, f);
      }
    }
    forall d | d in n.dirs ensures DotsIn(n, d) {
      var e, f := DotsAt(v, d);
      assert Entry(n, d, e) && Entry(n, d, f);
    }
  }

  lemma DirsOf(v: Vol)
    requires Inv(v)
    ensures NamesOf(v).dirs == v.dirs && NamesOf(v).live == v.inodes.Keys
  {
    hide Shapes, Tree, RootFirst, Owns, BitsMatch;
    DirsLive(v);
  }

  lemma OneBinding(v: Vol, d: nat, e: Slot, f: Slot)
    requires Inv(v) && d in v.dirs && Has(ViewAt(v, d), e) && Has(ViewAt(v, d), f) && e.name == f.name
    ensures e == f
  {
    hide Sound, Shapes, Tree, NamesOf, RootFirst, ViewAt, Has, WellFormed;
    IsDirAt(v, d);
    BindingUnique(DirView(v, d), d, e, f);
  }

  lemma DotsAt(v: Vol, d: nat) returns (e: Slot, f: Slot)
    requires Inv(v) && d in v.dirs
    ensures Has(ViewAt(v, d), e) && e.name == "." && e.ftype == FT_DIRECTORY
    ensures Has(ViewAt(v, d), f) && f.name == ".." && f.ftype == FT_DIRECTORY
    ensures ViewAt(v, d) == DirView(v, d) && |DirView(v, d)| == 12 && |DirView(v, d)[0]| == PER_SECTOR
    ensures f == DirView(v, d)[0][1]
  {
    hide Sound, Shapes, Tree, NamesOf, RootFirst, ViewAt, NoClash, NoneHollow, ValidSlots, ViewOf, Total;
    IsDirAt(v, d);
    var w := DirView(v, d);
    e, f := w[0][0], w[0][1];
    assert LiveAt(w, 0, 0) && LiveAt(w, 0, 1);
  }

  // ---- search ----

  ghost predicate ShortNames(cs: seq<string>) {
    forall i :: 0 <= i < |cs| ==> |cs[i]| <= 15
  }

  /** What a search gives: `"//"` and the like leave the answer unset. */
  ghost function SearchOf(n: Names, path: string): Search {
    if Components(path) == [] && path != "/" then Unset else Walk(n, ROOT, ROOT, Components(path), 0)
  }

  lemma RootShortcut(n: Names, cs: seq<string>)
    requires Space(n) && (cs == [] || cs == ["."] || cs == [".."])
    ensures Walk(n, ROOT, ROOT, cs, 0) == Found(ROOT, ROOT, true)
  {
    hide NamesUnique, AllNamed, Acyclic;
    if cs != [] {
      assert DotsIn(n, ROOT) && ParentOk(n, ROOT);
      var e :| Entry(n, ROOT, e) && e.name == cs[0] && e.ftype == FT_DIRECTORY;
      assert EntryOk(n, ROOT, e);
      BindingIs(n, ROOT, e);
      assert cs[1..] == [];
    }
  }

  lemma ShortPaths()
    ensures Components("/") == [] && Components("/.") == ["."] && Components("/..") == [".."]
  {
    RenderRoundTrip([]);
    assert Join([]) == "";
    assert Join(["."]) == Join(["."][..0]) + "/" + "." == "/.";
    RenderRoundTrip(["."]);
    assert Join([".."]) == Join([".."][..0]) + "/" + ".." == "/..";
    RenderRoundTrip([".."]);
  }

  /** The three spellings of the root that are not searched for. */
  predicate IsRootPath(path: string) {
    path == "/" || path == "/." || path == "/.."
  }

  lemma RootSearch(n: Names, path: string)
    requires Space(n) && IsRootPath(path)
    ensures SearchOf(n, path) == Found(ROOT, ROOT, true)
  {
    hide Space, Components, Walk;
    ShortPaths();
    RootShortcut(n, Components(path));
  }

  lemma OtherSearch(n: Names, path: string)
    requires !IsRootPath(path)
    ensures SearchOf(n, path) == if Components(path) == [] then Unset else Walk(n, ROOT, ROOT, Components(path), 0)
  {
    hide Components, Walk;
  }

  /** One lookup of the search agrees with the names. */
  lemma LookedUp(v: Vol, d: nat, name: string, found: Option<Slot>)
    requires Inv(v) && d in v.dirs
    requires found.Some? ==> Has(DirView(v, d), found.value) && found.value.name == name
    requires found.None? ==> forall e :: Has(DirView(v, d), e) ==> e.name != name
    ensures found.Some? <==> Bound(NamesOf(v), d, name)
    ensures found.Some? ==> found.value == Binding(NamesOf(v), d, name) && Entry(NamesOf(v), d, found.value)
    ensures found.Some? ==> found.value.ftype == FT_REGULAR || (found.value.ftype == FT_DIRECTORY && found.value.ino in v.dirs)
  {
    hide Sound, Shapes, Tree, RootFirst, ViewAt, Has, NamesOf, DirView, IsDir;
    EntriesAre(v);
    IsDirAt(v, d);
    SpaceOf(v);
    if found.Some? {
      EntryKind(v, d, found.value);
      EntryTyped(v, d, found.value);
      BindingIs(NamesOf(v), d, found.value);
    }
  }

  /** Finds what an absolute path names. `searched` is the part of the path that was looked at, its
      first `seen` names: all of them when the answer is a directory, those up to the file or the
      missing name otherwise. */
  method SearchFile(vol: Volume, path: string) returns (r: Search, searched: string, ghost seen: nat)
    requires Inv(vol.State()) && path != "" && path[0] == '/' && |path| < MAX_PATH_LEN && ShortNames(Components(path))
    ensures r == SearchOf(NamesOf(vol.State()), path)
    ensures seen <= |Components(path)| && searched == Join(Components(path)[..seen])
    ensures r.Lost? ==> seen == r.depth
    ensures r.Found? && !r.isDir ==> seen >= 1
    ensures r.Found? && !r.isDir ==>
      exists e :: EntryAt(NamesOf(vol.State()), Components(path), seen - 1, r.parent, e) && e.ftype != FT_DIRECTORY && e.ino == r.ino
  {
    hide Inv, NamesOf, Components, Space, Join, Walk, EntryAt, ShortNames, SearchOf, IsRootPath;
    ghost var n := NamesOf(vol.State());
    SpaceOf(vol.State());
    JoinEmpty();
    searched, seen := "", 0;
    if IsRootPath(path) {
      RootSearch(n, path);
      return Found(ROOT, ROOT, true), searched, seen;
    }
    OtherSearch(n, path);
    r, searched, seen := SearchNames(vol, path);
  }

  /** Looks a name up in a directory. */
  method LookUp(vol: Volume, dir: nat, name: string) returns (found: Option<Slot>)
    requires Inv(vol.State()) && dir in vol.dirs && name != ""
    ensures found.Some? <==> Bound(NamesOf(vol.State()), dir, name)
    ensures found.Some? ==> found.value == Binding(NamesOf(vol.State()), dir, name)
    ensures found.Some? && found.value.ftype == FT_DIRECTORY ==> found.value.ino in vol.dirs
  {
    hide Inv, ViewAt, Has, NamesOf, DirView, IsDir, Bound;
    IsDirAt(vol.State(), dir);
    found := SearchDirEntry(vol, dir, name);
    LookedUp(vol.State(), dir, name, found);
  }

  /** Follows the names of a path, one after the other. */
  method SearchNames(vol: Volume, path: string) returns (r: Search, searched: string, ghost seen: nat)
    requires Inv(vol.State())
    ensures r == if Components(path) == [] then Unset else Walk(NamesOf(vol.State()), ROOT, ROOT, Components(path), 0)
    ensures seen <= |Components(path)| && searched == Join(Components(path)[..seen])
    ensures r.Lost? ==> seen == r.depth
    ensures r.Found? && !r.isDir ==> seen >= 1
    ensures r.Found? && !r.isDir ==>
      exists e :: EntryAt(NamesOf(vol.State()), Components(path), seen - 1, r.parent, e) && e.ftype != FT_DIRECTORY && e.ino == r.ino
  {
    hide Inv, NamesOf, Bound, Components, Join, Walk, Searching, EntryAt, Left;
    ghost var n, all := NamesOf(vol.State()), Components(path);
    RootIsDir(vol.State());
    JoinEmpty();
    searched, seen := "", 0;
    assert all[0..] == all && all[..0] == [];
    var name, rest := PathParse(path);
    LeftNone(name, rest);
    if name == "" {
      return Unset, searched, seen;
    }
    var dir: nat, up: nat := ROOT, ROOT;
    var depth: nat := 0;
    SearchStart(n, all);
    while name != ""
      invariant seen == depth <= |all| && Searching(n, all, dir, up, depth, searched) && dir in vol.dirs
      invariant all[depth..] == Left(name, rest)
      decreases |all| - depth
    {
      LeftStep(all, depth, name, rest);
      SearchStep(n, all, dir, up, depth, searched);
      var found := LookUp(vol, dir, name);
      searched := searched + "/" + name;
      depth := depth + 1;
      seen := depth;
      if found.None? {
        return Lost(dir, depth), searched, seen;
      }
      var e := found.value;
      name, rest := NextName(rest);
      if e.ftype != FT_DIRECTORY {
        return Found(e.ino, dir, false), searched, seen;
      }
      up, dir := dir, e.ino;
    }
    LeftNone(name, rest);
    SearchEnd(n, all, dir, up, depth, searched);
    r := Found(dir, up, true);
  }

  /** The first `depth` names have led to `dir`, entered from `up`. */
  ghost predicate Searching(n: Names, all: seq<string>, dir: nat, up: nat, depth: nat, searched: string) {
    && depth <= |all| && searched == Join(all[..depth]) && Leads(n, dir, all[..depth])
    && Walk(n, ROOT, ROOT, all, 0) == Walk(n, dir, up, all[depth..], depth)
  }

  lemma SearchStart(n: Names, all: seq<string>)
    ensures Searching(n, all, ROOT, ROOT, 0, "")
  {
    hide Walk;
    assert all[0..] == all && all[..0] == [];
    JoinEmpty();
    RootLeads(n);
  }

  lemma SearchStep(n: Names, all: seq<string>, dir: nat, up: nat, depth: nat, searched: string)
    requires Searching(n, all, dir, up, depth, searched) && depth < |all|
    ensures searched + "/" + all[depth] == Join(all[..depth + 1])
    ensures !Bound(n, dir, all[depth]) ==> Walk(n, ROOT, ROOT, all, 0) == Lost(dir, depth + 1)
    ensures Bound(n, dir, all[depth]) ==>
      var e := Binding(n, dir, all[depth]);
      && (e.ftype == FT_DIRECTORY ==> Searching(n, all, e.ino, dir, depth + 1, searched + "/" + all[depth]))
      && (e.ftype != FT_DIRECTORY ==> Walk(n, ROOT, ROOT, all, 0) == Found(e.ino, dir, false) && EntryAt(n, all, depth, dir, e))
  {
    hide Leads, Join, Bound;
    JoinMore(all, depth);
    assert all[depth..][0] == all[depth] && all[depth..][1..] == all[depth + 1..];
    if Bound(n, dir, all[depth]) {
      var e := Binding(n, dir, all[depth]);
      if e.ftype == FT_DIRECTORY {
        LeadsOn(n, dir, e, all[..depth]);
        assert all[..depth + 1] == all[..depth] + [e.name];
      }
    }
  }

  lemma SearchEnd(n: Names, all: seq<string>, dir: nat, up: nat, depth: nat, searched: string)
    requires Searching(n, all, dir, up, depth, searched) && depth == |all|
    ensures Walk(n, ROOT, ROOT, all, 0) == Found(dir, up, true) && searched == Join(all[..depth])
  {
    hide Leads, Join;
    assert all[depth..] == [];
  }

  lemma JoinEmpty()
    ensures Join([]) == ""
  {
  }

  lemma JoinMore(cs: seq<string>, k: nat)
    requires k < |cs|
    ensures Join(cs[..k + 1]) == Join(cs[..k]) + "/" + cs[k]
  {
    hide Join;
    JoinSnoc(cs[..k], cs[k]);
    assert cs[..k + 1] == cs[..k] + [cs[k]];
  }

  // ---- the working directory ----

  /** The parent's inode, from the second slot of the first block. */
  method ParentInode(vol: Volume, child: nat) returns (parent: nat)
    requires Inv(vol.State()) && child in vol.dirs
    ensures child in NamesOf(vol.State()).parent && parent == NamesOf(vol.State()).parent[child]
  {
    hide Sound, Shapes, Tree, RootFirst, Has, ViewOf;
    ghost var v := vol.State();
    ghost var e, f := DotsAt(v, child);
    FirstBlockOf(v, child);
    var block := vol.inodes[child].sectors[0];
    assert block >= vol.start;
    var slots := Slots(Get(vol.disk, block));
    ParentSmall(v, child);
    assert slots[1].ino < 4096 && slots[1].ftype == FT_DIRECTORY;
    parent := slots[1].ino;
  }

  lemma SmallNumber(v: Vol, d: nat)
    requires Inv(v) && d in v.dirs
    ensures d < 4096
  {
    hide Shapes, Tree, NamesOf, RootFirst, Owns, BitsMatch;
  }

  /** The number in ".." passes the check on it. */
  lemma ParentSmall(v: Vol, child: nat)
    requires Inv(v) && child in v.dirs
    ensures child in NamesOf(v).parent && NamesOf(v).parent[child] < 4096
  {
    hide Sound, Shapes, NamesOf, RootFirst, EntriesOk, NamesUnique, AllNamed, Acyclic;
    DirsLive(v);
    assert ParentOk(NamesOf(v), child);
    SmallNumber(v, NamesOf(v).parent[child]);
  }

  lemma FirstBlockOf(v: Vol, d: nat)
    requires Inv(v) && d in v.dirs
    ensures d in v.inodes && |v.inodes[d].sectors| == 13 && v.inodes[d].sectors[0] >= v.start
    ensures DirView(v, d)[0] == Slots(Get(v.disk, v.inodes[d].sectors[0]))
  {
    hide Shapes, Tree, RootFirst, Has, NamesOf, NoClash, NoneHollow, ValidSlots, Total, Slots;
    IsDirAt(v, d);
    assert Layouts(v.disk, v.inodes)[d][0] == v.inodes[d].sectors[0];
  }

  /** A slot that holds the number of a child directory is the child's entry. */
  lemma ChildSlot(v: Vol, parent: nat, child: nat, i: nat, k: nat)
    requires Inv(v) && child in v.dirs && child != ROOT && parent == NamesOf(v).parent[child] && parent in v.dirs
    requires i < |DirView(v, parent)| && k < |DirView(v, parent)[i]| && DirView(v, parent)[i][k].ino == child
    ensures var e := DirView(v, parent)[i][k]; Entry(NamesOf(v), parent, e) && !IsDot(e)
  {
    hide Sound, Shapes, RootFirst, Has, NamesOf, ViewAt, NamesUnique, AllNamed;
    EntriesAre(v);
    IsDirAt(v, parent);
    LiveThere(v, parent, i, k);
    NotGrandparent(NamesOf(v), parent, child, DirView(v, parent)[i][k]);
  }

  lemma NotGrandparent(n: Names, parent: nat, child: nat, e: Slot)
    requires Tree(n) && child in n.dirs && child != ROOT && parent == n.parent[child] && Entry(n, parent, e)
    requires e.ino == child
    ensures !IsDot(e)
  {
    hide NamesUnique, AllNamed;
    assert EntryOk(n, parent, e) && ParentOk(n, child) && ParentOk(n, parent);
    var depth :| Ranked(n, depth);
    assert depth[child] == depth[parent] + 1;
    if parent != ROOT {
      assert depth[parent] == depth[n.parent[parent]] + 1;
    }
  }

  lemma LiveThere(v: Vol, d: nat, i: nat, k: nat)
    requires Inv(v) && d in v.dirs && d in v.inodes && |v.inodes[d].sectors| == 13
    requires i < |DirView(v, d)| && k < |DirView(v, d)[i]| && DirView(v, d)[i][k].ino != 0
    ensures Has(ViewAt(v, d), DirView(v, d)[i][k]) && ViewAt(v, d) == DirView(v, d)
  {
    hide Sound, Shapes, Tree, NamesOf, RootFirst, NoClash, NoneHollow, Dots, ViewOf, Total;
    IsDirAt(v, d);
    assert ValidSlot(DirView(v, d)[i][k]);
    assert LiveAt(DirView(v, d), i, k);
  }

  /** No slot of the first blocks holds the number. */
  ghost predicate Unseen(w: View, blocks: nat, ino: nat) {
    forall i, k :: 0 <= i < blocks && i < |w| && 0 <= k < |w[i]| ==> w[i][k].ino != ino
  }

  method FindIno(b: seq<Slot>, ino: nat) returns (k: nat)
    ensures k <= |b| && (k < |b| ==> b[k].ino == ino) && forall j :: 0 <= j < k ==> b[j].ino != ino
  {
    k := 0;
    while k < |b| && b[k].ino != ino
      invariant k <= |b| && forall j :: 0 <= j < k ==> b[j].ino != ino
    {
      k := k + 1;
    }
  }

  /** `name` is what directory `parent` calls `child`. */
  ghost predicate Calls(n: Names, parent: nat, child: nat, name: string) {
    exists e :: Entry(n, parent, e) && e.name == name && e.ino == child && !IsDot(e)
  }

  lemma UnseenStep(w: View, i: nat, ino: nat)
    requires Unseen(w, i, ino) && (i < |w| ==> forall k :: 0 <= k < |w[i]| ==> w[i][k].ino != ino)
    ensures Unseen(w, i + 1, ino)
  {
  }

  /** The name of directory `child` in its parent, found by number. */
  method ChildDirName(vol: Volume, parent: nat, child: nat) returns (r: Option<string>)
    requires Inv(vol.State()) && child in vol.dirs && child != ROOT
    requires parent == NamesOf(vol.State()).parent[child] && parent in vol.dirs
    ensures r.Some? ==> Calls(NamesOf(vol.State()), parent, child, r.value)
    ensures r.None? ==> Unseen(ViewAt(vol.State(), parent), MAX_BLOCKS, child)
  {
    hide Sound, Shapes, Tree, NamesOf, RootFirst, Has, ViewAt, DirOk, Unseen, Slots, Place, ViewOf, DirView;
    ghost var v := vol.State();
    IsDirAt(v, parent);
    ghost var x: View := DirView(v, parent);
    var n := vol.inodes[parent];
    var blocks := AllBlocks(vol.disk, n);
    var i := 0;
    assert Unseen(x, 0, child) by {
      UnseenNone(x, child);
    }
    while i < MAX_BLOCKS
      invariant 0 <= i <= MAX_BLOCKS && Unseen(x, i, child)
    {
      if blocks[i] != 0 {
        var b := Slots(Get(vol.disk, blocks[i]));
        InView(v, parent, i);
        var k := FindIno(b, child);
        if k < |b| {
          ChildSlot(v, parent, child, i, k);
          return Some(b[k].name);
        }
      } else {
        NoBlockAt(v, parent, i);
      }
      UnseenStep(x, i, child);
      i := i + 1;
    }
    r := None;
  }

  lemma UnseenNone(w: View, ino: nat)
    ensures Unseen(w, 0, ino)
  {
  }

  lemma InView(v: Vol, d: nat, i: nat)
    requires IsDir(v, d) && i < MAX_BLOCKS && Place(v.disk, v.inodes[d], i) != 0
    ensures i < 12 && |DirView(v, d)| == 12 && DirView(v, d)[i] == Slots(Get(v.disk, Place(v.disk, v.inodes[d], i)))
  {
    hide DirOk, Slots;
  }

  lemma NoBlockAt(v: Vol, d: nat, i: nat)
    requires IsDir(v, d) && i < MAX_BLOCKS && Place(v.disk, v.inodes[d], i) == 0
    ensures |DirView(v, d)| == 12 && (i < 12 ==> DirView(v, d)[i] == [])
  {
    hide DirOk, Slots;
  }

  /** The child is in its parent somewhere. */
  lemma Seen(v: Vol, parent: nat, child: nat)
    requires Inv(v) && child in v.dirs && child != ROOT && parent == NamesOf(v).parent[child] && parent in v.dirs
    ensures !Unseen(ViewAt(v, parent), MAX_BLOCKS, child)
  {
    hide Sound, Shapes, RootFirst, NamesOf, ViewAt, NamesUnique, AllNamed, Acyclic, EntriesOk, ViewOf;
    EntriesAre(v);
    DirsLive(v);
    IsDirAt(v, parent);
    var n := NamesOf(v);
    assert ParentOk(n, child);
    var e :| Entry(n, parent, e) && !IsDot(e) && e.ino == child;
    var w := DirView(v, parent);
    assert Has(w, e);
    var i, k :| LiveAt(w, i, k) && w[i][k] == e;
    assert w[i][k].ino == child;
  }

  /** `rs` are the names from directory `d` up to, but not including, the name of `top`. */
  ghost predicate Climb(n: Names, d: nat, rs: seq<string>, top: nat)
    decreases |rs|
  {
    if rs == [] then top == d
    else d != ROOT && d in n.parent && Calls(n, n.parent[d], d, rs[0]) && Climb(n, n.parent[d], rs[1..], top)
  }

  function Reverse(rs: seq<string>): (cs: seq<string>)
    ensures |cs| == |rs|
  {
    if rs == [] then [] else Reverse(rs[1..]) + [rs[0]]
  }

  lemma {:induction false} ClimbOn(n: Names, d: nat, rs: seq<string>, top: nat, name: string)
    requires Climb(n, d, rs, top) && top != ROOT && top in n.parent && Calls(n, n.parent[top], top, name)
    ensures Climb(n, d, rs + [name], n.parent[top])
    decreases |rs|
  {
    hide Calls;
    if rs == [] {
      assert (rs + [name])[1..] == [];
    } else {
      ClimbOn(n, n.parent[d], rs[1..], top, name);
      assert (rs + [name])[1..] == rs[1..] + [name];
    }
  }

  lemma {:induction false} ClimbedPath(n: Names, d: nat, rs: seq<string>)
    requires Climb(n, d, rs, ROOT)
    ensures IsPath(n, d, Reverse(rs))
    decreases |rs|
  {
    if rs != [] {
      ClimbedPath(n, n.parent[d], rs[1..]);
      var cs := Reverse(rs);
      assert cs[..|cs| - 1] == Reverse(rs[1..]);
    }
  }

  lemma JoinEmptyOnly(cs: seq<string>)
    requires AllProper(cs)
    ensures '/' in Join(cs) <==> cs != []
  {
    if cs != [] {
      JoinStarts(cs);
      assert Join(cs)[0] in Join(cs);
    }
  }

  /** Turns the reversed path round, name by name from its end. */
  method TurnRound(reversed: string, ghost rs: seq<string>) returns (buf: string)
    requires reversed == Join(rs) && AllProper(rs)
    ensures buf == Join(Reverse(rs))
  {
    hide Join, Reverse;
    buf := "";
    var left := reversed;
    ghost var k := |rs|;
    assert rs[..k] == rs && rs[k..] == [];
    EmptyTurned();
    JoinEmptyOnly(rs[..k]);
    while '/' in left
      invariant k <= |rs| && left == Join(rs[..k]) && ('/' in left <==> k > 0)
      invariant buf == Join(Reverse(rs[k..]))
      decreases k
    {
      var slash := Strrchr(left);
      JoinLast(rs[..k], slash);
      assert rs[..k][..k - 1] == rs[..k - 1];
      Turned(rs, k - 1);
      buf := buf + left[slash..];
      left := left[..slash];
      k := k - 1;
      JoinEmptyOnly(rs[..k]);
    }
    assert rs[0..] == rs;
  }

  lemma EmptyTurned()
    ensures Join(Reverse([])) == ""
  {
  }

  lemma Turned(rs: seq<string>, k: nat)
    requires k < |rs|
    ensures Join(Reverse(rs[k..])) == Join(Reverse(rs[k + 1..])) + "/" + rs[k]
  {
    assert rs[k..][1..] == rs[k + 1..];
    var cs := Reverse(rs[k..]);
    assert cs[..|cs| - 1] == Reverse(rs[k + 1..]);
  }

  lemma {:induction false} JoinLength(name: string, cs: seq<string>)
    ensures |Join([name] + cs)| == 1 + |name| + |Join(cs)|
    decreases |cs|
  {
    var all := [name] + cs;
    if cs == [] {
      assert all[..0] == [];
    } else {
      assert all[..|all| - 1] == [name] + cs[..|cs| - 1] && all[|all| - 1] == cs[|cs| - 1];
      JoinLength(name, cs[..|cs| - 1]);
    }
  }

  /** A path is as long as the same path reversed. */
  lemma {:induction false} TurnedLength(rs: seq<string>)
    ensures |Join(Reverse(rs))| == |Join(rs)|
    decreases |rs|
  {
    if rs != [] {
      TurnedLength(rs[1..]);
      JoinLength(rs[0], rs[1..]);
      assert [rs[0]] + rs[1..] == rs;
      var cs := Reverse(rs);
      assert cs[..|cs| - 1] == Reverse(rs[1..]);
    }
  }

  lemma NotRootText(cs: seq<string>)
    requires cs != [] && AllProper(cs)
    ensures Render(cs) == Join(cs) != "/"
  {
    RenderJoin(cs);
    var k := |cs| - 1;
    assert Proper(cs[k]);
    assert |Join(cs)| >= 1 + |cs[k]|;
  }

  /** `Overflows`: the text and the zero byte behind it do not fit a buffer they are written to. `TooSmall`:
      the check against the caller's size fails. */
  datatype CwdResult = Cwd(path: string) | Overflows | TooSmall

  /** What asking for the working directory gives: its path, unless that is too long for the kernel's
      buffer of 128 bytes or for the caller's of `size`. */
  ghost function CwdAnswer(text: string, size: nat): CwdResult {
    if text == "/" then if size < 2 then Overflows else Cwd(text)
    else if |text| >= MAX_PATH_LEN then Overflows
    else if |text| > size then TooSmall
    else if |text| == size then Overflows
    else Cwd(text)
  }

  /** The path of the working directory. */
  method Getcwd(vol: Volume, cwd: nat, size: nat) returns (r: CwdResult, ghost cs: seq<string>)
    requires Inv(vol.State()) && cwd in vol.dirs
    ensures IsPath(NamesOf(vol.State()), cwd, cs) && AllProper(cs) && r == CwdAnswer(Render(cs), size)
    ensures (r.Cwd? <==> |Render(cs)| < size && |Render(cs)| < 128) && (r.Cwd? ==> r.path == Render(cs))
    ensures r.TooSmall? <==> size < |Render(cs)| < 128 && Render(cs) != "/"
    ensures FindsDir(NamesOf(vol.State()), cwd, Components(Render(cs))) && Render(cs) == Render(Wash(Components(Render(cs))))
    ensures r.Cwd? ==> FindsDir(NamesOf(vol.State()), cwd, Components(r.path)) && r.path == Render(Wash(Components(r.path)))
  {
    hide Inv, NamesOf, ViewAt, Has, Unseen, Calls, Climb, Join, Proper, IsPath, Reverse, FindsDir, Wash, Components, Render;
    ghost var v, n := vol.State(), NamesOf(vol.State());
    if cwd == ROOT {
      RootPath(n);
      OwnPath(v, cwd, []);
      return if size < 2 then Overflows else Cwd("/"), [];
    }
    ghost var depth := SomeRank(v);
    var reversed, child := "", cwd;
    ghost var rs: seq<string> := [];
    ClimbNone(n, cwd);
    while child != ROOT
      invariant child in v.dirs && child in depth && Climb(n, cwd, rs, child) && AllProper(rs) && reversed == Join(rs)
      invariant child != ROOT || rs != []
      decreases depth[child]
    {
      var parent := ParentInode(vol, child);
      Upwards(v, depth, child);
      var name := ChildDirName(vol, parent, child);
      Seen(v, parent, child);
      assert name.Some?;
      CallsProper(v, parent, child, name.value);
      ClimbOn(n, cwd, rs, child, name.value);
      assert (rs + [name.value])[..|rs|] == rs;
      JoinMore(rs + [name.value], |rs|);
      rs := rs + [name.value];
      assert rs[..|rs|] == rs;
      reversed := reversed + "/" + name.value;
      child := parent;
    }
    ClimbedPath(n, cwd, rs);
    cs := Reverse(rs);
    ReversedProper(rs);
    OwnPath(v, cwd, cs);
    var path := TurnRound(reversed, rs);
    TurnedLength(rs);
    NotRootText(cs);
    if |reversed| >= MAX_PATH_LEN {
      return Overflows, cs;
    }
    if |reversed| > size {
      return TooSmall, cs;
    }
    r := if |reversed| == size then Overflows else Cwd(path);
  }

  /** The text of a directory's path finds it and is clean. */
  lemma OwnPath(v: Vol, d: nat, cs: seq<string>)
    requires Inv(v) && IsPath(NamesOf(v), d, cs) && AllProper(cs)
    ensures Components(Render(cs)) == cs && FindsDir(NamesOf(v), d, cs) && Wash(cs) == cs
  {
    hide Inv, NamesOf, IsPath, Walk, Leads, Tree, Unambiguous, AllDots, FindsDir;
    var n := NamesOf(v);
    SpaceOf(v);
    RenderRoundTrip(cs);
    PathLeads(n, d, cs);
    LeadsFinds(n, d, cs);
    WashKeepsMeaning(n, d, cs);
    PathUnique(n, d, cs, Wash(cs));
  }

  lemma RootPath(n: Names)
    ensures IsPath(n, ROOT, []) && Render([]) == "/"
  {
  }

  lemma ClimbNone(n: Names, d: nat)
    ensures Climb(n, d, [], d) && Join([]) == ""
  {
  }

  lemma SomeRank(v: Vol) returns (depth: map<nat, nat>)
    requires Inv(v)
    ensures Ranked(NamesOf(v), depth) && forall d :: d in v.dirs ==> d in depth
  {
    hide Sound, Shapes, NamesOf, RootFirst, EntriesOk, NamesUnique, AllNamed, ParentsOk;
    DirsLive(v);
    depth :| Ranked(NamesOf(v), depth);
  }

  lemma Upwards(v: Vol, depth: map<nat, nat>, child: nat)
    requires Inv(v) && Ranked(NamesOf(v), depth) && child in v.dirs && child != ROOT
    ensures
      var n := NamesOf(v);
      child in n.parent && n.parent[child] in v.dirs && n.parent[child] in depth && child in depth && depth[n.parent[child]] < depth[child]
  {
    hide Sound, Shapes, NamesOf, RootFirst, EntriesOk, NamesUnique, AllNamed, Acyclic;
    DirsLive(v);
    assert ParentOk(NamesOf(v), child);
  }

  lemma CallsProper(v: Vol, parent: nat, child: nat, name: string)
    requires Inv(v) && parent in v.dirs && Calls(NamesOf(v), parent, child, name)
    ensures Proper(name)
  {
    hide Sound, Shapes, Tree, NamesOf, RootFirst, ViewAt, NoClash, NoneHollow, Dots, Total, ViewOf;
    EntriesAre(v);
    IsDirAt(v, parent);
    var e :| Entry(NamesOf(v), parent, e) && e.name == name;
    var w := DirView(v, parent);
    var i, k :| LiveAt(w, i, k) && w[i][k] == e;
    assert ValidSlot(w[i][k]);
  }

  lemma {:induction false} ReversedProper(rs: seq<string>)
    requires AllProper(rs)
    ensures AllProper(Reverse(rs)) && (Reverse(rs) == [] <==> rs == [])
  {
    if rs != [] {
      assert Proper(rs[0]);
      ReversedProper(rs[1..]);
    }
  }

  /** Every directory has a path, exactly one, and searching for it finds the directory. */
  lemma EveryDirectory(v: Vol, d: nat) returns (cs: seq<string>)
    requires Inv(v) && d in v.dirs
    ensures IsPath(NamesOf(v), d, cs) && FindsDir(NamesOf(v), d, cs) && Wash(cs) == cs
    ensures forall ds :: IsPath(NamesOf(v), d, ds) ==> ds == cs
  {
    hide Inv, NamesOf, IsPath, Walk, Leads, Tree, Unambiguous, AllDots, FindsDir, Wash, Ranked;
    var n := NamesOf(v);
    SpaceOf(v);
    var depth := SomeRank(v);
    DirsOf(v);
    cs := PathExists(n, depth, d);
    PathLeads(n, d, cs);
    LeadsFinds(n, d, cs);
    WashKeepsMeaning(n, d, cs);
    PathUnique(n, d, cs, Wash(cs));
    forall ds | IsPath(n, d, ds) ensures ds == cs {
      PathUnique(n, d, ds, cs);
    }
  }

  /** The path of the working directory finds the working directory, and is already clean. */
  lemma GetcwdThenSearch(v: Vol, cwd: nat, cs: seq<string>)
    requires Inv(v) && IsPath(NamesOf(v), cwd, cs) && AllProper(cs)
    ensures SearchOf(NamesOf(v), Render(cs)).Found? && SearchOf(NamesOf(v), Render(cs)).ino == cwd
    ensures SearchOf(NamesOf(v), Render(cs)).isDir
    ensures Wash(cs) == cs
  {
    hide Inv, NamesOf, IsPath, Walk, Components;
    OwnPath(v, cwd, cs);
    RenderJoin(cs);
  }

  /** Searching for a directory and asking for its path is cleaning the path. */
  lemma SearchThenGetcwd(v: Vol, path: string, cwd: nat, cs: seq<string>)
    requires Inv(v) && IsPath(NamesOf(v), cwd, cs)
    requires var r := SearchOf(NamesOf(v), path); r.Found? && r.isDir && r.ino == cwd
    ensures Render(cs) == Render(Wash(Components(path)))
  {
    hide Inv, NamesOf, IsPath, Walk, Tree, Unambiguous, AllDots, Wash, Render;
    var n := NamesOf(v);
    SpaceOf(v);
    assert FindsDir(n, cwd, Components(path));
    WashKeepsMeaning(n, cwd, Components(path));
    PathUnique(n, cwd, cs, Wash(Components(path)));
  }
}
