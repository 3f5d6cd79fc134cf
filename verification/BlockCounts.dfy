/** How many blocks there are: the free ones and those the inodes keep. */
module BlockCounts {
  import opened Sectors
  import opened FiniteSets
  import opened BitRuns
  import opened Volumes
  import opened FileIO

  /** The places of a layout that keep an address. */
  ghost function Used(l: seq<Word>): set<nat> {
    set i: nat | i < |l| && l[i] != 0
  }

  /** The addresses inode `ino` keeps. */
  ghost function Mine(owner: Owner, ino: nat): set<nat> {
    set l | l in owner && owner[l].0 == ino
  }

  ghost function Others(owner: Owner, ino: nat): set<nat> {
    set l | l in owner && owner[l].0 != ino
  }

  /** The addresses in the used places of `l` below `n`. */
  ghost function Addresses(l: seq<Word>, n: nat): (r: set<nat>)
    requires n <= |l|
    ensures forall i :: 0 <= i < n && l[i] != 0 ==> l[i] in r
    ensures forall a :: a in r ==> exists i :: 0 <= i < n && l[i] == a && l[i] != 0
  {
    if n == 0 then {} else Addresses(l, n - 1) + if l[n - 1] != 0 then {l[n - 1]} else {}
  }

  ghost predicate Different(l: seq<Word>) {
    forall i, j :: 0 <= i < j < |l| && l[i] != 0 ==> l[i] != l[j]
  }

  lemma {:induction false} AsManyAddresses(l: seq<Word>, n: nat)
    requires n <= |l| && Different(l)
    ensures |Addresses(l, n)| == |Used(l[..n])|
  {
    hide Used, Different;
    if n > 0 {
      AsManyAddresses(l, n - 1);
      OnePlace(l, n - 1);
      NewAddress(l, n - 1);
      OneMore(Addresses(l, n - 1), l[n - 1]);
    } else {
      NoPlace(l[..0]);
    }
  }

  lemma NewAddress(l: seq<Word>, k: nat)
    requires k < |l| && Different(l)
    ensures l[k] != 0 ==> l[k] !in Addresses(l, k)
  {
  }

  lemma OneMore(s: set<nat>, a: nat)
    ensures a !in s ==> |s + {a}| == |s| + 1
  {
  }

  lemma NoPlace(l: seq<Word>)
    requires l == []
    ensures Used(l) == {}
  {
  }

  lemma OnePlace(l: seq<Word>, k: nat)
    requires k < |l|
    ensures |Used(l[..k + 1])| == |Used(l[..k])| + if l[k] != 0 then 1 else 0
  {
    assert Used(l[..k + 1]) == Used(l[..k]) + if l[k] != 0 then {k} else {};
  }

  /** An inode keeps one block for every used place. */
  lemma MineAreUsed(v: Vol, ino: nat)
    requires Sound(v) && ino in v.inodes
    ensures |Mine(v.owner, ino)| == |Used(Layout(v.disk, v.inodes[ino]))|
  {
    hide Used, Addresses, Different, Owns, BitsMatch, Layout;
    var l := Layout(v.disk, v.inodes[ino]);
    PlacesDiffer(v, ino);
    AsManyAddresses(l, |l|);
    assert l[..|l|] == l;
    MineAre(v, ino);
  }

  lemma PlacesDiffer(v: Vol, ino: nat)
    requires Sound(v) && ino in v.inodes
    ensures Different(Layout(v.disk, v.inodes[ino]))
  {
    hide BitsMatch, Layout;
    var l := Layout(v.disk, v.inodes[ino]);
    assert Layouts(v.disk, v.inodes)[ino] == l;
    forall i, j | 0 <= i < j < |l| && l[i] != 0 ensures l[i] != l[j] {
      assert v.owner[l[i]] == (ino, i) && (l[j] != 0 ==> v.owner[l[j]] == (ino, j));
    }
  }

  lemma MineAre(v: Vol, ino: nat)
    requires Sound(v) && ino in v.inodes
    ensures Mine(v.owner, ino) == var l := Layout(v.disk, v.inodes[ino]); Addresses(l, |l|)
  {
    hide BitsMatch, Layout;
    var l := Layout(v.disk, v.inodes[ino]);
    assert Layouts(v.disk, v.inodes)[ino] == l;
    forall a | a in Mine(v.owner, ino) ensures a in Addresses(l, |l|) {
      assert l[v.owner[a].1] == a;
    }
  }

  /** Every block is free or kept by somebody. */
  lemma FreeAndOwned(v: Vol)
    requires Sound(v)
    ensures |Free(v.bmap)| + |v.owner.Keys| == |v.bmap|
  {
    hide Owns, BitsMatch, Free;
    TakenBits(v.bmap, v.owner, v.start);
  }

  lemma TakenBits(bmap: seq<bool>, owner: Owner, start: nat)
    requires BitsMatch(bmap, owner, start)
    ensures |Free(bmap)| + |owner.Keys| == |bmap|
  {
    hide Free;
    var taken := set b: nat | b < |bmap| && bmap[b];
    ClearCount(bmap, taken);
    Shifted(owner.Keys, taken, start);
  }

  lemma {:induction false} Shifted(s: set<nat>, t: set<nat>, k: nat)
    requires (forall x :: x in s ==> x >= k && x - k in t) && forall y :: y in t ==> y + k in s
    ensures |s| == |t|
    decreases |s|
  {
    if s == {} {
      assert t == {};
    } else {
      var x :| x in s;
      Shifted(s - {x}, t - {x - k}, k);
    }
  }

  lemma SplitOwner(owner: Owner, ino: nat)
    ensures |owner.Keys| == |Mine(owner, ino)| + |Others(owner, ino)|
  {
    assert owner.Keys == Mine(owner, ino) + Others(owner, ino);
    assert Mine(owner, ino) !! Others(owner, ino);
  }

  /** The places a file of `k` blocks uses: one for each, and one for the table if they are more than twelve. */
  function PlacesOf(k: nat): nat {
    if k > DIRECT then k + 1 else k
  }

  lemma ShapeUses(l: seq<Word>, k: nat)
    requires BlockShape(l, k)
    ensures |Used(l)| == PlacesOf(k)
  {
    hide RunOf;
    RunSize(0, k);
    var run := RunOf(0, k);
    forall i: nat ensures i in Used(l) <==> i in run || (i == TABLE && k > DIRECT) {
      assert i < |l| ==> i < MAX_BLOCKS || i == TABLE;
    }
    assert Used(l) == if k > DIRECT then run + {TABLE} else run;
  }

  lemma {:induction false} RunSize(start: nat, n: nat)
    ensures |RunOf(start, n)| == n
  {
    if n > 0 {
      RunSize(start, n - 1);
      assert RunOf(start, n) == RunOf(start, n - 1) + {start + n - 1};
    }
  }
}
