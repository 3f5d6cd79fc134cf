/**
 * A directory as the kernel sees it when it walks its twelve direct blocks: a sequence of blocks of
 * 21 slots, a missing block being the empty sequence.
 */
module DirViews {
  import opened DirEntries

  type View = seq<seq<Slot>>

  ghost predicate Shape(w: View) {
    |w| == 12 && forall i :: 0 <= i < 12 ==> |w[i]| == 0 || |w[i]| == PER_SECTOR
  }

  ghost predicate LiveAt(w: View, i: int, k: int) {
    0 <= i < |w| && 0 <= k < |w[i]| && Live(w[i][k])
  }

  /** The directory's contents: its live entries. */
  ghost predicate Has(w: View, e: Slot) {
    exists i, k :: LiveAt(w, i, k) && w[i][k] == e
  }

  function CountLive(b: seq<Slot>): nat {
    if b == [] then 0 else CountLive(b[..|b| - 1]) + if Live(b[|b| - 1]) then 1 else 0
  }

  function Total(w: View): nat {
    if w == [] then 0 else Total(w[..|w| - 1]) + CountLive(w[|w| - 1])
  }

  /** Two positions may hold one and the same entry: the first two slots of a block behind the first. */
  ghost predicate Twins(i: int, k: int, j: int, m: int) {
    i == j && i >= 1 && ((k == 0 && m == 1) || (k == 1 && m == 0))
  }

  /** Two live entries clash when they share a name, or an inode while neither is "." or "..". */
  ghost predicate Clash(e: Slot, f: Slot) {
    e.name == f.name || (e.ino == f.ino && !IsDot(e) && !IsDot(f))
  }

  ghost predicate ValidSlots(w: View) {
    forall i, k :: 0 <= i < |w| && 0 <= k < |w[i]| ==> ValidSlot(w[i][k])
  }

  /** "." and ".." are the first two slots of the first block, and appear nowhere else. */
  ghost predicate Dots(w: View, self: nat) {
    && |w| == 12 && |w[0]| == PER_SECTOR
    && w[0][0].name == "." && w[0][0].ino == self && w[0][0].ftype == FT_DIRECTORY
    && w[0][1].name == ".." && w[0][1].ftype == FT_DIRECTORY
    && (forall i, k :: LiveAt(w, i, k) && IsDot(w[i][k]) ==> i == 0 && k <= 1)
  }

  /** Block `i` is missing or holds a live entry. */
  ghost predicate Solid(w: View, i: int) {
    0 <= i < |w| && w[i] != [] ==> exists k :: LiveAt(w, i, k)
  }

  /** Every block behind the first holds a live entry. */
  ghost predicate NoneHollow(w: View) {
    forall i :: 1 <= i ==> Solid(w, i)
  }

  /** Entries at these two positions that clash are one entry, stored once or as twins. */
  ghost predicate Apart(w: View, i: int, k: int, j: int, m: int) {
    LiveAt(w, i, k) && LiveAt(w, j, m) && Clash(w[i][k], w[j][m]) ==>
      w[i][k] == w[j][m] && ((i == j && k == m) || Twins(i, k, j, m))
  }

  ghost predicate NoClash(w: View) {
    forall i, k, j, m :: Apart(w, i, k, j, m)
  }

  /** The slots of directory `self`. */
  ghost predicate WellFormed(w: View, self: nat) {
    Shape(w) && ValidSlots(w) && Dots(w, self) && NoneHollow(w) && NoClash(w)
  }

  /** Well formed, and the size counts its live slots. */
  ghost predicate DirOk(w: View, self: nat, size: nat) {
    WellFormed(w, self) && size == ENTRY_SIZE * Total(w)
  }

  lemma {:induction false} CountUpdate(b: seq<Slot>, k: nat, e: Slot)
    requires k < |b|
    ensures CountLive(b[k := e]) == CountLive(b) - (if Live(b[k]) then 1 else 0) + (if Live(e) then 1 else 0)
  {
    if k < |b| - 1 {
      CountUpdate(b[..|b| - 1], k, e);
      assert b[k := e][..|b| - 1] == b[..|b| - 1][k := e];
    } else {
      assert b[k := e][..|b| - 1] == b[..|b| - 1];
    }
  }

  lemma {:induction false} TotalUpdate(w: View, i: nat, b: seq<Slot>)
    requires i < |w|
    ensures Total(w[i := b]) == Total(w) - CountLive(w[i]) + CountLive(b)
  {
    if i < |w| - 1 {
      TotalUpdate(w[..|w| - 1], i, b);
      assert w[i := b][..|w| - 1] == w[..|w| - 1][i := b];
    } else {
      assert w[i := b][..|w| - 1] == w[..|w| - 1];
    }
  }

  lemma {:induction false} CountNone(b: seq<Slot>)
    ensures CountLive(b) == 0 <==> forall k :: 0 <= k < |b| ==> !Live(b[k])
  {
    if b != [] {
      CountNone(b[..|b| - 1]);
      assert forall k :: 0 <= k < |b| - 1 ==> b[k] == b[..|b| - 1][k];
    }
  }

  /** `x` has the contents of `w` and `e`, and the same parent entry. */
  ghost predicate Gains(w: View, x: View, e: Slot) {
    && (forall f :: Has(x, f) <==> Has(w, f) || f == e)
    && |w| == 12 && |x| == 12 && |w[0]| == |x[0]| == PER_SECTOR && x[0][1] == w[0][1]
  }

  /** `x` has the contents of `w` without `e`, and the same parent entry. */
  ghost predicate Loses(w: View, x: View, e: Slot) {
    && (forall f :: Has(x, f) <==> Has(w, f) && f != e)
    && |w| == 12 && |x| == 12 && |w[0]| == |x[0]| == PER_SECTOR && x[0][1] == w[0][1]
  }

  // ---- insertion ----

  /** A new entry `e` may join: it clashes with nothing. */
  ghost predicate Fresh(w: View, e: Slot) {
    ValidSlot(e) && Live(e) && !IsDot(e) && forall i, k :: LiveAt(w, i, k) ==> !Clash(w[i][k], e)
  }

  /** The block a fresh sector becomes: the entry is stored twice. */
  function Doubled(e: Slot): (b: seq<Slot>)
    ensures |b| == PER_SECTOR
  {
    [e, e] + seq(PER_SECTOR - 2, k => EMPTY)
  }

  /** `x` is `w` with the live entry `e` added at some free positions `(i, k)` with `k` in `ks`. */
  ghost predicate Added(w: View, x: View, i: nat, ks: set<nat>, e: Slot) {
    && Shape(w) && Shape(x) && i < 12 && Live(e) && ks != {}
    && (forall j :: 0 <= j < 12 && j != i ==> x[j] == w[j])
    && |x[i]| == PER_SECTOR && (forall k :: k in ks ==> k < PER_SECTOR && x[i][k] == e)
    && (forall k :: k in ks ==> !LiveAt(w, i, k))
    && (forall k :: 0 <= k < PER_SECTOR && k !in ks ==> x[i][k] == if w[i] == [] then EMPTY else w[i][k])
  }

  lemma AddedLive(w: View, x: View, i: nat, ks: set<nat>, e: Slot)
    requires Added(w, x, i, ks, e)
    ensures forall j, m :: LiveAt(x, j, m) <==> LiveAt(w, j, m) || (j == i && m in ks)
    ensures forall j, m :: LiveAt(w, j, m) ==> x[j][m] == w[j][m]
  {
    forall j, m ensures LiveAt(x, j, m) <==> LiveAt(w, j, m) || (j == i && m in ks) {
    }
    forall j, m | LiveAt(w, j, m) ensures x[j][m] == w[j][m] {
    }
  }

  lemma AddedHas(w: View, x: View, i: nat, ks: set<nat>, e: Slot)
    requires Added(w, x, i, ks, e)
    ensures forall f :: Has(x, f) <==> Has(w, f) || f == e
  {
    AddedLive(w, x, i, ks, e);
    var k :| k in ks;
    assert LiveAt(x, i, k) && x[i][k] == e;
    forall f ensures Has(x, f) <==> Has(w, f) || f == e {
      if Has(w, f) {
        var j, m :| LiveAt(w, j, m) && w[j][m] == f;
        assert LiveAt(x, j, m) && x[j][m] == f;
      }
    }
  }

  lemma AddedNoClash(w: View, x: View, i: nat, ks: set<nat>, e: Slot)
    requires Added(w, x, i, ks, e) && NoClash(w) && Fresh(w, e)
    requires forall k, m :: k in ks && m in ks ==> k == m || Twins(i, k, i, m)
    ensures NoClash(x)
  {
    AddedLive(w, x, i, ks, e);
    forall j, m, p, q ensures Apart(x, j, m, p, q) {
      assert Apart(w, j, m, p, q);
    }
  }

  lemma AddedWellFormed(w: View, x: View, self: nat, i: nat, ks: set<nat>, e: Slot)
    requires Added(w, x, i, ks, e) && WellFormed(w, self) && Fresh(w, e)
    requires forall k, m :: k in ks && m in ks ==> k == m || Twins(i, k, i, m)
    ensures WellFormed(x, self)
  {
    AddedLive(w, x, i, ks, e);
    AddedNoClash(w, x, i, ks, e);
    AddedNoneHollow(w, x, i, ks, e);
    assert LiveAt(w, 0, 0) && LiveAt(w, 0, 1);
  }

  lemma AddedNoneHollow(w: View, x: View, i: nat, ks: set<nat>, e: Slot)
    requires Added(w, x, i, ks, e) && NoneHollow(w)
    ensures NoneHollow(x)
  {
    AddedLive(w, x, i, ks, e);
    forall j | 1 <= j ensures Solid(x, j) {
      assert Solid(w, j);
      if j == i {
        var k :| k in ks;
        assert LiveAt(x, i, k);
      } else if j < 12 && w[j] != [] {
        var m :| LiveAt(w, j, m);
        assert LiveAt(x, j, m);
      }
    }
  }

  /** Storing an entry in a free slot. */
  lemma InsertFree(w: View, self: nat, size: nat, i: nat, k: nat, e: Slot, x: View)
    requires DirOk(w, self, size) && Fresh(w, e) && i < 12 && k < |w[i]| && !Live(w[i][k])
    requires x == w[i := w[i][k := e]]
    ensures DirOk(x, self, size + ENTRY_SIZE) && Gains(w, x, e)
  {
    CountUpdate(w[i], k, e);
    TotalUpdate(w, i, w[i][k := e]);
    AddedHas(w, x, i, {k}, e);
    AddedWellFormed(w, x, self, i, {k}, e);
  }

  /** Storing an entry in a fresh block: two slots of the block and 48 bytes of size. */
  lemma InsertFreshBlock(w: View, self: nat, size: nat, i: nat, e: Slot, x: View)
    requires DirOk(w, self, size) && Fresh(w, e) && i < 12 && w[i] == []
    requires x == w[i := Doubled(e)]
    ensures DirOk(x, self, size + 2 * ENTRY_SIZE) && Gains(w, x, e)
  {
    CountDoubled(e);
    TotalUpdate(w, i, Doubled(e));
    AddedHas(w, x, i, {0, 1}, e);
    AddedWellFormed(w, x, self, i, {0, 1}, e);
  }

  lemma CountDoubled(e: Slot)
    requires Live(e)
    ensures CountLive(Doubled(e)) == 2
  {
    var z := seq(PER_SECTOR, k => EMPTY);
    CountNone(z);
    CountUpdate(z, 0, e);
    CountUpdate(z[0 := e], 1, e);
    assert z[0 := e][1 := e] == Doubled(e);
  }

  // ---- removal ----

  /** A live entry other than "." and ".." that names inode `ino`. */
  predicate IsRef(e: Slot, ino: nat) {
    Live(e) && !IsDot(e) && e.ino == ino
  }

  /** Live entries of a block other than "." and "..". */
  function CountEntries(b: seq<Slot>): nat {
    if b == [] then 0
    else CountEntries(b[..|b| - 1]) + if Live(b[|b| - 1]) && !IsDot(b[|b| - 1]) then 1 else 0
  }

  /** `x` is `w` without the entry at `(i, k)`: the slot is cleared, or the block is gone because no
      other slot of it was live. */
  ghost predicate Removed(w: View, x: View, i: nat, k: nat) {
    && Shape(w) && Shape(x) && i < 12 && LiveAt(w, i, k)
    && (forall j :: 0 <= j < 12 && j != i ==> x[j] == w[j])
    && (x[i] == w[i][k := EMPTY] || (x[i] == [] && forall m :: LiveAt(w, i, m) ==> m == k))
  }

  /** No second copy of the entry at `(i, k)`. */
  ghost predicate Single(w: View, i: nat, k: nat) {
    forall m :: LiveAt(w, i, k) && LiveAt(w, i, m) && m != k ==> w[i][m] != w[i][k]
  }

  lemma RemovedLive(w: View, x: View, i: nat, k: nat)
    requires Removed(w, x, i, k)
    ensures forall j, m :: LiveAt(x, j, m) <==> LiveAt(w, j, m) && !(j == i && m == k)
    ensures forall j, m :: LiveAt(x, j, m) ==> x[j][m] == w[j][m]
  {
    forall j, m ensures LiveAt(x, j, m) <==> LiveAt(w, j, m) && !(j == i && m == k) {
    }
    forall j, m | LiveAt(x, j, m) ensures x[j][m] == w[j][m] {
    }
  }

  lemma RemovedHas(w: View, x: View, i: nat, k: nat)
    requires Removed(w, x, i, k) && NoClash(w) && Single(w, i, k)
    ensures forall f :: Has(x, f) <==> Has(w, f) && f != w[i][k]
  {
    RemovedLive(w, x, i, k);
    forall f ensures Has(x, f) <==> Has(w, f) && f != w[i][k] {
      if Has(w, f) && f != w[i][k] {
        var j, m :| LiveAt(w, j, m) && w[j][m] == f;
        assert LiveAt(x, j, m) && x[j][m] == f;
      }
      if Has(x, f) {
        var j, m :| LiveAt(x, j, m) && x[j][m] == f;
        assert LiveAt(w, j, m) && w[j][m] == f;
        assert w[j][m] != w[i][k] by {
          assert Apart(w, j, m, i, k);
        }
      }
    }
  }

  lemma RemovedWellFormed(w: View, x: View, self: nat, i: nat, k: nat)
    requires Removed(w, x, i, k) && WellFormed(w, self) && !IsDot(w[i][k])
    requires i >= 1 && x[i] != [] ==> exists m :: LiveAt(w, i, m) && m != k
    requires i == 0 ==> x[i] != []
    ensures WellFormed(x, self)
  {
    RemovedLive(w, x, i, k);
    assert LiveAt(w, 0, 0) && LiveAt(w, 0, 1);
    forall j | 1 <= j ensures Solid(x, j) {
      assert Solid(w, j);
      if j == i {
        if x[i] != [] {
          var m :| LiveAt(w, i, m) && m != k;
          assert LiveAt(x, i, m);
        }
      } else if j < 12 && w[j] != [] {
        var m :| LiveAt(w, j, m);
        assert LiveAt(x, j, m);
      }
    }
    RemovedNoClash(w, x, i, k);
  }

  lemma RemovedNoClash(w: View, x: View, i: nat, k: nat)
    requires Removed(w, x, i, k) && NoClash(w)
    ensures NoClash(x)
  {
    RemovedLive(w, x, i, k);
    forall j, m, p, q ensures Apart(x, j, m, p, q) {
      assert Apart(w, j, m, p, q);
    }
  }

  lemma RemovedTotal(w: View, x: View, i: nat, k: nat)
    requires Removed(w, x, i, k)
    ensures Total(x) == Total(w) - 1
  {
    CountUpdate(w[i], k, EMPTY);
    TotalUpdate(w, i, x[i]);
    assert x == w[i := x[i]];
    if x[i] == [] {
      var c := w[i][k := EMPTY];
      assert forall m :: 0 <= m < |c| ==> !Live(c[m]) by {
        forall m | 0 <= m < |c| ensures !Live(c[m]) {
          assert LiveAt(w, i, m) ==> m == k;
        }
      }
      CountNone(c);
    }
  }

  /** A block without "." or ".." has only proper entries. */
  lemma {:induction false} CountProper(b: seq<Slot>)
    requires forall k :: 0 <= k < |b| && Live(b[k]) ==> !IsDot(b[k])
    ensures CountEntries(b) == CountLive(b)
  {
    if b != [] {
      assert forall k :: 0 <= k < |b| - 1 ==> b[k] == b[..|b| - 1][k];
      CountProper(b[..|b| - 1]);
    }
  }

  /** Removing the entry for `ino` at `(i, k)` the way the kernel does. */
  lemma Remove(w: View, self: nat, size: nat, i: nat, k: nat, ino: nat, x: View)
    requires DirOk(w, self, size) && i < 12 && k < |w[i]| && IsRef(w[i][k], ino)
    requires forall m :: 0 <= m < |w[i]| && m != k ==> !IsRef(w[i][m], ino)
    requires x == if CountEntries(w[i]) == 1 && !(exists m :: 0 <= m < |w[i]| && Live(w[i][m]) && w[i][m].name == ".")
                  then w[i := []] else w[i := w[i][k := EMPTY]]
    ensures size >= ENTRY_SIZE && DirOk(x, self, size - ENTRY_SIZE) && Loses(w, x, w[i][k]) && Removed(w, x, i, k)
  {
    assert LiveAt(w, i, k);
    CountUpdate(w[i], k, EMPTY);
    var c := w[i][k := EMPTY];
    CountNone(c);
    if i >= 1 {
      forall m | 0 <= m < |w[i]| && Live(w[i][m]) ensures !IsDot(w[i][m]) {
        assert LiveAt(w, i, m);
      }
      CountProper(w[i]);
      if CountLive(c) == 0 {
        forall m | LiveAt(w, i, m) ensures m == k {
          assert !Live(c[m]);
        }
      } else {
        var m :| 0 <= m < |c| && Live(c[m]);
        assert LiveAt(w, i, m) && m != k;
      }
    } else {
      assert Live(w[0][0]) && w[0][0].name == ".";
    }
    assert Removed(w, x, i, k);
    RemovedTotal(w, x, i, k);
    RemovedHas(w, x, i, k);
    RemovedWellFormed(w, x, self, i, k);
  }

  // ---- listing ----

  /** The live entries of a block, in slot order. */
  function Kept(b: seq<Slot>): (r: seq<Slot>)
    ensures |r| == CountLive(b)
  {
    if b == [] then [] else Kept(b[..|b| - 1]) + if Live(b[|b| - 1]) then [b[|b| - 1]] else []
  }

  /** The live entries of a directory, in the order a listing meets them. */
  function KeptAll(w: View): (r: seq<Slot>)
    ensures |r| == Total(w)
  {
    if w == [] then [] else KeptAll(w[..|w| - 1]) + Kept(w[|w| - 1])
  }

  /** Entries met before slot `k` of block `i`. */
  ghost function Met(w: View, i: nat, k: nat): seq<Slot>
    requires i < |w| && k <= |w[i]|
  {
    KeptAll(w[..i]) + Kept(w[i][..k])
  }

  lemma {:induction false} KeptPrefix(b: seq<Slot>, k: nat)
    requires k <= |b|
    ensures Kept(b[..k]) <= Kept(b)
    decreases |b|
  {
    if k < |b| {
      KeptPrefix(b[..|b| - 1], k);
      assert b[..|b| - 1][..k] == b[..k];
    } else {
      assert b[..k] == b;
    }
  }

  lemma {:induction false} KeptAllPrefix(w: View, i: nat)
    requires i <= |w|
    ensures KeptAll(w[..i]) <= KeptAll(w)
    decreases |w|
  {
    if i < |w| {
      KeptAllPrefix(w[..|w| - 1], i);
      assert w[..|w| - 1][..i] == w[..i];
    } else {
      assert w[..i] == w;
    }
  }

  /** Walking over slot `k` of block `i` meets it if it is live. */
  lemma MetStep(w: View, i: nat, k: nat)
    requires i < |w| && k < |w[i]|
    ensures Met(w, i, k + 1) == Met(w, i, k) + if Live(w[i][k]) then [w[i][k]] else []
    ensures Met(w, i, k + 1) <= KeptAll(w)
  {
    assert w[i][..k + 1][..k] == w[i][..k];
    KeptPrefix(w[i], k + 1);
    KeptAllPrefix(w, i + 1);
    assert w[..i + 1][..i] == w[..i] && w[..i + 1][i] == w[i];
  }

  lemma MetBlock(w: View, i: nat)
    requires i < |w|
    ensures Met(w, i, |w[i]|) == KeptAll(w[..i + 1])
  {
    assert w[i][..|w[i]|] == w[i];
    assert w[..i + 1][..i] == w[..i] && w[..i + 1][i] == w[i];
  }

  lemma {:induction false} KeptMember(b: seq<Slot>, e: Slot)
    ensures e in Kept(b) <==> exists k :: 0 <= k < |b| && Live(b[k]) && b[k] == e
  {
    if b != [] {
      KeptMember(b[..|b| - 1], e);
      if e in Kept(b[..|b| - 1]) {
        var k :| 0 <= k < |b| - 1 && Live(b[..|b| - 1][k]) && b[..|b| - 1][k] == e;
        assert b[k] == e;
      }
      forall k | 0 <= k < |b| && Live(b[k]) && b[k] == e ensures e in Kept(b) {
        if k < |b| - 1 {
          assert b[..|b| - 1][k] == e;
        }
      }
    }
  }

  /** A listing shows exactly the directory's contents. */
  lemma {:induction false} KeptAllMember(w: View, e: Slot)
    ensures e in KeptAll(w) <==> Has(w, e)
  {
    if w != [] {
      var u, b := w[..|w| - 1], w[|w| - 1];
      KeptAllMember(u, e);
      KeptMember(b, e);
      if Has(u, e) {
        var i, k :| LiveAt(u, i, k) && u[i][k] == e;
        assert LiveAt(w, i, k) && w[i][k] == e;
      }
      if e in Kept(b) {
        var k :| 0 <= k < |b| && Live(b[k]) && b[k] == e;
        assert LiveAt(w, |w| - 1, k) && w[|w| - 1][k] == e;
      }
      if Has(w, e) {
        var i, k :| LiveAt(w, i, k) && w[i][k] == e;
        assert i < |w| - 1 ==> LiveAt(u, i, k) && u[i][k] == e;
      }
    }
  }

  lemma {:induction false} TotalNone(w: View)
    ensures Total(w) == 0 <==> forall i, k :: !LiveAt(w, i, k)
  {
    if w != [] {
      var last := |w| - 1;
      var u := w[..last];
      TotalNone(u);
      CountNone(w[last]);
      assert forall i, k :: LiveAt(u, i, k) <==> i < last && LiveAt(w, i, k);
      assert forall k :: LiveAt(w, last, k) <==> 0 <= k < |w[last]| && Live(w[last][k]);
    }
  }

  /** The size test for emptiness is exact: 48 bytes exactly when "." and ".." are all there is, and
      then only the first block is left. */
  lemma EmptyExactly(w: View, self: nat, size: nat)
    requires DirOk(w, self, size)
    ensures size == 2 * ENTRY_SIZE <==> forall e :: Has(w, e) ==> IsDot(e)
    ensures size == 2 * ENTRY_SIZE ==> forall i :: 1 <= i < 12 ==> w[i] == []
  {
    hide NoClash, ValidSlots, Total, Solid;
    TwoDots(w, self);
    if size == 2 * ENTRY_SIZE {
      forall i | 1 <= i < 12 ensures w[i] == [] {
        MustBeEmpty(w, i);
      }
    }
  }

  lemma MustBeEmpty(w: View, i: nat)
    requires NoneHollow(w) && 1 <= i < |w| && forall j, k :: LiveAt(w, j, k) ==> j == 0
    ensures w[i] == []
  {
    assert Solid(w, i);
  }

  /** Two live slots are the dots; a third is a proper entry. */
  lemma TwoDots(w: View, self: nat)
    requires WellFormed(w, self)
    ensures Total(w) == 2 <==> forall e :: Has(w, e) ==> IsDot(e)
    ensures Total(w) == 2 ==> forall i, k :: LiveAt(w, i, k) ==> i == 0
  {
    hide NoneHollow, NoClash;
    assert LiveAt(w, 0, 0) && LiveAt(w, 0, 1);
    var x := WithoutDots(w);
    forall i, k ensures LiveAt(x, i, k) <==> LiveAt(w, i, k) && !(i == 0 && k <= 1) {
    }
    TotalNone(x);
    hide ValidSlots, Total, Shape;
    if forall e :: Has(w, e) ==> IsDot(e) {
      forall i, k ensures !LiveAt(x, i, k) {
        if LiveAt(w, i, k) {
          assert Has(w, w[i][k]);
        }
      }
    } else {
      var e :| Has(w, e) && !IsDot(e);
      var i, k :| LiveAt(w, i, k) && w[i][k] == e;
      assert LiveAt(x, i, k);
    }
  }

  /** The slots without the first two, which are live. */
  lemma WithoutDots(w: View) returns (x: View)
    requires |w| == 12 && |w[0]| == PER_SECTOR && LiveAt(w, 0, 0) && LiveAt(w, 0, 1)
    ensures x == w[0 := w[0][0 := EMPTY][1 := EMPTY]] && Total(x) == Total(w) - 2
  {
    hide Total;
    var b := w[0][0 := EMPTY];
    CountUpdate(w[0], 0, EMPTY);
    CountUpdate(b, 1, EMPTY);
    TotalUpdate(w, 0, b[1 := EMPTY]);
    x := w[0 := b[1 := EMPTY]];
  }
}
