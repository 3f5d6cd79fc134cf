/** What a listing repeats: the entries a directory stores twice, and no others. */
module DirListing {
  import opened DirEntries
  import opened DirViews
  import opened DirStates
  import opened Queues

  /** `e` occurs at two places of `s`. */
  ghost predicate Repeats(s: seq<Slot>, e: Slot) {
    exists i, j :: 0 <= i < j < |s| && s[i] == e && s[j] == e
  }

  /** Slots `k` and `m` of a block both hold the live entry `e`. */
  ghost predicate PairIn(b: seq<Slot>, e: Slot, k: int, m: int) {
    0 <= k < m < |b| && Live(e) && b[k] == e && b[m] == e
  }

  /** Two places of a directory hold the live entry `e`. */
  ghost predicate PairAt(w: View, e: Slot, i: int, k: int, j: int, m: int) {
    LiveAt(w, i, k) && LiveAt(w, j, m) && w[i][k] == e && w[j][m] == e && (i < j || (i == j && k < m))
  }

  ghost predicate Stored(w: View, e: Slot) {
    exists i, k, j, m :: PairAt(w, e, i, k, j, m)
  }

  lemma RepeatsSum(a: seq<Slot>, b: seq<Slot>, e: Slot)
    ensures Repeats(a + b, e) <==> Repeats(a, e) || Repeats(b, e) || (e in a && e in b)
  {
    var c := a + b;
    if Repeats(c, e) {
      var i, j :| 0 <= i < j < |c| && c[i] == e && c[j] == e;
      if i >= |a| {
        assert b[i - |a|] == e && b[j - |a|] == e;
      } else if j >= |a| {
        assert a[i] == e && b[j - |a|] == e;
      }
    }
    if Repeats(a, e) {
      var i, j :| 0 <= i < j < |a| && a[i] == e && a[j] == e;
      assert c[i] == e && c[j] == e;
    }
    if Repeats(b, e) {
      var i, j :| 0 <= i < j < |b| && b[i] == e && b[j] == e;
      assert c[|a| + i] == e && c[|a| + j] == e;
    }
    if e in a && e in b {
      var i :| 0 <= i < |a| && a[i] == e;
      var j :| 0 <= j < |b| && b[j] == e;
      assert c[i] == e && c[|a| + j] == e;
    }
  }

  lemma {:induction false} KeptRepeats(b: seq<Slot>, e: Slot)
    ensures Repeats(Kept(b), e) <==> exists k, m :: PairIn(b, e, k, m)
  {
    if b != [] {
      var u, x := b[..|b| - 1], b[|b| - 1];
      KeptRepeats(u, e);
      KeptMember(u, e);
      RepeatsSum(Kept(u), if Live(x) then [x] else [], e);
      if Repeats(Kept(u), e) {
        var k, m :| PairIn(u, e, k, m);
        assert PairIn(b, e, k, m);
      }
      if Live(x) && x == e && e in Kept(u) {
        var k :| 0 <= k < |u| && Live(u[k]) && u[k] == e;
        assert PairIn(b, e, k, |b| - 1);
      }
      if k, m :| PairIn(b, e, k, m) {
        assert m < |u| ==> PairIn(u, e, k, m);
        assert Live(u[k]) && u[k] == e;
      }
    }
  }

  lemma {:induction false} KeptAllRepeats(w: View, e: Slot)
    ensures Repeats(KeptAll(w), e) <==> Stored(w, e)
  {
    if w != [] {
      var u, b, n := w[..|w| - 1], w[|w| - 1], |w| - 1;
      KeptAllRepeats(u, e);
      KeptAllMember(u, e);
      KeptRepeats(b, e);
      KeptMember(b, e);
      RepeatsSum(KeptAll(u), Kept(b), e);
      if Stored(u, e) {
        var i, k, j, m :| PairAt(u, e, i, k, j, m);
        assert PairAt(w, e, i, k, j, m);
      }
      if k, m :| PairIn(b, e, k, m) {
        assert PairAt(w, e, n, k, n, m);
      }
      if Has(u, e) && e in Kept(b) {
        var i, k :| LiveAt(u, i, k) && u[i][k] == e;
        var m :| 0 <= m < |b| && Live(b[m]) && b[m] == e;
        assert PairAt(w, e, i, k, n, m);
      }
      if Stored(w, e) {
        StoredSplit(w, e);
      }
    }
  }

  lemma StoredSplit(w: View, e: Slot)
    requires w != [] && Stored(w, e)
    ensures
      var u, b := w[..|w| - 1], w[|w| - 1];
      Stored(u, e) || (exists k, m :: PairIn(b, e, k, m)) || (Has(u, e) && exists k :: 0 <= k < |b| && Live(b[k]) && b[k] == e)
  {
    var u, b := w[..|w| - 1], w[|w| - 1];
    var i, k, j, m :| PairAt(w, e, i, k, j, m);
    if j < |u| {
      assert PairAt(u, e, i, k, j, m);
    } else if i < |u| {
      assert LiveAt(u, i, k) && u[i][k] == e;
      assert Live(b[m]) && b[m] == e;
    } else {
      assert PairIn(b, e, k, m);
    }
  }

  /** In a well-formed directory only one kind of entry is stored twice: one a block names twice. */
  lemma StoredTwice(w: View, self: nat, e: Slot)
    requires WellFormed(w, self)
    ensures Stored(w, e) <==> Has(w, e) && !IsDot(e) && Twice(w, e.ino)
  {
    if Stored(w, e) {
      var i, k, j, m :| PairAt(w, e, i, k, j, m);
      assert Apart(w, i, k, j, m);
      assert IsRef(w[i][k], e.ino) && IsRef(w[i][m], e.ino);
      assert NamedTwice(w, i, e.ino);
    }
    if Has(w, e) && !IsDot(e) && Twice(w, e.ino) {
      var p, q :| LiveAt(w, p, q) && w[p][q] == e;
      var i: nat :| NamedTwice(w, i, e.ino);
      var k, m :| 0 <= k < m < |w[i]| && IsRef(w[i][k], e.ino) && IsRef(w[i][m], e.ino);
      assert LiveAt(w, i, k) && LiveAt(w, i, m);
      assert Apart(w, p, q, i, k) && Apart(w, p, q, i, m);
      assert PairAt(w, e, i, k, i, m);
    }
  }

  /** A listing gives an entry again exactly when the directory stores it twice, and so gives every entry once
      exactly when it stores none twice. */
  lemma ListedOnce(w: View, self: nat)
    requires WellFormed(w, self)
    ensures forall e :: Repeats(KeptAll(w), e) <==> Has(w, e) && !IsDot(e) && Twice(w, e.ino)
    ensures NoTwice(KeptAll(w)) <==> forall t: nat :: !Twice(w, t)
  {
    hide WellFormed, Twice, Has;
    var all := KeptAll(w);
    forall e ensures Repeats(all, e) <==> Has(w, e) && !IsDot(e) && Twice(w, e.ino) {
      KeptAllRepeats(w, e);
      StoredTwice(w, self, e);
    }
    if t: nat :| Twice(w, t) {
      var e := TwiceEntry(w, t);
      assert Repeats(all, e);
    }
    if i, j :| 0 <= i < j < |all| && all[i] == all[j] {
      assert Repeats(all, all[i]);
    }
  }

  lemma TwiceEntry(w: View, t: nat) returns (e: Slot)
    requires Twice(w, t)
    ensures Has(w, e) && !IsDot(e) && e.ino == t
  {
    var i: nat :| NamedTwice(w, i, t);
    var k, m :| 0 <= k < m < |w[i]| && IsRef(w[i][k], t) && IsRef(w[i][m], t);
    e := w[i][k];
    assert LiveAt(w, i, k);
  }

  // ---- where a new entry is listed ----

  lemma {:induction false} KeptSum(a: seq<Slot>, b: seq<Slot>)
    ensures Kept(a + b) == Kept(a) + Kept(b)
  {
    hide CountLive;
    if b == [] {
      assert a + b == a;
    } else {
      KeptSum(a, b[..|b| - 1]);
      assert (a + b)[..|a + b| - 1] == a + b[..|b| - 1];
    }
  }

  lemma {:induction false} KeptAllSum(a: View, b: View)
    ensures KeptAll(a + b) == KeptAll(a) + KeptAll(b)
  {
    hide Kept, CountLive, Total;
    if b == [] {
      assert a + b == a;
    } else {
      KeptAllSum(a, b[..|b| - 1]);
      assert (a + b)[..|a + b| - 1] == a + b[..|b| - 1];
    }
  }

  lemma KeptOne(e: Slot)
    ensures Kept([e]) == if Live(e) then [e] else []
  {
    assert [e][..0] == [];
  }

  /** A listing around slot `k` of a block. */
  lemma KeptAround(b: seq<Slot>, k: nat)
    requires k < |b|
    ensures Kept(b) == Kept(b[..k]) + (if Live(b[k]) then [b[k]] else []) + Kept(b[k + 1..])
  {
    hide Kept, CountLive;
    KeptSum(b[..k], [b[k]]);
    KeptSum(b[..k] + [b[k]], b[k + 1..]);
    KeptOne(b[k]);
    Parts(b, k);
  }

  lemma Parts<T>(s: seq<T>, k: nat)
    requires k < |s|
    ensures s[..k] + [s[k]] + s[k + 1..] == s
  {
  }

  /** A listing around block `i`. */
  lemma KeptAllAround(w: View, i: nat)
    requires i < |w|
    ensures KeptAll(w) == KeptAll(w[..i]) + Kept(w[i]) + KeptAll(w[i + 1..])
  {
    hide Kept, KeptAll, CountLive, Total;
    KeptAllSum(w[..i], [w[i]]);
    KeptAllSum(w[..i] + [w[i]], w[i + 1..]);
    KeptAllOne(w[i]);
    Parts(w, i);
  }

  lemma KeptAllOne(b: seq<Slot>)
    ensures KeptAll([b]) == Kept(b)
  {
    assert [b][..0] == [];
  }

  lemma KeptDoubled(e: Slot)
    requires Live(e)
    ensures Kept(Doubled(e)) == [e, e]
  {
    var none := seq(PER_SECTOR - 2, k => EMPTY);
    CountNone(none);
    KeptSum([e, e], none);
    KeptSum([e], [e]);
    KeptOne(e);
    assert [e] + [e] == [e, e];
  }

  /** The entries listed before slot `k` of block `i`. */
  ghost function Rank(w: View, i: nat, k: nat): nat
    requires i < |w| && k <= |w[i]|
  {
    |Met(w, i, k)|
  }

  function Copies(e: Slot, twice: bool): seq<Slot> {
    if twice then [e, e] else [e]
  }

  /** The listing gains the entry at the rank of its slot, and keeps the order of all others. */
  lemma InsertListed(x: View, y: View, e: Slot, twice: bool, i: nat, k: nat)
    requires StoredAt(x, y, e, twice, i, k) && Live(e)
    ensures
      var all, r := KeptAll(x), Rank(x, i, k);
      r <= |all| && KeptAll(y) == all[..r] + Copies(e, twice) + all[r..]
  {
    hide HasRoom, Doubled, Kept, KeptAll, CountLive, Total, FirstFree;
    KeptAllAround(x, i);
    KeptAllAround(y, i);
    assert y[..i] == x[..i] && y[i + 1..] == x[i + 1..];
    var head, tail := KeptAll(x[..i]), KeptAll(x[i + 1..]);
    if twice {
      KeptDoubled(e);
      KeptNone(x[i]);
      assert x[i][..0] == x[i];
      Between(head, [], [], tail, [e, e]);
    } else {
      var b := x[i];
      DeadThere(b, k);
      KeptAround(b, k);
      KeptAround(y[i], k);
      assert y[i][..k] == b[..k] && y[i][k + 1..] == b[k + 1..];
      Between(head, Kept(b[..k]), Kept(b[k + 1..]), tail, [e]);
    }
  }

  lemma KeptNone(b: seq<Slot>)
    requires b == []
    ensures Kept(b) == []
  {
  }

  lemma DeadThere(b: seq<Slot>, k: nat)
    requires FirstFree(b, k) && k < |b|
    ensures !Live(b[k])
  {
  }

  /** Putting `more` between the parts of a sequence. */
  lemma Between(a: seq<Slot>, b: seq<Slot>, c: seq<Slot>, d: seq<Slot>, more: seq<Slot>)
    ensures
      var all, r := a + (b + [] + c) + d, |a + b|;
      r <= |all| && a + (b + more + c) + d == all[..r] + more + all[r..]
  {
    var all := a + (b + [] + c) + d;
    assert all == (a + b) + (c + d);
    assert all[..|a + b|] == a + b && all[|a + b|..] == c + d;
  }

  /** `after` is `before` with the entry put in at the rank of the first free place of `x`. */
  ghost predicate ListGains(x: View, before: seq<Slot>, after: seq<Slot>, e: Slot, twice: bool) {
    exists i: nat, k: nat ::
      && FirstRoom(x, i) && FirstFree(x[i], k) && Rank(x, i, k) <= |before|
      && after == before[..Rank(x, i, k)] + Copies(e, twice) + before[Rank(x, i, k)..]
  }

  lemma InsertGains(x: View, y: View, e: Slot, twice: bool)
    requires StoredFirst(x, y, e, twice) && Live(e)
    ensures ListGains(x, KeptAll(x), KeptAll(y), e, twice)
  {
    hide HasRoom, Doubled, Kept, KeptAll, CountLive, Total, Rank;
    var i: nat, k: nat :| StoredAt(x, y, e, twice, i, k);
    InsertListed(x, y, e, twice, i, k);
    assert FirstRoom(x, i) && FirstFree(x[i], k);
  }

  /** No free slot and no missing block lies before a live entry. */
  ghost predicate NoHoles(w: View) {
    forall j, m :: LiveAt(w, j, m) ==> (forall i :: 0 <= i < j ==> !HasRoom(w[i])) && forall k :: 0 <= k < m ==> Live(w[j][k])
  }

  /** Behind the first free place of a directory without holes there is nothing. */
  lemma NothingBehind(x: View, y: View, e: Slot, twice: bool, i: nat, k: nat)
    requires StoredAt(x, y, e, twice, i, k) && NoHoles(x)
    ensures forall j, m :: LiveAt(x, j, m) ==> j < i || (j == i && m < k)
  {
    hide Doubled;
    forall j, m | LiveAt(x, j, m) ensures j < i || (j == i && m < k) {
      assert (forall h :: 0 <= h < j ==> !HasRoom(x[h])) && forall h :: 0 <= h < m ==> Live(x[j][h]);
    }
  }

  lemma {:induction false} NoneListed(w: View)
    requires forall j, m :: !LiveAt(w, j, m)
    ensures KeptAll(w) == []
  {
    hide Kept, CountLive;
    if w != [] {
      var n := |w| - 1;
      forall j, m ensures !LiveAt(w[..n], j, m) {
        assert !LiveAt(w, j, m);
      }
      NoneListed(w[..n]);
      forall m | 0 <= m < |w[n]| ensures !Live(w[n][m]) {
        assert !LiveAt(w, n, m);
      }
      CountNone(w[n]);
    }
  }

  /** In a directory without holes a new entry is listed last. */
  lemma ListedLast(x: View, y: View, e: Slot, twice: bool)
    requires StoredFirst(x, y, e, twice) && Live(e) && NoHoles(x)
    ensures KeptAll(y) == KeptAll(x) + Copies(e, twice)
  {
    hide HasRoom, Doubled, NoHoles, FirstFree;
    var i: nat, k: nat :| StoredAt(x, y, e, twice, i, k);
    InsertListed(x, y, e, twice, i, k);
    NothingBehind(x, y, e, twice, i, k);
    RestEmpty(x, i, k);
    assert KeptAll(x)[..|KeptAll(x)|] == KeptAll(x);
  }

  lemma RestEmpty(x: View, i: nat, k: nat)
    requires i < |x| && k <= |x[i]| && forall j, m :: LiveAt(x, j, m) ==> j < i || (j == i && m < k)
    ensures Rank(x, i, k) == |KeptAll(x)|
  {
    hide Kept, KeptAll, CountLive, Total;
    KeptAllAround(x, i);
    var b := x[i];
    KeptSum(b[..k], b[k..]);
    assert b[..k] + b[k..] == b;
    forall m | 0 <= m < |b[k..]| ensures !Live(b[k..][m]) {
      assert !LiveAt(x, i, k + m);
    }
    CountNone(b[k..]);
    var rest := x[i + 1..];
    forall j, m ensures !LiveAt(rest, j, m) {
      if 0 <= j {
        assert !LiveAt(x, i + 1 + j, m);
      }
    }
    NoneListed(rest);
  }

  /** Inserting leaves no hole. */
  lemma NoHolesKept(x: View, y: View, e: Slot, twice: bool)
    requires StoredFirst(x, y, e, twice) && Live(e) && NoHoles(x)
    ensures NoHoles(y)
  {
    var i: nat, k: nat :| StoredAt(x, y, e, twice, i, k);
    NothingBehind(x, y, e, twice, i, k);
    forall j, m | LiveAt(y, j, m)
      ensures (forall h :: 0 <= h < j ==> !HasRoom(y[h])) && forall h :: 0 <= h < m ==> Live(y[j][h])
    {
      if j != i {
        assert LiveAt(x, j, m);
      } else if !twice && m != k {
        assert LiveAt(x, i, m);
      }
      assert forall h :: 0 <= h < j ==> y[h] == x[h];
    }
  }

  // ---- what is listed after a removal ----

  /** `after` is `before` without one occurrence of `e`, in the same order. */
  ghost predicate ListLoses(before: seq<Slot>, after: seq<Slot>, e: Slot) {
    exists r: nat :: r < |before| && before[r] == e && after == before[..r] + before[r + 1..]
  }

  lemma Without(a: seq<Slot>, b: seq<Slot>, c: seq<Slot>, d: seq<Slot>, e: Slot)
    ensures ListLoses(a + (b + [e] + c) + d, a + (b + [] + c) + d, e)
  {
    var before, after, r := a + (b + [e] + c) + d, a + (b + [] + c) + d, |a| + |b|;
    assert before[r] == e;
    assert after == before[..r] + before[r + 1..];
  }

  /** A removal takes the entry out of the listing and keeps the order of all others. */
  lemma RemoveListed(x: View, y: View, e: Slot)
    requires TakenOut(x, y, e)
    ensures ListLoses(KeptAll(x), KeptAll(y), e)
  {
    hide Kept, KeptAll, CountLive, Total, ListLoses;
    var i: nat, k: nat :| Removed(x, y, i, k) && x[i][k] == e;
    KeptAllAround(x, i);
    KeptAllAround(y, i);
    assert y[..i] == x[..i] && y[i + 1..] == x[i + 1..];
    var b := x[i];
    KeptAround(b, k);
    if y[i] == [] {
      forall m | 0 <= m < |b| && Live(b[m]) ensures m == k {
        assert LiveAt(x, i, m);
      }
      OnlyOne(b, k);
      KeptNone(y[i]);
    } else {
      KeptAround(y[i], k);
      assert y[i][..k] == b[..k] && y[i][k + 1..] == b[k + 1..];
    }
    Without(KeptAll(x[..i]), Kept(b[..k]), Kept(b[k + 1..]), KeptAll(x[i + 1..]), e);
  }

  lemma OnlyOne(b: seq<Slot>, k: nat)
    requires k < |b| && forall m :: 0 <= m < |b| && Live(b[m]) ==> m == k
    ensures Kept(b[..k]) == [] && Kept(b[k + 1..]) == []
  {
    CountNone(b[..k]);
    CountNone(b[k + 1..]);
  }
}
