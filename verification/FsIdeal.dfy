/** What the file system is meant to be: a tree of names and a byte string for every file. */
module FsIdeal {
  import opened Sectors
  import opened Volumes
  import opened FileIO
  import opened DirEntries
  import opened NameTree
  import opened FsStates
  import opened Paths
  import opened Namespace
  import opened NamespaceOps
  import opened PathOps

  /** Calls on paths. `memory` and `slot` say whether the heap and the file table have room. */
  datatype Request = Create(path: string, memory: bool, slot: bool)
                   | MakeDir(path: string)
                   | Append(path: string, bytes: seq<Byte>)
                   | Unlink(path: string)
                   | RemoveDir(path: string)

  /** `Ok`: done, to inode `ino`. `Refused`: nothing has changed. `Broken`: one of the cases in which the
      kernel stops, or the partition, its inode table or the open list is no longer what it should be. */
  datatype Outcome = Ok(ino: Word) | Refused | Broken

  datatype Ideal = Ideal(names: Names, files: map<nat, seq<Byte>>)

  ghost function Bytes(v: Vol, f: nat): seq<Byte> {
    if f in v.inodes && |v.inodes[f].sectors| == 13 && v.inodes[f].size <= MAX_BLOCKS * BLOCK_SIZE
    then Content(v.disk, v.inodes[f]) else []
  }

  ghost function Files(v: Vol): (files: map<nat, seq<Byte>>)
    ensures files.Keys == v.inodes.Keys - v.dirs
  {
    map f | f in v.inodes && f !in v.dirs :: Bytes(v, f)
  }

  /** What a partition shows. */
  ghost function Abs(v: Vol): Ideal {
    Ideal(NamesOf(v), Files(v))
  }

  /** The entry of directory `d` that names inode `ino`. */
  ghost function EntryFor(n: Names, d: nat, ino: nat): (e: Slot)
    requires NamedBy(n, d, ino)
    ensures Entry(n, d, e) && !IsDot(e) && e.ino == ino
  {
    var e :| Entry(n, d, e) && !IsDot(e) && e.ino == ino; e
  }

  ghost predicate MissingAt(m: Ideal, path: string, s: Search) {
    && s == SearchOf(m.names, path) && s.Lost? && s.depth == |Components(path)| > 0
    && s.dir in m.names.dirs && s.dir in m.names.entries && s.dir < 4096
  }

  ghost predicate FileAt(m: Ideal, path: string, s: Search) {
    && s == SearchOf(m.names, path) && s.Found? && !s.isDir && s.ino in m.files
  }

  ghost predicate NamedAt(m: Ideal, s: Search)
    requires s.Found?
  {
    s.parent in m.names.entries && NamedBy(m.names, s.parent, s.ino)
  }

  /** When a request may succeed for inode `ino`. */
  ghost predicate Fits(m: Ideal, q: Request, ino: nat) {
    var s := SearchOf(m.names, q.path);
    match q
    case Create(_, _, _) => MissingAt(m, q.path, s) && ino !in m.names.live
    case MakeDir(_) => MissingAt(m, q.path, s) && ino !in m.names.live
    case Append(_, _) => FileAt(m, q.path, s) && s.ino == ino && FileAtEnd(m.names, Components(q.path), s)
    case Unlink(_) => FileAt(m, q.path, s) && s.ino == ino && NamedAt(m, s)
    case RemoveDir(_) =>
      && s.Found? && s.isDir && s.ino == ino && ino != ROOT && ino in m.names.dirs && NamedAt(m, s)
      && forall e :: Entry(m.names, ino, e) ==> IsDot(e)
  }

  /** What a request that succeeds for inode `ino` does. */
  ghost function Done(m: Ideal, q: Request, ino: Word): Ideal
    requires Fits(m, q, ino)
  {
    var s := SearchOf(m.names, q.path);
    match q
    case Create(path, _, _) =>
      Ideal(WithFile(m.names, s.dir, Slot(LastOf(path), ino, FT_REGULAR)), m.files[ino := []])
    case MakeDir(path) => Ideal(WithDir(m.names, s.dir, Slot(LastOf(path), ino, FT_DIRECTORY)), m.files)
    case Append(_, bytes) => m.(files := m.files[ino := m.files[ino] + bytes])
    case Unlink(_) => Ideal(WithoutFile(m.names, s.parent, EntryFor(m.names, s.parent, ino)), m.files - {ino as nat})
    case RemoveDir(_) => m.(names := WithoutDir(m.names, s.parent, EntryFor(m.names, s.parent, ino)))
  }

  ghost function Effect(m: Ideal, q: Request, o: Outcome): Ideal {
    if o.Ok? && Fits(m, q, o.ino) then Done(m, q, o.ino) else m
  }

  /** The outcome of a request makes sense. */
  ghost predicate Right(m: Ideal, q: Request, o: Outcome) {
    o.Ok? ==> Fits(m, q, o.ino)
  }

  /** What requests with these outcomes make of `m`. */
  ghost function Replay(m: Ideal, qs: seq<Request>, os: seq<Outcome>): Ideal
    requires |qs| == |os|
  {
    if qs == [] then m
    else
      var k := |qs| - 1;
      Effect(Replay(m, qs[..k], os[..k]), qs[k], os[k])
  }

  ghost predicate AllRight(m: Ideal, qs: seq<Request>, os: seq<Outcome>)
    requires |qs| == |os|
  {
    forall k: nat :: k < |qs| ==> Right(Replay(m, qs[..k], os[..k]), qs[k], os[k])
  }

  lemma ReplayOne(m: Ideal, qs: seq<Request>, os: seq<Outcome>, q: Request, o: Outcome)
    requires |qs| == |os|
    ensures Replay(m, qs + [q], os + [o]) == Effect(Replay(m, qs, os), q, o)
  {
    assert (qs + [q])[..|qs|] == qs && (os + [o])[..|os|] == os;
  }

  lemma RightOne(m: Ideal, qs: seq<Request>, os: seq<Outcome>, q: Request, o: Outcome)
    requires |qs| == |os| && AllRight(m, qs, os) && Right(Replay(m, qs, os), q, o)
    ensures AllRight(m, qs + [q], os + [o])
  {
    hide Right, Replay;
    var ps, bs := qs + [q], os + [o];
    forall k: nat | k < |ps| ensures Right(Replay(m, ps[..k], bs[..k]), ps[k], bs[k]) {
      if k < |qs| {
        assert ps[..k] == qs[..k] && bs[..k] == os[..k];
      } else {
        assert ps[..k] == qs && bs[..k] == os;
      }
    }
  }

  lemma {:induction false} ReplayCons(m: Ideal, q: Request, o: Outcome, qs: seq<Request>, os: seq<Outcome>)
    requires |qs| == |os|
    ensures Replay(m, [q] + qs, [o] + os) == Replay(Effect(m, q, o), qs, os)
    decreases |qs|
  {
    hide Effect;
    var ps, bs := [q] + qs, [o] + os;
    var k := |qs|;
    if k == 0 {
      assert ps[..0] == [] && bs[..0] == [];
    } else {
      assert ps[..k] == [q] + qs[..k - 1] && bs[..k] == [o] + os[..k - 1];
      ReplayCons(m, q, o, qs[..k - 1], os[..k - 1]);
    }
  }

  lemma ReplayFirst(m: Ideal, q: Request, o: Outcome, qs: seq<Request>, os: seq<Outcome>)
    requires |qs| == |os| && AllRight(m, [q] + qs, [o] + os)
    ensures Right(m, q, o) && AllRight(Effect(m, q, o), qs, os)
    ensures Replay(m, [q] + qs, [o] + os) == Replay(Effect(m, q, o), qs, os)
  {
    hide Effect, Right, Replay;
    var ps, bs := [q] + qs, [o] + os;
    ReplayCons(m, q, o, qs, os);
    assert ps[..0] == [] && bs[..0] == [];
    ReplayNone(m);
    forall k: nat | k < |qs| ensures Right(Replay(Effect(m, q, o), qs[..k], os[..k]), qs[k], os[k]) {
      var j := k + 1;
      assert ps[..j] == [q] + qs[..k] && bs[..j] == [o] + os[..k] && ps[j] == qs[k] && bs[j] == os[k];
      ReplayCons(m, q, o, qs[..k], os[..k]);
    }
  }

  lemma ReplayNone(m: Ideal)
    ensures Replay(m, [], []) == m
  {
  }

  // ---- the bytes of one file ----

  /** What the requests have appended to file `f`, in order. */
  function AppendedTo(qs: seq<Request>, os: seq<Outcome>, f: nat): seq<Byte>
    requires |qs| == |os|
  {
    if qs == [] then []
    else
      var k := |qs| - 1;
      AppendedTo(qs[..k], os[..k], f) + if qs[k].Append? && os[k].Ok? && os[k].ino == f then qs[k].bytes else []
  }

  /** The files are the live inodes that are not directories. */
  ghost predicate Whole(m: Ideal) {
    m.names.dirs <= m.names.live && m.files.Keys == m.names.live - m.names.dirs
  }

  lemma EffectWhole(m: Ideal, q: Request, o: Outcome)
    requires Whole(m) && Right(m, q, o)
    ensures Whole(Effect(m, q, o))
  {
    hide SearchOf, FileAtEnd, Entry, Components, NamedAt, MissingAt;
    if o.Ok? {
      match q
      case Create(_, _, _) => CreateWhole(m, q, o.ino);
      case MakeDir(_) => MakeWhole(m, q, o.ino);
      case Append(_, _) =>
      case Unlink(_) =>
      case RemoveDir(_) => assert o.ino !in m.files;
    }
  }

  lemma CreateWhole(m: Ideal, q: Request, ino: Word)
    requires Whole(m) && q.Create? && Fits(m, q, ino)
    ensures Whole(Done(m, q, ino))
  {
    hide SearchOf, FileAtEnd, Entry, Components;
  }

  lemma MakeWhole(m: Ideal, q: Request, ino: Word)
    requires Whole(m) && q.MakeDir? && Fits(m, q, ino)
    ensures Whole(Done(m, q, ino))
  {
    hide SearchOf, FileAtEnd, Entry, Components;
  }

  lemma {:induction false} ReplayWhole(m: Ideal, qs: seq<Request>, os: seq<Outcome>)
    requires Whole(m) && |qs| == |os| && AllRight(m, qs, os)
    ensures Whole(Replay(m, qs, os))
    decreases |qs|
  {
    hide Right, Effect, Whole;
    if qs != [] {
      var k := |qs| - 1;
      RightBefore(m, qs, os, k);
      ReplayWhole(m, qs[..k], os[..k]);
      EffectWhole(Replay(m, qs[..k], os[..k]), qs[k], os[k]);
    }
  }

  lemma RightBefore(m: Ideal, qs: seq<Request>, os: seq<Outcome>, k: nat)
    requires |qs| == |os| && AllRight(m, qs, os) && k <= |qs|
    ensures AllRight(m, qs[..k], os[..k])
  {
    hide Right, Replay;
    forall j: nat | j < k ensures Right(Replay(m, qs[..k][..j], os[..k][..j]), qs[..k][j], os[..k][j]) {
      assert qs[..k][..j] == qs[..j] && os[..k][..j] == os[..j];
    }
  }

  lemma EffectBytes(m: Ideal, q: Request, o: Outcome, f: nat)
    requires Whole(m) && f in m.files && f in Effect(m, q, o).files && Right(m, q, o)
    ensures Effect(m, q, o).files[f] == m.files[f] + if q.Append? && o.Ok? && o.ino == f then q.bytes else []
  {
    hide SearchOf, FileAtEnd, Entry, Components;
  }

  /** File `f` is there throughout. */
  ghost predicate Lives(m: Ideal, qs: seq<Request>, os: seq<Outcome>, f: nat)
    requires |qs| == |os|
  {
    forall k: nat :: k <= |qs| ==> f in Replay(m, qs[..k], os[..k]).files
  }

  /** A file that is there throughout holds what it held at the start and then what was appended to it. */
  lemma {:induction false} ReplayBytes(m: Ideal, qs: seq<Request>, os: seq<Outcome>, f: nat)
    requires Whole(m) && |qs| == |os| && AllRight(m, qs, os) && Lives(m, qs, os, f)
    ensures f in m.files && f in Replay(m, qs, os).files && Replay(m, qs, os).files[f] == m.files[f] + AppendedTo(qs, os, f)
    decreases |qs|
  {
    hide Right, Effect, Whole, AllRight, Lives;
    LivesEnds(m, qs, os, f);
    if qs != [] {
      var k := |qs| - 1;
      var ps, bs := qs[..k], os[..k];
      RightBefore(m, qs, os, k);
      LastRight(m, qs, os);
      LivesBefore(m, qs, os, f, k);
      ReplayWhole(m, ps, bs);
      ReplayBytes(m, ps, bs, f);
      EffectBytes(Replay(m, ps, bs), qs[k], os[k], f);
    }
  }

  lemma LastRight(m: Ideal, qs: seq<Request>, os: seq<Outcome>)
    requires |qs| == |os| > 0 && AllRight(m, qs, os)
    ensures var k := |qs| - 1; Right(Replay(m, qs[..k], os[..k]), qs[k], os[k])
  {
    hide Right, Replay;
  }

  lemma LivesEnds(m: Ideal, qs: seq<Request>, os: seq<Outcome>, f: nat)
    requires |qs| == |os| && Lives(m, qs, os, f)
    ensures f in m.files && f in Replay(m, qs, os).files
  {
    assert qs[..|qs|] == qs && os[..|os|] == os && qs[..0] == [] && os[..0] == [];
  }

  lemma LivesBefore(m: Ideal, qs: seq<Request>, os: seq<Outcome>, f: nat, k: nat)
    requires |qs| == |os| && Lives(m, qs, os, f) && k <= |qs|
    ensures Lives(m, qs[..k], os[..k], f)
  {
    hide Replay;
    forall j: nat | j <= k ensures f in Replay(m, qs[..k][..j], os[..k][..j]).files {
      assert qs[..k][..j] == qs[..j] && os[..k][..j] == os[..j];
    }
  }

  /** A file created by the first request holds what was appended to it since. */
  lemma CreatedBytes(m: Ideal, q: Request, f: Word, qs: seq<Request>, os: seq<Outcome>)
    requires Whole(m) && q.Create? && Fits(m, q, f) && |qs| == |os|
    requires AllRight(Done(m, q, f), qs, os) && Lives(Done(m, q, f), qs, os, f)
    ensures var n := Replay(Done(m, q, f), qs, os); f in n.files && n.files[f] == AppendedTo(qs, os, f)
  {
    hide SearchOf, FileAtEnd, Entry, Components, AllRight, Lives;
    EffectWhole(m, q, Ok(f));
    ReplayBytes(Done(m, q, f), qs, os, f);
  }
}
