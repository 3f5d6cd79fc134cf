/** Whole runs of the file system: any sequence of calls, carried out one after the other. */
module FsRuns {
  import opened Sectors
  import opened Volumes
  import opened FileIO
  import opened FileAppend
  import opened DirStates
  import opened NameTree
  import opened FsStates
  import opened FsProofs
  import opened OpStates
  import opened Paths
  import opened Namespace
  import opened NamespaceOps
  import opened PathOps
  import opened InodeCache
  import opened InodeCacheProofs
  import opened MountStates
  import opened MountProofs
  import opened FsIdeal
  import opened FsDecided
  import opened FsCallProofs
  import opened FsCalls
  import opened FsOutcomes

  /** One call. */
  method Call(m: InodeStore, q: Request) returns (o: Outcome)
    requires Mounted(m.vol.State(), m.open) && GoodPath(q.path)
    modifies m`open, m.vol
    ensures Stepped(old(m.vol.State()), old(m.open), m.vol.State(), m.open, q, o)
    ensures (o.Ok? <==> Succeeds(old(m.vol.State()), old(m.open), q)) && (o.Refused? <==> Refuses(old(m.vol.State()), old(m.open), q))
    ensures o.Ok? ==> RightInode(old(m.vol.State()), q, o.ino)
  {
    hide Mounted, GoodPath, Stepped, TableAgrees, Inv, CreateOutcome, MkdirAnswers, SearchOf, NamesOf, Components, MissingLastOf, Find,
      OpensFile, AppendAnswers, UnlinkAnswer, RmdirAnswer, Decided, Succeeds, Refuses, RightInode;
    ghost var v, open := m.vol.State(), m.open;
    MountedParts(v, open);
    EveryOutcome(v, open, q);
    ghost var created, made, written, unlinked, removed, dir, parent, ino, lba, held;
    match q {
      case Create(path, memory, slot) => o, created, dir := CallCreate(m, path, memory, slot);
      case MakeDir(path) => o, made, parent, ino, lba := CallMkdir(m, path);
      case Append(path, bytes) => o, written := CallAppend(m, path, bytes);
      case Unlink(path) => o, unlinked := CallUnlink(m, path);
      case RemoveDir(path) => o, removed, held := CallRmdir(m, path);
    }
    DecidedBy(v, open, m.vol.State(), m.open, q, o);
  }

  lemma DecidedBy(v: Vol, open: seq<Cached>, w: Vol, now: seq<Cached>, q: Request, o: Outcome)
    requires Stepped(v, open, w, now, q, o)
    ensures o == Decided(v, open, q)
  {
    hide Decided;
  }

  /** The calls `qs`, with outcomes `os`, have led from `v` to `w` without breaking anything. */
  ghost predicate Ran(v: Vol, w: Vol, open: seq<Cached>, qs: seq<Request>, os: seq<Outcome>) {
    && |qs| == |os| && Mounted(w, open) && (forall k :: 0 <= k < |os| ==> !os[k].Broken?)
    && AllRight(Abs(v), qs, os) && Abs(w) == Replay(Abs(v), qs, os)
  }

  lemma RanNone(v: Vol, open: seq<Cached>)
    requires Mounted(v, open)
    ensures Ran(v, v, open, [], [])
  {
    hide Mounted, Abs;
  }

  lemma RanOne(v: Vol, w: Vol, x: Vol, open: seq<Cached>, now: seq<Cached>, qs: seq<Request>, os: seq<Outcome>, q: Request, o: Outcome)
    requires Ran(v, w, open, qs, os) && Stepped(w, open, x, now, q, o) && !o.Broken?
    ensures Ran(v, x, now, qs + [q], os + [o])
  {
    hide Mounted, Abs, AllRight, Right, Effect, Replay, Decided, ListNow, SameNumbers, OthersKept;
    ReplayOne(Abs(v), qs, os, q, o);
    RightOne(Abs(v), qs, os, q, o);
  }

  /** A partition and its open inodes between two calls. */
  datatype Point = Point(v: Vol, open: seq<Cached>)

  ghost predicate StepAt(run: seq<Point>, qs: seq<Request>, os: seq<Outcome>, k: nat) {
    && k < |qs| && k < |os| && k + 1 < |run| && !os[k].Broken?
    && Stepped(run[k].v, run[k].open, run[k + 1].v, run[k + 1].open, qs[k], os[k])
  }

  /** Every call has led from its point of the run to the next. */
  ghost predicate Steps(run: seq<Point>, qs: seq<Request>, os: seq<Outcome>) {
    |run| == |qs| + 1 == |os| + 1 && forall k: nat :: k < |qs| ==> StepAt(run, qs, os, k)
  }

  lemma StepsOne(run: seq<Point>, qs: seq<Request>, os: seq<Outcome>, p: Point, q: Request, o: Outcome)
    requires Steps(run, qs, os) && Stepped(run[|qs|].v, run[|qs|].open, p.v, p.open, q, o) && !o.Broken?
    ensures Steps(run + [p], qs + [q], os + [o])
  {
    hide Stepped;
    forall k: nat | k < |qs| + 1 ensures StepAt(run + [p], qs + [q], os + [o], k) {
      assert k < |qs| ==> StepAt(run, qs, os, k);
    }
  }

  // ---- what is left open ----

  /** The directories that the first `k` calls have left open. */
  ghost function LeftOpen(run: seq<Point>, qs: seq<Request>, k: nat): set<nat>
    requires k <= |qs| && k <= |run|
  {
    if k == 0 then {}
    else
      LeftOpen(run, qs, k - 1) +
      (var n, q := NamesOf(run[k - 1].v), qs[k - 1];
       if q.Append? && LeavesOpen(n, q.path) then {SearchOf(n, q.path).parent} else {})
  }

  /** The open inodes along a run are those that were open and the directories left open since. */
  lemma {:induction false} OpenInRun(run: seq<Point>, qs: seq<Request>, os: seq<Outcome>, k: nat)
    requires Steps(run, qs, os) && k <= |qs| && Mounted(run[0].v, run[0].open)
    ensures Mounted(run[k].v, run[k].open) && OpenNumbers(run[k].open) == OpenNumbers(run[0].open) + LeftOpen(run, qs, k)
  {
    hide Mounted, Stepped, LeavesOpen, SearchOf, NamesOf;
    if k > 0 {
      OpenInRun(run, qs, os, k - 1);
      assert StepAt(run, qs, os, k - 1);
      OpenAfter(run[k - 1].v, run[k - 1].open, run[k].v, run[k].open, qs[k - 1], os[k - 1]);
    }
  }

  lemma OpenAfter(v: Vol, open: seq<Cached>, w: Vol, now: seq<Cached>, q: Request, o: Outcome)
    requires Mounted(v, open) && Stepped(v, open, w, now, q, o) && !o.Broken?
    ensures Mounted(w, now)
    ensures q.Append? && LeavesOpen(NamesOf(v), q.path) ==> SearchOf(NamesOf(v), q.path).Found?
    ensures OpenNumbers(now) == OpenNumbers(open) +
      if q.Append? && LeavesOpen(NamesOf(v), q.path) then {SearchOf(NamesOf(v), q.path).parent} else {}
  {
    hide Mounted, Abs, Right, Effect, Decided, OthersKept, Find, SearchOf, NamesOf, Components, FileAtEnd, TableAgrees, Inv, AfterOpen,
      NoStale, Small, SameNumbers, Touched;
    MountedParts(v, open);
    SameOpen(ListNow(v, open, q), now);
    if q.Append? && LeavesOpen(NamesOf(v), q.path) {
      var s := SearchOf(NamesOf(v), q.path);
      ParentLive(v, q.path, s);
      AgreeOf(v, open);
      OpenedNumbers(InodesOf(v, open), v.inodes, s.parent);
    }
  }

  lemma AgreeOf(v: Vol, open: seq<Cached>)
    requires TableAgrees(v, open)
    ensures Agree(InodesOf(v, open), v.inodes, {})
  {
    hide Agree;
  }

  lemma SameOpen(a: seq<Cached>, b: seq<Cached>)
    requires SameNumbers(a, b)
    ensures OpenNumbers(a) == OpenNumbers(b)
  {
    hide Find;
    forall p: nat ensures p in OpenNumbers(a) <==> p in OpenNumbers(b) {
      NumbersFind(a, b, p);
    }
  }

  /** After a run, removing a directory that could be removed leaves a stale inode behind exactly when the
      directory was open at the start or some call of the run has opened a file in it. */
  lemma HeldInRun(run: seq<Point>, qs: seq<Request>, os: seq<Outcome>, path: string)
    requires Steps(run, qs, os) && Mounted(run[0].v, run[0].open)
    requires RmdirAnswer(run[|qs|].v, SearchOf(NamesOf(run[|qs|].v), path), LastName(path)).Gone?
    ensures
      var last, s := run[|qs|], SearchOf(NamesOf(run[|qs|].v), path);
      s.Found? && (Decided(last.v, last.open, RemoveDir(path)).Broken? <==> s.ino in OpenNumbers(run[0].open) + LeftOpen(run, qs, |qs|))
  {
    hide Mounted, StepAt, LeftOpen, SearchOf, NamesOf, Inv, IsEmpty, Twice, ViewAt, LastName, TableAgrees, Small, NoStale;
    OpenInRun(run, qs, os, |qs|);
    var last := run[|qs|];
    MountedParts(last.v, last.open);
    FoundLive(last.v, path, SearchOf(NamesOf(last.v), path));
  }

  lemma AbsWhole(v: Vol)
    requires Inv(v)
    ensures Whole(Abs(v))
  {
    hide Shapes, Tree, RootFirst, Owns, BitsMatch, Files;
  }

  /** A file that is there throughout a run holds what it held before and then what was appended to it. */
  lemma RunBytes(v: Vol, w: Vol, open: seq<Cached>, qs: seq<Request>, os: seq<Outcome>, f: nat)
    requires Inv(v) && Ran(v, w, open, qs, os) && Lives(Abs(v), qs, os, f)
    ensures Bytes(w, f) == Bytes(v, f) + AppendedTo(qs, os, f)
  {
    hide Inv, Mounted, NamesOf, Bytes, AllRight, Lives, Replay, Whole;
    AbsWhole(v);
    ReplayBytes(Abs(v), qs, os, f);
  }

  /** A file created by the first call of a run, and there since, holds what was appended to it. */
  lemma FileIsWhatWasWritten(v: Vol, w: Vol, open: seq<Cached>, q: Request, f: Word, qs: seq<Request>, os: seq<Outcome>)
    requires Inv(v) && |qs| == |os| && Ran(v, w, open, [q] + qs, [Ok(f)] + os) && q.Create? && Fits(Abs(v), q, f)
    requires Lives(Done(Abs(v), q, f), qs, os, f)
    ensures Bytes(w, f) == AppendedTo(qs, os, f)
  {
    hide Inv, Mounted, NamesOf, Bytes, AllRight, Lives, Replay, Whole, Fits, Done;
    AbsWhole(v);
    ReplayFirst(Abs(v), q, Ok(f), qs, os);
    CreatedBytes(Abs(v), q, f, qs, os);
  }

  lemma MountedOwnership(v: Vol, open: seq<Cached>)
    requires Mounted(v, open)
    ensures NothingShared(v) && BitsExact(v) && Inv(v)
  {
    hide NothingShared, BitsExact, Sound, Shapes, Tree, NamesOf, RootFirst, TableAgrees, DeadClear, NoStale, Small;
    Ownership(v);
  }

  /** Carries out the calls `qs` until one breaks something or all are done. `run` are the points between the
      calls up to the last at which nothing was broken: every outcome, the breaking one too, is what the state
      before it decides. At the last point no block is shared, the bitmap is exact, the inode table agrees,
      and the tree of names and the bytes of every file are what the calls so far make of the tree and the
      bytes at the start. */
  method Execute(m: InodeStore, qs: seq<Request>) returns (os: seq<Outcome>, ghost good: nat, ghost run: seq<Point>)
    requires Mounted(m.vol.State(), m.open) && forall k :: 0 <= k < |qs| ==> GoodPath(qs[k].path)
    modifies m`open, m.vol
    ensures good <= |os| <= |qs| && Steps(run, qs[..good], os[..good]) && run[0] == Point(old(m.vol.State()), old(m.open))
    ensures Ran(run[0].v, run[good].v, run[good].open, qs[..good], os[..good])
    ensures var last := run[good]; Inv(last.v) && NothingShared(last.v) && BitsExact(last.v) && TableAgrees(last.v, last.open)
    ensures good < |os| ==> |os| == good + 1 && os[good].Broken? && Decided(run[good].v, run[good].open, qs[good]).Broken?
    ensures good == |os| ==> |os| == |qs| && run[good] == Point(m.vol.State(), m.open)
  {
    hide Ran, GoodPath, NothingShared, BitsExact, Inv, Stepped, Mounted, TableAgrees, StepAt, Decided;
    os, good, run := [], 0, [Point(m.vol.State(), m.open)];
    ghost var v := m.vol.State();
    RanNone(v, m.open);
    assert qs[..0] == [];
    while |os| < |qs|
      invariant good == |os| <= |qs| && Steps(run, qs[..good], os) && run[0] == Point(v, old(m.open)) && run[good] == Point(m.vol.State(), m.open)
      invariant Ran(v, m.vol.State(), m.open, qs[..good], os) && Mounted(m.vol.State(), m.open)
      decreases |qs| - |os|
    {
      var q := qs[|os|];
      ghost var last := run[good];
      var o := Call(m, q);
      ghost var before := os;
      os := os + [o];
      assert os[..good] == before;
      if o.Broken? {
        BrokenIs(last, Point(m.vol.State(), m.open), q);
        MountedOwnership(last.v, last.open);
        MountedParts(last.v, last.open);
        return;
      }
      RanOne(v, last.v, m.vol.State(), last.open, m.open, qs[..good], before, q, o);
      RanMounted(v, m.vol.State(), m.open, qs[..good] + [q], os);
      StepsOne(run, qs[..good], before, Point(m.vol.State(), m.open), q, o);
      assert qs[..good] + [q] == qs[..good + 1];
      good, run := good + 1, run + [Point(m.vol.State(), m.open)];
    }
    MountedOwnership(m.vol.State(), m.open);
    MountedParts(m.vol.State(), m.open);
    assert os[..good] == os;
  }

  lemma BrokenIs(a: Point, b: Point, q: Request)
    requires Stepped(a.v, a.open, b.v, b.open, q, Broken)
    ensures Decided(a.v, a.open, q).Broken?
  {
    hide Decided;
  }

  lemma RanMounted(v: Vol, w: Vol, open: seq<Cached>, qs: seq<Request>, os: seq<Outcome>)
    requires Ran(v, w, open, qs, os)
    ensures Mounted(w, open)
  {
    hide Mounted, Abs, AllRight;
  }

  // ---- reading ----

  /** Opens a file by its path and reads from it; its directory stays open. */
  method ReadPath(m: InodeStore, path: string, pos: nat, count: nat) returns (found: bool, r: ReadResult)
    requires Mounted(m.vol.State(), m.open) && GoodPath(path)
    modifies m`open
    ensures
      var ideal := Abs(m.vol.State());
      && (found <==> OpensFile(ideal.names, path))
      && (found ==> var f := SearchOf(ideal.names, path).ino; f in ideal.files && ReadsRight(ideal.files[f], pos, count, r))
    ensures Mounted(m.vol.State(), m.open) && m.open == ListAfter(m.vol.State(), old(m.open), path)
    ensures m.open == old(m.open) <==> !LeavesOpen(NamesOf(m.vol.State()), path)
  {
    hide Mounted, Inv, NamesOf, Components, SearchOf, FileAtEnd, GoodPath, TableAgrees, IsFile, ReadsRight, NoStale, Small, ListAfter;
    MountedParts(m.vol.State(), m.open);
    ListSame(m.vol.State(), m.open, path);
    ghost var s := SearchOf(NamesOf(m.vol.State()), path);
    var ino := OpenFile(m, path);
    found, r := ino != -1, Eof;
    if !found {
      return;
    }
    IsFoundFile(m.vol.State(), path, s);
    var next;
    r, next := FileRead(m.vol, ino, pos, count);
    FileBytes(m.vol.State(), ino);
  }

  lemma FileBytes(v: Vol, f: nat)
    requires IsFile(v, f)
    ensures f in Files(v) && Files(v)[f] == Content(v.disk, v.inodes[f]) && |Files(v)[f]| == v.inodes[f].size
  {
    FileSize(v, f);
  }

  /** Any calls, and then a read: if nothing broke, the read gives what those calls have made of the file. */
  method ExecuteThenRead(m: InodeStore, qs: seq<Request>, path: string, pos: nat, count: nat)
    returns (os: seq<Outcome>, ran: bool, found: bool, r: ReadResult)
    requires Mounted(m.vol.State(), m.open) && GoodPath(path) && forall k :: 0 <= k < |qs| ==> GoodPath(qs[k].path)
    modifies m`open, m.vol
    ensures ran ==> |os| == |qs|
    ensures ran ==>
      var ideal := Replay(Abs(old(m.vol.State())), qs, os);
      && (found <==> OpensFile(ideal.names, path))
      && (found ==> var f := SearchOf(ideal.names, path).ino; f in ideal.files && ReadsRight(ideal.files[f], pos, count, r))
  {
    hide Mounted, GoodPath, Inv, NothingShared, BitsExact, Abs, AllRight, SearchOf, FileAtEnd, Components, Replay, TableAgrees, ReadsRight,
      Steps, ListAfter, LeavesOpen, Decided;
    ghost var good, run;
    os, good, run := Execute(m, qs);
    ran, found, r := os == [] || !os[|os| - 1].Broken?, false, Eof;
    if ran {
      assert good == |os| && qs[..good] == qs && os[..good] == os;
      found, r := ReadPath(m, path, pos, count);
    }
  }
}
