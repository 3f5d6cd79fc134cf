/** The open-inode list in front of the table. */
module InodeCache {
  import opened Sectors
  import opened Volumes
  import opened InodeRecords

  /** An inode in memory and how often it is open. */
  datatype Cached = Cached(node: INode, count: nat)

  datatype Inodes = Inodes(disk: Disk, open: seq<Cached>, table: nat)

  /** The first copy of inode `no`, or the length of the list. */
  function Find(open: seq<Cached>, no: nat): (k: nat)
    ensures k <= |open| && (k < |open| ==> open[k].node.no == no)
    ensures forall j :: 0 <= j < k ==> open[j].node.no != no
  {
    if open == [] || open[0].node.no == no then 0 else 1 + Find(open[1..], no)
  }

  function Opens(open: seq<Cached>, no: nat): nat {
    var k := Find(open, no);
    if k < |open| then open[k].count else 0
  }

  /** Opening: a copy in memory is shared, otherwise one is read and put in front. */
  function AfterOpen(s: Inodes, no: nat): Inodes {
    var k := Find(s.open, no);
    if k < |s.open| then s.(open := s.open[k := s.open[k].(count := s.open[k].count + 1)])
    else s.(open := [Cached(Load(s.disk, s.table, no), 1)] + s.open)
  }

  function AfterClose(s: Inodes, no: nat): Inodes
    requires Find(s.open, no) < |s.open|
  {
    var k := Find(s.open, no);
    var c := s.open[k];
    if c.count <= 1 then s.(open := s.open[..k] + s.open[k + 1..]) else s.(open := s.open[k := c.(count := c.count - 1)])
  }

  function AfterSync(s: Inodes, n: INode): Inodes
    requires ValidINode(n)
  {
    s.(disk := Store(s.disk, s.table, n.no % 0x100, EncodeINode(n)))
  }

  /** The record of inode `no` is cleared. */
  function AfterDelete(s: Inodes, no: nat): Inodes {
    s.(disk := Store(s.disk, s.table, no, Zeros(RECORD)))
  }

  /** Fields of an open inode are changed in memory. */
  function AfterChange(s: Inodes, n: INode): Inodes
    requires Find(s.open, n.no) < |s.open|
  {
    var k := Find(s.open, n.no);
    s.(open := s.open[k := s.open[k].(node := n)])
  }

  // ---- the list refines a map from numbers to inodes ----

  ghost predicate Distinct(open: seq<Cached>) {
    forall j, k :: 0 <= j < k < |open| ==> open[j].node.no != open[k].node.no
  }

  ghost predicate Counted(open: seq<Cached>) {
    forall k :: 0 <= k < |open| ==> open[k].count >= 1 && ValidINode(open[k].node)
  }

  /** Inode `no` reads as `n`: in memory if it is open, and on the disk unless memory is ahead. */
  ghost predicate ReadsAs(s: Inodes, no: nat, n: INode, dirty: set<nat>) {
    var k := Find(s.open, no);
    && (k < |s.open| ==> s.open[k].node == n)
    && (k == |s.open| || no !in dirty ==> Load(s.disk, s.table, no) == n)
  }

  /** The inodes `latest` are what memory and disk show, those in `dirty` perhaps only in memory. */
  ghost predicate Agree(s: Inodes, latest: map<nat, INode>, dirty: set<nat>) {
    && Distinct(s.open) && Counted(s.open)
    && (forall no :: no in latest ==> no < MAX_INODES && latest[no].no == no && ReadsAs(s, no, latest[no], dirty))
  }

  /** Only the list position of inodes may have changed, not what they read as. */
  ghost predicate SameAt(s: Inodes, t: Inodes, q: nat) {
    && t.disk == s.disk && t.table == s.table
    && (Find(t.open, q) < |t.open| <==> Find(s.open, q) < |s.open|)
    && (Find(t.open, q) < |t.open| ==> t.open[Find(t.open, q)] == s.open[Find(s.open, q)])
  }
}

/** Sharing copies in memory never shows. */
module InodeCacheProofs {
  import opened Sectors
  import opened Volumes
  import opened InodeRecords
  import opened InodeCache

  lemma {:induction false} FindIs(open: seq<Cached>, no: nat, k: nat)
    requires k <= |open| && (k < |open| ==> open[k].node.no == no) && forall j :: 0 <= j < k ==> open[j].node.no != no
    ensures Find(open, no) == k
  {
    if k > 0 {
      FindIs(open[1..], no, k - 1);
    }
  }

  lemma FindKept(a: seq<Cached>, b: seq<Cached>, no: nat)
    requires |a| == |b| && forall k :: 0 <= k < |a| ==> a[k].node.no == b[k].node.no
    ensures Find(a, no) == Find(b, no)
  {
    FindIs(b, no, Find(a, no));
  }

  /** A copy put in front moves every other copy one place back. */
  lemma FindPushed(open: seq<Cached>, c: Cached, no: nat)
    ensures Find([c] + open, no) == if c.node.no == no then 0 else Find(open, no) + 1
  {
    FindIs([c] + open, no, if c.node.no == no then 0 else Find(open, no) + 1);
  }

  lemma FindRemoved(open: seq<Cached>, k: nat, no: nat)
    requires Distinct(open) && k < |open|
    ensures
      var less := open[..k] + open[k + 1..];
      Find(less, no) == if no == open[k].node.no then |less| else if Find(open, no) > k then Find(open, no) - 1 else Find(open, no)
  {
    var less := open[..k] + open[k + 1..];
    FindIs(less, no, if no == open[k].node.no then |less| else if Find(open, no) > k then Find(open, no) - 1 else Find(open, no));
  }

  lemma SameReads(s: Inodes, t: Inodes, q: nat, n: INode, dirty: set<nat>)
    requires SameAt(s, t, q) && ReadsAs(s, q, n, dirty)
    ensures ReadsAs(t, q, n, dirty) && Opens(t.open, q) == Opens(s.open, q)
  {
    hide Find, Load;
  }

  lemma OpenElse(s: Inodes, no: nat, q: nat)
    requires q != no && (Find(s.open, no) == |s.open| ==> Load(s.disk, s.table, no).no == no)
    ensures SameAt(s, AfterOpen(s, no), q)
  {
    hide Find, Load;
    var t := AfterOpen(s, no);
    if |t.open| == |s.open| {
      FindKept(s.open, t.open, q);
    } else {
      FindPushed(s.open, t.open[0], q);
    }
  }

  lemma OpenThis(s: Inodes, no: nat, n: INode, dirty: set<nat>)
    requires Distinct(s.open) && Counted(s.open) && n.no == no && ReadsAs(s, no, n, dirty)
    ensures
      var t := AfterOpen(s, no);
      && Distinct(t.open) && Counted(t.open) && ReadsAs(t, no, n, dirty) && Find(t.open, no) < |t.open|
      && t.open[Find(t.open, no)].node == n && Opens(t.open, no) == Opens(s.open, no) + 1
  {
    hide Find, Load, ValidINode;
    var t := AfterOpen(s, no);
    if |t.open| == |s.open| {
      FindKept(s.open, t.open, no);
    } else {
      FindPushed(s.open, t.open[0], no);
    }
  }

  /** Opening reads the latest inode, whether it is in memory or not. */
  lemma OpenAgrees(s: Inodes, latest: map<nat, INode>, dirty: set<nat>, no: nat)
    requires Agree(s, latest, dirty) && no in latest
    ensures
      var t := AfterOpen(s, no);
      && Agree(t, latest, dirty) && Find(t.open, no) < |t.open| && t.open[Find(t.open, no)].node == latest[no]
      && Opens(t.open, no) == Opens(s.open, no) + 1 && (forall q :: q in latest && q != no ==> Opens(t.open, q) == Opens(s.open, q))
  {
    var t := AfterOpen(s, no);
    assert ReadsAs(s, no, latest[no], dirty);
    hide Find, Load, Distinct, Counted, ReadsAs, SameAt, AfterOpen, Opens;
    OpenThis(s, no, latest[no], dirty);
    forall q | q in latest && q != no ensures ReadsAs(t, q, latest[q], dirty) && Opens(t.open, q) == Opens(s.open, q) {
      assert ReadsAs(s, q, latest[q], dirty);
      NumberOf(s, no, latest[no], dirty);
      OpenElse(s, no, q);
      SameReads(s, t, q, latest[q], dirty);
    }
  }

  lemma NumberOf(s: Inodes, no: nat, n: INode, dirty: set<nat>)
    requires ReadsAs(s, no, n, dirty) && n.no == no
    ensures Find(s.open, no) == |s.open| ==> Load(s.disk, s.table, no).no == no
  {
    hide Find, Load;
  }

  lemma CloseElse(s: Inodes, no: nat, q: nat)
    requires Distinct(s.open) && q != no && Find(s.open, no) < |s.open|
    ensures SameAt(s, AfterClose(s, no), q)
  {
    hide Find;
    var t, k := AfterClose(s, no), Find(s.open, no);
    if |t.open| == |s.open| {
      FindKept(s.open, t.open, q);
    } else {
      FindRemoved(s.open, k, q);
    }
  }

  lemma CloseThis(s: Inodes, no: nat, n: INode, dirty: set<nat>)
    requires Distinct(s.open) && Counted(s.open) && ReadsAs(s, no, n, dirty) && Find(s.open, no) < |s.open|
    ensures
      var t := AfterClose(s, no);
      && Distinct(t.open) && Counted(t.open) && Opens(t.open, no) == Opens(s.open, no) - 1
      && (ReadsAs(t, no, n, dirty) <==> (Opens(s.open, no) == 1 ==> Load(s.disk, s.table, no) == n))
  {
    hide Find, Load, ValidINode;
    var t, k := AfterClose(s, no), Find(s.open, no);
    if |t.open| == |s.open| {
      FindKept(s.open, t.open, no);
    } else {
      FindRemoved(s.open, k, no);
    }
  }

  /** Closing is harmless exactly when it is not the last close or the inode is on the disk. */
  lemma CloseAgrees(s: Inodes, latest: map<nat, INode>, dirty: set<nat>, no: nat)
    requires Agree(s, latest, dirty) && no in latest && Find(s.open, no) < |s.open|
    ensures
      var t := AfterClose(s, no);
      && (Agree(t, latest, dirty) <==> (Opens(s.open, no) == 1 ==> Load(s.disk, s.table, no) == latest[no]))
      && Opens(t.open, no) == Opens(s.open, no) - 1
      && (forall q :: q in latest && q != no ==> Opens(t.open, q) == Opens(s.open, q))
  {
    var t := AfterClose(s, no);
    assert ReadsAs(s, no, latest[no], dirty);
    hide Find, Load, Distinct, Counted, ReadsAs, SameAt, AfterClose, Opens;
    CloseThis(s, no, latest[no], dirty);
    forall q | q in latest && q != no ensures ReadsAs(t, q, latest[q], dirty) && Opens(t.open, q) == Opens(s.open, q) {
      assert ReadsAs(s, q, latest[q], dirty);
      CloseElse(s, no, q);
      SameReads(s, t, q, latest[q], dirty);
    }
  }

  lemma ChangeElse(s: Inodes, n: INode, q: nat, m: INode, dirty: set<nat>)
    requires Find(s.open, n.no) < |s.open| && q != n.no && ReadsAs(s, q, m, dirty)
    ensures ReadsAs(AfterChange(s, n), q, m, dirty + {n.no})
  {
    hide Find, Load;
    FindKept(s.open, AfterChange(s, n).open, q);
  }

  lemma ChangeThis(s: Inodes, n: INode, dirty: set<nat>)
    requires Distinct(s.open) && Counted(s.open) && ValidINode(n) && Find(s.open, n.no) < |s.open|
    ensures var t := AfterChange(s, n); Distinct(t.open) && Counted(t.open) && ReadsAs(t, n.no, n, dirty + {n.no})
  {
    hide Find, Load, ValidINode;
    FindKept(s.open, AfterChange(s, n).open, n.no);
  }

  lemma ChangeAgrees(s: Inodes, latest: map<nat, INode>, dirty: set<nat>, n: INode)
    requires Agree(s, latest, dirty) && n.no in latest && ValidINode(n) && Find(s.open, n.no) < |s.open|
    ensures Agree(AfterChange(s, n), latest[n.no := n], dirty + {n.no})
  {
    hide Find, Load, Distinct, Counted, ReadsAs, AfterChange, ValidINode;
    ChangeThis(s, n, dirty);
    forall q | q in latest ensures ReadsAs(AfterChange(s, n), q, latest[n.no := n][q], dirty + {n.no}) {
      if q != n.no {
        ChangeElse(s, n, q, latest[q], dirty);
      }
    }
  }

  /** Whether writing inode `no` back leaves every inode readable: its number fits in eight bits, or it
      was on the disk already and the inode whose record is overwritten is open and ahead of the disk. */
  ghost predicate SyncIsSafe(s: Inodes, latest: map<nat, INode>, dirty: set<nat>, no: nat) {
    no < 0x100 ||
    (no in latest && Load(s.disk, s.table, no) == latest[no] &&
     (no % 0x100 in latest ==> no % 0x100 in dirty && Find(s.open, no % 0x100) < |s.open|))
  }

  /** The same for one inode `q`. */
  ghost predicate SyncSafeAt(s: Inodes, latest: map<nat, INode>, dirty: set<nat>, no: nat, q: nat)
    requires q in latest
  {
    if q == no then no < 0x100 || Load(s.disk, s.table, q) == latest[q]
    else q == no % 0x100 ==> q in dirty && Find(s.open, q) < |s.open|
  }

  lemma SyncReads(s: Inodes, latest: map<nat, INode>, dirty: set<nat>, no: nat, q: nat)
    requires no in latest && q in latest && latest[no].no == no && latest[q].no == q && ValidINode(latest[no])
    requires ReadsAs(s, q, latest[q], dirty)
    ensures ReadsAs(AfterSync(s, latest[no]), q, latest[q], dirty - {no}) <==> SyncSafeAt(s, latest, dirty, no, q)
  {
    hide Load, Store, EncodeINode, Find, ValidINode;
    SyncLoads(s, latest[no]);
  }

  lemma SafeEverywhere(s: Inodes, latest: map<nat, INode>, dirty: set<nat>, no: nat)
    requires no in latest
    ensures SyncIsSafe(s, latest, dirty, no) <==> forall q :: q in latest ==> SyncSafeAt(s, latest, dirty, no, q)
  {
    hide Load, Find;
    if forall q :: q in latest ==> SyncSafeAt(s, latest, dirty, no, q) {
      assert SyncSafeAt(s, latest, dirty, no, no);
      if no % 0x100 in latest {
        assert SyncSafeAt(s, latest, dirty, no, no % 0x100);
      }
    }
  }

  lemma ValidOpen(s: Inodes, latest: map<nat, INode>, dirty: set<nat>, no: nat)
    requires Agree(s, latest, dirty) && no in latest && Find(s.open, no) < |s.open|
    ensures ValidINode(latest[no])
  {
    hide Load, Find, ValidINode, Distinct;
    assert ReadsAs(s, no, latest[no], dirty);
  }

  /** Writing an inode back keeps every inode readable exactly when it is safe. */
  lemma SyncAgrees(s: Inodes, latest: map<nat, INode>, dirty: set<nat>, no: nat)
    requires Agree(s, latest, dirty) && no in latest && Find(s.open, no) < |s.open|
    ensures ValidINode(latest[no])
    ensures Agree(AfterSync(s, latest[no]), latest, dirty - {no}) <==> SyncIsSafe(s, latest, dirty, no)
  {
    hide Load, AfterSync, Find, ValidINode, Distinct, Counted, ReadsAs, SyncIsSafe, SyncSafeAt;
    ValidOpen(s, latest, dirty, no);
    OnlyDisk(s, latest[no]);
    var t := AfterSync(s, latest[no]);
    forall q | q in latest ensures ReadsAs(t, q, latest[q], dirty - {no}) <==> SyncSafeAt(s, latest, dirty, no, q) {
      SyncReads(s, latest, dirty, no, q);
    }
    SafeEverywhere(s, latest, dirty, no);
  }

  lemma OnlyDisk(s: Inodes, n: INode)
    requires ValidINode(n)
    ensures AfterSync(s, n).open == s.open && AfterSync(s, n).table == s.table
  {
    hide Store;
  }

  lemma SyncLoads(s: Inodes, n: INode)
    requires ValidINode(n)
    ensures
      var t := AfterSync(s, n);
      forall q: nat :: Load(t.disk, t.table, q) == if q == n.no % 0x100 then n else Load(s.disk, s.table, q)
  {
    hide Store, EncodeINode, RecordAt, DecodeINode;
    StoreFrame(s.disk, s.table, n.no % 0x100, EncodeINode(n));
    INodeRoundTrip(n);
  }

  /** Deleting clears the record of that number, and no other. */
  lemma DeleteLoads(s: Inodes, no: nat)
    requires no < MAX_INODES
    ensures
      var t := AfterDelete(s, no);
      && RecordAt(t.disk, t.table, no) == Zeros(RECORD)
      && (forall q: nat :: q != no ==> RecordAt(t.disk, t.table, q) == RecordAt(s.disk, s.table, q))
  {
    hide Store, RecordAt;
    StoreFrame(s.disk, s.table, no, Zeros(RECORD));
  }

  /** Memory after the record `rec` has been moved to its place `p` through a buffer at `at`: the sectors are read
      into it and the record is put among them before they are written. */
  function MemoryAfter(mem: seq<Byte>, at: nat, d: Disk, p: Position, rec: seq<Byte>): seq<Byte>
    requires |rec| == RECORD && p.offset + RECORD <= |ReadSectors(d, p)| && at + |ReadSectors(d, p)| <= |mem|
  {
    Splice(mem, at, Splice(ReadSectors(d, p), p.offset, rec))
  }

  /** Writing an inode back while appending to its file uses a buffer of one sector. With a record that lies
      within one sector, memory behind the buffer stays as it is; with any other, the 512 bytes behind the buffer
      become what the record's second sector comes to hold. */
  lemma AppendBuffer(mem: seq<Byte>, at: nat, s: Inodes, n: INode)
    requires ValidINode(n) && at + 2 * SECTOR_SIZE <= |mem|
    ensures
      var p := Locate(s.table, n.no % 0x100);
      var after := MemoryAfter(mem, at, s.disk, p, EncodeINode(n));
      var behind := if p.twoSectors then Get(AfterSync(s, n).disk, p.sector + 1) else mem[at + SECTOR_SIZE..at + 2 * SECTOR_SIZE];
      && (p.twoSectors <==> RECORD * (n.no % 0x100) % SECTOR_SIZE > SECTOR_SIZE - RECORD)
      && after[..at] == mem[..at] && after[at + 2 * SECTOR_SIZE..] == mem[at + 2 * SECTOR_SIZE..]
      && after[at + SECTOR_SIZE..at + 2 * SECTOR_SIZE] == behind
  {
    hide EncodeINode, ValidINode;
    var p := Locate(s.table, n.no % 0x100);
    var buf := Splice(ReadSectors(s.disk, p), p.offset, EncodeINode(n));
    var after := MemoryAfter(mem, at, s.disk, p, EncodeINode(n));
    assert AfterSync(s, n).disk == WriteSectors(s.disk, p, buf);
    if p.twoSectors {
      assert after[at + SECTOR_SIZE..at + 2 * SECTOR_SIZE] == buf[SECTOR_SIZE..];
    }
  }

  /** The first inode whose record does not. */
  lemma FirstOverflow(d: Disk, table: nat)
    ensures |ReadSectors(d, Locate(table, 6))| > SECTOR_SIZE
    ensures forall no: nat :: no < 6 ==> |ReadSectors(d, Locate(table, no))| == SECTOR_SIZE
  {
  }

  /** An inode written back reads back exactly when its number fits in eight bits or nothing had
      changed; a larger number destroys the record of the inode with the same low eight bits. */
  lemma SyncExact(s: Inodes, n: INode)
    requires ValidINode(n)
    ensures
      var t := AfterSync(s, n);
      && (Load(t.disk, t.table, n.no) == n <==> n.no < 0x100 || Load(s.disk, s.table, n.no) == n)
      && (n.no >= 0x100 ==> Load(t.disk, t.table, n.no % 0x100).no != n.no % 0x100)
  {
    hide Load, AfterSync;
    SyncLoads(s, n);
  }

  // ---- runs ----

  datatype Op = Open(no: nat) | Change(node: INode) | Sync(no: nat) | Close(no: nat)

  /** Only open inodes are changed, written and closed. */
  ghost predicate Legal(s: Inodes, latest: map<nat, INode>, op: Op) {
    match op
    case Open(no) => no in latest
    case Change(n) => n.no in latest && ValidINode(n) && Find(s.open, n.no) < |s.open|
    case Sync(no) => no in latest && ValidINode(latest[no]) && Find(s.open, no) < |s.open|
    case Close(no) => no in latest && Find(s.open, no) < |s.open|
  }

  /** Whether an operation leaves every inode readable. */
  ghost predicate Safe(s: Inodes, latest: map<nat, INode>, dirty: set<nat>, op: Op)
    requires Legal(s, latest, op)
  {
    match op
    case Open(no) => true
    case Change(n) => true
    case Sync(no) => SyncIsSafe(s, latest, dirty, no)
    case Close(no) => Opens(s.open, no) == 1 ==> Load(s.disk, s.table, no) == latest[no]
  }

  ghost function After(s: Inodes, latest: map<nat, INode>, op: Op): Inodes
    requires Legal(s, latest, op)
  {
    match op
    case Open(no) => AfterOpen(s, no)
    case Change(n) => AfterChange(s, n)
    case Sync(no) => AfterSync(s, latest[no])
    case Close(no) => AfterClose(s, no)
  }

  ghost function LatestAfter(latest: map<nat, INode>, op: Op): map<nat, INode> {
    if op.Change? then latest[op.node.no := op.node] else latest
  }

  ghost function DirtyAfter(dirty: set<nat>, op: Op): set<nat> {
    if op.Change? then dirty + {op.node.no} else if op.Sync? then dirty - {op.no} else dirty
  }

  /** One operation keeps the agreement exactly when it is safe. */
  lemma StepExact(s: Inodes, latest: map<nat, INode>, dirty: set<nat>, op: Op)
    requires Agree(s, latest, dirty) && Legal(s, latest, op)
    ensures Agree(After(s, latest, op), LatestAfter(latest, op), DirtyAfter(dirty, op)) <==> Safe(s, latest, dirty, op)
  {
    hide Agree, Find, AfterOpen, AfterSync, AfterClose, AfterChange, Opens, SyncIsSafe, Load;
    match op
    case Open(no) => OpenAgrees(s, latest, dirty, no);
    case Change(n) => ChangeAgrees(s, latest, dirty, n);
    case Sync(no) => SyncAgrees(s, latest, dirty, no);
    case Close(no) => CloseAgrees(s, latest, dirty, no);
  }

  /** Running `ops` from `s` ends in `t`, the values last given being `last`, and every operation is safe. */
  ghost predicate Runs(s: Inodes, latest: map<nat, INode>, dirty: set<nat>, ops: seq<Op>, t: Inodes, last: map<nat, INode>, ahead: set<nat>)
    decreases |ops|
  {
    if ops == [] then s == t && latest == last && dirty == ahead
    else
      && Legal(s, latest, ops[0]) && Safe(s, latest, dirty, ops[0])
      && Runs(After(s, latest, ops[0]), LatestAfter(latest, ops[0]), DirtyAfter(dirty, ops[0]), ops[1..], t, last, ahead)
  }

  /** After any run of safe operations, opening an inode gives the value it was last given, from memory
      or disk. */
  lemma {:induction false} RunAgrees(s: Inodes, latest: map<nat, INode>, dirty: set<nat>, ops: seq<Op>, t: Inodes, last: map<nat, INode>, ahead: set<nat>, no: nat)
    requires Agree(s, latest, dirty) && Runs(s, latest, dirty, ops, t, last, ahead) && no in latest
    ensures Agree(t, last, ahead)
    ensures
      var u := AfterOpen(t, no);
      no in last && Find(u.open, no) < |u.open| && u.open[Find(u.open, no)].node == last[no]
    decreases |ops|
  {
    hide Find, Opens, After, Legal, Safe, AfterOpen, ReadsAs;
    if ops == [] {
      OpenAgrees(s, latest, dirty, no);
    } else {
      StepExact(s, latest, dirty, ops[0]);
      RunAgrees(After(s, latest, ops[0]), LatestAfter(latest, ops[0]), DirtyAfter(dirty, ops[0]), ops[1..], t, last, ahead, no);
    }
  }

  /** The inode table of a partition and its list of open inodes. The table lies in the 608 sectors
      before the first data block. */
  class InodeStore {
    const vol: Volume
    var open: seq<Cached>

    constructor (vol: Volume)
      ensures this.vol == vol && open == []
    {
      this.vol, this.open := vol, [];
    }

    ghost function State(): Inodes
      requires TABLE_SECTORS <= vol.start
      reads this, vol
    {
      Inodes(vol.disk, open, vol.start - TABLE_SECTORS)
    }

    /** The place of inode `no` in the list. */
    method FindOpen(no: nat) returns (k: nat)
      ensures k == Find(open, no)
    {
      k := 0;
      while k < |open| && open[k].node.no != no
        invariant k <= |open| && forall j :: 0 <= j < k ==> open[j].node.no != no
      {
        k := k + 1;
      }
      FindIs(open, no, k);
    }

    method InodeOpen(no: nat) returns (n: INode)
      requires TABLE_SECTORS <= vol.start && no < MAX_INODES
      modifies this`open
      ensures State() == AfterOpen(old(State()), no)
      ensures Find(open, no) < |open| ==> n == open[Find(open, no)].node
    {
      hide Find, RecordAt, ReadSectors;
      var k := FindOpen(no);
      if k < |open| {
        n := open[k].node;
        FindKept(open, open[k := open[k].(count := open[k].count + 1)], no);
        open := open[k := open[k].(count := open[k].count + 1)];
        return;
      }
      var table := vol.start - TABLE_SECTORS;
      var p := Locate(table, no);
      var buf := ReadSectors(vol.disk, p);
      ReadRecord(vol.disk, table, no);
      n := DecodeINode(buf[p.offset..p.offset + RECORD]);
      FindPushed(open, Cached(n, 1), no);
      open := [Cached(n, 1)] + open;
    }

    method InodeClose(no: nat)
      requires TABLE_SECTORS <= vol.start && Find(open, no) < |open|
      modifies this`open
      ensures State() == AfterClose(old(State()), no)
    {
      var k := Find(open, no);
      var count := open[k].count;
      if count <= 1 {
        open := open[..k] + open[k + 1..];
      } else {
        open := open[k := open[k].(count := count - 1)];
      }
    }

    /** The list holds the inodes themselves: what is changed through one pointer is seen through all. */
    method Assign(n: INode)
      requires TABLE_SECTORS <= vol.start && Find(open, n.no) < |open|
      modifies this`open
      ensures State() == AfterChange(old(State()), n)
    {
      var k := Find(open, n.no);
      open := open[k := open[k].(node := n)];
    }

    method InodeSync(n: INode)
      requires TABLE_SECTORS <= vol.start && ValidINode(n)
      modifies vol`disk
      ensures State() == AfterSync(old(State()), n)
    {
      var p := Locate(vol.start - TABLE_SECTORS, n.no % 0x100);
      var buf := ReadSectors(vol.disk, p);
      vol.disk := WriteSectors(vol.disk, p, Splice(buf, p.offset, EncodeINode(n)));
    }

    method InodeDelete(no: nat)
      requires TABLE_SECTORS <= vol.start && no < MAX_INODES
      modifies vol`disk
      ensures State() == AfterDelete(old(State()), no)
    {
      var p := Locate(vol.start - TABLE_SECTORS, no);
      var buf := ReadSectors(vol.disk, p);
      vol.disk := WriteSectors(vol.disk, p, Splice(buf, p.offset, Zeros(RECORD)));
    }
  }

  /** Byte `k` of record `i`, in the sectors read. */
  lemma ReadByte(d: Disk, table: nat, i: nat, k: nat)
    requires k < RECORD
    ensures
      var p := Locate(table, i);
      p.offset + k < |ReadSectors(d, p)| && ReadSectors(d, p)[p.offset + k] == TableByte(d, table, RECORD * i + k)
  {
    var p := Locate(table, i);
    var o, s := RECORD * i + k, p.sector - table;
    assert o == SECTOR_SIZE * s + (p.offset + k);
    if p.offset + k < SECTOR_SIZE {
      assert o / SECTOR_SIZE == s && o % SECTOR_SIZE == p.offset + k;
    } else {
      assert o / SECTOR_SIZE == s + 1 && o % SECTOR_SIZE == p.offset + k - SECTOR_SIZE;
    }
  }

  /** The bytes cut out of the sectors read are the record. */
  lemma ReadRecord(d: Disk, table: nat, i: nat)
    ensures var p := Locate(table, i); p.offset + RECORD <= |ReadSectors(d, p)|
    ensures var p := Locate(table, i); ReadSectors(d, p)[p.offset..p.offset + RECORD] == RecordAt(d, table, i)
  {
    hide ReadSectors, TableByte;
    var p := Locate(table, i);
    ReadByte(d, table, i, RECORD - 1);
    forall k | 0 <= k < RECORD ensures ReadSectors(d, p)[p.offset..p.offset + RECORD][k] == RecordAt(d, table, i)[k] {
      ReadByte(d, table, i, k);
    }
  }
}
