/** A partition together with its inode table on the disk and its open inodes in memory. */
module MountStates {
  import opened Sectors
  import opened Volumes
  import opened FsStates
  import opened InodeRecords
  import opened InodeCache

  ghost function InodesOf(v: Vol, open: seq<Cached>): Inodes
    requires TABLE_SECTORS <= v.start
  {
    Inodes(v.disk, open, v.start - TABLE_SECTORS)
  }

  /** Every live inode is, in memory if it is open and on the disk in any case, what it is meant to be. */
  ghost predicate TableAgrees(v: Vol, open: seq<Cached>) {
    TABLE_SECTORS <= v.start && Agree(InodesOf(v, open), v.inodes, {})
  }

  ghost predicate ClearAt(v: Vol, p: nat)
    requires TABLE_SECTORS <= v.start
  {
    p < MAX_INODES && p !in v.inodes ==> RecordAt(v.disk, v.start - TABLE_SECTORS, p) == Zeros(RECORD)
  }

  /** The records of numbers that are not in use are clear. */
  ghost predicate DeadClear(v: Vol)
    requires TABLE_SECTORS <= v.start
  {
    forall p: nat :: ClearAt(v, p)
  }

  /** Only live inodes are open. */
  ghost predicate NoStale(open: seq<Cached>, inodes: map<nat, INode>) {
    forall k :: 0 <= k < |open| ==> open[k].node.no in inodes
  }

  /** The numbers in use fit in eight bits. */
  ghost predicate Small(inodes: map<nat, INode>) {
    forall p :: p in inodes ==> p < 0x100
  }

  /** What holds between two calls as long as no number above 255 has been given out. */
  ghost predicate Mounted(v: Vol, open: seq<Cached>) {
    Inv(v) && TableAgrees(v, open) && DeadClear(v) && NoStale(open, v.inodes) && Small(v.inodes)
  }

  /** The numbers of the open inodes. */
  function OpenNumbers(open: seq<Cached>): (s: set<nat>)
    ensures forall no: nat :: no in s <==> Find(open, no) < |open|
  {
    var s := set k | 0 <= k < |open| :: open[k].node.no;
    assert forall no: nat :: no in s ==> Find(open, no) < |open|;
    s
  }

  /** The same inodes are open, equally often. */
  ghost predicate SameNumbers(a: seq<Cached>, b: seq<Cached>) {
    |a| == |b| && forall k :: 0 <= k < |a| ==> b[k].node.no == a[k].node.no && b[k].count == a[k].count
  }

  /** Nothing but sectors before the first data block may differ. */
  ghost predicate TableOnly(v: Vol, w: Vol) {
    w == v.(disk := w.disk) && forall l: nat :: l >= v.start ==> Get(w.disk, l) == Get(v.disk, l)
  }

  /** The records of all numbers but those in `but` are the same on both disks. */
  ghost predicate SameRecords(d: Disk, e: Disk, table: nat, but: set<nat>) {
    forall p: nat :: SameRecord(d, e, table, but, p)
  }

  ghost predicate SameRecord(d: Disk, e: Disk, table: nat, but: set<nat>, p: nat) {
    p < MAX_INODES && p !in but ==> RecordAt(e, table, p) == RecordAt(d, table, p)
  }
}

/** What the table and the data blocks have to do with each other: nothing. */
module MountProofs {
  import opened Sectors
  import opened Volumes
  import opened FileIO
  import opened FileAppend
  import opened DirEntries
  import opened DirViews
  import opened DirStates
  import opened NameTree
  import opened FsStates
  import opened FsProofs
  import opened InodeRecords
  import opened InodeCache
  import opened InodeCacheProofs
  import opened MountStates

  // ---- writing the table ----

  lemma TableUntouched(v: Vol, w: Vol)
    requires Sound(v) && TableOnly(v, w)
    ensures OthersKept(v, w, {})
  {
    hide Owns, Untouched, KeptAt;
    forall q ensures KeptAt(v, w, {}, q) {
      TableKeeps(v, w, q);
    }
  }

  lemma TableKeeps(v: Vol, w: Vol, q: nat)
    requires Sound(v) && TableOnly(v, w)
    ensures KeptAt(v, w, {}, q)
  {
    hide Owns, Untouched;
    if q in v.inodes {
      OthersUntouched(v, w, q + 1, q);
    }
  }

  lemma TableSound(v: Vol, w: Vol)
    requires Sound(v) && TableOnly(v, w)
    ensures Sound(w)
  {
    forall p | p in v.inodes && v.inodes[p].sectors[12] != 0
      ensures Get(w.disk, v.inodes[p].sectors[12]) == Get(v.disk, v.inodes[p].sectors[12])
    {
      OthersTable(v, p);
    }
    hide Owns, BitsMatch;
    LayoutsKept(v.disk, w.disk, v.inodes);
  }

  /** Writing the table changes no file, no directory and no name. */
  lemma TableInv(v: Vol, w: Vol)
    requires Inv(v) && TableOnly(v, w)
    ensures Inv(w) && NamesOf(w) == NamesOf(v) && OthersKept(v, w, {})
  {
    hide Sound, Shapes, Tree, NamesOf, OthersKept, ViewsKept;
    TableSound(v, w);
    TableUntouched(v, w);
    DirsLive(v);
    ShapesKept(v, w, {});
    SameNames(v, w);
  }

  lemma OnlyTrans(u: Vol, v: Vol, w: Vol)
    requires TableOnly(u, v) && TableOnly(v, w)
    ensures TableOnly(u, w)
  {
  }

  /** Storing a record is writing the table only. */
  lemma StoreOnly(v: Vol, i: nat, bytes: seq<Byte>)
    requires TABLE_SECTORS <= v.start && |bytes| == RECORD && i < MAX_INODES
    ensures TableOnly(v, v.(disk := Store(v.disk, v.start - TABLE_SECTORS, i, bytes)))
    ensures SameRecords(v.disk, Store(v.disk, v.start - TABLE_SECTORS, i, bytes), v.start - TABLE_SECTORS, {i})
  {
    hide Store, RecordAt;
    StoreFrame(v.disk, v.start - TABLE_SECTORS, i, bytes);
  }

  // ---- writing data blocks ----

  /** A record lies in the sectors of the table. */
  lemma RecordInTable(d: Disk, e: Disk, table: nat, p: nat)
    requires p < MAX_INODES && forall l: nat :: table <= l < table + TABLE_SECTORS ==> Get(e, l) == Get(d, l)
    ensures RecordAt(e, table, p) == RecordAt(d, table, p)
  {
    forall k | 0 <= k < RECORD ensures RecordAt(e, table, p)[k] == RecordAt(d, table, p)[k] {
      var l: nat := table + (RECORD * p + k) / SECTOR_SIZE;
      assert l < table + TABLE_SECTORS && Get(e, l) == Get(d, l);
    }
  }

  lemma PlanRecord(v: Vol, w: Vol, p: nat)
    requires SamePlan(v, w) && TABLE_SECTORS <= v.start && p < MAX_INODES
    ensures RecordAt(w.disk, v.start - TABLE_SECTORS, p) == RecordAt(v.disk, v.start - TABLE_SECTORS, p)
  {
    hide RecordAt;
    RecordInTable(v.disk, w.disk, v.start - TABLE_SECTORS, p);
  }

  /** Writing data blocks changes no record. */
  lemma PlanRecords(v: Vol, w: Vol)
    requires SamePlan(v, w) && TABLE_SECTORS <= v.start
    ensures SameRecords(v.disk, w.disk, v.start - TABLE_SECTORS, {})
  {
    hide SamePlan, RecordAt;
    var table, none: set<nat> := v.start - TABLE_SECTORS, {};
    forall p: nat ensures SameRecord(v.disk, w.disk, table, none, p) {
      if p < MAX_INODES {
        PlanRecord(v, w, p);
      }
    }
  }

  lemma RecordsTrans(c: Disk, d: Disk, e: Disk, table: nat, but: set<nat>, more: set<nat>)
    requires SameRecords(c, d, table, but) && SameRecords(d, e, table, more)
    ensures SameRecords(c, e, table, but + more)
  {
    hide RecordAt;
    forall p: nat ensures SameRecord(c, e, table, but + more, p) {
      assert SameRecord(c, d, table, but, p) && SameRecord(d, e, table, more, p);
    }
  }

  /** What is open and what is recorded decide what is read. */
  lemma RecordsAgree(s: Inodes, latest: map<nat, INode>, d: Disk, but: set<nat>)
    requires Agree(s, latest, {}) && SameRecords(s.disk, d, s.table, but) && but !! latest.Keys
    ensures Agree(s.(disk := d), latest, {})
  {
    hide RecordAt, DecodeINode, Find;
    forall no | no in latest ensures ReadsAs(s.(disk := d), no, latest[no], {}) {
      assert SameRecord(s.disk, d, s.table, but, no);
    }
  }

  lemma FewerAgree(s: Inodes, latest: map<nat, INode>, less: map<nat, INode>)
    requires Agree(s, latest, {}) && less.Keys <= latest.Keys && forall p :: p in less ==> less[p] == latest[p]
    ensures Agree(s, less, {})
  {
    hide ReadsAs;
  }

  // ---- the open list ----

  lemma NumbersFind(a: seq<Cached>, b: seq<Cached>, no: nat)
    requires SameNumbers(a, b)
    ensures Find(b, no) == Find(a, no)
  {
    hide Find;
    FindKept(a, b, no);
  }

  /** Opening and closing leave the list as it was, whatever happened to the inode in between. */
  lemma OpenThenClose(s: Inodes, t: Inodes, no: nat)
    requires SameNumbers(AfterOpen(s, no).open, t.open) && (Find(s.open, no) == |s.open| ==> Load(s.disk, s.table, no).no == no)
    requires Find(s.open, no) < |s.open| ==> s.open[Find(s.open, no)].count >= 1
    ensures Find(t.open, no) < |t.open| && SameNumbers(s.open, AfterClose(t, no).open)
  {
    hide Find, Load;
    var u, k := AfterOpen(s, no), Find(s.open, no);
    NumbersFind(u.open, t.open, no);
    if k < |s.open| {
      FindKept(s.open, u.open, no);
    } else {
      FindPushed(s.open, u.open[0], no);
    }
  }

  lemma StaleKept(a: seq<Cached>, b: seq<Cached>, inodes: map<nat, INode>, more: map<nat, INode>)
    requires SameNumbers(a, b) && NoStale(a, inodes) && forall k :: 0 <= k < |a| && a[k].node.no in inodes ==> a[k].node.no in more
    ensures NoStale(b, more)
  {
  }

  /** An inode that is not live is not open. */
  lemma NotOpen(open: seq<Cached>, inodes: map<nat, INode>, no: nat)
    requires NoStale(open, inodes) && no !in inodes
    ensures Find(open, no) == |open|
  {
    hide Find;
  }

  /** A live inode may be opened. */
  lemma OpenMounted(v: Vol, open: seq<Cached>, no: nat)
    requires Mounted(v, open) && no in v.inodes
    ensures Mounted(v, AfterOpen(InodesOf(v, open), no).open)
  {
    hide Inv, Agree, Find, Load, DeadClear;
    OpenAgrees(InodesOf(v, open), v.inodes, {}, no);
    OpenedNumbers(InodesOf(v, open), v.inodes, no);
  }

  lemma OpenedNumbers(s: Inodes, latest: map<nat, INode>, no: nat)
    requires Agree(s, latest, {}) && no in latest && NoStale(s.open, latest)
    ensures NoStale(AfterOpen(s, no).open, latest)
    ensures OpenNumbers(AfterOpen(s, no).open) == OpenNumbers(s.open) + {no}
  {
    hide Agree, Find, Load;
    OpenAgrees(s, latest, {}, no);
    var t, k := AfterOpen(s, no), Find(s.open, no);
    if k < |s.open| {
      assert forall p: nat :: Find(t.open, p) == Find(s.open, p) by {
        forall p: nat ensures Find(t.open, p) == Find(s.open, p) {
          FindKept(s.open, t.open, p);
        }
      }
    } else {
      var c := t.open[0];
      assert c.node.no == no by {
        assert Find(t.open, no) < |t.open|;
        FindPushed(s.open, c, no);
      }
      forall p: nat ensures p in OpenNumbers(t.open) <==> p in OpenNumbers(s.open) || p == no {
        FindPushed(s.open, c, p);
      }
    }
  }

  // ---- inodes fit their records ----

  lemma {:induction false} CountBound(b: seq<Slot>)
    ensures CountLive(b) <= |b|
  {
    if b != [] {
      CountBound(b[..|b| - 1]);
    }
  }

  lemma {:induction false} TotalBound(w: View)
    requires forall i :: 0 <= i < |w| ==> |w[i]| <= PER_SECTOR
    ensures Total(w) <= PER_SECTOR * |w|
  {
    if w != [] {
      TotalBound(w[..|w| - 1]);
      CountBound(w[|w| - 1]);
    }
  }

  lemma ValidAt(v: Vol, p: nat)
    requires Inv(v) && p in v.inodes
    ensures p < MAX_INODES && v.inodes[p].no == p && ValidINode(v.inodes[p])
  {
    hide Tree, NamesOf, RootFirst, Owns, BitsMatch, NoClash, NoneHollow, Dots, ValidSlots, ViewOf;
    assert ShapeOk(v, p);
    if p in v.dirs {
      TotalBound(DirView(v, p));
    }
  }
}

/** Writing inodes back, clearing them, and what the open list shows meanwhile. */
module Mounts {
  import opened Sectors
  import opened Volumes
  import opened FsStates
  import opened FsProofs
  import opened InodeRecords
  import opened InodeCache
  import opened InodeCacheProofs
  import opened MountStates
  import opened MountProofs

  lemma WrittenBack(s: Inodes, latest: map<nat, INode>, n: INode)
    requires Agree(s, latest, {}) && n.no in latest && n.no < 0x100 && ValidINode(n)
    ensures
      var a := AfterOpen(s, n.no);
      && Find(a.open, n.no) < |a.open| && a.open[Find(a.open, n.no)].node == latest[n.no]
      && var b := AfterChange(a, n);
      && var c := AfterSync(b, n);
      && Find(c.open, n.no) < |c.open|
      && Agree(AfterClose(c, n.no), latest[n.no := n], {}) && SameNumbers(s.open, AfterClose(c, n.no).open)
  {
    hide Agree, Find, AfterOpen, AfterChange, AfterSync, AfterClose, Load, ValidINode, SameNumbers, Opens;
    var no, more := n.no, latest[n.no := n];
    OpenAgrees(s, latest, {}, no);
    var a := AfterOpen(s, no);
    ChangeAgrees(a, latest, {}, n);
    var b := AfterChange(a, n);
    ChangeFinds(a, n);
    assert {} + {no} == {no} && {no} - {no} == {};
    SyncAgrees(b, more, {no}, no);
    assert SyncIsSafe(b, more, {no}, no);
    var c := AfterSync(b, n);
    OnlyDisk(b, n);
    CloseAgrees(c, more, {}, no);
    OnDisk(c, more, no);
    BackAgain(s, latest, a, c, no);
  }

  lemma ChangeFinds(s: Inodes, n: INode)
    requires Find(s.open, n.no) < |s.open|
    ensures var t := AfterChange(s, n); Find(t.open, n.no) < |t.open| && SameNumbers(s.open, t.open)
  {
    hide Find;
    FindKept(s.open, AfterChange(s, n).open, n.no);
  }

  lemma OnDisk(s: Inodes, latest: map<nat, INode>, no: nat)
    requires Agree(s, latest, {}) && no in latest
    ensures Load(s.disk, s.table, no) == latest[no]
  {
    hide Find, Load;
    assert ReadsAs(s, no, latest[no], {});
  }

  lemma BackAgain(s: Inodes, latest: map<nat, INode>, a: Inodes, c: Inodes, no: nat)
    requires Agree(s, latest, {}) && no in latest && a == AfterOpen(s, no) && SameNumbers(a.open, c.open)
    requires Find(c.open, no) < |c.open|
    ensures SameNumbers(s.open, AfterClose(c, no).open)
  {
    OnDisk(s, latest, no);
    hide Find, Load, ReadsAs;
    OpenThenClose(s, c, no);
  }

  /** Opens inode `no`, takes over what has become of it, writes it back and closes it. */
  method WriteBack(m: InodeStore, no: nat, ghost latest: map<nat, INode>)
    requires TABLE_SECTORS <= m.vol.start && no < 0x100 && no in latest && Agree(m.State(), latest, {})
    requires no in m.vol.inodes && m.vol.inodes[no].no == no && ValidINode(m.vol.inodes[no])
    modifies m`open, m.vol`disk
    ensures Agree(m.State(), latest[no := m.vol.inodes[no]], {}) && SameNumbers(old(m.open), m.open)
    ensures TableOnly(old(m.vol.State()), m.vol.State())
    ensures SameRecords(old(m.vol.disk), m.vol.disk, m.vol.start - TABLE_SECTORS, {no})
  {
    hide Agree, Find, AfterOpen, AfterChange, AfterClose, ValidINode, SameNumbers, TableOnly, SameRecords, Store;
    ghost var v := m.vol.State();
    WrittenBack(m.State(), latest, m.vol.inodes[no]);
    var n := m.InodeOpen(no);
    assert n == latest[no];
    m.Assign(m.vol.inodes[no]);
    m.InodeSync(m.vol.inodes[no]);
    m.InodeClose(no);
    StoreOnly(v, no, EncodeINode(m.vol.inodes[no]));
  }

  /** A number never recorded before: it can be read back exactly when it fits in eight bits. */
  lemma NewAgrees(s: Inodes, latest: map<nat, INode>, n: INode)
    requires Agree(s, latest, {}) && n.no !in latest && n.no < MAX_INODES && ValidINode(n)
    requires Find(s.open, n.no) == |s.open| && (n.no >= 0x100 ==> Load(s.disk, s.table, n.no) != n)
    ensures Agree(AfterSync(s, n), latest[n.no := n], {}) <==> n.no < 0x100
  {
    hide Load, AfterSync, Find, ValidINode, Distinct;
    OnlyDisk(s, n);
    SyncLoads(s, n);
    var t, more := AfterSync(s, n), latest[n.no := n];
    assert ReadsAs(t, n.no, n, {}) <==> n.no < 0x100;
    if n.no < 0x100 {
      forall q | q in latest ensures ReadsAs(t, q, latest[q], {}) {
        assert ReadsAs(s, q, latest[q], {});
      }
    } else {
      assert n.no in more && more[n.no] == n;
    }
  }

  /** A clear record is not the record of a number above zero. */
  lemma ClearLoads(d: Disk, table: nat, no: nat)
    requires RecordAt(d, table, no) == Zeros(RECORD)
    ensures Load(d, table, no).no == 0
  {
  }

  /** Writes back an inode that was not there before. */
  method SyncNew(m: InodeStore, no: nat, ghost latest: map<nat, INode>)
    requires TABLE_SECTORS <= m.vol.start && no !in latest && Agree(m.State(), latest, {}) && Find(m.open, no) == |m.open|
    requires no in m.vol.inodes && m.vol.inodes[no].no == no && ValidINode(m.vol.inodes[no]) && no < MAX_INODES
    requires RecordAt(m.vol.disk, m.vol.start - TABLE_SECTORS, no) == Zeros(RECORD)
    modifies m.vol`disk
    ensures Agree(m.State(), latest[no := m.vol.inodes[no]], {}) <==> no < 0x100
    ensures TableOnly(old(m.vol.State()), m.vol.State())
    ensures SameRecords(old(m.vol.disk), m.vol.disk, m.vol.start - TABLE_SECTORS, {no % 0x100})
    ensures Load(m.vol.disk, m.vol.start - TABLE_SECTORS, no % 0x100) == m.vol.inodes[no]
  {
    hide Agree, Find, ValidINode, TableOnly, SameRecords, Store, RecordAt, Load;
    ghost var v, n := m.vol.State(), m.vol.inodes[no];
    ClearLoads(m.vol.disk, m.vol.start - TABLE_SECTORS, no);
    NewAgrees(m.State(), latest, n);
    SyncLoads(m.State(), n);
    m.InodeSync(m.vol.inodes[no]);
    StoreOnly(v, no % 0x100, EncodeINode(n));
  }

  /** Opening an inode and closing it again leaves the list exactly as it was. */
  lemma OpenCloseSame(s: Inodes, no: nat, d: Disk)
    requires Find(s.open, no) == |s.open| ==> Load(s.disk, s.table, no).no == no
    requires Find(s.open, no) < |s.open| ==> s.open[Find(s.open, no)].count >= 1
    ensures
      var t := AfterOpen(s, no).(disk := d);
      Find(t.open, no) < |t.open| && AfterClose(t, no).open == s.open
  {
    hide Find, Load;
    var t, k := AfterOpen(s, no), Find(s.open, no);
    if k < |s.open| {
      FindKept(s.open, t.open, no);
    } else {
      FindPushed(s.open, t.open[0], no);
    }
  }

  lemma Deleted(s: Inodes, latest: map<nat, INode>, no: nat)
    requires Agree(s, latest, {}) && no in latest
    ensures
      var a := AfterOpen(s, no);
      var t := AfterDelete(a, no);
      && Find(a.open, no) < |a.open| && a.open[Find(a.open, no)].node == latest[no]
      && Find(t.open, no) < |t.open| && AfterClose(t, no).open == s.open
  {
    OpenAgrees(s, latest, {}, no);
    OnDisk(s, latest, no);
    assert ReadsAs(s, no, latest[no], {});
    hide Find, Load, Store, AfterClose, AfterOpen;
    OpenCloseSame(s, no, AfterDelete(AfterOpen(s, no), no).disk);
  }

  lemma DeletedAgrees(s: Inodes, latest: map<nat, INode>, no: nat)
    requires Agree(s, latest, {}) && no in latest
    ensures Agree(s.(disk := AfterDelete(s, no).disk), latest - {no}, {})
    ensures RecordAt(AfterDelete(s, no).disk, s.table, no) == Zeros(RECORD)
    ensures SameRecords(s.disk, AfterDelete(s, no).disk, s.table, {no})
  {
    assert no < MAX_INODES;
    hide Agree, Find, AfterDelete, RecordAt;
    DeleteLoads(s, no);
    TableSame(s, no);
    FewerAgree(s, latest, latest - {no});
    RecordsAgree(s, latest - {no}, AfterDelete(s, no).disk, {no});
  }

  lemma TableSame(s: Inodes, no: nat)
    ensures AfterDelete(s, no).table == s.table && AfterDelete(s, no).open == s.open
    ensures AfterDelete(AfterOpen(s, no), no).disk == AfterDelete(s, no).disk
  {
    hide Store;
  }

  lemma NumberInRange(s: Inodes, latest: map<nat, INode>, no: nat)
    requires Agree(s, latest, {}) && no in latest
    ensures no < MAX_INODES
  {
    hide ReadsAs;
  }

  /** The last part of releasing inode `no`: its record is cleared while it is open. */
  method ClearRecord(m: InodeStore, no: nat, ghost latest: map<nat, INode>)
    requires TABLE_SECTORS <= m.vol.start && no in latest && Agree(m.State(), latest, {})
    modifies m`open, m.vol`disk
    ensures m.open == old(m.open) && Agree(m.State(), latest - {no}, {})
    ensures TableOnly(old(m.vol.State()), m.vol.State())
    ensures RecordAt(m.vol.disk, m.vol.start - TABLE_SECTORS, no) == Zeros(RECORD)
    ensures SameRecords(old(m.vol.disk), m.vol.disk, m.vol.start - TABLE_SECTORS, {no})
  {
    hide Agree, Find, AfterOpen, AfterClose, TableOnly, SameRecords, Store, RecordAt;
    ghost var s, v := m.State(), m.vol.State();
    NumberInRange(s, latest, no);
    Deleted(s, latest, no);
    DeletedAgrees(s, latest, no);
    TableSame(s, no);
    StoreOnly(v, no, Zeros(RECORD));
    var n := m.InodeOpen(no);
    assert n == latest[no];
    m.InodeDelete(no);
    m.InodeClose(no);
  }
}
