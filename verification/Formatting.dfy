/** A new partition, from the raw disk to the mounted file system. */
module Formatting {
  import opened Sectors
  import opened Bitmap
  import opened Volumes
  import opened NameTree
  import opened FsStates
  import opened FreshDirs
  import opened Format
  import opened InodeRecords
  import opened InodeCache
  import opened InodeCacheProofs
  import opened MountStates
  import opened MountProofs

  /** Boot sector, super block, inode bitmap and inode table. */
  const FIXED_SECTORS := 611

  /** The bits of the block bitmap that formatting leaves clear or gives to the root: those of the blocks
      and, unless the blocks fill whole sectors of bits, one more. */
  function Usable(len: nat): nat {
    if len % BITS_PER_SECTOR == 0 then len else len + 1
  }

  /** The disk with zeros in `n` sectors from sector `from` on. */
  function Cleared(disk: Disk, from: nat, n: nat): Disk {
    if n == 0 then disk else Cleared(disk, from, n - 1)[from + n - 1 := Zeros(512)]
  }

  lemma {:induction false} ClearedIs(disk: Disk, from: nat, n: nat, l: nat)
    ensures Get(Cleared(disk, from, n), l) == if from <= l < from + n then Zeros(512) else Get(disk, l)
  {
    if n > 0 {
      ClearedIs(disk, from, n - 1, l);
    }
  }

  /** The table of a new partition: the root's record and zeros. */
  function NewTable(disk: Disk, start: Word): (d: Disk)
    requires TABLE_SECTORS <= start
  {
    var table := start - TABLE_SECTORS;
    Store(Cleared(disk, table, TABLE_SECTORS), table, 0, EncodeINode(DirINode(ROOT, start)))
  }

  lemma ZeroRecord(d: Disk, table: nat, p: nat)
    requires p < MAX_INODES && forall l: nat :: table <= l < table + TABLE_SECTORS ==> Get(d, l) == Zeros(512)
    ensures RecordAt(d, table, p) == Zeros(RECORD)
  {
    forall k | 0 <= k < RECORD ensures RecordAt(d, table, p)[k] == 0 {
      var l: nat := table + (RECORD * p + k) / SECTOR_SIZE;
      assert l < table + TABLE_SECTORS && Get(d, l) == Zeros(512);
    }
  }

  lemma NewRecords(disk: Disk, start: Word, p: nat)
    requires TABLE_SECTORS <= start && p < MAX_INODES
    ensures
      var d := NewTable(disk, start)[start := DotSector(ROOT, ROOT)];
      RecordAt(d, start - TABLE_SECTORS, p) == if p == ROOT then EncodeINode(DirINode(ROOT, start)) else Zeros(RECORD)
  {
    hide RecordAt, Store, EncodeINode, DotSector, Cleared;
    var table := start - TABLE_SECTORS;
    var d := Cleared(disk, table, TABLE_SECTORS);
    var rec := EncodeINode(DirINode(ROOT, start));
    forall l: nat ensures table <= l < table + TABLE_SECTORS ==> Get(d, l) == Zeros(512) {
      ClearedIs(disk, table, TABLE_SECTORS, l);
    }
    ZeroRecord(d, table, p);
    StoreFrame(d, table, 0, rec);
    var e := Store(d, table, 0, rec);
    RecordInTable(e, e[start := DotSector(ROOT, ROOT)], table, p);
  }

  lemma NewAgrees(v: Vol, n: nat)
    requires Formatted(v, n) && TABLE_SECTORS <= v.start
    requires forall p: nat :: ClearAt(v, p)
    requires RecordAt(v.disk, v.start - TABLE_SECTORS, ROOT) == EncodeINode(DirINode(ROOT, v.start))
    ensures Mounted(v, [])
  {
    hide RecordAt, EncodeINode, DecodeINode, Inv, ClearAt;
    FormattedInv(v, n);
    INodeRoundTrip(DirINode(ROOT, v.start));
    assert Find([], ROOT) == 0;
    assert ReadsAs(InodesOf(v, []), ROOT, v.inodes[ROOT], {});
  }

  /** A clear bit for the root's block is a bit that does not match its owner. */
  lemma RootBitMissing(v: Vol)
    requires v.start in v.owner && (v.bmap == [] || !v.bmap[0])
    ensures !Sound(v)
  {
    hide Owns;
  }

  /** Formats and mounts a partition of `sectors` sectors from sector `base` on, whatever was on the disk, and
      opens its root. The result is the formatted partition, its inode table agreeing, if it has at least eight
      blocks; with fewer, the bit of the root's block is cleared again by mistake. */
  method FormatPartition(disk: Disk, base: nat, sectors: nat) returns (m: InodeStore, ghost len: nat)
    requires sectors > FIXED_SECTORS && base + sectors < 0x8000_0000
    ensures fresh(m) && fresh(m.vol) && len == BlockCount(sectors - FIXED_SECTORS)
    ensures m.vol.start == base + FIXED_SECTORS + BitmapSectors(sectors - FIXED_SECTORS)
    ensures m.open == [Cached(DirINode(ROOT, m.vol.start), 1)]
    ensures len >= 8 ==> Formatted(m.vol.State(), Usable(len)) && Mounted(m.vol.State(), m.open)
    ensures len < 8 ==> !Sound(m.vol.State())
  {
    hide Store, EncodeINode, DotSector, Unpack, RecordAt, Inv, Mounted, Taken;
    var free := sectors - FIXED_SECTORS;
    var blocks := BlockCount(free);
    len := blocks;
    var start: Word := base + FIXED_SECTORS + BitmapSectors(free);
    BlockBehindTheLast(free);
    var buf := new bv8[SECTOR_SIZE * (blocks / BITS_PER_SECTOR + 1)](i => 0);
    FormatBlockBitmap(buf, blocks);
    var bmap := Unpack(buf[..])[..Usable(blocks)];
    var ibits := seq(MAX_FILES, i => i == ROOT);
    var d := NewTable(disk, start)[start := DotSector(ROOT, ROOT)];
    var vol := new Volume(d, bmap, ibits, map[ROOT := DirINode(ROOT, start)], {ROOT}, map[start := (ROOT, 0)], start);
    m := new InodeStore(vol);
    RootRecord(vol.State(), disk);
    var root := m.InodeOpen(ROOT);
    NewBits(bmap, blocks);
    if blocks >= 8 {
      NewMounted(vol.State(), disk, blocks);
      OpenMounted(vol.State(), [], ROOT);
    } else {
      RootBitMissing(vol.State());
    }
  }

  lemma RootRecord(v: Vol, disk: Disk)
    requires TABLE_SECTORS <= v.start < 0x8000_0000 && v.disk == NewTable(disk, v.start)[v.start := DotSector(ROOT, ROOT)]
    ensures AfterOpen(InodesOf(v, []), ROOT).open == [Cached(DirINode(ROOT, v.start), 1)]
  {
    hide Store, EncodeINode, DecodeINode, DotSector, RecordAt, NewTable;
    NewRecords(disk, v.start, ROOT);
    INodeRoundTrip(DirINode(ROOT, v.start));
    assert Find([], ROOT) == 0;
  }

  lemma NewBits(bmap: seq<bool>, len: nat)
    requires |bmap| == Usable(len) && forall b :: 0 <= b < |bmap| ==> bmap[b] == Taken(b, len)
    ensures forall b :: 0 <= b < |bmap| ==> bmap[b] == (b == 0 && len >= 8)
  {
  }

  lemma NewMounted(v: Vol, disk: Disk, len: nat)
    requires TABLE_SECTORS <= v.start && v.start + Usable(len) <= 0x8000_0000 && len >= 8
    requires v.disk == NewTable(disk, v.start)[v.start := DotSector(ROOT, ROOT)]
    requires |v.bmap| == Usable(len) && forall b :: 0 <= b < |v.bmap| ==> v.bmap[b] == (b == 0 && len >= 8)
    requires v.ibits == seq(MAX_FILES, i => i == ROOT)
    requires v.inodes == map[ROOT := DirINode(ROOT, v.start)] && v.dirs == {ROOT} && v.owner == map[v.start := (ROOT, 0)]
    ensures Formatted(v, Usable(len)) && Mounted(v, [])
  {
    hide Store, EncodeINode, DotSector, RecordAt, Inv, Mounted, NewTable;
    forall p: nat ensures ClearAt(v, p) {
      if p < MAX_INODES {
        NewRecords(disk, v.start, p);
      }
    }
    NewRecords(disk, v.start, ROOT);
    NewAgrees(v, Usable(len));
  }
}
