/** The inode table on the disk: 76-byte records packed one after the other, across sector boundaries. */
module InodeRecords {
  import opened Sectors
  import opened Volumes

  const RECORD := 76
  const MAX_INODES := 4096
  /** Sectors of the table: 4096 records of 76 bytes. */
  const TABLE_SECTORS := 608

  predicate ValidINode(n: INode) {
    n.no < 0x1_0000_0000 && n.size < 0x1_0000_0000 && |n.sectors| == 13
  }

  /** The words of a record; the open count, the write lock and the list links are stored as zero. */
  function RecordWords(n: INode): (ws: seq<Word>)
    requires ValidINode(n)
    ensures |ws| == 19
  {
    [n.no, n.size, 0, 0] + n.sectors + [0, 0]
  }

  function EncodeINode(n: INode): (s: seq<Byte>)
    requires ValidINode(n)
    ensures |s| == RECORD
  {
    Pack(RecordWords(n))
  }

  function DecodeINode(s: seq<Byte>): (n: INode)
    requires |s| == RECORD
    ensures ValidINode(n)
  {
    INode(WordAt(s, 0), WordAt(s, 4), seq(13, i requires 0 <= i < 13 => WordAt(s, 16 + 4 * i)))
  }

  /** Byte `o` of the table that starts at sector `table`. */
  function TableByte(d: Disk, table: nat, o: nat): Byte {
    Get(d, table + o / SECTOR_SIZE)[o % SECTOR_SIZE]
  }

  function RecordAt(d: Disk, table: nat, i: nat): (s: seq<Byte>)
    ensures |s| == RECORD
  {
    seq<Byte>(RECORD, k requires 0 <= k < RECORD => TableByte(d, table, RECORD * i + k))
  }

  /** The inode stored under number `i`. */
  function Load(d: Disk, table: nat, i: nat): (n: INode)
    ensures ValidINode(n)
  {
    DecodeINode(RecordAt(d, table, i))
  }

  datatype Position = Position(twoSectors: bool, sector: nat, offset: nat)

  function Locate(table: nat, i: nat): (p: Position)
    ensures p.offset < SECTOR_SIZE && (p.twoSectors <==> p.offset + RECORD > SECTOR_SIZE)
    ensures SECTOR_SIZE * (p.sector - table) + p.offset == RECORD * i && p.sector >= table
  {
    var off := i * RECORD;
    Position(SECTOR_SIZE - off % SECTOR_SIZE < RECORD, table + off / SECTOR_SIZE, off % SECTOR_SIZE)
  }

  function ReadSectors(d: Disk, p: Position): (buf: seq<Byte>)
    ensures |buf| == if p.twoSectors then 2 * SECTOR_SIZE else SECTOR_SIZE
  {
    Get(d, p.sector) + if p.twoSectors then Get(d, p.sector + 1) else []
  }

  function WriteSectors(d: Disk, p: Position, buf: seq<Byte>): Disk
    requires |buf| == if p.twoSectors then 2 * SECTOR_SIZE else SECTOR_SIZE
  {
    if p.twoSectors then d[p.sector := buf[..SECTOR_SIZE]][p.sector + 1 := buf[SECTOR_SIZE..]] else d[p.sector := buf]
  }

  /** The disk with record `i` replaced, the way it is done: read, splice, write back. */
  function Store(d: Disk, table: nat, i: nat, bytes: seq<Byte>): Disk
    requires |bytes| == RECORD
  {
    var p := Locate(table, i);
    WriteSectors(d, p, Splice(ReadSectors(d, p), p.offset, bytes))
  }

  /** Where a record keeps what, in words: the number, the size, and from the fifth on the thirteen addresses. */
  lemma RecordLayout(n: INode)
    requires ValidINode(n)
    ensures
      var s := EncodeINode(n);
      && |s| == 76 && WordAt(s, 0) == n.no && WordAt(s, 4) == n.size && |n.sectors| == 13
      && forall i :: 0 <= i < 13 ==> WordAt(s, 16 + 4 * i) == n.sectors[i]
  {
    hide EncodeINode, WordAt;
    INodeRoundTrip(n);
    var m := DecodeINode(EncodeINode(n));
    assert forall i :: 0 <= i < 13 ==> m.sectors[i] == WordAt(EncodeINode(n), 16 + 4 * i);
  }

  lemma INodeRoundTrip(n: INode)
    requires ValidINode(n)
    ensures DecodeINode(EncodeINode(n)) == n
  {
    hide WordAt, Pack;
    var ws := RecordWords(n);
    PackThenRead(ws, 0);
    PackThenRead(ws, 1);
    forall i | 0 <= i < 13 ensures WordAt(Pack(ws), 16 + 4 * i) == n.sectors[i] {
      PackThenRead(ws, 4 + i);
    }
  }

  /** Storing a record changes its 76 bytes and no other byte of the table. */
  lemma StoreByte(d: Disk, table: nat, i: nat, bytes: seq<Byte>, o: nat)
    requires |bytes| == RECORD
    ensures TableByte(Store(d, table, i, bytes), table, o) ==
            if RECORD * i <= o < RECORD * i + RECORD then bytes[o - RECORD * i] else TableByte(d, table, o)
  {
    var p := Locate(table, i);
    var buf := Splice(ReadSectors(d, p), p.offset, bytes);
    var s := table + o / SECTOR_SIZE;
    if s == p.sector {
      assert buf[..SECTOR_SIZE][o % SECTOR_SIZE] == buf[o % SECTOR_SIZE];
    } else if s == p.sector + 1 && p.twoSectors {
      assert buf[SECTOR_SIZE..][o % SECTOR_SIZE] == buf[SECTOR_SIZE + o % SECTOR_SIZE];
    }
  }

  lemma StoreRecord(d: Disk, table: nat, i: nat, bytes: seq<Byte>, j: nat)
    requires |bytes| == RECORD
    ensures RecordAt(Store(d, table, i, bytes), table, j) == if j == i then bytes else RecordAt(d, table, j)
  {
    hide Store, TableByte;
    var e := Store(d, table, i, bytes);
    forall k | 0 <= k < RECORD ensures RecordAt(e, table, j)[k] == if j == i then bytes[k] else RecordAt(d, table, j)[k] {
      StoreByte(d, table, i, bytes, RECORD * j + k);
    }
  }

  /** Storing one record leaves every other record, and every sector outside the table, alone. */
  lemma StoreFrame(d: Disk, table: nat, i: nat, bytes: seq<Byte>)
    requires |bytes| == RECORD && i < MAX_INODES
    ensures RecordAt(Store(d, table, i, bytes), table, i) == bytes
    ensures forall j: nat :: j != i ==> RecordAt(Store(d, table, i, bytes), table, j) == RecordAt(d, table, j)
    ensures forall l: nat :: !(table <= l < table + TABLE_SECTORS) ==> Get(Store(d, table, i, bytes), l) == Get(d, l)
  {
    hide Store, RecordAt;
    StoreRecord(d, table, i, bytes, i);
    forall j: nat | j != i ensures RecordAt(Store(d, table, i, bytes), table, j) == RecordAt(d, table, j) {
      StoreRecord(d, table, i, bytes, j);
    }
    StoreOutside(d, table, i, bytes);
  }

  lemma StoreOutside(d: Disk, table: nat, i: nat, bytes: seq<Byte>)
    requires |bytes| == RECORD && i < MAX_INODES
    ensures forall l: nat :: !(table <= l < table + TABLE_SECTORS) ==> Get(Store(d, table, i, bytes), l) == Get(d, l)
  {
  }
}
