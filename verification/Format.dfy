/** Formatting a partition. */
module Format {
  import opened Sectors
  import opened Bitmap
  import opened Volumes
  import opened DirEntries
  import opened DirViews
  import opened DirStates
  import opened NameTree
  import opened FsStates
  import opened FsProofs
  import opened FreshDirs

  const BITS_PER_SECTOR := 4096
  const MAX_FILES := 4096

  method Memset(buf: array<bv8>, from: nat, byte: bv8, n: nat)
    requires from + n <= buf.Length
    modifies buf
    ensures forall k :: 0 <= k < buf.Length ==> buf[k] == if from <= k < from + n then byte else old(buf[k])
  {
    for i := from to from + n
      invariant forall k :: 0 <= k < buf.Length ==> buf[k] == if from <= k < i then byte else old(buf[k])
    {
      buf[i] := byte;
    }
  }

  /** Bit `b` of the block bitmap of a new partition with `len` blocks. */
  predicate Taken(b: nat, len: nat) {
    b > len || (b == 0 && len >= 8)
  }

  lemma TailByte(byte: bv8, next: bv8, last: nat)
    requires last < 8 && next == byte & !Mask(last)
    requires forall i :: 0 <= i < 8 ==> TestByte(byte, i) == (i >= last)
    ensures forall i :: 0 <= i < 8 ==> TestByte(next, i) == (i > last)
  {
    forall i | 0 <= i < 8 ensures TestByte(next, i) == (i > last) {
      SetByte(byte, last, i);
    }
  }

  lemma Ones()
    ensures forall i :: 0 <= i < 8 ==> TestByte(0xff, i)
    ensures forall i :: 0 <= i < 8 ==> !TestByte(0, i)
    ensures forall i :: 0 <= i < 8 ==> TestByte(1, i) == (i == 0)
  {
    FullByte(0xff);
    forall i | 0 <= i < 8 ensures TestByte(1, i) == (i == 0) {
      assert TestByte(1, 1) == false && TestByte(1, 2) == false && TestByte(1, 3) == false;
    }
  }

  /** The bytes written amount to the bits meant. */
  lemma FormatBits(m: seq<bv8>, len: nat, b: nat)
    requires |m| >= SECTOR_SIZE * (len / BITS_PER_SECTOR + 1) && b < BITS_PER_SECTOR * (len / BITS_PER_SECTOR + 1)
    requires forall i :: 0 <= i < 8 ==> TestByte(m[len / 8], i) == (i > len % 8)
    requires forall k :: 0 <= k < len / 8 ==> m[k] == if k == 0 then 1 else 0
    requires forall k :: len / 8 < k < SECTOR_SIZE * (len / BITS_PER_SECTOR + 1) ==> m[k] == 0xff
    ensures Unpack(m)[b] == Taken(b, len)
  {
    Ones();
    assert Unpack(m)[b] == TestByte(m[b / 8], b % 8);
  }

  /** Clears the bits of a full byte up to and including bit `lastBit`. */
  method ClearLowBits(lastBit: nat) returns (byte: bv8)
    requires lastBit < 8
    ensures forall i :: 0 <= i < 8 ==> TestByte(byte, i) == (i > lastBit)
  {
    hide TestByte, Mask;
    Ones();
    byte := 0xff;
    var bitIdx := 0;
    while bitIdx <= lastBit
      invariant 0 <= bitIdx <= lastBit + 1
      invariant forall i :: 0 <= i < 8 ==> TestByte(byte, i) == (i >= bitIdx)
    {
      TailByte(byte, byte & !Mask(bitIdx), bitIdx);
      byte := byte & !Mask(bitIdx);
      bitIdx := bitIdx + 1;
    }
  }

  /** Fills the buffer with the block bitmap: the root's block is taken, and so is everything from
      the last byte on, except that the bits of that byte up to and including bit `len % 8` are
      cleared again. */
  method FormatBlockBitmap(buf: array<bv8>, len: nat)
    requires buf.Length >= SECTOR_SIZE * (len / BITS_PER_SECTOR + 1) && forall k :: 0 <= k < buf.Length ==> buf[k] == 0
    modifies buf
    ensures forall b :: 0 <= b < BITS_PER_SECTOR * (len / BITS_PER_SECTOR + 1) ==> Unpack(buf[..])[b] == Taken(b, len)
  {
    hide TestByte, Unpack, Taken;
    buf[0] := buf[0] | 0x01;
    var lastByte, lastBit := len / 8, len % 8;
    var lastSize := SECTOR_SIZE - lastByte % SECTOR_SIZE;
    assert lastByte + lastSize == SECTOR_SIZE * (len / BITS_PER_SECTOR + 1);
    Memset(buf, lastByte, 0xff, lastSize);
    buf[lastByte] := ClearLowBits(lastBit);
    forall b | 0 <= b < BITS_PER_SECTOR * (len / BITS_PER_SECTOR + 1) ensures Unpack(buf[..])[b] == Taken(b, len) {
      FormatBits(buf[..], len, b);
    }
  }

  /** The sectors of a partition: `free` are left when the fixed areas are taken off. */
  function BitmapGuess(free: nat): nat {
    (free + BITS_PER_SECTOR - 1) / BITS_PER_SECTOR
  }

  function BlockCount(free: nat): nat
    requires free > 0
  {
    free - BitmapGuess(free)
  }

  function BitmapSectors(free: nat): nat
    requires free > 0
  {
    (BlockCount(free) + BITS_PER_SECTOR - 1) / BITS_PER_SECTOR
  }

  /** The bitmap has a bit for every block and no sector too many, and with the blocks it fills what is left of the
      partition, except for one sector and one more for every eight gigabytes. */
  lemma LayoutTight(free: nat)
    requires free > 0
    ensures
      var len, sectors := BlockCount(free), BitmapSectors(free);
      && 4096 * (sectors - 1) < len <= 4096 * sectors
      && len + sectors <= free <= len + sectors + 1 + free / 0x100_0000
  {
  }

  /** All blocks the bitmap counts lie inside the partition; the block behind the last, whose bit
      formatting also clears, does so exactly when the second estimate of the bitmap's size is
      smaller than the first; and that bit is on the disk unless the blocks fill whole sectors of bits. */
  lemma BlockBehindTheLast(free: nat)
    requires free > 0
    ensures var data := free - BitmapSectors(free); var len := BlockCount(free);
            && len <= data
            && (len < data <==> BitmapSectors(free) < BitmapGuess(free))
            && (len < BITS_PER_SECTOR * BitmapSectors(free) <==> len % BITS_PER_SECTOR != 0)
            && !Taken(len, len)
  {
  }

  /** A formatted partition of `n` usable block bits. */
  ghost predicate Formatted(v: Vol, n: nat) {
    && 0 < v.start && n > 0 && v.start + n <= 0x8000_0000 && Get(v.disk, v.start) == DotSector(ROOT, ROOT)
    && |v.bmap| == n && (forall b :: 0 <= b < n ==> v.bmap[b] == (b == 0))
    && |v.ibits| == MAX_FILES && (forall i :: 0 <= i < MAX_FILES ==> v.ibits[i] == (i == ROOT))
    && v.inodes == map[ROOT := DirINode(ROOT, v.start)] && v.dirs == {ROOT} && v.owner == map[v.start := (ROOT, 0)]
  }

  lemma FormattedSound(v: Vol, n: nat)
    requires Formatted(v, n)
    ensures Sound(v) && RootFirst(v)
  {
    hide DotSector;
    var m := DirINode(ROOT, v.start);
    var l := Layout(v.disk, m);
    assert forall i :: 0 <= i <= TABLE ==> l[i] == if i == 0 then v.start else 0;
    assert Layouts(v.disk, v.inodes) == map[ROOT := l];
  }

  lemma FormattedView(v: Vol, n: nat)
    requires Formatted(v, n)
    ensures ROOT in v.inodes && IsDir(v, ROOT) && ViewAt(v, ROOT) == DotView(ROOT, ROOT)
  {
    hide DotSector, DotView, DirOk;
    DotViewOf(v.disk, v.inodes[ROOT], ROOT, ROOT);
    DotDirOk(ROOT, ROOT);
  }

  /** The tree that is only a root. */
  lemma RootTree(n: Names)
    requires n.live == n.dirs == {ROOT} && n.entries == map[ROOT := DotsOf(ROOT, ROOT)]
    requires n.parent == map[ROOT := ROOT]
    ensures Tree(n)
  {
    assert forall d, e :: Entry(n, d, e) ==> d == ROOT && e.ino == ROOT && IsDot(e) && e.ftype == FT_DIRECTORY;
    forall d, e ensures EntryOk(n, d, e) {
    }
    forall d, e, f, g ensures OneName(n, d, e, f, g) {
    }
    forall c ensures IsNamed(n, c) {
    }
    forall d ensures ParentOk(n, d) {
    }
    assert Ranked(n, map[ROOT := 0]);
  }

  /** A formatted partition satisfies the invariant every operation keeps. */
  lemma FormattedInv(v: Vol, n: nat)
    requires Formatted(v, n)
    ensures Inv(v)
  {
    hide Sound, RootFirst, ViewAt, IsDir, LiveSet, DotDot, DotsOf, Tree, DotView, DotSector;
    FormattedSound(v, n);
    FormattedView(v, n);
    DotSet(ROOT, ROOT);
    forall p ensures ShapeOk(v, p) {
    }
    var m := NamesOf(v);
    assert m.entries == map[ROOT := DotsOf(ROOT, ROOT)];
    assert m.parent == map[ROOT := ROOT];
    RootTree(m);
  }
}
