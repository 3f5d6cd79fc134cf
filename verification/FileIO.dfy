/** Regular files: what their blocks hold, and reading them. */
module FileIO {
  import opened Sectors
  import opened BitRuns
  import opened Volumes

  /** The first `k` blocks of a file, and no others, are allocated; the indirect table exists
      exactly when they do not fit in the direct places. */
  ghost predicate BlockShape(l: seq<Word>, k: nat) {
    && |l| == 141 && k <= MAX_BLOCKS
    && (forall i :: 0 <= i < MAX_BLOCKS ==> (l[i] != 0 <==> i < k))
    && (l[TABLE] != 0 <==> k > DIRECT)
  }

  /** A file nobody has written owns nothing; any other owns the blocks up to and including the
      one its next byte goes to. */
  ghost predicate FileShape(l: seq<Word>, size: nat) {
    (size == 0 && BlockShape(l, 0)) || BlockShape(l, size / BLOCK_SIZE + 1)
  }

  ghost predicate IsFile(v: Vol, ino: nat) {
    && ino in v.inodes && ino !in v.dirs && |v.inodes[ino].sectors| == 13
    && FileShape(Layout(v.disk, v.inodes[ino]), v.inodes[ino].size)
  }

  /** The bytes of a file: byte `k` is byte `k % 512` of its block `k / 512`. */
  ghost function Content(d: Disk, n: INode): (c: seq<Byte>)
    requires |n.sectors| == 13 && n.size <= MAX_BLOCKS * BLOCK_SIZE
    ensures |c| == n.size
    ensures forall k :: 0 <= k < n.size ==> c[k] == Get(d, Place(d, n, k / BLOCK_SIZE))[k % BLOCK_SIZE]
  {
    seq(n.size, k requires 0 <= k < n.size => Get(d, Place(d, n, k / BLOCK_SIZE))[k % BLOCK_SIZE])
  }

  /** Where byte `k` of a file is: the first 6144 bytes in the twelve blocks the inode names, the others in the blocks
      named, one word each, by the sector in its thirteenth place. */
  lemma ByteAt(v: Vol, ino: nat, k: nat)
    requires IsFile(v, ino) && k < v.inodes[ino].size
    ensures
      var n := v.inodes[ino];
      && n.size <= 71680
      && (k < 6144 ==> n.sectors[k / 512] != 0 && Content(v.disk, n)[k] == Get(v.disk, n.sectors[k / 512])[k % 512])
      && (k >= 6144 ==>
            && n.sectors[12] != 0
            && Content(v.disk, n)[k] == Get(v.disk, WordAt(Get(v.disk, n.sectors[12]), 4 * (k / 512 - 12)))[k % 512])
  {
    var n := v.inodes[ino];
    var l := Layout(v.disk, n);
    assert l[k / BLOCK_SIZE] != 0 && (k >= 6144 ==> l[TABLE] != 0);
  }

  function ZeroWords(n: nat): (s: seq<Word>)
    ensures |s| == n && forall i :: 0 <= i < n ==> s[i] == 0
  {
    seq(n, k => 0)
  }

  /** `Wild`: the position is behind the end, or position and count together do not fit 32 bits. The length
      left then wraps around and the copying loop leaves the file; nothing is said of that case. */
  datatype ReadResult = Data(bytes: seq<Byte>) | Eof | Panicked | Wild

  /** Collects the addresses of blocks `first` to `last` into a 140-entry array. */
  method CollectForRead(disk: Disk, n: INode, first: nat, last: nat) returns (blocks: seq<Word>)
    requires |n.sectors| == 13 && first <= last < 139
    requires last >= DIRECT ==> n.sectors[12] != 0
    ensures |blocks| == MAX_BLOCKS
    ensures forall i :: first <= i <= last ==> blocks[i] == Place(disk, n, i)
  {
    blocks := ZeroWords(MAX_BLOCKS);
    if first == last {
      if last < DIRECT {
        blocks := Put(blocks, last, n.sectors[last]);
      } else {
        blocks := blocks[..DIRECT] + TableWords(Get(disk, n.sectors[12]));
      }
    } else if last < DIRECT {
      var i := first;
      while i <= last
        invariant first <= i <= last + 1 && |blocks| == MAX_BLOCKS
        invariant forall j :: first <= j < i ==> blocks[j] == n.sectors[j]
      {
        blocks := Put(blocks, i, n.sectors[i]);
        i := i + 1;
      }
    } else if first < DIRECT {
      var i := first;
      while i < DIRECT
        invariant first <= i <= DIRECT && |blocks| == MAX_BLOCKS
        invariant forall j :: first <= j < i ==> blocks[j] == n.sectors[j]
      {
        blocks := Put(blocks, i, n.sectors[i]);
        i := i + 1;
      }
      assert n.sectors[12] != 0;
      blocks := blocks[..DIRECT] + TableWords(Get(disk, n.sectors[12]));
    } else {
      assert n.sectors[12] != 0;
      blocks := blocks[..DIRECT] + TableWords(Get(disk, n.sectors[12]));
    }
  }

  lemma ReadChunk(d: Disk, n: INode, blocks: seq<Word>, from: nat, pos: nat, chunk: nat)
    requires |n.sectors| == 13 && n.size <= MAX_BLOCKS * BLOCK_SIZE && |blocks| == MAX_BLOCKS
    requires from <= pos && pos + chunk <= n.size && chunk <= BLOCK_SIZE - pos % BLOCK_SIZE
    requires pos / BLOCK_SIZE < MAX_BLOCKS && blocks[pos / BLOCK_SIZE] == Place(d, n, pos / BLOCK_SIZE)
    ensures Content(d, n)[from..pos]
          + Get(d, blocks[pos / BLOCK_SIZE])[pos % BLOCK_SIZE..pos % BLOCK_SIZE + chunk]
         == Content(d, n)[from..pos + chunk]
  {
    var c := Content(d, n);
    var piece := Get(d, blocks[pos / BLOCK_SIZE])[pos % BLOCK_SIZE..pos % BLOCK_SIZE + chunk];
    forall k | 0 <= k < chunk ensures piece[k] == c[pos + k] {
      assert (pos + k) / BLOCK_SIZE == pos / BLOCK_SIZE && (pos + k) % BLOCK_SIZE == pos % BLOCK_SIZE + k;
    }
    assert c[from..pos + chunk] == c[from..pos] + c[pos..pos + chunk];
    assert piece == c[pos..pos + chunk];
  }

  /** The copying loop of a read. */
  method ReadData(disk: Disk, n: INode, blocks: seq<Word>, fdPos: nat, size: nat)
    returns (bytes: seq<Byte>, pos: nat)
    requires |n.sectors| == 13 && n.size <= MAX_BLOCKS * BLOCK_SIZE && |blocks| == MAX_BLOCKS
    requires fdPos + size <= n.size && (fdPos + size) / BLOCK_SIZE < MAX_BLOCKS
    requires forall i :: fdPos / BLOCK_SIZE <= i <= (fdPos + size) / BLOCK_SIZE ==> blocks[i] == Place(disk, n, i)
    ensures bytes == Content(disk, n)[fdPos..fdPos + size] && pos == fdPos + size
  {
    pos := fdPos;
    bytes := [];
    var sizeLeft := size;
    while |bytes| < size
      invariant |bytes| + sizeLeft == size && pos == fdPos + |bytes| && sizeLeft >= 0
      invariant bytes == Content(disk, n)[fdPos..pos]
      decreases sizeLeft
    {
      var secOff := pos % BLOCK_SIZE;
      var secLeft := BLOCK_SIZE - secOff;
      var chunk := if sizeLeft < secLeft then sizeLeft else secLeft;
      var ioBuf := Get(disk, blocks[pos / BLOCK_SIZE]);
      ReadChunk(disk, n, blocks, fdPos, pos, chunk);
      bytes := bytes + ioBuf[secOff..secOff + chunk];
      pos := pos + chunk;
      sizeLeft := sizeLeft - chunk;
    }
  }

  /** What reading `count` bytes from `pos` of a file with the bytes `c` may give. At the end of the file there
      is nothing to read. A read that would end at byte 71168 or behind it stops the kernel. Any other gives
      bytes from `pos` on, as many as asked for or all that are left. */
  ghost predicate ReadsRight(c: seq<Byte>, pos: nat, count: nat, r: ReadResult) {
    if pos > |c| || pos + count >= 0x1_0000_0000 then r.Wild?
    else if pos == |c| && count > 0 then r.Eof?
    else if |c| >= 71168 && pos + count >= 71168 then r.Panicked?
    else r.Data? && r.bytes <= c[pos..] && |r.bytes| <= count && (|r.bytes| == count || pos + |r.bytes| == |c|)
  }

  /** There is only one right answer to a read. */
  lemma ReadDetermined(c: seq<Byte>, pos: nat, count: nat, r: ReadResult, t: ReadResult)
    requires ReadsRight(c, pos, count, r) && ReadsRight(c, pos, count, t)
    ensures r == t
  {
    if r.Data? {
      assert |r.bytes| == |t.bytes|;
      assert r.bytes == c[pos..][..|r.bytes|] == t.bytes;
    }
  }

  /** A read gives exactly the matching slice of the file, or reports the end of the file; it
      panics exactly when its last byte lies at or behind byte 71168 (block 139). */
  method FileRead(vol: Volume, ino: nat, fdPos: nat, count: nat) returns (r: ReadResult, pos: nat)
    requires IsFile(vol.State(), ino)
    ensures ReadsRight(Content(vol.disk, vol.inodes[ino]), fdPos, count, r)
    ensures pos == if r.Data? then fdPos + |r.bytes| else fdPos
  {
    var n := vol.inodes[ino];
    pos := fdPos;
    if !(fdPos <= n.size && fdPos + count < 0x1_0000_0000) {
      return Wild, fdPos;
    }
    var size := count;
    if fdPos + count > n.size {
      size := n.size - fdPos;
      if size == 0 {
        return Eof, fdPos;
      }
    }
    var first, last := fdPos / BLOCK_SIZE, (fdPos + size) / BLOCK_SIZE;
    if !(first < 139 && last < 139) {
      return Panicked, fdPos;
    }
    assert last >= DIRECT ==> Layout(vol.disk, n)[TABLE] != 0;
    var blocks := CollectForRead(vol.disk, n, first, last);
    var bytes;
    bytes, pos := ReadData(vol.disk, n, blocks, fdPos, size);
    SliceIsPrefix(Content(vol.disk, n), fdPos, size);
    r := Data(bytes);
  }

  lemma SliceIsPrefix(c: seq<Byte>, pos: nat, len: nat)
    requires pos + len <= |c|
    ensures c[pos..pos + len] <= c[pos..]
  {
    assert c[pos..pos + len] == c[pos..][..len];
  }

  /** One more piece behind what has been read. */
  lemma ReadOn(c: seq<Byte>, pos: nat, piece: seq<Byte>)
    requires pos <= |c| && piece <= c[pos..]
    ensures pos + |piece| <= |c| && c[..pos] + piece == c[..pos + |piece|]
  {
    assert c[..pos + |piece|] == c[..pos] + c[pos..][..|piece|];
  }

  lemma FileSize(v: Vol, ino: nat)
    requires IsFile(v, ino)
    ensures v.inodes[ino].size <= MAX_BLOCKS * BLOCK_SIZE
  {
  }

  /** Reading from the start, piece by piece, until the end is reported gives the whole file, whatever the size of
      the pieces; the kernel stops on the way exactly when the file has 71168 bytes or more. */
  method ReadWhole(vol: Volume, ino: nat, count: nat) returns (all: seq<Byte>, stopped: bool)
    requires IsFile(vol.State(), ino) && count > 0 && vol.inodes[ino].size + count < 0x1_0000_0000
    ensures stopped <==> vol.inodes[ino].size >= 71168
    ensures all <= Content(vol.disk, vol.inodes[ino])
    ensures !stopped ==> all == Content(vol.disk, vol.inodes[ino])
  {
    hide Content, FileShape;
    FileSize(vol.State(), ino);
    ghost var c := Content(vol.disk, vol.inodes[ino]);
    all, stopped := [], false;
    var pos := 0;
    while true
      invariant pos == |all| <= |c| && all == c[..pos] && !stopped && (|c| >= 71168 ==> pos < 71168)
      decreases |c| - pos
    {
      var r;
      r, pos := FileRead(vol, ino, pos, count);
      match r {
        case Data(bytes) =>
          ReadOn(c, |all|, bytes);
          all := all + bytes;
        case Panicked =>
          stopped := true;
          return;
        case Eof =>
          return;
      }
    }
  }
}
