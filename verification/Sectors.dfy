/** Bytes, little-endian words and 512-byte sectors: what the file system keeps on the disk. */
module Sectors {

  type Byte = x: int | 0 <= x < 0x100

  type Word = x: int | 0 <= x < 0x1_0000_0000

  const SECTOR_SIZE := 512

  function Zeros(n: nat): (s: seq<Byte>)
    ensures |s| == n
    ensures forall k :: 0 <= k < n ==> s[k] == 0
  {
    seq(n, k => 0)
  }

  type Sector = s: seq<Byte> | |s| == 512 witness Zeros(512)

  /** The disk, by LBA. A sector nobody has written holds zeros. */
  type Disk = map<nat, Sector>

  function Get(d: Disk, lba: nat): Sector {
    if lba in d then d[lba] else Zeros(512)
  }

  /** `s` with the bytes from `off` on replaced by `data` (a memcpy or memset into a buffer). */
  function Splice(s: seq<Byte>, off: nat, data: seq<Byte>): (r: seq<Byte>)
    requires off + |data| <= |s|
    ensures |r| == |s|
    ensures forall k :: 0 <= k < |s| ==> r[k] == if off <= k < off + |data| then data[k - off] else s[k]
  {
    s[..off] + data + s[off + |data|..]
  }

  function WordAt(s: seq<Byte>, off: nat): Word
    requires off + 4 <= |s|
  {
    var b0: int, b1: int, b2: int, b3: int := s[off], s[off + 1], s[off + 2], s[off + 3];
    b0 + 0x100 * b1 + 0x1_0000 * b2 + 0x100_0000 * b3
  }

  function ByteOf(w: Word, j: nat): Byte
    requires j < 4
  {
    match j
    case 0 => w % 0x100
    case 1 => w / 0x100 % 0x100
    case 2 => w / 0x1_0000 % 0x100
    case 3 => w / 0x100_0000
  }

  function Pack(ws: seq<Word>): (s: seq<Byte>)
    ensures |s| == 4 * |ws|
  {
    seq(4 * |ws|, k requires 0 <= k < 4 * |ws| => ByteOf(ws[k / 4], k % 4))
  }

  lemma WordOfBytes(w: Word)
    ensures WordAt([ByteOf(w, 0), ByteOf(w, 1), ByteOf(w, 2), ByteOf(w, 3)], 0) == w
  {
    var h := w / 0x100;
    assert h / 0x100 == w / 0x1_0000;
    assert h / 0x1_0000 == w / 0x100_0000;
  }

  /** Word `i` of a packed table is the word that was packed there. */
  lemma PackThenRead(ws: seq<Word>, i: nat)
    requires i < |ws|
    ensures WordAt(Pack(ws), 4 * i) == ws[i]
  {
    WordOfBytes(ws[i]);
    var s := Pack(ws);
    assert s[4 * i] == ByteOf(ws[i], 0);
    assert s[4 * i + 1] == ByteOf(ws[i], 1);
    assert s[4 * i + 2] == ByteOf(ws[i], 2);
    assert s[4 * i + 3] == ByteOf(ws[i], 3);
  }

  /** The 128 addresses in an indirect table. */
  function TableWords(s: Sector): (ws: seq<Word>)
    ensures |ws| == 128
  {
    seq(128, i requires 0 <= i < 128 => WordAt(s, 4 * i))
  }

  lemma TableRoundTrip(ws: seq<Word>)
    requires |ws| == 128
    ensures TableWords(Pack(ws)) == ws
  {
    forall i | 0 <= i < 128 ensures TableWords(Pack(ws))[i] == ws[i] {
      PackThenRead(ws, i);
    }
  }
}
