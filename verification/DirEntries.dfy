/** Directory entries: 24 bytes each, 21 to a sector, never across a sector boundary. */
module DirEntries {
  import opened Sectors

  const ENTRY_SIZE := 24
  const PER_SECTOR := 21
  const FT_UNKNOWN := 0
  const FT_REGULAR := 1
  const FT_DIRECTORY := 2

  datatype Slot = Slot(name: string, ino: Word, ftype: Word)

  const EMPTY: Slot := Slot("", 0, 0)

  predicate Live(e: Slot) {
    e.ftype != FT_UNKNOWN
  }

  predicate IsDot(e: Slot) {
    e.name == "." || e.name == ".."
  }

  /** Names of 1 to 15 one-byte characters, neither NUL nor a slash. */
  predicate ValidName(s: string) {
    1 <= |s| <= 15 && forall i :: 0 <= i < |s| ==> 0 < s[i] as int < 0x100 && s[i] != '/'
  }

  /** Slots the kernel stores: named and typed, or all zero. */
  predicate ValidSlot(e: Slot) {
    if Live(e) then ValidName(e.name) && e.ftype <= FT_DIRECTORY else e == EMPTY
  }

  function NameByte(s: string, i: nat): Byte
    requires forall k :: 0 <= k < |s| ==> s[k] as int < 0x100
  {
    if i < |s| then s[i] as int else 0
  }

  function Encode(e: Slot): (s: seq<Byte>)
    requires ValidSlot(e)
    ensures |s| == ENTRY_SIZE
  {
    seq(16, i requires 0 <= i < 16 => NameByte(e.name, i)) + Pack([e.ino, e.ftype])
  }

  /** The C string of at most `n` characters that starts at `off`. */
  function CString(s: seq<Byte>, off: nat, n: nat): (r: string)
    requires off + n <= |s|
    decreases n
  {
    if n == 0 || s[off] == 0 then "" else [s[off] as char] + CString(s, off + 1, n - 1)
  }

  function Decode(s: seq<Byte>, off: nat): Slot
    requires off + ENTRY_SIZE <= |s|
  {
    Slot(CString(s, off, 16), WordAt(s, off + 16), WordAt(s, off + 20))
  }

  function Slots(s: Sector): (b: seq<Slot>)
    ensures |b| == PER_SECTOR
  {
    seq(PER_SECTOR, k requires 0 <= k < PER_SECTOR => Decode(s, ENTRY_SIZE * k))
  }

  /** Equal bytes hold equal strings. */
  lemma {:induction false} CStringLocal(s: seq<Byte>, i: nat, t: seq<Byte>, j: nat, n: nat)
    requires i + n <= |s| && j + n <= |t| && s[i..i + n] == t[j..j + n]
    ensures CString(s, i, n) == CString(t, j, n)
    decreases n
  {
    if n > 0 {
      assert s[i] == s[i..i + n][0] == t[j..j + n][0] == t[j];
      assert s[i + 1..i + n] == s[i..i + n][1..] == t[j..j + n][1..] == t[j + 1..j + n];
      CStringLocal(s, i + 1, t, j + 1, n - 1);
    }
  }

  lemma DecodeLocal(s: seq<Byte>, i: nat, t: seq<Byte>, j: nat)
    requires i + ENTRY_SIZE <= |s| && j + ENTRY_SIZE <= |t| && s[i..i + ENTRY_SIZE] == t[j..j + ENTRY_SIZE]
    ensures Decode(s, i) == Decode(t, j)
  {
    assert s[i..i + 16] == s[i..i + ENTRY_SIZE][..16] == t[j..j + 16];
    CStringLocal(s, i, t, j, 16);
    assert s[i + 16..i + 20] == s[i..i + ENTRY_SIZE][16..20] == t[j + 16..j + 20];
    assert s[i + 20..i + 24] == s[i..i + ENTRY_SIZE][20..24] == t[j + 20..j + 24];
    WordLocal(s, i + 16, t, j + 16);
    WordLocal(s, i + 20, t, j + 20);
  }

  lemma WordLocal(s: seq<Byte>, i: nat, t: seq<Byte>, j: nat)
    requires i + 4 <= |s| && j + 4 <= |t| && s[i..i + 4] == t[j..j + 4]
    ensures WordAt(s, i) == WordAt(t, j)
  {
    var a, b := s[i..i + 4], t[j..j + 4];
    assert a[0] == b[0] && a[1] == b[1] && a[2] == b[2] && a[3] == b[3];
  }

  lemma {:induction false} CStringOfName(s: seq<Byte>, name: string, i: nat)
    requires |s| >= 16 && |name| <= 15 && i <= |name|
    requires forall k :: 0 <= k < |name| ==> 0 < name[k] as int < 0x100 && s[k] == name[k] as int
    requires s[|name|] == 0
    ensures CString(s, i, 16 - i) == name[i..]
    decreases |name| - i
  {
    if i < |name| {
      CStringOfName(s, name, i + 1);
      assert s[i] as char == name[i];
      assert name[i..] == [name[i]] + name[i + 1..];
    }
  }

  /** Reading an entry back gives the entry. */
  lemma EntryRoundTrip(e: Slot)
    requires ValidSlot(e)
    ensures Decode(Encode(e), 0) == e
  {
    var s := Encode(e);
    var ws := [e.ino, e.ftype];
    CStringOfName(s, e.name, 0);
    PackThenRead(ws, 0);
    PackThenRead(ws, 1);
    assert s[16..20] == Pack(ws)[0..4] && s[20..24] == Pack(ws)[4..8];
    WordLocal(s, 16, Pack(ws), 0);
    WordLocal(s, 20, Pack(ws), 4);
  }

  /** Where an entry keeps what: sixteen bytes of name, filled up with zeros, then the inode number and the type, the
      low byte first. */
  lemma EntryLayout(e: Slot)
    requires ValidSlot(e)
    ensures
      var s: seq<int> := Encode(e);
      && |s| == 24 && |e.name| <= 16
      && (forall i :: 0 <= i < |e.name| ==> s[i] == e.name[i] as int) && (forall i :: |e.name| <= i < 16 ==> s[i] == 0)
      && e.ino == s[16] + 0x100 * s[17] + 0x1_0000 * s[18] + 0x100_0000 * s[19]
      && e.ftype == s[20] + 0x100 * s[21] + 0x1_0000 * s[22] + 0x100_0000 * s[23]
  {
    EntryRoundTrip(e);
    assert WordAt(Encode(e), 16) == e.ino && WordAt(Encode(e), 20) == e.ftype;
  }

  /** Writing entry `k` of a sector changes that slot and no other. */
  lemma SlotWritten(s: Sector, k: nat, e: Slot)
    requires k < PER_SECTOR && ValidSlot(e)
    ensures |Splice(s, ENTRY_SIZE * k, Encode(e))| == SECTOR_SIZE
    ensures Slots(Splice(s, ENTRY_SIZE * k, Encode(e))) == Slots(s)[k := e]
  {
    var t: Sector := Splice(s, ENTRY_SIZE * k, Encode(e));
    forall j | 0 <= j < PER_SECTOR ensures Slots(t)[j] == Slots(s)[k := e][j] {
      var off := ENTRY_SIZE * j;
      if j == k {
        EntryRoundTrip(e);
        assert t[off..off + ENTRY_SIZE] == Encode(e)[0..ENTRY_SIZE];
        DecodeLocal(t, off, Encode(e), 0);
      } else {
        assert t[off..off + ENTRY_SIZE] == s[off..off + ENTRY_SIZE];
        DecodeLocal(t, off, s, off);
      }
    }
  }

  /** A zeroed sector is 21 free slots. */
  lemma ZeroSlots()
    ensures forall k :: 0 <= k < PER_SECTOR ==> Slots(Zeros(512))[k] == EMPTY
  {
  }

  /** Clearing 24 bytes is writing the empty slot. */
  lemma EncodeEmpty()
    ensures Encode(EMPTY) == Zeros(ENTRY_SIZE)
  {
    assert forall i :: 0 <= i < 8 ==> Pack([0, 0])[i] == 0;
  }
}
