/** A directory with nothing in it but its dots. */
module FreshDirs {
  import opened Sectors
  import opened Volumes
  import opened DirEntries
  import opened DirViews
  import opened DirStates
  import opened DirListing
  import opened NameTree
  import opened FsStates

  function Dot(self: Word): (e: Slot)
    ensures ValidSlot(e)
  {
    Slot(".", self, FT_DIRECTORY)
  }

  function DotDotTo(parent: Word): (e: Slot)
    ensures ValidSlot(e)
  {
    Slot("..", parent, FT_DIRECTORY)
  }

  /** The sector written for a new directory. */
  function DotSector(self: Word, parent: Word): (s: seq<Byte>)
    ensures |s| == SECTOR_SIZE
  {
    Splice(Splice(Zeros(512), 0, Encode(Dot(self))), ENTRY_SIZE, Encode(DotDotTo(parent)))
  }

  function DotBlock(self: Word, parent: Word): (b: seq<Slot>)
    ensures |b| == PER_SECTOR
  {
    [Dot(self), DotDotTo(parent)] + seq(PER_SECTOR - 2, k => EMPTY)
  }

  function EmptyView(): (w: View)
    ensures |w| == 12 && forall i :: 0 <= i < 12 ==> w[i] == []
  {
    seq(12, i => [])
  }

  function DotView(self: Word, parent: Word): (w: View) {
    EmptyView()[0 := DotBlock(self, parent)]
  }

  function DirINode(ino: nat, lba: Word): INode {
    INode(ino, 2 * ENTRY_SIZE, Put(FRESH_SECTORS, 0, lba))
  }

  lemma DotSlots(self: Word, parent: Word)
    ensures Slots(DotSector(self, parent)) == DotBlock(self, parent)
  {
    hide Slots, Encode, Splice, Zeros;
    SlotWritten(Zeros(512), 0, Dot(self));
    SlotWritten(Splice(Zeros(512), 0, Encode(Dot(self))), 1, DotDotTo(parent));
    ZeroSlots();
  }

  lemma DotTotal(self: Word, parent: Word)
    ensures Total(DotView(self, parent)) == 2
  {
    TotalNone(EmptyView());
    TotalUpdate(EmptyView(), 0, DotBlock(self, parent));
    var b := DotBlock(self, parent);
    var c := b[0 := EMPTY];
    var d := c[1 := EMPTY];
    CountUpdate(b, 0, EMPTY);
    CountUpdate(c, 1, EMPTY);
    CountNone(d);
  }

  lemma DotLive(self: Word, parent: Word, i: int, k: int)
    requires LiveAt(DotView(self, parent), i, k)
    ensures i == 0 && 0 <= k <= 1 && DotView(self, parent)[i][k] == if k == 0 then Dot(self) else DotDotTo(parent)
  {
  }

  lemma DotDirOk(self: Word, parent: Word)
    ensures DirOk(DotView(self, parent), self, 2 * ENTRY_SIZE)
  {
    hide Total;
    DotTotal(self, parent);
    var w := DotView(self, parent);
    forall i, k | LiveAt(w, i, k) ensures i == 0 && k <= 1 {
      DotLive(self, parent, i, k);
    }
    forall i, k, j, m ensures Apart(w, i, k, j, m) {
      if LiveAt(w, i, k) && LiveAt(w, j, m) {
        DotLive(self, parent, i, k);
        DotLive(self, parent, j, m);
      }
    }
  }

  lemma DotSet(self: Word, parent: Word)
    ensures LiveSet(DotView(self, parent)) == DotsOf(self, parent) && DotDot(DotView(self, parent)) == parent
  {
    var w := DotView(self, parent);
    assert w[0][0] == Dot(self) && w[0][1] == DotDotTo(parent);
    assert forall e :: e in LiveSet(w) ==> e in DotsOf(self, parent);
    assert w[0][0] in LiveSet(w) && w[0][1] in LiveSet(w);
  }

  lemma DotViewOf(d: Disk, n: INode, self: Word, parent: Word)
    requires |n.sectors| == 13 && n.sectors[0] != 0 && Get(d, n.sectors[0]) == DotSector(self, parent)
    requires forall i :: 1 <= i < 12 ==> n.sectors[i] == 0
    ensures ViewOf(d, n) == DotView(self, parent)
  {
    hide DotSector, Slots, Get;
    DotSlots(self, parent);
    var w := ViewOf(d, n);
    assert w[0] == Slots(Get(d, n.sectors[0]));
    forall i | 0 <= i < 12 ensures w[i] == DotView(self, parent)[i] {
    }
  }

  /** A new directory has no holes: as long as nothing is removed from it, entries are listed in the order in which they
      were made. */
  lemma NewHasNoHoles(self: Word, parent: Word)
    ensures NoHoles(DotView(self, parent))
  {
    var w := DotView(self, parent);
    forall j, m | LiveAt(w, j, m)
      ensures (forall i :: 0 <= i < j ==> !HasRoom(w[i])) && forall k :: 0 <= k < m ==> Live(w[j][k])
    {
      assert j == 0 && m <= 1;
    }
  }
}
