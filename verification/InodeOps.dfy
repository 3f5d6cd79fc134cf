/** Inodes come and go: what taking and releasing one does to a partition. */
module InodeStates {
  import opened Sectors
  import opened BitRuns
  import opened Volumes
  import opened FileIO
  import opened FileAppend

  /** The partition with a fresh inode `ino`. */
  ghost function AddInode(v: Vol, ino: nat): Vol
    requires ino < |v.ibits|
  {
    v.(ibits := v.ibits[ino := true], inodes := v.inodes[ino := INode(ino, 0, FRESH_SECTORS)])
  }

  /** The owners left when inode `ino` has given back its places below `n` and, if `table`, its table. */
  ghost function Dropped(owner: Owner, ino: nat, n: nat, table: bool): Owner {
    map l | l in owner && (owner[l].0 != ino || (if owner[l].1 == TABLE then !table else owner[l].1 >= n)) :: owner[l]
  }

  /** Inode `ino` is gone and so is all it owned; nothing else changed. */
  ghost predicate Released(v: Vol, w: Vol, ino: nat) {
    && ino < |v.ibits| && |w.bmap| == |v.bmap|
    && w == v.(bmap := w.bmap, owner := Dropped(v.owner, ino, MAX_BLOCKS, true), ibits := v.ibits[ino := false],
               inodes := v.inodes - {ino}, dirs := v.dirs - {ino})
    && BitsMatch(w.bmap, w.owner, w.start)
  }

  /** Inode `ino` does not keep the first data block, which is the root directory's. */
  ghost predicate NotFirst(v: Vol, ino: nat) {
    v.start in v.owner ==> v.owner[v.start].0 != ino
  }
}

/** Taking and releasing inodes. */
module InodeOps {
  import opened Sectors
  import opened BitRuns
  import opened Volumes
  import opened FileIO
  import opened FileAppend
  import opened Directories
  import opened InodeStates

  lemma FreshLayout(d: Disk, ino: nat)
    ensures forall i :: 0 <= i <= TABLE ==> Layout(d, INode(ino, 0, FRESH_SECTORS))[i] == 0
  {
  }

  /** An inode that keeps no address owns nothing. */
  lemma OwnsNothing(ls: map<nat, seq<Word>>, owner: Owner, ino: nat, l: seq<Word>)
    requires Owns(ls, owner) && ino !in ls && |l| == 141 && forall i :: 0 <= i <= TABLE ==> l[i] == 0
    ensures Owns(ls[ino := l], owner)
  {
  }

  lemma AddInodeSound(v: Vol, ino: nat)
    requires Sound(v) && ino < |v.ibits| && !v.ibits[ino]
    ensures ino !in v.inodes && Sound(AddInode(v, ino)) && (ino !in v.dirs)
  {
    hide BitsMatch, Owns, Place;
    var n := INode(ino, 0, FRESH_SECTORS);
    FreshLayout(v.disk, ino);
    OwnsNothing(Layouts(v.disk, v.inodes), v.owner, ino, Layout(v.disk, n));
    LayoutsUpdate(v.disk, v.inodes, ino, n);
  }

  lemma AddInodeFile(v: Vol, ino: nat)
    requires Sound(v) && ino < |v.ibits| && !v.ibits[ino]
    ensures IsFile(AddInode(v, ino), ino)
    ensures forall q :: q in v.inodes ==> Untouched(v, AddInode(v, ino), q)
  {
    var n := INode(ino, 0, FRESH_SECTORS);
    assert forall i :: 0 <= i <= TABLE ==> Place(v.disk, n, i) == 0;
    assert BlockShape(Layout(v.disk, n), 0);
  }

  /** Takes the first free inode number. */
  method InodeBitmapAlloc(vol: Volume) returns (ino: int)
    requires Sound(vol.State())
    modifies vol`ibits, vol`inodes
    ensures IsFirstFit(old(vol.ibits), 1, ino)
    ensures ino == -1 <==> old(Free(vol.ibits)) == {}
    ensures ino == -1 ==> vol.State() == old(vol.State())
    ensures ino != -1 ==>
      && 0 <= ino < |old(vol.ibits)| && !old(vol.ibits)[ino] && ino !in old(vol.inodes)
      && vol.State() == AddInode(old(vol.State()), ino)
  {
    ino := FindClear(vol.ibits);
    if ino != -1 {
      vol.ibits := vol.ibits[ino := true];
      vol.inodes := vol.inodes[ino := INode(ino, 0, FRESH_SECTORS)];
    }
  }

  /** The rollback of an allocation restores the partition. */
  lemma RollBack(v: Vol, ino: nat)
    requires Sound(v) && ino < |v.ibits| && !v.ibits[ino]
    ensures var u := AddInode(v, ino); u.(ibits := u.ibits[ino := false], inodes := u.inodes - {ino}) == v
  {
    var u := AddInode(v, ino);
    assert u.ibits[ino := false] == v.ibits;
    assert u.inodes - {ino} == v.inodes;
  }

  lemma DroppedNone(v: Vol, ino: nat)
    ensures Dropped(v.owner, ino, 0, false) == v.owner
  {
  }

  /** Giving back place `n`, if it keeps an address. */
  lemma DroppedStep(v: Vol, ino: nat, n: nat, table: bool, l: Word)
    requires Sound(v) && ino in v.inodes && n < MAX_BLOCKS && l == Place(v.disk, v.inodes[ino], n)
    ensures Dropped(v.owner, ino, n + 1, table) == Dropped(v.owner, ino, n, table) - (if l == 0 then {} else {l})
    ensures l != 0 ==> l in v.owner && v.owner[l] == (ino, n) && v.start <= l < v.start + |v.bmap|
  {
    hide Place;
    var ls := Layouts(v.disk, v.inodes);
    assert ls[ino][n] == l;
  }

  lemma DroppedTable(v: Vol, ino: nat, l: Word)
    requires Sound(v) && ino in v.inodes && l == v.inodes[ino].sectors[12]
    ensures Dropped(v.owner, ino, 0, true) == Dropped(v.owner, ino, 0, false) - (if l == 0 then {} else {l})
    ensures l != 0 ==> l in v.owner && v.owner[l] == (ino, TABLE) && v.start <= l < v.start + |v.bmap|
  {
    var ls := Layouts(v.disk, v.inodes);
    assert ls[ino][TABLE] == l;
  }

  /** Without a table there is nothing behind the direct places. */
  lemma DroppedDirect(v: Vol, ino: nat, n: nat)
    requires Sound(v) && ino in v.inodes && v.inodes[ino].sectors[12] == 0 && DIRECT <= n <= MAX_BLOCKS
    ensures Dropped(v.owner, ino, n, true) == Dropped(v.owner, ino, MAX_BLOCKS, true)
    decreases MAX_BLOCKS - n
  {
    if n < MAX_BLOCKS {
      DroppedStep(v, ino, n, true, 0);
      DroppedDirect(v, ino, n + 1);
    }
  }

  /** What other inodes own stays theirs. */
  lemma DroppedOwns(ls: map<nat, seq<Word>>, owner: Owner, ino: nat)
    requires Owns(ls, owner) && ino in ls
    ensures Owns(ls - {ino}, Dropped(owner, ino, MAX_BLOCKS, true))
  {
  }

  lemma ReleasedSound(v: Vol, w: Vol, ino: nat)
    requires Sound(v) && ino in v.inodes && Released(v, w, ino)
    ensures Sound(w)
    ensures forall q :: q in v.inodes && q != ino ==> Untouched(v, w, q)
  {
    hide Place, BitsMatch, Owns, Dropped;
    var ls := Layouts(v.disk, v.inodes);
    DroppedOwns(ls, v.owner, ino);
    assert Layouts(w.disk, w.inodes) == ls - {ino};
  }

  lemma SoundParts(v: Vol, ino: nat)
    requires Sound(v) && ino in v.inodes
    ensures BitsMatch(v.bmap, v.owner, v.start) && |v.inodes[ino].sectors| == 13 && ino < |v.ibits|
  {
  }

  /** Frees every block of an inode, its indirect table and the inode itself. */
  method InodeRelease(vol: Volume, ino: nat)
    requires Sound(vol.State()) && ino in vol.inodes && NotFirst(vol.State(), ino)
    modifies vol
    ensures Released(old(vol.State()), vol.State(), ino)
  {
    hide Sound, BitsMatch, Dropped, Place;
    ghost var v := vol.State();
    SoundParts(v, ino);
    var n := vol.inodes[ino];
    var blocks := AllBlocks(vol.disk, n);
    var count := DIRECT;
    DroppedNone(v, ino);
    DroppedTable(v, ino, n.sectors[12]);
    if n.sectors[12] != 0 {
      count := MAX_BLOCKS;
      assert n.sectors[12] - vol.start > 0;
      vol.BlockBitmapFree(n.sectors[12]);
    }
    var i := 0;
    while i < count
      invariant 0 <= i <= count <= MAX_BLOCKS
      invariant BitsMatch(vol.bmap, vol.owner, vol.start) && |vol.bmap| == |v.bmap|
      invariant vol.owner == Dropped(v.owner, ino, i, true)
      invariant vol.State() == v.(bmap := vol.bmap, owner := vol.owner)
    {
      DroppedStep(v, ino, i, true, blocks[i]);
      if blocks[i] != 0 {
        assert blocks[i] - vol.start > 0;
        vol.BlockBitmapFree(blocks[i]);
      }
      i := i + 1;
    }
    if count == DIRECT {
      DroppedDirect(v, ino, DIRECT);
    }
    vol.ibits := vol.ibits[ino := false];
    vol.inodes := vol.inodes - {ino};
    vol.dirs := vol.dirs - {ino};
  }
}
