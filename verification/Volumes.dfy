/** Inodes, the places their block addresses are kept in, and who owns which block of a partition. */
module Volumes {
  import opened Sectors
  import opened BitRuns
  import opened Bitmap

  const BLOCK_SIZE := 512
  const DIRECT := 12
  const MAX_BLOCKS := 140
  /** The place of the indirect table itself, behind the places of the 140 data blocks. */
  const TABLE := 140

  /** `sectors[0..11]` are direct block addresses, `sectors[12]` is the indirect table or 0. */
  datatype INode = INode(no: nat, size: nat, sectors: seq<Word>)

  const FRESH_SECTORS: seq<Word> := [0, 0, 0, 0, 0, 0, 0, 0, 0, 0, 0, 0, 0]

  /** Address kept in place `i`: a data block for `i` below 140, the indirect table for 140; 0 if none. */
  function Place(d: Disk, n: INode, i: nat): Word
    requires |n.sectors| == 13 && i <= TABLE
  {
    if i < DIRECT then n.sectors[i]
    else if i == TABLE then n.sectors[12]
    else if n.sectors[12] == 0 then 0
    else TableWords(Get(d, n.sectors[12]))[i - DIRECT]
  }

  function Layout(d: Disk, n: INode): (l: seq<Word>)
    requires |n.sectors| == 13
    ensures |l| == 141
    ensures forall i :: 0 <= i <= TABLE ==> l[i] == Place(d, n, i)
  {
    seq(141, i requires 0 <= i < 141 => Place(d, n, i))
  }

  function Layouts(d: Disk, inodes: map<nat, INode>): (ls: map<nat, seq<Word>>)
    requires forall p :: p in inodes ==> |inodes[p].sectors| == 13
  {
    map p | p in inodes :: Layout(d, inodes[p])
  }

  /** Which inode and place each used address belongs to. */
  type Owner = map<nat, (nat, nat)>

  /** Every address kept anywhere is owned by exactly the place it is kept in, and every owned
      address is kept in the place that owns it. */
  ghost predicate Owns(ls: map<nat, seq<Word>>, owner: Owner) {
    && (forall p :: p in ls ==> |ls[p]| == 141)
    && (forall p, i :: p in ls && 0 <= i < 141 && ls[p][i] != 0 ==>
          ls[p][i] in owner && owner[ls[p][i]] == (p, i))
    && (forall l :: l in owner ==>
          l != 0 && owner[l].0 in ls && owner[l].1 < 141 && ls[owner[l].0][owner[l].1] == l)
  }

  /** The set bits of the block bitmap are exactly the owned addresses. */
  ghost predicate BitsMatch(bmap: seq<bool>, owner: Owner, start: nat) {
    && (forall l :: l in owner ==> start <= l < start + |bmap|)
    && (forall b :: 0 <= b < |bmap| ==> (bmap[b] <==> start + b in owner))
  }

  /** A partition: its disk, block and inode bitmaps, inodes, directories among them, and owners. */
  datatype Vol = Vol(disk: Disk, bmap: seq<bool>, ibits: seq<bool>, inodes: map<nat, INode>,
                     dirs: set<nat>, owner: Owner, start: nat)

  ghost predicate Sound(v: Vol) {
    && 0 < v.start && v.start + |v.bmap| <= 0x8000_0000
    && (forall p :: p in v.inodes ==> |v.inodes[p].sectors| == 13 && v.inodes[p].no == p)
    && Owns(Layouts(v.disk, v.inodes), v.owner)
    && BitsMatch(v.bmap, v.owner, v.start)
    && |v.ibits| <= 4096 && (forall p :: p in v.inodes ==> p < |v.ibits|)
    && (forall p :: 0 <= p < |v.ibits| ==> (v.ibits[p] <==> p in v.inodes))
    && v.dirs <= v.inodes.Keys
  }

  /** The same sizes, the same first data block, and before it the same sectors. */
  ghost predicate SamePlan(v: Vol, w: Vol) {
    && w.start == v.start && |w.bmap| == |v.bmap| && |w.ibits| == |v.ibits|
    && forall l: nat :: l < v.start ==> Get(w.disk, l) == Get(v.disk, l)
  }

  lemma PlanTrans(u: Vol, v: Vol, w: Vol)
    requires SamePlan(u, v) && SamePlan(v, w)
    ensures SamePlan(u, w)
  {
  }

  /** Inode `p` is live and keeps an address in place `i`. */
  ghost predicate Keeps(v: Vol, p: nat, i: nat) {
    p in v.inodes && |v.inodes[p].sectors| == 13 && i <= TABLE && Place(v.disk, v.inodes[p], i) != 0
  }

  ghost function At(v: Vol, p: nat, i: nat): Word
    requires Keeps(v, p, i)
  {
    Place(v.disk, v.inodes[p], i)
  }

  /** No two places of inodes keep the same address. */
  ghost predicate NothingShared(v: Vol) {
    forall p: nat, q: nat, i: nat, j: nat :: Keeps(v, p, i) && Keeps(v, q, j) && At(v, p, i) == At(v, q, j) ==> p == q && i == j
  }

  /** A bit of the block bitmap is set exactly when some inode keeps that block. */
  ghost predicate BitsExact(v: Vol) {
    forall b :: 0 <= b < |v.bmap| ==> (v.bmap[b] <==> exists p: nat, i: nat :: Keeps(v, p, i) && At(v, p, i) == v.start + b)
  }

  /** No block is shared, and the set bits are exactly the blocks in use. */
  lemma Ownership(v: Vol)
    requires Sound(v)
    ensures NothingShared(v) && BitsExact(v)
    ensures forall p: nat, i: nat :: Keeps(v, p, i) ==> v.start <= At(v, p, i) < v.start + |v.bmap|
  {
    var ls := Layouts(v.disk, v.inodes);
    forall p: nat, i: nat | Keeps(v, p, i) ensures At(v, p, i) in v.owner && v.owner[At(v, p, i)] == (p, i) {
      assert ls[p][i] == At(v, p, i);
    }
    forall b | 0 <= b < |v.bmap| && v.bmap[b]
      ensures exists p: nat, i: nat :: Keeps(v, p, i) && At(v, p, i) == v.start + b
    {
      var (p, i) := v.owner[v.start + b];
      assert ls[p][i] == At(v, p, i) && Keeps(v, p, i);
    }
  }

  function Put(l: seq<Word>, i: nat, w: Word): (r: seq<Word>)
    requires i < |l|
    ensures |r| == |l| && r[i] == w && forall k :: 0 <= k < |l| && k != i ==> r[k] == l[k]
  {
    l[i := w]
  }

  /** Recording a free address in an empty place. */
  lemma Claim(ls: map<nat, seq<Word>>, owner: Owner, p: nat, i: nat, l: Word)
    requires Owns(ls, owner) && p in ls && i < 141 && ls[p][i] == 0 && l !in owner && l != 0
    ensures Owns(ls[p := Put(ls[p], i, l)], owner[l := (p, i)])
  {
  }

  /** Forgetting the address in one place. */
  lemma Disclaim(ls: map<nat, seq<Word>>, owner: Owner, p: nat, i: nat)
    requires Owns(ls, owner) && p in ls && i < 141 && ls[p][i] != 0
    ensures Owns(ls[p := Put(ls[p], i, 0)], owner - {ls[p][i]})
  {
  }

  lemma ClaimBit(bmap: seq<bool>, owner: Owner, start: nat, b: nat, pi: (nat, nat))
    requires BitsMatch(bmap, owner, start) && b < |bmap|
    ensures BitsMatch(bmap[b := true], owner[start + b := pi], start)
  {
  }

  lemma DisclaimBit(bmap: seq<bool>, owner: Owner, start: nat, b: nat)
    requires BitsMatch(bmap, owner, start) && b < |bmap|
    ensures BitsMatch(bmap[b := false], owner - {start + b}, start)
  {
  }

  /** Writing sectors that are no inode's indirect table moves nobody's blocks. */
  lemma LayoutsKept(d: Disk, e: Disk, inodes: map<nat, INode>)
    requires forall p :: p in inodes ==> |inodes[p].sectors| == 13
    requires forall p :: p in inodes && inodes[p].sectors[12] != 0 ==>
               Get(e, inodes[p].sectors[12]) == Get(d, inodes[p].sectors[12])
    ensures Layouts(e, inodes) == Layouts(d, inodes)
  {
    forall p | p in inodes ensures Layout(e, inodes[p]) == Layout(d, inodes[p]) {
      forall i | 0 <= i <= TABLE ensures Place(e, inodes[p], i) == Place(d, inodes[p], i) {
      }
    }
  }

  lemma LayoutsUpdate(d: Disk, inodes: map<nat, INode>, ino: nat, n: INode)
    requires forall p :: p in inodes ==> |inodes[p].sectors| == 13
    requires |n.sectors| == 13
    ensures Layouts(d, inodes[ino := n]) == Layouts(d, inodes)[ino := Layout(d, n)]
  {
  }

  lemma TakeFree(bmap: seq<bool>, b: nat)
    requires b < |bmap| && !bmap[b]
    ensures |Free(bmap[b := true])| == |Free(bmap)| - 1
  {
    assert Free(bmap[b := true]) == Free(bmap) - {b};
  }

  /** The first free bit. */
  method FindClear(bmap: seq<bool>) returns (r: int)
    ensures IsFirstFit(bmap, 1, r)
    ensures r == -1 <==> Free(bmap) == {}
    ensures r != -1 ==> 0 <= r < |bmap| && !bmap[r]
  {
    r := FirstFit(bmap, 1);
    if r == -1 {
      forall i | 0 <= i < |bmap| ensures bmap[i] {
        assert !ClearRun(bmap, i, 1);
      }
    } else {
      assert r in Free(bmap);
    }
  }

  /** The mounted partition. `dirs` and `owner` are bookkeeping the kernel does not store. */
  class Volume {
    var disk: Disk
    var bmap: seq<bool>
    var ibits: seq<bool>
    var inodes: map<nat, INode>
    ghost var dirs: set<nat>
    ghost var owner: Owner
    const start: nat

    ghost function State(): Vol
      reads this
    {
      Vol(disk, bmap, ibits, inodes, dirs, owner, start)
    }

    constructor (disk: Disk, bmap: seq<bool>, ibits: seq<bool>, inodes: map<nat, INode>,
                 ghost dirs: set<nat>, ghost owner: Owner, start: nat)
      ensures State() == Vol(disk, bmap, ibits, inodes, dirs, owner, start)
    {
      this.disk, this.bmap, this.ibits, this.inodes := disk, bmap, ibits, inodes;
      this.dirs, this.owner, this.start := dirs, owner, start;
    }

    /** Takes the first free block, which the caller records in place `i` of inode `p`. */
    method BlockBitmapAlloc(ghost p: nat, ghost i: nat) returns (lba: int)
      requires BitsMatch(bmap, owner, start) && start + |bmap| <= 0x8000_0000
      modifies this`bmap, this`owner
      ensures lba == -1 <==> old(Free(bmap)) == {}
      ensures lba == -1 ==> unchanged(this)
      ensures lba != -1 ==>
        && start <= lba < start + |bmap| && |bmap| == |old(bmap)|
        && IsFirstFit(old(bmap), 1, lba - start)
        && bmap == old(bmap)[lba - start := true]
        && lba !in old(owner) && owner == old(owner)[lba := (p, i)]
        && BitsMatch(bmap, owner, start)
        && |Free(bmap)| == |old(Free(bmap))| - 1
        && (forall b :: 0 <= b < |bmap| && old(bmap)[b] ==> bmap[b])
    {
      var bitIdx := FindClear(bmap);
      if bitIdx == -1 {
        return -1;
      }
      TakeFree(bmap, bitIdx);
      ClaimBit(bmap, owner, start, bitIdx, (p, i));
      bmap := bmap[bitIdx := true];
      lba := start + bitIdx;
      owner := owner[lba := (p, i)];
    }

    /** Gives block `lba` back. */
    method BlockBitmapFree(lba: nat)
      requires BitsMatch(bmap, owner, start) && start <= lba < start + |bmap|
      modifies this`bmap, this`owner
      ensures BitsMatch(bmap, owner, start)
      ensures owner == old(owner) - {lba} && bmap == old(bmap)[lba - start := false]
    {
      DisclaimBit(bmap, owner, start, lba - start);
      bmap := bmap[lba - start := false];
      owner := owner - {lba};
    }
  }
}
