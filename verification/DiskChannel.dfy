/** One disk channel: commands, interrupts, and the semaphore between them. */
module ChannelStates {
  /** The thread that holds the channel's lock: between commands, after a command was sent, asleep on
      the semaphore, or woken and about to test it again. */
  datatype Pc = Between | Sent | Asleep | Woken

  /** The last three fields are bookkeeping: commands sent, completions signalled, completions consumed. */
  datatype Channel = Channel(expecting: bool, done: nat, pc: Pc, sent: nat, ups: nat, downs: nat)

  /** Never both expecting an interrupt and holding a completion; a command in flight is one or the
      other; and a sleeper can rely on the interrupt still to come. */
  ghost predicate Inv(c: Channel) {
    && c.done <= 1 && !(c.expecting && c.done == 1)
    && (c.pc == Between <==> !c.expecting && c.done == 0)
    && (c.pc == Asleep ==> c.expecting) && (c.pc == Woken ==> c.done == 1)
    && c.sent == c.ups + (if c.expecting then 1 else 0) && c.ups == c.downs + c.done
  }

  datatype Act = Send | Interrupt | Down

  predicate Enabled(c: Channel, a: Act) {
    match a
    case Send => c.pc == Between
    case Interrupt => true
    case Down => c.pc == Sent || c.pc == Woken
  }

  /** What the code checks when it raises or lowers the semaphore. */
  predicate Check(c: Channel, a: Act) {
    match a
    case Interrupt => c.expecting ==> c.done == 0
    case Down => c.done != 0 ==> c.done - 1 == 0
    case Send => true
  }

  function Do(c: Channel, a: Act): Channel
    requires Enabled(c, a)
  {
    match a
    case Send => c.(expecting := true, pc := Sent, sent := c.sent + 1)
    case Interrupt =>
      if !c.expecting then c
      else c.(expecting := false, done := c.done + 1, ups := c.ups + 1, pc := if c.pc == Asleep then Woken else c.pc)
    case Down =>
      if c.done == 0 then c.(pc := Asleep) else c.(done := c.done - 1, downs := c.downs + 1, pc := Between)
  }

  ghost predicate Run(cs: seq<Channel>, acts: seq<Act>) {
    && |cs| == |acts| + 1 && cs[0] == Channel(false, 0, Between, 0, 0, 0)
    && forall i :: 0 <= i < |acts| ==> Enabled(cs[i], acts[i]) && cs[i + 1] == Do(cs[i], acts[i])
  }
}

/** What the channel protocol keeps. */
module ChannelProofs {
  import opened ChannelStates

  /** Interrupts may come at any time and any number of times: every step keeps the protocol. */
  lemma {:induction false} RunInv(cs: seq<Channel>, acts: seq<Act>, i: nat)
    requires Run(cs, acts) && i <= |acts|
    ensures Inv(cs[i])
  {
    if i > 0 {
      RunInv(cs, acts, i - 1);
      var j := i - 1;
      assert cs[j + 1] == Do(cs[j], acts[j]);
    }
  }

  /** No check fails, no completion is left over or lost, and whoever sleeps will be woken. */
  lemma Protocol(cs: seq<Channel>, acts: seq<Act>, i: nat)
    requires Run(cs, acts) && i <= |acts|
    ensures !(cs[i].expecting && cs[i].done == 1)
    ensures i < |acts| ==> Check(cs[i], acts[i])
    ensures cs[i].pc == Between ==> cs[i].sent == cs[i].ups == cs[i].downs
    ensures cs[i].pc == Asleep ==> Do(cs[i], Interrupt).pc == Woken && Do(Do(cs[i], Interrupt), Down).pc == Between
  {
    RunInv(cs, acts, i);
  }
}

/** Transfers of any number of sectors in chunks of at most 256. */
module Transfers {
  import opened Sectors

  /** The sectors from `lba` on, one after the other. */
  function SectorsAt(d: Disk, lba: nat, n: nat): (s: seq<Byte>)
    ensures |s| == SECTOR_SIZE * n
  {
    if n == 0 then [] else SectorsAt(d, lba, n - 1) + Get(d, lba + n - 1)
  }

  /** The count register is eight bits wide; the device takes 0 for 256. */
  function Count8(n: nat): nat {
    n % 0x100
  }

  function SectorCount(reg: nat): nat {
    if reg == 0 then 0x100 else reg
  }

  /** Whatever chunk the loop chooses, the register means that chunk. */
  lemma CountMeans(n: nat)
    requires 1 <= n <= 0x100
    ensures SectorCount(Count8(n)) == n
  {
  }

  lemma {:induction false} SectorsJoin(d: Disk, lba: nat, n: nat, m: nat)
    ensures SectorsAt(d, lba, n + m) == SectorsAt(d, lba, n) + SectorsAt(d, lba + n, m)
    decreases m
  {
    if m > 0 {
      SectorsJoin(d, lba, n, m - 1);
    }
  }

  function Chunk(done: nat, count: nat): (n: nat)
    requires done < count
    ensures 1 <= n <= 0x100 && done + n <= count && (n < 0x100 ==> done + n == count)
  {
    if done + 0x100 <= count then 0x100 else count - done
  }

  /** Reads `count` sectors: each exactly once and in order. */
  method IdeRead(d: Disk, lba: nat, count: nat) returns (buf: seq<Byte>)
    requires count > 0
    ensures buf == SectorsAt(d, lba, count)
  {
    buf := [];
    var done := 0;
    while done < count
      invariant 0 <= done <= count && buf == SectorsAt(d, lba, done)
    {
      var op := Chunk(done, count);
      CountMeans(op);
      SectorsJoin(d, lba, done, op);
      buf := buf + SectorsAt(d, lba + done, SectorCount(Count8(op)));
      done := done + op;
    }
  }

  /** The disk after `n` sectors from `lba` on were overwritten with `buf`. */
  function Overwritten(d: Disk, lba: nat, n: nat, buf: seq<Byte>): Disk
    requires |buf| >= SECTOR_SIZE * n
  {
    if n == 0 then d else Overwritten(d, lba, n - 1, buf)[lba + n - 1 := buf[SECTOR_SIZE * (n - 1)..SECTOR_SIZE * n]]
  }

  /** Sector `l` after `n` sectors from `lba` on were overwritten. */
  function SectorAfter(d: Disk, lba: nat, n: nat, buf: seq<Byte>, l: nat): seq<Byte>
    requires |buf| >= SECTOR_SIZE * n
  {
    if lba <= l < lba + n then buf[SECTOR_SIZE * (l - lba)..SECTOR_SIZE * (l - lba) + SECTOR_SIZE] else Get(d, l)
  }

  lemma {:induction false} OverwrittenAt(d: Disk, lba: nat, n: nat, buf: seq<Byte>, l: nat)
    requires |buf| >= SECTOR_SIZE * n
    ensures Get(Overwritten(d, lba, n, buf), l) == SectorAfter(d, lba, n, buf, l)
  {
    if n > 0 {
      OverwrittenAt(d, lba, n - 1, buf, l);
    }
  }

  lemma {:induction false} OverwrittenJoin(d: Disk, lba: nat, n: nat, m: nat, buf: seq<Byte>)
    requires |buf| >= SECTOR_SIZE * (n + m)
    ensures Overwritten(d, lba, n + m, buf) == Overwritten(Overwritten(d, lba, n, buf), lba + n, m, buf[SECTOR_SIZE * n..])
    decreases m
  {
    if m > 0 {
      OverwrittenJoin(d, lba, n, m - 1, buf);
      assert buf[SECTOR_SIZE * n..][SECTOR_SIZE * (m - 1)..SECTOR_SIZE * m] == buf[SECTOR_SIZE * (n + m - 1)..SECTOR_SIZE * (n + m)];
    }
  }

  /** Writes `count` sectors from `buf`. */
  method IdeWrite(d: Disk, lba: nat, buf: seq<Byte>, count: nat) returns (e: Disk)
    requires count > 0 && |buf| == SECTOR_SIZE * count
    ensures e == Overwritten(d, lba, count, buf)
    ensures forall l: nat :: Get(e, l) == SectorAfter(d, lba, count, buf, l)
  {
    e := d;
    var done := 0;
    while done < count
      invariant 0 <= done <= count && e == Overwritten(d, lba, done, buf)
    {
      var op := Chunk(done, count);
      CountMeans(op);
      OverwrittenJoin(d, lba, done, op, buf);
      e := Overwritten(e, lba + done, SectorCount(Count8(op)), buf[SECTOR_SIZE * done..]);
      done := done + op;
    }
    forall l: nat ensures Get(e, l) == SectorAfter(d, lba, count, buf, l) {
      OverwrittenAt(d, lba, count, buf, l);
    }
  }

  /** What was written is read back, whatever the number of sectors. */
  lemma {:induction false} WriteThenRead(d: Disk, lba: nat, n: nat, buf: seq<Byte>)
    requires |buf| >= SECTOR_SIZE * n
    ensures SectorsAt(Overwritten(d, lba, n, buf), lba, n) == buf[..SECTOR_SIZE * n]
  {
    if n > 0 {
      WriteThenRead(d, lba, n - 1, buf);
      var e := Overwritten(d, lba, n - 1, buf);
      SameSectors(e, Overwritten(d, lba, n, buf), lba, n - 1);
    }
  }

  lemma {:induction false} SameSectors(d: Disk, e: Disk, lba: nat, n: nat)
    requires forall l: nat :: lba <= l < lba + n ==> Get(e, l) == Get(d, l)
    ensures SectorsAt(e, lba, n) == SectorsAt(d, lba, n)
  {
    if n > 0 {
      SameSectors(d, e, lba, n - 1);
    }
  }
}
