/** Runs of the scheduler. */
module SchedRuns {
  import opened Queues
  import opened SchedStates
  import opened SchedProofs

  datatype Step = Tick | Block(why: Status) | Wait(queue: nat) | Wake(queue: nat) | Unblock(thread: nat) | Yield
                | Start(thread: nat, prio: nat) | Reap(thread: nat)

  /** What the kernel does: a thread blocks in a queue (`Wait`) or outside all of them, as a reader of
      an empty input buffer does (`Block`); only threads outside all queues are woken directly, and
      only hanging ones are reaped. */
  ghost predicate Enabled(s: Sched, a: Step) {
    match a
    case Tick => s.running in s.ticks && s.running in s.priority
    case Block(why) => why == Blocked || (s.running != s.idle && (why == Waiting || why == Hanging))
    case Wait(q) => q in s.waiters && s.running != s.idle
    case Wake(q) => q in s.waiters && s.waiters[q] != []
    case Unblock(t) => t in s.status && t != s.idle && Asleep(s.status[t]) && InNoQueue(s, t)
    case Yield => true
    case Start(t, prio) => t !in s.status
    case Reap(t) => t in s.status && t != s.idle && t != s.running && s.status[t] == Hanging
  }

  ghost function Apply(s: Sched, a: Step): Sched
    requires Enabled(s, a)
  {
    match a
    case Tick => Ticked(s)
    case Block(why) => BlockedOn(s, why)
    case Wait(q) => BlockedOn(Queued(s, q), Blocked)
    case Wake(q) => Woken(s, q)
    case Unblock(t) => Unblocked(s, t)
    case Yield => Yielded(s)
    case Start(t, prio) => Started(s, t, prio)
    case Reap(t) => Reaped(s, t)
  }

  lemma StepInv(s: Sched, a: Step)
    requires Inv(s) && Enabled(s, a)
    ensures Inv(Apply(s, a))
  {
    hide Inv, Ticked, BlockedOn, Queued, Woken, Unblocked, Yielded, Started, Reaped;
    match a
    case Tick => TickInv(s);
    case Block(why) => BlockInv(s, why);
    case Wait(q) => QueueInv(s, q);
    case Wake(q) => WakeInv(s, q);
    case Unblock(t) => UnblockInv(s, t);
    case Yield => YieldInv(s);
    case Start(t, prio) => StartInv(s, t, prio);
    case Reap(t) => ReapInv(s, t);
  }

  ghost predicate StepOf(s: Sched, w: Sched, a: Step) {
    Enabled(s, a) && w == Apply(s, a)
  }

  /** `ss` are the states before, between and after the steps. */
  ghost predicate Run(ss: seq<Sched>, steps: seq<Step>) {
    |ss| == |steps| + 1 && Inv(ss[0]) && forall i :: 0 <= i < |steps| ==> StepOf(ss[i], ss[i + 1], steps[i])
  }

  /** Every state of a run satisfies the invariant. */
  lemma {:induction false} RunInv(ss: seq<Sched>, steps: seq<Step>, i: nat)
    requires Run(ss, steps) && i <= |steps|
    ensures Inv(ss[i])
  {
    hide Inv, Enabled, Apply;
    if i > 0 {
      RunInv(ss, steps, i - 1);
      var j := i - 1;
      assert StepOf(ss[j], ss[j + 1], steps[j]);
      StepInv(ss[j], steps[j]);
    }
  }

  /** The state the kernel starts in: the main thread runs, the first process and the idle thread are ready. */
  lemma BootInv(main: nat, idle: nat, first: nat, queues: map<nat, seq<nat>>)
    requires main != idle && main != first && idle != first && forall q :: q in queues ==> queues[q] == []
    ensures
      var prio: map<nat, nat> := map[first := 31, main := 31, idle := 10];
      Inv(Sched(main, idle, [first, main, idle], [first, idle], queues, map[first := Ready, main := Running, idle := Ready], prio, prio))
  {
    var prio: map<nat, nat> := map[first := 31, main := 31, idle := 10];
    var s := Sched(main, idle, [first, main, idle], [first, idle], queues, map[first := Ready, main := Running, idle := Ready], prio, prio);
    forall q, t ensures WaiterOk(s, q, t) {
    }
    assert s.status.Keys == {first, main, idle} == prio.Keys;
  }

  // ---- how long a ready thread waits ----

  /** Calls of the scheduler in one step. */
  ghost function Calls(s: Sched, a: Step): nat
  {
    match a
    case Tick => if s.running in s.ticks && s.ticks[s.running] == 0 then 1 else 0
    case Block(_) => 1
    case Wait(_) => 1
    case Yield => 1
    case _ => 0
  }

  /** Threads put at the front of the ready list in one step. */
  ghost function Jumps(a: Step): nat {
    if a.Wake? || a.Unblock? then 1 else 0
  }

  function IndexOf(l: seq<nat>, t: nat): (k: nat)
    ensures k <= |l| && (k < |l| ==> l[k] == t) && forall j :: 0 <= j < k ==> l[j] != t
  {
    if l == [] || l[0] == t then 0 else 1 + IndexOf(l[1..], t)
  }

  lemma {:induction false} IndexIs(l: seq<nat>, t: nat, k: nat)
    requires k < |l| && l[k] == t && forall j :: 0 <= j < k ==> l[j] != t
    ensures IndexOf(l, t) == k
  {
    if k > 0 {
      IndexIs(l[1..], t, k - 1);
    }
  }

  /** Scheduling moves a ready thread up by one, unless it is its turn. */
  lemma DispatchMoves(s: Sched, t: nat)
    requires t in s.ready && NoTwice(s.ready)
    ensures var w := Dispatched(s);
      if IndexOf(s.ready, t) == 0 then w.running == t else t in w.ready && IndexOf(w.ready, t) == IndexOf(s.ready, t) - 1
  {
    hide NoTwice;
    var k, w := IndexOf(s.ready, t), Dispatched(s);
    if k > 0 {
      assert w.ready[k - 1] == t;
      IndexIs(w.ready, t, k - 1);
    }
  }

  lemma AppendKeeps(l: seq<nat>, u: nat, t: nat)
    requires t in l
    ensures IndexOf(l + [u], t) == IndexOf(l, t) && IndexOf([u] + l, t) == if u == t then 0 else IndexOf(l, t) + 1
  {
    var k := IndexOf(l, t);
    IndexIs(l + [u], t, k);
    if u != t {
      IndexIs([u] + l, t, k + 1);
    }
  }

  /** In one step a ready thread is dispatched or keeps account of calls and jumps. */
  ghost predicate Moved(s: Sched, w: Sched, t: nat, calls: nat, jumps: nat) {
    w.running == t || (t in w.ready && IndexOf(w.ready, t) + calls == IndexOf(s.ready, t) + jumps)
  }

  lemma TickMoves(s: Sched, t: nat)
    requires Inv(s) && t in s.ready
    ensures Moved(s, Ticked(s), t, Calls(s, Tick), 0)
  {
    hide QueuesOk, IdleOk, OneRuns, NoTwice, Dispatched, IndexOf;
    if s.ticks[s.running] == 0 {
      RequeueStops(s);
      AppendKeeps(s.ready, s.running, t);
      DispatchMoves(Requeued(s), t);
    }
  }

  lemma BlockMoves(s: Sched, why: Status, t: nat)
    requires NoTwice(s.ready) && t in s.ready
    ensures Moved(s, BlockedOn(s, why), t, 1, 0)
  {
    hide Dispatched, IndexOf;
    DispatchMoves(Stopped(s, why), t);
  }

  lemma JumpMoves(s: Sched, u: nat, t: nat)
    requires u !in s.ready && t in s.ready
    ensures Moved(s, Unblocked(s, u), t, 0, 1)
  {
    hide IndexOf;
    AppendKeeps(s.ready, u, t);
  }

  lemma StartMoves(s: Sched, u: nat, prio: nat, t: nat)
    requires t in s.ready
    ensures Moved(s, Started(s, u, prio), t, 0, 0)
  {
    hide IndexOf;
    AppendKeeps(s.ready, u, t);
  }

  lemma StepMoves(s: Sched, a: Step, t: nat)
    requires Inv(s) && Enabled(s, a) && t in s.ready
    ensures Moved(s, Apply(s, a), t, Calls(s, a), Jumps(a))
  {
    hide QueuesOk, IdleOk, OneRuns, NoTwice, Listed, Dispatched, IndexOf, Ticked, Unblocked, Started, Yielded,
      BlockedOn;
    match a
    case Tick =>
      TickMoves(s, t);
    case Block(why) =>
      BlockMoves(s, why, t);
    case Wait(q) =>
      BlockMoves(Queued(s, q), Blocked, t);
    case Wake(q) =>
      WokenQueuesHead(s, q);
      JumpMoves(s.(waiters := s.waiters[q := s.waiters[q][1..]]), s.waiters[q][0], t);
    case Unblock(u) =>
      JumpMoves(s, u, t);
    case Yield =>
      YieldMoves(s, t);
    case Start(u, prio) =>
      StartMoves(s, u, prio, t);
    case Reap(u) =>
      WithoutNone(s.ready, u);
  }

  lemma WokenQueuesHead(s: Sched, q: nat)
    requires QueuesOk(s) && q in s.waiters && s.waiters[q] != []
    ensures s.waiters[q][0] in s.status && s.status[s.waiters[q][0]] == Blocked
  {
    WokenQueues(s, q);
  }

  lemma YieldMoves(s: Sched, t: nat)
    requires Inv(s) && t in s.ready
    ensures Moved(s, Yielded(s), t, 1, 0)
  {
    hide QueuesOk, IdleOk, Dispatched, NoTwice;
    AppendKeeps(s.ready, s.running, t);
    Enqueued(s.ready, s.running);
    DispatchMoves(s.(ready := s.ready + [s.running], status := s.status[s.running := Ready]), t);
  }

  ghost function TotalCalls(ss: seq<Sched>, steps: seq<Step>, i: nat): nat
    requires i <= |steps| < |ss|
  {
    if i == 0 then 0 else TotalCalls(ss, steps, i - 1) + Calls(ss[i - 1], steps[i - 1])
  }

  ghost function TotalJumps(steps: seq<Step>, i: nat): nat
    requires i <= |steps|
  {
    if i == 0 then 0 else TotalJumps(steps, i - 1) + Jumps(steps[i - 1])
  }

  /** A thread that has not been dispatched has moved up by the calls less the jumps. */
  lemma {:induction false} NotYetDispatched(ss: seq<Sched>, steps: seq<Step>, t: nat, i: nat)
    requires Run(ss, steps) && t in ss[0].ready && i <= |steps| && forall j :: 0 <= j <= i ==> ss[j].running != t
    ensures t in ss[i].ready
    ensures IndexOf(ss[i].ready, t) + TotalCalls(ss, steps, i) == IndexOf(ss[0].ready, t) + TotalJumps(steps, i)
  {
    hide Inv, Enabled, Apply, IndexOf, Calls;
    if i > 0 {
      NotYetDispatched(ss, steps, t, i - 1);
      RunInv(ss, steps, i - 1);
      var j := i - 1;
      assert StepOf(ss[j], ss[j + 1], steps[j]);
      StepMoves(ss[j], steps[j], t);
    }
  }

  /** A ready thread at position `k` runs before the calls of the scheduler exceed `k` plus the
      threads that jumped the queue. */
  lemma DispatchBound(ss: seq<Sched>, steps: seq<Step>, t: nat, i: nat)
    requires Run(ss, steps) && t in ss[0].ready && i <= |steps|
    requires TotalCalls(ss, steps, i) > IndexOf(ss[0].ready, t) + TotalJumps(steps, i)
    ensures exists j :: 0 <= j <= i && ss[j].running == t
  {
    hide Inv, IndexOf, Enabled, Apply;
    if forall j :: 0 <= j <= i ==> ss[j].running != t {
      NotYetDispatched(ss, steps, t, i);
    }
  }

  // ---- time slices ----

  /** `n` timer interrupts in a row. */
  ghost function Ticks(s: Sched, n: nat): (r: Sched)
    requires Inv(s)
    ensures Inv(r)
  {
    if n == 0 then s else
      var r := Ticks(s, n - 1);
      TickInv(r);
      Ticked(r)
  }

  lemma TicksStep(s: Sched, n: nat)
    requires Inv(s)
    ensures Ticks(s, n) == if n == 0 then s else Ticked(Ticks(s, n - 1))
  {
    hide Inv, Ticked;
  }

  lemma {:induction false} SliceRuns(s: Sched, n: nat)
    requires Inv(s) && n <= s.ticks[s.running]
    ensures Ticks(s, n) == s.(ticks := s.ticks[s.running := s.ticks[s.running] - n])
  {
    hide OneRuns, ReadyExact, QueuesOk, IdleOk, NoTwice, Preempted, Ticks;
    TicksStep(s, n);
    if n > 0 {
      SliceRuns(s, n - 1);
    }
  }

  /** The running thread keeps the processor for as many ticks as it has left, and no longer; it then
      goes behind all others with a full slice. */
  lemma SliceEnds(s: Sched)
    requires Inv(s)
    ensures
      var t := s.running;
      var r := Ticks(s, s.ticks[t] + 1);
      && t in r.ticks && r.ticks[t] == s.priority[t]
      && (if s.ready == [] then r.running == t else r.running == s.ready[0] && r.ready == s.ready[1..] + [t])
  {
    hide OneRuns, ReadyExact, QueuesOk, IdleOk;
    SliceRuns(s, s.ticks[s.running]);
  }

  // ---- whose ticks are used ----

  /** Timer interrupts between states `i` and `j` that find `t` running. */
  ghost function RanTicks(ss: seq<Sched>, steps: seq<Step>, t: nat, i: nat, j: nat): nat
    requires i <= j <= |steps| < |ss|
  {
    if i == j then 0 else RanTicks(ss, steps, t, i, j - 1) + if steps[j - 1].Tick? && ss[j - 1].running == t then 1 else 0
  }

  /** Ticks granted to `t` in between: a full slice and the interrupt that ends it, whenever one does. */
  ghost function Granted(ss: seq<Sched>, steps: seq<Step>, t: nat, i: nat, j: nat): nat
    requires i <= j <= |steps| < |ss|
  {
    if i == j then 0
    else
      var s := ss[j - 1];
      Granted(ss, steps, t, i, j - 1) +
      if steps[j - 1].Tick? && s.running == t && t in s.ticks && t in s.priority && s.ticks[t] == 0 then s.priority[t] + 1 else 0
  }

  ghost predicate AliveFrom(ss: seq<Sched>, i: nat, j: nat, t: nat) {
    forall m: nat :: i <= m <= j ==> m < |ss| && t in ss[m].status
  }

  lemma StepTicks(s: Sched, a: Step, t: nat)
    requires Inv(s) && Enabled(s, a) && t in s.status && t in Apply(s, a).status
    ensures
      var w := Apply(s, a);
      && t in s.ticks && t in w.ticks && t in s.priority && t in w.priority && w.priority[t] == s.priority[t]
      && w.ticks[t] + (if a.Tick? && s.running == t then 1 else 0)
         == s.ticks[t] + (if a.Tick? && s.running == t && s.ticks[t] == 0 then s.priority[t] + 1 else 0)
  {
    hide ReadyExact, QueuesOk, IdleOk, Without;
  }

  /** Over any part of any run in which a thread lives: the ticks it has left are those it had, less the interrupts
      that found it running, and more what was granted when a slice ended. Nothing else uses or gives ticks. */
  lemma {:induction false} TicksAccount(ss: seq<Sched>, steps: seq<Step>, i: nat, j: nat, t: nat)
    requires Run(ss, steps) && i <= j <= |steps| && AliveFrom(ss, i, j, t)
    ensures t in ss[i].ticks && t in ss[j].ticks && t in ss[i].priority && t in ss[j].priority && ss[j].priority[t] == ss[i].priority[t]
    ensures ss[j].ticks[t] + RanTicks(ss, steps, t, i, j) == ss[i].ticks[t] + Granted(ss, steps, t, i, j)
    decreases j
  {
    hide Enabled, Apply, OneRuns, ReadyExact, QueuesOk, IdleOk, NoTwice;
    RunInv(ss, steps, j);
    assert t in ss[j].status;
    if i < j {
      var h := j - 1;
      TicksAccount(ss, steps, i, h, t);
      RunInv(ss, steps, h);
      assert StepOf(ss[h], ss[j], steps[h]) && t in ss[h].status;
      StepTicks(ss[h], steps[h], t);
    }
  }

  /** A new thread goes to the end of both lists with a full slice. */
  lemma StartsLast(ss: seq<Sched>, steps: seq<Step>, i: nat, t: nat, prio: nat)
    requires Run(ss, steps) && i < |steps| && steps[i] == Start(t, prio)
    ensures ss[i + 1].ready == ss[i].ready + [t] && ss[i + 1].all == ss[i].all + [t]
    ensures t in ss[i + 1].ticks && ss[i + 1].ticks[t] == prio && t in ss[i + 1].priority && ss[i + 1].priority[t] == prio
  {
    hide Inv;
    assert StepOf(ss[i], ss[i + 1], steps[i]);
  }

  /** Its first slice is as long as its priority. */
  lemma {:induction false} FirstSlice(ss: seq<Sched>, steps: seq<Step>, i: nat, j: nat, t: nat, prio: nat)
    requires Run(ss, steps) && i < j <= |steps| && steps[i] == Start(t, prio) && AliveFrom(ss, i + 1, j, t)
    requires RanTicks(ss, steps, t, i + 1, j) <= prio
    ensures t in ss[j].ticks && ss[j].ticks[t] == prio - RanTicks(ss, steps, t, i + 1, j)
    decreases j
  {
    hide Inv, StepOf;
    StartsLast(ss, steps, i, t, prio);
    if i + 1 < j {
      var h := j - 1;
      FirstSlice(ss, steps, i, h, t, prio);
      assert AliveFrom(ss, h, j, t);
      TicksAccount(ss, steps, h, j, t);
      assert RanTicks(ss, steps, t, h, h) == 0 && Granted(ss, steps, t, h, h) == 0;
    }
  }

  // ---- queues are first in, first out ----

  ghost predicate QueuedAt(s: Sched, q: nat, t: nat, p: nat) {
    q in s.waiters && p < |s.waiters[q]| && s.waiters[q][p] == t
  }

  /** How often queue `q` is woken between states `i` and `j`. */
  ghost function Wakes(steps: seq<Step>, q: nat, i: nat, j: nat): nat
    requires i <= j <= |steps|
  {
    if i == j then 0 else Wakes(steps, q, i, j - 1) + if steps[j - 1] == Wake(q) then 1 else 0
  }

  /** Only waking moves a waiter up, and wakes it to the front of the ready list if it is the first; a thread that
      begins to wait joins at the end. */
  lemma StepQueue(s: Sched, a: Step, q: nat, t: nat, p: nat)
    requires Inv(s) && Enabled(s, a) && QueuedAt(s, q, t, p)
    ensures
      var w := Apply(s, a);
      && (a != Wake(q) ==> QueuedAt(w, q, t, p)) && (a == Wake(q) && p > 0 ==> QueuedAt(w, q, t, p - 1))
      && (a == Wake(q) && p == 0 ==> w.ready == [t] + s.ready && t in w.status && w.status[t] == Ready)
      && (a == Wait(q) ==> q in w.waiters && w.waiters[q] == s.waiters[q] + [s.running])
  {
    hide ReadyExact, IdleOk, OneRuns, Listed, Without, NoTwice;
  }

  /** A waiter with `p` others before it waits exactly as long as the queue has been woken at most `p` times, and is
      then `p` less those from the front. */
  lemma {:induction false} WaitsInTurn(ss: seq<Sched>, steps: seq<Step>, i: nat, j: nat, q: nat, t: nat, p: nat)
    requires Run(ss, steps) && i <= j <= |steps| && QueuedAt(ss[i], q, t, p) && Wakes(steps, q, i, j) <= p
    ensures QueuedAt(ss[j], q, t, p - Wakes(steps, q, i, j))
    decreases j
  {
    hide Inv, Enabled, Apply, QueuedAt;
    if i < j {
      var h := j - 1;
      WaitsInTurn(ss, steps, i, h, q, t, p);
      RunInv(ss, steps, h);
      assert StepOf(ss[h], ss[j], steps[h]);
      StepQueue(ss[h], steps[h], q, t, p - Wakes(steps, q, i, h));
    }
  }

  /** The wake-up after `p` others wakes it, to the front of the ready list. */
  lemma TurnComes(ss: seq<Sched>, steps: seq<Step>, i: nat, j: nat, q: nat, t: nat, p: nat)
    requires Run(ss, steps) && i <= j < |steps| && QueuedAt(ss[i], q, t, p) && Wakes(steps, q, i, j) == p && steps[j] == Wake(q)
    ensures ss[j + 1].ready == [t] + ss[j].ready && t in ss[j + 1].status && ss[j + 1].status[t] == Ready
  {
    hide Inv, Enabled, Apply, QueuedAt;
    WaitsInTurn(ss, steps, i, j, q, t, p);
    RunInv(ss, steps, j);
    assert StepOf(ss[j], ss[j + 1], steps[j]);
    StepQueue(ss[j], steps[j], q, t, 0);
  }

  // ---- what becomes of a thread that does not run ----

  /** The status a step leaves a thread with that does not run after it. */
  ghost function StatusAfter(s: Sched, a: Step, t: nat): Status
    requires t in s.status
  {
    match a
    case Tick => if t == s.running then Ready else s.status[t]
    case Yield => if t == s.running then Ready else s.status[t]
    case Block(why) => if t == s.running then why else s.status[t]
    case Wait(_) => if t == s.running then Blocked else s.status[t]
    case Wake(q) => if q in s.waiters && s.waiters[q] != [] && t == s.waiters[q][0] then Ready else s.status[t]
    case Unblock(u) => if t == u then Ready else s.status[t]
    case Start(_, _) => s.status[t]
    case Reap(_) => s.status[t]
  }

  lemma StepStatus(s: Sched, a: Step, t: nat)
    requires Inv(s) && Enabled(s, a)
    ensures
      var w := Apply(s, a);
      && (t in w.status <==> (t in s.status && a != Reap(t)) || (a.Start? && t == a.thread))
      && (t in s.status && t in w.status && t != w.running ==> w.status[t] == StatusAfter(s, a, t))
      && (a.Start? ==> a.thread in w.status && w.status[a.thread] == Ready)
  {
    KnownThreads(s);
    hide Without, NoTwice, ReadyExact, IdleOk, OneRuns, Dispatched;
    match a
    case Tick =>
      if s.ticks[s.running] == 0 {
        DispatchStatus(Requeued(s), t);
      }
    case Block(why) => DispatchStatus(Stopped(s, why), t);
    case Wait(q) => DispatchStatus(Stopped(Queued(s, q), Blocked), t);
    case Yield => DispatchStatus(s.(ready := s.ready + [s.running], status := s.status[s.running := Ready]), t);
    case Wake(q) => assert WaiterOk(s, q, s.waiters[q][0]);
    case _ =>
  }

  lemma KnownThreads(s: Sched)
    requires Inv(s)
    ensures s.running in s.status && s.idle in s.status && forall u :: u in s.ready ==> u in s.status
  {
    hide QueuesOk, NoTwice;
  }

  lemma DispatchStatus(s: Sched, t: nat)
    requires s.idle in s.status && forall u :: u in s.ready ==> u in s.status
    ensures
      var w := Dispatched(s);
      w.status.Keys == s.status.Keys && (t in s.status && t != w.running ==> w.status[t] == s.status[t])
  {
    if s.ready != [] {
      assert s.ready[0] in s.ready;
    }
  }

  class Scheduler {
    var running: nat
    const idle: nat
    var all: seq<nat>
    var ready: seq<nat>
    var waiters: map<nat, seq<nat>>
    var status: map<nat, Status>
    var ticks: map<nat, nat>
    var priority: map<nat, nat>

    ghost function State(): Sched
      reads this
    {
      Sched(running, idle, all, ready, waiters, status, ticks, priority)
    }

    /** Chooses the next thread. A running caller has used up its time. */
    method Schedule()
      requires if running in status && status[running] == Running then Inv(State()) else NobodyRuns(State())
      modifies this
      ensures Inv(State())
      ensures State() == if old(status[running]) == Running then Preempted(old(State())) else Dispatched(old(State()))
    {
      hide QueuesOk, Listed, OneRuns, ReadyExact, IdleOk;
      ghost var s := State();
      RunningListed(s);
      if status[running] == Running {
        RequeueStops(s);
        RunningNotReady(s);
        assert running !in ready;
        ready := ready + [running];
        ticks := ticks[running := priority[running]];
        status := status[running := Ready];
      }
      ghost var stopped := State();
      DispatchInv(stopped);
      if ready == [] {
        IdleBlocked(State());
        ThreadUnblock(idle);
      }
      var next := ready[0];
      ready := ready[1..];
      status := status[next := Running];
      running := next;
      assert State() == Dispatched(stopped) by {
        assert stopped.ready == [] ==> stopped.status[idle := Ready][idle := Running] == stopped.status[idle := Running];
      }
    }

    /** Puts a stopped thread at the front of the ready list. */
    method ThreadUnblock(t: nat)
      requires t in status && (status[t] == Blocked || status[t] == Waiting || status[t] == Hanging) && t !in ready
      modifies this
      ensures State() == Unblocked(old(State()), t)
    {
      ready := [t] + ready;
      status := status[t := Ready];
    }

    method ThreadBlock(why: Status)
      requires Inv(State()) && (why == Blocked || why == Waiting || why == Hanging)
      requires (running == idle ==> why == Blocked)
      modifies this
      ensures Inv(State()) && State() == BlockedOn(old(State()), why)
    {
      hide Inv, NobodyRuns;
      StopStops(State(), why);
      status := status[running := why];
      Schedule();
    }

    method ThreadYield()
      requires Inv(State())
      modifies this
      ensures Inv(State()) && State() == Yielded(old(State()))
    {
      hide Listed, OneRuns, ReadyExact, QueuesOk, IdleOk, NobodyRuns;
      ghost var s := State();
      YieldStops(s);
      RunningNotReady(s);
      assert running !in ready;
      ready := ready + [running];
      status := status[running := Ready];
      Schedule();
    }

    /** The timer interrupt. */
    method TimerHandler()
      requires Inv(State())
      modifies this
      ensures Inv(State()) && State() == Ticked(old(State()))
    {
      hide Listed, OneRuns, ReadyExact, QueuesOk, IdleOk, NobodyRuns;
      TickInv(State());
      RunningListed(State());
      RunningNotReady(State());
      if ticks[running] == 0 {
        Schedule();
      } else {
        ticks := ticks[running := ticks[running] - 1];
      }
    }

    method ThreadStart(t: nat, prio: nat)
      requires Inv(State()) && t !in status
      modifies this
      ensures Inv(State()) && State() == Started(old(State()), t, prio)
    {
      hide Inv;
      StartInv(State(), t, prio);
      assert t !in ready;
      ready := ready + [t];
      assert t !in all;
      all := all + [t];
      status, ticks, priority := status[t := Ready], ticks[t := prio], priority[t := prio];
    }

    /** Takes a thread that neither runs nor waits for a semaphore out of the lists for good. */
    method ThreadExit(t: nat)
      requires Inv(State()) && t in status && t != idle && t != running && status[t] != Blocked
      modifies this
      ensures Inv(State()) && State() == Reaped(old(State()), t)
    {
      hide Inv, Without;
      ReapInv(State(), t);
      WithoutNone(ready, t);
      if t in ready {
        ready := Without(ready, t);
      }
      all := Without(all, t);
      status, ticks, priority := status - {t}, ticks - {t}, priority - {t};
    }
  }

  lemma RunningListed(s: Sched)
    requires Listed(s)
    ensures s.running in s.status && s.running in s.ticks && s.running in s.priority
  {
  }

  lemma RunningNotReady(s: Sched)
    requires Inv(s)
    ensures s.running !in s.ready && s.status[s.running] == Running
  {
    hide QueuesOk, NoTwice, IdleOk;
  }

  lemma YieldStops(s: Sched)
    requires Inv(s)
    ensures NobodyRuns(s.(ready := s.ready + [s.running], status := s.status[s.running := Ready]))
  {
    hide QueuesOk, NoTwice;
    var w := s.(ready := s.ready + [s.running], status := s.status[s.running := Ready]);
    NotQueued(s, s.running);
    QueuesKept(s, w, s.running);
    Enqueued(s.ready, s.running);
  }
}
