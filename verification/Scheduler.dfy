/** The scheduler's state: who runs, who is ready, who waits where. */
module SchedStates {
  import opened Queues

  datatype Status = Running | Ready | Blocked | Waiting | Hanging

  /** `ready` is the ready list and `waiters[q]` the queue of semaphore `q`; both link threads through
      the same tag. `all` is the list of all threads. */
  datatype Sched = Sched(running: nat, idle: nat, all: seq<nat>, ready: seq<nat>, waiters: map<nat, seq<nat>>,
                         status: map<nat, Status>, ticks: map<nat, nat>, priority: map<nat, nat>)

  /** Exactly one thread runs. */
  ghost predicate OneRuns(s: Sched) {
    forall t :: t in s.status ==> (s.status[t] == Running <==> t == s.running)
  }

  /** The ready list is the set of ready threads. */
  ghost predicate ReadyExact(s: Sched) {
    NoTwice(s.ready) && forall t :: t in s.ready <==> t in s.status && s.status[t] == Ready
  }

  /** Thread `t` may wait in queue `q`: blocked, not the idle thread, and in no other queue. */
  ghost predicate WaiterOk(s: Sched, q: nat, t: nat) {
    q in s.waiters && t in s.waiters[q] ==>
      t in s.status && s.status[t] == Blocked && t != s.idle && forall r :: r in s.waiters && r != q ==> t !in s.waiters[r]
  }

  ghost predicate QueuesOk(s: Sched) {
    (forall q, t :: WaiterOk(s, q, t)) && (forall q :: q in s.waiters ==> NoTwice(s.waiters[q]))
  }

  /** The idle thread is ready, running, or blocked outside every queue. */
  ghost predicate IdleOk(s: Sched) {
    s.idle in s.status && (s.status[s.idle] == Ready || s.status[s.idle] == Running || s.status[s.idle] == Blocked)
  }

  predicate Asleep(u: Status) {
    u == Blocked || u == Waiting || u == Hanging
  }

  ghost predicate InNoQueue(s: Sched, t: nat) {
    forall q :: q in s.waiters ==> t !in s.waiters[q]
  }

  ghost predicate Listed(s: Sched) {
    && s.running in s.status && NoTwice(s.all) && (forall t :: t in s.all <==> t in s.status)
    && s.ticks.Keys == s.priority.Keys == s.status.Keys
  }

  ghost predicate Inv(s: Sched) {
    Listed(s) && OneRuns(s) && ReadyExact(s) && QueuesOk(s) && IdleOk(s)
  }

  /** Between two threads nobody runs: the current one has given up the processor. */
  ghost predicate NobodyRuns(s: Sched) {
    && Listed(s) && (forall t :: t in s.status ==> s.status[t] != Running)
    && ReadyExact(s) && QueuesOk(s) && IdleOk(s)
  }

  // ---- the operations ----

  function Unblocked(s: Sched, t: nat): Sched {
    s.(ready := [t] + s.ready, status := s.status[t := Ready])
  }

  /** Takes the head of the ready list, which the idle thread joins if it is empty. */
  function Dispatched(s: Sched): Sched {
    var r := if s.ready == [] then [s.idle] else s.ready;
    s.(running := r[0], ready := r[1..], status := s.status[r[0] := Running])
  }

  /** Puts the running thread, out of time, at the end of the ready list. */
  function Requeued(s: Sched): Sched
    requires s.running in s.priority
  {
    s.(ready := s.ready + [s.running], status := s.status[s.running := Ready], ticks := s.ticks[s.running := s.priority[s.running]])
  }

  function Preempted(s: Sched): Sched
    requires s.running in s.priority
  {
    Dispatched(Requeued(s))
  }

  function Stopped(s: Sched, why: Status): Sched {
    s.(status := s.status[s.running := why])
  }

  function BlockedOn(s: Sched, why: Status): Sched {
    Dispatched(Stopped(s, why))
  }

  /** Queued on a semaphore and blocked. */
  function Queued(s: Sched, q: nat): Sched
    requires q in s.waiters
  {
    s.(waiters := s.waiters[q := s.waiters[q] + [s.running]])
  }

  function Yielded(s: Sched): Sched {
    Dispatched(s.(ready := s.ready + [s.running], status := s.status[s.running := Ready]))
  }

  /** The first waiter of `q` is taken out of the queue and made ready. */
  function Woken(s: Sched, q: nat): Sched
    requires q in s.waiters && s.waiters[q] != []
  {
    Unblocked(s.(waiters := s.waiters[q := s.waiters[q][1..]]), s.waiters[q][0])
  }

  function Started(s: Sched, t: nat, prio: nat): Sched {
    s.(all := s.all + [t], ready := s.ready + [t], status := s.status[t := Ready],
       ticks := s.ticks[t := prio], priority := s.priority[t := prio])
  }

  function Reaped(s: Sched, t: nat): Sched {
    s.(all := Without(s.all, t), ready := Without(s.ready, t), status := s.status - {t}, ticks := s.ticks - {t}, priority := s.priority - {t})
  }

  function Ticked(s: Sched): Sched
    requires s.running in s.ticks && s.running in s.priority
  {
    if s.ticks[s.running] == 0 then Preempted(s) else s.(ticks := s.ticks[s.running := s.ticks[s.running] - 1])
  }
}

/** Every scheduling operation keeps the lists and statuses consistent. */
module SchedProofs {
  import opened Queues
  import opened SchedStates

  /** A change of one thread's status, neither from nor to `Blocked` in a queue, leaves the queues alone. */
  lemma QueuesKept(s: Sched, w: Sched, t: nat)
    requires QueuesOk(s) && w.waiters == s.waiters && w.idle == s.idle
    requires forall u :: u in s.status && u != t ==> u in w.status && w.status[u] == s.status[u]
    requires forall q :: q in s.waiters ==> t !in s.waiters[q]
    ensures QueuesOk(w)
  {
    forall q, u ensures WaiterOk(w, q, u) {
      assert WaiterOk(s, q, u);
    }
  }

  /** A thread that is not blocked is in no queue. */
  lemma NotQueued(s: Sched, t: nat)
    requires QueuesOk(s) && (t !in s.status || s.status[t] != Blocked || t == s.idle)
    ensures forall q :: q in s.waiters ==> t !in s.waiters[q]
  {
    forall q | q in s.waiters ensures t !in s.waiters[q] {
      assert WaiterOk(s, q, t);
    }
  }

  /** An empty ready list means that the idle thread is blocked, so it can be woken. */
  lemma IdleBlocked(s: Sched)
    requires NobodyRuns(s) && s.ready == []
    ensures s.idle in s.status && s.status[s.idle] == Blocked && s.idle !in s.ready
  {
    hide QueuesOk, NoTwice;
  }

  lemma DispatchInv(s: Sched)
    requires NobodyRuns(s)
    ensures Inv(Dispatched(s))
  {
    hide QueuesOk, NoTwice;
    var w := Dispatched(s);
    if s.ready == [] {
      IdleBlocked(s);
      NotQueued(s, s.idle);
      QueuesKept(s, w, s.idle);
    } else {
      NotQueued(s, s.ready[0]);
      QueuesKept(s, w, s.ready[0]);
    }
    forall t ensures t in w.ready <==> t in w.status && w.status[t] == Ready {
      if s.ready != [] {
        Dequeued(s.ready, t);
      }
    }
    if s.ready != [] {
      Dequeued(s.ready, 0);
    }
  }

  lemma RequeueStops(s: Sched)
    requires Inv(s)
    ensures NobodyRuns(Requeued(s))
  {
    hide QueuesOk, NoTwice;
    var w := Requeued(s);
    NotQueued(s, s.running);
    QueuesKept(s, w, s.running);
    Enqueued(s.ready, s.running);
  }

  lemma PreemptInv(s: Sched)
    requires Inv(s)
    ensures Inv(Preempted(s))
  {
    RequeueStops(s);
    DispatchInv(Requeued(s));
  }

  lemma StopStops(s: Sched, why: Status)
    requires Inv(s) && (why == Blocked || why == Waiting || why == Hanging)
    requires (s.running == s.idle ==> why == Blocked)
    ensures NobodyRuns(Stopped(s, why))
  {
    hide QueuesOk, NoTwice;
    var w := Stopped(s, why);
    NotQueued(s, s.running);
    QueuesKept(s, w, s.running);
  }

  lemma BlockInv(s: Sched, why: Status)
    requires Inv(s) && (why == Blocked || why == Waiting || why == Hanging)
    requires (s.running == s.idle ==> why == Blocked)
    ensures Inv(BlockedOn(s, why))
  {
    StopStops(s, why);
    DispatchInv(Stopped(s, why));
  }

  /** Joining a queue and blocking; the thread was in no queue before. */
  lemma QueueInv(s: Sched, q: nat)
    requires Inv(s) && q in s.waiters && s.running != s.idle
    ensures s.running !in s.waiters[q] && Inv(BlockedOn(Queued(s, q), Blocked))
  {
    hide QueuesOk, NoTwice;
    NotQueued(s, s.running);
    QueuedQueues(s, q);
    var w := Stopped(Queued(s, q), Blocked);
    assert NobodyRuns(w);
    DispatchInv(w);
  }

  lemma QueuedQueues(s: Sched, q: nat)
    requires QueuesOk(s) && q in s.waiters && s.running != s.idle && s.running in s.status
    requires s.status[s.running] == Running
    ensures QueuesOk(Stopped(Queued(s, q), Blocked))
  {
    NotQueued(s, s.running);
    var w := Stopped(Queued(s, q), Blocked);
    Enqueued(s.waiters[q], s.running);
    forall r, t ensures WaiterOk(w, r, t) {
      assert WaiterOk(s, r, t) && WaiterOk(s, q, t);
    }
  }

  lemma YieldInv(s: Sched)
    requires Inv(s)
    ensures Inv(Yielded(s))
  {
    hide QueuesOk, NoTwice;
    var w := s.(ready := s.ready + [s.running], status := s.status[s.running := Ready]);
    NotQueued(s, s.running);
    QueuesKept(s, w, s.running);
    Enqueued(s.ready, s.running);
    assert NobodyRuns(w);
    DispatchInv(w);
  }

  lemma UnblockInv(s: Sched, t: nat)
    requires Inv(s) && t in s.status && t != s.idle && Asleep(s.status[t]) && InNoQueue(s, t)
    ensures t !in s.ready && Inv(Unblocked(s, t))
  {
    hide QueuesOk, NoTwice;
    var w := Unblocked(s, t);
    QueuesKept(s, w, t);
    Enqueued(s.ready, t);
  }

  /** The head of a queue is blocked and not ready; waking it is safe. */
  lemma WakeInv(s: Sched, q: nat)
    requires Inv(s) && q in s.waiters && s.waiters[q] != []
    ensures s.waiters[q][0] in s.status && s.status[s.waiters[q][0]] == Blocked && s.waiters[q][0] !in s.ready
    ensures Inv(Woken(s, q))
  {
    hide QueuesOk, NoTwice;
    var t := s.waiters[q][0];
    WokenQueues(s, q);
    Enqueued(s.ready, t);
  }

  lemma WokenQueues(s: Sched, q: nat)
    requires QueuesOk(s) && q in s.waiters && s.waiters[q] != []
    ensures QueuesOk(Woken(s, q)) && s.waiters[q][0] in s.status && s.status[s.waiters[q][0]] == Blocked
    ensures s.waiters[q][0] != s.idle
  {
    var t, w := s.waiters[q][0], Woken(s, q);
    assert WaiterOk(s, q, t);
    forall r, u ensures WaiterOk(w, r, u) {
      assert WaiterOk(s, r, u) && WaiterOk(s, q, u);
      Dequeued(s.waiters[q], u);
    }
    Dequeued(s.waiters[q], 0);
  }

  lemma StartInv(s: Sched, t: nat, prio: nat)
    requires Inv(s) && t !in s.status
    ensures t !in s.ready && t !in s.all && Inv(Started(s, t, prio))
  {
    hide QueuesOk, NoTwice;
    var w := Started(s, t, prio);
    NotQueued(s, t);
    QueuesKept(s, w, t);
    Enqueued(s.ready, t);
    Enqueued(s.all, t);
  }

  lemma ReapInv(s: Sched, t: nat)
    requires Inv(s) && t in s.status && t != s.idle && t != s.running && s.status[t] != Blocked
    ensures Inv(Reaped(s, t))
  {
    hide QueuesOk, NoTwice, Without, Listed, ReadyExact;
    ReapListed(s, t);
    ReapReady(s, t);
    NotQueued(s, t);
    QueuesKept(s, Reaped(s, t), t);
  }

  lemma ReapListed(s: Sched, t: nat)
    requires Listed(s) && t in s.status && t != s.running
    ensures Listed(Reaped(s, t))
  {
    hide NoTwice, Without;
    WithoutHas(s.all, t);
    var w := Reaped(s, t);
    assert w.ticks.Keys == s.ticks.Keys - {t} && w.priority.Keys == s.priority.Keys - {t} && w.status.Keys == s.status.Keys - {t};
  }

  lemma ReapReady(s: Sched, t: nat)
    requires ReadyExact(s) && t in s.status
    ensures ReadyExact(Reaped(s, t))
  {
    hide NoTwice, Without;
    WithoutHas(s.ready, t);
  }

  lemma TickInv(s: Sched)
    requires Inv(s)
    ensures Inv(Ticked(s))
  {
    hide QueuesOk, NoTwice;
    if s.ticks[s.running] == 0 {
      PreemptInv(s);
    } else {
      QueuesSame(s, Ticked(s));
      }
  }

  lemma QueuesSame(s: Sched, w: Sched)
    requires QueuesOk(s) && w == s.(ticks := w.ticks)
    ensures QueuesOk(w)
  {
    forall q, t ensures WaiterOk(w, q, t) {
      assert WaiterOk(s, q, t);
    }
  }
}
