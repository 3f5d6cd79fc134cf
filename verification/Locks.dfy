/** Reentrant locks over binary semaphores, cut into the steps between which an interrupt may occur. */
module LockStates {
  import opened Queues

  /** Where a thread is with respect to one lock. The comments name the statement it is about to execute. */
  datatype Pc =
    | Out                 // outside, not holding the lock
    | Trying              // in the acquire, about to take the semaphore
    | Asleep              // in the queue of the semaphore, blocked
    | Woken               // taken out of the queue, about to test the semaphore again
    | Got                 // has the semaphore, about to set the holder
    | Named               // about to check and set the nesting count
    | Inside(depth: nat)  // holding the lock
    | Deeper(depth: nat)  // in a nested acquire, about to increment the nesting count
    | Shallower(depth: nat) // in a nested release, about to decrement the nesting count
    | Leaving             // in the outermost release, about to clear the holder
    | Nameless            // about to clear the nesting count
    | Uncounted           // about to give the semaphore back

  datatype Who = Nobody | Thread(id: nat)

  /** A lock, its semaphore and the threads that use it. */
  datatype Lock = Lock(value: nat, waiters: seq<nat>, holder: Who, repeat: nat, pc: map<nat, Pc>)

  predicate Owning(p: Pc) {
    p.Got? || p.Named? || p.Inside? || p.Deeper? || p.Shallower? || p.Leaving? || p.Nameless? || p.Uncounted?
  }

  predicate Owns(l: Lock, t: nat) {
    t in l.pc && Owning(l.pc[t])
  }

  /** The holder field a thread leaves behind at each point, and the nesting count. */
  function HolderAt(p: Pc, t: nat): Who {
    if p.Named? || p.Inside? || p.Deeper? || p.Shallower? || p.Leaving? then Thread(t) else Nobody
  }

  function CountAt(p: Pc): nat {
    if p.Inside? || p.Deeper? || p.Shallower? then p.depth else if p.Leaving? || p.Nameless? then 1 else 0
  }

  ghost predicate OneOwner(l: Lock, t: nat, u: nat) {
    Owns(l, t) && Owns(l, u) ==> t == u
  }

  ghost predicate QueueOk(l: Lock, t: nat) {
    t in l.waiters <==> t in l.pc && l.pc[t].Asleep?
  }

  ghost predicate FieldsOk(l: Lock, t: nat) {
    Owns(l, t) ==>
      && l.value == 0 && l.holder == HolderAt(l.pc[t], t) && l.repeat == CountAt(l.pc[t])
      && (l.pc[t].Inside? || l.pc[t].Deeper? ==> l.pc[t].depth >= 1)
      && (l.pc[t].Shallower? ==> l.pc[t].depth >= 2)
  }

  /** Nobody has the lock. */
  ghost predicate Unowned(l: Lock) {
    forall t :: !Owns(l, t)
  }

  ghost predicate SomeoneWoken(l: Lock) {
    exists t :: t in l.pc && l.pc[t].Woken?
  }

  ghost predicate Inv(l: Lock) {
    && (forall t, u :: OneOwner(l, t, u))
    && (forall t :: FieldsOk(l, t))
    && NoTwice(l.waiters) && (forall t :: QueueOk(l, t))
    && l.value <= 1
    && (Unowned(l) ==> l.value == 1 && l.holder == Nobody && l.repeat == 0)
    && (l.waiters != [] && Unowned(l) ==> SomeoneWoken(l))
  }

  // ---- the steps ----

  datatype Act = BeginAcquire | Down | SetHolder | SetCount | Increment | BeginRelease | Decrement | ClearHolder | ClearCount | Up

  /** Thread `t` can take step `a` next. It starts a release only of a lock it holds. */
  ghost predicate Enabled(l: Lock, t: nat, a: Act) {
    t in l.pc &&
    match a
    case BeginAcquire => l.pc[t].Out? || l.pc[t].Inside?
    case Down => l.pc[t].Trying? || l.pc[t].Woken?
    case SetHolder => l.pc[t].Got?
    case SetCount => l.pc[t].Named?
    case Increment => l.pc[t].Deeper?
    case BeginRelease => l.pc[t].Inside?
    case Decrement => l.pc[t].Shallower?
    case ClearHolder => l.pc[t].Leaving?
    case ClearCount => l.pc[t].Nameless?
    case Up => l.pc[t].Uncounted?
  }

  /** The check the step makes, if any. */
  ghost predicate Check(l: Lock, t: nat, a: Act) {
    match a
    case Down => (l.value == 0 ==> t !in l.waiters) && (l.value != 0 ==> l.value - 1 == 0)
    case SetCount => l.repeat == 0
    case BeginRelease => l.holder == Thread(t) && (l.repeat > 1 || l.repeat == 1)
    case Up => l.value == 0
    case _ => true
  }

  function At(l: Lock, t: nat, p: Pc): Lock {
    l.(pc := l.pc[t := p])
  }

  /** The code of each step, on the fields as they are; the depth of the program counter is bookkeeping. */
  ghost function Do(l: Lock, t: nat, a: Act): Lock
    requires Enabled(l, t, a)
  {
    match a
    case BeginAcquire =>
      if l.holder != Thread(t) then At(l, t, Trying)
      else At(l, t, Deeper(if l.pc[t].Inside? then l.pc[t].depth else 0))
    case Down =>
      if l.value == 0 then At(l, t, Asleep).(waiters := l.waiters + [t])
      else At(l, t, Got).(value := l.value - 1)
    case SetHolder => At(l, t, Named).(holder := Thread(t))
    case SetCount => At(l, t, Inside(1)).(repeat := 1)
    case Increment => At(l, t, Inside(l.pc[t].depth + 1)).(repeat := l.repeat + 1)
    case BeginRelease =>
      if l.repeat > 1 then At(l, t, Shallower(l.pc[t].depth)) else At(l, t, Leaving)
    case Decrement =>
      At(l, t, Inside(if l.pc[t].depth > 0 then l.pc[t].depth - 1 else 0)).(repeat := if l.repeat > 0 then l.repeat - 1 else 0)
    case ClearHolder => At(l, t, Nameless).(holder := Nobody)
    case ClearCount => At(l, t, Uncounted).(repeat := 0)
    case Up =>
      var m := At(l, t, Out).(value := l.value + 1);
      if l.waiters == [] then m else At(m, l.waiters[0], Woken).(waiters := l.waiters[1..])
  }
}

/** Every step of every thread keeps a lock consistent. */
module LockProofs {
  import opened Queues
  import opened LockStates

  /** A thread that is not the owner does not read its own name in the holder field. */
  lemma NotMyName(l: Lock, t: nat)
    requires Inv(l) && t in l.pc && !Owning(l.pc[t])
    ensures l.holder != Thread(t)
  {
    if !Unowned(l) {
      var u :| Owns(l, u);
      assert FieldsOk(l, u);
    }
  }

  /** The checks in the code never fail. */
  lemma ChecksHold(l: Lock, t: nat, a: Act)
    requires Inv(l) && Enabled(l, t, a)
    ensures Check(l, t, a)
  {
    assert FieldsOk(l, t) && QueueOk(l, t);
  }

  /** A step of the owner that keeps it the owner. */
  lemma OwnerMoves(l: Lock, m: Lock, t: nat)
    requires Inv(l) && Owns(l, t) && Owns(m, t) && m.pc == l.pc[t := m.pc[t]] && m.waiters == l.waiters
    requires m.value == l.value
    requires FieldsOk(m, t)
    ensures Inv(m)
  {
    forall u, v ensures OneOwner(m, u, v) {
      assert OneOwner(l, u, v) && OneOwner(l, t, u) && OneOwner(l, t, v);
    }
    forall u ensures FieldsOk(m, u) {
      assert OneOwner(l, t, u);
    }
    forall u ensures QueueOk(m, u) {
      assert QueueOk(l, u);
    }
    assert FieldsOk(l, t) && !Unowned(m);
  }

  /** A step between two places outside that neither sleeps nor wakes. */
  lemma TryInv(l: Lock, t: nat)
    requires Inv(l) && t in l.pc && l.pc[t].Out?
    ensures Inv(At(l, t, Trying))
  {
    var m := At(l, t, Trying);
    forall u ensures Owns(m, u) <==> Owns(l, u) {
    }
    forall u, v ensures OneOwner(m, u, v) {
      assert OneOwner(l, u, v);
    }
    forall u ensures FieldsOk(m, u) && QueueOk(m, u) {
      assert FieldsOk(l, u) && QueueOk(l, u);
    }
    if SomeoneWoken(l) {
      var w :| w in l.pc && l.pc[w].Woken?;
      assert m.pc[w].Woken?;
    }
    assert Unowned(m) <==> Unowned(l);
  }

  /** Going to sleep happens only while somebody owns the lock. */
  lemma SleepInv(l: Lock, t: nat)
    requires Inv(l) && t in l.pc && (l.pc[t].Trying? || l.pc[t].Woken?) && l.value == 0
    ensures Inv(Do(l, t, Down))
  {
    var m := Do(l, t, Down);
    assert QueueOk(l, t);
    Enqueued(l.waiters, t);
    forall u ensures Owns(m, u) <==> Owns(l, u) {
    }
    forall u, v ensures OneOwner(m, u, v) {
      assert OneOwner(l, u, v);
    }
    forall u ensures FieldsOk(m, u) && QueueOk(m, u) {
      assert FieldsOk(l, u) && QueueOk(l, u);
    }
    assert !Unowned(l);
    var o :| Owns(l, o);
    assert Owns(m, o);
  }

  lemma TakeInv(l: Lock, t: nat)
    requires Inv(l) && t in l.pc && (l.pc[t].Trying? || l.pc[t].Woken?) && l.value != 0
    ensures Inv(Do(l, t, Down))
  {
    var m := Do(l, t, Down);
    forall u ensures !Owns(l, u) {
      assert FieldsOk(l, u);
    }
    forall u ensures Owns(m, u) <==> u == t {
      assert !Owns(l, u);
    }
    forall u, v ensures OneOwner(m, u, v) {
    }
    forall u ensures FieldsOk(m, u) && QueueOk(m, u) {
      assert QueueOk(l, u);
    }
    assert Owns(m, t);
  }

  /** Giving the semaphore back wakes the first sleeper, if there is one. */
  lemma UpInv(l: Lock, t: nat)
    requires Inv(l) && t in l.pc && l.pc[t].Uncounted?
    ensures Inv(Do(l, t, Up))
  {
    var m := Do(l, t, Up);
    assert FieldsOk(l, t) && QueueOk(l, t);
    if l.waiters != [] {
      assert QueueOk(l, l.waiters[0]);
      assert m.pc[l.waiters[0]].Woken?;
      Dequeued(l.waiters, 0);
    }
    forall u ensures !Owns(m, u) {
      assert OneOwner(l, t, u);
    }
    forall u, v ensures OneOwner(m, u, v) {
    }
    forall u ensures FieldsOk(m, u) && QueueOk(m, u) {
      assert QueueOk(l, u);
      if l.waiters != [] {
        Dequeued(l.waiters, u);
      }
    }
  }

  /** Every step of every thread keeps the invariant. */
  lemma StepInv(l: Lock, t: nat, a: Act)
    requires Inv(l) && Enabled(l, t, a)
    ensures Inv(Do(l, t, a))
  {
    assert FieldsOk(l, t);
    match a
    case BeginAcquire =>
      if l.pc[t].Out? {
        NotMyName(l, t);
        TryInv(l, t);
      } else {
        OwnerMoves(l, Do(l, t, a), t);
      }
    case Down =>
      if l.value == 0 {
        SleepInv(l, t);
      } else {
        TakeInv(l, t);
      }
    case Up => UpInv(l, t);
    case SetHolder => OwnerMoves(l, Do(l, t, a), t);
    case SetCount => OwnerMoves(l, Do(l, t, a), t);
    case Increment => OwnerMoves(l, Do(l, t, a), t);
    case BeginRelease => OwnerMoves(l, Do(l, t, a), t);
    case Decrement => OwnerMoves(l, Do(l, t, a), t);
    case ClearHolder => OwnerMoves(l, Do(l, t, a), t);
    case ClearCount => OwnerMoves(l, Do(l, t, a), t);
  }
}
