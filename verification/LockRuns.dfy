/** Any number of locks and threads, interrupted anywhere. */
module LockRuns {
  import opened LockStates
  import opened LockProofs

  datatype Event = Event(lock: nat, thread: nat, act: Act)

  type Locks = map<nat, Lock>

  /** A lock as it is initialised, used by threads that are all outside. */
  ghost predicate Fresh(l: Lock) {
    l.value == 1 && l.waiters == [] && l.holder == Nobody && l.repeat == 0 && forall t :: t in l.pc ==> l.pc[t].Out?
  }

  ghost predicate Can(s: Locks, e: Event) {
    e.lock in s && Enabled(s[e.lock], e.thread, e.act)
  }

  ghost predicate Next(s: Locks, r: Locks, e: Event) {
    Can(s, e) && r == s[e.lock := Do(s[e.lock], e.thread, e.act)]
  }

  ghost predicate Run(ss: seq<Locks>, es: seq<Event>) {
    && |ss| == |es| + 1 && (forall k :: k in ss[0] ==> Fresh(ss[0][k]))
    && forall i :: 0 <= i < |es| ==> Next(ss[i], ss[i + 1], es[i])
  }

  lemma FreshInv(l: Lock)
    requires Fresh(l)
    ensures Inv(l)
  {
    forall t ensures !Owns(l, t) {
    }
    forall t, u ensures OneOwner(l, t, u) {
    }
    forall t ensures FieldsOk(l, t) && QueueOk(l, t) {
    }
  }

  lemma {:induction false} RunInv(ss: seq<Locks>, es: seq<Event>, i: nat, k: nat)
    requires Run(ss, es) && i <= |es| && k in ss[i]
    ensures Inv(ss[i][k])
  {
    hide Inv, Enabled, Do, Fresh;
    if i == 0 {
      FreshInv(ss[0][k]);
    } else {
      var j := i - 1;
      assert Next(ss[j], ss[j + 1], es[j]);
      RunInv(ss, es, j, k);
      if k == es[j].lock {
        StepInv(ss[j][k], es[j].thread, es[j].act);
      }
    }
  }

  /** No check in the code ever fails. */
  lemma NoCheckFails(ss: seq<Locks>, es: seq<Event>, i: nat)
    requires Run(ss, es) && i < |es|
    ensures es[i].lock in ss[i] && Check(ss[i][es[i].lock], es[i].thread, es[i].act)
  {
    hide Inv, Do, Enabled, Check;
    assert Next(ss[i], ss[i + 1], es[i]);
    RunInv(ss, es, i, es[i].lock);
    ChecksHold(ss[i][es[i].lock], es[i].thread, es[i].act);
  }

  /** At most one thread owns a lock; the holder field names nobody or the owner; inside, the
      nesting count is the owner's depth. */
  lemma MutualExclusion(ss: seq<Locks>, es: seq<Event>, i: nat, k: nat, t: nat, u: nat)
    requires Run(ss, es) && i <= |es| && k in ss[i] && Owns(ss[i][k], t)
    ensures var l := ss[i][k];
      && (Owns(l, u) ==> t == u) && (l.holder == Nobody || l.holder == Thread(t))
      && (l.pc[t].Inside? ==> l.holder == Thread(t) && l.repeat == l.pc[t].depth)
  {
    hide Do, Enabled;
    RunInv(ss, es, i, k);
    var l := ss[i][k];
    assert OneOwner(l, t, u) && FieldsOk(l, t);
  }

  /** While somebody sleeps on a lock, somebody owns it or somebody woken is about to try again. */
  lemma NoLostWakeup(ss: seq<Locks>, es: seq<Event>, i: nat, k: nat)
    requires Run(ss, es) && i <= |es| && k in ss[i]
    requires exists t :: t in ss[i][k].pc && ss[i][k].pc[t].Asleep?
    ensures (exists o :: Owns(ss[i][k], o)) || SomeoneWoken(ss[i][k])
  {
    hide Do, Enabled;
    RunInv(ss, es, i, k);
    var l := ss[i][k];
    var t :| t in l.pc && l.pc[t].Asleep?;
    assert QueueOk(l, t);
    assert t in l.waiters;
  }

  /** A thread that tries, or a woken one that tries again, finds the lock free unless another has it; it then
      sleeps behind all others. */
  lemma SleepsBehindOthers(ss: seq<Locks>, es: seq<Event>, i: nat, k: nat, t: nat)
    requires Run(ss, es) && i < |es| && k in ss[i] && es[i] == Event(k, t, Down) && t in ss[i][k].pc
    requires ss[i][k].pc[t].Woken? || ss[i][k].pc[t].Trying?
    ensures k in ss[i + 1] && t in ss[i + 1][k].pc
    ensures if Unowned(ss[i][k]) then Owns(ss[i + 1][k], t) else ss[i + 1][k].pc[t].Asleep? && ss[i + 1][k].waiters == ss[i][k].waiters + [t]
  {
    RunInv(ss, es, i, k);
    assert Next(ss[i], ss[i + 1], es[i]);
    var l := ss[i][k];
    if !Unowned(l) {
      var o :| Owns(l, o);
      assert FieldsOk(l, o);
    }
  }

  // ---- sleepers are woken in the order in which they fell asleep ----

  ghost predicate AsleepAt(ss: seq<Locks>, i: nat, k: nat, t: nat) {
    i < |ss| && k in ss[i] && t in ss[i][k].pc && ss[i][k].pc[t].Asleep?
  }

  /** Thread `t` sleeps from state `i` to state `j` without being woken. */
  ghost predicate SleepsFrom(ss: seq<Locks>, i: nat, j: nat, k: nat, t: nat) {
    forall m: nat :: i <= m <= j ==> AsleepAt(ss, m, k, t)
  }

  /** How often lock `k` is given back between states `i` and `j`. */
  ghost function Ups(es: seq<Event>, k: nat, i: nat, j: nat): nat
    requires i <= j <= |es|
  {
    if i == j then 0 else Ups(es, k, i, j - 1) + if es[j - 1].lock == k && es[j - 1].act.Up? then 1 else 0
  }

  ghost predicate QueuedAt(l: Lock, t: nat, p: nat) {
    p < |l.waiters| && l.waiters[p] == t
  }

  lemma QueuedSleeps(l: Lock, t: nat, p: nat)
    requires Inv(l) && QueuedAt(l, t, p)
    ensures t in l.pc && l.pc[t].Asleep?
  {
    assert QueueOk(l, t);
  }

  /** What one step does to a sleeper: only giving the lock back moves it, and wakes it if it is the first. */
  lemma StepQueue(l: Lock, w: nat, a: Act, t: nat, p: nat)
    requires Inv(l) && Enabled(l, w, a) && QueuedAt(l, t, p)
    ensures
      var m := Do(l, w, a);
      && (!a.Up? ==> QueuedAt(m, t, p))
      && (a.Up? && p > 0 ==> QueuedAt(m, t, p - 1))
      && (a.Up? && p == 0 ==> t in m.pc && m.pc[t].Woken?)
  {
    QueuedSleeps(l, t, p);
  }

  lemma RunQueue(ss: seq<Locks>, es: seq<Event>, i: nat, k: nat, t: nat, p: nat)
    requires Run(ss, es) && i < |es| && k in ss[i] && QueuedAt(ss[i][k], t, p)
    ensures k in ss[i + 1] && AsleepAt(ss, i, k, t)
    ensures
      var m, up := ss[i + 1][k], es[i].lock == k && es[i].act.Up?;
      && (!up ==> QueuedAt(m, t, p)) && (up && p > 0 ==> QueuedAt(m, t, p - 1))
      && (up && p == 0 ==> t in m.pc && m.pc[t].Woken?)
  {
    hide Inv, Enabled, Do, Fresh;
    assert Next(ss[i], ss[i + 1], es[i]);
    RunInv(ss, es, i, k);
    QueuedSleeps(ss[i][k], t, p);
    if es[i].lock == k {
      StepQueue(ss[i][k], es[i].thread, es[i].act, t, p);
    }
  }

  /** A sleeper with `p` others before it sleeps exactly as long as the lock has been given back at most `p`
      times. */
  lemma {:induction false} WokenInTurn(ss: seq<Locks>, es: seq<Event>, i: nat, j: nat, k: nat, t: nat, p: nat)
    requires Run(ss, es) && i <= j <= |es| && k in ss[i] && QueuedAt(ss[i][k], t, p)
    ensures SleepsFrom(ss, i, j, k, t) <==> Ups(es, k, i, j) <= p
    ensures Ups(es, k, i, j) <= p ==> k in ss[j] && QueuedAt(ss[j][k], t, p - Ups(es, k, i, j))
    decreases j
  {
    hide Run, QueuedAt;
    if i == j {
      StillQueued(ss, es, i, k, t, p);
    } else {
      var h := j - 1;
      WokenInTurn(ss, es, i, h, k, t, p);
      var n := Ups(es, k, i, h);
      if n <= p {
        RunQueue(ss, es, h, k, t, p - n);
        if Ups(es, k, i, j) <= p {
          StillQueued(ss, es, j, k, t, p - Ups(es, k, i, j));
          assert SleepsFrom(ss, i, j, k, t);
        } else {
          assert !AsleepAt(ss, j, k, t);
        }
      } else {
        var m: nat :| i <= m <= h && !AsleepAt(ss, m, k, t);
        assert i <= m <= j;
      }
    }
  }

  lemma StillQueued(ss: seq<Locks>, es: seq<Event>, i: nat, k: nat, t: nat, p: nat)
    requires Run(ss, es) && i <= |es| && k in ss[i] && QueuedAt(ss[i][k], t, p)
    ensures AsleepAt(ss, i, k, t)
  {
    hide Inv, Enabled, Do, Fresh;
    RunInv(ss, es, i, k);
    QueuedSleeps(ss[i][k], t, p);
  }

  /** The release after `p` others wakes it. */
  lemma TurnComes(ss: seq<Locks>, es: seq<Event>, i: nat, j: nat, k: nat, t: nat, p: nat)
    requires Run(ss, es) && i <= j < |es| && k in ss[i] && QueuedAt(ss[i][k], t, p)
    requires Ups(es, k, i, j) == p && es[j].lock == k && es[j].act.Up?
    ensures SleepsFrom(ss, i, j, k, t) && k in ss[j + 1] && t in ss[j + 1][k].pc && ss[j + 1][k].pc[t].Woken?
  {
    hide Run, QueuedAt;
    WokenInTurn(ss, es, i, j, k, t, p);
    RunQueue(ss, es, j, k, t, 0);
  }

  /** A sleeper is somewhere in the queue. */
  lemma PlaceOf(ss: seq<Locks>, es: seq<Event>, i: nat, k: nat, t: nat) returns (p: nat)
    requires Run(ss, es) && i <= |es| && AsleepAt(ss, i, k, t)
    ensures QueuedAt(ss[i][k], t, p)
  {
    hide Enabled, Do, Fresh;
    RunInv(ss, es, i, k);
    assert QueueOk(ss[i][k], t);
    p :| p < |ss[i][k].waiters| && ss[i][k].waiters[p] == t;
  }

  /** Who falls asleep joins the queue at its end. */
  lemma JoinsLast(ss: seq<Locks>, es: seq<Event>, i: nat, k: nat, u: nat)
    requires Run(ss, es) && i < |es| && !AsleepAt(ss, i, k, u) && AsleepAt(ss, i + 1, k, u) && k in ss[i]
    ensures ss[i + 1][k].waiters == ss[i][k].waiters + [u]
  {
    assert Next(ss[i], ss[i + 1], es[i]);
    RunInv(ss, es, i, k);
    RunInv(ss, es, i + 1, k);
    assert QueueOk(ss[i][k], u) && QueueOk(ss[i + 1][k], u);
  }

  /** First come, first woken: while `t`, who was asleep before `u` fell asleep, has not been woken, no step wakes
      `u`. */
  lemma FirstAsleepFirstWoken(ss: seq<Locks>, es: seq<Event>, a: nat, b: nat, c: nat, k: nat, t: nat, u: nat)
    requires Run(ss, es) && a < b <= c < |es|
    requires SleepsFrom(ss, a, c, k, t) && !AsleepAt(ss, b - 1, k, u) && SleepsFrom(ss, b, c, k, u)
    ensures AsleepAt(ss, c + 1, k, u)
  {
    hide Run, QueuedAt, Inv;
    assert AsleepAt(ss, b - 1, k, t) && AsleepAt(ss, b, k, u) && AsleepAt(ss, c, k, t);
    JoinsLast(ss, es, b - 1, k, u);
    var p := PlaceOf(ss, es, b - 1, k, t);
    var q := |ss[b - 1][k].waiters|;
    KeepsPlace(ss[b - 1][k], ss[b][k], t, u, p);
    WokenInTurn(ss, es, b, c, k, t, p);
    WokenInTurn(ss, es, b, c, k, u, q);
    RunQueue(ss, es, c, k, u, q - Ups(es, k, b, c));
    StillQueued(ss, es, c + 1, k, u, if es[c].lock == k && es[c].act.Up? then q - Ups(es, k, b, c) - 1 else q - Ups(es, k, b, c));
  }

  lemma KeepsPlace(l: Lock, m: Lock, t: nat, u: nat, p: nat)
    requires QueuedAt(l, t, p) && m.waiters == l.waiters + [u]
    ensures QueuedAt(m, t, p) && QueuedAt(m, u, |l.waiters|) && p < |l.waiters|
  {
  }

  // ---- nesting ----

  /** Acquires begun less releases begun by thread `t` on lock `k` in the first `i` steps. */
  ghost function Balance(es: seq<Event>, k: nat, t: nat, i: nat): int
    requires i <= |es|
  {
    if i == 0 then 0
    else
      var e := es[i - 1];
      Balance(es, k, t, i - 1) +
      if e.lock != k || e.thread != t then 0 else if e.act.BeginAcquire? then 1 else if e.act.BeginRelease? then -1 else 0
  }

  /** How deep a thread is, or is about to be. */
  ghost function Depth(p: Pc): int {
    match p
    case Out => 0
    case Inside(d) => d
    case Deeper(d) => d + 1
    case Shallower(d) => d - 1
    case Leaving => 0
    case Nameless => 0
    case Uncounted => 0
    case _ => 1
  }

  lemma StepDepth(l: Lock, w: nat, a: Act, t: nat)
    requires Inv(l) && Enabled(l, w, a) && t in l.pc
    ensures t in Do(l, w, a).pc
    ensures Depth(Do(l, w, a).pc[t]) == Depth(l.pc[t]) + if w != t then 0 else if a.BeginAcquire? then 1 else if a.BeginRelease? then -1 else 0
  {
    assert FieldsOk(l, w) && FieldsOk(l, t);
    if a.BeginAcquire? && l.pc[w].Out? {
      NotMyName(l, w);
    }
    if a.Up? && l.waiters != [] {
      assert QueueOk(l, l.waiters[0]);
    }
  }

  /** In every state of every run a thread is as deep in a lock as it has begun to acquire it more often than to
      release it. The lock is so given back by the release that balances the first acquire, and by no other. */
  lemma {:induction false} DepthIsBalance(ss: seq<Locks>, es: seq<Event>, i: nat, k: nat, t: nat)
    requires Run(ss, es) && i <= |es| && k in ss[i] && t in ss[i][k].pc
    ensures Depth(ss[i][k].pc[t]) == Balance(es, k, t, i)
  {
    hide Inv, Enabled, Do;
    if i > 0 {
      var j := i - 1;
      assert Next(ss[j], ss[j + 1], es[j]);
      RunInv(ss, es, j, k);
      SameThreads(ss[j], ss[i], es[j], k, t);
      DepthIsBalance(ss, es, j, k, t);
      if es[j].lock == k {
        StepDepth(ss[j][k], es[j].thread, es[j].act, t);
      }
    }
  }

  lemma SameThreads(s: Locks, r: Locks, e: Event, k: nat, t: nat)
    requires Next(s, r, e) && k in r && t in r[k].pc && (k in s ==> Inv(s[k]))
    ensures k in s && t in s[k].pc
  {
    if k == e.lock && s[k].waiters != [] {
      assert QueueOk(s[k], s[k].waiters[0]);
    }
  }
}
