/** Runs of the process calls. */
module ProcessRuns {
  import opened Queues
  import opened ProcessStates
  import opened ProcessProofs

  /** What a step does. The second half of an exit looks its parent up by number. */
  ghost predicate Next(s: Tree, r: Tree, a: Step) {
    Enabled(s, a) &&
    match a
    case Fork(p) => r == Forked(s, p)
    case LoseFork(_) => r == ForkFailed(s)
    case BeginExit(p, status) => r == ExitBegun(s, p, status)
    case EndExit(p) => s.tasks[p].parent in s.tasks ==> r == ExitEnded(s, p)
    case Wait(p) => r == Waited(s, p)
  }

  lemma StepInv(s: Tree, r: Tree, a: Step)
    requires Inv(s) && Next(s, r, a)
    ensures Inv(r) && (a.EndExit? ==> s.tasks[a.p].parent in s.tasks)
  {
    hide Inv, Forked, ExitBegun, ExitEnded, Waited, WaitAnswer;
    match a
    case Fork(p) => ForkInv(s, p);
    case LoseFork(p) => LoseInv(s, p);
    case BeginExit(p, status) => BeginInv(s, p, status);
    case EndExit(p) => EndInv(s, p);
    case Wait(p) =>
      if WaitAnswer(s, p).Child? {
        ReapInv(s, p);
      } else {
        NoReapInv(s, p);
      }
  }

  /** Boot: the init process and the kernel's own threads, nobody's children, all of them active. */
  ghost predicate Start(s: Tree) {
    && Listed(s) && INIT in s.tasks
    && forall t :: t in s.tasks ==> 0 < t <= s.next && s.tasks[t].parent == NOBODY && s.tasks[t].phase == Active
  }

  ghost predicate Run(ss: seq<Tree>, steps: seq<Step>) {
    |ss| == |steps| + 1 && Start(ss[0]) && forall i :: 0 <= i < |steps| ==> Next(ss[i], ss[i + 1], steps[i])
  }

  lemma {:induction false} RunInv(ss: seq<Tree>, steps: seq<Step>, i: nat)
    requires Run(ss, steps) && i <= |steps|
    ensures Inv(ss[i])
  {
    if i == 0 {
      StartInv(ss[0]);
    } else {
      hide Inv, Next;
      var j := i - 1;
      assert Next(ss[j], ss[j + 1], steps[j]);
      RunInv(ss, steps, j);
      StepInv(ss[j], ss[j + 1], steps[j]);
    }
  }

  lemma StartInv(s: Tree)
    requires Start(s)
    ensures Inv(s)
  {
    forall c ensures ParentOk(s, c) && WaiterOk(s, c) {
    }
  }

  /** Looking up the parent of an exiting task never fails. */
  lemma ParentFound(ss: seq<Tree>, steps: seq<Step>, i: nat)
    requires Run(ss, steps) && i < |steps| && steps[i].EndExit?
    ensures steps[i].p in ss[i].tasks && ss[i].tasks[steps[i].p].parent in ss[i].tasks
  {
    hide Inv;
    assert Next(ss[i], ss[i + 1], steps[i]);
    RunInv(ss, steps, i);
    StepInv(ss[i], ss[i + 1], steps[i]);
  }

  /** No task but the init process sleeps in a wait while one of its children hangs. */
  lemma NoMissedExit(ss: seq<Tree>, steps: seq<Step>, i: nat, p: int, c: int)
    requires Run(ss, steps) && i <= |steps| && p in ss[i].tasks && ss[i].tasks[p].phase == Waiting && p != INIT
    requires IsChild(ss[i], c, p)
    ensures ss[i].tasks[c].phase != Hanging
  {
    hide Next;
    RunInv(ss, steps, i);
    assert WaiterOk(ss[i], p);
  }

  // ---- the init process asleep over a hanging child ----

  ghost predicate HasHanging(s: Tree, p: int) {
    exists c :: IsChild(s, c, p) && s.tasks[c].phase == Hanging
  }

  /** The init process sleeps in its wait although one of its children hangs. */
  ghost predicate Missing(s: Tree) {
    INIT in s.tasks && s.tasks[INIT].phase == Waiting && HasHanging(s, INIT)
  }

  /** A task with a hanging child begins to exit while the init process sleeps. */
  ghost predicate HandsOver(s: Tree, a: Step) {
    a.BeginExit? && INIT in s.tasks && s.tasks[INIT].phase == Waiting && HasHanging(s, a.p)
  }

  /** A child of the init process ends its exit. */
  ghost predicate WakesInit(s: Tree, a: Step) {
    a.EndExit? && IsChild(s, a.p, INIT)
  }

  lemma BeginMisses(s: Tree, p: int, status: int)
    requires Inv(s) && Enabled(s, BeginExit(p, status))
    ensures Missing(ExitBegun(s, p, status)) <==> Missing(s) || HandsOver(s, BeginExit(p, status))
  {
    var r := ExitBegun(s, p, status);
    assert p != INIT && forall c :: c in s.tasks ==> (IsChild(r, c, INIT) <==> IsChild(s, c, INIT) || IsChild(s, c, p));
    if Missing(r) {
      var c :| IsChild(r, c, INIT) && r.tasks[c].phase == Hanging;
      assert s.tasks[c].phase == Hanging && (IsChild(s, c, p) || IsChild(s, c, INIT));
    }
    if HandsOver(s, BeginExit(p, status)) {
      var c :| IsChild(s, c, p) && s.tasks[c].phase == Hanging;
      assert IsChild(r, c, INIT) && r.tasks[c].phase == Hanging;
    }
    if Missing(s) {
      var c :| IsChild(s, c, INIT) && s.tasks[c].phase == Hanging;
      assert IsChild(r, c, INIT) && r.tasks[c].phase == Hanging;
    }
  }

  lemma EndMisses(s: Tree, p: int)
    requires Inv(s) && Enabled(s, EndExit(p)) && s.tasks[p].parent in s.tasks
    ensures Missing(ExitEnded(s, p)) <==> Missing(s) && !WakesInit(s, EndExit(p))
  {
    var r := ExitEnded(s, p);
    assert ParentOk(s, p) && p != INIT && s.tasks[p].parent != p;
    assert forall c :: IsChild(r, c, INIT) <==> IsChild(s, c, INIT);
    if Missing(s) && !WakesInit(s, EndExit(p)) {
      var c :| IsChild(s, c, INIT) && s.tasks[c].phase == Hanging;
      assert r.tasks[c].phase == Hanging;
    }
    if Missing(r) {
      var c :| IsChild(r, c, INIT) && r.tasks[c].phase == Hanging;
      assert s.tasks[c].phase == Hanging;
    }
  }

  lemma ForkMisses(s: Tree, p: int)
    requires Inv(s) && Enabled(s, Fork(p))
    ensures Missing(Forked(s, p)) <==> Missing(s)
  {
    var r := Forked(s, p);
    if Missing(s) {
      var c :| IsChild(s, c, INIT) && s.tasks[c].phase == Hanging;
      assert IsChild(r, c, INIT) && r.tasks[c].phase == Hanging;
    }
    if Missing(r) {
      var c :| IsChild(r, c, INIT) && r.tasks[c].phase == Hanging;
      assert IsChild(s, c, INIT) && s.tasks[c].phase == Hanging;
    }
  }

  lemma LoseMisses(s: Tree)
    ensures Missing(ForkFailed(s)) <==> Missing(s)
  {
    var r := ForkFailed(s);
    assert forall c :: IsChild(r, c, INIT) <==> IsChild(s, c, INIT);
  }

  lemma WaitMisses(s: Tree, p: int)
    requires Inv(s) && Enabled(s, Wait(p))
    ensures Missing(Waited(s, p)) <==> Missing(s)
  {
    hide Without, HangingChild, NoTwice;
    var r := Waited(s, p);
    HangingChildIs(s, p, s.order);
    if Missing(s) {
      var c :| IsChild(s, c, INIT) && s.tasks[c].phase == Hanging;
      assert IsChild(r, c, INIT) && r.tasks[c].phase == Hanging;
    }
    if Missing(r) {
      var c :| IsChild(r, c, INIT) && r.tasks[c].phase == Hanging;
      assert IsChild(s, c, INIT) && s.tasks[c].phase == Hanging;
    }
  }

  /** For every step: the init process comes to sleep over a hanging child exactly when one is handed
      over to it in its sleep, and that ends exactly when another of its children ends its exit. */
  lemma MissStep(s: Tree, r: Tree, a: Step)
    requires Inv(s) && Next(s, r, a)
    ensures Missing(r) <==> HandsOver(s, a) || (Missing(s) && !WakesInit(s, a))
  {
    StepInv(s, r, a);
    hide Inv, Missing, HasHanging, Forked, ExitBegun, ExitEnded, Waited;
    match a
    case Fork(p) => ForkMisses(s, p);
    case LoseFork(_) => LoseMisses(s);
    case BeginExit(p, status) => BeginMisses(s, p, status);
    case EndExit(p) => EndMisses(s, p);
    case Wait(p) => WaitMisses(s, p);
  }

  /** Handed over at step `j`, and no child of the init process has ended its exit since. */
  ghost predicate MissedSince(ss: seq<Tree>, steps: seq<Step>, j: nat, i: nat)
    requires j < i <= |steps| < |ss|
  {
    HandsOver(ss[j], steps[j]) && forall k: nat :: j < k < i ==> !WakesInit(ss[k], steps[k])
  }

  /** Over whole runs: the init process sleeps over a hanging child exactly when some exit handed one
      over in its sleep and none of its own children has ended its exit since. */
  lemma {:induction false} MissRun(ss: seq<Tree>, steps: seq<Step>, i: nat)
    requires Run(ss, steps) && i <= |steps|
    ensures Missing(ss[i]) <==> exists j: nat :: j < i && MissedSince(ss, steps, j, i)
  {
    hide Inv, Missing, HandsOver, WakesInit;
    if i == 0 {
      StartNotMissing(ss[0]);
    } else {
      var h := i - 1;
      MissRun(ss, steps, h);
      RunInv(ss, steps, h);
      assert Next(ss[h], ss[h + 1], steps[h]);
      hide Next;
      MissStep(ss[h], ss[i], steps[h]);
      if HandsOver(ss[h], steps[h]) {
        assert MissedSince(ss, steps, h, i);
      } else if Missing(ss[i]) {
        var j: nat :| j < h && MissedSince(ss, steps, j, h);
        assert MissedSince(ss, steps, j, i);
      }
      if j: nat :| j < i && MissedSince(ss, steps, j, i) {
        if j < h {
          assert MissedSince(ss, steps, j, h) && !WakesInit(ss[h], steps[h]);
        }
      }
    }
  }

  lemma StartNotMissing(s: Tree)
    requires Start(s)
    ensures !Missing(s)
  {
  }

  /** The child that wakes the init process ends the miss: the wait that follows reaps a child. */
  lemma MissEnds(s: Tree, r: Tree, a: Step)
    requires Inv(s) && Next(s, r, a) && Missing(s) && WakesInit(s, a)
    ensures Enabled(r, Wait(INIT)) && WaitAnswer(r, INIT).Child?
  {
    hide HangingChild;
    StepInv(s, r, a);
    HangingChildIs(r, INIT, r.order);
    assert IsChild(r, a.p, INIT) && r.tasks[a.p].phase == Hanging && a.p in r.order;
  }

  /** The state after boot, with the three tasks the kernel starts. */
  ghost function Boot(): Tree {
    var t := Task(NOBODY, Active, 0);
    Tree(map[1 := t, 2 := t, 3 := t], [1, 2, 3], 3)
  }

  lemma Extended(ss: seq<Tree>, steps: seq<Step>, r: Tree, a: Step)
    requires Run(ss, steps) && Next(ss[|steps|], r, a)
    ensures Run(ss + [r], steps + [a])
  {
    hide Next, Start;
    var ts, bs := ss + [r], steps + [a];
    forall i | 0 <= i < |bs| ensures Next(ts[i], ts[i + 1], bs[i]) {
      if i < |steps| {
        assert Next(ss[i], ss[i + 1], steps[i]);
      }
    }
  }

  /** A line of three: a child of the init process, a grandchild and a great-grandchild. */
  ghost predicate Line(s: Tree) {
    && INIT in s.tasks && IsChild(s, 4, INIT) && IsChild(s, 5, 4) && IsChild(s, 6, 5)
    && forall t :: t in s.tasks ==> s.tasks[t].phase == Active
  }

  lemma LineForked() returns (ss: seq<Tree>, steps: seq<Step>)
    ensures Run(ss, steps) && ss[0] == Boot() && Line(ss[|steps|])
  {
    var s0 := Boot();
    var s1 := Forked(s0, INIT);
    var s2 := Forked(s1, 4);
    var s3 := Forked(s2, 5);
    ss, steps := [s0, s1, s2, s3], [Fork(INIT), Fork(4), Fork(5)];
    assert Next(s0, s1, Fork(INIT)) && Next(s1, s2, Fork(4)) && Next(s2, s3, Fork(5));
  }

  lemma InitBlocks(s: Tree)
    requires Inv(s) && Line(s)
    ensures Enabled(s, Wait(INIT)) && Waited(s, INIT) == With(s, INIT, s.tasks[INIT].(phase := Waiting))
  {
    hide HangingChild;
    HangingChildIs(s, INIT, s.order);
    assert HasChild(s, INIT);
  }

  /** A run in which it happens: the init process waits, the youngest of the line exits, and then its
      parent exits without having waited for it. */
  lemma MissReached() returns (ss: seq<Tree>, steps: seq<Step>)
    ensures Run(ss, steps) && ss[0] == Boot() && Missing(ss[|steps|])
  {
    hide Run, Inv, Waited, Boot;
    ss, steps := LineForked();
    RunInv(ss, steps, |steps|);
    var s3 := ss[|steps|];
    InitBlocks(s3);
    var s4 := Waited(s3, INIT);
    Extended(ss, steps, s4, Wait(INIT));
    var s5 := ExitBegun(s4, 6, 0);
    Extended(ss + [s4], steps + [Wait(INIT)], s5, BeginExit(6, 0));
    var s6 := ExitEnded(s5, 6);
    Extended(ss + [s4] + [s5], steps + [Wait(INIT)] + [BeginExit(6, 0)], s6, EndExit(6));
    var s7 := ExitBegun(s6, 5, 0);
    Extended(ss + [s4] + [s5] + [s6], steps + [Wait(INIT)] + [BeginExit(6, 0)] + [EndExit(6)], s7, BeginExit(5, 0));
    ss := ss + [s4] + [s5] + [s6] + [s7];
    steps := steps + [Wait(INIT)] + [BeginExit(6, 0)] + [EndExit(6)] + [BeginExit(5, 0)];
    assert IsChild(s7, 6, INIT) && s7.tasks[6].phase == Hanging;
  }

  /** Numbers given out are never given out again. */
  lemma {:induction false} NeverAgain(ss: seq<Tree>, steps: seq<Step>, i: nat, j: nat, c: int)
    requires Run(ss, steps) && i <= j <= |steps| && c <= ss[i].next && c !in ss[i].tasks
    ensures c <= ss[j].next && c !in ss[j].tasks
    decreases j
  {
    if i < j {
      var k := j - 1;
      NeverAgain(ss, steps, i, k, c);
      RunInv(ss, steps, k);
      assert Next(ss[k], ss[k + 1], steps[k]);
      KeepsOut(ss[k], ss[k + 1], steps[k], c);
    }
  }

  lemma KeepsOut(s: Tree, r: Tree, a: Step, c: int)
    requires Inv(s) && Next(s, r, a) && c <= s.next && c !in s.tasks
    ensures c <= r.next && c !in r.tasks
  {
    if a.EndExit? {
      EndInv(s, a.p);
    }
  }

  lemma ReapedIsGone(s: Tree, r: Tree, a: Step)
    requires Inv(s) && Next(s, r, a) && a.Wait? && WaitAnswer(s, a.p).Child?
    ensures var c := WaitAnswer(s, a.p).pid;
      && c in s.tasks && c <= s.next == r.next && c !in r.tasks && IsChild(s, c, a.p) && s.tasks[c].phase == Hanging
      && WaitAnswer(s, a.p).status == s.tasks[c].code
  {
    HangingChildIs(s, a.p, s.order);
    assert ParentOk(s, HangingChild(s, a.p, s.order));
  }

  /** No child is returned by two waits. */
  lemma ReapedOnce(ss: seq<Tree>, steps: seq<Step>, i: nat, j: nat)
    requires Run(ss, steps) && i < j < |steps| && steps[i].Wait? && steps[j].Wait?
    requires WaitAnswer(ss[i], steps[i].p).Child? && WaitAnswer(ss[j], steps[j].p).Child?
    ensures WaitAnswer(ss[i], steps[i].p).pid != WaitAnswer(ss[j], steps[j].p).pid
  {
    hide Inv, WaitAnswer;
    RunInv(ss, steps, i);
    RunInv(ss, steps, j);
    assert Next(ss[i], ss[i + 1], steps[i]) && Next(ss[j], ss[j + 1], steps[j]);
    ReapedIsGone(ss[i], ss[i + 1], steps[i]);
    ReapedIsGone(ss[j], ss[j + 1], steps[j]);
    NeverAgain(ss, steps, i + 1, j, WaitAnswer(ss[i], steps[i].p).pid);
  }

  /** A task that has begun to exit keeps the eight bits of its status until it is reaped. */
  lemma CodeKept(s: Tree, r: Tree, a: Step, c: int)
    requires Inv(s) && Next(s, r, a) && c in s.tasks && c in r.tasks
    requires (s.tasks[c].phase == Exiting || s.tasks[c].phase == Hanging)
    ensures r.tasks[c].code == s.tasks[c].code && (r.tasks[c].phase == Exiting || r.tasks[c].phase == Hanging)
  {
    if a.EndExit? {
      EndInv(s, a.p);
      assert ParentOk(s, a.p);
    }
  }

  /** From its exit until it is reaped a task keeps the low eight bits of the status it passed. */
  lemma {:induction false} KeptUntilReaped(ss: seq<Tree>, steps: seq<Step>, i: nat, j: nat, c: int, status: int)
    requires Run(ss, steps) && i < j <= |steps| && steps[i] == BeginExit(c, status) && c in ss[j].tasks
    ensures ss[j].tasks[c].code == Int8(status)
    ensures (ss[j].tasks[c].phase == Exiting || ss[j].tasks[c].phase == Hanging)
    decreases j
  {
    var k := j - 1;
    RunInv(ss, steps, k);
    assert Next(ss[k], ss[k + 1], steps[k]);
    if k > i {
      assert Next(ss[i], ss[i + 1], steps[i]);
      if c !in ss[k].tasks {
        Goes(ss, steps, i, k, c);
        NeverAgain(ss, steps, k, j, c);
      }
      KeptUntilReaped(ss, steps, i, k, c, status);
      CodeKept(ss[k], ss[j], steps[k], c);
    }
  }

  lemma Goes(ss: seq<Tree>, steps: seq<Step>, i: nat, k: nat, c: int)
    requires Run(ss, steps) && i < k <= |steps| && c in ss[i].tasks && c !in ss[k].tasks
    ensures c <= ss[k].next
  {
    assert c <= ss[k].next by {
      RunInv(ss, steps, i);
      NextGrows(ss, steps, i, k);
    }
  }

  lemma {:induction false} NextGrows(ss: seq<Tree>, steps: seq<Step>, i: nat, k: nat)
    requires Run(ss, steps) && i <= k <= |steps|
    ensures ss[i].next <= ss[k].next
    decreases k
  {
    if i < k {
      var j := k - 1;
      RunInv(ss, steps, j);
      NextGrows(ss, steps, i, j);
      assert Next(ss[j], ss[j + 1], steps[j]);
      if steps[j].EndExit? {
        EndInv(ss[j], steps[j].p);
      }
    }
  }

  /** The status a wait returns is the low eight bits of what the child passed to its exit. */
  lemma WaitReturnsStatus(ss: seq<Tree>, steps: seq<Step>, i: nat, j: nat, status: int)
    requires Run(ss, steps) && i < j < |steps| && steps[j].Wait? && WaitAnswer(ss[j], steps[j].p).Child?
    requires steps[i] == BeginExit(WaitAnswer(ss[j], steps[j].p).pid, status)
    ensures WaitAnswer(ss[j], steps[j].p).status == Int8(status)
  {
    hide Inv, WaitAnswer, Int8;
    RunInv(ss, steps, j);
    assert Next(ss[j], ss[j + 1], steps[j]);
    ReapedIsGone(ss[j], ss[j + 1], steps[j]);
    KeptUntilReaped(ss, steps, i, j, WaitAnswer(ss[j], steps[j].p).pid, status);
  }

  // ---- who is reaped ----

  /** The list of all tasks is in the order of their numbers. */
  ghost predicate Ascending(l: seq<int>) {
    forall i, j :: 0 <= i < j < |l| ==> l[i] < l[j]
  }

  lemma {:induction false} WithoutAscending(l: seq<int>, c: int)
    requires Ascending(l)
    ensures Ascending(Without(l, c)) && forall x :: x in Without(l, c) ==> x in l
  {
    if l != [] && l[0] != c {
      WithoutAscending(l[1..], c);
      var w := Without(l[1..], c);
      assert Without(l, c) == [l[0]] + w;
      forall j | 0 <= j < |w| ensures l[0] < w[j] {
        assert w[j] in w && w[j] in l[1..];
        var k :| 0 <= k < |l| - 1 && l[1..][k] == w[j];
        assert l[0] < l[k + 1];
      }
    }
  }

  lemma StepAscending(s: Tree, r: Tree, a: Step)
    requires Inv(s) && Next(s, r, a) && Ascending(s.order)
    ensures Ascending(r.order)
  {
    match a
    case Fork(p) =>
      ForkInv(s, p);
      forall i | 0 <= i < |s.order| ensures s.order[i] < s.next + 1 {
        assert s.order[i] in s.tasks;
      }
    case LoseFork(_) =>
    case BeginExit(_, _) =>
    case EndExit(p) => EndInv(s, p);
    case Wait(p) =>
      if WaitAnswer(s, p).Child? {
        WithoutAscending(s.order, WaitAnswer(s, p).pid);
      }
  }

  lemma {:induction false} RunAscending(ss: seq<Tree>, steps: seq<Step>, i: nat)
    requires Run(ss, steps) && Ascending(ss[0].order) && i <= |steps|
    ensures Ascending(ss[i].order)
  {
    hide Inv, Next, Ascending;
    if i > 0 {
      var j := i - 1;
      RunAscending(ss, steps, j);
      RunInv(ss, steps, j);
      assert Next(ss[j], ss[i], steps[j]);
      StepAscending(ss[j], ss[i], steps[j]);
    }
  }

  /** The hanging child found first is the one before all others in the list. */
  lemma {:induction false} FirstHanging(s: Tree, p: int, l: seq<int>, c: int)
    requires Ascending(l) && NOBODY !in l && c in l && IsChild(s, c, p) && s.tasks[c].phase == Hanging
    ensures HangingChild(s, p, l) in l && HangingChild(s, p, l) <= c
    ensures IsChild(s, HangingChild(s, p, l), p) && s.tasks[HangingChild(s, p, l)].phase == Hanging
  {
    if !(IsChild(s, l[0], p) && s.tasks[l[0]].phase == Hanging) {
      FirstHanging(s, p, l[1..], c);
    } else {
      var k :| 0 <= k < |l| && l[k] == c;
      assert k > 0 ==> l[0] < l[k];
    }
  }

  ghost predicate HangingChildOf(s: Tree, p: int, c: int) {
    IsChild(s, c, p) && s.tasks[c].phase == Hanging
  }

  /** A wait that finds a hanging child reaps one; it fails without children, and blocks otherwise. */
  lemma AnswerIs(s: Tree, p: int)
    requires Inv(s)
    ensures
      var r := WaitAnswer(s, p);
      && (r.Child? <==> exists c :: HangingChildOf(s, p, c)) && (r.NoChild? <==> forall c :: !IsChild(s, c, p))
      && (r.Child? ==> HangingChildOf(s, p, r.pid) && r.status == s.tasks[r.pid].code)
  {
    PositiveNumbers(s);
    HangingChildIs(s, p, s.order);
    hide Inv, HangingChild, NoTwice;
    var c := HangingChild(s, p, s.order);
    if c in s.tasks {
      assert HangingChildOf(s, p, c);
      assert IsChild(s, c, p);
    } else {
      forall d ensures !HangingChildOf(s, p, d) {
        assert d in s.tasks ==> d in s.order;
      }
    }
  }

  /** In every state of every run: a wait reaps the oldest of the hanging children if there is one, fails exactly
      without children, and blocks exactly when it has some but none hangs. */
  lemma ReapsOldest(ss: seq<Tree>, steps: seq<Step>, i: nat, p: int)
    requires Run(ss, steps) && Ascending(ss[0].order) && i <= |steps|
    ensures
      var s := ss[i];
      var r := WaitAnswer(s, p);
      && (r.Child? <==> exists c :: HangingChildOf(s, p, c)) && (r.NoChild? <==> forall c :: !IsChild(s, c, p))
      && (r.Child? ==> HangingChildOf(s, p, r.pid) && r.status == s.tasks[r.pid].code && forall c :: HangingChildOf(s, p, c) ==> r.pid <= c)
  {
    RunAscending(ss, steps, i);
    RunInv(ss, steps, i);
    var s := ss[i];
    PositiveNumbers(s);
    AnswerIs(s, p);
    forall c | HangingChildOf(s, p, c) ensures WaitAnswer(s, p).Child? && WaitAnswer(s, p).pid <= c {
      FirstHanging(s, p, s.order, c);
    }
  }

  // ---- what every step does to every task ----

  /** Task `t` is in both states with the same parent, phase and status. */
  ghost predicate Same(s: Tree, r: Tree, t: int) {
    t in s.tasks && t in r.tasks && r.tasks[t] == s.tasks[t]
  }

  /** The effect of a step on each task, said without the functions that carry it out. */
  ghost predicate DoesRight(s: Tree, r: Tree, a: Step, t: int) {
    r.next == (if a.Fork? || a.LoseFork? then s.next + 1 else s.next) &&
    match a
    case Fork(p) =>
      && (t in s.tasks ==> Same(s, r, t)) && (t in r.tasks && t !in s.tasks <==> t == s.next + 1)
      && (t == s.next + 1 ==> t in r.tasks && r.tasks[t].parent == p && r.tasks[t].phase == Active)
    case LoseFork(_) => t in s.tasks || t in r.tasks ==> Same(s, r, t)
    case BeginExit(p, status) =>
      && (t in r.tasks <==> t in s.tasks)
      && (t in s.tasks && t in r.tasks ==>
            var u, w := s.tasks[t], r.tasks[t];
            && w.parent == (if u.parent == p then INIT else u.parent) && w.phase == (if t == p then Exiting else u.phase)
            && (t != p ==> w.code == u.code) && (t == p ==> -128 <= w.code < 128 && (status - w.code) % 256 == 0))
    case EndExit(p) =>
      && (t in r.tasks <==> t in s.tasks)
      && (t in s.tasks && t in r.tasks && p in s.tasks ==>
            var u, w := s.tasks[t], r.tasks[t];
            && w.parent == u.parent && w.code == u.code
            && w.phase == if t == p then Hanging else if t == s.tasks[p].parent && u.phase == Waiting then Retrying else u.phase)
    case Wait(p) =>
      && (t in r.tasks ==> t in s.tasks && (t != p ==> Same(s, r, t)))
      && (t in s.tasks && t !in r.tasks ==> HangingChildOf(s, p, t))
      && (t == p && t in r.tasks && t in s.tasks ==>
            && r.tasks[t].parent == s.tasks[t].parent && r.tasks[t].code == s.tasks[t].code
            && r.tasks[t].phase == if (forall c :: !HangingChildOf(s, p, c)) && (exists c :: IsChild(s, c, p)) then Waiting else Active)
  }

  lemma StepDoesRight(s: Tree, r: Tree, a: Step, t: int)
    requires Inv(s) && Next(s, r, a)
    ensures DoesRight(s, r, a, t)
  {
    match a
    case Fork(p) => ForkInv(s, p);
    case LoseFork(p) => LoseInv(s, p);
    case BeginExit(p, status) =>
    case EndExit(p) => EndInv(s, p);
    case Wait(p) => WaitDoesRight(s, p, t);
  }

  lemma WaitDoesRight(s: Tree, p: int, t: int)
    requires Inv(s) && Enabled(s, Step.Wait(p))
    ensures DoesRight(s, Waited(s, p), Step.Wait(p), t)
  {
    AnswerIs(s, p);
    hide Inv, Without, HangingChild, NoTwice, WaitAnswer;
  }

  /** The calls as the kernel carries them out, list traversals and all. */
  class Processes {
    var tasks: map<int, Task>
    var order: seq<int>
    var next: int

    ghost function State(): Tree
      reads this
    {
      Tree(tasks, order, next)
    }

    /** Forks; `memory` says whether there is room for the child once it has its number. */
    method Fork(p: int, memory: bool) returns (c: int)
      requires Inv(State()) && Enabled(State(), Step.Fork(p))
      modifies this
      ensures Inv(State()) && State() == (if memory then Forked(old(State()), p) else ForkFailed(old(State())))
      ensures c == if memory then old(next) + 1 else -1
    {
      ForkInv(State(), p);
      LoseInv(State(), p);
      hide Inv;
      next := Int16(next + 1);
      if !memory {
        return -1;
      }
      c := next;
      tasks := tasks[c := Task(p, Active, tasks[p].code)];
      order := order + [c];
    }

    /** Hands every child of `p` over to the init process, one list element after the other. */
    method Adopt(p: int)
      requires Listed(State())
      modifies this`tasks
      ensures State() == Adopted(old(State()), p)
    {
      hide AdoptedTo, Adopted;
      ghost var s := State();
      AdoptNone(tasks, p);
      var i := 0;
      while i < |order|
        invariant 0 <= i <= |order| && tasks == AdoptedTo(s.tasks, p, order[..i])
      {
        var c := order[i];
        assert c in order && order[..i + 1] == order[..i] + [c] && c !in order[..i];
        AdoptStep(s.tasks, p, order[..i], c);
        if tasks[c].parent == p {
          tasks := tasks[c := tasks[c].(parent := INIT)];
        }
        i := i + 1;
      }
      assert order[..i] == order;
      AdoptAll(s, p);
    }

    method BeginExit(p: int, status: int)
      requires Inv(State()) && Enabled(State(), Step.BeginExit(p, status))
      modifies this
      ensures Inv(State()) && State() == ExitBegun(old(State()), p, status)
    {
      BeginInv(State(), p, status);
      ListedWith(State(), p, tasks[p].(code := Int8(status), phase := Exiting));
      hide Inv, Adopted, Listed;
      tasks := tasks[p := tasks[p].(code := Int8(status), phase := Exiting)];
      Adopt(p);
    }

    method EndExit(p: int)
      requires Inv(State()) && Enabled(State(), Step.EndExit(p))
      modifies this
      ensures old(tasks[p].parent) in old(tasks) && Inv(State()) && State() == ExitEnded(old(State()), p)
    {
      EndInv(State(), p);
      hide Inv;
      var q := tasks[p].parent;
      if tasks[q].phase == Waiting {
        tasks := tasks[q := tasks[q].(phase := Retrying)];
      }
      tasks := tasks[p := tasks[p].(phase := Hanging)];
    }

    method FindHangingChild(p: int) returns (c: int)
      requires Listed(State())
      ensures c == HangingChild(State(), p, order)
    {
      var i := 0;
      while i < |order|
        invariant 0 <= i <= |order| && HangingChild(State(), p, order) == HangingChild(State(), p, order[i..])
      {
        var t := order[i];
        assert t in order && order[i..][1..] == order[i + 1..];
        if tasks[t].parent == p && tasks[t].phase == Hanging {
          return t;
        }
        i := i + 1;
      }
      c := NOBODY;
    }

    method FindChild(p: int) returns (found: bool)
      requires Listed(State())
      ensures found <==> HasChild(State(), p)
    {
      var i := 0;
      while i < |order|
        invariant 0 <= i <= |order| && forall k :: 0 <= k < i ==> !IsChild(State(), order[k], p)
      {
        var t := order[i];
        assert t in State().order;
        if tasks[t].parent == p {
          assert IsChild(State(), t, p);
          return true;
        }
        i := i + 1;
      }
      forall c | c in tasks ensures !IsChild(State(), c, p) {
        assert c in order;
      }
      found := false;
    }

    /** One turn of the loop in a wait. */
    method Wait(p: int) returns (r: WaitResult)
      requires Inv(State()) && Enabled(State(), Step.Wait(p))
      modifies this
      ensures Inv(State()) && r == WaitAnswer(old(State()), p) && State() == Waited(old(State()), p)
    {
      ghost var s := State();
      StepInv(s, Waited(s, p), Step.Wait(p));
      PositiveNumbers(s);
      HangingChildIs(s, p, order);
      hide Inv, HangingChild, Without;
      var c := FindHangingChild(p);
      if c != NOBODY {
        r := Child(c, tasks[c].code);
        order := Without(order, c);
        tasks := (tasks - {c})[p := tasks[p].(phase := Active)];
        return;
      }
      var some := FindChild(p);
      if !some {
        r := NoChild;
        tasks := tasks[p := tasks[p].(phase := Active)];
      } else {
        r := Blocks;
        tasks := tasks[p := tasks[p].(phase := Waiting)];
      }
    }
  }

  /** The children of `p` among `l` handed over. */
  ghost function AdoptedTo(m: map<int, Task>, p: int, l: seq<int>): map<int, Task> {
    map c | c in m :: if c in l && m[c].parent == p then m[c].(parent := INIT) else m[c]
  }

  lemma AdoptNone(m: map<int, Task>, p: int)
    ensures AdoptedTo(m, p, []) == m
  {
  }

  lemma AdoptStep(m: map<int, Task>, p: int, l: seq<int>, c: int)
    requires c in m && c !in l
    ensures c in AdoptedTo(m, p, l) && AdoptedTo(m, p, l)[c] == m[c]
    ensures AdoptedTo(m, p, l + [c]) == if m[c].parent == p then AdoptedTo(m, p, l)[c := m[c].(parent := INIT)] else AdoptedTo(m, p, l)
  {
  }

  lemma AdoptAll(s: Tree, p: int)
    requires Listed(s)
    ensures Adopted(s, p) == s.(tasks := AdoptedTo(s.tasks, p, s.order))
  {
    var a, b := Adopted(s, p).tasks, AdoptedTo(s.tasks, p, s.order);
    assert a.Keys == s.tasks.Keys == b.Keys;
    forall c | c in s.tasks ensures a[c] == b[c] {
      assert c in s.order;
    }
    assert a == b;
  }

  lemma ListedWith(s: Tree, p: int, t: Task)
    requires Inv(s) && p in s.tasks
    ensures Listed(With(s, p, t))
  {
  }

  lemma PositiveNumbers(s: Tree)
    requires Inv(s)
    ensures Listed(s) && NOBODY !in s.order && NOBODY !in s.tasks
  {
  }
}
