/** Processes, their parents, and the fork, exit and wait calls. */
module ProcessStates {
  import opened Queues

  const INIT := 1
  const NOBODY := -1

  /** `Exiting`: between handing the children over and hanging. `Waiting`: blocked in a wait.
      `Retrying`: woken in a wait, about to look again. */
  datatype Phase = Active | Exiting | Waiting | Retrying | Hanging

  datatype Task = Task(parent: int, phase: Phase, code: int)

  /** `order` is the list of all tasks; `next` is the last number given out. */
  datatype Tree = Tree(tasks: map<int, Task>, order: seq<int>, next: int)

  /** A number stored in sixteen bits. */
  function Int16(x: int): (r: int)
    ensures -0x8000 <= r <= 0x7fff && (-0x8000 <= x <= 0x7fff ==> r == x)
  {
    (x + 0x8000) % 0x10000 - 0x8000
  }

  /** The exit status as the eight bits that are kept of it. */
  function Int8(x: int): (r: int)
    ensures -128 <= r < 128 && (x - r) % 256 == 0
  {
    (x + 128) % 256 - 128
  }

  predicate Alive(p: Phase) {
    p == Active || p == Waiting || p == Retrying
  }

  predicate IsChild(s: Tree, c: int, p: int) {
    c in s.tasks && s.tasks[c].parent == p
  }

  /** The parent of `c` is nobody or a listed task that is neither exiting nor hanging. */
  ghost predicate ParentOk(s: Tree, c: int) {
    c in s.tasks && s.tasks[c].parent != NOBODY ==> s.tasks[c].parent in s.tasks && Alive(s.tasks[s.tasks[c].parent].phase)
  }

  /** A waiting task has a child, and none of its children hangs unless it is the init process. */
  ghost predicate WaiterOk(s: Tree, p: int) {
    p in s.tasks && s.tasks[p].phase == Waiting ==>
      && (exists c :: IsChild(s, c, p))
      && (p != INIT ==> forall c :: IsChild(s, c, p) ==> s.tasks[c].phase != Hanging)
  }

  ghost predicate Listed(s: Tree) {
    NoTwice(s.order) && forall t :: t in s.order <==> t in s.tasks
  }

  ghost predicate Inv(s: Tree) {
    && Listed(s) && INIT in s.tasks && s.tasks[INIT].parent == NOBODY && Alive(s.tasks[INIT].phase)
    && (forall c :: ParentOk(s, c)) && (forall p :: WaiterOk(s, p))
    && (forall t :: t in s.tasks ==> 0 < t <= s.next && (s.tasks[t].parent == NOBODY ==> Alive(s.tasks[t].phase)))
  }

  // ---- the calls ----

  function With(s: Tree, p: int, t: Task): Tree {
    s.(tasks := s.tasks[p := t])
  }

  function Forked(s: Tree, p: int): Tree
    requires p in s.tasks
  {
    var c := Int16(s.next + 1);
    Tree(s.tasks[c := Task(p, Active, s.tasks[p].code)], s.order + [c], c)
  }

  /** A fork that runs out of memory has taken a number all the same. */
  function ForkFailed(s: Tree): Tree {
    s.(next := Int16(s.next + 1))
  }

  /** The children of `p` become the init process's. */
  function Adopted(s: Tree, p: int): Tree {
    s.(tasks := map c | c in s.tasks :: if s.tasks[c].parent == p then s.tasks[c].(parent := INIT) else s.tasks[c])
  }

  /** First half of an exit: the status is kept and the children are handed over. */
  function ExitBegun(s: Tree, p: int, status: int): Tree
    requires p in s.tasks
  {
    Adopted(With(s, p, s.tasks[p].(code := Int8(status), phase := Exiting)), p)
  }

  /** Second half: a waiting parent is woken, and the task hangs. */
  function ExitEnded(s: Tree, p: int): Tree
    requires p in s.tasks && s.tasks[p].parent in s.tasks
  {
    var q := s.tasks[p].parent;
    var r := if s.tasks[q].phase == Waiting then With(s, q, s.tasks[q].(phase := Retrying)) else s;
    With(r, p, r.tasks[p].(phase := Hanging))
  }

  /** The first child of `p` in the list that hangs, or -1. */
  function HangingChild(s: Tree, p: int, l: seq<int>): int {
    if l == [] then NOBODY
    else if IsChild(s, l[0], p) && s.tasks[l[0]].phase == Hanging then l[0]
    else HangingChild(s, p, l[1..])
  }

  predicate HasChild(s: Tree, p: int) {
    exists c :: c in s.tasks && IsChild(s, c, p)
  }

  function Reaped(s: Tree, c: int): Tree {
    s.(tasks := s.tasks - {c}, order := Without(s.order, c))
  }

  /** One turn of the loop in a wait: a hanging child is reaped, or there is no child, or the task blocks. */
  datatype WaitResult = Child(pid: int, status: int) | NoChild | Blocks

  function WaitAnswer(s: Tree, p: int): WaitResult {
    var c := HangingChild(s, p, s.order);
    if c in s.tasks then Child(c, s.tasks[c].code) else if HasChild(s, p) then Blocks else NoChild
  }

  function Waited(s: Tree, p: int): Tree
    requires p in s.tasks
  {
    match WaitAnswer(s, p)
    case Child(c, _) => With(Reaped(s, c), p, s.tasks[p].(phase := Active))
    case NoChild => With(s, p, s.tasks[p].(phase := Active))
    case Blocks => With(s, p, s.tasks[p].(phase := Waiting))
  }

  /** `LoseFork`: a fork fails after its child was numbered. */
  datatype Step = Fork(p: int) | LoseFork(p: int) | BeginExit(p: int, status: int) | EndExit(p: int) | Wait(p: int)

  /** The init process does not exit: it has no parent, and the kernel stops if it tries. The last number that
      can be given out is 0x7fff. */
  ghost predicate Enabled(s: Tree, a: Step) {
    a.p in s.tasks &&
    match a
    case Fork(p) => s.tasks[p].phase == Active && s.next < 0x7fff
    case LoseFork(p) => s.tasks[p].phase == Active && s.next < 0x7fff
    case BeginExit(p, _) => s.tasks[p].phase == Active && s.tasks[p].parent != NOBODY
    case EndExit(p) => s.tasks[p].phase == Exiting
    case Wait(p) => s.tasks[p].phase == Active || s.tasks[p].phase == Retrying
  }
}

/** Every process call keeps the tree of processes. */
module ProcessProofs {
  import opened Queues
  import opened ProcessStates

  lemma {:induction false} HangingChildIs(s: Tree, p: int, l: seq<int>)
    requires NOBODY !in l
    ensures var c := HangingChild(s, p, l);
      if c == NOBODY then forall d :: d in l && IsChild(s, d, p) ==> s.tasks[d].phase != Hanging
      else c in l && IsChild(s, c, p) && s.tasks[c].phase == Hanging
  {
    if l != [] {
      HangingChildIs(s, p, l[1..]);
      forall d | d in l && d != l[0] ensures d in l[1..] {
        var k :| 0 <= k < |l| && l[k] == d;
        assert l[1..][k - 1] == d;
      }
    }
  }

  lemma ForkInv(s: Tree, p: int)
    requires Inv(s) && Enabled(s, Fork(p))
    ensures Inv(Forked(s, p)) && s.next + 1 !in s.tasks && Forked(s, p).next == s.next + 1
  {
    var r, c := Forked(s, p), s.next + 1;
    assert Int16(c) == c;
    assert c !in s.order;
    forall d ensures ParentOk(r, d) {
      assert ParentOk(s, d);
    }
    forall q ensures WaiterOk(r, q) {
      assert WaiterOk(s, q);
      if q in r.tasks && r.tasks[q].phase == Waiting {
        var d :| IsChild(s, d, q);
        assert IsChild(r, d, q);
      }
    }
  }

  lemma LoseInv(s: Tree, p: int)
    requires Inv(s) && Enabled(s, LoseFork(p))
    ensures Inv(ForkFailed(s)) && ForkFailed(s).next == s.next + 1
  {
    var r := ForkFailed(s);
    forall d ensures ParentOk(r, d) && WaiterOk(r, d) {
      assert ParentOk(s, d) && WaiterOk(s, d);
      if d in r.tasks && r.tasks[d].phase == Waiting {
        var c :| IsChild(s, c, d);
        assert IsChild(r, c, d);
      }
    }
  }

  /** The number behind 0x7fff is negative: a fork of an active task keeps the invariant exactly as long as
      fewer numbers have been given out. */
  lemma ForkExactly(s: Tree, p: int)
    requires Inv(s) && p in s.tasks && s.tasks[p].phase == Active && s.next <= 0x7fff
    ensures Inv(Forked(s, p)) <==> s.next < 0x7fff
    ensures s.next == 0x7fff ==> Forked(s, p).next == -0x8000
  {
    if s.next < 0x7fff {
      ForkInv(s, p);
    } else {
      assert Int16(s.next + 1) == -0x8000 && -0x8000 in Forked(s, p).tasks;
    }
  }

  /** Once a task has begun to exit nobody is its child any more. */
  lemma BeginInv(s: Tree, p: int, status: int)
    requires Inv(s) && Enabled(s, BeginExit(p, status))
    ensures Inv(ExitBegun(s, p, status)) && !(exists c :: IsChild(ExitBegun(s, p, status), c, p))
  {
    var r := ExitBegun(s, p, status);
    assert p != INIT && ParentOk(s, p);
    assert r.tasks.Keys == s.tasks.Keys;
    forall d ensures ParentOk(r, d) {
      assert ParentOk(s, d);
    }
    forall q ensures WaiterOk(r, q) {
      assert WaiterOk(s, q);
      if q in r.tasks && r.tasks[q].phase == Waiting {
        var d :| IsChild(s, d, q);
        assert IsChild(r, d, q);
      }
    }
  }

  /** The parent is there when the exit ends, and waking it is in time. */
  lemma EndInv(s: Tree, p: int)
    requires Inv(s) && Enabled(s, EndExit(p))
    ensures s.tasks[p].parent in s.tasks && Inv(ExitEnded(s, p))
  {
    assert ParentOk(s, p);
    var r, q := ExitEnded(s, p), s.tasks[p].parent;
    assert q != p;
    forall d ensures ParentOk(r, d) {
      assert ParentOk(s, d);
    }
    forall u ensures WaiterOk(r, u) {
      assert WaiterOk(s, u);
      if u in r.tasks && r.tasks[u].phase == Waiting {
        var d :| IsChild(s, d, u);
        assert IsChild(r, d, u);
      }
    }
  }

  lemma ReapInv(s: Tree, p: int)
    requires Inv(s) && Enabled(s, Wait(p)) && WaitAnswer(s, p).Child?
    ensures Inv(Waited(s, p))
  {
    hide Without, HangingChild, NoTwice;
    var c, r := HangingChild(s, p, s.order), Waited(s, p);
    HangingChildIs(s, p, s.order);
    WithoutHas(s.order, c);
    forall d ensures ParentOk(r, d) {
      assert ParentOk(s, d);
    }
    forall u ensures WaiterOk(r, u) {
      assert WaiterOk(s, u);
      if u in r.tasks && r.tasks[u].phase == Waiting {
        var d :| IsChild(s, d, u);
        assert IsChild(r, d, u);
      }
    }
  }

  lemma NoReapInv(s: Tree, p: int)
    requires Inv(s) && Enabled(s, Wait(p)) && !WaitAnswer(s, p).Child?
    ensures Inv(Waited(s, p))
  {
    var r := Waited(s, p);
    HangingChildIs(s, p, s.order);
    forall d ensures ParentOk(r, d) {
      assert ParentOk(s, d);
    }
    forall u ensures WaiterOk(r, u) {
      assert WaiterOk(s, u);
      if u in r.tasks && r.tasks[u].phase == Waiting {
        assert exists d :: IsChild(s, d, u);
        var d :| IsChild(s, d, u);
        assert IsChild(r, d, u);
      }
    }
  }
}
