/**
 wait_all over trees of tasks: the counter, awaiter and task of
 include/ptl/experimental/coroutine/detail/wait_all_counter.hpp, wait_all_awaiter.hpp and
 wait_all_task.hpp.

 Node 0 is a coroutine awaiting a wait_all of its children; every other node is a wait_all task
 whose body awaits a wait_all of its own children, and a node without children awaits the empty
 one, so that trees of every shape are covered. Each fetch-sub is one step. Starting a task and
 its running are separate steps, so a task may complete while it is being started or at any
 later time on any thread.
 */
module WaitAll {
  import opened Wrappers

  type Node = nat

  /** How a task's body ends: a value yielded, a void return, or an exception caught by the promise. */
  datatype Outcome = Value(v: int) | Void | Exception(e: int)

  datatype Phase =
    | Unstarted
    | Starting(started: nat)   // inside start_tasks, so many children started
    | Stored                   // coroutine_ assigned, fetch_sub of begin_await to come
    | Suspended                // begin_await returned true
    | Proceeding               // past the co_await
    | Finished                 // body ended, result stored; its own notification to come
    | Resuming                 // its notification was the last: about to resume the parent
    | Done

  /** The children of each node in order; and, but for the root, its parent and its place among its siblings. */
  datatype Tree = Tree(kids: seq<seq<Node>>, parent: seq<Node>, index: seq<nat>)

  /** `last` is history: the child whose notification brought a node's counter to zero. */
  datatype State = State(
    tree: Tree, phase: seq<Phase>, count: seq<int>, coroutine: seq<Option<Node>>, result: seq<Option<Outcome>>,
    last: seq<Option<Node>>)

  // ---------------------------------------------------------------- trees

  ghost predicate IsTree(t: Tree)
  {
    && 0 < |t.kids| == |t.parent| == |t.index|
    && (forall k, i :: 0 <= k < |t.kids| && 0 <= i < |t.kids[k]| ==> KidAt(t, k, i))
    && (forall c :: 0 < c < |t.kids| ==> HasParent(t, c))
  }

  ghost predicate KidAt(t: Tree, k: Node, i: nat)
    requires |t.kids| == |t.parent| == |t.index| && k < |t.kids| && i < |t.kids[k]|
  {
    var c := t.kids[k][i];
    k < c < |t.kids| && t.parent[c] == k && t.index[c] == i
  }

  ghost predicate HasParent(t: Tree, c: Node)
    requires 0 < c < |t.kids| == |t.parent| == |t.index|
  {
    var p := t.parent[c];
    p < c && t.index[c] < |t.kids[p]| && t.kids[p][t.index[c]] == c
  }

  ghost predicate Shape(s: State)
  {
    && IsTree(s.tree)
    && |s.phase| == |s.count| == |s.coroutine| == |s.result| == |s.last| == |s.tree.kids|
  }

  /** Each counter starts at the number of tasks plus one share for begin_await. */
  function Init(t: Tree): State
  {
    var n := |t.kids|;
    State(t,
          seq(n, k => if k == 0 then Starting(0) else Unstarted),
          seq(n, k requires 0 <= k < n => |t.kids[k]| + 1),
          seq(n, _ => None), seq(n, _ => None), seq(n, _ => None))
  }

  // ---------------------------------------------------------------- steps

  ghost predicate Enabled(s: State, k: Node)
  {
    && Shape(s) && k < |s.phase|
    && !s.phase[k].Unstarted? && !s.phase[k].Suspended? && !s.phase[k].Done?
    && (k == 0 ==> !s.phase[k].Finished? && !s.phase[k].Resuming?)
  }

  function SetPhase(s: State, k: Node, p: Phase): State
    requires k < |s.phase|
  {
    s.(phase := s.phase[k := p])
  }

  /** begin_await's decrement: suspend unless the last share is its own. */
  ghost function FetchSubBegin(s: State, k: Node): State
    requires Shape(s) && k < |s.phase|
  {
    SetPhase(s.(count := s.count[k := s.count[k] - 1]), k, if s.count[k] > 1 then Suspended else Proceeding)
  }

  /** notify_complete's decrement of the parent's counter: whoever takes the last share resumes. */
  ghost function FetchSubNotify(s: State, k: Node): (r: State)
    requires Shape(s) && 0 < k < |s.phase|
    ensures Shape(r) && r.tree == s.tree && |r.phase| == |s.phase|
  {
    assert HasParent(s.tree, k);
    var p := s.tree.parent[k];
    if s.count[p] == 1
    then SetPhase(s.(count := s.count[p := 0], last := s.last[p := Some(k)]), k, Resuming)
    else SetPhase(s.(count := s.count[p := s.count[p] - 1]), k, Done)
  }

  /** Resuming an unset handle, or one not suspended, would be an error; the invariant excludes both. */
  ghost function ResumeParent(s: State, k: Node): State
    requires Shape(s) && 0 < k < |s.phase|
  {
    assert HasParent(s.tree, k);
    var resumed := s.coroutine[s.tree.parent[k]];
    if resumed.Some? && resumed.value < |s.phase|
    then SetPhase(SetPhase(s, resumed.value, Proceeding), k, Done)
    else SetPhase(s, k, Done)
  }

  ghost function StartTasks(s: State, k: Node): State
    requires Shape(s) && k < |s.phase| && s.phase[k].Starting?
  {
    var kids, i := s.tree.kids[k], s.phase[k].started;
    if i < |kids| then
      assert KidAt(s.tree, k, i);
      SetPhase(SetPhase(s, kids[i], Starting(0)), k, Starting(i + 1))
    else if kids == [] then SetPhase(s, k, Proceeding)
    else SetPhase(s.(coroutine := s.coroutine[k := Some(k)]), k, Stored)
  }

  /** Node k takes its next step; `r` is how its body ends, when that is the step. */
  ghost function Next(s: State, k: Node, r: Outcome): State
    requires Enabled(s, k)
  {
    match s.phase[k]
    case Starting(_) => StartTasks(s, k)
    case Stored => FetchSubBegin(s, k)
    case Proceeding => SetPhase(s.(result := s.result[k := Some(r)]), k, Finished)
    case Finished => FetchSubNotify(s, k)
    case Resuming => ResumeParent(s, k)
  }

  // ---------------------------------------------------------------- invariant

  predicate Notified(p: Phase)
  {
    p.Resuming? || p.Done?
  }

  predicate PastAwait(p: Phase)
  {
    p.Proceeding? || p.Finished? || p.Resuming? || p.Done?
  }

  /** How many of these tasks have not notified. */
  ghost function Pending(phase: seq<Phase>, tasks: seq<Node>): nat
  {
    if tasks == [] then 0
    else (if tasks[0] < |phase| && Notified(phase[tasks[0]]) then 0 else 1) + Pending(phase, tasks[1..])
  }

  predicate HoldsShare(p: Phase)
  {
    p.Unstarted? || p.Starting? || p.Stored?
  }

  /** The counter is what has yet to notify, plus begin_await's share until dropped; an empty wait_all has none. */
  ghost predicate CountOk(s: State, k: Node)
    requires Shape(s) && k < |s.phase|
  {
    s.tree.kids[k] != [] ==> s.count[k] == Pending(s.phase, s.tree.kids[k]) + (if HoldsShare(s.phase[k]) then 1 else 0)
  }

  ghost predicate NodeOk(s: State, k: Node)
    requires Shape(s) && k < |s.phase|
  {
    && (s.phase[k].Starting? ==> s.phase[k].started <= |s.tree.kids[k]|)
    && (s.phase[k].Stored? || s.phase[k].Suspended? ==> s.coroutine[k] == Some(k) && s.tree.kids[k] != [])
    && (s.phase[k].Suspended? && s.count[k] == 0 ==>
        && s.last[k].Some? && 0 < s.last[k].value < |s.phase|
        && s.tree.parent[s.last[k].value] == k && s.phase[s.last[k].value].Resuming?)
    && (s.result[k].Some? <==> s.phase[k].Finished? || Notified(s.phase[k]))
    && (k == 0 ==> !s.phase[k].Unstarted? && !Notified(s.phase[k]))
  }

  /** A task against its parent. */
  ghost predicate TaskOk(s: State, c: Node)
    requires Shape(s) && 0 < c < |s.phase|
  {
    assert HasParent(s.tree, c);
    var p := s.tree.parent[c];
    && (s.phase[p].Unstarted? ==> s.phase[c].Unstarted?)
    && (s.phase[p].Starting? ==> (s.phase[c].Unstarted? <==> s.phase[p].started <= s.tree.index[c]))
    && (!s.phase[p].Unstarted? && !s.phase[p].Starting? ==> !s.phase[c].Unstarted?)
    && (PastAwait(s.phase[p]) ==> s.phase[c].Done?)
    && (s.phase[c].Resuming? ==> s.phase[p].Suspended? && s.count[p] == 0 && s.last[p] == Some(c))
  }

  ghost predicate Inv(s: State)
  {
    && Shape(s)
    && (forall k :: 0 <= k < |s.phase| ==> CountOk(s, k))
    && (forall k :: 0 <= k < |s.phase| ==> NodeOk(s, k))
    && (forall c :: 0 < c < |s.phase| ==> TaskOk(s, c))
  }

  // ---------------------------------------------------------------- counting

  lemma {:induction false} PendingSame(phase: seq<Phase>, k: Node, p: Phase, tasks: seq<Node>)
    requires k < |phase| && (k in tasks ==> Notified(p) == Notified(phase[k]))
    ensures Pending(phase[k := p], tasks) == Pending(phase, tasks)
  {
    if tasks != [] { PendingSame(phase, k, p, tasks[1..]); }
  }

  /** One task notifying makes one task fewer pending. */
  lemma {:induction false} PendingNotify(phase: seq<Phase>, c: Node, p: Phase, tasks: seq<Node>, i: nat)
    requires c < |phase| && !Notified(phase[c]) && Notified(p) && i < |tasks|
    requires forall j :: 0 <= j < |tasks| ==> (tasks[j] == c <==> j == i)
    ensures Pending(phase, tasks) == Pending(phase[c := p], tasks) + 1
  {
    assert forall j :: 0 <= j < |tasks[1..]| ==> tasks[1..][j] == tasks[j + 1];
    if i == 0 {
      PendingSame(phase, c, p, tasks[1..]);
    } else {
      PendingNotify(phase, c, p, tasks[1..], i - 1);
    }
  }

  lemma {:induction false} PendingZero(phase: seq<Phase>, tasks: seq<Node>, i: nat)
    requires Pending(phase, tasks) == 0 && i < |tasks|
    ensures tasks[i] < |phase| && Notified(phase[tasks[i]])
  {
    if i > 0 { PendingZero(phase, tasks[1..], i - 1); }
  }

  lemma {:induction false} PendingAll(phase: seq<Phase>, tasks: seq<Node>)
    requires forall i :: 0 <= i < |tasks| ==> tasks[i] < |phase| && !Notified(phase[tasks[i]])
    ensures Pending(phase, tasks) == |tasks|
  {
    if tasks != [] { PendingAll(phase, tasks[1..]); }
  }

  // ---------------------------------------------------------------- preservation

  lemma InvInit(t: Tree)
    requires IsTree(t)
    ensures Inv(Init(t))
  {
    var s := Init(t);
    forall k | 0 <= k < |s.phase| ensures CountOk(s, k) {
      forall i | 0 <= i < |t.kids[k]| ensures t.kids[k][i] < |s.phase| && s.phase[t.kids[k][i]] == Unstarted {
        assert KidAt(t, k, i);
      }
      PendingAll(s.phase, t.kids[k]);
    }
    forall c | 0 < c < |s.phase| ensures TaskOk(s, c) { assert HasParent(t, c); }
  }

  lemma InvNext(s: State, k: Node, r: Outcome)
    requires Inv(s) && Enabled(s, k)
    ensures Inv(Next(s, k, r))
  {
    assert NodeOk(s, k);
    match s.phase[k]
    case Starting(i) => if i < |s.tree.kids[k]| { InvStart(s, k); } else { InvOwn(s, k, r); }
    case Stored => InvOwn(s, k, r);
    case Proceeding => InvOwn(s, k, r);
    case Finished => InvNotify(s, k);
    case Resuming => InvResume(s, k);
  }

  /** Once nothing is pending, every task of k is done, unless one is about to resume k. */
  lemma AllDone(s: State, k: Node, c: Node)
    requires Inv(s) && 0 < c < |s.phase| && s.tree.parent[c] == k < |s.phase|
    requires Pending(s.phase, s.tree.kids[k]) == 0
    ensures s.phase[c].Done? || (s.phase[c].Resuming? && s.last[k] == Some(c))
  {
    assert HasParent(s.tree, c) && TaskOk(s, c);
    PendingZero(s.phase, s.tree.kids[k], s.tree.index[c]);
  }

  /** Steps that change nothing but node k's own phase, counter, handle and result. */
  lemma InvOwn(s: State, k: Node, r: Outcome)
    requires Inv(s) && Enabled(s, k)
    requires || s.phase[k].Stored? || s.phase[k].Proceeding?
             || (s.phase[k].Starting? && s.phase[k].started == |s.tree.kids[k]|)
    ensures Inv(Next(s, k, r))
  {
    var s' := Next(s, k, r);
    assert NodeOk(s, k) && CountOk(s, k);
    forall j | 0 <= j < |s.phase| ensures CountOk(s', j) {
      assert CountOk(s, j);
      PendingSame(s.phase, k, s'.phase[k], s.tree.kids[j]);
    }
    forall j | 0 <= j < |s.phase| ensures NodeOk(s', j) { assert NodeOk(s, j); }
    forall c | 0 < c < |s.phase| ensures TaskOk(s', c) {
      assert TaskOk(s, c) && HasParent(s.tree, c);
      if s.tree.parent[c] == k && PastAwait(s'.phase[k]) && !PastAwait(s.phase[k]) {
        if s.tree.kids[k] != [] { AllDone(s, k, c); }
      }
    }
  }

  lemma InvStart(s: State, k: Node)
    requires Inv(s) && Enabled(s, k) && s.phase[k].Starting? && s.phase[k].started < |s.tree.kids[k]|
    ensures Inv(StartTasks(s, k))
  {
    var s' := StartTasks(s, k);
    var i := s.phase[k].started;
    var d := s.tree.kids[k][i];
    assert NodeOk(s, k) && KidAt(s.tree, k, i) && TaskOk(s, d);
    var middle := s.phase[d := Starting(0)];
    forall j | 0 <= j < |s.phase| ensures CountOk(s', j) {
      assert CountOk(s, j);
      PendingSame(s.phase, d, Starting(0), s.tree.kids[j]);
      PendingSame(middle, k, Starting(i + 1), s.tree.kids[j]);
    }
    forall j | 0 <= j < |s.phase| ensures NodeOk(s', j) { assert NodeOk(s, j); }
    forall c | 0 < c < |s.phase| ensures TaskOk(s', c) { assert TaskOk(s, c) && HasParent(s.tree, c); }
  }

  lemma KidParent(t: Tree, k: Node, c: Node)
    requires IsTree(t) && k < |t.kids|
    ensures c in t.kids[k] ==> c < |t.kids| && t.parent[c] == k
  {
    if i :| 0 <= i < |t.kids[k]| && t.kids[k][i] == c { assert KidAt(t, k, i); }
  }

  /** While a task has yet to notify, its parent counts it, and takes a last share only when suspended. */
  lemma NotifyParent(s: State, k: Node)
    requires Inv(s) && Enabled(s, k) && s.phase[k].Finished?
    ensures HasParent(s.tree, k)
    ensures var p := s.tree.parent[k];
      s.tree.kids[p] != [] && s.count[p] >= 1 && !PastAwait(s.phase[p]) && (s.count[p] == 1 ==> s.phase[p].Suspended?)
    ensures var p := s.tree.parent[k];
      Pending(FetchSubNotify(s, k).phase, s.tree.kids[p]) == Pending(s.phase, s.tree.kids[p]) - 1
  {
    assert HasParent(s.tree, k);
    var p := s.tree.parent[k];
    assert TaskOk(s, k) && CountOk(s, p);
    forall i | 0 <= i < |s.tree.kids[p]| ensures s.tree.kids[p][i] == k <==> i == s.tree.index[k] {
      assert KidAt(s.tree, p, i);
    }
    PendingNotify(s.phase, k, FetchSubNotify(s, k).phase[k], s.tree.kids[p], s.tree.index[k]);
  }

  lemma NotifyCounts(s: State, k: Node, j: Node)
    requires Inv(s) && Enabled(s, k) && s.phase[k].Finished? && j < |s.phase|
    ensures CountOk(FetchSubNotify(s, k), j)
  {
    var s' := FetchSubNotify(s, k);
    NotifyParent(s, k);
    assert CountOk(s, j);
    if j != s.tree.parent[k] {
      KidParent(s.tree, j, k);
      PendingSame(s.phase, k, s'.phase[k], s.tree.kids[j]);
    }
  }

  lemma NotifyTasks(s: State, k: Node, c: Node)
    requires Inv(s) && Enabled(s, k) && s.phase[k].Finished? && 0 < c < |s.phase|
    ensures TaskOk(FetchSubNotify(s, k), c)
  {
    NotifyParent(s, k);
    assert TaskOk(s, c) && HasParent(s.tree, c);
  }

  lemma NotifyNodes(s: State, k: Node, j: Node)
    requires Inv(s) && Enabled(s, k) && s.phase[k].Finished? && j < |s.phase|
    ensures NodeOk(FetchSubNotify(s, k), j)
  {
    NotifyParent(s, k);
    assert NodeOk(s, j) && NodeOk(s, k);
  }

  lemma InvNotify(s: State, k: Node)
    requires Inv(s) && Enabled(s, k) && s.phase[k].Finished?
    ensures Inv(FetchSubNotify(s, k))
  {
    var s' := FetchSubNotify(s, k);
    forall j | 0 <= j < |s.phase| ensures CountOk(s', j) { NotifyCounts(s, k, j); }
    forall j | 0 <= j < |s.phase| ensures NodeOk(s', j) { NotifyNodes(s, k, j); }
    forall c | 0 < c < |s.phase| ensures TaskOk(s', c) { NotifyTasks(s, k, c); }
  }

  lemma InvResume(s: State, k: Node)
    requires Inv(s) && Enabled(s, k) && s.phase[k].Resuming?
    ensures Inv(ResumeParent(s, k))
  {
    var s' := ResumeParent(s, k);
    assert HasParent(s.tree, k);
    var p := s.tree.parent[k];
    assert NodeOk(s, k) && NodeOk(s, p) && TaskOk(s, k) && CountOk(s, p);
    var middle := s.phase[p := Proceeding];
    forall j | 0 <= j < |s.phase| ensures CountOk(s', j) {
      assert CountOk(s, j);
      PendingSame(s.phase, p, Proceeding, s.tree.kids[j]);
      PendingSame(middle, k, Done, s.tree.kids[j]);
    }
    forall j | 0 <= j < |s.phase| ensures NodeOk(s', j) { assert NodeOk(s, j); }
    forall c | 0 < c < |s.phase| ensures TaskOk(s', c) {
      assert TaskOk(s, c) && HasParent(s.tree, c);
      if s.tree.parent[c] == p { AllDone(s, p, c); }
    }
  }
}
