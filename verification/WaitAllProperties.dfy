/** What every interleaving of a wait_all tree guarantees. */
module WaitAllProperties {
  import opened Wrappers
  import opened WaitAll

  datatype Step = Step(node: Node, outcome: Outcome)

  ghost predicate IsRun(t: Tree, run: seq<State>, steps: seq<Step>)
  {
    && IsTree(t)
    && |run| == |steps| + 1
    && run[0] == Init(t)
    && forall i: nat :: i < |steps| ==> StepAt(run, steps, i)
  }

  ghost predicate StepAt(run: seq<State>, steps: seq<Step>, i: nat)
    requires i < |steps| < |run|
  {
    Enabled(run[i], steps[i].node) && run[i + 1] == Next(run[i], steps[i].node, steps[i].outcome)
  }

  lemma {:induction false} RunInv(t: Tree, run: seq<State>, steps: seq<Step>, i: nat)
    requires IsRun(t, run, steps) && i < |run|
    ensures Inv(run[i]) && run[i].tree == t
  {
    if i == 0 {
      InvInit(t);
    } else {
      RunInv(t, run, steps, i - 1);
      assert StepAt(run, steps, i - 1);
      InvNext(run[i - 1], steps[i - 1].node, steps[i - 1].outcome);
    }
  }

  // ---------------------------------------------------------------- phases only advance

  function Rank(p: Phase, kids: nat): nat
  {
    match p
    case Unstarted => 0
    case Starting(i) => 1 + if i < kids then i else kids
    case Stored => 2 + kids
    case Suspended => 3 + kids
    case Proceeding => 4 + kids
    case Finished => 5 + kids
    case Resuming => 6 + kids
    case Done => 7 + kids
  }

  ghost function RankOf(s: State, k: Node): nat
    requires Shape(s) && k < |s.phase|
  {
    Rank(s.phase[k], |s.tree.kids[k]|)
  }

  lemma StepAdvances(s: State, k: Node, r: Outcome, j: Node)
    requires Inv(s) && Enabled(s, k) && j < |s.phase|
    ensures Shape(Next(s, k, r)) && Next(s, k, r).tree == s.tree
    ensures RankOf(Next(s, k, r), j) >= RankOf(s, j) + if j == k then 1 else 0
    ensures s.result[j].Some? ==> Next(s, k, r).result[j] == s.result[j]
  {
    assert NodeOk(s, k);
    if s.phase[k].Starting? && s.phase[k].started < |s.tree.kids[k]| {
      assert KidAt(s.tree, k, s.phase[k].started);
      assert TaskOk(s, s.tree.kids[k][s.phase[k].started]);
    }
    if k > 0 {
      assert HasParent(s.tree, k) && TaskOk(s, k) && NodeOk(s, s.tree.parent[k]);
    }
  }

  lemma {:induction false} RunAdvances(t: Tree, run: seq<State>, steps: seq<Step>, i: nat, j: nat, k: Node)
    requires IsRun(t, run, steps) && i <= j < |run| && k < |t.kids|
    ensures Inv(run[i]) && Inv(run[j]) && run[i].tree == run[j].tree == t
    ensures RankOf(run[i], k) <= RankOf(run[j], k)
    ensures run[i].result[k].Some? ==> run[j].result[k] == run[i].result[k]
    decreases j
  {
    RunInv(t, run, steps, i);
    RunInv(t, run, steps, j);
    if i < j {
      RunAdvances(t, run, steps, i, j - 1, k);
      assert StepAt(run, steps, j - 1);
      StepAdvances(run[j - 1], steps[j - 1].node, steps[j - 1].outcome, k);
    }
  }

  // ---------------------------------------------------------------- proceeding once, after everything

  /** At this step the coroutine at node k gets past its co_await. */
  ghost predicate Proceeds(run: seq<State>, i: nat, k: Node)
    requires i + 1 < |run|
  {
    && k < |run[i].phase| && k < |run[i + 1].phase|
    && !PastAwait(run[i].phase[k]) && PastAwait(run[i + 1].phase[k])
  }

  /** No coroutine proceeds twice, whether by begin_await returning false or by being resumed. */
  lemma ProceedsOnce(t: Tree, run: seq<State>, steps: seq<Step>, i: nat, j: nat, k: Node)
    requires IsRun(t, run, steps) && i < |steps| && j < |steps| && k < |t.kids|
    requires Proceeds(run, i, k) && Proceeds(run, j, k)
    ensures i == j
  {
    if i < j { RunAdvances(t, run, steps, i + 1, j, k); }
    if j < i { RunAdvances(t, run, steps, j + 1, i, k); }
  }

  /** No task notifies twice: the decrement of its parent's counter is one step of a run. */
  lemma NotifiesOnce(t: Tree, run: seq<State>, steps: seq<Step>, i: nat, j: nat)
    requires IsRun(t, run, steps) && i < |steps| && j < |steps| && steps[i].node == steps[j].node
    requires Enabled(run[i], steps[i].node) && Enabled(run[j], steps[j].node)
    requires run[i].phase[steps[i].node].Finished? && run[j].phase[steps[j].node].Finished?
    ensures i == j
  {
    if i < j {
      NotifiedStays(t, run, steps, i, j);
    } else if j < i {
      NotifiedStays(t, run, steps, j, i);
    }
  }

  lemma NotifiedStays(t: Tree, run: seq<State>, steps: seq<Step>, i: nat, j: nat)
    requires IsRun(t, run, steps) && i < j < |run| && Enabled(run[i], steps[i].node)
    requires run[i].phase[steps[i].node].Finished?
    ensures steps[i].node < |run[j].phase| && !run[j].phase[steps[i].node].Finished?
  {
    var k := steps[i].node;
    RunInv(t, run, steps, i);
    RunInv(t, run, steps, i + 1);
    assert StepAt(run, steps, i);
    StepAdvances(run[i], k, steps[i].outcome, k);
    RunAdvances(t, run, steps, i + 1, j, k);
  }

  /** A notification that resumes finds the parent suspended and its own handle stored. */
  lemma ResumesSuspended(t: Tree, run: seq<State>, steps: seq<Step>, i: nat)
    requires IsRun(t, run, steps) && i < |steps|
    requires steps[i].node < |run[i].phase| && run[i].phase[steps[i].node].Resuming?
    ensures 0 < steps[i].node < |t.parent| && t.parent[steps[i].node] < |run[i].phase| == |run[i].coroutine|
    ensures run[i].phase[t.parent[steps[i].node]].Suspended?
    ensures run[i].coroutine[t.parent[steps[i].node]] == Some(t.parent[steps[i].node])
    ensures Proceeds(run, i, t.parent[steps[i].node])
  {
    var k := steps[i].node;
    RunInv(t, run, steps, i);
    assert StepAt(run, steps, i);
    assert NodeOk(run[i], k) && HasParent(t, k) && TaskOk(run[i], k) && NodeOk(run[i], t.parent[k]);
  }

  ghost predicate Below(t: Tree, k: Node, d: Node)
    requires IsTree(t) && d < |t.kids|
    decreases d
  {
    d == k || (d > k && (assert HasParent(t, d); Below(t, k, t.parent[d])))
  }

  lemma {:induction false} AllBelowDone(s: State, k: Node, d: Node)
    requires Inv(s) && k < |s.phase| && d < |s.phase| && PastAwait(s.phase[k]) && Below(s.tree, k, d)
    ensures d == k || (s.phase[d].Done? && s.result[d].Some?)
    decreases d
  {
    if d != k {
      assert HasParent(s.tree, d) && TaskOk(s, d) && NodeOk(s, d);
      AllBelowDone(s, k, s.tree.parent[d]);
    }
  }

  /** At step m the body of node d ends, with this outcome. */
  ghost predicate BodyEnds(run: seq<State>, steps: seq<Step>, m: nat, d: Node, r: Outcome)
  {
    && m < |steps| && m < |run| && d < |run[m].phase|
    && steps[m] == Step(d, r) && run[m].phase[d].Proceeding?
  }

  lemma StepStores(s: State, step: Step, d: Node)
    requires Inv(s) && Enabled(s, step.node) && d < |s.phase|
    ensures |Next(s, step.node, step.outcome).result| == |s.result|
    ensures if step.node == d && s.phase[d].Proceeding?
            then Next(s, step.node, step.outcome).result[d] == Some(step.outcome)
            else Next(s, step.node, step.outcome).result[d] == s.result[d]
  {
  }

  /** A result is what the body ended with, at the one step at which it did: value, void or exception. */
  lemma {:induction false} ResultOfBody(t: Tree, run: seq<State>, steps: seq<Step>, i: nat, d: Node) returns (m: nat)
    requires IsRun(t, run, steps) && i < |run| && d < |t.kids|
    requires d < |run[i].result| && run[i].result[d].Some?
    ensures m < i && BodyEnds(run, steps, m, d, run[i].result[d].value)
  {
    RunInv(t, run, steps, i - 1);
    assert StepAt(run, steps, i - 1);
    StepStores(run[i - 1], steps[i - 1], d);
    if steps[i - 1].node == d && run[i - 1].phase[d].Proceeding? {
      m := i - 1;
    } else {
      m := ResultOfBody(t, run, steps, i - 1, d);
    }
  }

  /**
   A coroutine past its wait_all finds every task below it, at any depth, completed and notified,
   each with a result that no later step changes, the outcome its body ended with.
   */
  lemma ProceedsAfterAll(t: Tree, run: seq<State>, steps: seq<Step>, i: nat, j: nat, k: Node, d: Node)
    requires IsRun(t, run, steps) && i <= j < |run| && k < |t.kids| && d < |t.kids| && d != k && Below(t, k, d)
    requires k < |run[i].phase| && PastAwait(run[i].phase[k])
    ensures d < |run[i].phase| == |run[i].result| && d < |run[j].phase| == |run[j].result|
    ensures run[i].phase[d].Done? && run[i].result[d].Some?
    ensures run[j].phase[d].Done? && run[j].result[d] == run[i].result[d]
    ensures exists m: nat :: m < i && BodyEnds(run, steps, m, d, run[i].result[d].value)
  {
    RunAdvances(t, run, steps, i, j, d);
    AllBelowDone(run[i], k, d);
    var m := ResultOfBody(t, run, steps, i, d);
  }

  lemma {:induction false} AllBelowRoot(t: Tree, d: Node)
    requires IsTree(t) && d < |t.kids|
    ensures Below(t, 0, d)
    decreases d
  {
    if d > 0 {
      assert HasParent(t, d);
      AllBelowRoot(t, t.parent[d]);
    }
  }

  // ---------------------------------------------------------------- progress

  lemma {:induction false} SomePending(phase: seq<Phase>, tasks: seq<Node>) returns (i: nat)
    requires Pending(phase, tasks) > 0 && forall j :: 0 <= j < |tasks| ==> tasks[j] < |phase|
    ensures i < |tasks| && !Notified(phase[tasks[i]])
  {
    if Notified(phase[tasks[0]]) {
      assert forall j :: 0 <= j < |tasks[1..]| ==> tasks[1..][j] == tasks[j + 1];
      i := SomePending(phase, tasks[1..]);
      i := i + 1;
    } else {
      i := 0;
    }
  }

  /** Below every coroutine that has started and has not finished, some node can take a step. */
  lemma {:induction false} SomeEnabled(s: State, k: Node) returns (e: Node)
    requires Inv(s) && k < |s.phase| && !s.phase[k].Unstarted? && !s.phase[k].Done?
    requires k == 0 ==> !s.phase[k].Finished?
    ensures Enabled(s, e)
    decreases |s.phase| - k
  {
    assert NodeOk(s, k) && CountOk(s, k);
    if !s.phase[k].Suspended? {
      e := k;
    } else if s.count[k] == 0 {
      e := s.last[k].value;
    } else {
      forall j | 0 <= j < |s.tree.kids[k]| ensures s.tree.kids[k][j] < |s.phase| { assert KidAt(s.tree, k, j); }
      var i := SomePending(s.phase, s.tree.kids[k]);
      assert KidAt(s.tree, k, i) && TaskOk(s, s.tree.kids[k][i]);
      e := SomeEnabled(s, s.tree.kids[k][i]);
    }
  }

  ghost function TotalRank(s: State, n: nat): nat
    requires Shape(s) && n <= |s.phase|
  {
    if n == 0 then 0 else TotalRank(s, n - 1) + RankOf(s, n - 1)
  }

  function MaxRank(kids: seq<seq<Node>>): nat
  {
    if kids == [] then 0 else MaxRank(kids[..|kids| - 1]) + 7 + |kids[|kids| - 1]|
  }

  lemma {:induction false} TotalRankBounded(s: State, n: nat)
    requires Shape(s) && n <= |s.phase|
    ensures TotalRank(s, n) <= MaxRank(s.tree.kids[..n])
  {
    if n > 0 {
      TotalRankBounded(s, n - 1);
      assert s.tree.kids[..n][..n - 1] == s.tree.kids[..n - 1];
    }
  }

  lemma {:induction false} TotalRankGrows(s: State, k: Node, r: Outcome, n: nat)
    requires Inv(s) && Enabled(s, k) && n <= |s.phase|
    ensures Shape(Next(s, k, r)) && |Next(s, k, r).phase| == |s.phase|
    ensures TotalRank(Next(s, k, r), n) >= TotalRank(s, n) + if k < n then 1 else 0
  {
    StepAdvances(s, k, r, 0);
    if n > 0 {
      TotalRankGrows(s, k, r, n - 1);
      StepAdvances(s, k, r, n - 1);
    }
  }

  /** Every run is finite, under every scheduler: a bound in the shape of the tree alone. */
  lemma {:induction false} RunBounded(t: Tree, run: seq<State>, steps: seq<Step>, i: nat)
    requires IsRun(t, run, steps) && i < |run|
    ensures i <= MaxRank(t.kids)
    ensures Inv(run[i]) && run[i].tree == t && i <= TotalRank(run[i], |t.kids|)
  {
    RunInv(t, run, steps, i);
    if i > 0 {
      RunBounded(t, run, steps, i - 1);
      assert StepAt(run, steps, i - 1);
      TotalRankGrows(run[i - 1], steps[i - 1].node, steps[i - 1].outcome, |t.kids|);
    }
    TotalRankBounded(run[i], |t.kids|);
    assert t.kids[..|t.kids|] == t.kids;
  }

  /**
   So every run that is continued as long as any step is possible ends, and ends with the outermost
   coroutine finished and every task completed, with the outcome of its body kept, and notified; no task
   notifies twice (NotifiesOnce).
   */
  lemma MaximalRunCompletes(t: Tree, run: seq<State>, steps: seq<Step>)
    requires IsRun(t, run, steps) && forall k :: !Enabled(run[|steps|], k)
    ensures |run[|steps|].phase| == |run[|steps|].result| == |t.kids|
    ensures run[|steps|].phase[0].Finished?
    ensures forall d :: 0 < d < |t.kids| ==> run[|steps|].phase[d].Done? && run[|steps|].result[d].Some?
    ensures forall d :: 0 <= d < |t.kids| && run[|steps|].result[d].Some? ==>
              exists m: nat :: BodyEnds(run, steps, m, d, run[|steps|].result[d].value)
  {
    var s := run[|steps|];
    RunInv(t, run, steps, |steps|);
    assert NodeOk(s, 0);
    if !s.phase[0].Finished? {
      var e := SomeEnabled(s, 0);
    }
    forall d | 0 < d < |t.kids| ensures s.phase[d].Done? && s.result[d].Some? {
      AllBelowRoot(t, d);
      AllBelowDone(s, 0, d);
    }
    forall d | 0 <= d < |t.kids| && s.result[d].Some?
      ensures exists m: nat :: BodyEnds(run, steps, m, d, s.result[d].value)
    {
      var m := ResultOfBody(t, run, steps, |steps|, d);
    }
  }
}
