/**
 The counters and promises of a wait_all tree, updated in place: one method for each part of
 wait_all_awaitable::begin_await, wait_all_counter::begin_await and notify_complete.
 */
module WaitAllObject {
  import opened Wrappers
  import opened WaitAll

  class WaitAllTree {
    ghost const tree: Tree
    const kids: seq<seq<Node>>
    const parent: seq<Node>

    const phase: array<Phase>
    const count: array<int>
    const coroutine: array<Option<Node>>
    const result: array<Option<Outcome>>
    ghost var last: seq<Option<Node>>

    ghost const Repr: set<object>

    ghost predicate Separate()
    {
      && Repr == {phase, count, coroutine, result}
      && phase as object != count && phase as object != coroutine && phase as object != result
      && count as object != coroutine && count as object != result && coroutine as object != result
    }

    ghost function View(): State
      reads this, phase, count, coroutine, result
    {
      State(tree, phase[..], count[..], coroutine[..], result[..], last)
    }

    ghost predicate Valid()
      reads this, phase, count, coroutine, result
    {
      Separate() && tree.kids == kids && tree.parent == parent && Inv(View())
    }

    constructor (ghost tree: Tree, kids: seq<seq<Node>>, parent: seq<Node>)
      requires IsTree(tree) && tree.kids == kids && tree.parent == parent
      ensures Valid() && View() == Init(tree) && fresh(Repr)
    {
      this.tree, this.kids, this.parent := tree, kids, parent;
      var n := |kids|;
      var phases := new Phase[n](k => if k == 0 then Starting(0) else Unstarted);
      var counts := new int[n](k requires 0 <= k < n => |kids[k]| + 1);
      var handles := new Option<Node>[n](_ => None);
      var results := new Option<Outcome>[n](_ => None);
      phase, count, coroutine, result := phases, counts, handles, results;
      last := seq(n, _ => None);
      Repr := {phases, counts, handles, results};
      new;
      assert phase[..] == Init(tree).phase && count[..] == Init(tree).count;
      assert coroutine[..] == Init(tree).coroutine && result[..] == Init(tree).result;
      InvInit(tree);
    }

    /** One `start` of start_tasks: the child's coroutine is resumed for the first time. */
    method StartTask(k: Node)
      requires Valid() && Enabled(View(), k) && phase[k].Starting? && phase[k].started < |kids[k]|
      modifies phase
      ensures Valid() && View() == Next(old(View()), k, Void)
    {
      ghost var after := Next(View(), k, Void);
      InvNext(View(), k, Void);
      var i := phase[k].started;
      assert KidAt(tree, k, i);
      phase[kids[k][i]] := Starting(0);
      phase[k] := Starting(i + 1);
      assert View() == after;
    }

    /** All tasks started: begin_await stores the awaiting coroutine; an empty wait_all is ready at once. */
    method SetCoroutine(k: Node)
      requires Valid() && Enabled(View(), k) && phase[k].Starting? && phase[k].started == |kids[k]|
      modifies phase, coroutine
      ensures Valid() && View() == Next(old(View()), k, Void)
    {
      ghost var after := Next(View(), k, Void);
      InvNext(View(), k, Void);
      if kids[k] == [] {
        phase[k] := Proceeding;
      } else {
        coroutine[k] := Some(k);
        phase[k] := Stored;
      }
      assert View() == after;
    }

    method BeginAwait(k: Node) returns (suspends: bool)
      requires Valid() && Enabled(View(), k) && phase[k].Stored?
      modifies phase, count
      ensures Valid() && View() == Next(old(View()), k, Void)
      ensures suspends <==> phase[k].Suspended?
    {
      ghost var after := Next(View(), k, Void);
      InvNext(View(), k, Void);
      var countBefore := count[k];
      count[k] := countBefore - 1;
      suspends := countBefore > 1;
      phase[k] := if suspends then Suspended else Proceeding;
      assert View() == after;
    }

    /** yield_value, return_void or unhandled_exception. */
    method FinishBody(k: Node, r: Outcome)
      requires Valid() && Enabled(View(), k) && phase[k].Proceeding?
      modifies phase, result
      ensures Valid() && View() == Next(old(View()), k, r)
    {
      ghost var after := Next(View(), k, r);
      InvNext(View(), k, r);
      result[k] := Some(r);
      phase[k] := Finished;
      assert View() == after;
    }

    method NotifyComplete(k: Node) returns (resumes: bool)
      requires Valid() && Enabled(View(), k) && phase[k].Finished?
      modifies phase, count, this`last
      ensures Valid() && View() == Next(old(View()), k, Void)
      ensures resumes <==> phase[k].Resuming?
    {
      ghost var after := Next(View(), k, Void);
      InvNext(View(), k, Void);
      assert HasParent(tree, k);
      var p := parent[k];
      var countBefore := count[p];
      count[p] := countBefore - 1;
      resumes := countBefore == 1;
      if resumes {
        phase[k] := Resuming;
        last := last[p := Some(k)];
      } else {
        phase[k] := Done;
      }
      assert View() == after;
    }

    method Resume(k: Node)
      requires Valid() && Enabled(View(), k) && phase[k].Resuming?
      modifies phase
      ensures Valid() && View() == Next(old(View()), k, Void)
      ensures k < |parent| && parent[k] < phase.Length
      ensures phase[parent[k]].Proceeding? && old(phase[parent[k]]).Suspended?
    {
      ghost var after := Next(View(), k, Void);
      InvNext(View(), k, Void);
      assert HasParent(tree, k) && TaskOk(View(), k) && NodeOk(View(), parent[k]);
      var resumed := coroutine[parent[k]].value;
      phase[resumed] := Proceeding;
      phase[k] := Done;
      assert View() == after;
    }
  }
}
