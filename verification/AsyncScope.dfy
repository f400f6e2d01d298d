/**
 async_scope of include/ptl/experimental/coroutine/async_scope.hpp: one owner that spawns work and
 then joins once, and work that may spawn more work while it runs. Each access to the counter is
 one step.
 */
module AsyncScope {
  import opened Wrappers

  type Work = nat

  /** The owner: may spawn, then joins. */
  datatype Owner =
    | Open
    | OwnerSpawning           // past the assertion of on_work_started, fetch_add to come
    | Joining                 // about to load the count in await_ready
    | Storing                 // about to store the continuation in await_suspend
    | Subtracting             // about to fetch_sub in await_suspend
    | Suspended
    | Continued

  /** A piece of spawned work that has not finished. */
  datatype Activity = Running | Spawning

  /** `resumer` is the work that took the last share and has yet to resume the owner. */
  datatype State = State(
    count: int, continuation: bool, owner: Owner, work: map<Work, Activity>, resumer: Option<Work>,
    spawned: set<Work>, finished: set<Work>, continuations: nat, assertionFailed: bool)

  datatype Step =
    | OwnerCheck
    | OwnerAdd(child: Work)
    | WorkCheck(w: Work)
    | WorkAdd(w: Work, child: Work)
    | WorkFinish(w: Work)
    | ResumeOwner
    | Join
    | AwaitReady
    | StoreContinuation
    | FetchSub

  const INIT := State(1, false, Open, map[], None, {}, {}, 0, false)

  predicate WorkIs(s: State, w: Work, a: Activity)
  {
    w in s.work && s.work[w] == a
  }

  /** Work is spawned by the owner before it joins, or by work still running; nothing else is assumed. */
  predicate Enabled(s: State, step: Step)
  {
    match step
    case OwnerCheck => s.owner == Open
    case OwnerAdd(c) => s.owner == OwnerSpawning && c !in s.spawned
    case WorkCheck(w) => WorkIs(s, w, Running)
    case WorkAdd(w, c) => WorkIs(s, w, Spawning) && c !in s.spawned
    case WorkFinish(w) => WorkIs(s, w, Running)
    case ResumeOwner => s.resumer.Some?
    case Join => s.owner == Open
    case AwaitReady => s.owner == Joining
    case StoreContinuation => s.owner == Storing
    case FetchSub => s.owner == Subtracting
  }

  function Spawned(s: State, child: Work): State
  {
    s.(count := s.count + 1, work := s.work[child := Running], spawned := s.spawned + {child})
  }

  function Continue(s: State): State
  {
    s.(owner := Continued, continuations := s.continuations + 1)
  }

  function Next(s: State, step: Step): State
    requires Enabled(s, step)
  {
    match step
    case OwnerCheck => s.(owner := OwnerSpawning, assertionFailed := s.assertionFailed || s.count == 0)
    case OwnerAdd(c) => Spawned(s.(owner := Open), c)
    case WorkCheck(w) => s.(work := s.work[w := Spawning], assertionFailed := s.assertionFailed || s.count == 0)
    case WorkAdd(w, c) => Spawned(s.(work := s.work[w := Running]), c)
    case WorkFinish(w) =>
      s.(count := s.count - 1, work := s.work - {w}, finished := s.finished + {w},
         resumer := if s.count == 1 then Some(w) else s.resumer)
    case ResumeOwner => Continue(s.(resumer := None))
    case Join => s.(owner := Joining)
    case AwaitReady => if s.count == 0 then Continue(s) else s.(owner := Storing)
    case StoreContinuation => s.(continuation := true, owner := Subtracting)
    case FetchSub =>
      var s' := s.(count := s.count - 1);
      if s.count > 1 then s'.(owner := Suspended) else Continue(s')
  }

  predicate HoldsShare(o: Owner)
  {
    o != Suspended && o != Continued
  }

  ghost predicate Inv(s: State)
  {
    && s.count == |s.work| + (if HoldsShare(s.owner) then 1 else 0)
    && s.spawned == s.work.Keys + s.finished && s.work.Keys !! s.finished
    && (s.continuation <==> s.owner == Subtracting || s.owner == Suspended || s.owner == Continued)
    && (s.resumer.Some? <==> s.owner == Suspended && s.count == 0)
    && (s.owner == Continued ==> s.count == 0)
    && s.continuations == (if s.owner == Continued then 1 else 0)
    && !s.assertionFailed
  }

  lemma InvNext(s: State, step: Step)
    requires Inv(s) && Enabled(s, step)
    ensures Inv(Next(s, step))
  {
    match step
    case OwnerAdd(c) => InvSpawn(s.(owner := Open), c);
    case WorkCheck(w) => InvActivity(s, w, Spawning);
    case WorkAdd(w, c) => InvActivity(s, w, Running); InvSpawn(s.(work := s.work[w := Running]), c);
    case WorkFinish(w) => InvFinish(s, w);
    case _ =>
  }

  lemma InvSpawn(s: State, child: Work)
    requires Inv(s) && child !in s.spawned && s.owner != Continued && s.count > 0
    ensures Inv(Spawned(s, child))
  {
    AddedKey(s.work, child, Running);
  }

  lemma AddedKey(m: map<Work, Activity>, w: Work, a: Activity)
    requires w !in m
    ensures m[w := a].Keys == m.Keys + {w} && |m[w := a]| == |m| + 1
  {
  }

  lemma InvActivity(s: State, w: Work, a: Activity)
    requires Inv(s) && w in s.work
    ensures Inv(s.(work := s.work[w := a])) && s.count > 0
  {
    assert s.work[w := a].Keys == s.work.Keys;
    assert |s.work[w := a]| == |s.work|;
  }

  lemma InvFinish(s: State, w: Work)
    requires Inv(s) && Enabled(s, WorkFinish(w))
    ensures Inv(Next(s, WorkFinish(w)))
  {
    var s' := Next(s, WorkFinish(w));
    assert s'.work.Keys == s.work.Keys - {w};
    assert |s'.work| == |s.work| - 1;
  }

  // ---------------------------------------------------------------- runs

  ghost predicate IsRun(run: seq<State>, steps: seq<Step>)
  {
    && |run| == |steps| + 1
    && run[0] == INIT
    && forall i: nat :: i < |steps| ==> StepAt(run, steps, i)
  }

  ghost predicate StepAt(run: seq<State>, steps: seq<Step>, i: nat)
    requires i < |steps| < |run|
  {
    Enabled(run[i], steps[i]) && run[i + 1] == Next(run[i], steps[i])
  }

  lemma {:induction false} RunInv(run: seq<State>, steps: seq<Step>, i: nat)
    requires IsRun(run, steps) && i < |run|
    ensures Inv(run[i])
  {
    if i > 0 {
      RunInv(run, steps, i - 1);
      RunStep(run, steps, i - 1);
      InvNext(run[i - 1], steps[i - 1]);
    }
  }

  lemma RunStep(run: seq<State>, steps: seq<Step>, i: nat)
    requires IsRun(run, steps) && i < |steps|
    ensures Enabled(run[i], steps[i]) && run[i + 1] == Next(run[i], steps[i])
  {
    assert StepAt(run, steps, i);
  }

  function AskedAt(step: Step): set<Work>
  {
    match step
    case OwnerAdd(c) => {c}
    case WorkAdd(_, c) => {c}
    case _ => {}
  }

  function EndedAt(step: Step): set<Work>
  {
    if step.WorkFinish? then {step.w} else {}
  }

  /** The work asked for so far, by the owner or by other work. */
  function Asked(steps: seq<Step>): set<Work>
  {
    if steps == [] then {} else Asked(steps[..|steps| - 1]) + AskedAt(steps[|steps| - 1])
  }

  /** The work that has ended. */
  function Ended(steps: seq<Step>): set<Work>
  {
    if steps == [] then {} else Ended(steps[..|steps| - 1]) + EndedAt(steps[|steps| - 1])
  }

  lemma StepAsks(s: State, step: Step)
    requires Enabled(s, step)
    ensures Next(s, step).spawned == s.spawned + AskedAt(step) && Next(s, step).finished == s.finished + EndedAt(step)
  {
  }

  lemma {:induction false} HistoryIsAsked(run: seq<State>, steps: seq<Step>, i: nat)
    requires IsRun(run, steps) && i < |run|
    ensures run[i].spawned == Asked(steps[..i]) && run[i].finished == Ended(steps[..i])
  {
    if i > 0 {
      HistoryIsAsked(run, steps, i - 1);
      RunStep(run, steps, i - 1);
      StepAsks(run[i - 1], steps[i - 1]);
      assert steps[..i][..i - 1] == steps[..i - 1];
    }
  }

  /** What is spawned is what was asked for, and it runs at once and until it ends. */
  lemma SpawnedIsAsked(run: seq<State>, steps: seq<Step>, i: nat)
    requires IsRun(run, steps) && i < |run|
    ensures run[i].spawned == Asked(steps[..i]) && run[i].finished == Ended(steps[..i])
    ensures run[i].work.Keys == Asked(steps[..i]) - Ended(steps[..i])
  {
    RunInv(run, steps, i);
    HistoryIsAsked(run, steps, i);
  }

  /** The count is the unfinished work plus the share of the join; so no assertion of on_work_started fails. */
  lemma CountIsUnfinishedWork(run: seq<State>, steps: seq<Step>, i: nat)
    requires IsRun(run, steps) && i < |run|
    ensures run[i].count == |Asked(steps[..i]) - Ended(steps[..i])| + if HoldsShare(run[i].owner) then 1 else 0
    ensures i < |steps| && (steps[i].OwnerCheck? || steps[i].WorkCheck?) ==> run[i].count > 0
    ensures !run[i].assertionFailed
  {
    RunInv(run, steps, i);
    SpawnedIsAsked(run, steps, i);
    if i < |steps| {
      RunStep(run, steps, i);
      if steps[i].WorkCheck? { assert steps[i].w in run[i].work.Keys; }
    }
  }

  /**
   The owner continues past join once: only after everything ever spawned, directly or by other
   work, has finished, and with the continuation already stored. It stays that way: nothing can
   spawn, finish or resume afterwards.
   */
  lemma JoinContinuesAfterAll(run: seq<State>, steps: seq<Step>, i: nat)
    requires IsRun(run, steps) && i < |run| && run[i].owner == Continued
    ensures Ended(steps) == Asked(steps) && run[i].continuation
    ensures run[i].continuations == 1 && i == |steps|
  {
    RunInv(run, steps, i);
    SpawnedIsAsked(run, steps, i);
    assert steps[..|steps|] == steps;
    assert run[i].work.Keys == {};
    assert i < |steps| ==> StepAt(run, steps, i);
  }

  /** await_ready never finds the join's own share gone, so the continuation is stored on every path. */
  lemma NeverReadyEarly(run: seq<State>, steps: seq<Step>, i: nat)
    requires IsRun(run, steps) && i < |steps| && steps[i] == AwaitReady
    ensures run[i].count >= 1 && run[i + 1].owner == Storing
  {
    RunInv(run, steps, i);
    assert StepAt(run, steps, i);
  }

  /** Whoever resumes the owner finds it suspended, its handle stored and no work left. */
  lemma ResumesSuspended(run: seq<State>, steps: seq<Step>, i: nat)
    requires IsRun(run, steps) && i < |steps| && steps[i] == ResumeOwner
    ensures run[i].owner == Suspended && run[i].continuation && Asked(steps[..i]) == Ended(steps[..i])
    ensures run[i + 1].owner == Continued
  {
    RunInv(run, steps, i);
    SpawnedIsAsked(run, steps, i);
    assert StepAt(run, steps, i);
    assert run[i].work.Keys == {};
  }

  /** Until the owner continues, some step can be taken: no wake-up is lost. */
  lemma NotStuck(run: seq<State>, steps: seq<Step>, i: nat) returns (step: Step)
    requires IsRun(run, steps) && i < |run| && run[i].owner != Continued
    ensures Enabled(run[i], step)
  {
    var s := run[i];
    RunInv(run, steps, i);
    match s.owner
    case Open => step := Join;
    case OwnerSpawning => step := OwnerAdd(Above(s.spawned));
    case Joining => step := AwaitReady;
    case Storing => step := StoreContinuation;
    case Subtracting => step := FetchSub;
    case Suspended =>
      if s.count == 0 {
        step := ResumeOwner;
      } else {
        var w :| w in s.work;
        step := if s.work[w] == Running then WorkFinish(w) else WorkAdd(w, Above(s.spawned));
      }
  }

  /** A number above every element. */
  ghost function Above(s: set<Work>): (b: Work)
    ensures forall w :: w in s ==> w < b
    decreases s
  {
    if s == {} then 0
    else
      var w :| w in s;
      var b := Above(s - {w});
      assert s == (s - {w}) + {w};
      if w < b then b else w + 1
  }

  // ---------------------------------------------------------------- runs end unless spawning goes on

  ghost function SpawningWork(work: map<Work, Activity>): set<Work>
  {
    set w | w in work && work[w] == Spawning
  }

  function OwnerRank(o: Owner): nat
  {
    match o
    case Open => 0
    case OwnerSpawning => 1
    case Joining => 1
    case Storing => 2
    case Subtracting => 3
    case Suspended => 4
    case Continued => 5
  }

  /** The steps it took to get here: two for each spawn, one for each finish, those begun, and the owner's. */
  ghost function Cost(s: State): nat
  {
    2 * |s.spawned| + |s.finished| + |SpawningWork(s.work)| + OwnerRank(s.owner)
  }

  lemma StepCosts(s: State, step: Step)
    requires Inv(s) && Enabled(s, step)
    ensures Cost(Next(s, step)) >= Cost(s) + 1
  {
    match step
    case OwnerAdd(c) => SpawnCosts(s, c);
    case WorkCheck(w) => ActivityCosts(s, w);
    case WorkAdd(w, c) => WorkAddCosts(s, w, c);
    case WorkFinish(w) => FinishCosts(s, w);
    case _ => OwnerCosts(s, step);
  }

  /** The steps that leave the work as it is are the owner's. */
  lemma OwnerCosts(s: State, step: Step)
    requires Inv(s) && Enabled(s, step)
    requires !step.OwnerAdd? && !step.WorkCheck? && !step.WorkAdd? && !step.WorkFinish?
    ensures Cost(Next(s, step)) >= Cost(s) + 1
  {
    assert OwnerRank(Next(s, step).owner) > OwnerRank(s.owner);
  }

  lemma SpawnCosts(s: State, c: Work)
    requires s.spawned == s.work.Keys + s.finished && c !in s.spawned
    ensures |Spawned(s, c).spawned| == |s.spawned| + 1 && SpawningWork(Spawned(s, c).work) == SpawningWork(s.work)
  {
    assert c !in s.work;
  }

  lemma ActivityCosts(s: State, w: Work)
    requires WorkIs(s, w, Running)
    ensures |SpawningWork(s.work[w := Spawning])| == |SpawningWork(s.work)| + 1
  {
    assert SpawningWork(s.work[w := Spawning]) == SpawningWork(s.work) + {w};
  }

  lemma WorkAddCosts(s: State, w: Work, c: Work)
    requires s.spawned == s.work.Keys + s.finished && c !in s.spawned && WorkIs(s, w, Spawning)
    ensures Cost(Spawned(s.(work := s.work[w := Running]), c)) == Cost(s) + 1
  {
    var t := s.(work := s.work[w := Running]);
    assert t.work.Keys == s.work.Keys;
    ActivityCosts(t, w);
    assert t.work[w := Spawning] == s.work;
    SpawnCosts(t, c);
  }

  lemma FinishCosts(s: State, w: Work)
    requires Inv(s) && Enabled(s, WorkFinish(w))
    ensures |Next(s, WorkFinish(w)).finished| == |s.finished| + 1
    ensures SpawningWork(Next(s, WorkFinish(w)).work) == SpawningWork(s.work)
  {
    assert w in s.work.Keys && w !in s.finished;
  }

  lemma CostBounded(s: State)
    requires Inv(s)
    ensures Cost(s) <= 3 * |s.spawned| + 5
  {
    var begun := SpawningWork(s.work);
    assert begun !! s.finished;
    assert |s.finished + begun| == |s.finished| + |begun|;
    Subset(s.finished + begun, s.spawned);
  }

  lemma Subset(a: set<Work>, b: set<Work>)
    requires a <= b
    ensures |a| <= |b|
  {
    assert b == a + (b - a);
  }

  lemma RunStepCosts(run: seq<State>, steps: seq<Step>, i: nat)
    requires IsRun(run, steps) && i < |steps|
    ensures Cost(run[i + 1]) >= Cost(run[i]) + 1
  {
    RunInv(run, steps, i);
    RunStep(run, steps, i);
    StepCosts(run[i], steps[i]);
  }

  lemma {:induction false} RunCosts(run: seq<State>, steps: seq<Step>, i: nat)
    requires IsRun(run, steps) && i < |run|
    ensures i <= Cost(run[i])
  {
    if i > 0 {
      RunCosts(run, steps, i - 1);
      RunStepCosts(run, steps, i - 1);
    }
  }

  /** Every run takes at most three steps for each piece of work spawned, and five more. */
  lemma RunBounded(run: seq<State>, steps: seq<Step>, i: nat)
    requires IsRun(run, steps) && i < |run|
    ensures i <= 3 * |Asked(steps[..i])| + 5
  {
    RunInv(run, steps, i);
    SpawnedIsAsked(run, steps, i);
    CostBounded(run[i]);
    RunCosts(run, steps, i);
  }

  /** So unless spawning never ends the run does, and when no step is left the owner has continued. */
  lemma MaximalRunContinues(run: seq<State>, steps: seq<Step>)
    requires IsRun(run, steps) && forall step :: !Enabled(run[|steps|], step)
    ensures run[|steps|].owner == Continued && Ended(steps) == Asked(steps)
    ensures |steps| <= 3 * |Asked(steps)| + 5
  {
    RunBounded(run, steps, |steps|);
    if run[|steps|].owner != Continued {
      var step := NotStuck(run, steps, |steps|);
    } else {
      JoinContinuesAfterAll(run, steps, |steps|);
    }
    assert steps[..|steps|] == steps;
  }

  // ---------------------------------------------------------------- the object

  class Scope {
    var count: int
    var continuation: bool
    var owner: Owner
    var work: map<Work, Activity>
    ghost var resumer: Option<Work>
    ghost var spawned: set<Work>
    ghost var finished: set<Work>
    ghost var continuations: nat

    ghost function View(): State
      reads this
    {
      State(count, continuation, owner, work, resumer, spawned, finished, continuations, false)
    }

    ghost predicate Valid()
      reads this
    {
      Inv(View())
    }

    constructor ()
      ensures Valid() && View() == INIT
    {
      count, continuation, owner, work := 1, false, Open, map[];
      resumer, spawned, finished, continuations := None, {}, {}, 0;
    }

    /** The assertion of on_work_started, called by the owner. */
    method OnWorkStartedByOwner()
      requires Valid() && Enabled(View(), OwnerCheck)
      modifies this
      ensures Valid() && View() == Next(old(View()), OwnerCheck)
    {
      InvNext(View(), OwnerCheck);
      assert count != 0;
      owner := OwnerSpawning;
    }

    method OnWorkStartedByWork(w: Work)
      requires Valid() && Enabled(View(), WorkCheck(w))
      modifies this
      ensures Valid() && View() == Next(old(View()), WorkCheck(w))
    {
      InvNext(View(), WorkCheck(w));
      assert count != 0 by { assert w in work.Keys; }
      work := work[w := Spawning];
    }

    /** The fetch_add of on_work_started; the new work then runs. */
    method AddByOwner(child: Work)
      requires Valid() && Enabled(View(), OwnerAdd(child))
      modifies this
      ensures Valid() && View() == Next(old(View()), OwnerAdd(child))
    {
      InvNext(View(), OwnerAdd(child));
      owner := Open;
      count := count + 1;
      work := work[child := Running];
      spawned := spawned + {child};
    }

    method AddByWork(w: Work, child: Work)
      requires Valid() && Enabled(View(), WorkAdd(w, child))
      modifies this
      ensures Valid() && View() == Next(old(View()), WorkAdd(w, child))
    {
      InvNext(View(), WorkAdd(w, child));
      work := work[w := Running];
      count := count + 1;
      work := work[child := Running];
      spawned := spawned + {child};
    }

    method OnWorkFinished(w: Work) returns (resumes: bool)
      requires Valid() && Enabled(View(), WorkFinish(w))
      modifies this
      ensures Valid() && View() == Next(old(View()), WorkFinish(w))
      ensures resumes <==> resumer == Some(w) && old(resumer) != resumer
    {
      InvNext(View(), WorkFinish(w));
      assert w in work.Keys;
      var before := count;
      count := before - 1;
      resumes := before == 1;
      work := work - {w};
      finished := finished + {w};
      if resumes {
        resumer := Some(w);
      }
    }

    method Resume()
      requires Valid() && Enabled(View(), ResumeOwner)
      modifies this
      ensures Valid() && View() == Next(old(View()), ResumeOwner)
    {
      InvNext(View(), ResumeOwner);
      assert continuation && owner == Suspended;
      owner, resumer, continuations := Continued, None, continuations + 1;
    }

    method BeginJoin()
      requires Valid() && Enabled(View(), Join)
      modifies this
      ensures Valid() && View() == Next(old(View()), Join)
    {
      owner := Joining;
    }

    method JoinAwaitReady() returns (ready: bool)
      requires Valid() && Enabled(View(), AwaitReady)
      modifies this
      ensures Valid() && View() == Next(old(View()), AwaitReady) && !ready
    {
      ready := count == 0;
      if ready {
        assert false;
      } else {
        owner := Storing;
      }
    }

    method JoinStore()
      requires Valid() && Enabled(View(), StoreContinuation)
      modifies this
      ensures Valid() && View() == Next(old(View()), StoreContinuation)
    {
      continuation := true;
      owner := Subtracting;
    }

    method JoinFetchSub() returns (suspends: bool)
      requires Valid() && Enabled(View(), FetchSub)
      modifies this
      ensures Valid() && View() == Next(old(View()), FetchSub)
      ensures suspends <==> owner == Suspended
    {
      InvNext(View(), FetchSub);
      var before := count;
      count := before - 1;
      suspends := before > 1;
      if suspends {
        owner := Suspended;
      } else {
        owner, continuations := Continued, continuations + 1;
      }
    }
  }
}
