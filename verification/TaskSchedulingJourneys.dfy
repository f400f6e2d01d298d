/**
 How a coroutine comes back: from each step that makes it wait to the step that runs it again, and
 with which Executor::current.
 */
module TaskSchedulingJourneys {
  import opened Wrappers
  import opened TaskScheduling
  import opened TaskSchedulingProperties

  ghost predicate RunningAt(s: State, p: Id, th: Thread)
  {
    th in s.stacks && Running(p) in s.stacks[th]
  }

  // ---------------------------------------------------------------- what a waiting coroutine is due

  datatype Due =
    | ByExecutor(ex: Exec)                   // this executor runs it, from its queue
    | ByTask(task: Id, home: Option<Exec>)   // this Task resumes it, where `home` was current when it awaited
    | ByAwaitable                            // the awaitable that keeps it resumes it

  /** What a step asks for a coroutine that it suspends, or that it starts elsewhere. */
  ghost function DueAfter(s: State, step: Step, p: Id): Option<Due>
    requires Enabled(s, step)
  {
    match step
    case Await(th, task) =>
      if Top(s.stacks[th]) == Running(p) && HasPhase(s, task, Task, Created) then Some(ByTask(task, s.current[th]))
      else None
    case ScheduleOn(th, task, ex) =>
      if task == p then Some(ByExecutor(ex))
      else if Top(s.stacks[th]) == Running(p) then Some(ByTask(task, s.current[th])) else None
    case Hop(th, ex) =>
      if Top(s.stacks[th]) == Running(p) && s.current[th] != Some(ex) then Some(ByExecutor(ex)) else None
    case Park(th) => if Top(s.stacks[th]) == Running(p) then Some(ByAwaitable) else None
    case _ => None
  }

  ghost predicate Ends(s: State, step: Step, p: Id)
    requires Enabled(s, step)
  {
    step.FinalSuspend? && Top(s.stacks[step.th]) == Running(p)
  }

  /** The step that gives a waiting coroutine what it is due: it runs on th. */
  ghost predicate Comes(s: State, step: Step, p: Id, th: Thread, due: Due)
    requires Enabled(s, step)
  {
    match due
    case ByExecutor(ex) => step == PopWork(th, ex) && s.queues[ex][0] == p
    case ByTask(task, home) => step == FinalSuspend(th) && Ends(s, step, task) && (home.None? || s.current[th] == home)
    case ByAwaitable => step == Unpark(th, p)
  }

  /** A Task that ends elsewhere than at home leaves its continuation to the home executor. */
  ghost predicate HandedOver(s: State, step: Step, due: Due)
    requires Enabled(s, step)
  {
    due.ByTask? && Ends(s, step, due.task) && due.home.Some? && s.current[step.th] != due.home
  }

  // ---------------------------------------------------------------- the same of the places

  ghost predicate Runs(s: State, at: map<Id, Place>, p: Id, th: Thread)
  {
    && p in at && at[p].OnThread? && at[p].th == th
    && th in s.stacks && at[p].depth < |s.stacks[th]| && s.stacks[th][at[p].depth] == Running(p)
  }

  ghost predicate Waits(s: State, at: map<Id, Place>, p: Id, due: Due)
  {
    && p in at
    && match due
      case ByExecutor(ex) =>
        || (at[p].InQueue? && at[p].ex == ex)
        || (at[p].OnThread? && at[p].th in s.stacks && at[p].depth < |s.stacks[at[p].th]|
            && s.stacks[at[p].th][at[p].depth] == Adding(p, ex))
      case ByTask(task, home) =>
        at[p] == ContinuationOf(task) && task in s.promises && s.promises[task].phase == Started
        && s.promises[task].executor == home
      case ByAwaitable => at[p] == Parked
  }

  lemma RunsWhereRunning(s: State, at: map<Id, Place>, p: Id, th: Thread)
    requires Tracks(s, at) && RunningAt(s, p, th)
    ensures Runs(s, at, p, th)
  {
    var d: nat :| d < |s.stacks[th]| && s.stacks[th][d] == Running(p);
    assert Located(s, p, OnThread(th, d));
  }

  /** A step that asks something for a coroutine makes it wait for that. */
  lemma AskedWaits(s: State, at: map<Id, Place>, step: Step, p: Id)
    requires Tracks(s, at) && Enabled(s, step) && DueAfter(s, step, p).Some?
    ensures Waits(Next(s, step), Moved(s, at, step), p, DueAfter(s, step, p).value)
  {
    assert Located(s, Top(s.stacks[step.th]).id, Innermost(s, step.th));
    if step.Await? || step.ScheduleOn? { assert !Live(s, step.id); }
  }

  /** A running coroutine runs on where it is until a step suspends or ends it. */
  lemma RunsOn(s: State, at: map<Id, Place>, step: Step, p: Id, th: Thread)
    requires Tracks(s, at) && Enabled(s, step) && RunningAt(s, p, th)
    requires DueAfter(s, step, p).None? && !Ends(s, step, p)
    ensures RunningAt(Next(s, step), p, th)
  {
    RunsWhereRunning(s, at, p, th);
    var d := at[p].depth;
    assert Located(s, p, OnThread(th, d));
    if step.Await? || step.ScheduleOn? {
      assert !HasPhase(s, p, Task, Created);
    }
    assert Next(s, step).stacks[th][d] == Running(p);
  }

  /** A waiting coroutine goes on waiting, for its home executor once handed over, until what it is due comes. */
  ghost predicate GoesOn(s: State, at: map<Id, Place>, step: Step, p: Id, due: Due)
    requires Enabled(s, step) && Tracks(s, at)
  {
    Waits(Next(s, step), Moved(s, at, step), p, if HandedOver(s, step, due) then ByExecutor(due.home.value) else due)
  }

  /** Where the coroutines are that a step acts on. */
  lemma Acted(s: State, at: map<Id, Place>, step: Step)
    requires Tracks(s, at) && Enabled(s, step)
    ensures step.Await? || step.ScheduleOn? || step.Hop? || step.Park? || step.FinalSuspend? || step.Add? ==>
              Located(s, Top(s.stacks[step.th]).id, Innermost(s, step.th))
    ensures step.FinalSuspend? && s.promises[Top(s.stacks[step.th]).id].continuation.Some? ==>
              var id := Top(s.stacks[step.th]).id; Located(s, s.promises[id].continuation.value, ContinuationOf(id))
    ensures step.Unpark? ==> Located(s, step.id, Parked)
    ensures step.StartRoot? ==> !Live(s, step.id)
  {
    if step.FinalSuspend? { assert Located(s, Top(s.stacks[step.th]).id, Innermost(s, step.th)); }
  }

  lemma WaitsInExecutor(s: State, at: map<Id, Place>, step: Step, p: Id, due: Due)
    requires Tracks(s, at) && Enabled(s, step) && Waits(s, at, p, due) && due.ByExecutor?
    ensures (exists th :: Comes(s, step, p, th, due)) || GoesOn(s, at, step, p, due)
    ensures forall th :: Comes(s, step, p, th, due) ==> RunningAt(Next(s, step), p, th)
  {
    assert Located(s, p, at[p]);
    if step.PopWork? {
      assert Top(Next(s, step).stacks[step.th]) == Running(s.queues[step.ex][0]);
      if step.ex == due.ex && at[p] == InQueue(due.ex, 0) { assert Comes(s, step, p, step.th, due); }
    } else {
      StaysInExecutor(s, at, step, p, due);
    }
  }

  lemma StaysInExecutor(s: State, at: map<Id, Place>, step: Step, p: Id, due: Due)
    requires Tracks(s, at) && Enabled(s, step) && Waits(s, at, p, due) && due.ByExecutor? && !step.PopWork?
    ensures GoesOn(s, at, step, p, due)
  {
    assert Located(s, p, at[p]);
    Acted(s, at, step);
  }

  lemma WaitsForTask(s: State, at: map<Id, Place>, step: Step, p: Id, due: Due)
    requires Tracks(s, at) && Enabled(s, step) && Waits(s, at, p, due) && due.ByTask?
    ensures (exists th :: Comes(s, step, p, th, due)) || GoesOn(s, at, step, p, due)
    ensures forall th :: Comes(s, step, p, th, due) ==> RunningAt(Next(s, step), p, th)
  {
    assert Located(s, p, ContinuationOf(due.task));
    if Ends(s, step, due.task) {
      assert Located(s, due.task, Innermost(s, step.th));
      var s' := Next(s, step);
      if due.home.None? || s.current[step.th] == due.home {
        assert Top(s'.stacks[step.th]) == Running(p);
        assert Comes(s, step, p, step.th, due);
      }
    } else {
      StaysForTask(s, at, step, p, due);
    }
  }

  lemma StaysForTask(s: State, at: map<Id, Place>, step: Step, p: Id, due: Due)
    requires Tracks(s, at) && Enabled(s, step) && Waits(s, at, p, due) && due.ByTask? && !Ends(s, step, due.task)
    ensures GoesOn(s, at, step, p, due)
  {
    assert Located(s, p, ContinuationOf(due.task));
    Acted(s, at, step);
  }

  lemma WaitsParked(s: State, at: map<Id, Place>, step: Step, p: Id, due: Due)
    requires Tracks(s, at) && Enabled(s, step) && Waits(s, at, p, due) && due.ByAwaitable?
    ensures (exists th :: Comes(s, step, p, th, due)) || GoesOn(s, at, step, p, due)
    ensures forall th :: Comes(s, step, p, th, due) ==> RunningAt(Next(s, step), p, th)
  {
    assert Located(s, p, Parked);
    Acted(s, at, step);
    if step.Unpark? && step.id == p {
      assert Top(Next(s, step).stacks[step.th]) == Running(p);
      assert Comes(s, step, p, step.th, due);
    }
  }

  lemma WaitsOrComes(s: State, at: map<Id, Place>, step: Step, p: Id, due: Due)
    requires Tracks(s, at) && Enabled(s, step) && Waits(s, at, p, due)
    ensures (exists th :: Comes(s, step, p, th, due)) || GoesOn(s, at, step, p, due)
    ensures forall th :: Comes(s, step, p, th, due) ==> RunningAt(Next(s, step), p, th)
  {
    match due
    case ByExecutor(_) => WaitsInExecutor(s, at, step, p, due);
    case ByTask(_, _) => WaitsForTask(s, at, step, p, due);
    case ByAwaitable => WaitsParked(s, at, step, p, due);
  }

  // ---------------------------------------------------------------- along runs

  lemma RunAsks(run: seq<State>, steps: seq<Step>, i: nat, p: Id) returns (at: map<Id, Place>)
    requires IsRun(run, steps) && i < |steps| && Enabled(run[i], steps[i]) && DueAfter(run[i], steps[i], p).Some?
    ensures Tracks(run[i + 1], at) && Waits(run[i + 1], at, p, DueAfter(run[i], steps[i], p).value)
  {
    at := RunTracks(run, steps, i);
    assert StepAt(run, steps, i);
    TracksNext(run[i], at, steps[i]);
    AskedWaits(run[i], at, steps[i], p);
    at := Moved(run[i], at, steps[i]);
  }

  lemma RunWaits(run: seq<State>, steps: seq<Step>, j: nat, at: map<Id, Place>, p: Id, due: Due)
    returns (at': map<Id, Place>)
    requires IsRun(run, steps) && j < |steps| && Tracks(run[j], at) && Waits(run[j], at, p, due)
    ensures Enabled(run[j], steps[j]) && Tracks(run[j + 1], at')
    ensures || (exists th :: Comes(run[j], steps[j], p, th, due) && RunningAt(run[j + 1], p, th))
            || Waits(run[j + 1], at', p, if HandedOver(run[j], steps[j], due) then ByExecutor(due.home.value) else due)
  {
    assert StepAt(run, steps, j);
    TracksNext(run[j], at, steps[j]);
    WaitsOrComes(run[j], at, steps[j], p, due);
    at' := Moved(run[j], at, steps[j]);
  }

  /** Nobody runs p in the states after i and before j. */
  ghost predicate NotRun(run: seq<State>, p: Id, i: nat, j: nat)
  {
    forall x, t :: i < x < j && x < |run| ==> !RunningAt(run[x], p, t)
  }

  /** What p is due at j: what was asked at i, or its home executor once its Task has ended elsewhere, at step m. */
  ghost predicate DueBy(run: seq<State>, steps: seq<Step>, i: nat, j: nat, asked: Due, due: Due, m: nat)
    requires IsRun(run, steps)
  {
    || due == asked
    || (&& i < m < j && m < |steps| && Enabled(run[m], steps[m]) && HandedOver(run[m], steps[m], asked)
        && due == ByExecutor(asked.home.value))
  }

  lemma {:induction false} WaitsUntil(run: seq<State>, steps: seq<Step>, i: nat, j: nat, p: Id)
    returns (at: map<Id, Place>, due: Due, m: nat)
    requires IsRun(run, steps) && i < j < |run| && Enabled(run[i], steps[i]) && DueAfter(run[i], steps[i], p).Some?
    requires NotRun(run, p, i, j + 1)
    ensures Tracks(run[j], at) && Waits(run[j], at, p, due)
    ensures DueBy(run, steps, i, j, DueAfter(run[i], steps[i], p).value, due, m)
    decreases j
  {
    if j == i + 1 {
      at := RunAsks(run, steps, i, p);
      due, m := DueAfter(run[i], steps[i], p).value, 0;
    } else {
      at, due, m := WaitsUntil(run, steps, i, j - 1, p);
      at := RunWaits(run, steps, j - 1, at, p, due);
      if HandedOver(run[j - 1], steps[j - 1], due) {
        due, m := ByExecutor(due.home.value), j - 1;
      }
    }
  }

  lemma NotBoth(s: State, at: map<Id, Place>, p: Id, due: Due, u: Thread)
    requires Tracks(s, at) && RunningAt(s, p, u)
    ensures !Waits(s, at, p, due)
  {
    RunsWhereRunning(s, at, p, u);
  }

  lemma NotAtOnce(run: seq<State>, steps: seq<Step>, i: nat, p: Id, u: Thread)
    requires IsRun(run, steps) && i < |steps| && Enabled(run[i], steps[i]) && DueAfter(run[i], steps[i], p).Some?
    ensures !RunningAt(run[i + 1], p, u)
  {
    var at := RunAsks(run, steps, i, p);
    if RunningAt(run[i + 1], p, u) { NotBoth(run[i + 1], at, p, DueAfter(run[i], steps[i], p).value, u); }
  }

  /**
   A coroutine comes back as it was asked to and in no other way. One that migrated to an executor,
   or a Task scheduled on one, next runs by a pop of that executor's queue; one kept by another
   awaitable, when that resumes it; one that awaits a Task, when that Task ends, directly if the
   executor current when it awaited is unset or is current where the Task ends, and otherwise by a
   pop of that executor's queue.
   */
  lemma ResumesAsAsked(run: seq<State>, steps: seq<Step>, i: nat, j: nat, p: Id, u: Thread) returns (due: Due, m: nat)
    requires IsRun(run, steps) && i < j < |run| && Enabled(run[i], steps[i]) && DueAfter(run[i], steps[i], p).Some?
    requires NotRun(run, p, i, j) && RunningAt(run[j], p, u)
    ensures i + 1 < j && Enabled(run[j - 1], steps[j - 1]) && Comes(run[j - 1], steps[j - 1], p, u, due)
    ensures DueBy(run, steps, i, j - 1, DueAfter(run[i], steps[i], p).value, due, m)
  {
    NotAtOnce(run, steps, i, p, u);
    var at;
    at, due, m := WaitsUntil(run, steps, i, j - 1, p);
    at := RunWaits(run, steps, j - 1, at, p, due);
    NotBoth(run[j], at, p, if HandedOver(run[j - 1], steps[j - 1], due) then ByExecutor(due.home.value) else due, u);
    var th :| Comes(run[j - 1], steps[j - 1], p, th, due) && RunningAt(run[j], p, th);
    RunsWhereRunning(run[j], at, p, th);
    RunsWhereRunning(run[j], at, p, u);
  }

  /** At step i, coroutine p is started, or goes on, on thread th. */
  ghost predicate StartsOn(s: State, step: Step, p: Id, th: Thread)
  {
    || step == StartRoot(th, p)
    || (step == Await(th, p) && HasPhase(s, p, Task, Created))
    || RunningAt(s, p, th)
  }

  /** Until a step suspends or ends it a coroutine runs on, on one thread, from the step that started it. */
  lemma {:induction false} RunsUntilSuspended(run: seq<State>, steps: seq<Step>, i: nat, j: nat, p: Id, th: Thread)
    requires IsRun(run, steps) && i < j < |run| && StartsOn(run[i], steps[i], p, th)
    requires forall x :: i <= x < j ==> Enabled(run[x], steps[x])
    requires forall x :: i <= x < j ==> DueAfter(run[x], steps[x], p).None? && !Ends(run[x], steps[x], p)
    ensures RunningAt(run[j], p, th)
    decreases j
  {
    assert StepAt(run, steps, j - 1);
    if RunningAt(run[j - 1], p, th) {
      var at := RunTracks(run, steps, j - 1);
      RunsOn(run[j - 1], at, steps[j - 1], p, th);
    } else if j == i + 1 {
      assert Top(run[j].stacks[th]) == Running(p);
    } else {
      RunsUntilSuspended(run, steps, i, j - 1, p, th);
    }
  }

  /** A coroutine that has ended never runs again. */
  lemma {:induction false} EndsForGood(run: seq<State>, steps: seq<Step>, i: nat, j: nat, p: Id, th: Thread)
    requires IsRun(run, steps) && i < j < |run| && Enabled(run[i], steps[i]) && Ends(run[i], steps[i], p)
    ensures p in run[j].promises && run[j].promises[p].phase == Done && !RunningAt(run[j], p, th)
    decreases j
  {
    assert StepAt(run, steps, j - 1);
    if j > i + 1 { EndsForGood(run, steps, i, j - 1, p, th); }
    var before := RunTracks(run, steps, j - 1);
    Acted(run[j - 1], before, steps[j - 1]);
    var at := RunTracks(run, steps, j);
    if RunningAt(run[j], p, th) { RunsWhereRunning(run[j], at, p, th); }
  }

  // ---------------------------------------------------------------- home

  /** If step j pops an executor's queue, it does so on the thread where that executor was the last to be built. */
  predicate HomedAt(steps: seq<Step>, j: nat)
    requires j < |steps|
  {
    steps[j].PopWork? ==> LastBuilt(steps[..j], steps[j].th) == Some(steps[j].ex)
  }

  /** At step i, coroutine p running on th suspends in a co_await of a task that has not started. */
  ghost predicate AwaitsTask(run: seq<State>, steps: seq<Step>, i: nat, th: Thread, p: Id)
    requires IsRun(run, steps)
  {
    && i < |steps| && (steps[i].Await? || steps[i].ScheduleOn?) && steps[i].th == th
    && th in run[i].stacks && run[i].stacks[th] != [] && Top(run[i].stacks[th]) == Running(p)
    && steps[i].id in run[i].promises && run[i].promises[steps[i].id].phase == Created
  }

  /** What such a coroutine is due. */
  lemma AwaitsByTask(run: seq<State>, steps: seq<Step>, i: nat, th: Thread, p: Id)
    requires IsRun(run, steps) && AwaitsTask(run, steps, i, th, p)
    ensures Enabled(run[i], steps[i]) && th in run[i].current
    ensures DueAfter(run[i], steps[i], p) == Some(ByTask(steps[i].id, run[i].current[th]))
  {
    assert StepAt(run, steps, i);
    var at := RunTracks(run, steps, i);
    assert Located(run[i], p, Innermost(run[i], th));
  }

  /**
   A coroutine that suspended awaiting a task next runs where Executor::current has the value it
   had when it suspended, unless that was unset, whatever threads and executors the awaited task
   and the tasks that one awaits have visited in between: always when it is resumed directly, and
   when it is popped from a queue exactly if that executor is the last built on the popping thread.
   */
  lemma HomeExecutor(run: seq<State>, steps: seq<Step>, i: nat, j: nat, th: Thread, u: Thread, p: Id)
    requires IsRun(run, steps) && AwaitsTask(run, steps, i, th, p)
    requires i < j < |run| && NotRun(run, p, i, j) && RunningAt(run[j], p, u)
    ensures th in run[i].current && u in run[j].current
    ensures run[i].current[th].None? || (run[j].current[u] == run[i].current[th] <==> HomedAt(steps, j - 1))
  {
    AwaitsByTask(run, steps, i, th, p);
    var due, m := ResumesAsAsked(run, steps, i, j, p, u);
    assert StepAt(run, steps, j - 1);
    CurrentIsLastBuilt(run, steps, j - 1, u);
  }

  /** And it never runs from the queue of another executor. */
  lemma HomeQueue(run: seq<State>, steps: seq<Step>, i: nat, j: nat, th: Thread, u: Thread, p: Id)
    requires IsRun(run, steps) && AwaitsTask(run, steps, i, th, p)
    requires i < j < |run| && NotRun(run, p, i, j) && RunningAt(run[j], p, u)
    requires steps[j - 1].PopWork?
    ensures th in run[i].current && run[i].current[th].Some? && steps[j - 1] == PopWork(u, run[i].current[th].value)
  {
    AwaitsByTask(run, steps, i, th, p);
    var due, m := ResumesAsAsked(run, steps, i, j, p, u);
  }

  /**
   Each executor is run and destroyed on the thread that built it, and no thread builds another
   while one it built exists.
   */
  ghost predicate StayHome(steps: seq<Step>)
  {
    forall k: nat :: k < |steps| ==> StaysHome(steps, k)
  }

  ghost predicate StaysHome(steps: seq<Step>, k: nat)
    requires k < |steps|
  {
    match steps[k]
    case Build(th, _) => forall ex :: Builder(steps[..k], ex) != Some(th)
    case Destroy(th, ex) => Builder(steps[..k], ex) == Some(th)
    case PopWork(th, ex) => Builder(steps[..k], ex) == Some(th)
    case _ => true
  }

  lemma {:induction false} BuiltIsLastBuilt(steps: seq<Step>, n: nat, th: Thread, ex: Exec)
    requires StayHome(steps) && n <= |steps| && Builder(steps[..n], ex) == Some(th)
    ensures LastBuilt(steps[..n], th) == Some(ex)
  {
    assert steps[..n][..n - 1] == steps[..n - 1] && steps[..n][n - 1] == steps[n - 1];
    assert StaysHome(steps, n - 1);
    if Builder(steps[..n - 1], ex) == Some(th) {
      BuiltIsLastBuilt(steps, n - 1, th, ex);
      if steps[n - 1].Destroy? && steps[n - 1].th == th {
        BuiltIsLastBuilt(steps, n - 1, th, steps[n - 1].ex);
      }
    }
  }

  /**
   So where each executor runs on the thread that built it, which has no other, a coroutine always
   resumes with the Executor::current it suspended with.
   */
  lemma AlwaysHome(run: seq<State>, steps: seq<Step>, i: nat, j: nat, th: Thread, u: Thread, p: Id)
    requires IsRun(run, steps) && AwaitsTask(run, steps, i, th, p) && StayHome(steps)
    requires i < j < |run| && NotRun(run, p, i, j) && RunningAt(run[j], p, u)
    ensures th in run[i].current && u in run[j].current
    ensures run[i].current[th].None? || run[j].current[u] == run[i].current[th]
  {
    HomeExecutor(run, steps, i, j, th, u, p);
    assert StaysHome(steps, j - 1);
    if steps[j - 1].PopWork? {
      BuiltIsLastBuilt(steps, j - 1, steps[j - 1].th, steps[j - 1].ex);
    }
  }
}
