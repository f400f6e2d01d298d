/**
 QueuedExecutor of include/ptl/execution/basic_executor.hpp: one thread in run(), any number of
 threads in add() and stop(), work items that call add() themselves, and spurious wake-ups.

 A region locked by `lock_` is one step, up to the point where the condition variable releases the
 lock and sleeps; a notification is a step of its own, after the lock has been released.
 */
module RunLoop {
  type Item = nat
  type Tid = nat

  /** The thread inside run(). */
  const RUNNER: Tid := 0

  datatype Runner =
    | Looking                // about to lock and look at finished_ and work_
    | Sleeping               // inside cv_.wait, lock released
    | Executing(item: Item)  // running fn()
    | Returned

  /** `notifiers` are the threads past their locked region that have yet to call notify_one. */
  datatype State = State(
    work: seq<Item>, finished: bool, runner: Runner, notifiers: set<Tid>, added: seq<Item>, executed: seq<Item>)

  datatype Step =
    | Add(tid: Tid, item: Item)
    | Stop(tid: Tid)
    | Notify(tid: Tid)
    | Look
    | FinishItem
    | SpuriousWake

  const INIT := State([], false, Looking, {}, [], [])

  predicate CanCall(s: State, t: Tid)
  {
    t !in s.notifiers && (t == RUNNER ==> s.runner.Executing?)
  }

  predicate Enabled(s: State, step: Step)
  {
    match step
    case Add(t, _) => CanCall(s, t)
    case Stop(t) => CanCall(s, t)
    case Notify(t) => t in s.notifiers
    case Look => s.runner == Looking
    case FinishItem => s.runner.Executing? && RUNNER !in s.notifiers
    case SpuriousWake => s.runner == Sleeping
  }

  function Looked(s: State): State
  {
    if !s.finished && s.work == [] then s.(runner := Sleeping)
    else if s.work == [] then s.(runner := Returned)
    else s.(runner := Executing(s.work[0]), work := s.work[1..], executed := s.executed + [s.work[0]])
  }

  function Next(s: State, step: Step): State
    requires Enabled(s, step)
  {
    match step
    case Add(t, item) => s.(work := s.work + [item], added := s.added + [item], notifiers := s.notifiers + {t})
    case Stop(t) => s.(finished := true, notifiers := s.notifiers + {t})
    case Notify(t) =>
      s.(notifiers := s.notifiers - {t}, runner := if s.runner == Sleeping then Looking else s.runner)
    case Look => Looked(s)
    case FinishItem => s.(runner := Looking)
    case SpuriousWake => s.(runner := Looking)
  }

  ghost predicate Inv(s: State)
  {
    && s.executed + s.work == s.added
    && (s.runner == Sleeping && (s.work != [] || s.finished) ==> s.notifiers != {})
    && (RUNNER in s.notifiers ==> s.runner.Executing?)
    && (s.runner == Returned ==> s.finished)
    && (s.runner.Executing? ==> s.executed != [] && s.executed[|s.executed| - 1] == s.runner.item)
  }

  lemma InvNext(s: State, step: Step)
    requires Inv(s) && Enabled(s, step)
    ensures Inv(Next(s, step))
  {
    if step.Look? && s.work != [] {
      assert s.work == [s.work[0]] + s.work[1..];
    }
  }

  // ---------------------------------------------------------------- runs

  ghost predicate IsRun(run: seq<State>, steps: seq<Step>)
  {
    && |run| == |steps| + 1
    && run[0] == INIT
    && forall i: nat :: i < |steps| ==> StepAt(run, steps, i)
  }

  ghost predicate StepAt(run: seq<State>, steps: seq<Step>, i: nat)
    requires i < |steps| < |run|
  {
    Enabled(run[i], steps[i]) && run[i + 1] == Next(run[i], steps[i])
  }

  lemma {:induction false} RunInv(run: seq<State>, steps: seq<Step>, i: nat)
    requires IsRun(run, steps) && i < |run|
    ensures Inv(run[i])
  {
    if i > 0 {
      RunInv(run, steps, i - 1);
      assert StepAt(run, steps, i - 1);
      InvNext(run[i - 1], steps[i - 1]);
    }
  }

  // ---------------------------------------------------------------- what was asked for

  /** The items handed to add(), in order. */
  function AddedBy(steps: seq<Step>): seq<Item>
  {
    if steps == [] then []
    else AddedBy(steps[..|steps| - 1]) + if steps[|steps| - 1].Add? then [steps[|steps| - 1].item] else []
  }

  predicate Stopped(steps: seq<Step>)
  {
    steps != [] && (steps[|steps| - 1].Stop? || Stopped(steps[..|steps| - 1]))
  }

  /** The items whose execution the runner began, in order. */
  function RunBy(run: seq<State>): seq<Item>
  {
    if |run| < 2 then []
    else
      var before, after := run[|run| - 2].runner, run[|run| - 1].runner;
      RunBy(run[..|run| - 1]) + if after.Executing? && !before.Executing? then [after.item] else []
  }

  lemma StepRuns(s: State, step: Step)
    requires Inv(s) && Enabled(s, step)
    ensures var s' := Next(s, step);
      s'.executed == s.executed + if s'.runner.Executing? && !s.runner.Executing? then [s'.runner.item] else []
  {
  }

  /**
   The runner executes what was handed to add(), in that order, each item once: the items it has
   begun, followed by those still queued, are those of the add() calls so far.
   */
  lemma {:induction false} RunsWhatWasAdded(run: seq<State>, steps: seq<Step>, i: nat)
    requires IsRun(run, steps) && i < |run|
    ensures RunBy(run[..i + 1]) == run[i].executed && AddedBy(steps[..i]) == run[i].added
    ensures RunBy(run[..i + 1]) + run[i].work == AddedBy(steps[..i])
    ensures run[i].finished <==> Stopped(steps[..i])
  {
    RunInv(run, steps, i);
    if i > 0 {
      RunsWhatWasAdded(run, steps, i - 1);
      RunInv(run, steps, i - 1);
      assert StepAt(run, steps, i - 1);
      StepRuns(run[i - 1], steps[i - 1]);
      assert run[..i + 1][..i] == run[..i] && steps[..i][..i - 1] == steps[..i - 1];
    }
  }

  /** What has been executed by any time is a prefix, in order, of what had been added by then or later. */
  lemma {:induction false} ExecutedIsPrefix(run: seq<State>, steps: seq<Step>, i: nat, j: nat)
    requires IsRun(run, steps) && i <= j < |run|
    ensures run[i].executed <= run[i].added <= run[j].added
    ensures run[i].executed <= run[j].executed <= run[j].added
    ensures |run[i].added| == |run[i].executed| + |run[i].work|
    decreases j
  {
    RunInv(run, steps, i);
    RunInv(run, steps, j);
    if i < j {
      ExecutedIsPrefix(run, steps, i, j - 1);
      assert StepAt(run, steps, j - 1);
    }
  }

  /** If the runner sleeps while work is queued or stop was requested, someone still owes it a notification. */
  lemma NoLostWakeUp(run: seq<State>, steps: seq<Step>, i: nat)
    requires IsRun(run, steps) && i < |run| && run[i].runner == Sleeping
    requires run[i].work != [] || run[i].finished
    ensures exists t :: Enabled(run[i], Notify(t)) && Next(run[i], Notify(t)).runner == Looking
  {
    RunInv(run, steps, i);
    var t :| t in run[i].notifiers;
    assert Enabled(run[i], Notify(t)) && Next(run[i], Notify(t)).runner == Looking;
  }

  /** run() returns only after stop() and with everything added by then executed, items added by items included. */
  lemma ReturnsWhenDrained(run: seq<State>, steps: seq<Step>, i: nat)
    requires IsRun(run, steps) && i < |steps|
    requires run[i].runner != Returned && run[i + 1].runner == Returned
    ensures run[i].finished && run[i + 1].work == [] && run[i + 1].executed == run[i + 1].added
  {
    assert StepAt(run, steps, i);
    RunInv(run, steps, i + 1);
  }

  /** When neither the runner nor a notifier has a step to take, run() has returned or there is nothing to do. */
  lemma QuietWhenDrained(run: seq<State>, steps: seq<Step>, i: nat)
    requires IsRun(run, steps) && i < |run|
    requires forall step: Step :: Enabled(run[i], step) ==> step.Add? || step.Stop? || step.SpuriousWake?
    ensures RunBy(run[..i + 1]) == AddedBy(steps[..i]) || run[i].runner == Returned
    ensures run[i].runner == (if Stopped(steps[..i]) then Returned else Sleeping)
  {
    RunsWhatWasAdded(run, steps, i);
    RunInv(run, steps, i);
    var s := run[i];
    assert !Enabled(s, Look) && !Enabled(s, FinishItem);
    forall t ensures t !in s.notifiers { assert !Enabled(s, Notify(t)); }
  }

  /** So many steps of the runner alone. */
  ghost function Alone(s: State, steps: nat): State
    decreases steps
  {
    if steps == 0 then s
    else if Enabled(s, Look) then Alone(Next(s, Look), steps - 1)
    else if Enabled(s, FinishItem) then Alone(Next(s, FinishItem), steps - 1)
    else s
  }

  /** With no further calls the runner executes what is queued, in two steps an item, and is back at its test. */
  lemma {:induction false} DrainsQueue(s: State)
    requires Inv(s) && s.runner == Looking
    ensures Alone(s, 2 * |s.work|) == s.(work := [], executed := s.added)
    decreases |s.work|
  {
    if s.work == [] {
      assert s.executed == s.added;
    } else {
      var t := Next(s, Look);
      InvNext(s, Look);
      var s' := Next(t, FinishItem);
      InvNext(t, FinishItem);
      DrainsQueue(s');
      assert Alone(t, 2 * |s.work| - 1) == Alone(s', 2 * |s'.work|);
    }
  }

  lemma {:induction false} AloneThen(s: State, m: nat, n: nat)
    ensures Alone(s, m + n) == Alone(Alone(s, m), n)
    decreases m
  {
    if m > 0 {
      if Enabled(s, Look) {
        AloneThen(Next(s, Look), m - 1, n);
      } else if Enabled(s, FinishItem) {
        AloneThen(Next(s, FinishItem), m - 1, n);
      }
    }
  }

  /** And after stop() one more step and it has returned. */
  lemma DrainsAfterStop(s: State)
    requires Inv(s) && s.finished && s.runner == Looking
    ensures Alone(s, 2 * |s.work| + 1) == s.(runner := Returned, work := [], executed := s.added)
  {
    DrainsQueue(s);
    AloneThen(s, 2 * |s.work|, 1);
    var t := Alone(s, 2 * |s.work|);
    assert Alone(t, 1) == Alone(Next(t, Look), 0);
  }

  // ---------------------------------------------------------------- the object

  class QueuedExecutor {
    var work: seq<Item>
    var finished: bool
    var runner: Runner
    var notifiers: set<Tid>
    ghost var added: seq<Item>
    ghost var executed: seq<Item>

    ghost function View(): State
      reads this
    {
      State(work, finished, runner, notifiers, added, executed)
    }

    ghost predicate Valid()
      reads this
    {
      Inv(View())
    }

    constructor ()
      ensures Valid() && View() == INIT
    {
      work, finished, runner, notifiers, added, executed := [], false, Looking, {}, [], [];
    }

    /** The locked region of add(). */
    method AddWork(t: Tid, item: Item)
      requires Valid() && CanCall(View(), t)
      modifies this
      ensures Valid() && View() == Next(old(View()), Add(t, item))
    {
      InvNext(View(), Add(t, item));
      work := work + [item];
      added := added + [item];
      notifiers := notifiers + {t};
    }

    /** The locked region of stop(). */
    method StopRunning(t: Tid)
      requires Valid() && CanCall(View(), t)
      modifies this
      ensures Valid() && View() == Next(old(View()), Stop(t))
    {
      finished := true;
      notifiers := notifiers + {t};
    }

    method NotifyOne(t: Tid)
      requires Valid() && t in notifiers
      modifies this
      ensures Valid() && View() == Next(old(View()), Notify(t))
    {
      notifiers := notifiers - {t};
      if runner == Sleeping {
        runner := Looking;
      }
    }

    /** The locked region of run(): wait, return, or take the front item. */
    method LookForWork() returns (returned: bool)
      requires Valid() && runner == Looking
      modifies this
      ensures Valid() && View() == Next(old(View()), Look)
      ensures returned <==> runner == Returned
      ensures returned ==> finished && executed == added
    {
      InvNext(View(), Look);
      returned := false;
      if !(finished || work != []) {
        runner := Sleeping;
      } else if work == [] && finished {
        runner := Returned;
        returned := true;
      } else {
        var item := work[0];
        work := work[1..];
        executed := executed + [item];
        runner := Executing(item);
      }
    }

    method ItemDone()
      requires Valid() && Enabled(View(), FinishItem)
      modifies this
      ensures Valid() && View() == Next(old(View()), FinishItem)
    {
      runner := Looking;
    }

    method WakeSpuriously()
      requires Valid() && runner == Sleeping
      modifies this
      ensures Valid() && View() == Next(old(View()), SpuriousWake)
    {
      runner := Looking;
    }

    /** run() from here to its return, once stop() was called and no one else calls in. */
    method RunToReturn()
      requires Valid() && finished && runner == Looking && notifiers == {}
      modifies this
      ensures Valid() && runner == Returned && work == [] && executed == added
      ensures added == old(added) && finished && notifiers == {}
    {
      while true
        invariant Valid() && finished && runner == Looking && notifiers == {} && added == old(added)
        decreases |work|
      {
        var returned := LookForWork();
        if returned {
          return;
        }
        ItemDone();
      }
    }
  }
}
