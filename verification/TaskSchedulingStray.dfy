/**
 A run in which a coroutine does not come home: the executor it suspended on is run by the thread
 that built it, but that thread has built another one since.
 */
module TaskSchedulingStray {
  import opened Wrappers
  import opened TaskScheduling
  import opened TaskSchedulingProperties
  import opened TaskSchedulingJourneys

  /**
   Thread 0 builds executor 0 and thread 1 executor 1. Coroutine 0 runs on thread 0 and schedules
   Task 1 on executor 1; before that ends, thread 0 builds executor 2, and then pops the queue of
   executor 0.
   */
  function StraySteps(): seq<Step>
  {
    [Build(0, 0), Build(1, 1), Create(0, Root), Create(1, Task), StartRoot(0, 0), ScheduleOn(0, 1, 1), Add(0),
     PopWork(1, 1), Build(0, 2), FinalSuspend(1), Add(1), PopWork(0, 0)]
  }

  function StrayPromises(k: nat): map<Id, Promise>
  {
    var root := Promise(Root, if k < 5 then Created else Started, None, None);
    if k < 3 then map[]
    else if k < 4 then map[0 := root]
    else if k < 6 then map[0 := root, 1 := Promise(Task, Created, None, None)]
    else map[0 := root, 1 := Promise(Task, if k < 10 then Started else Done, Some(0), Some(0))]
  }

  function StrayQueues(k: nat): map<Exec, seq<Id>>
  {
    if k < 1 then map[]
    else if k < 2 then map[0 := []]
    else if k < 9 then map[0 := [], 1 := if k == 7 then [1] else []]
    else map[0 := if k == 11 then [0] else [], 1 := [], 2 := []]
  }

  function StrayStacks(k: nat): map<Thread, seq<Call>>
  {
    map[0 := if k == 5 || k == 12 then [Running(0)] else if k == 6 then [Adding(1, 1)] else [],
        1 := if k == 8 || k == 9 then [Running(1)] else if k == 10 then [Adding(0, 0)] else []]
  }

  function StrayCurrent(k: nat): map<Thread, Option<Exec>>
  {
    map[0 := if k < 1 then None else if k < 9 then Some(0) else Some(2), 1 := if k < 2 then None else Some(1)]
  }

  function Stray(k: nat): State
  {
    State(StrayPromises(k), StrayQueues(k), StrayStacks(k), StrayCurrent(k), {})
  }

  ghost predicate Leads(k: nat)
    requires k < 12
  {
    Enabled(Stray(k), StraySteps()[k]) && Next(Stray(k), StraySteps()[k]) == Stray(k + 1)
  }

  lemma Leads0()
    ensures Leads(0)
  {
    var t := Next(Stray(0), StraySteps()[0]);
    assert t.promises == StrayPromises(1) && t.queues == StrayQueues(1);
    assert t.stacks == StrayStacks(1) && t.current == StrayCurrent(1);
  }

  lemma Leads1()
    ensures Leads(1)
  {
    var t := Next(Stray(1), StraySteps()[1]);
    assert t.promises == StrayPromises(2) && t.queues == StrayQueues(2);
    assert t.stacks == StrayStacks(2) && t.current == StrayCurrent(2);
  }

  lemma Leads2()
    ensures Leads(2)
  {
    var t := Next(Stray(2), StraySteps()[2]);
    assert t.promises == StrayPromises(3) && t.queues == StrayQueues(3);
    assert t.stacks == StrayStacks(3) && t.current == StrayCurrent(3);
  }

  lemma Leads3()
    ensures Leads(3)
  {
    var t := Next(Stray(3), StraySteps()[3]);
    assert t.promises == StrayPromises(4) && t.queues == StrayQueues(4);
    assert t.stacks == StrayStacks(4) && t.current == StrayCurrent(4);
  }

  lemma Leads4()
    ensures Leads(4)
  {
    var t := Next(Stray(4), StraySteps()[4]);
    assert t.stacks[0] == StrayStacks(5)[0] && t.stacks[1] == StrayStacks(5)[1];
    assert t.promises == StrayPromises(5) && t.queues == StrayQueues(5);
    assert t.stacks == StrayStacks(5) && t.current == StrayCurrent(5);
  }

  lemma Leads5()
    ensures Leads(5)
  {
    var t := Next(Stray(5), StraySteps()[5]);
    assert t.stacks[0] == StrayStacks(6)[0] && t.stacks[1] == StrayStacks(6)[1];
    assert t.promises == StrayPromises(6) && t.queues == StrayQueues(6);
    assert t.stacks == StrayStacks(6) && t.current == StrayCurrent(6);
  }

  lemma Leads6()
    ensures Leads(6)
  {
    var t := Next(Stray(6), StraySteps()[6]);
    assert t.queues[1] == [1];
    assert t.stacks[0] == StrayStacks(7)[0] && t.stacks[1] == StrayStacks(7)[1];
    assert t.promises == StrayPromises(7) && t.queues == StrayQueues(7);
    assert t.stacks == StrayStacks(7) && t.current == StrayCurrent(7);
  }

  lemma Leads7()
    ensures Leads(7)
  {
    var t := Next(Stray(7), StraySteps()[7]);
    assert t.stacks[0] == StrayStacks(8)[0] && t.stacks[1] == StrayStacks(8)[1];
    assert t.promises == StrayPromises(8) && t.queues == StrayQueues(8);
    assert t.stacks == StrayStacks(8) && t.current == StrayCurrent(8);
  }

  lemma Leads8()
    ensures Leads(8)
  {
    var t := Next(Stray(8), StraySteps()[8]);
    assert t.stacks[0] == StrayStacks(9)[0] && t.stacks[1] == StrayStacks(9)[1];
    assert t.promises == StrayPromises(9) && t.queues == StrayQueues(9);
    assert t.stacks == StrayStacks(9) && t.current == StrayCurrent(9);
  }

  lemma Leads9()
    ensures Leads(9)
  {
    var t := Next(Stray(9), StraySteps()[9]);
    assert t.stacks[0] == StrayStacks(10)[0] && t.stacks[1] == StrayStacks(10)[1];
    assert t.promises == StrayPromises(10) && t.queues == StrayQueues(10);
    assert t.stacks == StrayStacks(10) && t.current == StrayCurrent(10);
  }

  lemma Leads10()
    ensures Leads(10)
  {
    var t := Next(Stray(10), StraySteps()[10]);
    assert t.queues[0] == [0];
    assert t.stacks[0] == StrayStacks(11)[0] && t.stacks[1] == StrayStacks(11)[1];
    assert t.promises == StrayPromises(11) && t.queues == StrayQueues(11);
    assert t.stacks == StrayStacks(11) && t.current == StrayCurrent(11);
  }

  lemma Leads11()
    ensures Leads(11)
  {
    var t := Next(Stray(11), StraySteps()[11]);
    assert t.queues[0] == [] && t.queues[1] == [] && t.queues[2] == [];
    assert t.stacks[0] == StrayStacks(12)[0] && t.stacks[1] == StrayStacks(12)[1];
    assert t.promises == StrayPromises(12) && t.queues == StrayQueues(12);
    assert t.stacks == StrayStacks(12) && t.current == StrayCurrent(12);
  }

  function StrayRun(): seq<State>
  {
    seq(13, k requires 0 <= k < 13 => Stray(k))
  }

  lemma LeadsOn(k: nat)
    requires k < 12
    ensures Leads(k)
  {
    if k == 0 { Leads0(); } else if k == 1 { Leads1(); } else if k == 2 { Leads2(); }
    else if k == 3 { Leads3(); } else if k == 4 { Leads4(); } else if k == 5 { Leads5(); }
    else if k == 6 { Leads6(); } else if k == 7 { Leads7(); } else if k == 8 { Leads8(); }
    else if k == 9 { Leads9(); } else if k == 10 { Leads10(); } else { Leads11(); }
  }

  lemma StrayIsRun()
    ensures IsRun(StrayRun(), StraySteps())
  {
    forall i: nat | i < 12 ensures StepAt(StrayRun(), StraySteps(), i) {
      LeadsOn(i);
    }
  }

  lemma {:induction false} BuilderStays(steps: seq<Step>, m: nat, n: nat, ex: Exec)
    requires m <= n <= |steps|
    requires forall k :: m <= k < n ==> !((steps[k].Build? || steps[k].Destroy?) && steps[k].ex == ex)
    ensures Builder(steps[..n], ex) == Builder(steps[..m], ex)
  {
    if m < n {
      assert steps[..n][..n - 1] == steps[..n - 1] && steps[..n][n - 1] == steps[n - 1];
      BuilderStays(steps, m, n - 1, ex);
    }
  }

  lemma StrayExecutors()
    ensures Builder(StraySteps()[..11], 0) == Some(0) && LastBuilt(StraySteps()[..11], 0) == Some(2)
  {
    StrayIsRun();
    CurrentIsLastBuilt(StrayRun(), StraySteps(), 11, 0);
    BuilderStays(StraySteps(), 1, 11, 0);
    assert StraySteps()[..1] == [Build(0, 0)];
  }

  /**
   Coroutine 0 suspends with executor 0 current and resumes from that executor's queue, on the
   thread that built it, with executor 2 current.
   */
  lemma AwayFromHome()
    ensures IsRun(StrayRun(), StraySteps()) && AwaitsTask(StrayRun(), StraySteps(), 5, 0, 0)
    ensures StrayCurrent(5)[0] == Some(0) && StrayCurrent(12)[0] == Some(2)
    ensures NotRun(StrayRun(), 0, 5, 12) && RunningAt(StrayRun()[12], 0, 0)
    ensures StraySteps()[11] == PopWork(0, 0) && Builder(StraySteps()[..11], 0) == Some(0)
    ensures LastBuilt(StraySteps()[..11], 0) == Some(2)
  {
    StrayIsRun();
    StrayExecutors();
    assert StrayStacks(12)[0][0] == Running(0);
  }
}
