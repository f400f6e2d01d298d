/**
 The manual reset event of include/ptl/sync/event.hpp over an abstract futex: any number of threads
 in set(), reset() and wait(). A futex wait compares and sleeps in one step; a futex wake wakes
 every sleeper; a sleeper may also be woken for no reason.
 */
module ManualResetEvent {
  type Tid = nat

  datatype Local =
    | Waking      // in set(): stored 1, the futex wake to come
    | Loading     // in wait(): about to load state_
    | Calling     // in wait(): loaded 0, about to call the futex wait
    | Sleeping    // in wait(): asleep in the futex

  datatype State = State(value: int, threads: map<Tid, Local>)

  datatype Step =
    | SetStore(tid: Tid)
    | SetWake(tid: Tid)
    | Reset(tid: Tid)
    | WaitBegin(tid: Tid)
    | WaitLoad(tid: Tid)
    | FutexWait(tid: Tid)
    | Interrupt(tid: Tid)

  const INIT := State(0, map[])

  predicate At(s: State, t: Tid, l: Local)
  {
    t in s.threads && s.threads[t] == l
  }

  predicate Enabled(s: State, step: Step)
  {
    match step
    case SetStore(t) => t !in s.threads
    case SetWake(t) => At(s, t, Waking)
    case Reset(t) => t !in s.threads
    case WaitBegin(t) => t !in s.threads
    case WaitLoad(t) => At(s, t, Loading)
    case FutexWait(t) => At(s, t, Calling)
    case Interrupt(t) => At(s, t, Sleeping)
  }

  function Goto(s: State, t: Tid, l: Local): State
  {
    s.(threads := s.threads[t := l])
  }

  function Return(s: State, t: Tid): State
  {
    s.(threads := s.threads - {t})
  }

  function WakeAll(threads: map<Tid, Local>): map<Tid, Local>
  {
    map t | t in threads :: if threads[t] == Sleeping then Loading else threads[t]
  }

  function Next(s: State, step: Step): State
    requires Enabled(s, step)
  {
    match step
    case SetStore(t) => Goto(s.(value := 1), t, Waking)
    case SetWake(t) => Return(s.(threads := WakeAll(s.threads)), t)
    case Reset(_) => s.(value := 0)
    case WaitBegin(t) => Goto(s, t, Loading)
    case WaitLoad(t) => if s.value == 0 then Goto(s, t, Calling) else Return(s, t)
    case FutexWait(t) => if s.value == 0 then Goto(s, t, Sleeping) else Return(s, t)
    case Interrupt(t) => Goto(s, t, Loading)
  }

  /** A sleeper while the event is set is owed a wake by some setter. */
  ghost predicate Inv(s: State)
  {
    && (s.value == 0 || s.value == 1)
    && (s.value == 1 && (exists t :: At(s, t, Sleeping)) ==> exists u :: At(s, u, Waking))
  }

  lemma InvNext(s: State, step: Step)
    requires Inv(s) && Enabled(s, step)
    ensures Inv(Next(s, step))
  {
    var s' := Next(s, step);
    if step.SetStore? {
      assert At(s', step.tid, Waking);
    } else if s'.value == 1 && (exists t :: At(s', t, Sleeping)) {
      var t :| At(s', t, Sleeping);
      assert s.value == 1 && At(s, t, Sleeping);
      var u :| At(s, u, Waking);
      assert At(s', u, Waking);
    }
  }

  // ---------------------------------------------------------------- runs

  ghost predicate IsRun(run: seq<State>, steps: seq<Step>)
  {
    && |run| == |steps| + 1
    && run[0] == INIT
    && forall i: nat :: i < |steps| ==> StepAt(run, steps, i)
  }

  ghost predicate StepAt(run: seq<State>, steps: seq<Step>, i: nat)
    requires i < |steps| < |run|
  {
    Enabled(run[i], steps[i]) && run[i + 1] == Next(run[i], steps[i])
  }

  lemma {:induction false} RunInv(run: seq<State>, steps: seq<Step>, i: nat)
    requires IsRun(run, steps) && i < |run|
    ensures Inv(run[i])
  {
    if i > 0 {
      RunInv(run, steps, i - 1);
      assert StepAt(run, steps, i - 1);
      InvNext(run[i - 1], steps[i - 1]);
    }
  }

  predicate InWait(s: State, t: Tid)
  {
    t in s.threads && s.threads[t] != Waking
  }

  /** Whether the event is set: the last of the stores of set() and reset() decides. */
  predicate LastSet(steps: seq<Step>)
  {
    if steps == [] then false
    else if steps[|steps| - 1].SetStore? then true
    else if steps[|steps| - 1].Reset? then false
    else LastSet(steps[..|steps| - 1])
  }

  lemma {:induction false} ValueIsLastSet(run: seq<State>, steps: seq<Step>, i: nat)
    requires IsRun(run, steps) && i < |run|
    ensures run[i].value == if LastSet(steps[..i]) then 1 else 0
  {
    if i > 0 {
      assert StepAt(run, steps, i - 1);
      assert steps[..i][..i - 1] == steps[..i - 1];
      ValueIsLastSet(run, steps, i - 1);
    }
  }

  /**
   wait() is honest: a call that begins at step i is still under way in state k unless the event
   was set at some instant in between.
   */
  lemma {:induction false} WaitIsHonest(run: seq<State>, steps: seq<Step>, t: Tid, i: nat, k: nat)
    requires IsRun(run, steps) && i < k < |run| && steps[i] == WaitBegin(t)
    ensures InWait(run[k], t) || exists j :: i < j < k && LastSet(steps[..j])
    decreases k
  {
    assert StepAt(run, steps, k - 1);
    if k > i + 1 {
      WaitIsHonest(run, steps, t, i, k - 1);
      if InWait(run[k - 1], t) && !InWait(run[k], t) {
        ValueIsLastSet(run, steps, k - 1);
        RunInv(run, steps, k - 1);
      }
    }
  }

  lemma SleeperIsOwedWake(run: seq<State>, steps: seq<Step>, i: nat, t: Tid) returns (u: Tid)
    requires IsRun(run, steps) && i < |run| && At(run[i], t, Sleeping) && run[i].value == 1
    ensures Enabled(run[i], SetWake(u)) && At(Next(run[i], SetWake(u)), t, Loading)
  {
    RunInv(run, steps, i);
    u :| At(run[i], u, Waking);
  }

  /**
   Once every set() has returned and until someone resets, no thread sleeps, and every step of a
   thread in wait() is its return.
   */
  lemma SetReleasesEveryone(run: seq<State>, steps: seq<Step>, i: nat, t: Tid)
    requires IsRun(run, steps) && i < |run| && run[i].value == 1 && InWait(run[i], t)
    requires forall u :: !At(run[i], u, Waking)
    ensures run[i].threads[t] == Loading || run[i].threads[t] == Calling
    ensures exists step: Step :: step.tid == t && Enabled(run[i], step)
    ensures forall step: Step :: step.tid == t && Enabled(run[i], step) ==> t !in Next(run[i], step).threads
  {
    RunInv(run, steps, i);
    assert !At(run[i], t, Sleeping);
    assert Enabled(run[i], if run[i].threads[t] == Loading then WaitLoad(t) else FutexWait(t));
  }

  // ---------------------------------------------------------------- the object

  class Event {
    var value: int
    var threads: map<Tid, Local>

    ghost function View(): State
      reads this
    {
      State(value, threads)
    }

    ghost predicate Valid()
      reads this
    {
      Inv(View())
    }

    constructor ()
      ensures Valid() && View() == INIT
    {
      value, threads := 0, map[];
    }

    method StoreOne(t: Tid)
      requires Valid() && t !in threads
      modifies this
      ensures Valid() && View() == Next(old(View()), SetStore(t))
    {
      InvNext(View(), SetStore(t));
      value := 1;
      threads := threads[t := Waking];
    }

    method WakeSleepers(t: Tid)
      requires Valid() && At(View(), t, Waking)
      modifies this
      ensures Valid() && View() == Next(old(View()), SetWake(t))
    {
      InvNext(View(), SetWake(t));
      threads := (map u | u in threads :: if threads[u] == Sleeping then Loading else threads[u]) - {t};
    }

    method StoreZero(t: Tid)
      requires Valid() && t !in threads
      modifies this
      ensures Valid() && View() == Next(old(View()), Reset(t))
    {
      InvNext(View(), Reset(t));
      value := 0;
    }

    method EnterWait(t: Tid)
      requires Valid() && t !in threads
      modifies this
      ensures Valid() && View() == Next(old(View()), WaitBegin(t))
    {
      InvNext(View(), WaitBegin(t));
      threads := threads[t := Loading];
    }

    method Load(t: Tid) returns (returned: bool)
      requires Valid() && At(View(), t, Loading)
      modifies this
      ensures Valid() && View() == Next(old(View()), WaitLoad(t))
      ensures returned <==> value == 1
    {
      InvNext(View(), WaitLoad(t));
      var loaded := value;
      returned := loaded != 0;
      threads := if returned then threads - {t} else threads[t := Calling];
    }

    /** The futex call: sleep if the value is still the one loaded, or return at once with EAGAIN. */
    method CompareAndSleep(t: Tid) returns (returned: bool)
      requires Valid() && At(View(), t, Calling)
      modifies this
      ensures Valid() && View() == Next(old(View()), FutexWait(t))
      ensures returned <==> value == 1
    {
      InvNext(View(), FutexWait(t));
      returned := value != 0;
      threads := if returned then threads - {t} else threads[t := Sleeping];
    }

    method WakeSpuriously(t: Tid)
      requires Valid() && At(View(), t, Sleeping)
      modifies this
      ensures Valid() && View() == Next(old(View()), Interrupt(t))
    {
      InvNext(View(), Interrupt(t));
      threads := threads[t := Loading];
    }
  }
}
