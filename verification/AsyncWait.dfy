/**
 async_wait of include/ptl/experimental/coroutine/sync_wait.hpp: a thread starts a coroutine, waits
 on an event the coroutine sets at its final suspend, and reads the coroutine's result.
 */
module AsyncWait {
  import opened Wrappers
  import opened ManualResetEvent

  /** The thread that called async_wait. The coroutine may also run on it, while it is inside start(). */
  const CALLER: Tid := 0

  /** What yield_value or unhandled_exception leaves in the promise. */
  datatype Outcome = Value(v: int) | Exception(e: int)

  datatype Body = BodyRunning | BodyStored | BodySignalled
  datatype Caller = Starting | Waiting | Woken | Returned(got: Outcome)

  datatype System = System(event: State, promise: Option<Outcome>, body: Body, caller: Caller)

  datatype Action =
    | StoreResult(r: Outcome)      // the body ends; the promise takes its value or exception
    | Signal(tid: Tid)             // completion_notifier: event_->set(), its store
    | SignalWake(tid: Tid)         // and its wake
    | StartReturns                 // the caller leaves start() and enters event.wait()
    | CallerWaits(step: Step)      // the caller's own steps inside event.wait()
    | ReadResult                   // task.result()

  const BEGIN := System(INIT, None, BodyRunning, Starting)

  predicate Can(s: System, a: Action)
  {
    match a
    case StoreResult(_) => s.body == BodyRunning
    case Signal(t) => s.body == BodyStored && t !in s.event.threads && (t == CALLER ==> s.caller == Starting)
    case SignalWake(t) => Enabled(s.event, SetWake(t))
    case StartReturns => s.caller == Starting && CALLER !in s.event.threads
    case CallerWaits(step) =>
      && s.caller == Waiting && step.tid == CALLER && Enabled(s.event, step)
      && (step.WaitLoad? || step.FutexWait? || step.Interrupt?)
    case ReadResult => s.caller == Woken
  }

  /** Reading an unset result would be an error; the invariant excludes it. */
  function Do(s: System, a: Action): System
    requires Can(s, a)
  {
    match a
    case StoreResult(r) => s.(promise := Some(r), body := BodyStored)
    case Signal(t) => s.(event := Next(s.event, SetStore(t)), body := BodySignalled)
    case SignalWake(t) => s.(event := Next(s.event, SetWake(t)))
    case StartReturns => s.(event := Next(s.event, WaitBegin(CALLER)), caller := Waiting)
    case CallerWaits(step) =>
      var e := Next(s.event, step);
      s.(event := e, caller := if CALLER in e.threads then Waiting else Woken)
    case ReadResult => if s.promise.Some? then s.(caller := Returned(s.promise.value)) else s
  }

  ghost predicate SystemInv(s: System)
  {
    && Inv(s.event)
    && (s.event.value == 1 <==> s.body == BodySignalled)
    && (s.promise.Some? <==> s.body != BodyRunning)
    && (s.caller == Waiting <==> InWait(s.event, CALLER))
    && (s.caller == Woken || s.caller.Returned? ==> s.body == BodySignalled)
    && (s.caller.Returned? ==> s.promise == Some(s.caller.got))
    && (forall t :: t in s.event.threads && t != CALLER ==> s.event.threads[t] == Waking)
    && (CALLER in s.event.threads ==> s.caller == Starting || s.caller == Waiting)
    && (forall t :: t in s.event.threads && s.event.threads[t] == Waking ==> s.body == BodySignalled)
    && (forall t, u :: At(s.event, t, Waking) && At(s.event, u, Waking) ==> t == u)
  }

  lemma SystemInvDo(s: System, a: Action)
    requires SystemInv(s) && Can(s, a)
    ensures SystemInv(Do(s, a))
  {
    assert !a.Signal? ==> forall u :: At(Do(s, a).event, u, Waking) ==> At(s.event, u, Waking);
    match a
    case Signal(t) => InvNext(s.event, SetStore(t));
    case SignalWake(t) => InvNext(s.event, SetWake(t));
    case StartReturns => InvNext(s.event, WaitBegin(CALLER));
    case CallerWaits(step) => InvNext(s.event, step);
    case _ =>
  }

  ghost predicate IsAsyncRun(run: seq<System>, actions: seq<Action>)
  {
    && |run| == |actions| + 1
    && run[0] == BEGIN
    && forall i: nat :: i < |actions| ==> ActionAt(run, actions, i)
  }

  ghost predicate ActionAt(run: seq<System>, actions: seq<Action>, i: nat)
    requires i < |actions| < |run|
  {
    Can(run[i], actions[i]) && run[i + 1] == Do(run[i], actions[i])
  }

  lemma {:induction false} RunSystemInv(run: seq<System>, actions: seq<Action>, i: nat)
    requires IsAsyncRun(run, actions) && i < |run|
    ensures SystemInv(run[i])
  {
    if i > 0 {
      RunSystemInv(run, actions, i - 1);
      assert ActionAt(run, actions, i - 1);
      SystemInvDo(run[i - 1], actions[i - 1]);
    }
  }

  /**
   async_wait returns only after the coroutine has stored its outcome, and returns, or throws, just
   that outcome: it is the one the body ended with, at an earlier step of the run.
   */
  lemma {:induction false} ReturnsTheOutcome(run: seq<System>, actions: seq<Action>, i: nat) returns (j: nat)
    requires IsAsyncRun(run, actions) && i < |run| && run[i].promise.Some?
    ensures j < i && actions[j] == StoreResult(run[i].promise.value)
    ensures run[i].caller.Returned? ==> run[i].caller.got == run[i].promise.value
  {
    RunSystemInv(run, actions, i);
    assert ActionAt(run, actions, i - 1);
    if actions[i - 1].StoreResult? {
      j := i - 1;
    } else {
      j := ReturnsTheOutcome(run, actions, i - 1);
    }
  }

  lemma ReturnsOnlyWhenDone(run: seq<System>, actions: seq<Action>, i: nat)
    requires IsAsyncRun(run, actions) && i < |run| && run[i].caller.Returned?
    ensures run[i].body == BodySignalled && run[i].promise == Some(run[i].caller.got)
  {
    RunSystemInv(run, actions, i);
  }

  /** Until it has returned, something can always happen, and a sleeping caller whose event is set is owed a wake. */
  lemma NotStuck(run: seq<System>, actions: seq<Action>, i: nat, r: Outcome) returns (a: Action)
    requires IsAsyncRun(run, actions) && i < |run| && !run[i].caller.Returned?
    ensures Can(run[i], a) && Do(run[i], a) != run[i]
    ensures At(run[i].event, CALLER, Sleeping) && run[i].body == BodySignalled ==> a.SignalWake?
    ensures a.CallerWaits? ==> !a.step.Interrupt?
  {
    var s := run[i];
    RunSystemInv(run, actions, i);
    if s.caller == Starting {
      a := if CALLER in s.event.threads then SignalWake(CALLER) else StartReturns;
    } else if s.caller == Woken {
      a := ReadResult;
    } else if s.event.threads[CALLER] == Loading {
      a := CallerWaits(WaitLoad(CALLER));
    } else if s.event.threads[CALLER] == Calling {
      a := CallerWaits(FutexWait(CALLER));
    } else if s.body == BodyRunning {
      a := StoreResult(r);
    } else if s.body == BodyStored {
      a := Signal(1);
    } else {
      assert At(s.event, CALLER, Sleeping);
      var u :| At(s.event, u, Waking);
      a := SignalWake(u);
    }
  }

  // ---------------------------------------------------------------- runs end

  predicate IsInterrupt(a: Action)
  {
    a.CallerWaits? && a.step.Interrupt?
  }

  function Interrupts(actions: seq<Action>): nat
  {
    if actions == [] then 0
    else Interrupts(actions[..|actions| - 1]) + if IsInterrupt(actions[|actions| - 1]) then 1 else 0
  }

  ghost function BodyRank(s: System): nat
  {
    match s.body
    case BodyRunning => 0
    case BodyStored => 1
    case BodySignalled => if exists t :: At(s.event, t, Waking) then 2 else 5
  }

  ghost function CallerRank(s: System): nat
  {
    match s.caller
    case Starting => 0
    case Waiting =>
      if At(s.event, CALLER, Loading) then 1 else if At(s.event, CALLER, Calling) then 2 else 3
    case Woken => 4
    case Returned(_) => 5
  }

  /** Each action takes either side further, but a wake or an interrupt sends the caller back to its load. */
  lemma ActionAdvances(s: System, a: Action)
    requires SystemInv(s) && Can(s, a)
    ensures BodyRank(Do(s, a)) + CallerRank(Do(s, a)) + (if IsInterrupt(a) then 3 else 0) > BodyRank(s) + CallerRank(s)
  {
    match a
    case StoreResult(_) =>
    case Signal(t) => assert At(Do(s, a).event, t, Waking);
    case SignalWake(t) => WakeAdvances(s, t);
    case StartReturns => SameWakers(s, a);
    case CallerWaits(_) => SameWakers(s, a);
    case ReadResult =>
  }

  lemma WakeAdvances(s: System, t: Tid)
    requires SystemInv(s) && Can(s, SignalWake(t))
    ensures BodyRank(s) == 2 && BodyRank(Do(s, SignalWake(t))) == 5
    ensures CallerRank(Do(s, SignalWake(t))) + 2 >= CallerRank(s)
  {
    assert At(s.event, t, Waking);
    assert forall u :: At(Do(s, SignalWake(t)).event, u, Waking) ==> u != t && At(s.event, u, Waking);
  }

  lemma SameWakers(s: System, a: Action)
    requires SystemInv(s) && Can(s, a) && (a.StartReturns? || a.CallerWaits?)
    ensures BodyRank(Do(s, a)) == BodyRank(s)
  {
    assert forall t :: At(Do(s, a).event, t, Waking) <==> At(s.event, t, Waking);
  }

  /** Every run takes at most ten steps and three more for each interrupt, under every scheduler. */
  lemma {:induction false} RunBounded(run: seq<System>, actions: seq<Action>, i: nat)
    requires IsAsyncRun(run, actions) && i < |run|
    ensures i <= BodyRank(run[i]) + CallerRank(run[i]) + 3 * Interrupts(actions[..i])
    ensures i <= 10 + 3 * Interrupts(actions[..i])
  {
    if i > 0 {
      RunBounded(run, actions, i - 1);
      RunSystemInv(run, actions, i - 1);
      assert ActionAt(run, actions, i - 1);
      ActionAdvances(run[i - 1], actions[i - 1]);
      assert actions[..i][..i - 1] == actions[..i - 1];
    }
  }

  /** So unless interrupts never cease the run ends, and when no step is left async_wait has returned. */
  lemma MaximalRunReturns(run: seq<System>, actions: seq<Action>)
    requires IsAsyncRun(run, actions) && forall a :: !Can(run[|actions|], a)
    ensures run[|actions|].caller.Returned? && run[|actions|].promise == Some(run[|actions|].caller.got)
    ensures |actions| <= 10 + 3 * Interrupts(actions)
  {
    assert actions[..|actions|] == actions;
    RunBounded(run, actions, |actions|);
    if !run[|actions|].caller.Returned? {
      var a := NotStuck(run, actions, |actions|, Value(0));
    }
    ReturnsOnlyWhenDone(run, actions, |actions|);
  }

  // ---------------------------------------------------------------- the object

  /** The promise, the event on async_wait's stack, and the caller's progress. */
  class AsyncWaitCall {
    const event: Event
    var result: Option<int>
    var exception: Option<int>
    var body: Body
    var caller: Caller

    ghost function View(): System
      reads this, event
    {
      System(event.View(), Promised(), body, caller)
    }

    function Promised(): Option<Outcome>
      reads this
    {
      if exception.Some? then Some(Exception(exception.value))
      else if result.Some? then Some(Value(result.value))
      else None
    }

    ghost predicate Valid()
      reads this, event
    {
      SystemInv(View())
    }

    constructor ()
      ensures Valid() && View() == BEGIN && fresh(event)
    {
      event := new Event();
      result, exception, body, caller := None, None, BodyRunning, Starting;
    }

    method YieldValue(v: int)
      requires Valid() && body == BodyRunning
      modifies this, event
      ensures Valid() && View() == Do(old(View()), StoreResult(Value(v)))
    {
      SystemInvDo(View(), StoreResult(Value(v)));
      result := Some(v);
      body := BodyStored;
    }

    method UnhandledException(e: int)
      requires Valid() && body == BodyRunning
      modifies this, event
      ensures Valid() && View() == Do(old(View()), StoreResult(Exception(e)))
    {
      SystemInvDo(View(), StoreResult(Exception(e)));
      exception := Some(e);
      body := BodyStored;
    }

    method NotifyStore(t: Tid)
      requires Valid() && Can(View(), Signal(t))
      modifies this, event
      ensures Valid() && View() == Do(old(View()), Signal(t))
    {
      SystemInvDo(View(), Signal(t));
      event.StoreOne(t);
      body := BodySignalled;
    }

    method NotifyWake(t: Tid)
      requires Valid() && Can(View(), SignalWake(t))
      modifies this, event
      ensures Valid() && View() == Do(old(View()), SignalWake(t))
    {
      SystemInvDo(View(), SignalWake(t));
      event.WakeSleepers(t);
    }

    method LeaveStart()
      requires Valid() && Can(View(), StartReturns)
      modifies this, event
      ensures Valid() && View() == Do(old(View()), StartReturns)
    {
      SystemInvDo(View(), StartReturns);
      event.EnterWait(CALLER);
      caller := Waiting;
    }

    method CallerLoads() returns (woken: bool)
      requires Valid() && Can(View(), CallerWaits(WaitLoad(CALLER)))
      modifies this, event
      ensures Valid() && View() == Do(old(View()), CallerWaits(WaitLoad(CALLER)))
      ensures woken <==> caller == Woken
    {
      SystemInvDo(View(), CallerWaits(WaitLoad(CALLER)));
      woken := event.Load(CALLER);
      if woken {
        caller := Woken;
      }
    }

    method CallerSleeps() returns (woken: bool)
      requires Valid() && Can(View(), CallerWaits(FutexWait(CALLER)))
      modifies this, event
      ensures Valid() && View() == Do(old(View()), CallerWaits(FutexWait(CALLER)))
      ensures woken <==> caller == Woken
    {
      SystemInvDo(View(), CallerWaits(FutexWait(CALLER)));
      woken := event.CompareAndSleep(CALLER);
      if woken {
        caller := Woken;
      }
    }

    method CallerInterrupted()
      requires Valid() && Can(View(), CallerWaits(Interrupt(CALLER)))
      modifies this, event
      ensures Valid() && View() == Do(old(View()), CallerWaits(Interrupt(CALLER)))
    {
      SystemInvDo(View(), CallerWaits(Interrupt(CALLER)));
      event.WakeSpuriously(CALLER);
    }

    /** task.result(): rethrow the exception if there is one, else the value yielded. */
    method TakeResult() returns (r: Outcome)
      requires Valid() && caller == Woken
      modifies this, event
      ensures Valid() && View() == Do(old(View()), ReadResult)
      ensures Promised() == Some(r)
    {
      SystemInvDo(View(), ReadResult);
      r := if exception.Some? then Exception(exception.value) else Value(result.value);
      caller := Returned(r);
    }
  }
}
