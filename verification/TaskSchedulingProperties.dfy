/** What every run of awaiting, scheduling and migrating coroutines guarantees. */
module TaskSchedulingProperties {
  import opened Wrappers
  import opened TaskScheduling

  lemma {:induction false} RunTracks(run: seq<State>, steps: seq<Step>, i: nat) returns (at: map<Id, Place>)
    requires IsRun(run, steps) && i < |run|
    ensures Tracks(run[i], at)
  {
    at := map[];
    if i == 0 {
      TracksInit(run[0]);
    } else {
      at := RunTracks(run, steps, i - 1);
      assert StepAt(run, steps, i - 1);
      TracksNext(run[i - 1], at, steps[i - 1]);
      at := Moved(run[i - 1], at, steps[i - 1]);
    }
  }

  // ---------------------------------------------------------------- conservation

  /**
   A started, unfinished coroutine is in exactly one place: in one call on one thread, at one
   position of one executor's queue, the continuation of one unfinished Task, or kept by another
   awaitable. No other handle is anywhere.
   */
  lemma HandleConservation(run: seq<State>, steps: seq<Step>, i: nat, id: Id)
    requires IsRun(run, steps) && i < |run|
    ensures Live(run[i], id) <==> exists place :: Located(run[i], id, place)
    ensures forall p, q :: Located(run[i], id, p) && Located(run[i], id, q) ==> p == q
  {
    var at := RunTracks(run, steps, i);
    if Live(run[i], id) { assert Located(run[i], id, at[id]); }
  }

  /** A task at its final suspend has a continuation: a suspended coroutine that is nowhere else. */
  lemma ContinuationSet(run: seq<State>, steps: seq<Step>, i: nat, th: Thread)
    requires IsRun(run, steps) && i < |steps| && steps[i] == FinalSuspend(th)
    requires RunsSome(run[i], th) && run[i].promises[Top(run[i].stacks[th]).id].kind == Task
    ensures var id := Top(run[i].stacks[th]).id; var k := run[i].promises[id].continuation;
      && k.Some? && Live(run[i], k.value) && k.value != id
      && forall place :: Located(run[i], k.value, place) <==> place == ContinuationOf(id)
  {
    var s := run[i];
    var at := RunTracks(run, steps, i);
    assert StepAt(run, steps, i);
    var id := Top(s.stacks[th]).id;
    assert Located(s, id, Innermost(s, th)) && PromiseOk(s, id);
    var k := s.promises[id].continuation;
    assert Located(s, k.value, ContinuationOf(id));
  }

  // ---------------------------------------------------------------- no wait is orphaned

  /** Tasks start after the coroutines that wait for them: an order of starting, with its length. */
  ghost predicate Ordered(s: State, order: map<Id, nat>, n: nat)
  {
    && (forall id :: id in order <==> id in s.promises && s.promises[id].phase != Created)
    && (forall id :: id in order ==> order[id] < n)
    && (forall id :: id in s.promises && s.promises[id].phase != Created && s.promises[id].continuation.Some? ==>
        s.promises[id].continuation.value in order && order[s.promises[id].continuation.value] < order[id])
  }

  /** The step that starts this coroutine, if it is one. */
  predicate Starts(s: State, step: Step, id: Id)
  {
    match step
    case StartRoot(_, started) => id == started
    case Await(_, started) => id == started && HasPhase(s, id, Task, Created)
    case ScheduleOn(_, started, _) => id == started
    case _ => false
  }

  lemma OrderedNext(s: State, at: map<Id, Place>, order: map<Id, nat>, n: nat, step: Step)
    returns (order': map<Id, nat>)
    requires Tracks(s, at) && Enabled(s, step) && Ordered(s, order, n)
    ensures Ordered(Next(s, step), order', n + 1)
  {
    if step.StartRoot? || step.Await? || step.ScheduleOn? {
      order' := if Starts(s, step, step.id) then order[step.id := n] else order;
      OrderedStart(s, at, order, n, step);
    } else {
      order' := order;
      OrderedKept(s, Next(s, step), order, n) by {
        if step.FinalSuspend? { assert Located(s, Top(s.stacks[step.th]).id, Innermost(s, step.th)); }
      }
    }
  }

  /** The order stands while nothing starts and no continuation changes. */
  lemma OrderedKept(s: State, s': State, order: map<Id, nat>, n: nat)
    requires Ordered(s, order, n)
    requires forall id :: id in s.promises && s.promises[id].phase != Created <==>
                          id in s'.promises && s'.promises[id].phase != Created
    requires forall id :: id in s.promises && s.promises[id].phase != Created ==>
                          s'.promises[id].continuation == s.promises[id].continuation
    ensures Ordered(s', order, n + 1)
  {
  }

  lemma OrderedStart(s: State, at: map<Id, Place>, order: map<Id, nat>, n: nat, step: Step)
    requires Tracks(s, at) && Enabled(s, step) && Ordered(s, order, n)
    requires step.StartRoot? || step.Await? || step.ScheduleOn?
    ensures Ordered(Next(s, step), if Starts(s, step, step.id) then order[step.id := n] else order, n + 1)
  {
    if !step.StartRoot? {
      assert Located(s, Top(s.stacks[step.th]).id, Innermost(s, step.th));
      assert Live(s, Top(s.stacks[step.th]).id);
    } else {
      assert PromiseOk(s, step.id);
    }
  }

  lemma {:induction false} RunOrdered(run: seq<State>, steps: seq<Step>, i: nat) returns (order: map<Id, nat>)
    requires IsRun(run, steps) && i < |run|
    ensures Ordered(run[i], order, i)
  {
    order := map[];
    if i > 0 {
      order := RunOrdered(run, steps, i - 1);
      var at := RunTracks(run, steps, i - 1);
      assert StepAt(run, steps, i - 1);
      order := OrderedNext(run[i - 1], at, order, i - 1, steps[i - 1]);
    }
  }

  /** A handle some thread holds, some executor will run, or an awaitable other than a Task keeps. */
  ghost predicate Active(s: State, id: Id)
  {
    exists place :: Located(s, id, place) && !place.ContinuationOf?
  }

  /** Each coroutine of the chain waits for the next one. */
  ghost predicate Waiting(s: State, chain: seq<Id>)
  {
    forall i :: 0 <= i < |chain| - 1 ==> Located(s, chain[i], ContinuationOf(chain[i + 1]))
  }

  lemma {:induction false} ChainFrom(s: State, at: map<Id, Place>, order: map<Id, nat>, n: nat, id: Id)
    returns (chain: seq<Id>)
    requires Tracks(s, at) && Ordered(s, order, n) && Live(s, id)
    ensures chain != [] && chain[0] == id && Waiting(s, chain) && Active(s, chain[|chain| - 1])
    decreases n - order[id]
  {
    assert Located(s, id, at[id]);
    chain := [id];
    if at[id].ContinuationOf? {
      var rest := ChainFrom(s, at, order, n, at[id].id);
      chain := [id] + rest;
      forall i | 0 <= i < |chain| - 1 ensures Located(s, chain[i], ContinuationOf(chain[i + 1])) {
        if i > 0 { assert Located(s, rest[i - 1], ContinuationOf(rest[i])); }
      }
    }
  }

  /**
   No wait is circular or abandoned: the waits from any live coroutine, of any depth, lead to a
   coroutine that a thread holds, an executor has queued or another awaitable keeps.
   */
  lemma EveryWaitEndsInWork(run: seq<State>, steps: seq<Step>, i: nat, id: Id) returns (chain: seq<Id>)
    requires IsRun(run, steps) && i < |run| && Live(run[i], id)
    ensures chain != [] && chain[0] == id && Waiting(run[i], chain) && Active(run[i], chain[|chain| - 1])
  {
    var at := RunTracks(run, steps, i);
    var order := RunOrdered(run, steps, i);
    chain := ChainFrom(run[i], at, order, i, id);
  }

  /** So with all threads idle and no handle queued or kept elsewhere, every coroutine that started has finished. */
  lemma QuiescentAllDone(run: seq<State>, steps: seq<Step>, i: nat, id: Id)
    requires IsRun(run, steps) && i < |run| && id in run[i].promises
    requires forall th :: th in run[i].stacks ==> run[i].stacks[th] == []
    requires forall ex :: ex in run[i].queues ==> run[i].queues[ex] == []
    requires run[i].parked == {}
    ensures run[i].promises[id].phase != Started
  {
    if Live(run[i], id) {
      var chain := EveryWaitEndsInWork(run, steps, i, id);
    }
  }

  // ---------------------------------------------------------------- executors

  /** The executor built last on a thread, unless one has been destroyed there since. */
  function LastBuilt(steps: seq<Step>, th: Thread): Option<Exec>
  {
    if steps == [] then None
    else
      match steps[|steps| - 1]
      case Build(t, ex) => if t == th then Some(ex) else LastBuilt(steps[..|steps| - 1], th)
      case Destroy(t, _) => if t == th then None else LastBuilt(steps[..|steps| - 1], th)
      case _ => LastBuilt(steps[..|steps| - 1], th)
  }

  lemma {:induction false} CurrentIsLastBuilt(run: seq<State>, steps: seq<Step>, i: nat, th: Thread)
    requires IsRun(run, steps) && i < |run| && th in run[i].current
    ensures run[i].current[th] == LastBuilt(steps[..i], th)
  {
    if i > 0 {
      assert StepAt(run, steps, i - 1);
      assert steps[..i][..i - 1] == steps[..i - 1];
      CurrentIsLastBuilt(run, steps, i - 1, th);
    }
  }

  /** The thread that built this executor, while it exists. */
  function Builder(steps: seq<Step>, ex: Exec): Option<Thread>
  {
    if steps == [] then None
    else
      match steps[|steps| - 1]
      case Build(th, e) => if e == ex then Some(th) else Builder(steps[..|steps| - 1], ex)
      case Destroy(_, e) => if e == ex then None else Builder(steps[..|steps| - 1], ex)
      case _ => Builder(steps[..|steps| - 1], ex)
  }

  /** An executor exists from its construction to its destruction. */
  lemma {:induction false} ExistsWhileBuilt(run: seq<State>, steps: seq<Step>, i: nat, ex: Exec)
    requires IsRun(run, steps) && i < |run|
    ensures ex in run[i].queues <==> Builder(steps[..i], ex).Some?
  {
    if i > 0 {
      assert StepAt(run, steps, i - 1);
      assert steps[..i][..i - 1] == steps[..i - 1];
      ExistsWhileBuilt(run, steps, i - 1, ex);
    }
  }

  /** The kind a coroutine was created with. */
  function KindOf(steps: seq<Step>, id: Id): Option<Kind>
  {
    if steps == [] then None
    else
      match steps[|steps| - 1]
      case Create(c, kind) => if c == id then Some(kind) else KindOf(steps[..|steps| - 1], id)
      case _ => KindOf(steps[..|steps| - 1], id)
  }

  lemma {:induction false} ExistsWhenCreated(run: seq<State>, steps: seq<Step>, i: nat, id: Id)
    requires IsRun(run, steps) && i < |run|
    ensures id in run[i].promises <==> KindOf(steps[..i], id).Some?
    ensures id in run[i].promises ==> Some(run[i].promises[id].kind) == KindOf(steps[..i], id)
  {
    if i > 0 {
      assert StepAt(run, steps, i - 1);
      assert steps[..i][..i - 1] == steps[..i - 1];
      ExistsWhenCreated(run, steps, i - 1, id);
      StepCreates(run[i - 1], steps[i - 1], id);
    }
  }

  lemma StepCreates(s: State, step: Step, id: Id)
    requires Enabled(s, step)
    ensures id in Next(s, step).promises <==> id in s.promises || (step.Create? && step.id == id)
    ensures id in s.promises ==>
              Next(s, step).promises[id].kind == s.promises[id].kind && !(step.Create? && step.id == id)
    ensures step.Create? && step.id == id ==> Next(s, step).promises[id].kind == step.kind
  {
  }

  // ---------------------------------------------------------------- executors run in order

  /** The handles given to an executor, in order. */
  ghost function AddedTo(run: seq<State>, steps: seq<Step>, i: nat, ex: Exec): seq<Id>
    requires IsRun(run, steps) && i < |run|
  {
    if i == 0 then []
    else
      AddedTo(run, steps, i - 1, ex) +
      (assert StepAt(run, steps, i - 1);
       if steps[i - 1].Add? && Top(run[i - 1].stacks[steps[i - 1].th]).ex == ex
       then [Top(run[i - 1].stacks[steps[i - 1].th]).id] else [])
  }

  /** The coroutines it has run, each named by what its thread is in after the pop. */
  ghost function RunFrom(run: seq<State>, steps: seq<Step>, i: nat, ex: Exec): seq<Id>
    requires IsRun(run, steps) && i < |run|
  {
    if i == 0 then []
    else
      RunFrom(run, steps, i - 1, ex) +
      (assert StepAt(run, steps, i - 1);
       if steps[i - 1].PopWork? && steps[i - 1].ex == ex then [Top(run[i].stacks[steps[i - 1].th]).id] else [])
  }

  function QueueOf(s: State, ex: Exec): seq<Id>
  {
    if ex in s.queues then s.queues[ex] else []
  }

  lemma StepQueue(s: State, step: Step, ex: Exec)
    requires Enabled(s, step)
    ensures var s' := Next(s, step);
      if step.Add? && Top(s.stacks[step.th]).ex == ex
      then QueueOf(s', ex) == QueueOf(s, ex) + [Top(s.stacks[step.th]).id]
      else if step.PopWork? && step.ex == ex
      then s'.stacks[step.th] != [] && QueueOf(s, ex) == [Top(s'.stacks[step.th]).id] + QueueOf(s', ex)
      else QueueOf(s', ex) == QueueOf(s, ex)
  {
  }

  /** An executor runs the handles it is given in the order in which it was given them, each once. */
  lemma {:induction false} ExecutorsAreFifo(run: seq<State>, steps: seq<Step>, i: nat, ex: Exec)
    requires IsRun(run, steps) && i < |run|
    ensures RunFrom(run, steps, i, ex) + QueueOf(run[i], ex) == AddedTo(run, steps, i, ex)
  {
    if i > 0 {
      assert StepAt(run, steps, i - 1);
      StepQueue(run[i - 1], steps[i - 1], ex);
      ExecutorsAreFifo(run, steps, i - 1, ex);
    }
  }

  /** While anything waits some thread can go on with it: nothing but starting new work is needed. */
  lemma NotStuck(run: seq<State>, steps: seq<Step>, i: nat, id: Id, th: Thread) returns (step: Step)
    requires IsRun(run, steps) && i < |run| && Live(run[i], id) && th in run[i].stacks
    ensures Enabled(run[i], step) && (step.Add? || step.Park? || step.PopWork? || step.Unpark?)
  {
    var s := run[i];
    var at := RunTracks(run, steps, i);
    var chain := EveryWaitEndsInWork(run, steps, i, id);
    var last := chain[|chain| - 1];
    var place :| Located(s, last, place) && !place.ContinuationOf?;
    var t := if place.OnThread? then place.th else th;
    assert StackOk(s, t);
    if s.stacks[t] != [] {
      assert Located(s, Top(s.stacks[t]).id, Innermost(s, t));
      step := if Top(s.stacks[t]).Adding? then Add(t) else Park(t);
    } else {
      step := if place.InQueue? then PopWork(t, place.ex) else Unpark(t, last);
    }
  }
}
