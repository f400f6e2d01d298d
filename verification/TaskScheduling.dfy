/**
 Coroutine handles moving between threads, executor queues and stored continuations:
 include/ptl/experimental/coroutine/task.hpp, detail/schedule_awaitable.hpp beside it, and the
 queue side of include/ptl/execution/basic_executor.hpp.

 A step is one await, one final suspend, or one locked access to an executor's queue, by one
 thread. A thread may start, resume or pop a coroutine while it is inside another one, as a
 coroutine that spawns work does, so what a thread is in is a stack. What a coroutine computes is
 left out; which handle runs where is not.
 */
module TaskScheduling {
  import opened Wrappers

  type Id = nat
  type Thread = nat
  type Exec = nat

  /** A root coroutine is started by its owner and resumes nobody; a Task resumes its continuation. */
  datatype Kind = Root | Task
  datatype Phase = Created | Started | Done

  /** The promise of a coroutine. */
  datatype Promise = Promise(kind: Kind, phase: Phase, continuation: Option<Id>, executor: Option<Exec>)

  /** One call on a thread: it runs a coroutine, or is about to add one to an executor. */
  datatype Call = Running(id: Id) | Adding(id: Id, ex: Exec)

  /**
   `stacks` holds the nested calls of each thread, innermost last; `current` is the thread-local
   Executor::current; `parked` are the handles kept by awaitables other than a Task, such as a
   join counter, until someone resumes them.
   */
  datatype State = State(
    promises: map<Id, Promise>, queues: map<Exec, seq<Id>>,
    stacks: map<Thread, seq<Call>>, current: map<Thread, Option<Exec>>, parked: set<Id>)

  datatype Step =
    | Build(th: Thread, ex: Exec)
    | Destroy(th: Thread, ex: Exec)
    | Create(id: Id, kind: Kind)
    | StartRoot(th: Thread, id: Id)
    | Await(th: Thread, id: Id)
    | ScheduleOn(th: Thread, id: Id, ex: Exec)
    | Hop(th: Thread, ex: Exec)
    | Add(th: Thread)
    | FinalSuspend(th: Thread)
    | PopWork(th: Thread, ex: Exec)
    | Park(th: Thread)
    | Unpark(th: Thread, id: Id)

  ghost predicate InitState(s: State)
  {
    && s.promises == map[] && s.queues == map[] && s.parked == {}
    && s.stacks.Keys == s.current.Keys
    && forall th :: th in s.stacks ==> s.stacks[th] == [] && s.current[th] == None
  }

  predicate HasPhase(s: State, id: Id, kind: Kind, phase: Phase)
  {
    id in s.promises && s.promises[id].kind == kind && s.promises[id].phase == phase
  }

  function Top(stack: seq<Call>): Call
    requires stack != []
  {
    stack[|stack| - 1]
  }

  predicate RunsSome(s: State, th: Thread)
  {
    th in s.stacks && s.stacks[th] != [] && Top(s.stacks[th]).Running? && Top(s.stacks[th]).id in s.promises
  }

  /** Outside every coroutine, or in the body of one. */
  predicate CanCall(s: State, th: Thread)
  {
    th in s.stacks && (s.stacks[th] == [] || Top(s.stacks[th]).Running?)
  }

  /** No handle is in this executor's queue or on its way to it. */
  ghost predicate Unused(s: State, ex: Exec)
  {
    && ex in s.queues && s.queues[ex] == []
    && (forall th, d: nat :: th in s.stacks && d < |s.stacks[th]| && s.stacks[th][d].Adding? ==>
        s.stacks[th][d].ex != ex)
  }

  /** At its final suspend a Task hands its continuation to no executor but one that exists. */
  predicate HandsOver(s: State, p: Promise, current: Option<Exec>)
  {
    p.continuation.Some? && Resumption(p, current).Adding? ==> Resumption(p, current).ex in s.queues
  }

  /**
   The steps the library allows: a Task is awaited before it starts or after it is done, and
   scheduled before it starts; an executor that a handle is given to exists, and one is destroyed,
   on whatever thread, when it holds none.
   */
  ghost predicate Enabled(s: State, step: Step)
  {
    && s.stacks.Keys == s.current.Keys
    && match step
      case Build(th, ex) => CanCall(s, th) && ex !in s.queues
      case Destroy(th, ex) => CanCall(s, th) && Unused(s, ex)
      case Create(id, kind) => id !in s.promises
      case StartRoot(th, id) => CanCall(s, th) && HasPhase(s, id, Root, Created)
      case Await(th, id) => RunsSome(s, th) && (HasPhase(s, id, Task, Created) || HasPhase(s, id, Task, Done))
      case ScheduleOn(th, id, ex) => RunsSome(s, th) && HasPhase(s, id, Task, Created) && ex in s.queues
      case Hop(th, ex) => RunsSome(s, th) && ex in s.queues
      case Add(th) =>
        th in s.stacks && s.stacks[th] != [] && Top(s.stacks[th]).Adding? && Top(s.stacks[th]).ex in s.queues
      case FinalSuspend(th) => RunsSome(s, th) && HandsOver(s, s.promises[Top(s.stacks[th]).id], s.current[th])
      case PopWork(th, ex) => CanCall(s, th) && ex in s.queues && s.queues[ex] != []
      case Park(th) => RunsSome(s, th)
      case Unpark(th, id) => CanCall(s, th) && id in s.parked
  }

  /** A call made from what the thread is in. */
  function Push(s: State, th: Thread, c: Call): State
    requires th in s.stacks
  {
    s.(stacks := s.stacks[th := s.stacks[th] + [c]])
  }

  /** A symmetric transfer: another call in place of the innermost. */
  function Switch(s: State, th: Thread, c: Call): State
    requires th in s.stacks && s.stacks[th] != []
  {
    s.(stacks := s.stacks[th := s.stacks[th][|s.stacks[th]| - 1 := c]])
  }

  function Leave(s: State, th: Thread): State
    requires th in s.stacks && s.stacks[th] != []
  {
    s.(stacks := s.stacks[th := s.stacks[th][..|s.stacks[th]| - 1]])
  }

  /** The promise after it is told whom to resume, by a coroutine running on a thread with this executor. */
  function SetContinuation(p: Promise, continuation: Id, current: Option<Exec>): Promise
  {
    p.(continuation := Some(continuation), executor := current)
  }

  ghost function Next(s: State, step: Step): State
    requires Enabled(s, step)
  {
    match step
    case Build(th, ex) => s.(queues := s.queues[ex := []], current := s.current[th := Some(ex)])
    case Destroy(th, ex) => s.(queues := s.queues - {ex}, current := s.current[th := None])
    case Create(id, kind) =>
      s.(promises := s.promises[id := Promise(kind, Created, None, None)])
    case StartRoot(th, id) =>
      Push(s.(promises := s.promises[id := s.promises[id].(phase := Started)]), th, Running(id))
    case Await(th, id) =>
      if s.promises[id].phase == Done then s
      else
        var p := SetContinuation(s.promises[id], Top(s.stacks[th]).id, s.current[th]);
        Switch(s.(promises := s.promises[id := p.(phase := Started)]), th, Running(id))
    case ScheduleOn(th, id, ex) =>
      var p := SetContinuation(s.promises[id], Top(s.stacks[th]).id, s.current[th]);
      Switch(s.(promises := s.promises[id := p.(phase := Started)]), th, Adding(id, ex))
    case Hop(th, ex) =>
      if s.current[th] == Some(ex) then s else Switch(s, th, Adding(Top(s.stacks[th]).id, ex))
    case Add(th) =>
      var a := Top(s.stacks[th]);
      Leave(s.(queues := s.queues[a.ex := s.queues[a.ex] + [a.id]]), th)
    case FinalSuspend(th) =>
      var id := Top(s.stacks[th]).id;
      var p := s.promises[id];
      var s' := s.(promises := s.promises[id := p.(phase := Done)]);
      if p.continuation.None? then Leave(s', th) else Switch(s', th, Resumption(p, s.current[th]))
    case PopWork(th, ex) =>
      Push(s.(queues := s.queues[ex := s.queues[ex][1..]]), th, Running(s.queues[ex][0]))
    case Park(th) => Leave(s.(parked := s.parked + {Top(s.stacks[th]).id}), th)
    case Unpark(th, id) => Push(s.(parked := s.parked - {id}), th, Running(id))
  }

  /**
   What a thread does after the final suspend of a Task: it continues the continuation directly
   when its executor is unset or is the thread's own, and otherwise hands it to that executor. For
   a Task an unset continuation would be an error; the invariant excludes it.
   */
  function Resumption(p: Promise, current: Option<Exec>): Call
    requires p.continuation.Some?
  {
    if p.executor.None? || p.executor == current then Running(p.continuation.value)
    else Adding(p.continuation.value, p.executor.value)
  }

  ghost predicate IsRun(run: seq<State>, steps: seq<Step>)
  {
    && |run| == |steps| + 1
    && InitState(run[0])
    && forall i: nat :: i < |steps| ==> StepAt(run, steps, i)
  }

  ghost predicate StepAt(run: seq<State>, steps: seq<Step>, i: nat)
    requires i < |steps| < |run|
  {
    Enabled(run[i], steps[i]) && run[i + 1] == Next(run[i], steps[i])
  }

  // ---------------------------------------------------------------- where a handle is

  datatype Place = OnThread(th: Thread, depth: nat) | InQueue(ex: Exec, i: nat) | ContinuationOf(id: Id) | Parked

  ghost predicate Located(s: State, id: Id, place: Place)
  {
    match place
    case OnThread(th, d) => th in s.stacks && d < |s.stacks[th]| && s.stacks[th][d].id == id
    case InQueue(ex, i) => ex in s.queues && i < |s.queues[ex]| && s.queues[ex][i] == id
    case ContinuationOf(task) =>
      task in s.promises && s.promises[task].phase == Started && s.promises[task].continuation == Some(id)
    case Parked => id in s.parked
  }

  ghost predicate Live(s: State, id: Id)
  {
    id in s.promises && s.promises[id].phase == Started
  }

  /** `at` gives the one place of every live handle, and nothing else is anywhere. */
  ghost predicate Places(s: State, at: map<Id, Place>)
  {
    && (forall id :: id in at <==> Live(s, id))
    && (forall id, place :: Located(s, id, place) <==> id in at && at[id] == place)
  }

  /** A Task has a continuation from when it starts, anything else never. */
  ghost predicate PromiseOk(s: State, id: Id)
    requires id in s.promises
  {
    var p := s.promises[id];
    && (p.continuation.Some? <==> p.kind == Task && p.phase != Created)
    && (p.executor.Some? ==> p.continuation.Some?)
  }

  /** Only the innermost call of a thread can be adding, to an executor that exists. */
  ghost predicate StackOk(s: State, th: Thread)
    requires th in s.stacks
  {
    forall d: nat :: d < |s.stacks[th]| && s.stacks[th][d].Adding? ==>
      d == |s.stacks[th]| - 1 && s.stacks[th][d].ex in s.queues
  }

  ghost predicate WellFormed(s: State)
  {
    && s.stacks.Keys == s.current.Keys
    && (forall id :: id in s.promises ==> PromiseOk(s, id))
    && (forall th :: th in s.stacks ==> StackOk(s, th))
  }

  ghost predicate Tracks(s: State, at: map<Id, Place>)
  {
    WellFormed(s) && Places(s, at)
  }

  /** The innermost call of a thread, as a place. */
  function Innermost(s: State, th: Thread): Place
    requires th in s.stacks && s.stacks[th] != []
  {
    OnThread(th, |s.stacks[th]| - 1)
  }

  /** The places after a step: only the handles the step names move, and a popped queue shifts. */
  ghost function Moved(s: State, at: map<Id, Place>, step: Step): map<Id, Place>
    requires Enabled(s, step) && Tracks(s, at)
  {
    match step
    case Build(_, _) => at
    case Destroy(_, _) => at
    case Create(_, _) => at
    case StartRoot(th, id) => at[id := OnThread(th, |s.stacks[th]|)]
    case Await(th, id) =>
      if s.promises[id].phase == Done then at
      else at[Top(s.stacks[th]).id := ContinuationOf(id)][id := Innermost(s, th)]
    case ScheduleOn(th, id, ex) => at[Top(s.stacks[th]).id := ContinuationOf(id)][id := Innermost(s, th)]
    case Hop(_, _) => at
    case Add(th) =>
      var a := Top(s.stacks[th]);
      at[a.id := InQueue(a.ex, |s.queues[a.ex]|)]
    case FinalSuspend(th) =>
      var id := Top(s.stacks[th]).id;
      var k := s.promises[id].continuation;
      if k.None? then at - {id} else at[k.value := Innermost(s, th)] - {id}
    case PopWork(th, ex) =>
      map id | id in at ::
        if at[id] == InQueue(ex, 0) then OnThread(th, |s.stacks[th]|)
        else if at[id].InQueue? && at[id].ex == ex && at[id].i > 0 then InQueue(ex, at[id].i - 1) else at[id]
    case Park(th) => at[Top(s.stacks[th]).id := Parked]
    case Unpark(th, id) => at[id := OnThread(th, |s.stacks[th]|)]
  }

  lemma TracksInit(s: State)
    requires InitState(s)
    ensures Tracks(s, map[])
  {
  }

  lemma WellFormedNext(s: State, step: Step)
    requires WellFormed(s) && Enabled(s, step)
    requires step.FinalSuspend? ==> Live(s, Top(s.stacks[step.th]).id)
    ensures WellFormed(Next(s, step))
  {
    var s' := Next(s, step);
    forall id | id in s'.promises ensures PromiseOk(s', id) { PromiseNext(s, step, id); }
    forall th | th in s'.stacks ensures StackOk(s', th) { StackNext(s, step, th); }
  }

  lemma PromiseNext(s: State, step: Step, id: Id)
    requires WellFormed(s) && Enabled(s, step) && id in Next(s, step).promises
    requires step.FinalSuspend? ==> Live(s, Top(s.stacks[step.th]).id)
    ensures PromiseOk(Next(s, step), id)
  {
    assert id in s.promises ==> PromiseOk(s, id);
  }

  lemma StackNext(s: State, step: Step, th: Thread)
    requires WellFormed(s) && Enabled(s, step) && th in Next(s, step).stacks
    ensures StackOk(Next(s, step), th)
  {
    assert StackOk(s, th);
  }

  lemma TracksNext(s: State, at: map<Id, Place>, step: Step)
    requires Tracks(s, at) && Enabled(s, step)
    ensures Tracks(Next(s, step), Moved(s, at, step))
  {
    if step.FinalSuspend? { assert Located(s, Top(s.stacks[step.th]).id, Innermost(s, step.th)); }
    WellFormedNext(s, step);
    match step
    case Build(_, _) => PlacesSame(s, at, step);
    case Destroy(_, _) => PlacesSame(s, at, step);
    case Create(_, _) => PlacesSame(s, at, step);
    case StartRoot(_, _) => PlacesStart(s, at, step);
    case Await(_, _) => PlacesAwait(s, at, step);
    case ScheduleOn(_, _, _) => PlacesAwait(s, at, step);
    case Hop(_, _) => PlacesHop(s, at, step);
    case Add(_) => PlacesAdd(s, at, step);
    case FinalSuspend(_) => PlacesFinal(s, at, step);
    case PopWork(_, _) => PlacesPop(s, at, step);
    case Park(_) => PlacesPark(s, at, step);
    case Unpark(_, _) => PlacesUnpark(s, at, step);
  }

  lemma PlacesSame(s: State, at: map<Id, Place>, step: Step)
    requires Tracks(s, at) && Enabled(s, step) && (step.Build? || step.Destroy? || step.Create?)
    ensures Places(Next(s, step), Moved(s, at, step))
  {
    var s' := Next(s, step);
    var at' := Moved(s, at, step);
    forall id, place ensures Located(s', id, place) <==> id in at' && at'[id] == place {
      assert Located(s, id, place) <==> id in at && at[id] == place;
    }
  }

  lemma PlacesStart(s: State, at: map<Id, Place>, step: Step)
    requires Tracks(s, at) && Enabled(s, step) && (step.StartRoot?)
    ensures Places(Next(s, step), Moved(s, at, step))
  {
    var s' := Next(s, step);
    var at' := Moved(s, at, step);
    forall id, place ensures Located(s', id, place) <==> id in at' && at'[id] == place {
      assert Located(s, id, place) <==> id in at && at[id] == place;
    }
  }

  lemma PlacesAwait(s: State, at: map<Id, Place>, step: Step)
    requires Tracks(s, at) && Enabled(s, step) && (step.Await? || step.ScheduleOn?)
    ensures Places(Next(s, step), Moved(s, at, step))
  {
    var s' := Next(s, step);
    var at' := Moved(s, at, step);
    assert Located(s, Top(s.stacks[step.th]).id, Innermost(s, step.th));
    assert !Live(s, step.id);
    forall id, place ensures Located(s', id, place) <==> id in at' && at'[id] == place {
      assert Located(s, id, place) <==> id in at && at[id] == place;
    }
  }

  lemma PlacesHop(s: State, at: map<Id, Place>, step: Step)
    requires Tracks(s, at) && Enabled(s, step) && (step.Hop?)
    ensures Places(Next(s, step), Moved(s, at, step))
  {
    var s' := Next(s, step);
    var at' := Moved(s, at, step);
    assert Located(s, Top(s.stacks[step.th]).id, Innermost(s, step.th));
    forall id, place ensures Located(s', id, place) <==> id in at' && at'[id] == place {
      assert Located(s, id, place) <==> id in at && at[id] == place;
    }
  }

  lemma PlacesAdd(s: State, at: map<Id, Place>, step: Step)
    requires Tracks(s, at) && Enabled(s, step) && (step.Add?)
    ensures Places(Next(s, step), Moved(s, at, step))
  {
    var s' := Next(s, step);
    var at' := Moved(s, at, step);
    assert Located(s, Top(s.stacks[step.th]).id, Innermost(s, step.th));
    forall id, place ensures Located(s', id, place) <==> id in at' && at'[id] == place {
      assert Located(s, id, place) <==> id in at && at[id] == place;
    }
  }

  lemma PlacesFinal(s: State, at: map<Id, Place>, step: Step)
    requires Tracks(s, at) && Enabled(s, step) && (step.FinalSuspend?)
    ensures Places(Next(s, step), Moved(s, at, step))
  {
    var s' := Next(s, step);
    var at' := Moved(s, at, step);
    assert Located(s, Top(s.stacks[step.th]).id, Innermost(s, step.th));
    var id := Top(s.stacks[step.th]).id;
    var k := s.promises[id].continuation;
    if k.Some? { assert Located(s, k.value, ContinuationOf(id)); }
    forall id, place ensures Located(s', id, place) <==> id in at' && at'[id] == place {
      assert Located(s, id, place) <==> id in at && at[id] == place;
    }
  }

  lemma PlacesPop(s: State, at: map<Id, Place>, step: Step)
    requires Tracks(s, at) && Enabled(s, step) && (step.PopWork?)
    ensures Places(Next(s, step), Moved(s, at, step))
  {
    var s' := Next(s, step);
    var at' := Moved(s, at, step);
    assert Located(s, s.queues[step.ex][0], InQueue(step.ex, 0));
    forall id, place ensures Located(s', id, place) <==> id in at' && at'[id] == place {
      assert Located(s, id, place) <==> id in at && at[id] == place;
      if place.InQueue? && place.ex == step.ex {
        var behind := InQueue(step.ex, place.i + 1);
        assert Located(s, id, behind) <==> id in at && at[id] == behind;
        assert Located(s', id, place) <==> Located(s, id, behind);
        assert id in at' && at'[id] == place <==> id in at && at[id] == behind;
      } else if place == OnThread(step.th, |s.stacks[step.th]|) {
        assert Located(s', id, place) <==> Located(s, id, InQueue(step.ex, 0));
      }
    }
  }

  lemma PlacesPark(s: State, at: map<Id, Place>, step: Step)
    requires Tracks(s, at) && Enabled(s, step) && (step.Park?)
    ensures Places(Next(s, step), Moved(s, at, step))
  {
    var s' := Next(s, step);
    var at' := Moved(s, at, step);
    assert Located(s, Top(s.stacks[step.th]).id, Innermost(s, step.th));
    forall id, place ensures Located(s', id, place) <==> id in at' && at'[id] == place {
      assert Located(s, id, place) <==> id in at && at[id] == place;
    }
  }

  lemma PlacesUnpark(s: State, at: map<Id, Place>, step: Step)
    requires Tracks(s, at) && Enabled(s, step) && (step.Unpark?)
    ensures Places(Next(s, step), Moved(s, at, step))
  {
    var s' := Next(s, step);
    var at' := Moved(s, at, step);
    assert Located(s, step.id, Parked);
    forall id, place ensures Located(s', id, place) <==> id in at' && at'[id] == place {
      assert Located(s, id, place) <==> id in at && at[id] == place;
    }
  }
}
