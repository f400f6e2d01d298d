/**
 The objects of include/ptl/experimental/coroutine/task.hpp and the executors, updated in place:
 promises whose continuation and executor are assigned, queues that are pushed and popped.
 */
module TaskSchedulingObject {
  import opened Wrappers
  import opened TaskScheduling

  class Scheduler {
    var promises: map<Id, Promise>
    var queues: map<Exec, seq<Id>>
    var stacks: map<Thread, seq<Call>>
    var current: map<Thread, Option<Exec>>
    var parked: set<Id>

    /** Where each started, unfinished coroutine's handle is. */
    ghost var at: map<Id, Place>

    ghost function View(): State
      reads this
    {
      State(promises, queues, stacks, current, parked)
    }

    ghost predicate Valid()
      reads this
    {
      Tracks(View(), at)
    }

    constructor (threads: set<Thread>)
      ensures Valid() && InitState(View()) && stacks.Keys == threads
    {
      promises, queues, parked := map[], map[], {};
      stacks := map th | th in threads :: [];
      current := map th | th in threads :: None;
      at := map[];
      new;
      TracksInit(View());
    }

    // ---- executors

    /** Executor(): the new executor is current on its thread. */
    method BuildExecutor(th: Thread, ex: Exec)
      requires Valid() && Enabled(View(), Build(th, ex))
      modifies this
      ensures Valid() && View() == Next(old(View()), Build(th, ex))
    {
      TracksNext(View(), at, Build(th, ex));
      queues := queues[ex := []];
      current := current[th := Some(ex)];
    }

    /** ~Executor(): none is current on the thread, whichever was. */
    method DestroyExecutor(th: Thread, ex: Exec)
      requires Valid() && Enabled(View(), Destroy(th, ex))
      modifies this
      ensures Valid() && View() == Next(old(View()), Destroy(th, ex))
    {
      TracksNext(View(), at, Destroy(th, ex));
      queues := queues - {ex};
      current := current[th := None];
    }

    method AddToExecutor(th: Thread)
      requires Valid() && Enabled(View(), Add(th))
      modifies this
      ensures Valid() && View() == Next(old(View()), Add(th))
    {
      TracksNext(View(), at, Add(th));
      at := Moved(View(), at, Add(th));
      var a := Top(stacks[th]);
      queues := queues[a.ex := queues[a.ex] + [a.id]];
      PopCall(th);
    }

    method RunNext(th: Thread, ex: Exec) returns (id: Id)
      requires Valid() && Enabled(View(), PopWork(th, ex))
      modifies this
      ensures Valid() && View() == Next(old(View()), PopWork(th, ex))
      ensures id == old(queues[ex][0])
    {
      TracksNext(View(), at, PopWork(th, ex));
      at := Moved(View(), at, PopWork(th, ex));
      id := queues[ex][0];
      queues := queues[ex := queues[ex][1..]];
      PushCall(th, Running(id));
    }

    // ---- the stack of a thread

    method PushCall(th: Thread, c: Call)
      requires th in stacks
      modifies this`stacks
      ensures View() == Push(old(View()), th, c)
    {
      stacks := stacks[th := stacks[th] + [c]];
    }

    method SwitchCall(th: Thread, c: Call)
      requires th in stacks && stacks[th] != []
      modifies this`stacks
      ensures View() == Switch(old(View()), th, c)
    {
      stacks := stacks[th := stacks[th][|stacks[th]| - 1 := c]];
    }

    method PopCall(th: Thread)
      requires th in stacks && stacks[th] != []
      modifies this`stacks
      ensures View() == Leave(old(View()), th)
    {
      stacks := stacks[th := stacks[th][..|stacks[th]| - 1]];
    }

    // ---- coroutines

    /** A coroutine frame comes into being, suspended. */
    method CreateCoroutine(id: Id, kind: Kind)
      requires Valid() && Enabled(View(), Create(id, kind))
      modifies this
      ensures Valid() && View() == Next(old(View()), Create(id, kind))
    {
      TracksNext(View(), at, Create(id, kind));
      promises := promises[id := Promise(kind, Created, None, None)];
    }

    /** A root starts, as a call of whatever the thread is in. */
    method StartRootOn(th: Thread, id: Id)
      requires Valid() && Enabled(View(), StartRoot(th, id))
      modifies this
      ensures Valid() && View() == Next(old(View()), StartRoot(th, id))
    {
      TracksNext(View(), at, StartRoot(th, id));
      at := Moved(View(), at, StartRoot(th, id));
      promises := promises[id := promises[id].(phase := Started)];
      PushCall(th, Running(id));
    }

    /** The promise of `id` learns whom to resume and on which executor that coroutine was running. */
    method SetContinuation(th: Thread, id: Id, continuation: Id)
      requires th in current && id in promises
      modifies this`promises
      ensures promises
           == old(promises)[id := TaskScheduling.SetContinuation(old(promises[id]), continuation, current[th])]
    {
      promises := promises[id := promises[id].(continuation := Some(continuation), executor := current[th])];
    }

    /** co_await of a Task: a finished one is not waited for, another is started on this thread. */
    method CoAwait(th: Thread, id: Id) returns (suspended: bool)
      requires Valid() && Enabled(View(), Await(th, id))
      modifies this
      ensures Valid() && View() == Next(old(View()), Await(th, id))
      ensures suspended <==> old(promises[id].phase) == Created
    {
      ghost var after := Next(View(), Await(th, id));
      TracksNext(View(), at, Await(th, id));
      at := Moved(View(), at, Await(th, id));
      suspended := promises[id].phase != Done;
      if suspended {
        SetContinuation(th, id, Top(stacks[th]).id);
        promises := promises[id := promises[id].(phase := Started)];
        SwitchCall(th, Running(id));
        assert promises == after.promises && View() == after;
      }
    }

    /** co_await of `task.schedule_on(ex)`, up to the call of `ex->add`. */
    method ScheduleTask(th: Thread, id: Id, ex: Exec)
      requires Valid() && Enabled(View(), ScheduleOn(th, id, ex))
      modifies this
      ensures Valid() && View() == Next(old(View()), ScheduleOn(th, id, ex))
    {
      ghost var after := Next(View(), ScheduleOn(th, id, ex));
      TracksNext(View(), at, ScheduleOn(th, id, ex));
      at := Moved(View(), at, ScheduleOn(th, id, ex));
      SetContinuation(th, id, Top(stacks[th]).id);
      promises := promises[id := promises[id].(phase := Started)];
      SwitchCall(th, Adding(id, ex));
      assert promises == after.promises && View() == after;
    }

    /** co_await of a SchedulerAwaitable: nothing to do when already on that executor. */
    method HopTo(th: Thread, ex: Exec)
      requires Valid() && Enabled(View(), Hop(th, ex))
      modifies this
      ensures Valid() && View() == Next(old(View()), Hop(th, ex))
    {
      TracksNext(View(), at, Hop(th, ex));
      if current[th] != Some(ex) {
        SwitchCall(th, Adding(Top(stacks[th]).id, ex));
      }
    }

    /** co_await of an awaitable that is no Task: it keeps the handle. */
    method ParkHandle(th: Thread)
      requires Valid() && Enabled(View(), Park(th))
      modifies this
      ensures Valid() && View() == Next(old(View()), Park(th))
    {
      TracksNext(View(), at, Park(th));
      at := Moved(View(), at, Park(th));
      parked := parked + {Top(stacks[th]).id};
      PopCall(th);
    }

    /** resume() of a handle kept so, as a call of whatever the thread is in. */
    method ResumeParked(th: Thread, id: Id)
      requires Valid() && Enabled(View(), Unpark(th, id))
      modifies this
      ensures Valid() && View() == Next(old(View()), Unpark(th, id))
    {
      TracksNext(View(), at, Unpark(th, id));
      at := Moved(View(), at, Unpark(th, id));
      parked := parked - {id};
      PushCall(th, Running(id));
    }

    /** The final suspend of the coroutine running on th. */
    method FinishCoroutine(th: Thread)
      requires Valid() && Enabled(View(), FinalSuspend(th))
      modifies this
      ensures Valid() && View() == Next(old(View()), FinalSuspend(th))
    {
      TracksNext(View(), at, FinalSuspend(th));
      at := Moved(View(), at, FinalSuspend(th));
      var id := Top(stacks[th]).id;
      var p := promises[id];
      promises := promises[id := p.(phase := Done)];
      if p.continuation.None? {
        PopCall(th);
      } else if p.executor == None || p.executor == current[th] {
        SwitchCall(th, Running(p.continuation.value));
      } else {
        SwitchCall(th, Adding(p.continuation.value, p.executor.value));
      }
    }
  }
}
