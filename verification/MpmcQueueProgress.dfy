/** That calls on the ticket queue end: every step but a pure spin takes its thread further. */
module MpmcQueueProgress {
  import opened Wrappers
  import opened MpmcQueue
  import opened MpmcQueueProperties

  /** How many steps a thread may still take in a run of `calls` calls, spins aside. */
  function Remaining<T>(l: Local<T>, calls: nat): nat
  {
    match l
    case Producer(pc, _, _) => (match pc case AwaitAcquire => 3 case Construct => 2 case Publish => 1)
    case Consumer(pc, _, _) => (match pc case AwaitRelease => 4 case Move => 3 case Destruct => 2 case Vacate => 1)
    case TryProducer(pc, k, _) => 2 * (if k < calls then calls - k else 0) + (if pc == Check then 5 else 4)
    case TryConsumer(pc, k) => 2 * (if k < calls then calls - k else 0) + (if pc == Check then 5 else 4)
  }

  /**
   At its turn a thread gets further: it is gone, or fewer steps remain. A thread can only spin if
   it waits for its turn, and then its step changes nothing.
   */
  lemma TurnAdvances<T>(s: State<T>, t: Tid, calls: nat)
    requires Shape(s) && t in s.threads && ThreadOk(s, t) && s.head <= calls && s.tail <= calls
    ensures Enabled(s, Advance(t))
    ensures var s' := Next(s, Advance(t));
      if Spins(s, t) then s' == s
      else t !in s'.threads || Remaining(s'.threads[t], calls) < Remaining(s.threads[t], calls)
  {
    match s.threads[t]
    case Producer(_, _, _) =>
    case Consumer(_, _, _) =>
    case TryProducer(_, _, _) => TryProducerAdvances(s, t, calls);
    case TryConsumer(_, _) => TryConsumerAdvances(s, t, calls);
  }

  lemma TryProducerAdvances<T>(s: State<T>, t: Tid, calls: nat)
    requires Shape(s) && t in s.threads && ThreadOk(s, t) && s.head <= calls && s.threads[t].TryProducer?
    ensures var s' := AdvanceTryProducer(s, t);
      t !in s'.threads || Remaining(s'.threads[t], calls) < Remaining(s.threads[t], calls)
  {
  }

  lemma TryConsumerAdvances<T>(s: State<T>, t: Tid, calls: nat)
    requires Shape(s) && t in s.threads && ThreadOk(s, t) && s.tail <= calls && s.threads[t].TryConsumer?
    ensures var s' := AdvanceTryConsumer(s, t);
      t !in s'.threads || Remaining(s'.threads[t], calls) < Remaining(s.threads[t], calls)
  {
  }

  /** So when no step of a thread in the queue changes anything, the queue is full of producers or empty of values. */
  lemma StuckOnlyWhenFullOrEmpty<T>(s: State<T>)
    requires Inv(s) && forall t :: t in s.threads && Enabled(s, Advance(t)) ==> Next(s, Advance(t)) == s
    ensures || s.threads == map[]
            || (Full(s) && forall t :: t in s.threads ==> s.threads[t].Producer?)
            || (Empty(s) && forall t :: t in s.threads ==> s.threads[t].Consumer?)
  {
    forall t | t in s.threads ensures Spins(s, t) {
      assert ThreadOk(s, t);
      TurnAdvances(s, t, s.head + s.tail);
    }
    if s.threads != map[] { SpinOnlyWhenFullOrEmpty(s); }
  }

  // ---------------------------------------------------------------- adding up over the threads

  ghost function Total<T>(threads: map<Tid, Local<T>>, calls: nat): nat
    decreases |threads|
  {
    if threads == map[] then 0
    else
      var t :| t in threads;
      Remaining(threads[t], calls) + Total(threads - {t}, calls)
  }

  lemma {:induction false} TotalWithout<T>(threads: map<Tid, Local<T>>, calls: nat, t: Tid)
    requires t in threads
    ensures Total(threads, calls) == Remaining(threads[t], calls) + Total(threads - {t}, calls)
    decreases |threads|
  {
    var u :| u in threads && Total(threads, calls) == Remaining(threads[u], calls) + Total(threads - {u}, calls);
    if u != t {
      TotalWithout(threads - {u}, calls, t);
      TotalWithout(threads - {t}, calls, u);
      assert threads - {u} - {t} == threads - {t} - {u};
    }
  }

  lemma TotalUpdate<T>(threads: map<Tid, Local<T>>, calls: nat, t: Tid, l: Local<T>)
    ensures Total(threads[t := l], calls)
         == Total(threads, calls) + Remaining(l, calls) - if t in threads then Remaining(threads[t], calls) else 0
  {
    TotalWithout(threads[t := l], calls, t);
    assert threads[t := l] - {t} == threads - {t};
    if t in threads {
      TotalWithout(threads, calls, t);
    } else {
      assert threads - {t} == threads;
    }
  }

  // ---------------------------------------------------------------- runs

  function Begins<T>(steps: seq<Step<T>>): nat
  {
    if steps == [] then 0 else Begins(steps[..|steps| - 1]) + if steps[|steps| - 1].Begin? then 1 else 0
  }

  /** The steps that changed something, which are all but the pure spins. */
  ghost function Moves<T>(run: seq<State<T>>): nat
  {
    if |run| < 2 then 0
    else Moves(run[..|run| - 1]) + if run[|run| - 1] != run[|run| - 2] then 1 else 0
  }

  lemma {:induction false} BeginsGrow<T>(steps: seq<Step<T>>, i: nat)
    requires i <= |steps|
    ensures Begins(steps[..i]) <= Begins(steps)
    decreases |steps|
  {
    if i == |steps| {
      assert steps[..i] == steps;
    } else {
      BeginsGrow(steps[..|steps| - 1], i);
      assert steps[..|steps| - 1][..i] == steps[..i];
    }
  }

  // ---------------------------------------------------------------- no more tickets than calls

  ghost function Trying<T>(threads: map<Tid, Local<T>>): set<Tid>
  {
    set t | t in threads && (threads[t].TryProducer? || threads[t].TryConsumer?)
  }

  ghost function Tickets<T>(s: State<T>): nat
  {
    s.head + s.tail + |Trying(s.threads)|
  }

  lemma TryingUpdate<T>(threads: map<Tid, Local<T>>, t: Tid, l: Local<T>)
    ensures |Trying(threads[t := l])|
         == |Trying(threads)| - (if t in Trying(threads) then 1 else 0)
            + if l.TryProducer? || l.TryConsumer? then 1 else 0
  {
    if l.TryProducer? || l.TryConsumer? {
      assert Trying(threads[t := l]) == Trying(threads) + {t};
    } else {
      assert Trying(threads[t := l]) == Trying(threads) - {t};
    }
  }

  lemma TryingReturn<T>(threads: map<Tid, Local<T>>, t: Tid)
    ensures |Trying(threads - {t})| <= |Trying(threads)|
  {
    assert Trying(threads - {t}) == Trying(threads) - {t};
    assert Trying(threads) == Trying(threads) - {t} || Trying(threads) == (Trying(threads) - {t}) + {t};
  }

  /** A step leaves all threads but its own as they are. */
  lemma OwnThread<T>(s: State<T>, t: Tid)
    requires s.slots != [] && t in s.threads
    ensures var s' := Next(s, Advance(t));
      s'.threads == if t in s'.threads then s.threads[t := s'.threads[t]] else s.threads - {t}
  {
    var s' := Next(s, Advance(t));
    assert s'.threads == s.threads || s'.threads == s.threads - {t} || t in s'.threads;
  }

  lemma TicketsBegin<T>(s: State<T>, t: Tid, op: Op<T>)
    requires Enabled(s, Begin(t, op))
    ensures Tickets(Next(s, Begin(t, op))) <= Tickets(s) + 1
  {
    TryingUpdate(s.threads, t, Next(s, Begin(t, op)).threads[t]);
  }

  /** A ticket is drawn by a thread that stops trying, or moves none. */
  lemma DrawsByTrying<T>(s: State<T>, t: Tid)
    requires s.slots != [] && t in s.threads
    ensures var s' := Next(s, Advance(t));
      s'.head + s'.tail <= s.head + s.tail +
        if t in s'.threads && (s.threads[t].TryProducer? || s.threads[t].TryConsumer?)
           && (s'.threads[t].Producer? || s'.threads[t].Consumer?) then 1 else 0
    ensures var s' := Next(s, Advance(t));
      t in s'.threads && (s'.threads[t].TryProducer? || s'.threads[t].TryConsumer?) ==>
        s.threads[t].TryProducer? || s.threads[t].TryConsumer?
  {
  }

  lemma TicketsAdvance<T>(s: State<T>, t: Tid)
    requires s.slots != [] && t in s.threads
    ensures Tickets(Next(s, Advance(t))) <= Tickets(s)
  {
    var s' := Next(s, Advance(t));
    OwnThread(s, t);
    DrawsByTrying(s, t);
    if t in s'.threads { TryingUpdate(s.threads, t, s'.threads[t]); } else { TryingReturn(s.threads, t); }
  }

  lemma {:induction false} TicketsAreCalls<T>(capacity: nat, run: seq<State<T>>, steps: seq<Step<T>>, i: nat)
    requires IsRun(capacity, run, steps) && i < |run|
    ensures Tickets(run[i]) <= Begins(steps[..i])
  {
    if i == 0 {
      assert Trying(run[0].threads) == {};
    } else {
      TicketsAreCalls(capacity, run, steps, i - 1);
      RunStep(capacity, run, steps, i - 1);
      assert steps[..i][..i - 1] == steps[..i - 1];
      match steps[i - 1]
      case Begin(t, op) => TicketsBegin(run[i - 1], t, op);
      case Advance(t) => TicketsAdvance(run[i - 1], t);
    }
  }

  // ---------------------------------------------------------------- the bound

  lemma BeginTotal<T>(s: State<T>, t: Tid, op: Op<T>, calls: nat)
    requires Enabled(s, Begin(t, op))
    ensures Total(Next(s, Begin(t, op)).threads, calls) + 1 <= Total(s.threads, calls) + 2 * calls + 6
  {
    TotalUpdate(s.threads, calls, t, Next(s, Begin(t, op)).threads[t]);
  }

  lemma AdvanceTotal<T>(s: State<T>, t: Tid, calls: nat)
    requires Inv(s) && t in s.threads && s.head <= calls && s.tail <= calls
    ensures Total(Next(s, Advance(t)).threads, calls) + (if Next(s, Advance(t)) != s then 1 else 0)
         <= Total(s.threads, calls)
  {
    var s' := Next(s, Advance(t));
    assert ThreadOk(s, t);
    TurnAdvances(s, t, calls);
    OwnThread(s, t);
    if t in s'.threads {
      TotalUpdate(s.threads, calls, t, s'.threads[t]);
    } else {
      TotalWithout(s.threads, calls, t);
    }
  }

  lemma StepTotal<T>(capacity: nat, run: seq<State<T>>, steps: seq<Step<T>>, i: nat, calls: nat)
    requires IsRun(capacity, run, steps) && i < |steps| && Begins(steps) <= calls
    ensures Total(run[i + 1].threads, calls) + (if run[i + 1] != run[i] then 1 else 0)
         <= Total(run[i].threads, calls) + if steps[i].Begin? then 2 * calls + 6 else 0
  {
    RunInv(capacity, run, steps, i);
    RunStep(capacity, run, steps, i);
    TicketsAreCalls(capacity, run, steps, i);
    BeginsGrow(steps, i);
    match steps[i]
    case Begin(t, op) => BeginTotal(run[i], t, op, calls);
    case Advance(t) => AdvanceTotal(run[i], t, calls);
  }

  lemma MovesStep<T>(run: seq<State<T>>, i: nat)
    requires 0 < i < |run|
    ensures Moves(run[..i + 1]) == Moves(run[..i]) + if run[i] != run[i - 1] then 1 else 0
  {
    assert run[..i + 1][..i] == run[..i];
  }

  /** So much for each call. */
  function Budget<T>(steps: seq<Step<T>>, each: nat): nat
  {
    if steps == [] then 0 else Budget(steps[..|steps| - 1], each) + if steps[|steps| - 1].Begin? then each else 0
  }

  lemma BudgetStep<T>(steps: seq<Step<T>>, i: nat, each: nat)
    requires 0 < i <= |steps|
    ensures Budget(steps[..i], each) == Budget(steps[..i - 1], each) + if steps[i - 1].Begin? then each else 0
  {
    assert steps[..i][..i - 1] == steps[..i - 1];
  }

  lemma {:induction false} BudgetIsProduct<T>(steps: seq<Step<T>>, each: nat)
    ensures Budget(steps, each) == Begins(steps) * each
  {
    if steps != [] {
      var b := Begins(steps[..|steps| - 1]);
      BudgetIsProduct(steps[..|steps| - 1], each);
      assert (b + 1) * each == b * each + each;
    }
  }

  lemma {:induction false} MovesBounded<T>(capacity: nat, run: seq<State<T>>, steps: seq<Step<T>>, i: nat, calls: nat)
    requires IsRun(capacity, run, steps) && i < |run| && Begins(steps) <= calls
    ensures Moves(run[..i + 1]) + Total(run[i].threads, calls) <= Budget(steps[..i], 2 * calls + 6)
  {
    if i > 0 {
      MovesBounded(capacity, run, steps, i - 1, calls);
      StepTotal(capacity, run, steps, i - 1, calls);
      MovesStep(run, i);
      BudgetStep(steps, i, 2 * calls + 6);
    }
  }

  /**
   Under every scheduler a run of n calls changes the state at most n * (2n + 6) times: no thread
   goes round its loop for ever, but in pure spins.
   */
  lemma RunBounded<T>(capacity: nat, run: seq<State<T>>, steps: seq<Step<T>>)
    requires IsRun(capacity, run, steps)
    ensures Moves(run) <= Begins(steps) * (2 * Begins(steps) + 6)
  {
    MovesBounded(capacity, run, steps, |steps|, Begins(steps));
    BudgetIsProduct(steps, 2 * Begins(steps) + 6);
    assert run[..|run|] == run && steps[..|steps|] == steps;
  }

  /**
   And a run that goes on while any thread in the queue can change something ends with every call
   returned, or on a full queue with producers only, or on an empty one with consumers only.
   */
  lemma MaximalRunReturns<T>(capacity: nat, run: seq<State<T>>, steps: seq<Step<T>>)
    requires IsRun(capacity, run, steps)
    requires var s := run[|steps|]; forall t :: t in s.threads && Enabled(s, Advance(t)) ==> Next(s, Advance(t)) == s
    ensures var s := run[|steps|];
      || s.threads == map[]
      || (Full(s) && forall t :: t in s.threads ==> s.threads[t].Producer?)
      || (Empty(s) && forall t :: t in s.threads ==> s.threads[t].Consumer?)
    ensures Moves(run) <= Begins(steps) * (2 * Begins(steps) + 6)
  {
    RunInv(capacity, run, steps, |steps|);
    StuckOnlyWhenFullOrEmpty(run[|steps|]);
    RunBounded(capacity, run, steps);
  }
}
