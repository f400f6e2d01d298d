/** What each call on the ticket queue does between its beginning and its return. */
module MpmcQueueCalls {
  import opened Wrappers
  import opened MpmcQueue
  import opened MpmcQueueProperties
  import opened MpmcQueueProgress

  // ---------------------------------------------------------------- who drew which ticket

  /** Of the producer tickets drawn since s0, thread t drew the one given and no other. */
  ghost predicate Drew<T>(s0: State<T>, s: State<T>, t: Tid, own: Option<nat>)
    requires |s.producers| == s.head
  {
    forall n: nat :: s0.head <= n < s.head ==> (s.producers[n] == t <==> own == Some(n))
  }

  ghost predicate DrewToPop<T>(s0: State<T>, s: State<T>, t: Tid, own: Option<nat>)
    requires |s.consumers| == s.tail
  {
    forall n: nat :: s0.tail <= n < s.tail ==> (s.consumers[n] == t <==> own == Some(n))
  }

  // ---------------------------------------------------------------- a call under way

  /** The registers of a thread whose call is this. */
  predicate Serves<T(==)>(l: Local<T>, op: Op<T>)
  {
    match l
    case Producer(_, _, v) => op == Emplace(v) || op == TryEmplace(v)
    case Consumer(_, _, _) => op == Pop || op == TryPop
    case TryProducer(_, _, v) => op == TryEmplace(v)
    case TryConsumer(_, _) => op == TryPop
  }

  function SendTicket<T>(l: Local<T>): Option<nat>
  {
    if l.Producer? then Some(l.ticket) else None
  }

  function ReceiveTicket<T>(l: Local<T>): Option<nat>
  {
    if l.Consumer? then Some(l.ticket) else None
  }

  /** Not in a loop that waits for the slot's turn. */
  predicate NeverWaits<T>(l: Local<T>)
  {
    (l.Producer? ==> l.ppc != AwaitAcquire) && (l.Consumer? ==> l.cpc != AwaitRelease)
  }

  /** Thread t is in the call `op` that it began in state s0, and has drawn the ticket it holds and no other. */
  ghost predicate InCall<T>(s0: State<T>, s: State<T>, t: Tid, op: Op<T>)
  {
    && Shape(s) && s0.head <= s.head && s0.tail <= s.tail && t in s.threads
    && var l := s.threads[t];
      && Serves(l, op) && (op.TryEmplace? || op.TryPop? ==> NeverWaits(l))
      && Drew(s0, s, t, SendTicket(l)) && DrewToPop(s0, s, t, ReceiveTicket(l))
      && (l.Producer? ==> s0.head <= l.ticket < s.head && (op.Emplace? ==> l.ticket == s0.head))
      && (l.Consumer? ==> s0.tail <= l.ticket < s.tail && (op.Pop? ==> l.ticket == s0.tail))
  }

  /** A thread in no call may begin any, and is in it then. */
  lemma BeginsCall<T>(s: State<T>, t: Tid, op: Op<T>)
    requires Shape(s) && t !in s.threads
    ensures Enabled(s, Begin(t, op)) && InCall(s, Next(s, Begin(t, op)), t, op)
  {
  }

  lemma StaysInCall<T>(s0: State<T>, s: State<T>, step: Step<T>, t: Tid, op: Op<T>)
    requires InCall(s0, s, t, op) && Enabled(s, step) && t in Next(s, step).threads
    ensures InCall(s0, Next(s, step), t, op)
  {
    if step.tid != t {
      OthersDraw(s0, s, step, t);
    } else {
      match s.threads[t]
      case Producer(_, _, _) => OwnProducer(s0, s, t, op);
      case Consumer(_, _, _) => OwnConsumer(s0, s, t, op);
      case TryProducer(_, _, _) => OwnTryProducer(s0, s, t, op);
      case TryConsumer(_, _) => OwnTryConsumer(s0, s, t, op);
    }
  }

  lemma OwnProducer<T>(s0: State<T>, s: State<T>, t: Tid, op: Op<T>)
    requires InCall(s0, s, t, op) && s.threads[t].Producer? && t in AdvanceProducer(s, t).threads
    ensures InCall(s0, AdvanceProducer(s, t), t, op)
  {
  }

  lemma OwnConsumer<T>(s0: State<T>, s: State<T>, t: Tid, op: Op<T>)
    requires InCall(s0, s, t, op) && s.threads[t].Consumer? && t in AdvanceConsumer(s, t).threads
    ensures InCall(s0, AdvanceConsumer(s, t), t, op)
  {
  }

  lemma OwnTryProducer<T>(s0: State<T>, s: State<T>, t: Tid, op: Op<T>)
    requires InCall(s0, s, t, op) && s.threads[t].TryProducer? && t in AdvanceTryProducer(s, t).threads
    ensures InCall(s0, AdvanceTryProducer(s, t), t, op)
  {
  }

  lemma OwnTryConsumer<T>(s0: State<T>, s: State<T>, t: Tid, op: Op<T>)
    requires InCall(s0, s, t, op) && s.threads[t].TryConsumer? && t in AdvanceTryConsumer(s, t).threads
    ensures InCall(s0, AdvanceTryConsumer(s, t), t, op)
  {
  }

  lemma OthersDraw<T>(s0: State<T>, s: State<T>, step: Step<T>, t: Tid)
    requires Shape(s) && Enabled(s, step) && step.tid != t && t in s.threads
    ensures var s' := Next(s, step);
      && Shape(s') && s.head <= s'.head && s.producers <= s'.producers
      && s.tail <= s'.tail && s.consumers <= s'.consumers
      && (forall n: nat :: s.head <= n < s'.head ==> s'.producers[n] != t)
      && (forall n: nat :: s.tail <= n < s'.tail ==> s'.consumers[n] != t)
      && t in s'.threads && s'.threads[t] == s.threads[t]
  {
  }

  // ---------------------------------------------------------------- what a call has done when it returns

  /** The call sent v under ticket n, and it stands published there. */
  ghost predicate SentAs<T>(s0: State<T>, s: State<T>, t: Tid, v: T, n: nat)
    requires Shape(s)
  {
    s0.head <= n < s.head && s.producers[n] == t && s.sent[n] == v && n in s.published
  }

  /** The call was handed what was sent under ticket n. */
  ghost predicate ReceivedAs<T>(s0: State<T>, s: State<T>, t: Tid, n: nat)
    requires Shape(s)
  {
    && s0.tail <= n < s.tail && s.consumers[n] == t
    && n < s.head && n in s.received && s.received[n] == s.sent[n] && n in s.destroyed
  }

  /** What a call begun in s0 and just returned in s has done: what it was asked to, under one ticket, or nothing. */
  ghost predicate Outcome<T>(s0: State<T>, s: State<T>, t: Tid, op: Op<T>, ticket: Option<nat>)
  {
    && Shape(s)
    && match op
      case Emplace(v) =>
        ticket == Some(s0.head) && SentAs(s0, s, t, v, s0.head) && Drew(s0, s, t, ticket) && DrewToPop(s0, s, t, None)
      case TryEmplace(v) =>
        && (ticket.Some? ==> SentAs(s0, s, t, v, ticket.value))
        && Drew(s0, s, t, ticket) && DrewToPop(s0, s, t, None)
      case Pop =>
        ticket == Some(s0.tail) && ReceivedAs(s0, s, t, s0.tail) && Drew(s0, s, t, None) && DrewToPop(s0, s, t, ticket)
      case TryPop =>
        && (ticket.Some? ==> ReceivedAs(s0, s, t, ticket.value))
        && Drew(s0, s, t, None) && DrewToPop(s0, s, t, ticket)
  }

  lemma ReturnsAsProducer<T>(s0: State<T>, s: State<T>, t: Tid, op: Op<T>)
    requires Inv(s) && InCall(s0, s, t, op) && s.threads[t].Producer? && t !in AdvanceProducer(s, t).threads
    ensures Outcome(s0, AdvanceProducer(s, t), t, op, Some(s.threads[t].ticket))
  {
    assert ThreadOk(s, t);
  }

  lemma ReturnsAsConsumer<T>(s0: State<T>, s: State<T>, t: Tid, op: Op<T>)
    requires Inv(s) && InCall(s0, s, t, op) && s.threads[t].Consumer? && t !in AdvanceConsumer(s, t).threads
    ensures Outcome(s0, AdvanceConsumer(s, t), t, op, Some(s.threads[t].ticket))
  {
    assert ThreadOk(s, t) && TicketOk(s, s.threads[t].ticket);
  }

  lemma ReturnsAsTryProducer<T>(s0: State<T>, s: State<T>, t: Tid, op: Op<T>)
    requires InCall(s0, s, t, op) && s.threads[t].TryProducer? && t !in AdvanceTryProducer(s, t).threads
    ensures Outcome(s0, AdvanceTryProducer(s, t), t, op, None)
  {
  }

  lemma ReturnsAsTryConsumer<T>(s0: State<T>, s: State<T>, t: Tid, op: Op<T>)
    requires InCall(s0, s, t, op) && s.threads[t].TryConsumer? && t !in AdvanceTryConsumer(s, t).threads
    ensures Outcome(s0, AdvanceTryConsumer(s, t), t, op, None)
  {
  }

  lemma Returns<T>(s0: State<T>, s: State<T>, step: Step<T>, t: Tid, op: Op<T>) returns (ticket: Option<nat>)
    requires Inv(s) && InCall(s0, s, t, op) && Enabled(s, step) && t !in Next(s, step).threads
    ensures step == Advance(t) && Outcome(s0, Next(s, step), t, op, ticket)
    ensures ticket.None? <==> s.threads[t].TryProducer? || s.threads[t].TryConsumer?
  {
    if step.tid != t { OthersDraw(s0, s, step, t); }
    match s.threads[t]
    case Producer(_, k, _) => ReturnsAsProducer(s0, s, t, op); ticket := Some(k);
    case Consumer(_, k, _) => ReturnsAsConsumer(s0, s, t, op); ticket := Some(k);
    case TryProducer(_, _, _) => ReturnsAsTryProducer(s0, s, t, op); ticket := None;
    case TryConsumer(_, _) => ReturnsAsTryConsumer(s0, s, t, op); ticket := None;
  }

  // ---------------------------------------------------------------- calls in runs

  /** Thread t begins `op` at step i and has not returned by state m. */
  ghost predicate Calls<T>(capacity: nat, run: seq<State<T>>, steps: seq<Step<T>>, t: Tid, op: Op<T>, i: nat, m: nat)
  {
    && IsRun(capacity, run, steps) && i < m < |run|
    && steps[i] == Begin(t, op)
    && forall j :: i < j <= m ==> t in run[j].threads
  }

  lemma CallBegins<T>(capacity: nat, run: seq<State<T>>, steps: seq<Step<T>>, t: Tid, op: Op<T>, i: nat)
    requires IsRun(capacity, run, steps) && i < |steps| && steps[i] == Begin(t, op)
    ensures InCall(run[i], run[i + 1], t, op)
  {
    RunInv(capacity, run, steps, i);
    RunStep(capacity, run, steps, i);
    BeginsCall(run[i], t, op);
  }

  lemma CallContinues<T>(capacity: nat, run: seq<State<T>>, steps: seq<Step<T>>,
                         s0: State<T>, t: Tid, op: Op<T>, m: nat)
    requires IsRun(capacity, run, steps) && m < |steps| && InCall(s0, run[m], t, op) && t in run[m + 1].threads
    ensures InCall(s0, run[m + 1], t, op)
  {
    RunStep(capacity, run, steps, m);
    StaysInCall(s0, run[m], steps[m], t, op);
  }

  lemma {:induction false} CallUnderWay<T>(capacity: nat, run: seq<State<T>>, steps: seq<Step<T>>,
                                           t: Tid, op: Op<T>, i: nat, m: nat)
    requires Calls(capacity, run, steps, t, op, i, m)
    ensures InCall(run[i], run[m], t, op)
  {
    if m == i + 1 {
      CallBegins(capacity, run, steps, t, op, i);
    } else {
      CallUnderWay(capacity, run, steps, t, op, i, m - 1);
      CallContinues(capacity, run, steps, run[i], t, op, m - 1);
    }
  }

  /**
   Every call that returns has done what it was asked, once: emplace has sent its argument under
   the ticket at the head when it began, pop has been handed what was sent under the one at the
   tail, and a try_ call has done so under a later ticket or, if it failed, has drawn none.
   */
  lemma EachCallDoesItsOp<T>(capacity: nat, run: seq<State<T>>, steps: seq<Step<T>>,
                             t: Tid, op: Op<T>, i: nat, k: nat)
    returns (ticket: Option<nat>)
    requires Calls(capacity, run, steps, t, op, i, k) && k < |steps| && t !in run[k + 1].threads
    ensures steps[k] == Advance(t) && Outcome(run[i], run[k + 1], t, op, ticket)
    ensures ticket.None? <==> run[k].threads[t].TryProducer? || run[k].threads[t].TryConsumer?
  {
    CallUnderWay(capacity, run, steps, t, op, i, k);
    RunInv(capacity, run, steps, k);
    RunStep(capacity, run, steps, k);
    ticket := Returns(run[i], run[k], steps[k], t, op);
  }

  /** A try_ call never waits: each step of its thread changes something, and it is one the thread can take. */
  lemma TryCallsNeverWait<T>(capacity: nat, run: seq<State<T>>, steps: seq<Step<T>>, t: Tid, op: Op<T>, i: nat, m: nat)
    requires Calls(capacity, run, steps, t, op, i, m) && (op.TryEmplace? || op.TryPop?)
    ensures run[m].slots != [] && t in run[m].threads && !Spins(run[m], t)
    ensures Enabled(run[m], Advance(t)) && Next(run[m], Advance(t)) != run[m]
  {
    CallUnderWay(capacity, run, steps, t, op, i, m);
    RunInv(capacity, run, steps, m);
    assert ThreadOk(run[m], t);
    TurnAdvances(run[m], t, run[m].head + run[m].tail);
  }

  /** The queue is first in, first out between calls too: an earlier call sends under an earlier ticket. */
  lemma SendsFollowRealTime<T>(capacity: nat, run: seq<State<T>>, steps: seq<Step<T>>,
                               t: Tid, op: Op<T>, i: nat, k: nat, u: Tid, op': Op<T>, i': nat, k': nat, n: nat, n': nat)
    requires Calls(capacity, run, steps, t, op, i, k) && Calls(capacity, run, steps, u, op', i', k') && k < i'
    requires k' < |steps|
    requires Outcome(run[i], run[k + 1], t, op, Some(n)) && Outcome(run[i'], run[k' + 1], u, op', Some(n'))
    ensures (op.Emplace? || op.TryEmplace?) && (op'.Emplace? || op'.TryEmplace?) ==> n < n'
    ensures (op.Pop? || op.TryPop?) && (op'.Pop? || op'.TryPop?) ==> n < n'
  {
    RunExtends(capacity, run, steps, k + 1, i');
  }

  // ---------------------------------------------------------------- every ticket is some call's

  /** The call a thread began last. */
  function LastCall<T>(steps: seq<Step<T>>, t: Tid): Option<Op<T>>
  {
    if steps == [] then None
    else
      match steps[|steps| - 1]
      case Begin(u, op) => if u == t then Some(op) else LastCall(steps[..|steps| - 1], t)
      case Advance(_) => LastCall(steps[..|steps| - 1], t)
  }

  lemma AdvanceServes<T>(s: State<T>, t: Tid, op: Op<T>)
    requires s.slots != [] && t in s.threads && Serves(s.threads[t], op) && t in Next(s, Advance(t)).threads
    ensures Serves(Next(s, Advance(t)).threads[t], op)
  {
  }

  lemma StepKeepsOthers<T>(s: State<T>, step: Step<T>, t: Tid)
    requires Enabled(s, step) && step.tid != t
    ensures t in Next(s, step).threads <==> t in s.threads
    ensures t in s.threads ==> Next(s, step).threads[t] == s.threads[t]
  {
    if step.Advance? { OwnThread(s, step.tid); }
  }

  lemma StepServes<T>(s: State<T>, step: Step<T>, t: Tid)
    requires Enabled(s, step) && t in Next(s, step).threads
    ensures step.Begin? && step.tid == t ==> Serves(Next(s, step).threads[t], step.op)
    ensures !(step.Begin? && step.tid == t) ==> t in s.threads
    ensures !(step.Begin? && step.tid == t) ==>
              forall op :: Serves(s.threads[t], op) ==> Serves(Next(s, step).threads[t], op)
  {
    if step.tid != t {
      StepKeepsOthers(s, step, t);
    } else if step.Advance? {
      forall op | Serves(s.threads[t], op) ensures Serves(Next(s, step).threads[t], op) { AdvanceServes(s, t, op); }
    }
  }

  lemma {:induction false} ServesLastCall<T>(capacity: nat, run: seq<State<T>>, steps: seq<Step<T>>, i: nat, t: Tid)
    requires IsRun(capacity, run, steps) && i < |run| && t in run[i].threads
    ensures LastCall(steps[..i], t).Some? && Serves(run[i].threads[t], LastCall(steps[..i], t).value)
  {
    if i > 0 {
      RunStep(capacity, run, steps, i - 1);
      assert steps[..i][..i - 1] == steps[..i - 1];
      StepServes(run[i - 1], steps[i - 1], t);
      if !(steps[i - 1].Begin? && steps[i - 1].tid == t) { ServesLastCall(capacity, run, steps, i - 1, t); }
    }
  }

  /**
   The sends grow by the argument of a call and by nothing else: at the beginning of every emplace,
   and at a step of a thread inside try_emplace.
   */
  lemma SendsAreCalls<T>(capacity: nat, run: seq<State<T>>, steps: seq<Step<T>>, i: nat)
    requires IsRun(capacity, run, steps) && i < |steps|
    ensures steps[i].Begin? && steps[i].op.Emplace? ==>
              && run[i + 1].sent == run[i].sent + [steps[i].op.value]
              && run[i + 1].producers == run[i].producers + [steps[i].tid]
    ensures steps[i].Begin? && !steps[i].op.Emplace? ==> run[i + 1].sent == run[i].sent
    ensures steps[i].Advance? && run[i + 1].sent != run[i].sent ==>
              && LastCall(steps[..i], steps[i].tid).Some? && LastCall(steps[..i], steps[i].tid).value.TryEmplace?
              && run[i + 1].sent == run[i].sent + [LastCall(steps[..i], steps[i].tid).value.value]
              && run[i + 1].producers == run[i].producers + [steps[i].tid]
    ensures run[i + 1].sent == run[i].sent ==> run[i + 1].producers == run[i].producers
  {
    RunStep(capacity, run, steps, i);
    if steps[i].Advance? { ServesLastCall(capacity, run, steps, i, steps[i].tid); }
  }

  /** Every value ever sent is the argument of the call that drew its ticket. */
  lemma {:induction false} EachSendIsACall<T>(capacity: nat, run: seq<State<T>>, steps: seq<Step<T>>, i: nat, n: nat)
    returns (d: nat, op: Op<T>)
    requires IsRun(capacity, run, steps) && i < |run| && n < |run[i].sent|
    ensures d < i && |run[d].sent| == n && |run[d + 1].sent| == n + 1
    ensures steps[d] == Begin(steps[d].tid, op) || LastCall(steps[..d], steps[d].tid) == Some(op)
    ensures op == Emplace(run[i].sent[n]) || op == TryEmplace(run[i].sent[n])
    ensures n < |run[i].producers| && run[i].producers[n] == steps[d].tid
  {
    RunInv(capacity, run, steps, i);
    SendsAreCalls(capacity, run, steps, i - 1);
    RunInv(capacity, run, steps, i - 1);
    if n < |run[i - 1].sent| {
      d, op := EachSendIsACall(capacity, run, steps, i - 1, n);
    } else {
      d := i - 1;
      op := if steps[d].Begin? then steps[d].op else LastCall(steps[..d], steps[d].tid).value;
    }
  }

  /** So what a pop hands out is the argument of the call of emplace or try_emplace with the same place in line. */
  lemma PopHandsOutAnArgument<T>(capacity: nat, run: seq<State<T>>, steps: seq<Step<T>>, t: Tid, i: nat, k: nat)
    returns (d: nat, op: Op<T>)
    requires Calls(capacity, run, steps, t, Pop, i, k) && k < |steps| && t !in run[k + 1].threads
    ensures run[i].tail in run[k + 1].received
    ensures d <= k && |run[d].sent| == run[i].tail < |run[d + 1].sent|
    ensures steps[d] == Begin(steps[d].tid, op) || LastCall(steps[..d], steps[d].tid) == Some(op)
    ensures var v := run[k + 1].received[run[i].tail]; op == Emplace(v) || op == TryEmplace(v)
  {
    var ticket := EachCallDoesItsOp(capacity, run, steps, t, Pop, i, k);
    RunInv(capacity, run, steps, k + 1);
    d, op := EachSendIsACall(capacity, run, steps, k + 1, run[i].tail);
  }
}
