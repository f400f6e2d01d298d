/** What every run of the ticket queue guarantees. */
module MpmcQueueProperties {
  import opened Wrappers
  import opened MpmcQueue

  // ---------------------------------------------------------------- runs

  lemma {:induction false} RunInv<T>(capacity: nat, run: seq<State<T>>, steps: seq<Step<T>>, i: nat)
    requires IsRun(capacity, run, steps) && i < |run|
    ensures Inv(run[i]) && |run[i].slots| == capacity
  {
    if i == 0 {
      InvInit<T>(capacity);
    } else {
      RunInv(capacity, run, steps, i - 1);
      assert StepAt(run, steps, i - 1);
      InvNext(run[i - 1], steps[i - 1]);
    }
  }

  lemma RunStep<T>(capacity: nat, run: seq<State<T>>, steps: seq<Step<T>>, i: nat)
    requires IsRun(capacity, run, steps) && i < |steps|
    ensures Enabled(run[i], steps[i]) && run[i + 1] == Next(run[i], steps[i])
  {
    assert StepAt(run, steps, i);
  }

  lemma RunThreadOk<T>(capacity: nat, run: seq<State<T>>, steps: seq<Step<T>>, i: nat, t: Tid)
    requires IsRun(capacity, run, steps) && i < |run| && t in run[i].threads
    ensures Shape(run[i]) && |run[i].slots| == capacity && ThreadOk(run[i], t)
  {
    RunInv(capacity, run, steps, i);
  }

  /** Tickets and histories only grow, and what they record is never revised. */
  ghost predicate Extends<T>(s: State<T>, s': State<T>)
  {
    && s.head <= s'.head && s.tail <= s'.tail
    && s.sent <= s'.sent && s.producers <= s'.producers && s.consumers <= s'.consumers
    && s.published <= s'.published && s.destroyed <= s'.destroyed
    && s.received.Keys <= s'.received.Keys
    && forall k :: k in s.received ==> s'.received[k] == s.received[k]
  }

  lemma StepExtends<T>(s: State<T>, step: Step<T>)
    requires Shape(s) && Enabled(s, step)
    requires step.Advance? ==> ThreadOk(s, step.tid) && TicketOk(s, s.threads[step.tid].ticket)
    ensures Extends(s, Next(s, step))
  {
  }

  lemma {:induction false} RunExtends<T>(capacity: nat, run: seq<State<T>>, steps: seq<Step<T>>, i: nat, j: nat)
    requires IsRun(capacity, run, steps) && i <= j < |run|
    ensures Extends(run[i], run[j])
    decreases j - i
  {
    if i < j {
      RunExtends(capacity, run, steps, i, j - 1);
      RunInv(capacity, run, steps, j - 1);
      assert StepAt(run, steps, j - 1);
      StepExtends(run[j - 1], steps[j - 1]);
    }
  }

  // ---------------------------------------------------------------- FIFO matching

  /**
   The consumer of ticket k receives exactly what the producer of ticket k sent: whatever is
   received at any time is what stands at position k of the sequence of sends at every later time.
   */
  lemma FifoMatching<T>(capacity: nat, run: seq<State<T>>, steps: seq<Step<T>>, i: nat, j: nat, k: nat)
    requires IsRun(capacity, run, steps) && i <= j < |run|
    requires k in run[i].received
    ensures k < run[i].tail && k in run[i].published && k < |run[i].sent| <= |run[j].sent|
    ensures k in run[j].received
    ensures run[j].received[k] == run[i].received[k] == run[i].sent[k] == run[j].sent[k]
  {
    RunInv(capacity, run, steps, i);
    RunExtends(capacity, run, steps, i, j);
    assert TicketOk(run[i], k);
  }

  /** Between calls nothing is lost: the values received are precisely the first `tail` values sent. */
  lemma QuiescentContents<T>(s: State<T>)
    requires Inv(s) && s.threads == map[]
    ensures s.tail <= s.head
    ensures forall k: nat :: k in s.published <==> k < s.head
    ensures forall k: nat :: k in s.received <==> k < s.tail
    ensures forall k: nat :: k in s.destroyed <==> k < s.tail
    ensures forall k: nat :: k < s.tail ==> k in s.received && s.received[k] == s.sent[k]
  {
    forall k: nat
      ensures k in s.published <==> k < s.head
      ensures k in s.received <==> k < s.tail
      ensures k in s.destroyed <==> k < s.tail
      ensures k in s.received ==> k < s.head && s.received[k] == s.sent[k]
    {
      assert TicketOk(s, k);
      assert !HasProducer(s, k) && !HasConsumer(s, k);
    }
    assert s.tail > 0 ==> s.tail - 1 in s.received;
  }

  // ---------------------------------------------------------------- where a value is

  /** Its producer has yet to publish it. */
  ghost predicate WithProducer<T>(s: State<T>, k: nat)
    requires k < |s.sent|
  {
    HasProducer(s, k) && s.threads[s.producers[k]].arg == s.sent[k]
  }

  ghost predicate InSlot<T>(s: State<T>, k: nat)
    requires k < |s.sent| && s.slots != []
  {
    SlotOf(s, k) == Slot(ReleaseTurn(|s.slots|, k), Live(s.sent[k]))
  }

  /** Its consumer has moved it out and has yet to return. */
  ghost predicate WithConsumer<T>(s: State<T>, k: nat)
    requires k < |s.sent|
  {
    HasConsumer(s, k)
    && var l := s.threads[s.consumers[k]]; l.cpc in {Destruct, Vacate} && l.got == Some(s.sent[k])
  }

  ghost predicate Delivered<T>(s: State<T>, k: nat)
    requires k < |s.sent|
  {
    k in s.received && s.received[k] == s.sent[k]
  }

  /** What the invariant says of one ticket and the threads that hold it. */
  ghost predicate AllOk<T>(s: State<T>, k: nat)
  {
    && Shape(s) && TicketOk(s, k) && CellOk(s, k)
    && (HasProducer(s, k) ==> ThreadOk(s, s.producers[k]))
    && (HasConsumer(s, k) ==> ThreadOk(s, s.consumers[k]))
  }

  lemma Unpublished<T>(s: State<T>, k: nat)
    requires AllOk(s, k) && k < s.head && !ProducerDone(s, k)
    ensures WithProducer(s, k) && !InSlot(s, k) && !WithConsumer(s, k) && !Delivered(s, k)
  {
  }

  lemma Published<T>(s: State<T>, k: nat)
    requires AllOk(s, k) && k < s.head && ProducerDone(s, k) && !ConsumerDone(s, k)
    ensures !WithProducer(s, k) && !Delivered(s, k) && (InSlot(s, k) <==> !WithConsumer(s, k))
  {
    assert SlotOf(s, k).sequence == ReleaseTurn(|s.slots|, k);
  }

  lemma Consumed<T>(s: State<T>, k: nat)
    requires AllOk(s, k) && k < s.head && ConsumerDone(s, k)
    ensures !WithProducer(s, k) && !InSlot(s, k) && !WithConsumer(s, k) && Delivered(s, k)
  {
    assert ProducerDone(s, k);
  }

  /**
   Nothing is lost or duplicated at any instant: every value sent is still with its producer, live
   in its slot, with its consumer, or received, and in one of these only.
   */
  lemma EveryValueInOnePlace<T>(s: State<T>, k: nat)
    requires Inv(s) && k < s.head
    ensures WithProducer(s, k) || InSlot(s, k) || WithConsumer(s, k) || Delivered(s, k)
    ensures WithProducer(s, k) ==> !InSlot(s, k) && !WithConsumer(s, k) && !Delivered(s, k)
    ensures InSlot(s, k) ==> !WithConsumer(s, k) && !Delivered(s, k)
    ensures WithConsumer(s, k) ==> !Delivered(s, k)
  {
    assert AllOk(s, k);
    if !ProducerDone(s, k) {
      Unpublished(s, k);
    } else if !ConsumerDone(s, k) {
      Published(s, k);
    } else {
      Consumed(s, k);
    }
  }

  // ---------------------------------------------------------------- slot exclusion and lifetime

  /** Between the turn check (or the winning compare-exchange) and the sequence store. */
  ghost predicate Critical<T>(l: Local<T>)
  {
    (l.Producer? && l.ppc != AwaitAcquire) || (l.Consumer? && l.cpc != AwaitRelease)
  }

  lemma SlotExclusion<T>(s: State<T>, t: Tid, u: Tid)
    requires Inv(s) && t in s.threads && u in s.threads
    requires Critical(s.threads[t]) && Critical(s.threads[u])
    requires Idx(|s.slots|, s.threads[t].ticket) == Idx(|s.slots|, s.threads[u].ticket)
    ensures t == u
  {
    assert ThreadOk(s, t) && ThreadOk(s, u);
    SameTurn(|s.slots|, s.threads[t].ticket, s.threads[u].ticket);
  }

  /**
   Object lifetime: a constructor runs only on raw storage, a move reads only the live object its
   own ticket's producer built, and a destructor runs only on that object, once moved from and
   not yet destroyed.
   */
  lemma ObjectLifetime<T>(s: State<T>, t: Tid)
    requires Inv(s) && t in s.threads
    ensures var l := s.threads[t]; var cell := SlotOf(s, l.ticket).cell;
      && (l.Producer? && l.ppc == Construct ==> cell == Raw && l.arg == s.sent[l.ticket])
      && (l.Consumer? && l.cpc == Move ==> l.ticket < s.head && cell == Live(s.sent[l.ticket]))
      && (l.Consumer? && l.cpc == Destruct ==>
          cell == MovedFrom && l.ticket !in s.destroyed && l.ticket < s.head && l.got == Some(s.sent[l.ticket]))
  {
    var l := s.threads[t];
    assert ThreadOk(s, t) && TicketOk(s, l.ticket) && CellOk(s, l.ticket);
  }

  /** The ticket whose turn a slot's sequence stands at. */
  function TicketAt(n: nat, i: nat, sequence: nat): (k: nat)
    requires i < n
    ensures Idx(n, k) == i && Turn(n, k) == sequence / 2
  {
    DivModUnique(n, n * (sequence / 2) + i, sequence / 2, i);
    n * (sequence / 2) + i
  }

  /** Between calls a slot holds a live object exactly when its sequence is odd, and raw storage otherwise. */
  lemma QuiescentSlots<T>(s: State<T>, i: nat)
    requires Inv(s) && s.threads == map[] && i < |s.slots|
    ensures s.slots[i].sequence % 2 == 0 ==> s.slots[i].cell == Raw
    ensures s.slots[i].sequence % 2 == 1 ==>
              var k := TicketAt(|s.slots|, i, s.slots[i].sequence);
              && s.tail <= k < s.head && s.slots[i].cell == Live(s.sent[k])
  {
    var k := TicketAt(|s.slots|, i, s.slots[i].sequence);
    assert TicketOk(s, k) && CellOk(s, k);
    assert !HasProducer(s, k) && !HasConsumer(s, k);
    assert SlotOf(s, k) == s.slots[i];
    QuiescentContents(s);
  }

  /** And every value sent but not received has such a slot. */
  lemma QuiescentLive<T>(s: State<T>, k: nat)
    requires Inv(s) && s.threads == map[] && s.tail <= k < s.head
    ensures SlotOf(s, k).sequence == ReleaseTurn(|s.slots|, k)
    ensures SlotOf(s, k).cell == Live(s.sent[k])
  {
    QuiescentContents(s);
    assert TicketOk(s, k) && CellOk(s, k);
    assert !HasProducer(s, k) && !HasConsumer(s, k);
  }

  // ---------------------------------------------------------------- deadlock freedom

  ghost predicate ProducerOutstanding<T>(s: State<T>, k: nat)
    requires Inv(s)
  {
    k < s.head && !ProducerDone(s, k)
  }

  ghost predicate ConsumerOutstanding<T>(s: State<T>, k: nat)
    requires Inv(s)
  {
    k < s.tail && !ConsumerDone(s, k)
  }

  /** A producer's slot is at its turn as soon as the consumer one lap earlier has vacated it. */
  lemma ProducerEnabled<T>(s: State<T>, p: nat)
    requires Inv(s) && !ProducerDone(s, p)
    ensures SlotOf(s, p).sequence == AcquireTurn(|s.slots|, p) <==>
            p < |s.slots| || ConsumerDone(s, p - |s.slots|)
  {
    var n := |s.slots|;
    if p < n {
      assert Turn(n, p) == 0;
    } else {
      NextLap(n, p - n);
    }
  }

  lemma ConsumerEnabled<T>(s: State<T>, c: nat)
    requires Inv(s) && !ConsumerDone(s, c)
    ensures SlotOf(s, c).sequence == ReleaseTurn(|s.slots|, c) <==> ProducerDone(s, c)
  {
  }

  /** Of the smallest outstanding producer and the smallest outstanding consumer, one has its turn. */
  lemma LeastTicketEnabled<T>(s: State<T>, p: nat, c: nat)
    requires Inv(s) && ProducerOutstanding(s, p) && ConsumerOutstanding(s, c)
    requires forall k: nat :: k < p ==> !ProducerOutstanding(s, k)
    requires forall k: nat :: k < c ==> !ConsumerOutstanding(s, k)
    ensures SlotOf(s, p).sequence == AcquireTurn(|s.slots|, p) || SlotOf(s, c).sequence == ReleaseTurn(|s.slots|, c)
  {
    ProducerEnabled(s, p);
    ConsumerEnabled(s, c);
    if c < p {
      assert !ProducerOutstanding(s, c);
    } else if p >= |s.slots| {
      assert !ConsumerOutstanding(s, p - |s.slots|);
    }
  }

  lemma {:induction false} LeastProducer<T>(s: State<T>, k: nat) returns (p: nat)
    requires Inv(s) && ProducerOutstanding(s, k)
    ensures p <= k && ProducerOutstanding(s, p) && forall j: nat :: j < p ==> !ProducerOutstanding(s, j)
  {
    p := k;
    if j: nat :| j < k && ProducerOutstanding(s, j) { p := LeastProducer(s, j); }
  }

  lemma {:induction false} LeastConsumer<T>(s: State<T>, k: nat) returns (c: nat)
    requires Inv(s) && ConsumerOutstanding(s, k)
    ensures c <= k && ConsumerOutstanding(s, c) && forall j: nat :: j < c ==> !ConsumerOutstanding(s, j)
  {
    c := k;
    if j: nat :| j < k && ConsumerOutstanding(s, j) { c := LeastConsumer(s, j); }
  }

  /** A thread that can only go round its spin loop. */
  ghost predicate Spins<T>(s: State<T>, t: Tid)
    requires s.slots != [] && t in s.threads
  {
    var l := s.threads[t];
    || (l.Producer? && l.ppc == AwaitAcquire && SlotOf(s, l.ticket).sequence != AcquireTurn(|s.slots|, l.ticket))
    || (l.Consumer? && l.cpc == AwaitRelease && SlotOf(s, l.ticket).sequence != ReleaseTurn(|s.slots|, l.ticket))
  }

  /** The first `tail + capacity` values have been published and only the first `tail` consumed. */
  ghost predicate Full<T>(s: State<T>)
  {
    forall k: nat :: (k in s.published <==> k < s.tail + |s.slots|) && (k in s.received <==> k < s.tail)
  }

  /** Everything anyone sent has been published and consumed. */
  ghost predicate Empty<T>(s: State<T>)
  {
    forall k: nat :: (k in s.published <==> k < s.head) && (k in s.received <==> k < s.head)
  }

  /**
   If every thread in the queue spins, then all of them are producers and the queue is full, or
   all of them are consumers and it is empty.
   */
  lemma SpinOnlyWhenFullOrEmpty<T>(s: State<T>)
    requires Inv(s) && s.threads != map[]
    requires forall t :: t in s.threads ==> Spins(s, t)
    ensures || (Full(s) && forall t :: t in s.threads ==> s.threads[t].Producer?)
            || (Empty(s) && forall t :: t in s.threads ==> s.threads[t].Consumer?)
  {
    var t :| t in s.threads;
    assert ThreadOk(s, t) && TicketOk(s, s.threads[t].ticket) && Spins(s, t);
    if s.threads[t].Producer? {
      var p := LeastProducer(s, s.threads[t].ticket);
      assert TicketOk(s, p) && Spins(s, s.producers[p]);
      if u :| u in s.threads && !s.threads[u].Producer? {
        assert Spins(s, u) && ThreadOk(s, u) && TicketOk(s, s.threads[u].ticket);
        var c := LeastConsumer(s, s.threads[u].ticket);
        assert TicketOk(s, c) && Spins(s, s.consumers[c]);
        LeastTicketEnabled(s, p, c);
        assert false;
      }
      AllProducersSpin(s, p);
    } else {
      var c := LeastConsumer(s, s.threads[t].ticket);
      assert TicketOk(s, c) && Spins(s, s.consumers[c]);
      if u :| u in s.threads && !s.threads[u].Consumer? {
        assert Spins(s, u) && ThreadOk(s, u) && TicketOk(s, s.threads[u].ticket);
        var p := LeastProducer(s, s.threads[u].ticket);
        assert TicketOk(s, p) && Spins(s, s.producers[p]);
        LeastTicketEnabled(s, p, c);
        assert false;
      }
      AllConsumersSpin(s, c);
    }
  }

  lemma AllProducersSpin<T>(s: State<T>, p: nat)
    requires Inv(s) && forall t :: t in s.threads ==> s.threads[t].Producer? && Spins(s, t)
    requires ProducerOutstanding(s, p) && forall j: nat :: j < p ==> !ProducerOutstanding(s, j)
    requires SlotOf(s, p).sequence != AcquireTurn(|s.slots|, p)
    ensures Full(s)
  {
    var n := |s.slots|;
    ProducerEnabled(s, p);
    assert TicketOk(s, p - n) && !HasConsumer(s, p - n);
    forall k: nat ensures (k in s.published <==> k < s.tail + n) && (k in s.received <==> k < s.tail) {
      assert TicketOk(s, k) && !HasConsumer(s, k);
      if k < s.tail + n {
        assert !ProducerOutstanding(s, k);
      } else if ProducerDone(s, k) {
        NextLap(n, k - n);
        assert ConsumerDone(s, k - n) && TicketOk(s, k - n);
      }
    }
  }

  lemma AllConsumersSpin<T>(s: State<T>, c: nat)
    requires Inv(s) && forall t :: t in s.threads ==> s.threads[t].Consumer? && Spins(s, t)
    requires ConsumerOutstanding(s, c) && forall j: nat :: j < c ==> !ConsumerOutstanding(s, j)
    requires SlotOf(s, c).sequence != ReleaseTurn(|s.slots|, c)
    ensures Empty(s)
  {
    ConsumerEnabled(s, c);
    assert TicketOk(s, c) && !HasProducer(s, c);
    forall k: nat ensures (k in s.published <==> k < s.head) && (k in s.received <==> k < s.head) {
      assert TicketOk(s, k) && !HasProducer(s, k);
      if k < s.head { assert !ConsumerOutstanding(s, k); }
    }
  }

  // ---------------------------------------------------------------- honest failure

  /** Thread t makes one try_pop call: it begins at step i and returns false at step k. */
  ghost predicate TryPopFails<T>(capacity: nat, run: seq<State<T>>, steps: seq<Step<T>>, t: Tid, i: nat, k: nat)
  {
    && IsRun(capacity, run, steps) && i < k < |steps|
    && steps[i] == Begin(t, TryPop)
    && (forall m :: i < m <= k ==> t in run[m].threads && run[m].threads[t].TryConsumer?)
    && steps[k] == Advance(t) && t !in run[k + 1].threads
  }

  ghost predicate TryEmplaceFails<T>(capacity: nat, run: seq<State<T>>, steps: seq<Step<T>>,
                                     t: Tid, v: T, i: nat, k: nat)
  {
    && IsRun(capacity, run, steps) && i < k < |steps|
    && steps[i] == Begin(t, TryEmplace(v))
    && (forall m :: i < m <= k ==> t in run[m].threads && run[m].threads[t].TryProducer?)
    && steps[k] == Advance(t) && t !in run[k + 1].threads
  }

  lemma TryConsumerStep<T>(s: State<T>, step: Step<T>, t: Tid)
    requires Enabled(s, step) && t in s.threads && s.threads[t].TryConsumer?
    requires t in Next(s, step).threads && Next(s, step).threads[t].TryConsumer?
    requires Next(s, step).threads[t].pc == Reload
    ensures Next(s, step).threads[t].ticket == s.threads[t].ticket
    ensures || s.threads[t].pc == Reload
            || SlotOf(s, s.threads[t].ticket).sequence != ReleaseTurn(|s.slots|, s.threads[t].ticket)
  {
    if step.tid == t {
      assert Next(s, step) == AdvanceTryConsumer(s, t);
    }
  }

  lemma LookAtTail<T>(capacity: nat, run: seq<State<T>>, steps: seq<Step<T>>, t: Tid, j: nat)
    requires IsRun(capacity, run, steps) && j < |steps|
    requires t in run[j].threads && run[j].threads[t].TryConsumer?
    requires t in run[j + 1].threads && run[j + 1].threads[t].TryConsumer? && run[j + 1].threads[t].pc == Reload
    ensures run[j].slots != [] && |run[j].slots| == capacity
    ensures run[j + 1].threads[t].ticket == run[j].threads[t].ticket <= run[j].tail
    ensures || run[j].threads[t].pc == Reload
            || SlotOf(run[j], run[j].threads[t].ticket).sequence != ReleaseTurn(capacity, run[j].threads[t].ticket)
  {
    RunStep(capacity, run, steps, j);
    TryConsumerStep(run[j], steps[j], t);
    RunThreadOk(capacity, run, steps, j, t);
  }

  lemma FirstLookAtTail<T>(capacity: nat, run: seq<State<T>>, steps: seq<Step<T>>, t: Tid, i: nat, k: nat)
    requires TryPopFails(capacity, run, steps, t, i, k)
    ensures run[i + 1].threads[t].pc == Check
  {
    RunStep(capacity, run, steps, i);
  }

  /** A reload is always preceded, within the call, by a failed look at the slot of the ticket held. */
  lemma {:induction false} FailedLookAtTail<T>(capacity: nat, run: seq<State<T>>, steps: seq<Step<T>>,
                                               t: Tid, i: nat, k: nat, m: nat)
    returns (j: nat)
    requires TryPopFails(capacity, run, steps, t, i, k) && i < m <= k
    requires run[m].threads[t].pc == Reload
    ensures i < j < m && run[j].slots != [] && |run[j].slots| == capacity
    ensures run[m].threads[t].ticket <= run[j].tail
    ensures SlotOf(run[j], run[m].threads[t].ticket).sequence != ReleaseTurn(capacity, run[m].threads[t].ticket)
  {
    FirstLookAtTail(capacity, run, steps, t, i, k);
    LookAtTail(capacity, run, steps, t, m - 1);
    if run[m - 1].threads[t].pc == Reload {
      j := FailedLookAtTail(capacity, run, steps, t, i, k, m - 1);
    } else {
      j := m - 1;
    }
  }

  /**
   try_pop returns false only if, at some instant during the call, the element of the ticket at the
   tail had not been published.
   */
  lemma HonestTryPop<T>(capacity: nat, run: seq<State<T>>, steps: seq<Step<T>>, t: Tid, i: nat, k: nat) returns (j: nat)
    requires TryPopFails(capacity, run, steps, t, i, k)
    ensures i < j < k && run[j].tail !in run[j].published
  {
    assert StepAt(run, steps, k);
    assert run[k].threads[t].pc == Reload && run[k].threads[t].ticket == run[k].tail by {
      RunInv(capacity, run, steps, k);
    }
    j := FailedLookAtTail(capacity, run, steps, t, i, k, k);
    RunInv(capacity, run, steps, j);
    RunExtends(capacity, run, steps, j, k);
    var s := run[j];
    assert TicketOk(s, s.tail);
    ConsumerEnabled(s, s.tail);
  }

  lemma TryProducerStep<T>(s: State<T>, step: Step<T>, t: Tid)
    requires Enabled(s, step) && t in s.threads && s.threads[t].TryProducer?
    requires t in Next(s, step).threads && Next(s, step).threads[t].TryProducer?
    requires Next(s, step).threads[t].pc == Reload
    ensures Next(s, step).threads[t].ticket == s.threads[t].ticket
    ensures || s.threads[t].pc == Reload
            || SlotOf(s, s.threads[t].ticket).sequence != AcquireTurn(|s.slots|, s.threads[t].ticket)
  {
    if step.tid == t {
      assert Next(s, step) == AdvanceTryProducer(s, t);
    }
  }

  lemma LookAtHead<T>(capacity: nat, run: seq<State<T>>, steps: seq<Step<T>>, t: Tid, j: nat)
    requires IsRun(capacity, run, steps) && j < |steps|
    requires t in run[j].threads && run[j].threads[t].TryProducer?
    requires t in run[j + 1].threads && run[j + 1].threads[t].TryProducer? && run[j + 1].threads[t].pc == Reload
    ensures run[j].slots != [] && |run[j].slots| == capacity
    ensures run[j + 1].threads[t].ticket == run[j].threads[t].ticket <= run[j].head
    ensures || run[j].threads[t].pc == Reload
            || SlotOf(run[j], run[j].threads[t].ticket).sequence != AcquireTurn(capacity, run[j].threads[t].ticket)
  {
    RunStep(capacity, run, steps, j);
    TryProducerStep(run[j], steps[j], t);
    RunThreadOk(capacity, run, steps, j, t);
  }

  lemma FirstLookAtHead<T>(capacity: nat, run: seq<State<T>>, steps: seq<Step<T>>, t: Tid, v: T, i: nat, k: nat)
    requires TryEmplaceFails(capacity, run, steps, t, v, i, k)
    ensures run[i + 1].threads[t].pc == Check
  {
    RunStep(capacity, run, steps, i);
  }

  lemma {:induction false} FailedLookAtHead<T>(capacity: nat, run: seq<State<T>>, steps: seq<Step<T>>,
                                               t: Tid, v: T, i: nat, k: nat, m: nat)
    returns (j: nat)
    requires TryEmplaceFails(capacity, run, steps, t, v, i, k) && i < m <= k
    requires run[m].threads[t].pc == Reload
    ensures i < j < m && run[j].slots != [] && |run[j].slots| == capacity
    ensures run[m].threads[t].ticket <= run[j].head
    ensures SlotOf(run[j], run[m].threads[t].ticket).sequence != AcquireTurn(capacity, run[m].threads[t].ticket)
  {
    FirstLookAtHead(capacity, run, steps, t, v, i, k);
    LookAtHead(capacity, run, steps, t, m - 1);
    if run[m - 1].threads[t].pc == Reload {
      j := FailedLookAtHead(capacity, run, steps, t, v, i, k, m - 1);
    } else {
      j := m - 1;
    }
  }

  /**
   try_emplace returns false only if, at some instant during the call, the slot of the ticket at the
   head was still occupied: the consumer of the ticket one lap earlier had not vacated it.
   */
  lemma HonestTryEmplace<T>(capacity: nat, run: seq<State<T>>, steps: seq<Step<T>>,
                            t: Tid, v: T, i: nat, k: nat)
    returns (j: nat)
    requires TryEmplaceFails(capacity, run, steps, t, v, i, k)
    ensures i < j < k && run[j].head >= capacity && run[j].head - capacity !in run[j].received
  {
    assert StepAt(run, steps, k);
    assert run[k].threads[t].pc == Reload && run[k].threads[t].ticket == run[k].head by {
      RunInv(capacity, run, steps, k);
    }
    j := FailedLookAtHead(capacity, run, steps, t, v, i, k, k);
    RunInv(capacity, run, steps, j);
    RunExtends(capacity, run, steps, j, k);
    var s := run[j];
    assert TicketOk(s, s.head);
    ProducerEnabled(s, s.head);
    assert TicketOk(s, s.head - capacity);
  }

  // ---------------------------------------------------------------- progress of the try_ loops

  ghost predicate InTryPop<T>(s: State<T>, t: Tid)
  {
    t in s.threads && s.threads[t].TryConsumer?
  }

  ghost predicate InTryEmplace<T>(s: State<T>, t: Tid)
  {
    t in s.threads && s.threads[t].TryProducer?
  }

  lemma TryPopStep<T>(s: State<T>, step: Step<T>, t: Tid)
    requires Shape(s) && Enabled(s, step) && InTryPop(s, t) && ThreadOk(s, t) && InTryPop(Next(s, step), t)
    ensures step.tid != t ==> Next(s, step).threads[t] == s.threads[t]
    ensures step.tid == t ==>
              if Next(s, step).threads[t].pc == Check then Next(s, step).threads[t].ticket > s.threads[t].ticket
              else Next(s, step).threads[t].ticket == s.threads[t].ticket
  {
    if step.tid == t { assert Next(s, step) == AdvanceTryConsumer(s, t); }
  }

  lemma TryEmplaceStep<T>(s: State<T>, step: Step<T>, t: Tid)
    requires Shape(s) && Enabled(s, step) && InTryEmplace(s, t) && ThreadOk(s, t) && InTryEmplace(Next(s, step), t)
    ensures step.tid != t ==> Next(s, step).threads[t] == s.threads[t]
    ensures step.tid == t ==>
              if Next(s, step).threads[t].pc == Check then Next(s, step).threads[t].ticket > s.threads[t].ticket
              else Next(s, step).threads[t].ticket == s.threads[t].ticket
  {
    if step.tid == t { assert Next(s, step) == AdvanceTryProducer(s, t); }
  }

  /**
   Every further turn of the try_pop loop looks at a later ticket: the one looked at before has
   been drawn by another consumer.
   */
  lemma {:induction false} TryPopTurnIsProgress<T>(capacity: nat, run: seq<State<T>>, steps: seq<Step<T>>,
                                                   t: Tid, i: nat, k: nat)
    requires IsRun(capacity, run, steps) && i < k < |run| && steps[i] == Advance(t)
    requires forall j: nat :: i <= j <= k ==> InTryPop(run[j], t)
    requires InTryPop(run[i], t) && InTryPop(run[k], t) && run[i].threads[t].pc == Check
    ensures run[i].threads[t].ticket <= run[k].threads[t].ticket <= run[k].tail
    ensures run[k].threads[t].pc == Check ==> run[i].threads[t].ticket < run[k].threads[t].ticket
    decreases k
  {
    RunThreadOk(capacity, run, steps, k, t);
    RunThreadOk(capacity, run, steps, k - 1, t);
    RunStep(capacity, run, steps, k - 1);
    TryPopStep(run[k - 1], steps[k - 1], t);
    if i < k - 1 { TryPopTurnIsProgress(capacity, run, steps, t, i, k - 1); }
  }

  lemma {:induction false} TryEmplaceTurnIsProgress<T>(capacity: nat, run: seq<State<T>>, steps: seq<Step<T>>,
                                                       t: Tid, i: nat, k: nat)
    requires IsRun(capacity, run, steps) && i < k < |run| && steps[i] == Advance(t)
    requires forall j: nat :: i <= j <= k ==> InTryEmplace(run[j], t)
    requires InTryEmplace(run[i], t) && InTryEmplace(run[k], t) && run[i].threads[t].pc == Check
    ensures run[i].threads[t].ticket <= run[k].threads[t].ticket <= run[k].head
    ensures run[k].threads[t].pc == Check ==> run[i].threads[t].ticket < run[k].threads[t].ticket
    decreases k
  {
    RunThreadOk(capacity, run, steps, k, t);
    RunThreadOk(capacity, run, steps, k - 1, t);
    RunStep(capacity, run, steps, k - 1);
    TryEmplaceStep(run[k - 1], steps[k - 1], t);
    if i < k - 1 { TryEmplaceTurnIsProgress(capacity, run, steps, t, i, k - 1); }
  }
}
