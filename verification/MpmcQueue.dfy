/**
 The bounded multi-producer multi-consumer queue of include/ptl/mpmc_queue.hpp, as an
 interleaved system. Every atomic load, store, fetch-add and compare-exchange, and every
 construct, move and destruct of a slot's object, is one step of one thread.

 Tickets are unbounded naturals, memory is sequentially consistent, the capacity is positive.
 */
module MpmcQueue {
  import opened Wrappers

  type Tid = nat

  // ---------------------------------------------------------------- ticket arithmetic

  function Idx(capacity: nat, ticket: nat): nat
    requires capacity > 0
  {
    ticket % capacity
  }

  function Turn(capacity: nat, ticket: nat): nat
    requires capacity > 0
  {
    ticket / capacity
  }

  function AcquireTurn(capacity: nat, ticket: nat): nat
    requires capacity > 0
  {
    2 * Turn(capacity, ticket)
  }

  function ReleaseTurn(capacity: nat, ticket: nat): nat
    requires capacity > 0
  {
    2 * Turn(capacity, ticket) + 1
  }

  // ---------------------------------------------------------------- state

  /** The storage of a slot: raw, holding a live object, or holding a moved-from object. */
  datatype Cell<+T> = Raw | Live(value: T) | MovedFrom

  datatype Slot<+T> = Slot(sequence: nat, cell: Cell<T>)

  /** Where a thread stands between the ticket draw and the sequence store. */
  datatype ProducerPc = AwaitAcquire | Construct | Publish
  datatype ConsumerPc = AwaitRelease | Move | Destruct | Vacate
  /** Where a try_ call stands before it owns a ticket. */
  datatype TryPc = Check | Cas | Reload

  datatype Local<+T> =
    | Producer(ppc: ProducerPc, ticket: nat, arg: T)
    | Consumer(cpc: ConsumerPc, ticket: nat, got: Option<T>)
    | TryProducer(pc: TryPc, ticket: nat, arg: T)
    | TryConsumer(pc: TryPc, ticket: nat)

  /**
   The shared memory, the threads that are inside a call, and a history: which thread drew each
   ticket, the argument sent under each producer ticket, the tickets whose element has been
   published, the value handed to the caller under each consumer ticket, and the tickets whose
   element has been destroyed.
   */
  datatype State<T> = State(
    head: nat, tail: nat, slots: seq<Slot<T>>, threads: map<Tid, Local<T>>,
    producers: seq<Tid>, consumers: seq<Tid>, sent: seq<T>,
    published: set<nat>, received: map<nat, T>, destroyed: set<nat>)

  datatype Op<+T> = Emplace(value: T) | TryEmplace(value: T) | Pop | TryPop

  datatype Step<+T> = Begin(tid: Tid, op: Op<T>) | Advance(tid: Tid)

  function Init<T>(capacity: nat): State<T>
  {
    State(0, 0, seq(capacity, _ => Slot(0, Raw)), map[], [], [], [], {}, map[], {})
  }

  // ---------------------------------------------------------------- steps

  function SlotOf<T>(s: State<T>, ticket: nat): Slot<T>
    requires s.slots != []
  {
    s.slots[Idx(|s.slots|, ticket)]
  }

  function SetSlot<T>(s: State<T>, ticket: nat, slot: Slot<T>): State<T>
    requires s.slots != []
  {
    s.(slots := s.slots[Idx(|s.slots|, ticket) := slot])
  }

  function Goto<T>(s: State<T>, tid: Tid, l: Local<T>): State<T>
  {
    s.(threads := s.threads[tid := l])
  }

  function Return<T>(s: State<T>, tid: Tid): State<T>
  {
    s.(threads := s.threads - {tid})
  }

  function DrawHead<T>(s: State<T>, tid: Tid, pc: ProducerPc, v: T): State<T>
  {
    Goto(s.(head := s.head + 1, producers := s.producers + [tid], sent := s.sent + [v]), tid, Producer(pc, s.head, v))
  }

  function DrawTail<T>(s: State<T>, tid: Tid, pc: ConsumerPc): State<T>
  {
    Goto(s.(tail := s.tail + 1, consumers := s.consumers + [tid]), tid, Consumer(pc, s.tail, None))
  }

  function BeginOp<T>(s: State<T>, tid: Tid, op: Op<T>): State<T>
  {
    match op
    case Emplace(v) => DrawHead(s, tid, AwaitAcquire, v)
    case TryEmplace(v) => Goto(s, tid, TryProducer(Check, s.head, v))
    case Pop => DrawTail(s, tid, AwaitRelease)
    case TryPop => Goto(s, tid, TryConsumer(Check, s.tail))
  }

  function AdvanceProducer<T>(s: State<T>, tid: Tid): State<T>
    requires s.slots != [] && tid in s.threads && s.threads[tid].Producer?
  {
    var l := s.threads[tid];
    var slot := SlotOf(s, l.ticket);
    match l.ppc
    case AwaitAcquire =>
      if slot.sequence == AcquireTurn(|s.slots|, l.ticket) then Goto(s, tid, l.(ppc := Construct)) else s
    case Construct =>
      Goto(SetSlot(s, l.ticket, slot.(cell := Live(l.arg))), tid, l.(ppc := Publish))
    case Publish =>
      Return(SetSlot(s, l.ticket, slot.(sequence := ReleaseTurn(|s.slots|, l.ticket)))
             .(published := s.published + {l.ticket}), tid)
  }

  /** A moved-from or raw cell has no value to hand out; the invariant shows `Move` never meets one. */
  function Taken<T>(c: Cell<T>): Option<T>
  {
    if c.Live? then Some(c.value) else None
  }

  function AdvanceConsumer<T>(s: State<T>, tid: Tid): State<T>
    requires s.slots != [] && tid in s.threads && s.threads[tid].Consumer?
  {
    var l := s.threads[tid];
    var slot := SlotOf(s, l.ticket);
    match l.cpc
    case AwaitRelease =>
      if slot.sequence == ReleaseTurn(|s.slots|, l.ticket) then Goto(s, tid, l.(cpc := Move)) else s
    case Move =>
      Goto(SetSlot(s, l.ticket, slot.(cell := MovedFrom)), tid, l.(cpc := Destruct, got := Taken(slot.cell)))
    case Destruct =>
      Goto(SetSlot(s, l.ticket, slot.(cell := Raw)).(destroyed := s.destroyed + {l.ticket}), tid, l.(cpc := Vacate))
    case Vacate =>
      Return(SetSlot(s, l.ticket, slot.(sequence := ReleaseTurn(|s.slots|, l.ticket) + 1))
             .(received := if l.got.Some? then s.received[l.ticket := l.got.value] else s.received), tid)
  }

  function AdvanceTryProducer<T>(s: State<T>, tid: Tid): State<T>
    requires s.slots != [] && tid in s.threads && s.threads[tid].TryProducer?
  {
    var l := s.threads[tid];
    match l.pc
    case Check =>
      if SlotOf(s, l.ticket).sequence == AcquireTurn(|s.slots|, l.ticket)
      then Goto(s, tid, l.(pc := Cas)) else Goto(s, tid, l.(pc := Reload))
    case Cas =>
      if s.head == l.ticket then DrawHead(s, tid, Construct, l.arg)
      else Goto(s, tid, l.(pc := Check, ticket := s.head))
    case Reload =>
      if s.head == l.ticket then Return(s, tid) else Goto(s, tid, l.(pc := Check, ticket := s.head))
  }

  function AdvanceTryConsumer<T>(s: State<T>, tid: Tid): State<T>
    requires s.slots != [] && tid in s.threads && s.threads[tid].TryConsumer?
  {
    var l := s.threads[tid];
    match l.pc
    case Check =>
      if SlotOf(s, l.ticket).sequence == ReleaseTurn(|s.slots|, l.ticket)
      then Goto(s, tid, TryConsumer(Cas, l.ticket)) else Goto(s, tid, TryConsumer(Reload, l.ticket))
    case Cas =>
      if s.tail == l.ticket then DrawTail(s, tid, Move)
      else Goto(s, tid, TryConsumer(Check, s.tail))
    case Reload =>
      if s.tail == l.ticket then Return(s, tid) else Goto(s, tid, TryConsumer(Check, s.tail))
  }

  predicate Enabled<T>(s: State<T>, step: Step<T>)
  {
    && s.slots != []
    && (step.Begin? <==> step.tid !in s.threads)
  }

  function Next<T>(s: State<T>, step: Step<T>): State<T>
    requires Enabled(s, step)
  {
    match step
    case Begin(tid, op) => BeginOp(s, tid, op)
    case Advance(tid) =>
      match s.threads[tid]
      case Producer(_, _, _) => AdvanceProducer(s, tid)
      case Consumer(_, _, _) => AdvanceConsumer(s, tid)
      case TryProducer(_, _, _) => AdvanceTryProducer(s, tid)
      case TryConsumer(_, _) => AdvanceTryConsumer(s, tid)
  }

  /** A run: the states visited from the empty queue, any threads taking any enabled steps. */
  ghost predicate IsRun<T>(capacity: nat, run: seq<State<T>>, steps: seq<Step<T>>)
  {
    && capacity > 0
    && |run| == |steps| + 1
    && run[0] == Init(capacity)
    && forall i: nat :: i < |steps| ==> StepAt(run, steps, i)
  }

  ghost predicate StepAt<T>(run: seq<State<T>>, steps: seq<Step<T>>, i: nat)
    requires i < |steps| < |run|
  {
    Enabled(run[i], steps[i]) && run[i + 1] == Next(run[i], steps[i])
  }

  // ---------------------------------------------------------------- invariant

  /** The producer of this ticket has stored its release turn, in this lap or an earlier one. */
  ghost predicate ProducerDone<T>(s: State<T>, ticket: nat)
    requires s.slots != []
  {
    SlotOf(s, ticket).sequence > AcquireTurn(|s.slots|, ticket)
  }

  ghost predicate ConsumerDone<T>(s: State<T>, ticket: nat)
    requires s.slots != []
  {
    SlotOf(s, ticket).sequence > ReleaseTurn(|s.slots|, ticket)
  }

  ghost predicate HasProducer<T>(s: State<T>, ticket: nat)
  {
    && ticket < |s.producers|
    && var t := s.producers[ticket];
      t in s.threads && s.threads[t].Producer? && s.threads[t].ticket == ticket
  }

  ghost predicate HasConsumer<T>(s: State<T>, ticket: nat)
  {
    && ticket < |s.consumers|
    && var t := s.consumers[ticket];
      t in s.threads && s.threads[t].Consumer? && s.threads[t].ticket == ticket
  }

  /** Every drawn ticket is finished or held by exactly the thread that drew it; no other ticket is. */
  ghost predicate TicketOk<T>(s: State<T>, k: nat)
    requires s.slots != []
  {
    && (ProducerDone(s, k) ==> k < s.head)
    && (ConsumerDone(s, k) ==> k < s.tail)
    && (HasProducer(s, k) <==> k < s.head && !ProducerDone(s, k))
    && (HasConsumer(s, k) <==> k < s.tail && !ConsumerDone(s, k))
    && (k in s.published <==> ProducerDone(s, k))
    && (k in s.received <==> ConsumerDone(s, k))
    && (k in s.received && k < |s.sent| ==> s.received[k] == s.sent[k])
    && (k in s.destroyed <==>
        ConsumerDone(s, k) || (HasConsumer(s, k) && s.threads[s.consumers[k]].cpc == Vacate))
  }

  /** What the slot holds while its sequence is at a turn of ticket k. */
  ghost predicate CellOk<T>(s: State<T>, k: nat)
    requires s.slots != [] && |s.sent| == s.head
  {
    var slot := SlotOf(s, k);
    && (slot.sequence == AcquireTurn(|s.slots|, k) ==>
        if HasProducer(s, k) && s.threads[s.producers[k]].ppc == Publish
        then slot.cell == Live(s.threads[s.producers[k]].arg) else slot.cell == Raw)
    && (slot.sequence == ReleaseTurn(|s.slots|, k) ==>
        if HasConsumer(s, k) && s.threads[s.consumers[k]].cpc == Destruct then slot.cell == MovedFrom
        else if HasConsumer(s, k) && s.threads[s.consumers[k]].cpc == Vacate then slot.cell == Raw
        else k < s.head && slot.cell == Live(s.sent[k]))
  }

  ghost predicate ThreadOk<T>(s: State<T>, t: Tid)
    requires s.slots != [] && |s.sent| == s.head && t in s.threads
  {
    var l := s.threads[t];
    var sequence := SlotOf(s, l.ticket).sequence;
    match l
    case Producer(pc, k, v) =>
      && k < |s.producers| && s.producers[k] == t
      && k < s.head && v == s.sent[k]
      && (pc != AwaitAcquire ==> sequence == AcquireTurn(|s.slots|, k))
    case Consumer(pc, k, got) =>
      && k < |s.consumers| && s.consumers[k] == t
      && (pc != AwaitRelease ==> sequence == ReleaseTurn(|s.slots|, k) && k < s.head)
      && (pc == Destruct || pc == Vacate ==> got == Some(s.sent[k]))
    case TryProducer(pc, k, _) =>
      && k <= s.head
      && (pc == Cas && k == s.head ==> sequence == AcquireTurn(|s.slots|, k))
    case TryConsumer(pc, k) =>
      && k <= s.tail
      && (pc == Cas && k == s.tail ==> sequence == ReleaseTurn(|s.slots|, k))
  }

  ghost predicate Shape<T>(s: State<T>)
  {
    && s.slots != []
    && |s.sent| == |s.producers| == s.head
    && |s.consumers| == s.tail
  }

  ghost predicate Inv<T>(s: State<T>)
  {
    && Shape(s)
    && (forall k: nat :: TicketOk(s, k))
    && (forall k: nat :: CellOk(s, k))
    && (forall t :: t in s.threads ==> ThreadOk(s, t))
  }

  // ---------------------------------------------------------------- ticket arithmetic facts

  /** A ticket is determined by its slot and its lap. */
  lemma SameTurn(n: nat, j: nat, k: nat)
    requires n > 0
    ensures Idx(n, j) == Idx(n, k) && Turn(n, j) == Turn(n, k) <==> j == k
  {
  }

  /** The ticket one lap later uses the same slot and the next turn. */
  lemma NextLap(n: nat, k: nat)
    requires n > 0
    ensures Idx(n, k + n) == Idx(n, k) && Turn(n, k + n) == Turn(n, k) + 1
  {
    assert k == n * Turn(n, k) + Idx(n, k);
    assert k + n == n * (Turn(n, k) + 1) + Idx(n, k);
    DivModUnique(n, k + n, Turn(n, k) + 1, Idx(n, k));
  }

  lemma DivModUnique(n: nat, k: nat, q: nat, r: nat)
    requires r < n && k == n * q + r
    ensures k / n == q && k % n == r
  {
    var d := k / n - q;
    assert n * d == r - k % n;
    assert d > 0 ==> n * d >= n;
    assert d < 0 ==> n * d + n <= 0;
  }

  lemma {:induction false} InvInit<T>(capacity: nat)
    requires capacity > 0
    ensures Inv(Init<T>(capacity))
  {
    var s := Init<T>(capacity);
    forall k: nat ensures SlotOf(s, k) == Slot(0, Raw) {}
  }

  /** A thread that owns no ticket: outside every call, or in a try_ call that has not won its race. */
  ghost predicate Ticketless<T>(s: State<T>, t: Tid)
  {
    t in s.threads ==> s.threads[t].TryProducer? || s.threads[t].TryConsumer?
  }

  lemma InvTicketlessGoto<T>(s: State<T>, tid: Tid, l: Local<T>)
    requires Inv(s) && Ticketless(s, tid)
    requires l.TryProducer? || l.TryConsumer?
    requires ThreadOk(Goto(s, tid, l), tid)
    ensures Inv(Goto(s, tid, l))
  {
    var s' := Goto(s, tid, l);
    forall k: nat ensures TicketOk(s', k) { TicketlessFrame(s, s', tid, k); }
    forall k: nat ensures CellOk(s', k) { TicketlessFrame(s, s', tid, k); }
  }

  lemma InvTicketlessReturn<T>(s: State<T>, tid: Tid)
    requires Inv(s) && Ticketless(s, tid)
    ensures Inv(Return(s, tid))
  {
    var s' := Return(s, tid);
    forall k: nat ensures TicketOk(s', k) { TicketlessFrame(s, s', tid, k); }
    forall k: nat ensures CellOk(s', k) { TicketlessFrame(s, s', tid, k); }
  }

  lemma TicketlessFrame<T>(s: State<T>, s': State<T>, tid: Tid, k: nat)
    requires Inv(s) && s' == s.(threads := s'.threads)
    requires forall t :: t != tid ==>
               (t in s'.threads <==> t in s.threads) && (t in s.threads ==> s'.threads[t] == s.threads[t])
    requires Ticketless(s, tid) && Ticketless(s', tid)
    ensures TicketOk(s', k) && CellOk(s', k)
  {
    assert TicketOk(s, k) && CellOk(s, k);
    assert HasProducer(s', k) == HasProducer(s, k) && HasConsumer(s', k) == HasConsumer(s, k);
  }

  lemma InvDrawHead<T>(s: State<T>, tid: Tid, pc: ProducerPc, v: T)
    requires Inv(s) && Ticketless(s, tid)
    requires pc == AwaitAcquire || (pc == Construct && SlotOf(s, s.head).sequence == AcquireTurn(|s.slots|, s.head))
    ensures Inv(DrawHead(s, tid, pc, v))
  {
    var s' := DrawHead(s, tid, pc, v);
    forall k: nat ensures TicketOk(s', k) && CellOk(s', k) {
      assert TicketOk(s, k) && CellOk(s, k);
      assert SlotOf(s', k) == SlotOf(s, k);
      assert k != s.head ==> HasProducer(s', k) == HasProducer(s, k);
      assert HasConsumer(s', k) == HasConsumer(s, k);
    }
    forall t | t in s'.threads ensures ThreadOk(s', t) { if t != tid { assert ThreadOk(s, t); } }
  }

  lemma InvDrawTail<T>(s: State<T>, tid: Tid, pc: ConsumerPc)
    requires Inv(s) && Ticketless(s, tid)
    requires pc == AwaitRelease || (pc == Move && SlotOf(s, s.tail).sequence == ReleaseTurn(|s.slots|, s.tail))
    ensures Inv(DrawTail(s, tid, pc))
  {
    var s' := DrawTail(s, tid, pc);
    assert TicketOk(s, s.tail);
    forall k: nat ensures TicketOk(s', k) && CellOk(s', k) {
      assert TicketOk(s, k) && CellOk(s, k);
      assert SlotOf(s', k) == SlotOf(s, k);
      assert HasProducer(s', k) == HasProducer(s, k);
      assert k != s.tail ==> HasConsumer(s', k) == HasConsumer(s, k);
    }
    forall t | t in s'.threads ensures ThreadOk(s', t) { if t != tid { assert ThreadOk(s, t); } }
  }

  lemma InvBegin<T>(s: State<T>, tid: Tid, op: Op<T>)
    requires Inv(s) && tid !in s.threads
    ensures Inv(BeginOp(s, tid, op))
  {
    match op
    case Emplace(v) => InvDrawHead(s, tid, AwaitAcquire, v);
    case TryEmplace(v) => InvTicketlessGoto(s, tid, TryProducer(Check, s.head, v));
    case Pop => InvDrawTail(s, tid, AwaitRelease);
    case TryPop => InvTicketlessGoto(s, tid, TryConsumer(Check, s.tail));
  }

  lemma InvTryProducer<T>(s: State<T>, tid: Tid)
    requires Inv(s) && tid in s.threads && s.threads[tid].TryProducer?
    ensures Inv(AdvanceTryProducer(s, tid))
  {
    var l := s.threads[tid];
    assert ThreadOk(s, tid);
    if l.pc == Cas && s.head == l.ticket {
      InvDrawHead(s, tid, Construct, l.arg);
    } else if l.pc == Reload && s.head == l.ticket {
      InvTicketlessReturn(s, tid);
    } else {
      InvTicketlessGoto(s, tid, AdvanceTryProducer(s, tid).threads[tid]);
    }
  }

  lemma InvTryConsumer<T>(s: State<T>, tid: Tid)
    requires Inv(s) && tid in s.threads && s.threads[tid].TryConsumer?
    ensures Inv(AdvanceTryConsumer(s, tid))
  {
    var l := s.threads[tid];
    assert ThreadOk(s, tid);
    if l.pc == Cas && s.tail == l.ticket {
      InvDrawTail(s, tid, Move);
    } else if l.pc == Reload && s.tail == l.ticket {
      InvTicketlessReturn(s, tid);
    } else {
      InvTicketlessGoto(s, tid, AdvanceTryConsumer(s, tid).threads[tid]);
    }
  }

  /** What the steps of a ticket holder need to know about the holder and its ticket. */
  ghost predicate HolderOk<T>(s: State<T>, tid: Tid)
  {
    && Shape(s)
    && tid in s.threads && (s.threads[tid].Producer? || s.threads[tid].Consumer?)
    && ThreadOk(s, tid) && TicketOk(s, s.threads[tid].ticket)
  }

  /** And about any other ticket, to account for its cell. */
  ghost predicate TicketCellOk<T>(s: State<T>, k: nat)
    requires Shape(s)
  {
    && TicketOk(s, k) && CellOk(s, k)
    && (HasProducer(s, k) ==> ThreadOk(s, s.producers[k]))
    && (HasConsumer(s, k) ==> ThreadOk(s, s.consumers[k]))
  }

  lemma InvProducer<T>(s: State<T>, tid: Tid)
    requires Inv(s) && tid in s.threads && s.threads[tid].Producer?
    ensures Inv(AdvanceProducer(s, tid))
  {
    var s' := AdvanceProducer(s, tid);
    if s' != s {
      forall k: nat ensures TicketOk(s', k) {
        if k == s.threads[tid].ticket { ProducerOwnTicket(s, tid); } else { ProducerTicket(s, tid, k); }
      }
      forall k: nat ensures CellOk(s', k) { ProducerCell(s, tid, k); }
      forall t | t in s'.threads ensures ThreadOk(s', t) {
        if t == tid { ProducerSelf(s, tid); } else { ProducerOther(s, tid, t); }
      }
    }
  }

  lemma ProducerOwnTicket<T>(s: State<T>, tid: Tid)
    requires HolderOk(s, tid) && s.threads[tid].Producer? && TicketOk(s, s.threads[tid].ticket)
    ensures TicketOk(AdvanceProducer(s, tid), s.threads[tid].ticket)
  {
    assert HasConsumer(AdvanceProducer(s, tid), s.threads[tid].ticket) == HasConsumer(s, s.threads[tid].ticket);
  }

  lemma ProducerTicket<T>(s: State<T>, tid: Tid, k: nat)
    requires HolderOk(s, tid) && s.threads[tid].Producer? && TicketOk(s, k) && k != s.threads[tid].ticket
    ensures TicketOk(AdvanceProducer(s, tid), k)
  {
    var s' := AdvanceProducer(s, tid);
    assert HasConsumer(s', k) == HasConsumer(s, k);
    SameTurn(|s.slots|, k, s.threads[tid].ticket);
  }

  lemma ProducerCell<T>(s: State<T>, tid: Tid, k: nat)
    requires HolderOk(s, tid) && s.threads[tid].Producer? && CellOk(s, s.threads[tid].ticket) && TicketCellOk(s, k)
    ensures CellOk(AdvanceProducer(s, tid), k)
  {
    var s' := AdvanceProducer(s, tid);
    assert HasConsumer(s', k) == HasConsumer(s, k);
    SameTurn(|s.slots|, k, s.threads[tid].ticket);
  }

  lemma ProducerSelf<T>(s: State<T>, tid: Tid)
    requires HolderOk(s, tid) && s.threads[tid].Producer? && CellOk(s, s.threads[tid].ticket)
    requires tid in AdvanceProducer(s, tid).threads
    ensures ThreadOk(AdvanceProducer(s, tid), tid)
  {
  }

  lemma ProducerOther<T>(s: State<T>, tid: Tid, t: Tid)
    requires HolderOk(s, tid) && s.threads[tid].Producer?
    requires t != tid && t in s.threads && ThreadOk(s, t)
    ensures ThreadOk(AdvanceProducer(s, tid), t)
  {
    SameTurn(|s.slots|, s.threads[t].ticket, s.threads[tid].ticket);
  }

  lemma InvConsumer<T>(s: State<T>, tid: Tid)
    requires Inv(s) && tid in s.threads && s.threads[tid].Consumer?
    ensures Inv(AdvanceConsumer(s, tid))
  {
    var s' := AdvanceConsumer(s, tid);
    if s' != s {
      forall k: nat ensures TicketOk(s', k) {
        if k == s.threads[tid].ticket { ConsumerOwnTicket(s, tid); } else { ConsumerTicket(s, tid, k); }
      }
      forall k: nat ensures CellOk(s', k) { ConsumerCell(s, tid, k); }
      forall t | t in s'.threads ensures ThreadOk(s', t) {
        if t == tid { ConsumerSelf(s, tid); } else { ConsumerOther(s, tid, t); }
      }
    }
  }

  lemma ConsumerOwnTicket<T>(s: State<T>, tid: Tid)
    requires HolderOk(s, tid) && s.threads[tid].Consumer? && TicketOk(s, s.threads[tid].ticket)
    ensures TicketOk(AdvanceConsumer(s, tid), s.threads[tid].ticket)
  {
    assert HasProducer(AdvanceConsumer(s, tid), s.threads[tid].ticket) == HasProducer(s, s.threads[tid].ticket);
  }

  lemma ConsumerTicket<T>(s: State<T>, tid: Tid, k: nat)
    requires HolderOk(s, tid) && s.threads[tid].Consumer? && TicketOk(s, k) && k != s.threads[tid].ticket
    ensures TicketOk(AdvanceConsumer(s, tid), k)
  {
    var s' := AdvanceConsumer(s, tid);
    assert HasProducer(s', k) == HasProducer(s, k);
    SameTurn(|s.slots|, k, s.threads[tid].ticket);
  }

  lemma ConsumerCell<T>(s: State<T>, tid: Tid, k: nat)
    requires HolderOk(s, tid) && s.threads[tid].Consumer? && CellOk(s, s.threads[tid].ticket) && TicketCellOk(s, k)
    ensures CellOk(AdvanceConsumer(s, tid), k)
  {
    var s' := AdvanceConsumer(s, tid);
    assert HasProducer(s', k) == HasProducer(s, k);
    SameTurn(|s.slots|, k, s.threads[tid].ticket);
  }

  lemma ConsumerSelf<T>(s: State<T>, tid: Tid)
    requires HolderOk(s, tid) && s.threads[tid].Consumer? && CellOk(s, s.threads[tid].ticket)
    requires tid in AdvanceConsumer(s, tid).threads
    ensures ThreadOk(AdvanceConsumer(s, tid), tid)
  {
  }

  /** A slot keeps its sequence unless it is the slot of the thread's own ticket, at its release turn. */
  ghost predicate SequenceKept<T>(s: State<T>, s': State<T>, tid: Tid, k: nat)
    requires Shape(s) && |s'.slots| == |s.slots| && tid in s.threads
  {
    || SlotOf(s', k).sequence == SlotOf(s, k).sequence
    || (&& Idx(|s.slots|, k) == Idx(|s.slots|, s.threads[tid].ticket)
        && SlotOf(s, k).sequence == ReleaseTurn(|s.slots|, s.threads[tid].ticket))
  }

  lemma ConsumerSequence<T>(s: State<T>, tid: Tid, k: nat)
    requires HolderOk(s, tid) && s.threads[tid].Consumer?
    ensures SequenceKept(s, AdvanceConsumer(s, tid), tid, k)
  {
  }

  lemma KeptOther<T>(s: State<T>, s': State<T>, tid: Tid, t: Tid)
    requires HolderOk(s, tid) && s.threads[tid].Consumer? && t in s.threads && t != tid && ThreadOk(s, t)
    requires |s'.slots| == |s.slots| && t in s'.threads && s'.threads[t] == s.threads[t]
    requires s'.head == s.head && s'.tail == s.tail && s'.sent == s.sent
    requires s'.producers == s.producers && s'.consumers == s.consumers
    requires SequenceKept(s, s', tid, s.threads[t].ticket)
    ensures ThreadOk(s', t)
  {
    SameTurn(|s.slots|, s.threads[t].ticket, s.threads[tid].ticket);
  }

  lemma ConsumerOther<T>(s: State<T>, tid: Tid, t: Tid)
    requires HolderOk(s, tid) && s.threads[tid].Consumer?
    requires t != tid && t in s.threads && ThreadOk(s, t)
    ensures ThreadOk(AdvanceConsumer(s, tid), t)
  {
    ConsumerSequence(s, tid, s.threads[t].ticket);
    KeptOther(s, AdvanceConsumer(s, tid), tid, t);
  }

  lemma InvNext<T>(s: State<T>, step: Step<T>)
    requires Inv(s) && Enabled(s, step)
    ensures Inv(Next(s, step))
  {
    match step
    case Begin(tid, op) => InvBegin(s, tid, op);
    case Advance(tid) =>
      match s.threads[tid]
      case Producer(_, _, _) => InvProducer(s, tid);
      case Consumer(_, _, _) => InvConsumer(s, tid);
      case TryProducer(_, _, _) => InvTryProducer(s, tid);
      case TryConsumer(_, _) => InvTryConsumer(s, tid);
  }
}
