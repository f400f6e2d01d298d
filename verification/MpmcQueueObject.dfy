/**
 The queue object: the fields of include/ptl/mpmc_queue.hpp updated in place, one method for each
 atomic access or object operation, each tied to the step relation of MpmcQueue.
 */
module MpmcQueueObject {
  import opened Wrappers
  import opened MpmcQueue
  import opened MpmcQueueProperties

  class Queue<T> {
    var head: nat
    var tail: nat
    const slots: array<Slot<T>>

    /** The registers of the threads inside a call: program counter, ticket, argument or result. */
    var threads: map<Tid, Local<T>>

    ghost var producers: seq<Tid>
    ghost var consumers: seq<Tid>
    ghost var sent: seq<T>
    ghost var published: set<nat>
    ghost var received: map<nat, T>
    ghost var destroyed: set<nat>

    ghost function View(): State<T>
      reads this, slots
    {
      State(head, tail, slots[..], threads, producers, consumers, sent, published, received, destroyed)
    }

    ghost predicate Valid()
      reads this, slots
    {
      Inv(View())
    }

    ghost predicate ProducerAt(tid: Tid, pc: ProducerPc)
      reads this
    {
      tid in threads && threads[tid].Producer? && threads[tid].ppc == pc
    }

    ghost predicate ConsumerAt(tid: Tid, pc: ConsumerPc)
      reads this
    {
      tid in threads && threads[tid].Consumer? && threads[tid].cpc == pc
    }

    ghost predicate TryProducerAt(tid: Tid, pc: TryPc)
      reads this
    {
      tid in threads && threads[tid].TryProducer? && threads[tid].pc == pc
    }

    ghost predicate TryConsumerAt(tid: Tid, pc: TryPc)
      reads this
    {
      tid in threads && threads[tid].TryConsumer? && threads[tid].pc == pc
    }

    constructor (capacity: nat)
      requires capacity > 0
      ensures Valid() && View() == Init(capacity) && fresh(slots)
    {
      head, tail := 0, 0;
      slots := new Slot<T>[capacity](_ => Slot(0, Raw));
      threads := map[];
      producers, consumers, sent, published, received, destroyed := [], [], [], {}, map[], {};
      new;
      assert slots[..] == seq(capacity, _ => Slot(0, Raw));
      InvInit<T>(capacity);
    }

    // ---- emplace

    method FetchAddHead(tid: Tid, v: T)
      requires Valid() && tid !in threads
      modifies this
      ensures Valid() && View() == Next(old(View()), Begin(tid, Emplace(v)))
    {
      InvNext(View(), Begin(tid, Emplace(v)));
      threads := threads[tid := Producer(AwaitAcquire, head, v)];
      producers, sent := producers + [tid], sent + [v];
      head := head + 1;
    }

    method AcquireSpin(tid: Tid) returns (acquired: bool)
      requires Valid() && ProducerAt(tid, AwaitAcquire)
      modifies this
      ensures Valid() && View() == Next(old(View()), Advance(tid))
      ensures acquired <==> ProducerAt(tid, Construct)
    {
      InvNext(View(), Advance(tid));
      var l := threads[tid];
      acquired := slots[Idx(slots.Length, l.ticket)].sequence == AcquireTurn(slots.Length, l.ticket);
      if acquired {
        threads := threads[tid := l.(ppc := Construct)];
      }
    }

    method ConstructObject(tid: Tid)
      requires Valid() && ProducerAt(tid, Construct)
      modifies this, slots
      ensures Valid() && View() == Next(old(View()), Advance(tid))
    {
      InvNext(View(), Advance(tid));
      var l := threads[tid];
      var i := Idx(slots.Length, l.ticket);
      slots[i] := slots[i].(cell := Live(l.arg));
      threads := threads[tid := l.(ppc := Publish)];
    }

    method PublishSlot(tid: Tid)
      requires Valid() && ProducerAt(tid, Publish)
      modifies this, slots
      ensures Valid() && View() == Next(old(View()), Advance(tid))
    {
      InvNext(View(), Advance(tid));
      var l := threads[tid];
      var i := Idx(slots.Length, l.ticket);
      slots[i] := slots[i].(sequence := ReleaseTurn(slots.Length, l.ticket));
      published := published + {l.ticket};
      threads := threads - {tid};
    }

    // ---- try_emplace

    method LoadHead(tid: Tid, v: T)
      requires Valid() && tid !in threads
      modifies this
      ensures Valid() && View() == Next(old(View()), Begin(tid, TryEmplace(v)))
    {
      InvNext(View(), Begin(tid, TryEmplace(v)));
      threads := threads[tid := TryProducer(Check, head, v)];
    }

    method CheckHeadSlot(tid: Tid)
      requires Valid() && TryProducerAt(tid, Check)
      modifies this
      ensures Valid() && View() == Next(old(View()), Advance(tid))
    {
      InvNext(View(), Advance(tid));
      var l := threads[tid];
      if slots[Idx(slots.Length, l.ticket)].sequence == AcquireTurn(slots.Length, l.ticket) {
        threads := threads[tid := l.(pc := Cas)];
      } else {
        threads := threads[tid := l.(pc := Reload)];
      }
    }

    method CompareExchangeHead(tid: Tid) returns (won: bool)
      requires Valid() && TryProducerAt(tid, Cas)
      modifies this
      ensures Valid() && View() == Next(old(View()), Advance(tid))
      ensures won <==> ProducerAt(tid, Construct)
    {
      InvNext(View(), Advance(tid));
      var l := threads[tid];
      won := head == l.ticket;
      if won {
        threads := threads[tid := Producer(Construct, head, l.arg)];
        producers, sent := producers + [tid], sent + [l.arg];
        head := head + 1;
      } else {
        threads := threads[tid := l.(pc := Check, ticket := head)];
      }
    }

    method ReloadHead(tid: Tid) returns (failed: bool)
      requires Valid() && TryProducerAt(tid, Reload)
      modifies this
      ensures Valid() && View() == Next(old(View()), Advance(tid))
      ensures failed <==> tid !in threads
    {
      InvNext(View(), Advance(tid));
      var l := threads[tid];
      failed := head == l.ticket;
      if failed {
        threads := threads - {tid};
      } else {
        threads := threads[tid := l.(pc := Check, ticket := head)];
      }
    }

    // ---- pop

    method FetchAddTail(tid: Tid)
      requires Valid() && tid !in threads
      modifies this
      ensures Valid() && View() == Next(old(View()), Begin(tid, Pop))
    {
      InvNext(View(), Begin(tid, Pop));
      threads := threads[tid := Consumer(AwaitRelease, tail, None)];
      consumers := consumers + [tid];
      tail := tail + 1;
    }

    method ReleaseSpin(tid: Tid) returns (acquired: bool)
      requires Valid() && ConsumerAt(tid, AwaitRelease)
      modifies this
      ensures Valid() && View() == Next(old(View()), Advance(tid))
      ensures acquired <==> ConsumerAt(tid, Move)
    {
      InvNext(View(), Advance(tid));
      var l := threads[tid];
      acquired := slots[Idx(slots.Length, l.ticket)].sequence == ReleaseTurn(slots.Length, l.ticket);
      if acquired {
        threads := threads[tid := l.(cpc := Move)];
      }
    }

    method MoveOut(tid: Tid) returns (v: T)
      requires Valid() && ConsumerAt(tid, Move)
      modifies this, slots
      ensures Valid() && View() == Next(old(View()), Advance(tid))
      ensures var k := old(threads[tid].ticket); k < |sent| && v == sent[k]
    {
      InvNext(View(), Advance(tid));
      ObjectLifetime(View(), tid);
      var l := threads[tid];
      var i := Idx(slots.Length, l.ticket);
      v := slots[i].cell.value;
      slots[i] := slots[i].(cell := MovedFrom);
      threads := threads[tid := l.(cpc := Destruct, got := Some(v))];
    }

    method DestructObject(tid: Tid)
      requires Valid() && ConsumerAt(tid, Destruct)
      modifies this, slots
      ensures Valid() && View() == Next(old(View()), Advance(tid))
    {
      InvNext(View(), Advance(tid));
      ObjectLifetime(View(), tid);
      var l := threads[tid];
      var i := Idx(slots.Length, l.ticket);
      assert slots[i].cell == MovedFrom && l.ticket !in destroyed;
      slots[i] := slots[i].(cell := Raw);
      destroyed := destroyed + {l.ticket};
      threads := threads[tid := l.(cpc := Vacate)];
    }

    method VacateSlot(tid: Tid)
      requires Valid() && ConsumerAt(tid, Vacate)
      modifies this, slots
      ensures Valid() && View() == Next(old(View()), Advance(tid))
    {
      InvNext(View(), Advance(tid));
      assert ThreadOk(View(), tid);
      var l := threads[tid];
      var i := Idx(slots.Length, l.ticket);
      slots[i] := slots[i].(sequence := ReleaseTurn(slots.Length, l.ticket) + 1);
      received := received[l.ticket := l.got.value];
      threads := threads - {tid};
    }

    // ---- try_pop

    method LoadTail(tid: Tid)
      requires Valid() && tid !in threads
      modifies this
      ensures Valid() && View() == Next(old(View()), Begin(tid, TryPop))
    {
      InvNext(View(), Begin(tid, TryPop));
      threads := threads[tid := TryConsumer(Check, tail)];
    }

    method CheckTailSlot(tid: Tid)
      requires Valid() && TryConsumerAt(tid, Check)
      modifies this
      ensures Valid() && View() == Next(old(View()), Advance(tid))
    {
      InvNext(View(), Advance(tid));
      var l := threads[tid];
      if slots[Idx(slots.Length, l.ticket)].sequence == ReleaseTurn(slots.Length, l.ticket) {
        threads := threads[tid := TryConsumer(Cas, l.ticket)];
      } else {
        threads := threads[tid := TryConsumer(Reload, l.ticket)];
      }
    }

    method CompareExchangeTail(tid: Tid) returns (won: bool)
      requires Valid() && TryConsumerAt(tid, Cas)
      modifies this
      ensures Valid() && View() == Next(old(View()), Advance(tid))
      ensures won <==> ConsumerAt(tid, Move)
    {
      InvNext(View(), Advance(tid));
      var l := threads[tid];
      won := tail == l.ticket;
      if won {
        threads := threads[tid := Consumer(Move, tail, None)];
        consumers := consumers + [tid];
        tail := tail + 1;
      } else {
        threads := threads[tid := TryConsumer(Check, tail)];
      }
    }

    method ReloadTail(tid: Tid) returns (failed: bool)
      requires Valid() && TryConsumerAt(tid, Reload)
      modifies this
      ensures Valid() && View() == Next(old(View()), Advance(tid))
      ensures failed <==> tid !in threads
    {
      InvNext(View(), Advance(tid));
      var l := threads[tid];
      failed := tail == l.ticket;
      if failed {
        threads := threads - {tid};
      } else {
        threads := threads[tid := TryConsumer(Check, tail)];
      }
    }

    // ---- destruction of the slots

    /**
     The slot destructors, run when no thread is inside a call. `log` lists the tickets whose objects
     they destroy: with those destroyed by pops, every value ever sent, each exactly once.
     */
    method DestroySlots() returns (ghost log: seq<nat>)
      requires Valid() && threads == map[]
      modifies slots, this`destroyed
      ensures forall i :: 0 <= i < slots.Length ==> slots[i].cell == Raw
      ensures forall a, b :: 0 <= a < b < |log| ==> log[a] != log[b]
      ensures forall k :: k in log ==> k !in old(destroyed)
      ensures forall k: nat :: k in destroyed <==> k in old(destroyed) || k in log
      ensures forall k: nat :: k in destroyed <==> k < head
    {
      ghost var s := View();
      var n := slots.Length;
      QuiescentContents(s);
      log := [];
      for i := 0 to n
        invariant forall j :: i <= j < n ==> slots[j] == s.slots[j]
        invariant forall j :: 0 <= j < i ==> slots[j].cell == Raw
        invariant forall k: nat :: k in log <==> s.tail <= k < s.head && Idx(n, k) < i
        invariant forall k: nat :: k in destroyed <==> k in s.destroyed || k in log
        invariant forall a, b :: 0 <= a < b < |log| ==> log[a] != log[b]
      {
        QuiescentSlots(s, i);
        ghost var k := TicketAt(n, i, s.slots[i].sequence);
        forall j: nat | s.tail <= j < s.head && Idx(n, j) == i
          ensures s.slots[i].sequence % 2 == 1 && j == k
        {
          QuiescentLive(s, j);
          SameTurn(n, j, k);
        }
        if slots[i].sequence % 2 == 1 {
          assert slots[i].cell.Live? && k !in destroyed;
          slots[i] := slots[i].(cell := Raw);
          destroyed := destroyed + {k};
          log := log + [k];
        }
      }
    }
  }
}
