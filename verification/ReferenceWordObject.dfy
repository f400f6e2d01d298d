/**
 The counter object of include/ptl/intrusive_ptr.hpp: `references` updated in place by atomic adds
 and by the loads and compare-exchanges of the three loops.
 */
module ReferenceWordObject {
  import opened ReferenceWord

  /** What a thread does with the object after a successful exchange. */
  datatype Outcome = Retry | Refused | Held | DestroyObject | DeleteAll | FreeMemory

  class WeakReferences {
    var references: U64
    var loops: map<Tid, Loop>

    ghost var strong: set<Handle>
    ghost var weak: set<Handle>
    ghost var destroyed: nat
    ghost var freed: nat

    ghost function View(): State
      reads this
    {
      State(references, strong, weak, loops, destroyed, freed)
    }

    ghost predicate Valid()
      reads this
    {
      Inv(View())
    }

    constructor (h: Handle)
      ensures Valid() && View() == Init(h)
    {
      references := ReferenceCount(1, 1);
      loops := map[];
      strong, weak, destroyed, freed := {h}, {}, 0, 0;
    }

    method PtrAddRef(ghost fromHandle: Handle, ghost h: Handle)
      requires Valid() && Enabled(View(), AddRef(fromHandle, h)) && Bounded(Next(View(), AddRef(fromHandle, h)))
      modifies this
      ensures Valid() && View() == Next(old(View()), AddRef(fromHandle, h))
    {
      InvNext(View(), AddRef(fromHandle, h));
      references := Wrap64(references + 1);
      strong := strong + {h};
    }

    method PtrAddWeakRef(ghost fromStrong: bool, ghost fromHandle: Handle, ghost h: Handle)
      requires Valid() && Enabled(View(), AddWeakRef(fromStrong, fromHandle, h))
      requires Bounded(Next(View(), AddWeakRef(fromStrong, fromHandle, h)))
      modifies this
      ensures Valid() && View() == Next(old(View()), AddWeakRef(fromStrong, fromHandle, h))
    {
      InvNext(View(), AddWeakRef(fromStrong, fromHandle, h));
      references := Wrap64(references + ReferenceCount(0, 1));
      weak := weak + {h};
    }

    method ReleaseLoad(t: Tid, h: Handle)
      requires Valid() && Enabled(View(), BeginRelease(t, h)) && Bounded(Next(View(), BeginRelease(t, h)))
      modifies this
      ensures Valid() && View() == Next(old(View()), BeginRelease(t, h))
    {
      InvNext(View(), BeginRelease(t, h));
      loops := loops[t := Releasing(h, references)];
    }

    method ReleaseWeakLoad(t: Tid, h: Handle)
      requires Valid() && Enabled(View(), BeginReleaseWeak(t, h)) && Bounded(Next(View(), BeginReleaseWeak(t, h)))
      modifies this
      ensures Valid() && View() == Next(old(View()), BeginReleaseWeak(t, h))
    {
      InvNext(View(), BeginReleaseWeak(t, h));
      loops := loops[t := ReleasingWeak(h, references)];
    }

    method LockLoad(t: Tid, h: Handle)
      requires Valid() && Enabled(View(), BeginLock(t, h)) && Bounded(Next(View(), BeginLock(t, h)))
      modifies this
      ensures Valid() && View() == Next(old(View()), BeginLock(t, h))
    {
      InvNext(View(), BeginLock(t, h));
      loops := loops[t := Locking(h, references)];
    }

    method ReleaseIterate(t: Tid, spurious: bool) returns (r: Outcome)
      requires Valid() && Enabled(View(), Iterate(t, spurious, 0)) && Bounded(Next(View(), Iterate(t, spurious, 0)))
      requires loops[t].Releasing?
      modifies this
      ensures Valid() && View() == Next(old(View()), Iterate(t, spurious, 0))
      ensures r == Retry <==> t in loops
      ensures r in {DestroyObject, DeleteAll} <==> destroyed == old(destroyed) + 1
      ensures r in {DestroyObject, DeleteAll} <==> t !in loops && strong == {}
      ensures r == DeleteAll <==> t !in loops && strong == {} && weak == {}
    {
      InvNext(View(), Iterate(t, spurious, 0));
      var l := loops[t];
      var strongLeft := Wrap32(StrongCount(l.value) - 1);
      var weakLeft: int := WeakCount(l.value);
      if strongLeft == 0 {
        weakLeft := Wrap32(weakLeft - 1);
      }
      var desired := ReferenceCount(strongLeft, weakLeft);
      if references != l.value || spurious {
        loops := loops[t := l.(value := references)];
        return Retry;
      }
      references := desired;
      loops := loops - {t};
      strong := strong - {l.handle};
      if StrongCount(desired) != 0 {
        return Held;
      }
      destroyed := destroyed + 1;
      if WeakCount(desired) == 0 {
        freed := freed + 1;
        return DeleteAll;
      }
      return DestroyObject;
    }

    method ReleaseWeakIterate(t: Tid, spurious: bool) returns (r: Outcome)
      requires Valid() && Enabled(View(), Iterate(t, spurious, 0)) && Bounded(Next(View(), Iterate(t, spurious, 0)))
      requires loops[t].ReleasingWeak?
      modifies this
      ensures Valid() && View() == Next(old(View()), Iterate(t, spurious, 0))
      ensures r == Retry <==> t in loops
      ensures r == FreeMemory <==> t !in loops && strong == {} && weak == {}
    {
      InvNext(View(), Iterate(t, spurious, 0));
      var l := loops[t];
      var desired := ReferenceCount(StrongCount(l.value), Wrap32(WeakCount(l.value) - 1));
      if references != l.value || spurious {
        loops := loops[t := l.(value := references)];
        return Retry;
      }
      references := desired;
      loops := loops - {t};
      weak := weak - {l.handle};
      if desired == 0 {
        freed := freed + 1;
        return FreeMemory;
      }
      return Held;
    }

    method LockIterate(t: Tid, spurious: bool, ghost h: Handle) returns (r: Outcome)
      requires Valid() && Enabled(View(), Iterate(t, spurious, h)) && Bounded(Next(View(), Iterate(t, spurious, h)))
      requires loops[t].Locking?
      modifies this
      ensures Valid() && View() == Next(old(View()), Iterate(t, spurious, h))
      ensures r == Retry <==> t in loops
      ensures r == Held <==> h in strong
      ensures r == Refused ==> strong == {}
      ensures old(strong) == {} ==> r != Held
    {
      InvNext(View(), Iterate(t, spurious, h));
      assert LoopOk(View(), t);
      var l := loops[t];
      var strongNext := Wrap32(StrongCount(l.value) + 1);
      if strongNext == 1 {
        loops := loops - {t};
        return Refused;
      }
      if references != l.value || spurious {
        loops := loops[t := l.(value := references)];
        return Retry;
      }
      references := ReferenceCount(strongNext, WeakCount(l.value));
      loops := loops - {t};
      strong := strong + {h};
      return Held;
    }
  }
}
