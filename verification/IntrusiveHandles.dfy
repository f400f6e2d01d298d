/**
 The handle layer of include/ptl/intrusive_ptr.hpp: constructors, copies, moves, copy-and-swap
 assignments, reset, swap, weak, lock and destructors, over the reference words of the objects.

 intrusive_ptr and intrusive_wptr have the same members with the same bodies; here one set of
 methods serves both, and the kind of a handle says which count it stands for.
 */
module IntrusiveHandles {
  import opened Wrappers
  import opened ReferenceWord

  type Obj = nat
  type Var = nat

  datatype Kind = Strong | Weak
  /** The `ptr_` field of a handle; None is the null pointer. */
  datatype Handle = Handle(kind: Kind, ptr: Option<Obj>)
  /** One counted reference of either kind. */
  datatype Share = Share(kind: Kind, obj: Obj)

  /**
   The words of the objects whose memory is held, the handle variables alive, the shares no handle
   stands for (a new object's own, or one just added and not yet adopted), and the objects ever
   created and ever destroyed.
   */
  datatype Heap = Heap(
    words: map<Obj, U64>, handles: map<Var, Handle>, loose: multiset<Share>,
    created: set<Obj>, destroyed: set<Obj>)

  // ---------------------------------------------------------------- counting

  ghost function HandlesOf(handles: map<Var, Handle>, share: Share): set<Var>
  {
    set v | v in handles && handles[v] == Handle(share.kind, Some(share.obj))
  }

  ghost function Shares(h: Heap, share: Share): nat
  {
    |HandlesOf(h.handles, share)| + h.loose[share]
  }

  ghost function StrongStakes(h: Heap, o: Obj): nat { Shares(h, Share(Strong, o)) }

  ghost function WeakStakes(h: Heap, o: Obj): nat { Shares(h, Share(Weak, o)) }

  ghost predicate Room(h: Heap, o: Obj)
  {
    StrongStakes(h, o) + WeakStakes(h, o) < TWO32 - 2
  }

  /** The word of an object counts these strong and weak shares; without any, its memory is gone. */
  ghost predicate Counts(h: Heap, o: Obj, strong: nat, weak: nat)
  {
    && strong + weak < TWO32 - 1
    && (o in h.words <==> strong + weak > 0)
    && (o in h.words ==> o in h.created && h.words[o] == ReferenceCount(strong, weak + if strong > 0 then 1 else 0))
    && (o in h.destroyed <==> o in h.created && strong == 0)
  }

  ghost predicate ObjectOk(h: Heap, o: Obj)
  {
    Counts(h, o, StrongStakes(h, o), WeakStakes(h, o))
  }

  ghost predicate Accounted(h: Heap)
  {
    forall o :: ObjectOk(h, o)
  }

  lemma HandlesBind(m: map<Var, Handle>, v: Var, x: Handle, share: Share)
    requires v !in m
    ensures |HandlesOf(m[v := x], share)|
         == |HandlesOf(m, share)| + if x == Handle(share.kind, Some(share.obj)) then 1 else 0
  {
    var added := if x == Handle(share.kind, Some(share.obj)) then {v} else {};
    assert HandlesOf(m[v := x], share) == HandlesOf(m, share) + added;
  }

  lemma HandlesUnbind(m: map<Var, Handle>, v: Var, share: Share)
    requires v in m
    ensures |HandlesOf(m, share)|
         == |HandlesOf(m - {v}, share)| + if m[v] == Handle(share.kind, Some(share.obj)) then 1 else 0
  {
    HandlesBind(m - {v}, v, m[v], share);
    assert m == (m - {v})[v := m[v]];
  }

  /** Overwriting a handle trades one share for another. */
  lemma HandlesRebind(m: map<Var, Handle>, v: Var, x: Handle, share: Share)
    requires v in m
    ensures |HandlesOf(m[v := x], share)| + (if m[v] == Handle(share.kind, Some(share.obj)) then 1 else 0)
         == |HandlesOf(m, share)| + (if x == Handle(share.kind, Some(share.obj)) then 1 else 0)
  {
    HandlesUnbind(m, v, share);
    HandlesBind(m - {v}, v, x, share);
    assert m[v := x] == (m - {v})[v := x];
  }

  /** What a handle stands for: one share, or nothing when it is null. */
  ghost function Stake(x: Handle): multiset<Share>
  {
    if x.ptr.Some? then multiset{Share(x.kind, x.ptr.value)} else multiset{}
  }

  /** Objects whose shares, word and fate are as before stay accounted for. */
  lemma SameObject(h: Heap, h': Heap, o: Obj)
    requires ObjectOk(h, o)
    requires forall kind :: Shares(h', Share(kind, o)) == Shares(h, Share(kind, o))
    requires o in h'.words <==> o in h.words
    requires o in h.words ==> h'.words[o] == h.words[o]
    requires (o in h'.created <==> o in h.created) && (o in h'.destroyed <==> o in h.destroyed)
    ensures ObjectOk(h', o)
  {
    assert StrongStakes(h', o) == StrongStakes(h, o) && WeakStakes(h', o) == WeakStakes(h, o);
  }

  /** A new handle may adopt a loose share: the counts stay as they are. */
  lemma Adopt(h: Heap, v: Var, x: Handle)
    requires Accounted(h) && v !in h.handles && Stake(x) <= h.loose
    ensures Accounted(h.(handles := h.handles[v := x], loose := h.loose - Stake(x)))
  {
    var h' := h.(handles := h.handles[v := x], loose := h.loose - Stake(x));
    forall o ensures ObjectOk(h', o) {
      assert ObjectOk(h, o);
      forall kind ensures Shares(h', Share(kind, o)) == Shares(h, Share(kind, o)) {
        HandlesBind(h.handles, v, x, Share(kind, o));
      }
      SameObject(h, h', o);
    }
  }

  /** Removing a handle leaves its share loose. */
  lemma Abandon(h: Heap, v: Var)
    requires Accounted(h) && v in h.handles
    ensures Accounted(h.(handles := h.handles - {v}, loose := h.loose + Stake(h.handles[v])))
  {
    var h' := h.(handles := h.handles - {v}, loose := h.loose + Stake(h.handles[v]));
    forall o ensures ObjectOk(h', o) {
      assert ObjectOk(h, o);
      forall kind ensures Shares(h', Share(kind, o)) == Shares(h, Share(kind, o)) {
        HandlesUnbind(h.handles, v, Share(kind, o));
      }
      SameObject(h, h', o);
    }
  }

  /** Exchanging the pointers of two handles of one kind changes no count. */
  lemma Exchange(h: Heap, a: Var, b: Var)
    requires Accounted(h) && a in h.handles && b in h.handles && h.handles[a].kind == h.handles[b].kind
    ensures Accounted(h.(handles := h.handles[a := h.handles[b]][b := h.handles[a]]))
  {
    var h' := h.(handles := h.handles[a := h.handles[b]][b := h.handles[a]]);
    forall o ensures ObjectOk(h', o) {
      assert ObjectOk(h, o);
      forall kind ensures Shares(h', Share(kind, o)) == Shares(h, Share(kind, o)) {
        HandlesRebind(h.handles, a, h.handles[b], Share(kind, o));
        HandlesRebind(h.handles[a := h.handles[b]], b, h.handles[a], Share(kind, o));
      }
      SameObject(h, h', o);
    }
  }

  /** Moving a handle's pointer into a new handle of its kind changes no count. */
  lemma MoveOver(h: Heap, v: Var, other: Var)
    requires Accounted(h) && v !in h.handles && other in h.handles
    ensures Accounted(h.(handles := h.handles[v := h.handles[other]][other := h.handles[other].(ptr := None)]))
  {
    var x := h.handles[other];
    var h' := h.(handles := h.handles[v := x][other := x.(ptr := None)]);
    forall o ensures ObjectOk(h', o) {
      assert ObjectOk(h, o);
      forall kind ensures Shares(h', Share(kind, o)) == Shares(h, Share(kind, o)) {
        HandlesBind(h.handles, v, x, Share(kind, o));
        HandlesRebind(h.handles[v := x], other, x.(ptr := None), Share(kind, o));
      }
      SameObject(h, h', o);
    }
  }

  /** Changing the word and the loose shares of one object leaves all others accounted for. */
  lemma OneObject(h: Heap, h': Heap, o: Obj)
    requires Accounted(h) && h'.handles == h.handles && ObjectOk(h', o)
    requires forall kind, p :: p != o ==> h'.loose[Share(kind, p)] == h.loose[Share(kind, p)]
    requires forall p :: p != o ==> (p in h'.words <==> p in h.words) && (p in h.words ==> h'.words[p] == h.words[p])
    requires forall p :: p != o ==> (p in h'.created <==> p in h.created) && (p in h'.destroyed <==> p in h.destroyed)
    ensures Accounted(h')
  {
    forall p ensures ObjectOk(h', p) {
      assert ObjectOk(h, p);
      if p != o {
        forall kind ensures Shares(h', Share(kind, p)) == Shares(h, Share(kind, p)) {}
        SameObject(h, h', p);
      }
    }
  }

  /** A non-null handle's object still has its memory, and a non-null strong handle's is not destroyed. */
  lemma HandleKeepsObject(h: Heap, v: Var)
    requires Accounted(h) && v in h.handles && h.handles[v].ptr.Some?
    ensures var o := h.handles[v].ptr.value;
      o in h.words && Shares(h, Share(h.handles[v].kind, o)) > 0 && (h.handles[v].kind == Strong ==> o !in h.destroyed)
  {
    var o := h.handles[v].ptr.value;
    assert v in HandlesOf(h.handles, Share(h.handles[v].kind, o));
    assert ObjectOk(h, o);
    var kind := h.handles[v].kind;
    assert Shares(h, Share(kind, o)) == if kind == Strong then StrongStakes(h, o) else WeakStakes(h, o);
  }

  /** A loose share keeps its object too. */
  lemma LooseKeepsObject(h: Heap, share: Share)
    requires Accounted(h) && share in h.loose
    ensures share.obj in h.words && Shares(h, share) > 0
  {
    assert ObjectOk(h, share.obj);
    assert Shares(h, share) == if share.kind == Strong then StrongStakes(h, share.obj) else WeakStakes(h, share.obj);
  }

  function Added(word: U64, kind: Kind): U64
  {
    Wrap64(word + if kind == Strong then 1 else ReferenceCount(0, 1))
  }

  lemma AddedShare(h: Heap, kind: Kind, o: Obj)
    requires Accounted(h) && o in h.words && Room(h, o) && (kind == Strong ==> StrongStakes(h, o) > 0)
    ensures Accounted(h.(words := h.words[o := Added(h.words[o], kind)], loose := h.loose + multiset{Share(kind, o)}))
  {
    var h' := h.(words := h.words[o := Added(h.words[o], kind)], loose := h.loose + multiset{Share(kind, o)});
    var strong, weak := StrongStakes(h, o), WeakStakes(h, o);
    assert ObjectOk(h, o);
    assert StrongStakes(h', o) == if kind == Strong then strong + 1 else strong;
    assert WeakStakes(h', o) == if kind == Weak then weak + 1 else weak;
    AddedCounts(h, h', kind, o, strong, weak);
    OneObject(h, h', o);
  }

  lemma AddedCounts(h: Heap, h': Heap, kind: Kind, o: Obj, strong: nat, weak: nat)
    requires o in h.words && h' == h.(words := h.words[o := Added(h.words[o], kind)], loose := h'.loose)
    requires Counts(h, o, strong, weak) && strong + weak < TWO32 - 2 && (kind == Strong ==> strong > 0)
    ensures Counts(h', o, if kind == Strong then strong + 1 else strong, if kind == Weak then weak + 1 else weak)
  {
    WordUpdates(strong, weak + if strong > 0 then 1 else 0);
  }

  /** A lock fails exactly on a destroyed object, and otherwise adds a strong share. */
  lemma LockOutcome(h: Heap, o: Obj)
    requires Accounted(h) && o in h.words && Room(h, o)
    ensures LockRefused(h.words[o]) <==> o in h.destroyed
    ensures o !in h.destroyed ==> StrongStakes(h, o) > 0 && Locked(h.words[o]) == Added(h.words[o], Strong)
  {
    var strong, weak := StrongStakes(h, o), WeakStakes(h, o);
    assert ObjectOk(h, o);
    WordUpdates(strong, weak + if strong > 0 then 1 else 0);
  }

  function Dropped(word: U64, kind: Kind): U64
  {
    if kind == Strong then Released(word) else ReleasedWeak(word)
  }

  /** The heap after the release loop, with what the thread does when it sees a zero count. */
  ghost function AfterRelease(h: Heap, kind: Kind, o: Obj): Heap
    requires o in h.words
  {
    var desired := Dropped(h.words[o], kind);
    h.(words := if desired == 0 then h.words - {o} else h.words[o := desired],
       destroyed := h.destroyed + (if kind == Strong && StrongCount(desired) == 0 then {o} else {}),
       loose := h.loose - multiset{Share(kind, o)})
  }

  lemma DroppedShare(h: Heap, kind: Kind, o: Obj)
    requires Accounted(h) && Share(kind, o) in h.loose && o in h.words
    ensures Accounted(AfterRelease(h, kind, o))
    ensures StrongCount(Dropped(h.words[o], kind)) == StrongStakes(AfterRelease(h, kind, o), o)
  {
    var h' := AfterRelease(h, kind, o);
    assert ObjectOk(h, o);
    assert StrongStakes(h', o) == if kind == Strong then StrongStakes(h, o) - 1 else StrongStakes(h, o);
    assert WeakStakes(h', o) == if kind == Weak then WeakStakes(h, o) - 1 else WeakStakes(h, o);
    DroppedCounts(h, kind, o, StrongStakes(h, o), WeakStakes(h, o));
    OneObject(h, h', o);
  }

  lemma DroppedCounts(h: Heap, kind: Kind, o: Obj, strong: nat, weak: nat)
    requires o in h.words && Counts(h, o, strong, weak) && (if kind == Strong then strong > 0 else weak > 0)
    ensures var strong' := if kind == Strong then strong - 1 else strong;
      && Counts(AfterRelease(h, kind, o), o, strong', if kind == Weak then weak - 1 else weak)
      && StrongCount(Dropped(h.words[o], kind)) == strong'
  {
    WordUpdates(strong, weak + if strong > 0 then 1 else 0);
  }

  // ---------------------------------------------------------------- the handles

  class Handles {
    var words: map<Obj, U64>
    var handles: map<Var, Handle>
    ghost var loose: multiset<Share>
    ghost var created: set<Obj>
    ghost var destroyed: set<Obj>

    ghost function View(): Heap
      reads this
    {
      Heap(words, handles, loose, created, destroyed)
    }

    ghost predicate Valid()
      reads this
    {
      Accounted(View())
    }

    constructor ()
      ensures Valid() && View() == Heap(map[], map[], multiset{}, {}, {})
    {
      words, handles, loose, created, destroyed := map[], map[], multiset{}, {}, {};
    }

    // ---- the counters, each loop run to its successful exchange

    /** A new object owns one strong share, which a raw pointer constructor will adopt. */
    method New(o: Obj)
      requires Valid() && o !in created
      modifies this
      ensures Valid() && handles == old(handles) && created == old(created) + {o} && destroyed == old(destroyed)
      ensures loose == old(loose) + multiset{Share(Strong, o)}
    {
      ghost var h := View();
      assert ObjectOk(h, o);
      words := words[o := ReferenceCount(1, 1)];
      loose := loose + multiset{Share(Strong, o)};
      created := created + {o};
      OneObject(h, View(), o);
    }

    method AddRef(kind: Kind, o: Obj)
      requires Valid() && o in words && Room(View(), o)
      requires kind == Strong ==> StrongStakes(View(), o) > 0
      modifies this
      ensures Valid() && handles == old(handles) && created == old(created) && destroyed == old(destroyed)
      ensures loose == old(loose) + multiset{Share(kind, o)}
    {
      AddedShare(View(), kind, o);
      words := words[o := Added(words[o], kind)];
      loose := loose + multiset{Share(kind, o)};
    }

    method Release(kind: Kind, o: Obj)
      requires Valid() && Share(kind, o) in loose
      modifies this
      ensures Valid() && handles == old(handles) && created == old(created)
      ensures loose == old(loose) - multiset{Share(kind, o)}
      ensures destroyed == old(destroyed) + if kind == Strong && StrongStakes(View(), o) == 0 then {o} else {}
    {
      LooseKeepsObject(View(), Share(kind, o));
      DroppedShare(View(), kind, o);
      var desired := Dropped(words[o], kind);
      loose := loose - multiset{Share(kind, o)};
      if kind == Strong && StrongCount(desired) == 0 {
        destroyed := destroyed + {o};
      }
      if desired == 0 {
        words := words - {o};
      } else {
        words := words[o := desired];
      }
      assert View().words == AfterRelease(old(View()), kind, o).words;
      assert View() == AfterRelease(old(View()), kind, o);
    }

    method TryLock(o: Obj) returns (success: bool)
      requires Valid() && o in words && Room(View(), o)
      modifies this
      ensures Valid() && handles == old(handles) && created == old(created) && destroyed == old(destroyed)
      ensures success <==> o !in destroyed
      ensures loose == old(loose) + if success then multiset{Share(Strong, o)} else multiset{}
    {
      LockOutcome(View(), o);
      success := !LockRefused(words[o]);
      if success {
        AddedShare(View(), Strong, o);
        var desired := Locked(words[o]);
        words := words[o := desired];
        loose := loose + multiset{Share(Strong, o)};
      }
    }

    // ---- construction and destruction

    /** A new variable takes over a loose share, or is null. */
    method Take(v: Var, x: Handle)
      requires Valid() && v !in handles && Stake(x) <= loose
      modifies this`handles, this`loose
      ensures Valid() && handles == old(handles)[v := x] && loose == old(loose) - Stake(x)
    {
      Adopt(View(), v, x);
      handles := handles[v := x];
      loose := loose - Stake(x);
    }

    method ConstructNull(v: Var, kind: Kind)
      requires Valid() && v !in handles
      modifies this`handles, this`loose
      ensures Valid() && handles == old(handles)[v := Handle(kind, None)] && loose == old(loose)
    {
      Take(v, Handle(kind, None));
    }

    /** intrusive_ptr(bool, T*): without `addRef` the handle adopts a share that is already counted. */
    method ConstructRaw(v: Var, addRef: bool, ptr: Option<Obj>)
      requires Valid() && v !in handles
      requires !addRef ==> Stake(Handle(Strong, ptr)) <= loose
      requires ptr.Some? && addRef ==> ptr.value in words && ptr.value !in destroyed && Room(View(), ptr.value)
      modifies this
      ensures Valid() && handles == old(handles)[v := Handle(Strong, ptr)]
      ensures created == old(created) && destroyed == old(destroyed)
      ensures loose == if addRef then old(loose) else old(loose) - Stake(Handle(Strong, ptr))
    {
      if ptr.Some? && addRef {
        assert ObjectOk(View(), ptr.value);
        AddRef(Strong, ptr.value);
      }
      Take(v, Handle(Strong, ptr));
    }

    method CopyConstruct(v: Var, other: Var)
      requires Valid() && v !in handles && other in handles
      requires handles[other].ptr.Some? ==> Room(View(), handles[other].ptr.value)
      modifies this
      ensures Valid() && handles == old(handles)[v := old(handles)[other]]
      ensures loose == old(loose) && created == old(created) && destroyed == old(destroyed)
    {
      var x := handles[other];
      if x.ptr.Some? {
        HandleKeepsObject(View(), other);
        AddRef(x.kind, x.ptr.value);
      }
      Take(v, x);
    }

    method MoveConstruct(v: Var, other: Var)
      requires Valid() && v !in handles && other in handles
      modifies this`handles
      ensures Valid()
      ensures handles == old(handles)[v := old(handles)[other]][other := Handle(old(handles)[other].kind, None)]
    {
      var x := handles[other];
      MoveOver(View(), v, other);
      handles := handles[v := x];
      handles := handles[other := x.(ptr := None)];
    }

    /** The destructor of either kind of handle. */
    method Destruct(v: Var)
      requires Valid() && v in handles
      modifies this
      ensures Valid() && handles == old(handles) - {v} && loose == old(loose) && created == old(created)
      ensures destroyed == old(destroyed) + LastStrong(View(), old(handles)[v])
    {
      var x := handles[v];
      Abandon(View(), v);
      handles := handles - {v};
      loose := loose + Stake(x);
      if x.ptr.Some? {
        Release(x.kind, x.ptr.value);
      }
    }

    /** The object a departed handle destroys: its own, if it was strong and no strong share is left. */
    static ghost function LastStrong(after: Heap, x: Handle): set<Obj>
    {
      if x.kind == Strong && x.ptr.Some? && StrongStakes(after, x.ptr.value) == 0 then {x.ptr.value} else {}
    }

    // ---- assignment, by constructing a temporary t and swapping

    method Swap(a: Var, b: Var)
      requires Valid() && a in handles && b in handles && handles[a].kind == handles[b].kind
      modifies this`handles
      ensures Valid() && handles == old(handles)[a := old(handles)[b]][b := old(handles)[a]]
    {
      Exchange(View(), a, b);
      handles := handles[a := handles[b]][b := handles[a]];
    }

    /** operator=(const&), from any handle of the same kind, itself included. */
    method CopyAssign(v: Var, other: Var, t: Var)
      requires Valid() && v in handles && other in handles && handles[v].kind == handles[other].kind
      requires t !in handles && (handles[other].ptr.Some? ==> Room(View(), handles[other].ptr.value))
      modifies this
      ensures Valid() && handles == old(handles)[v := old(handles)[other]]
      ensures loose == old(loose) && created == old(created)
      ensures destroyed == old(destroyed) + LastStrong(View(), old(handles)[v])
    {
      CopyConstruct(t, other);
      Swap(t, v);
      Destruct(t);
      assert handles == old(handles)[v := old(handles)[other]];
    }

    /** operator=(&&): the source becomes null, unless it is the target itself. */
    method MoveAssign(v: Var, other: Var, t: Var)
      requires Valid() && t !in handles && v in handles && other in handles && handles[v].kind == handles[other].kind
      modifies this
      ensures Valid() && loose == old(loose) && created == old(created)
      ensures handles == if v == other then old(handles)
                         else old(handles)[v := old(handles)[other]][other := Handle(old(handles)[other].kind, None)]
      ensures destroyed == old(destroyed) + if v == other then {} else LastStrong(View(), old(handles)[v])
    {
      MoveConstruct(t, other);
      Swap(t, v);
      Destruct(t);
      if v == other {
        assert handles == old(handles);
      }
    }

    /** operator=(T*) and reset(T*): the handle adopts the pointer's share and drops the one it had. */
    method AssignRaw(v: Var, ptr: Option<Obj>, t: Var)
      requires Valid() && t !in handles && v in handles && handles[v].kind == Strong
      requires Stake(Handle(Strong, ptr)) <= loose
      modifies this
      ensures Valid() && handles == old(handles)[v := Handle(Strong, ptr)]
      ensures loose == old(loose) - Stake(Handle(Strong, ptr)) && created == old(created)
      ensures destroyed == old(destroyed) + LastStrong(View(), old(handles)[v])
    {
      ConstructRaw(t, false, ptr);
      Swap(t, v);
      Destruct(t);
      assert handles == old(handles)[v := Handle(Strong, ptr)];
    }

    method Reset(v: Var, t: Var)
      requires Valid() && t !in handles && v in handles
      modifies this
      ensures Valid() && handles == old(handles)[v := Handle(old(handles)[v].kind, None)]
      ensures loose == old(loose) && created == old(created)
      ensures destroyed == old(destroyed) + LastStrong(View(), old(handles)[v])
    {
      ConstructNull(t, handles[v].kind);
      Swap(t, v);
      Destruct(t);
      assert handles == old(handles)[v := Handle(old(handles)[v].kind, None)];
    }

    // ---- between the kinds

    /** weak() of a non-null strong handle. */
    method WeakOf(w: Var, v: Var)
      requires Valid() && w !in handles && v in handles && handles[v].kind == Strong && handles[v].ptr.Some?
      requires Room(View(), handles[v].ptr.value)
      modifies this
      ensures Valid() && handles == old(handles)[w := Handle(Weak, old(handles)[v].ptr)]
      ensures loose == old(loose) && created == old(created) && destroyed == old(destroyed)
    {
      var x := Handle(Weak, handles[v].ptr);
      HandleKeepsObject(View(), v);
      AddRef(Weak, x.ptr.value);
      Take(w, x);
    }

    /** lock() of a non-null weak handle: a strong handle adopts the share the lock added, or is null. */
    method Lock(v: Var, w: Var)
      requires Valid() && v !in handles && w in handles && handles[w].kind == Weak && handles[w].ptr.Some?
      requires Room(View(), handles[w].ptr.value)
      modifies this
      ensures Valid() && loose == old(loose) && created == old(created) && destroyed == old(destroyed)
      ensures var o := old(handles)[w].ptr.value;
        handles == old(handles)[v := Handle(Strong, if o in destroyed then None else Some(o))]
    {
      var o := handles[w].ptr.value;
      HandleKeepsObject(View(), w);
      var success := TryLock(o);
      if success {
        ConstructRaw(v, false, Some(o));
      } else {
        ConstructNull(v, Strong);
      }
    }
  }
}
