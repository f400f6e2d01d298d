/**
 The packed 64-bit strong/weak reference word of include/ptl/intrusive_ptr.hpp, updated by
 fetch-adds and compare-exchange loops of any number of threads.

 32-bit and 64-bit wrap-around is written out. The word is a number: shifting the weak count by
 32 and or-ing in a 32-bit strong count is multiplying and adding.
 */
module ReferenceWord {
  const TWO32: nat := 0x1_0000_0000
  const TWO64: nat := 0x1_0000_0000_0000_0000

  type U32 = x: nat | x < 0x1_0000_0000
  type U64 = x: nat | x < 0x1_0000_0000_0000_0000

  function Wrap32(x: int): U32 { x % TWO32 }

  function Wrap64(x: int): U64 { x % TWO64 }

  // ---------------------------------------------------------------- the word

  function StrongCount(v: U64): U32 { v % TWO32 }

  function WeakCount(v: U64): U32 { v / TWO32 }

  function ReferenceCount(strong: U32, weak: U32): (v: U64)
    ensures StrongCount(v) == strong && WeakCount(v) == weak
  {
    weak * TWO32 + strong
  }

  /** The value the release loop wants to store: the last strong share takes a weak share with it. */
  function Released(v: U64): U64
  {
    var strong := Wrap32(StrongCount(v) - 1);
    var weak := WeakCount(v);
    ReferenceCount(strong, if strong == 0 then Wrap32(weak - 1) else weak)
  }

  function ReleasedWeak(v: U64): U64
  {
    ReferenceCount(StrongCount(v), Wrap32(WeakCount(v) - 1))
  }

  function Locked(v: U64): U64
  {
    ReferenceCount(Wrap32(StrongCount(v) + 1), WeakCount(v))
  }

  predicate LockRefused(v: U64)
  {
    Wrap32(StrongCount(v) + 1) == 1
  }

  // ---------------------------------------------------------------- the system around it

  type Tid = nat
  type Handle = nat

  /** A thread inside a compare-exchange loop: the handle it acts for and the word it last saw. */
  datatype Loop =
    | Releasing(handle: Handle, value: U64)
    | ReleasingWeak(handle: Handle, value: U64)
    | Locking(handle: Handle, value: U64)

  /**
   The word, the strong and weak handles that exist, the threads inside a loop, and how often the
   object has been destroyed and its memory given back.
   */
  datatype State = State(
    word: U64, strong: set<Handle>, weak: set<Handle>, loops: map<Tid, Loop>, destroyed: nat, freed: nat)

  datatype Step =
    | AddRef(fromHandle: Handle, handle: Handle)
    | AddWeakRef(fromStrong: bool, fromHandle: Handle, handle: Handle)
    | BeginRelease(tid: Tid, handle: Handle)
    | BeginReleaseWeak(tid: Tid, handle: Handle)
    | BeginLock(tid: Tid, handle: Handle)
    | Iterate(tid: Tid, spurious: bool, handle: Handle)

  /** A new object: one strong share, one weak share. */
  function Init(handle: Handle): State
  {
    State(ReferenceCount(1, 1), {handle}, {}, map[], 0, 0)
  }

  ghost predicate StrongFree(s: State, h: Handle)
  {
    h in s.strong && forall t :: t in s.loops ==> s.loops[t].Releasing? ==> s.loops[t].handle != h
  }

  /** Not being released; it may be locked by several threads at once. */
  ghost predicate WeakShared(s: State, h: Handle)
  {
    h in s.weak && forall t :: t in s.loops ==> s.loops[t].ReleasingWeak? ==> s.loops[t].handle != h
  }

  ghost predicate WeakFree(s: State, h: Handle)
  {
    h in s.weak && forall t :: t in s.loops ==> s.loops[t].Releasing? || s.loops[t].handle != h
  }

  /** Callers act only through handles they hold, and nobody uses a handle being released. */
  ghost predicate Enabled(s: State, step: Step)
  {
    match step
    case AddRef(from, h) => StrongFree(s, from) && h !in s.strong
    case AddWeakRef(strong, from, h) => (if strong then StrongFree(s, from) else WeakShared(s, from)) && h !in s.weak
    case BeginRelease(t, h) => t !in s.loops && StrongFree(s, h)
    case BeginReleaseWeak(t, h) => t !in s.loops && WeakFree(s, h)
    case BeginLock(t, h) => t !in s.loops && WeakShared(s, h)
    case Iterate(t, _, h) => t in s.loops && (s.loops[t].Locking? ==> h !in s.strong)
  }

  /** compare_exchange_weak: may fail although the word is as expected. */
  predicate Exchanges(s: State, l: Loop, spurious: bool)
  {
    s.word == l.value && !spurious
  }

  ghost function Next(s: State, step: Step): State
    requires Enabled(s, step)
  {
    match step
    case AddRef(_, h) => s.(word := Wrap64(s.word + 1), strong := s.strong + {h})
    case AddWeakRef(_, _, h) => s.(word := Wrap64(s.word + ReferenceCount(0, 1)), weak := s.weak + {h})
    case BeginRelease(t, h) => s.(loops := s.loops[t := Releasing(h, s.word)])
    case BeginReleaseWeak(t, h) => s.(loops := s.loops[t := ReleasingWeak(h, s.word)])
    case BeginLock(t, h) => s.(loops := s.loops[t := Locking(h, s.word)])
    case Iterate(t, spurious, h) => Iterated(s, t, spurious, h)
  }

  function Iterated(s: State, t: Tid, spurious: bool, h: Handle): State
    requires t in s.loops
  {
    var l := s.loops[t];
    var done := s.(loops := s.loops - {t});
    if l.Locking? && LockRefused(l.value) then done
    else if !Exchanges(s, l, spurious) then s.(loops := s.loops[t := l.(value := s.word)])
    else
      match l
      case Locking(_, v) => done.(word := Locked(v), strong := s.strong + {h})
      case ReleasingWeak(w, v) =>
        var desired := ReleasedWeak(v);
        done.(word := desired, weak := s.weak - {w}, freed := s.freed + if desired == 0 then 1 else 0)
      case Releasing(r, v) =>
        var desired := Released(v);
        var last := StrongCount(desired) == 0;
        done.(word := desired, strong := s.strong - {r},
              destroyed := s.destroyed + if last then 1 else 0,
              freed := s.freed + if last && WeakCount(desired) == 0 then 1 else 0)
  }

  // ---------------------------------------------------------------- invariant

  /** Fewer than 2^32 - 1 handles exist. */
  ghost predicate Bounded(s: State)
  {
    |s.strong| + |s.weak| < TWO32 - 1
  }

  /** The weak field also carries one share on behalf of all strong handles together. */
  ghost function WeakShares(s: State): nat
  {
    |s.weak| + if s.strong != {} then 1 else 0
  }

  ghost predicate LoopOk(s: State, t: Tid)
    requires t in s.loops
  {
    match s.loops[t]
    case Releasing(h, _) =>
      h in s.strong && forall u :: u in s.loops && u != t && s.loops[u].Releasing? ==> s.loops[u].handle != h
    case ReleasingWeak(h, _) =>
      h in s.weak && forall u :: u in s.loops && u != t && !s.loops[u].Releasing? ==> s.loops[u].handle != h
    case Locking(h, v) => h in s.weak && (LockRefused(v) ==> s.strong == {})
  }

  ghost predicate LoopsOk(s: State)
  {
    forall t :: t in s.loops ==> LoopOk(s, t)
  }

  ghost predicate CountsOk(s: State)
  {
    && Bounded(s)
    && s.word == ReferenceCount(|s.strong|, WeakShares(s))
    && s.destroyed == (if s.strong == {} then 1 else 0)
    && s.freed == (if s.strong == {} && s.weak == {} then 1 else 0)
  }

  ghost predicate Inv(s: State)
  {
    CountsOk(s) && LoopsOk(s)
  }

  lemma InvInit(h: Handle)
    ensures Inv(Init(h))
  {
  }

  lemma InvNext(s: State, step: Step)
    requires Inv(s) && Enabled(s, step) && Bounded(Next(s, step))
    ensures Inv(Next(s, step))
  {
    match step
    case AddRef(_, _) => AddsStrong(s, step); LoopsAdd(s, step);
    case AddWeakRef(_, _, _) => AddsWeak(s, step); LoopsAdd(s, step);
    case BeginRelease(_, _) => LoopsBegin(s, step);
    case BeginReleaseWeak(_, _) => LoopsBegin(s, step);
    case BeginLock(_, _) => LoopsBegin(s, step);
    case Iterate(t, spurious, h) => CountsIterate(s, t, spurious, h); LoopsIterate(s, t, spurious, h);
  }

  /** The word says whether a lock is refused. */
  lemma RefusedByWord(s: State)
    requires CountsOk(s)
    ensures LockRefused(s.word) <==> s.strong == {}
  {
    WordUpdates(|s.strong|, WeakShares(s));
  }

  lemma LoopsBegin(s: State, step: Step)
    requires Inv(s) && Enabled(s, step) && (step.BeginRelease? || step.BeginReleaseWeak? || step.BeginLock?)
    ensures LoopsOk(Next(s, step))
  {
    var s' := Next(s, step);
    RefusedByWord(s);
    forall t | t in s'.loops ensures LoopOk(s', t) {
      if t != step.tid { assert LoopOk(s, t); }
    }
  }

  lemma LoopsAdd(s: State, step: Step)
    requires LoopsOk(s) && Enabled(s, step) && (step.AddRef? || step.AddWeakRef?)
    ensures LoopsOk(Next(s, step))
  {
    var s' := Next(s, step);
    forall t | t in s'.loops ensures LoopOk(s', t) { assert LoopOk(s, t); }
  }

  lemma LoopsIterate(s: State, t: Tid, spurious: bool, h: Handle)
    requires Inv(s) && t in s.loops
    ensures LoopsOk(Iterated(s, t, spurious, h))
  {
    var s' := Iterated(s, t, spurious, h);
    RefusedByWord(s);
    assert LoopOk(s, t);
    forall u | u in s'.loops ensures LoopOk(s', u) { assert LoopOk(s, u); }
  }

  // The four updates of the word, on a word that packs two counts.

  lemma ReleasedWord(strong: U32, weak: U32)
    requires 0 < strong && 0 < weak
    ensures Released(ReferenceCount(strong, weak))
         == ReferenceCount(strong - 1, if strong == 1 then weak - 1 else weak)
  {
  }

  lemma WordUpdates(strong: U32, weak: U32)
    ensures strong < TWO32 - 1 ==> Wrap64(ReferenceCount(strong, weak) + 1) == ReferenceCount(strong + 1, weak)
    ensures weak < TWO32 - 1 ==>
              Wrap64(ReferenceCount(strong, weak) + ReferenceCount(0, 1)) == ReferenceCount(strong, weak + 1)
    ensures 0 < strong && 0 < weak ==>
              Released(ReferenceCount(strong, weak)) ==
              ReferenceCount(strong - 1, if strong == 1 then weak - 1 else weak)
    ensures 0 < weak ==> ReleasedWeak(ReferenceCount(strong, weak)) == ReferenceCount(strong, weak - 1)
    ensures strong < TWO32 - 1 ==> Locked(ReferenceCount(strong, weak)) == ReferenceCount(strong + 1, weak)
    ensures LockRefused(ReferenceCount(strong, weak)) <==> strong == 0
    ensures ReferenceCount(strong, weak) == 0 <==> strong == 0 && weak == 0
  {
    if 0 < strong && 0 < weak { ReleasedWord(strong, weak); }
  }

  lemma AddsStrong(s: State, step: Step)
    requires CountsOk(s) && Enabled(s, step) && step.AddRef? && Bounded(Next(s, step))
    ensures CountsOk(Next(s, step))
  {
    WordUpdates(|s.strong|, WeakShares(s));
  }

  lemma AddsWeak(s: State, step: Step)
    requires CountsOk(s) && Enabled(s, step) && step.AddWeakRef? && Bounded(Next(s, step))
    ensures CountsOk(Next(s, step))
  {
    WordUpdates(|s.strong|, WeakShares(s));
    if !step.fromStrong { assert s.weak != {}; }
  }

  lemma CountsIterate(s: State, t: Tid, spurious: bool, h: Handle)
    requires Inv(s) && t in s.loops && (s.loops[t].Locking? ==> h !in s.strong)
    requires Bounded(Iterated(s, t, spurious, h))
    ensures CountsOk(Iterated(s, t, spurious, h))
  {
    var l := s.loops[t];
    if Exchanges(s, l, spurious) {
      assert LoopOk(s, t);
      match l
      case Releasing(_, _) => CountsRelease(s, t, spurious, h);
      case ReleasingWeak(_, _) => CountsReleaseWeak(s, t, spurious, h);
      case Locking(_, _) => CountsLock(s, t, spurious, h);
    }
  }

  lemma CountsRelease(s: State, t: Tid, spurious: bool, h: Handle)
    requires CountsOk(s) && t in s.loops && Exchanges(s, s.loops[t], spurious)
    requires s.loops[t].Releasing? && s.loops[t].handle in s.strong
    ensures CountsOk(Iterated(s, t, spurious, h))
  {
    WordUpdates(|s.strong|, WeakShares(s));
    assert |Iterated(s, t, spurious, h).strong| == |s.strong| - 1;
  }

  lemma CountsReleaseWeak(s: State, t: Tid, spurious: bool, h: Handle)
    requires CountsOk(s) && t in s.loops && Exchanges(s, s.loops[t], spurious)
    requires s.loops[t].ReleasingWeak? && s.loops[t].handle in s.weak
    ensures CountsOk(Iterated(s, t, spurious, h))
  {
    WordUpdates(|s.strong|, WeakShares(s));
    assert |Iterated(s, t, spurious, h).weak| == |s.weak| - 1;
  }

  lemma CountsLock(s: State, t: Tid, spurious: bool, h: Handle)
    requires CountsOk(s) && t in s.loops && Exchanges(s, s.loops[t], spurious)
    requires s.loops[t].Locking? && h !in s.strong && Bounded(Iterated(s, t, spurious, h))
    ensures CountsOk(Iterated(s, t, spurious, h))
  {
    WordUpdates(|s.strong|, WeakShares(s));
  }
}
