/** What every run of the reference counting loops guarantees about the counter word. */
module ReferenceWordProperties {
  import opened ReferenceWord
  import opened Wrappers

  /** Any interleaving, from a new object, while fewer than 2^32 - 1 handles exist. */
  ghost predicate IsRun(h: Handle, run: seq<State>, steps: seq<Step>)
  {
    && |run| == |steps| + 1
    && run[0] == Init(h)
    && (forall i: nat :: i < |run| ==> Bounded(run[i]))
    && forall i: nat :: i < |steps| ==> StepAt(run, steps, i)
  }

  ghost predicate StepAt(run: seq<State>, steps: seq<Step>, i: nat)
    requires i < |steps| < |run|
  {
    Enabled(run[i], steps[i]) && run[i + 1] == Next(run[i], steps[i])
  }

  lemma {:induction false} RunInv(h: Handle, run: seq<State>, steps: seq<Step>, i: nat)
    requires IsRun(h, run, steps) && i < |run|
    ensures Inv(run[i])
  {
    if i == 0 {
      InvInit(h);
    } else {
      RunInv(h, run, steps, i - 1);
      assert StepAt(run, steps, i - 1);
      InvNext(run[i - 1], steps[i - 1]);
    }
  }

  /** At every instant the word is the pair of counts, with no carry from one half into the other. */
  lemma WordCountsHandles(h: Handle, run: seq<State>, steps: seq<Step>, i: nat)
    requires IsRun(h, run, steps) && i < |run|
    ensures StrongCount(run[i].word) == |run[i].strong|
    ensures WeakCount(run[i].word) == |run[i].weak| + if run[i].strong != {} then 1 else 0
    ensures run[i].word == 0 <==> run[i].strong == {} && run[i].weak == {}
  {
    RunInv(h, run, steps, i);
    WordUpdates(|run[i].strong|, WeakShares(run[i]));
  }

  // ---------------------------------------------------------------- no resurrection

  /** Once no strong handle exists none is ever made: no add-ref is possible and every lock fails. */
  lemma NoResurrectionStep(s: State, step: Step)
    requires Inv(s) && Enabled(s, step) && s.strong == {}
    ensures Next(s, step).strong == {}
  {
    if step.Iterate? && s.loops[step.tid].Locking? {
      WordUpdates(|s.strong|, WeakShares(s));
    }
  }

  lemma {:induction false} NoResurrection(h: Handle, run: seq<State>, steps: seq<Step>, i: nat, j: nat)
    requires IsRun(h, run, steps) && i <= j < |run| && run[i].strong == {}
    ensures run[j].strong == {}
    decreases j
  {
    if i < j {
      NoResurrection(h, run, steps, i, j - 1);
      RunInv(h, run, steps, j - 1);
      assert StepAt(run, steps, j - 1);
      NoResurrectionStep(run[j - 1], steps[j - 1]);
    }
  }

  // ---------------------------------------------------------------- the steps that reach zero

  ghost predicate StrongReachesZero(run: seq<State>, i: nat)
    requires i + 1 < |run|
  {
    StrongCount(run[i].word) != 0 && StrongCount(run[i + 1].word) == 0
  }

  ghost predicate WordReachesZero(run: seq<State>, i: nat)
    requires i + 1 < |run|
  {
    run[i].word != 0 && run[i + 1].word == 0
  }

  /** At most one step takes the strong count to zero: a successful exchange of a release loop. */
  lemma OneStepReachesStrongZero(h: Handle, run: seq<State>, steps: seq<Step>, i: nat, j: nat)
    requires IsRun(h, run, steps) && i < |steps| && j < |steps|
    requires StrongReachesZero(run, i) && StrongReachesZero(run, j)
    ensures i == j
  {
    WordCountsHandles(h, run, steps, i + 1);
    WordCountsHandles(h, run, steps, j + 1);
    WordCountsHandles(h, run, steps, i);
    WordCountsHandles(h, run, steps, j);
    if i < j { NoResurrection(h, run, steps, i + 1, j); }
    if j < i { NoResurrection(h, run, steps, j + 1, i); }
  }

  lemma StrongGone(h: Handle, run: seq<State>, steps: seq<Step>, i: nat)
    requires IsRun(h, run, steps) && i < |run|
    ensures StrongCount(run[i].word) == 0 <==> run[i].strong == {}
    ensures run[i].destroyed == if run[i].strong == {} then 1 else 0
  {
    WordCountsHandles(h, run, steps, i);
    RunInv(h, run, steps, i);
  }

  lemma OnlyReleaseEmpties(s: State, step: Step)
    requires Enabled(s, step) && s.strong != {} && Next(s, step).strong == {}
    ensures step.Iterate? && s.loops[step.tid].Releasing?
  {
  }

  /** The object is destroyed by that step and by no other. */
  lemma DestroyedExactlyThen(h: Handle, run: seq<State>, steps: seq<Step>, i: nat)
    requires IsRun(h, run, steps) && i < |steps|
    ensures StrongReachesZero(run, i) <==> run[i + 1].destroyed == run[i].destroyed + 1
    ensures !StrongReachesZero(run, i) <==> run[i + 1].destroyed == run[i].destroyed
    ensures run[i + 1].destroyed <= 1
    ensures StrongReachesZero(run, i) ==>
              steps[i].Iterate? && steps[i].tid in run[i].loops && run[i].loops[steps[i].tid].Releasing?
  {
    StrongGone(h, run, steps, i);
    StrongGone(h, run, steps, i + 1);
    if run[i].strong == {} {
      NoResurrection(h, run, steps, i, i + 1);
    } else if run[i + 1].strong == {} {
      assert StepAt(run, steps, i);
      OnlyReleaseEmpties(run[i], steps[i]);
    }
  }

  /** The word reaches zero once, at the step that gives the memory back; after it nothing touches the word. */
  lemma FreedExactlyThen(h: Handle, run: seq<State>, steps: seq<Step>, i: nat)
    requires IsRun(h, run, steps) && i < |steps|
    ensures WordReachesZero(run, i) <==> run[i + 1].freed == run[i].freed + 1
    ensures !WordReachesZero(run, i) <==> run[i + 1].freed == run[i].freed
    ensures run[i + 1].freed <= 1
    ensures WordReachesZero(run, i) ==> |steps| == i + 1
  {
    WordCountsHandles(h, run, steps, i);
    WordCountsHandles(h, run, steps, i + 1);
    RunInv(h, run, steps, i);
    RunInv(h, run, steps, i + 1);
    if run[i].word == 0 {
      assert StepAt(run, steps, i);
      NothingAfterFree(run[i], steps[i]);
    }
    if run[i + 1].word == 0 && i + 1 < |steps| {
      assert StepAt(run, steps, i + 1);
      NothingAfterFree(run[i + 1], steps[i + 1]);
    }
  }

  lemma LoopsHoldHandles(s: State)
    requires LoopsOk(s)
    ensures s.loops == map[] || s.strong + s.weak != {}
  {
    if s.loops != map[] {
      var t :| t in s.loops;
      assert LoopOk(s, t) && s.loops[t].handle in s.strong + s.weak;
    }
  }

  /** With the memory given back no thread is in any loop and no step is possible. */
  lemma NothingAfterFree(s: State, step: Step)
    requires Inv(s) && s.word == 0
    ensures s.loops == map[] && !Enabled(s, step)
  {
    WordUpdates(|s.strong|, WeakShares(s));
    LoopsHoldHandles(s);
  }

  /**
   When all handles are gone and no loop is under way, the object has been destroyed once and its
   memory given back once.
   */
  lemma AllReleased(h: Handle, run: seq<State>, steps: seq<Step>, i: nat)
    requires IsRun(h, run, steps) && i < |run| && run[i].strong == {} && run[i].weak == {}
    ensures run[i].destroyed == 1 && run[i].freed == 1 && run[i].word == 0
  {
    RunInv(h, run, steps, i);
    WordCountsHandles(h, run, steps, i);
  }

  /** A lock that succeeds adds a strong handle to at least one existing one. */
  lemma LockNeedsStrong(h: Handle, run: seq<State>, steps: seq<Step>, i: nat)
    requires IsRun(h, run, steps) && i < |steps| && steps[i].Iterate?
    requires steps[i].tid in run[i].loops && run[i].loops[steps[i].tid].Locking?
    requires run[i + 1].strong != run[i].strong
    ensures run[i].strong != {} && run[i + 1].strong == run[i].strong + {steps[i].handle}
    ensures steps[i].tid !in run[i + 1].loops && StrongCount(run[i + 1].word) == StrongCount(run[i].word) + 1
  {
    assert StepAt(run, steps, i);
    if run[i].strong == {} { NoResurrection(h, run, steps, i, i + 1); }
    WordCountsHandles(h, run, steps, i);
    WordCountsHandles(h, run, steps, i + 1);
  }
  // ---------------------------------------------------------------- what each call does to the handles

  predicate Begins(step: Step, t: Tid)
  {
    (step.BeginRelease? || step.BeginReleaseWeak? || step.BeginLock?) && step.tid == t
  }

  /** The call a thread began last. */
  function LastBegun(steps: seq<Step>, t: Tid): Option<Step>
  {
    if steps == [] then None
    else if Begins(steps[|steps| - 1], t) then Some(steps[|steps| - 1])
    else LastBegun(steps[..|steps| - 1], t)
  }

  /** The loop a call runs, for the handle it was given. */
  predicate LoopOf(l: Loop, call: Step)
  {
    match l
    case Releasing(h, _) => call.BeginRelease? && call.handle == h
    case ReleasingWeak(h, _) => call.BeginReleaseWeak? && call.handle == h
    case Locking(h, _) => call.BeginLock? && call.handle == h
  }

  lemma StepLoop(s: State, step: Step, t: Tid, call: Step)
    requires Enabled(s, step) && t in Next(s, step).loops
    ensures Begins(step, t) ==> LoopOf(Next(s, step).loops[t], step)
    ensures !Begins(step, t) ==> t in s.loops && (LoopOf(s.loops[t], call) ==> LoopOf(Next(s, step).loops[t], call))
  {
  }

  lemma {:induction false} LoopIsLastBegun(h: Handle, run: seq<State>, steps: seq<Step>, i: nat, t: Tid)
    requires IsRun(h, run, steps) && i < |run| && t in run[i].loops
    ensures LastBegun(steps[..i], t).Some? && LoopOf(run[i].loops[t], LastBegun(steps[..i], t).value)
  {
    if i > 0 {
      assert StepAt(run, steps, i - 1);
      assert steps[..i][..i - 1] == steps[..i - 1];
      StepLoop(run[i - 1], steps[i - 1], t, steps[i - 1]);
      if !Begins(steps[i - 1], t) {
        LoopIsLastBegun(h, run, steps, i - 1, t);
        StepLoop(run[i - 1], steps[i - 1], t, LastBegun(steps[..i - 1], t).value);
      }
    }
  }

  /** The set of strong handles after a step, by what was called and whether the thread has returned. */
  ghost predicate StrongAfter(s: State, s': State, step: Step, call: Option<Step>)
  {
    match step
    case AddRef(_, h) => s'.strong == s.strong + {h}
    case Iterate(t, _, h) =>
      if t in s'.loops || call.None? then s'.strong == s.strong
      else if call.value.BeginRelease? then call.value.handle in s.strong && s'.strong == s.strong - {call.value.handle}
      else s'.strong == s.strong + if call.value.BeginLock? && s.strong != {} then {h} else {}
    case _ => s'.strong == s.strong
  }

  ghost predicate WeakAfter(s: State, s': State, step: Step, call: Option<Step>)
  {
    match step
    case AddWeakRef(_, _, h) => s'.weak == s.weak + {h}
    case Iterate(t, _, h) =>
      if t !in s'.loops && call.Some? && call.value.BeginReleaseWeak?
      then call.value.handle in s.weak && s'.weak == s.weak - {call.value.handle}
      else s'.weak == s.weak
    case _ => s'.weak == s.weak
  }

  lemma IterateHandles(s: State, step: Step, call: Step)
    requires Inv(s) && Enabled(s, step) && step.Iterate? && LoopOf(s.loops[step.tid], call)
    ensures StrongAfter(s, Next(s, step), step, Some(call)) && WeakAfter(s, Next(s, step), step, Some(call))
  {
    assert LoopOk(s, step.tid);
    RefusedByWord(s);
  }

  /**
   What each call does to the handles. An add-ref adds the new handle at once. A release takes away
   the handle it was given, and a lock adds one, at the step at which the thread returns; a lock
   that returns adds none exactly if no strong handle exists. Nothing else changes the handles.
   */
  lemma HandlesFollowCalls(h: Handle, run: seq<State>, steps: seq<Step>, i: nat)
    requires IsRun(h, run, steps) && i < |steps|
    ensures steps[i].Iterate? ==> LastBegun(steps[..i], steps[i].tid).Some?
    ensures StrongAfter(run[i], run[i + 1], steps[i],
                        if steps[i].Iterate? then LastBegun(steps[..i], steps[i].tid) else None)
    ensures WeakAfter(run[i], run[i + 1], steps[i],
                      if steps[i].Iterate? then LastBegun(steps[..i], steps[i].tid) else None)
    ensures (steps[i].BeginRelease? || steps[i].BeginReleaseWeak? || steps[i].BeginLock?) ==>
              steps[i].tid in run[i + 1].loops
  {
    assert StepAt(run, steps, i);
    RunInv(h, run, steps, i);
    if steps[i].Iterate? {
      LoopIsLastBegun(h, run, steps, i, steps[i].tid);
      IterateHandles(run[i], steps[i], LastBegun(steps[..i], steps[i].tid).value);
    }
  }

  // ---------------------------------------------------------------- the loops make progress

  predicate StepOf(step: Step, t: Tid)
  {
    Begins(step, t) || (step.Iterate? && step.tid == t)
  }

  lemma StepSees(s: State, step: Step, t: Tid)
    requires Enabled(s, step) && t in Next(s, step).loops
    ensures if StepOf(step, t) then Next(s, step).loops[t].value == s.word
            else t in s.loops && Next(s, step).loops[t] == s.loops[t]
  {
  }

  lemma StepKeepsLoop(s: State, step: Step, t: Tid)
    requires Enabled(s, step) && t in s.loops && !StepOf(step, t)
    ensures t in Next(s, step).loops
  {
  }

  lemma {:induction false} SeenSince(h: Handle, run: seq<State>, steps: seq<Step>, i: nat, k: nat, t: Tid)
    requires IsRun(h, run, steps) && i < k < |run| && StepOf(steps[i], t) && t in run[i + 1].loops
    requires forall m :: i < m < k ==> !StepOf(steps[m], t)
    ensures t in run[k].loops && run[k].loops[t].value == run[i].word
    decreases k
  {
    assert StepAt(run, steps, k - 1);
    if k > i + 1 {
      SeenSince(h, run, steps, i, k - 1, t);
      StepKeepsLoop(run[k - 1], steps[k - 1], t);
    }
    StepSees(run[k - 1], steps[k - 1], t);
  }

  /**
   A turn of a loop ends the call unless the exchange fails spuriously or another thread has changed
   the word since this one last looked.
   */
  lemma UndisturbedReturns(h: Handle, run: seq<State>, steps: seq<Step>, i: nat, k: nat, t: Tid)
    requires IsRun(h, run, steps) && i < k < |steps| && StepOf(steps[i], t) && t in run[i + 1].loops
    requires forall m :: i < m < k ==> !StepOf(steps[m], t)
    requires steps[k].Iterate? && steps[k].tid == t && t in run[k + 1].loops
    ensures steps[k].spurious || run[k].word != run[i].word
  {
    SeenSince(h, run, steps, i, k, t);
    assert StepAt(run, steps, k);
  }
}
