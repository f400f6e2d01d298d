/**
 `AtomicPackedPtr` of include/ptl/packed_ptr.hpp: any number of threads in the compare-exchange
 loops of set() and set_value(), and in get() and value(). Each load and each compare-exchange is
 one step; the weak compare-exchange may also fail for no reason, and every failure reloads
 `expected`.
 */
module AtomicPackedPtr {
  import opened PackedPtr

  type CallId = nat

  datatype Change = Pointer(p: Word) | Val(v: Word)

  datatype Phase = Loading | Trying(expected: Word) | Done

  datatype Call = Call(change: Change, phase: Phase)

  // One entry for each compare-exchange that succeeded, oldest first.
  datatype Entry = Entry(id: CallId, change: Change)

  // A call of get() or value(), and what it returned.
  datatype Part = PointerPart | ValuePart

  datatype Reading = Asked(part: Part) | Answered(part: Part, result: Word)

  datatype State = State(layout: Layout, word: Word, calls: seq<Call>, readings: seq<Reading>, log: seq<Entry>)

  datatype Step =
    | Begin(change: Change)
    | Load(id: CallId)
    | Attempt(id: CallId, spurious: bool)
    | BeginRead(part: Part)
    | Read(reading: nat)

  predicate IsAtomic(layout: Layout) { layout in {Atomic16, ExceptionBool} }

  function Init(layout: Layout): State { State(layout, {}, [], [], []) }

  // `desired` as the loop body computes it
  function Apply(layout: Layout, w: Word, change: Change): Word {
    match change
    case Pointer(p) => Set(layout, w, p)
    case Val(v) => SetValue(layout, w, v)
  }

  function PartOf(layout: Layout, w: Word, part: Part): Word {
    match part
    case PointerPart => Get(layout, w)
    case ValuePart => Value(layout, w)
  }

  predicate Enabled(s: State, step: Step) {
    match step
    case Begin(_) => true
    case Load(id) => id < |s.calls| && s.calls[id].phase.Loading?
    case Attempt(id, _) => id < |s.calls| && s.calls[id].phase.Trying?
    case BeginRead(_) => true
    case Read(r) => r < |s.readings| && s.readings[r].Asked?
  }

  predicate Succeeds(s: State, step: Step) {
    step.Attempt? && Enabled(s, step) && !step.spurious && s.word == s.calls[step.id].phase.expected
  }

  function Next(s: State, step: Step): State
    requires Enabled(s, step)
  {
    match step
    case Begin(change) => s.(calls := s.calls + [Call(change, Loading)])
    case Load(id) => s.(calls := s.calls[id := s.calls[id].(phase := Trying(s.word))])
    case Attempt(id, _) =>
      var call := s.calls[id];
      if Succeeds(s, step) then
        s.(word := Apply(s.layout, call.phase.expected, call.change),
           calls := s.calls[id := call.(phase := Done)],
           log := s.log + [Entry(id, call.change)])
      else
        s.(calls := s.calls[id := call.(phase := Trying(s.word))])
    case BeginRead(part) => s.(readings := s.readings + [Asked(part)])
    case Read(r) =>
      var part := s.readings[r].part;
      s.(readings := s.readings[r := Answered(part, PartOf(s.layout, s.word, part))])
  }

  // ---------------------------------------------------------------- the invariant

  // The word a single thread making these changes one after the other would leave.
  function Replay(layout: Layout, log: seq<Entry>): Word {
    if log == [] then {}
    else Apply(layout, Replay(layout, log[..|log| - 1]), log[|log| - 1].change)
  }

  ghost predicate Logged(s: State, id: CallId, j: nat)
  {
    j < |s.log| && s.log[j].id == id
  }

  /** A call is in the log just when it has returned. */
  ghost predicate CallOk(s: State, id: CallId)
    requires id < |s.calls|
  {
    s.calls[id].phase == Done <==> exists j :: Logged(s, id, j)
  }

  /** An entry is of one call, in no other entry. */
  ghost predicate EntryOk(s: State, j: nat)
    requires j < |s.log|
  {
    && s.log[j].id < |s.calls| && s.log[j].change == s.calls[s.log[j].id].change
    && forall k :: Logged(s, s.log[j].id, k) ==> k == j
  }

  /** The word is the changes made so far, and they are exactly those of the returned calls. */
  ghost predicate Inv(s: State)
  {
    && s.word == Replay(s.layout, s.log)
    && (forall id: nat :: id < |s.calls| ==> CallOk(s, id))
    && (forall j: nat :: j < |s.log| ==> EntryOk(s, j))
  }

  lemma ReplayAppend(layout: Layout, log: seq<Entry>, e: Entry)
    ensures Replay(layout, log + [e]) == Apply(layout, Replay(layout, log), e.change)
  {
    assert (log + [e])[..|log|] == log;
  }

  lemma ReplayNext(s: State, step: Step)
    requires s.word == Replay(s.layout, s.log) && Enabled(s, step)
    ensures Next(s, step).word == Replay(s.layout, Next(s, step).log)
  {
    if Succeeds(s, step) {
      ReplayAppend(s.layout, s.log, Entry(step.id, s.calls[step.id].change));
    }
  }

  lemma LoggedNext(s: State, step: Step, id: CallId)
    requires Enabled(s, step)
    ensures forall j :: Logged(Next(s, step), id, j) <==>
              Logged(s, id, j) || (Succeeds(s, step) && step.id == id && j == |s.log|)
  {
  }

  lemma CallNext(s: State, step: Step, id: CallId)
    requires Inv(s) && Enabled(s, step) && id < |Next(s, step).calls|
    ensures CallOk(Next(s, step), id)
  {
    var t := Next(s, step);
    LoggedNext(s, step, id);
    if id < |s.calls| {
      assert CallOk(s, id);
      if j :| Logged(s, id, j) { assert Logged(t, id, j); }
      if Succeeds(s, step) && step.id == id { assert Logged(t, id, |s.log|); }
    } else {
      forall j: nat ensures !Logged(t, id, j) {
        if j < |s.log| { assert EntryOk(s, j); }
      }
    }
  }

  lemma EntryNext(s: State, step: Step, j: nat)
    requires Inv(s) && Enabled(s, step) && j < |Next(s, step).log|
    ensures EntryOk(Next(s, step), j)
  {
    var t := Next(s, step);
    LoggedNext(s, step, t.log[j].id);
    if j < |s.log| {
      assert EntryOk(s, j);
      assert Logged(s, s.log[j].id, j) && CallOk(s, s.log[j].id);
    } else {
      assert CallOk(s, step.id);
    }
  }

  lemma CallsNext(s: State, step: Step)
    requires Inv(s) && Enabled(s, step)
    ensures forall id: nat :: id < |Next(s, step).calls| ==> CallOk(Next(s, step), id)
  {
    forall id: nat | id < |Next(s, step).calls| ensures CallOk(Next(s, step), id) { CallNext(s, step, id); }
  }

  lemma EntriesNext(s: State, step: Step)
    requires Inv(s) && Enabled(s, step)
    ensures forall j: nat :: j < |Next(s, step).log| ==> EntryOk(Next(s, step), j)
  {
    forall j: nat | j < |Next(s, step).log| ensures EntryOk(Next(s, step), j) { EntryNext(s, step, j); }
  }

  lemma InvNext(s: State, step: Step)
    requires Inv(s) && Enabled(s, step)
    ensures Inv(Next(s, step))
  {
    ReplayNext(s, step);
    CallsNext(s, step);
    EntriesNext(s, step);
  }

  // ---------------------------------------------------------------- runs

  ghost predicate StepAt(run: seq<State>, steps: seq<Step>, i: nat)
    requires |run| == |steps| + 1 && i < |steps|
  {
    Enabled(run[i], steps[i]) && run[i + 1] == Next(run[i], steps[i])
  }

  ghost predicate IsRun(layout: Layout, run: seq<State>, steps: seq<Step>) {
    && IsAtomic(layout)
    && |run| == |steps| + 1
    && run[0] == Init(layout)
    && forall i: nat :: i < |steps| ==> StepAt(run, steps, i)
  }

  lemma {:induction false} RunInv(layout: Layout, run: seq<State>, steps: seq<Step>, i: nat)
    requires IsRun(layout, run, steps) && i < |run|
    ensures Inv(run[i]) && run[i].layout == layout
  {
    if i > 0 {
      RunInv(layout, run, steps, i - 1);
      assert StepAt(run, steps, i - 1);
      InvNext(run[i - 1], steps[i - 1]);
    }
  }

  // Nothing written is ever taken back, and a returned call keeps its place.
  lemma {:induction false} RunExtends(layout: Layout, run: seq<State>, steps: seq<Step>, i: nat, k: nat)
    requires IsRun(layout, run, steps) && i <= k < |run|
    ensures run[i].log <= run[k].log && |run[i].calls| <= |run[k].calls|
    ensures forall id: nat :: id < |run[i].calls| ==> run[k].calls[id].change == run[i].calls[id].change
    decreases k
  {
    if i < k {
      RunExtends(layout, run, steps, i, k - 1);
      assert StepAt(run, steps, k - 1);
    }
  }

  // ---------------------------------------------------------------- what the fields hold

  // The pointer of the last set() in the log, as far as the field has room for it.
  function LastPointer(layout: Layout, log: seq<Entry>): Word {
    if log == [] then {}
    else
      match log[|log| - 1].change
      case Pointer(p) => p * PointerBits(layout)
      case Val(_) => LastPointer(layout, log[..|log| - 1])
  }

  function LastValue(layout: Layout, log: seq<Entry>): Word {
    if log == [] then {}
    else
      match log[|log| - 1].change
      case Val(v) => v * ValueBits(layout)
      case Pointer(_) => LastValue(layout, log[..|log| - 1])
  }

  lemma {:induction false} ReplayFields(layout: Layout, log: seq<Entry>)
    requires IsAtomic(layout)
    ensures Get(layout, Replay(layout, log)) == LastPointer(layout, log)
    ensures Value(layout, Replay(layout, log)) == LastValue(layout, log)
  {
    if log != [] {
      ReplayFields(layout, log[..|log| - 1]);
    }
  }

  /**
   Whatever the interleaving, get() and value() return what the last set() and the last
   set_value() to succeed stored: neither kind of setter ever undoes or tears the other's write.
   */
  lemma FieldsAreLastWrites(layout: Layout, run: seq<State>, steps: seq<Step>, i: nat)
    requires IsRun(layout, run, steps) && i < |run|
    ensures Get(layout, run[i].word) == LastPointer(layout, run[i].log)
    ensures Value(layout, run[i].word) == LastValue(layout, run[i].log)
  {
    RunInv(layout, run, steps, i);
    ReplayFields(layout, run[i].log);
  }

  function LastWritten(layout: Layout, log: seq<Entry>, part: Part): Word {
    match part
    case PointerPart => LastPointer(layout, log)
    case ValuePart => LastValue(layout, log)
  }

  /**
   get() and value() read one instant: a call begun at step i that has returned by k returned what
   the last setter of its part to succeed had stored at some instant in between.
   */
  lemma {:induction false} ReadsAreAtomic(layout: Layout, run: seq<State>, steps: seq<Step>, i: nat, k: nat, r: nat)
    returns (m: nat)
    requires IsRun(layout, run, steps) && i < k < |run|
    requires steps[i].BeginRead? && r == |run[i].readings|
    requires r < |run[k].readings| && run[k].readings[r].Answered?
    ensures i < m < k && steps[m] == Read(r)
    ensures run[k].readings[r] == Answered(steps[i].part, LastWritten(layout, run[m].log, steps[i].part))
    decreases k
  {
    ReadingKept(layout, run, steps, i, k - 1);
    assert StepAt(run, steps, k - 1);
    if run[k - 1].readings[r].Answered? {
      m := ReadsAreAtomic(layout, run, steps, i, k - 1, r);
    } else {
      m := k - 1;
      RunInv(layout, run, steps, m);
      FieldsAreLastWrites(layout, run, steps, m);
    }
  }

  lemma {:induction false} ReadingKept(layout: Layout, run: seq<State>, steps: seq<Step>, i: nat, k: nat)
    requires IsRun(layout, run, steps) && i <= k < |run|
    requires i < |steps| && steps[i].BeginRead?
    ensures k > i ==> |run[i].readings| < |run[k].readings| && run[k].readings[|run[i].readings|].part == steps[i].part
    ensures k == i + 1 ==> run[k].readings[|run[i].readings|].Asked?
    decreases k
  {
    if k > i {
      ReadingKept(layout, run, steps, i, k - 1);
      assert StepAt(run, steps, k - 1);
    }
  }

  /** The calls of a run are those begun, in order, each with the argument it was given. */
  lemma {:induction false} EachCallIsAsked(layout: Layout, run: seq<State>, steps: seq<Step>, i: nat, id: CallId)
    returns (b: nat)
    requires IsRun(layout, run, steps) && i < |run| && id < |run[i].calls|
    ensures b < i && steps[b] == Begin(run[i].calls[id].change) && |run[b].calls| == id && |run[b + 1].calls| == id + 1
  {
    assert StepAt(run, steps, i - 1);
    if id < |run[i - 1].calls| {
      b := EachCallIsAsked(layout, run, steps, i - 1, id);
    } else {
      b := i - 1;
    }
  }

  /**
   Every call that has returned took effect once, with the argument it was begun with, and every
   other call not at all.
   */
  lemma EachCallTakesEffectOnce(layout: Layout, run: seq<State>, steps: seq<Step>, i: nat, id: CallId) returns (b: nat)
    requires IsRun(layout, run, steps) && i < |run| && id < |run[i].calls|
    ensures b < i && steps[b].Begin? && |run[b].calls| == id
    ensures run[i].calls[id].phase == Done <==> exists j :: Logged(run[i], id, j)
    ensures forall j, k :: Logged(run[i], id, j) && Logged(run[i], id, k) ==> j == k
    ensures forall j: nat :: Logged(run[i], id, j) ==> run[i].log[j].change == steps[b].change
  {
    RunInv(layout, run, steps, i);
    b := EachCallIsAsked(layout, run, steps, i, id);
    assert CallOk(run[i], id);
    assert forall j :: Logged(run[i], id, j) ==> EntryOk(run[i], j);
  }

  /** A call that returns before another begins takes effect before it. */
  lemma EffectsFollowRealTime(layout: Layout, run: seq<State>, steps: seq<Step>, i: nat, k: nat,
                              first: CallId, second: CallId, a: nat, b: nat)
    requires IsRun(layout, run, steps) && i <= k < |run|
    requires first < |run[i].calls| && run[i].calls[first].phase == Done
    requires |run[i].calls| <= second < |run[k].calls|
    requires Logged(run[k], first, a) && Logged(run[k], second, b)
    ensures Logged(run[i], first, a) && a < b
  {
    RunInv(layout, run, steps, i);
    RunInv(layout, run, steps, k);
    RunExtends(layout, run, steps, i, k);
    assert CallOk(run[i], first);
    var c :| Logged(run[i], first, c);
    assert Logged(run[k], first, c) && EntryOk(run[k], c);
    assert b < |run[i].log| ==> EntryOk(run[i], b);
  }

  predicate StepOf(step: Step, id: CallId)
  {
    (step.Load? || step.Attempt?) && step.id == id
  }

  lemma StepSees(s: State, step: Step, id: CallId)
    requires Enabled(s, step) && id < |s.calls|
    ensures id < |Next(s, step).calls|
    ensures var call := Next(s, step).calls[id];
      if StepOf(step, id) then call.phase == Done || call.phase == Trying(s.word) else call == s.calls[id]
  {
  }

  lemma {:induction false} SeenSince(layout: Layout, run: seq<State>, steps: seq<Step>, i: nat, k: nat, id: CallId)
    requires IsRun(layout, run, steps) && i < k < |run| && StepOf(steps[i], id)
    requires forall m :: i < m < k ==> !StepOf(steps[m], id)
    ensures id < |run[i].calls| && id < |run[k].calls|
    ensures run[k].calls[id].phase == Done || run[k].calls[id].phase == Trying(run[i].word)
    decreases k
  {
    assert StepAt(run, steps, i) && StepAt(run, steps, k - 1);
    if k > i + 1 { SeenSince(layout, run, steps, i, k - 1, id); }
    StepSees(run[k - 1], steps[k - 1], id);
  }

  /**
   An attempt ends the call unless it fails spuriously or some other call has taken effect since
   this one last looked at the word: the threads cannot all keep failing.
   */
  lemma FailureIsProgress(layout: Layout, run: seq<State>, steps: seq<Step>, i: nat, k: nat, id: CallId)
    requires IsRun(layout, run, steps) && i < k < |steps| && StepOf(steps[i], id)
    requires forall m :: i < m < k ==> !StepOf(steps[m], id)
    requires steps[k] == Attempt(id, false)
    ensures id < |run[k + 1].calls|
    ensures run[k + 1].calls[id].phase == Done || |run[i].log| < |run[k].log|
  {
    SeenSince(layout, run, steps, i, k, id);
    RunInv(layout, run, steps, i);
    RunInv(layout, run, steps, k);
    RunExtends(layout, run, steps, i, k);
    assert StepAt(run, steps, k);
    if |run[k].log| == |run[i].log| {
      assert run[k].log == run[i].log;
    }
  }

  // ---------------------------------------------------------------- the object

  class AtomicPacked {
    const layout: Layout
    var data: Word
    // the calls of set() and set_value() so far, each with its local `expected`
    var calls: seq<Call>
    // the calls of get() and value()
    var readings: seq<Reading>
    ghost var log: seq<Entry>

    ghost function View(): State
      reads this
    {
      State(layout, data, calls, readings, log)
    }

    ghost predicate Valid()
      reads this
    {
      IsAtomic(layout) && Inv(View())
    }

    constructor (layout: Layout)
      requires IsAtomic(layout)
      ensures Valid() && View() == Init(layout)
    {
      this.layout, data, calls, readings, log := layout, {}, [], [], [];
    }

    method Enter(change: Change) returns (id: CallId)
      requires Valid()
      modifies this
      ensures Valid() && View() == Next(old(View()), Begin(change)) && id == |old(calls)|
    {
      InvNext(View(), Begin(change));
      id := |calls|;
      calls := calls + [Call(change, Loading)];
    }

    method LoadExpected(id: CallId)
      requires Valid() && Enabled(View(), Load(id))
      modifies this
      ensures Valid() && View() == Next(old(View()), Load(id))
    {
      InvNext(View(), Load(id));
      calls := calls[id := calls[id].(phase := Trying(data))];
    }

    // One turn of the loop: compute `desired`, then compare_exchange_weak(expected, desired).
    method CompareExchange(id: CallId, spurious: bool) returns (done: bool)
      requires Valid() && Enabled(View(), Attempt(id, spurious))
      modifies this
      ensures Valid() && View() == Next(old(View()), Attempt(id, spurious))
      ensures done <==> Succeeds(old(View()), Attempt(id, spurious))
    {
      InvNext(View(), Attempt(id, spurious));
      var call := calls[id];
      var desired :=
        match call.change
        case Pointer(p) => Set(layout, call.phase.expected, p)
        case Val(v) => SetValue(layout, call.phase.expected, v);
      done := !spurious && data == call.phase.expected;
      if done {
        data := desired;
        calls := calls[id := call.(phase := Done)];
        log := log + [Entry(id, call.change)];
      } else {
        calls := calls[id := call.(phase := Trying(data))];
      }
    }

    method EnterRead(part: Part) returns (r: nat)
      requires Valid()
      modifies this
      ensures Valid() && View() == Next(old(View()), BeginRead(part)) && r == |old(readings)|
    {
      InvNext(View(), BeginRead(part));
      r := |readings|;
      readings := readings + [Asked(part)];
    }

    // The one load of get() or value(), and what it returns.
    method ReadPart(r: nat) returns (w: Word)
      requires Valid() && Enabled(View(), Read(r))
      modifies this
      ensures Valid() && View() == Next(old(View()), Read(r))
      ensures w == LastWritten(layout, log, old(readings[r].part))
    {
      InvNext(View(), Read(r));
      ReplayFields(layout, log);
      var part := readings[r].part;
      w :=
        match part
        case PointerPart => Get(layout, data)
        case ValuePart => Value(layout, data);
      readings := readings[r := Answered(part, w)];
    }
  }
}
