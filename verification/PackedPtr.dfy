/**
 The packed pointers of include/ptl/packed_ptr.hpp: a pointer, a value and, in some layouts, a small
 field share one 64-bit word.

 A word is the set of the positions of its one bits, so `&`, `|` and `~` are intersection, union and
 complement, and every expression below is the one the accessor or setter evaluates, masks included.
 Each setter's contract says what every accessor returns afterwards.
 */
module PackedPtr {

  type Word = w: set<nat> | forall i :: i in w ==> i < 64 witness {}

  predicate Within(i: nat, lo: nat, hi: nat) { lo <= i < hi }

  // the word with ones in bits lo to hi - 1
  function Span(lo: nat, hi: nat): Word { set i: nat | i < 64 && Within(i, lo, hi) }

  // uintptr_t(-1)
  const ONES: Word := Span(0, 64)

  function Not(a: Word): Word { ONES - a }

  predicate BitBelow(a: Word, i: nat, n: nat) { n <= i && i - n in a }

  function ShiftLeft(a: Word, n: nat): Word { set i: nat | i < 64 && BitBelow(a, i, n) }

  predicate BitAbove(a: Word, i: nat, n: nat) { i + n in a }

  function ShiftRight(a: Word, n: nat): Word { set i: nat | i < 64 && BitAbove(a, i, n) }

  // ---------------------------------------------------------------- the layouts

  /**
   Wide is the primary template and the exception_ptr template with a value of at most 16 bits;
   WideBool the specialisation for bool; Shifted the one for exception_ptr and uint16_t;
   ExceptionBool the one for exception_ptr and bool, and AtomicPackedPtr with bool, whose setters
   compute the same words; Atomic16 is AtomicPackedPtr with a value of at most 16 bits.
   */
  datatype Layout = Wide | WideBool | Shifted | ExceptionBool | Atomic16

  predicate HasSmall(layout: Layout) { layout in {Wide, WideBool, Shifted} }

  // low_mask and high_mask of each class, and the two masks written inline in the last two
  function LowMask(layout: Layout): Word {
    match layout
    case Wide => ShiftRight(ONES, 61)
    case WideBool => ShiftRight(ONES, 61)
    case Shifted => ShiftRight(ONES, 48)
    case ExceptionBool => ShiftRight(ONES, 16)
    case Atomic16 => ShiftRight(ONES, 16)
  }

  function HighMask(layout: Layout): Word {
    match layout
    case Wide => ShiftLeft(ONES, 48)
    case WideBool => ShiftLeft(ONES, 63)
    case Shifted => ShiftLeft(ONES, 61)
    case ExceptionBool => ShiftLeft(ONES, 63)
    case Atomic16 => ShiftLeft(ONES, 48)
  }

  function PtrMask(layout: Layout): Word { Not(LowMask(layout) + HighMask(layout)) }

  // The bits of a pointer, a value and a small field that each layout has room for.
  function PointerBits(layout: Layout): Word {
    match layout
    case Wide => Span(3, 48)
    case WideBool => Span(3, 63)
    case Shifted => Span(3, 48)
    case ExceptionBool => Span(0, 48)
    case Atomic16 => Span(0, 48)
  }

  function ValueBits(layout: Layout): Word {
    match layout
    case Wide => Span(0, 16)
    case WideBool => Span(0, 1)
    case Shifted => Span(0, 16)
    case ExceptionBool => Span(0, 1)
    case Atomic16 => Span(0, 16)
  }

  const SMALL_BITS: Word := Span(0, 3)

  function Get(layout: Layout, w: Word): Word {
    match layout
    case Wide => w * PtrMask(layout)
    case WideBool => w * PtrMask(layout)
    case Shifted => ShiftRight(w * PtrMask(layout), 16 - 3)
    case ExceptionBool => w * LowMask(layout)
    case Atomic16 => w * LowMask(layout)
  }

  function Value(layout: Layout, w: Word): Word {
    match layout
    case Wide => ShiftRight(w, 48)
    case WideBool => ShiftRight(w, 63) * {0}
    case Shifted => w * LowMask(layout)
    case ExceptionBool => ShiftRight(w, 63)
    case Atomic16 => ShiftRight(w, 48)
  }

  function Small(layout: Layout, w: Word): Word
    requires HasSmall(layout)
  {
    match layout
    case Wide => w * LowMask(layout)
    case WideBool => w * LowMask(layout)
    case Shifted => ShiftRight(w * HighMask(layout), 61)
  }

  function Set(layout: Layout, w: Word, p: Word): (r: Word)
    ensures Get(layout, r) == p * PointerBits(layout)
    ensures Value(layout, r) == Value(layout, w)
    ensures HasSmall(layout) ==> Small(layout, r) == Small(layout, w)
  {
    match layout
    case Wide => (w * Not(PtrMask(layout))) + (p * PtrMask(layout))
    case WideBool => (p * PtrMask(layout)) + (w * Not(PtrMask(layout)))
    case Shifted => (ShiftLeft(p, 16 - 3) * PtrMask(layout)) + (w * Not(PtrMask(layout)))
    case ExceptionBool => (p * LowMask(layout)) + (w * HighMask(layout))
    case Atomic16 => (p * LowMask(layout)) + (w * HighMask(layout))
  }

  function SetValue(layout: Layout, w: Word, v: Word): (r: Word)
    ensures Value(layout, r) == v * ValueBits(layout)
    ensures Get(layout, r) == Get(layout, w)
    ensures HasSmall(layout) ==> Small(layout, r) == Small(layout, w)
  {
    match layout
    case Wide => (ShiftLeft(v, 48) * HighMask(layout)) + (w * Not(HighMask(layout)))
    case WideBool => (ShiftLeft(v, 63) * HighMask(layout)) + (w * Not(HighMask(layout)))
    case Shifted => (v * LowMask(layout)) + (w * Not(LowMask(layout)))
    case ExceptionBool => ShiftLeft(v, 63) + (w * LowMask(layout))
    case Atomic16 => ShiftLeft(v, 48) + (w * LowMask(layout))
  }

  function SetSmall(layout: Layout, w: Word, v: Word): (r: Word)
    requires HasSmall(layout)
    ensures Small(layout, r) == v * SMALL_BITS
    ensures Get(layout, r) == Get(layout, w)
    ensures Value(layout, r) == Value(layout, w)
  {
    match layout
    case Wide => (w * Not(LowMask(layout))) + (v * LowMask(layout))
    case WideBool => (w * Not(LowMask(layout))) + (v * LowMask(layout))
    case Shifted => (w * Not(HighMask(layout))) + (ShiftLeft(v, 61) * HighMask(layout))
  }

  // ---------------------------------------------------------------- the laws of every layout

  // What is read back is what was set exactly when the argument fits its field.
  lemma RoundTrips(layout: Layout, w: Word, x: Word)
    ensures Get(layout, Set(layout, w, x)) == x <==> x <= PointerBits(layout)
    ensures Value(layout, SetValue(layout, w, x)) == x <==> x <= ValueBits(layout)
    ensures HasSmall(layout) ==> (Small(layout, SetSmall(layout, w, x)) == x <==> x <= SMALL_BITS)
  {
    assert x * PointerBits(layout) == x <==> x <= PointerBits(layout);
    assert x * ValueBits(layout) == x <==> x <= ValueBits(layout);
    assert x * SMALL_BITS == x <==> x <= SMALL_BITS;
  }

  lemma LastWriteWins(layout: Layout, w: Word, x: Word, y: Word)
    ensures Set(layout, Set(layout, w, x), y) == Set(layout, w, y)
    ensures SetValue(layout, SetValue(layout, w, x), y) == SetValue(layout, w, y)
    ensures HasSmall(layout) ==> SetSmall(layout, SetSmall(layout, w, x), y) == SetSmall(layout, w, y)
  {
  }

  lemma SettersCommute(layout: Layout, w: Word, p: Word, v: Word, x: Word)
    ensures Set(layout, SetValue(layout, w, v), p) == SetValue(layout, Set(layout, w, p), v)
    ensures HasSmall(layout) ==> Set(layout, SetSmall(layout, w, x), p) == SetSmall(layout, Set(layout, w, p), x)
    ensures HasSmall(layout) ==>
              SetValue(layout, SetSmall(layout, w, x), v) == SetSmall(layout, SetValue(layout, w, v), x)
  {
  }

  // Every layout but ExceptionBool has a use for every bit; that one has none for bits 48 to 62.
  function UsedBits(layout: Layout): Word {
    match layout
    case Wide => ONES
    case WideBool => ONES
    case Shifted => ONES
    case ExceptionBool => Not(Span(48, 63))
    case Atomic16 => ONES
  }

  // No setter puts a one in an unused bit, so words built by them from zero have none there, and
  // such a word holds nothing but its fields.
  lemma UnusedStayClear(layout: Layout, w: Word, x: Word)
    requires w <= UsedBits(layout)
    ensures Set(layout, w, x) <= UsedBits(layout) && SetValue(layout, w, x) <= UsedBits(layout)
    ensures HasSmall(layout) ==> SetSmall(layout, w, x) <= UsedBits(layout)
  {
  }

  function Pack(layout: Layout, p: Word, v: Word, x: Word): Word {
    var w := SetValue(layout, Set(layout, {}, p), v);
    if HasSmall(layout) then SetSmall(layout, w, x) else w
  }

  lemma FieldsDetermineWord(layout: Layout, w: Word)
    ensures
      var x := if HasSmall(layout) then Small(layout, w) else {};
      Pack(layout, Get(layout, w), Value(layout, w), x) == w <==> w <= UsedBits(layout)
  {
    var x := if HasSmall(layout) then Small(layout, w) else {};
    var r := Pack(layout, Get(layout, w), Value(layout, w), x);
    assert r == w * UsedBits(layout);
  }

  // ---------------------------------------------------------------- the classes

  /** `PackedPtr` in each of its layouts; the accessors are the functions above on `data`. */
  class Packed {
    const layout: Layout
    var data: Word

    constructor (layout: Layout)
      requires layout != Atomic16
      ensures this.layout == layout && data == {}
    {
      this.layout := layout;
      data := {};
    }

    method SetPointer(p: Word)
      modifies this
      ensures data == Set(layout, old(data), p)
      ensures Get(layout, data) == p * PointerBits(layout) && Value(layout, data) == Value(layout, old(data))
      ensures HasSmall(layout) ==> Small(layout, data) == Small(layout, old(data))
    {
      data := Set(layout, data, p);
    }

    method SetVal(v: Word)
      modifies this
      ensures data == SetValue(layout, old(data), v)
      ensures Value(layout, data) == v * ValueBits(layout) && Get(layout, data) == Get(layout, old(data))
      ensures HasSmall(layout) ==> Small(layout, data) == Small(layout, old(data))
    {
      data := SetValue(layout, data, v);
    }

    method SetSmallField(x: Word)
      requires HasSmall(layout)
      modifies this
      ensures data == SetSmall(layout, old(data), x)
      ensures Small(layout, data) == x * SMALL_BITS && Get(layout, data) == Get(layout, old(data))
      ensures Value(layout, data) == Value(layout, old(data))
    {
      data := SetSmall(layout, data, x);
    }
  }
}
