/**
 The FNV-1a hashes of include/ptl/hash/fnv1a.hpp: tail recursion over a NUL-terminated string with
 the hash so far as accumulator, in 32-bit or 64-bit wrap-around arithmetic.

 The constants are those of the FNV-1a algorithm (section 2 of draft-eastlake-fnv). Characters are
 signed and are sign-extended before they are mixed in, so bytes from 0x80 on are mixed in with all
 upper bits set, where the standard mixes in the bare octet.
 */
module Fnv1a {
  datatype Width = Bits32 | Bits64

  type Byte = x: nat | x < 0x100

  function Bits(w: Width): nat { if w == Bits32 then 32 else 64 }

  function Modulus(w: Width): nat { if w == Bits32 then 0x1_0000_0000 else 0x1_0000_0000_0000_0000 }

  function Basis(w: Width): nat { if w == Bits32 then 0x811c_9dc5 else 0xcbf2_9ce4_8422_2325 }

  // ---------------------------------------------------------------- multiplication by the prime

  function Times(w: Width, x: nat): (y: nat)
    ensures y < Modulus(w)
  {
    match w
    case Bits32 => (x * 0x0100_0193) % 0x1_0000_0000
    case Bits64 => (x * 0x0100_0000_01b3) % 0x1_0000_0000_0000_0000
  }

  /** Multiplication by the inverse of the prime. */
  function Over(w: Width, x: nat): (y: nat)
    ensures y < Modulus(w)
  {
    match w
    case Bits32 => (x * 0x359c_449b) % 0x1_0000_0000
    case Bits64 => (x * 0xce96_5057_aff6_957b) % 0x1_0000_0000_0000_0000
  }

  lemma RemainderUnique(m: nat, x: nat, z: int)
    requires x < m
    ensures (x + m * z) % m == x
  {
    var y := x + m * z;
    var q, r := y / m, y % m;
    assert y == m * q + r && 0 <= r < m;
    var d := z - q;
    assert m * d == m * z - m * q;
    assert d > 0 ==> m * d >= m;
    assert d < 0 ==> m * d + m <= 0;
  }

  /** Factors whose product is one more than a multiple of m undo each other modulo m. */
  lemma InverseUndoes(m: nat, p: nat, i: nat, k: nat, x: nat)
    requires x < m && p * i == 1 + k * m
    ensures (((x * p) % m) * i) % m == x
  {
    var q, r := (x * p) / m, (x * p) % m;
    assert r == x * p - q * m;
    calc {
      r * i;
      (x * p - q * m) * i;
      x * p * i - q * m * i;
      { assert x * p * i == x * (p * i); }
      x * (1 + k * m) - q * m * i;
      { assert x * (k * m) == m * (k * x) && q * m * i == m * (q * i); }
      x + m * (k * x) - m * (q * i);
      x + m * (k * x - q * i);
    }
    RemainderUnique(m, x, k * x - q * i);
  }

  lemma TimesOver(w: Width, x: nat)
    requires x < Modulus(w)
    ensures Over(w, Times(w, x)) == x && Times(w, Over(w, x)) == x
  {
    match w
    case Bits32 =>
      InverseUndoes(0x1_0000_0000, 0x0100_0193, 0x359c_449b, 0x35_9c99, x);
      InverseUndoes(0x1_0000_0000, 0x359c_449b, 0x0100_0193, 0x35_9c99, x);
    case Bits64 =>
      InverseUndoes(0x1_0000_0000_0000_0000, 0x0100_0000_01b3, 0xce96_5057_aff6_957b, 0xce_9650_590f, x);
      InverseUndoes(0x1_0000_0000_0000_0000, 0xce96_5057_aff6_957b, 0x0100_0000_01b3, 0xce_9650_590f, x);
  }

  // ---------------------------------------------------------------- exclusive or

  function Pow2(n: nat): (p: nat)
    ensures p > 0
  {
    if n == 0 then 1 else 2 * Pow2(n - 1)
  }

  lemma Pow2Byte(n: nat)
    ensures Pow2(n + 8) == 0x100 * Pow2(n)
  {
    assert Pow2(n + 1) == 2 * Pow2(n);
    assert Pow2(n + 2) == 4 * Pow2(n);
    assert Pow2(n + 3) == 8 * Pow2(n);
    assert Pow2(n + 4) == 0x10 * Pow2(n);
    assert Pow2(n + 5) == 0x20 * Pow2(n);
    assert Pow2(n + 6) == 0x40 * Pow2(n);
    assert Pow2(n + 7) == 0x80 * Pow2(n);
  }

  lemma Pow2Values()
    ensures Pow2(8) == 0x100 && Pow2(24) == 0x100_0000
    ensures Pow2(32) == 0x1_0000_0000 && Pow2(64) == 0x1_0000_0000_0000_0000
  {
    Pow2Byte(0);
    Pow2Byte(8);
    Pow2Byte(16);
    Pow2Byte(24);
    Pow2Byte(32);
    Pow2Byte(40);
    Pow2Byte(48);
    Pow2Byte(56);
  }

  lemma ModulusIsPow2(w: Width)
    ensures Modulus(w) == Pow2(Bits(w))
  {
    Pow2Values();
  }

  /** Bitwise exclusive or of n-bit numbers, from the lowest bit up. */
  function Xor(n: nat, x: nat, y: nat): (r: nat)
    ensures r < Pow2(n)
  {
    if n == 0 then 0 else (if x % 2 == y % 2 then 0 else 1) + 2 * Xor(n - 1, x / 2, y / 2)
  }

  lemma {:induction false} XorTwice(n: nat, x: nat, y: nat)
    requires x < Pow2(n)
    ensures Xor(n, Xor(n, x, y), y) == x
  {
    if n > 0 {
      XorTwice(n - 1, x / 2, y / 2);
      var r := Xor(n - 1, x / 2, y / 2);
      assert Xor(n, x, y) / 2 == r && (Xor(n, x, y) % 2 == 0 <==> x % 2 == y % 2);
    }
  }

  lemma {:induction false} XorCancels(n: nat, h: nat, x: nat, y: nat)
    requires x < Pow2(n) && y < Pow2(n) && Xor(n, h, x) == Xor(n, h, y)
    ensures x == y
  {
    if n > 0 { XorCancels(n - 1, h / 2, x / 2, y / 2); }
  }

  // ---------------------------------------------------------------- the hash

  /** `uint32_t(str[0])` of a signed char. */
  function Widen(w: Width, c: Byte): (x: nat)
    ensures x < Modulus(w)
  {
    if c >= 0x80 then Modulus(w) - 0x100 + c else c
  }

  /** The value of a byte as a signed char. */
  function SignedChar(c: Byte): int { if c < 0x80 then c else c - 0x100 }

  /** The conversion is modulo 2^32 or 2^64, of a signed value. */
  lemma WidenIsConversion(w: Width, c: Byte)
    ensures (Widen(w, c) - SignedChar(c)) % Modulus(w) == 0
  {
    assert Widen(w, c) - SignedChar(c) == if c < 0x80 then 0 else Modulus(w);
  }

  function Mix(w: Width, h: nat, c: Byte): (x: nat)
    ensures x < Modulus(w)
  {
    Times(w, Xor(Bits(w), h, Widen(w, c)))
  }

  /** The string ends at its first NUL, or where the sequence ends. */
  function Hash(w: Width, s: seq<Byte>, value: nat): nat
  {
    if s == [] || s[0] == 0 then value else Hash(w, s[1..], Mix(w, value, s[0]))
  }

  ghost predicate NoNul(s: seq<Byte>)
  {
    forall i :: 0 <= i < |s| ==> s[i] != 0
  }

  /** Hashing a concatenation is hashing its second part seeded with the hash of its first. */
  lemma {:induction false} HashConcat(w: Width, a: seq<Byte>, b: seq<Byte>, value: nat)
    requires NoNul(a)
    ensures Hash(w, a + b, value) == Hash(w, b, Hash(w, a, value))
  {
    if a == [] {
      assert a + b == b;
    } else {
      assert (a + b)[1..] == a[1..] + b;
      HashConcat(w, a[1..], b, Mix(w, value, a[0]));
    }
  }

  /** What follows a NUL plays no part. */
  lemma HashEndsAtNul(w: Width, a: seq<Byte>, b: seq<Byte>, value: nat)
    requires NoNul(a)
    ensures Hash(w, a + [0] + b, value) == Hash(w, a, value)
  {
    assert a + [0] + b == a + ([0] + b);
    HashConcat(w, a, [0] + b, value);
  }

  // ---------------------------------------------------------------- seeds and hashes

  /** Mixing undone: multiply by the inverse of the prime, then exclusive-or the character away. */
  function Unmix(w: Width, x: nat, c: Byte): (h: nat)
    ensures h < Modulus(w)
  {
    ModulusIsPow2(w);
    Xor(Bits(w), Over(w, x), Widen(w, c))
  }

  lemma MixBijective(w: Width, x: nat, c: Byte)
    requires x < Modulus(w)
    ensures Unmix(w, Mix(w, x, c), c) == x && Mix(w, Unmix(w, x, c), c) == x
  {
    ModulusIsPow2(w);
    TimesOver(w, Xor(Bits(w), x, Widen(w, c)));
    TimesOver(w, x);
    XorTwice(Bits(w), x, Widen(w, c));
    XorTwice(Bits(w), Over(w, x), Widen(w, c));
  }

  /** The seed from which a string hashes to x. */
  function Unhash(w: Width, s: seq<Byte>, x: nat): (h: nat)
    requires x < Modulus(w)
    ensures h < Modulus(w)
  {
    if s == [] || s[0] == 0 then x else Unmix(w, Unhash(w, s[1..], x), s[0])
  }

  /** For a fixed string the seed and the hash determine each other. */
  lemma {:induction false} HashBijective(w: Width, s: seq<Byte>, x: nat)
    requires x < Modulus(w)
    ensures Hash(w, s, x) < Modulus(w)
    ensures Unhash(w, s, Hash(w, s, x)) == x && Hash(w, s, Unhash(w, s, x)) == x
  {
    if s != [] && s[0] != 0 {
      HashBijective(w, s[1..], Mix(w, x, s[0]));
      MixBijective(w, x, s[0]);
      HashBijective(w, s[1..], x);
      MixBijective(w, Unhash(w, s[1..], x), s[0]);
    }
  }

  lemma MixSeparates(w: Width, h: nat, x: nat, y: nat)
    requires x < Modulus(w) && y < Modulus(w) && x != y
    ensures Times(w, Xor(Bits(w), h, x)) != Times(w, Xor(Bits(w), h, y))
  {
    ModulusIsPow2(w);
    TimesOver(w, Xor(Bits(w), h, x));
    TimesOver(w, Xor(Bits(w), h, y));
    if Xor(Bits(w), h, x) == Xor(Bits(w), h, y) { XorCancels(Bits(w), h, x, y); }
  }

  /** Strings of one length that differ in exactly one character never collide, whatever the seed. */
  lemma OneCharacterNeverCollides(w: Width, a: seq<Byte>, c: Byte, d: Byte, b: seq<Byte>, value: nat)
    requires NoNul(a) && c != 0 && d != 0 && c != d
    ensures Hash(w, a + [c] + b, value) != Hash(w, a + [d] + b, value)
  {
    var h := Hash(w, a, value);
    forall x: Byte | x != 0 ensures Hash(w, a + [x] + b, value) == Hash(w, b, Mix(w, h, x)) {
      assert a + [x] + b == a + ([x] + b) && ([x] + b)[1..] == b;
      HashConcat(w, a, [x] + b, value);
    }
    HashBijective(w, b, Mix(w, h, c));
    HashBijective(w, b, Mix(w, h, d));
    MixSeparates(w, h, Widen(w, c), Widen(w, d));
  }

  // ---------------------------------------------------------------- the standard

  /** The standard's way to mix in an octet. */
  function StandardMix(w: Width, h: nat, c: Byte): nat { Times(w, Xor(Bits(w), h, c)) }

  /** FNV-1a itself, on octets. */
  function Standard(w: Width, s: seq<Byte>, value: nat): nat
  {
    if s == [] then value else Standard(w, s[1..], StandardMix(w, value, s[0]))
  }

  /** One character is mixed in as the standard does exactly when its byte is below 0x80. */
  lemma MixIsStandard(w: Width, h: nat, c: Byte)
    ensures Mix(w, h, c) == StandardMix(w, h, c) <==> c < 0x80
  {
    if c >= 0x80 { MixSeparates(w, h, Widen(w, c), c); }
  }

  /** On strings of bytes below 0x80 without NUL the result is FNV-1a. */
  lemma {:induction false} HashIsStandard(w: Width, s: seq<Byte>, value: nat)
    requires NoNul(s) && forall i :: 0 <= i < |s| ==> s[i] < 0x80
    ensures Hash(w, s, value) == Standard(w, s, value)
  {
    if s != [] {
      MixIsStandard(w, value, s[0]);
      HashIsStandard(w, s[1..], Mix(w, value, s[0]));
    }
  }

  // ---------------------------------------------------------------- bytes of 0x80 or more

  /** x and y agree in their lowest k bits, and differ in the next one just when `differ` says so. */
  predicate Apart(k: nat, x: nat, y: nat, differ: bool)
  {
    if k == 0 then (x % 2 != y % 2) == differ else x % 2 == y % 2 && Apart(k - 1, x / 2, y / 2, differ)
  }

  lemma {:induction false} XorApart(n: nat, k: nat, h: nat, g: nat, d: bool, x: nat, y: nat, e: bool)
    requires k < n && Apart(k, h, g, d) && Apart(k, x, y, e)
    ensures Apart(k, Xor(n, h, x), Xor(n, g, y), d != e)
  {
    if k > 0 {
      XorApart(n - 1, k - 1, h / 2, g / 2, d, x / 2, y / 2, e);
    }
  }

  /** x shifted up by k bits. */
  function Shift(k: nat, x: int): int
  {
    if k == 0 then x else 2 * Shift(k - 1, x)
  }

  lemma ShiftValues(x: int)
    ensures Shift(8, x) == 0x100 * x && Shift(9, x) == 0x200 * x
  {
    assert Shift(1, x) == 2 * x;
    assert Shift(2, x) == 4 * x;
    assert Shift(3, x) == 8 * x;
    assert Shift(4, x) == 0x10 * x;
    assert Shift(5, x) == 0x20 * x;
    assert Shift(6, x) == 0x40 * x;
    assert Shift(7, x) == 0x80 * x;
  }

  lemma {:induction false} ApartHas(k: nat, x: nat, y: nat, differ: bool) returns (z: int)
    requires Apart(k, x, y, differ)
    ensures x == y + Shift(k, if differ then 1 else 0) + Shift(k + 1, z)
  {
    if k == 0 {
      z := (x - y - if differ then 1 else 0) / 2;
    } else {
      z := ApartHas(k - 1, x / 2, y / 2, differ);
    }
  }

  lemma {:induction false} ApartFrom(k: nat, x: nat, y: nat, differ: bool, z: int)
    requires x == y + Shift(k, if differ then 1 else 0) + Shift(k + 1, z)
    ensures Apart(k, x, y, differ)
  {
    if k > 0 {
      ApartFrom(k - 1, x / 2, y / 2, differ, z);
    }
  }

  /** `Apart` at the eighth bit, as arithmetic. */
  predicate Off256(x: nat, y: nat, differ: bool)
  {
    (x - y - if differ then 0x100 else 0) % 0x200 == 0
  }

  lemma ApartIsOff256(x: nat, y: nat, differ: bool)
    requires Apart(8, x, y, differ)
    ensures Off256(x, y, differ)
  {
    var z := ApartHas(8, x, y, differ);
    ShiftValues(if differ then 1 else 0);
    ShiftValues(z);
  }

  lemma Off256IsApart(x: nat, y: nat, differ: bool)
    requires Off256(x, y, differ)
    ensures Apart(8, x, y, differ)
  {
    var z := (x - y - if differ then 0x100 else 0) / 0x200;
    ShiftValues(if differ then 1 else 0);
    ShiftValues(z);
    ApartFrom(8, x, y, differ, z);
  }

  /** The prime is odd, so multiplying by it keeps a difference of half of 512. */
  lemma TimesOff256(w: Width, x: nat, y: nat, differ: bool)
    requires Off256(x, y, differ)
    ensures Off256(Times(w, x), Times(w, y), differ)
  {
    var d := if differ then 1 else 0;
    var z := (x - y - 0x100 * d) / 0x200;
    assert x == y + 0x100 * d + 0x200 * z;
    match w
    case Bits32 =>
      MultiplesOff256(x * 0x0100_0193, y * 0x0100_0193, differ, z * 0x0100_0193 + 0x80_00c9 * d);
      WrappedOff256(w, x * 0x0100_0193, y * 0x0100_0193, differ);
    case Bits64 =>
      MultiplesOff256(x * 0x0100_0000_01b3, y * 0x0100_0000_01b3, differ, z * 0x0100_0000_01b3 + 0x80_0000_00d9 * d);
      WrappedOff256(w, x * 0x0100_0000_01b3, y * 0x0100_0000_01b3, differ);
  }

  lemma MultiplesOff256(x: int, y: int, differ: bool, z: int)
    requires x == y + (if differ then 0x100 else 0) + 0x200 * z
    ensures x >= 0 && y >= 0 ==> Off256(x, y, differ)
  {
  }

  lemma WrappedOff256(w: Width, x: nat, y: nat, differ: bool)
    requires Off256(x, y, differ)
    ensures Off256(x % Modulus(w), y % Modulus(w), differ)
  {
    var q, r := x / Modulus(w), y / Modulus(w);
    match w
    case Bits32 => LowerOff256(x, y, differ, 0x80_0000 * q, 0x80_0000 * r);
    case Bits64 => LowerOff256(x, y, differ, 0x80_0000_0000_0000 * q, 0x80_0000_0000_0000 * r);
  }

  lemma LowerOff256(x: nat, y: nat, differ: bool, a: nat, b: nat)
    requires Off256(x, y, differ) && 0x200 * a <= x && 0x200 * b <= y
    ensures Off256(x - 0x200 * a, y - 0x200 * b, differ)
  {
  }

  lemma WidenOff256(w: Width, c: Byte)
    ensures Off256(Widen(w, c), c, c >= 0x80)
  {
  }

  /** Whether an odd number of the bytes are 0x80 or more. */
  predicate OddHighBytes(s: seq<Byte>)
  {
    s != [] && (s[0] >= 0x80) != OddHighBytes(s[1..])
  }

  lemma {:induction false} HashOff256(w: Width, s: seq<Byte>, h: nat, g: nat, differ: bool)
    requires NoNul(s) && Off256(h, g, differ)
    ensures Off256(Hash(w, s, h), Standard(w, s, g), differ != OddHighBytes(s))
  {
    if s != [] {
      var c := s[0];
      var x, y := Xor(Bits(w), h, Widen(w, c)), Xor(Bits(w), g, c);
      WidenOff256(w, c);
      Off256IsApart(h, g, differ);
      Off256IsApart(Widen(w, c), c, c >= 0x80);
      XorApart(Bits(w), 8, h, g, differ, Widen(w, c), c, c >= 0x80);
      ApartIsOff256(x, y, differ != (c >= 0x80));
      TimesOff256(w, x, y, differ != (c >= 0x80));
      HashOff256(w, s[1..], Times(w, x), Times(w, y), differ != (c >= 0x80));
    }
  }

  /**
   A string with an odd number of bytes of 0x80 or more, at whatever places, has another hash than
   the standard's, whatever the seed: the two agree modulo 256 and not modulo 512.
   */
  lemma OddHighBytesDiffer(w: Width, s: seq<Byte>, value: nat)
    requires NoNul(s) && OddHighBytes(s)
    ensures Hash(w, s, value) % 0x100 == Standard(w, s, value) % 0x100
    ensures Hash(w, s, value) % 0x200 != Standard(w, s, value) % 0x200
  {
    HashOff256(w, s, value, value, false);
    Off256Means(Hash(w, s, value), Standard(w, s, value));
  }

  lemma Off256Means(x: nat, y: nat)
    requires Off256(x, y, true)
    ensures x % 0x100 == y % 0x100 && x % 0x200 != y % 0x200
  {
  }

  /** Exclusive or works on low and high bits apart. */
  lemma {:induction false} XorSplit(m: nat, n: nat, x: nat, y: nat, a: nat, b: nat)
    requires x < Pow2(m) && y < Pow2(m)
    ensures Shift(m, a) >= 0 && Shift(m, b) >= 0
    ensures Xor(m + n, x + Shift(m, a), y + Shift(m, b)) == Xor(m, x, y) + Shift(m, Xor(n, a, b))
  {
    if m > 0 {
      XorSplit(m - 1, n, x / 2, y / 2, a, b);
      assert (x + Shift(m, a)) / 2 == x / 2 + Shift(m - 1, a) && (y + Shift(m, b)) / 2 == y / 2 + Shift(m - 1, b);
    }
  }

  lemma {:induction false} XorZero(n: nat, x: nat)
    requires x < Pow2(n)
    ensures Xor(n, x, 0) == x
  {
    if n > 0 { XorZero(n - 1, x / 2); }
  }

  lemma {:induction false} XorOnes(n: nat, x: nat)
    requires x < Pow2(n)
    ensures Xor(n, x, Pow2(n) - 1) == Pow2(n) - 1 - x
  {
    if n > 0 {
      XorOnes(n - 1, x / 2);
      assert (Pow2(n) - 1) % 2 == 1 && (Pow2(n) - 1) / 2 == Pow2(n - 1) - 1;
    }
  }

  /** A byte into a 32-bit word. */
  lemma XorByte(h: Byte, a: nat, c: Byte)
    requires a < 0x100_0000
    ensures Xor(32, h + 0x100 * a, c) == Xor(8, h, c) + 0x100 * a
  {
    Pow2Values();
    ShiftValues(a);
    ShiftValues(0);
    XorSplit(8, 24, h, c, a, 0);
    XorZero(24, a);
  }

  /** A byte, sign-extended, into a 32-bit word. */
  lemma XorExtended(h: Byte, a: nat, c: Byte)
    requires a < 0x100_0000
    ensures Xor(32, h + 0x100 * a, c + 0xffff_ff00) == Xor(8, h, c) + 0x100 * (0xff_ffff - a)
  {
    Pow2Values();
    ShiftValues(a);
    ShiftValues(0xff_ffff);
    ShiftValues(0xff_ffff - a);
    XorSplit(8, 24, h, c, a, 0xff_ffff);
    XorOnes(24, a);
  }

  /** A byte into a 64-bit word. */
  lemma XorByte64(h: Byte, a: nat, c: Byte)
    requires a < 0x100_0000_0000_0000
    ensures Xor(64, h + 0x100 * a, c) == Xor(8, h, c) + 0x100 * a
  {
    Pow2Values();
    Pow2Byte(56);
    ShiftValues(a);
    ShiftValues(0);
    XorSplit(8, 56, h, c, a, 0);
    XorZero(56, a);
  }

  lemma WitnessXors()
    ensures Xor(32, 0x811c_9dc5, 0x02) == 0x811c_9dc7
    ensures Xor(32, 0x070c_6045, 0xc5) == 0x070c_6080 && Xor(32, 0x070c_6045, 0xffff_ffc5) == 0xf8f3_9f80
    ensures Xor(32, 0x987b_e980, 0xff) == 0x987b_e97f && Xor(32, 0x6784_1680, 0xffff_ffff) == 0x987b_e97f
  {
    assert Xor(8, 0xc5, 0x02) == 0xc7;
    assert Xor(8, 0x45, 0xc5) == 0x80;
    assert Xor(8, 0x80, 0xff) == 0x7f;
    XorByte(0xc5, 0x81_1c9d, 0x02);
    XorByte(0x45, 0x07_0c60, 0xc5);
    XorExtended(0x45, 0x07_0c60, 0xc5);
    XorByte(0x80, 0x98_7be9, 0xff);
    XorExtended(0x80, 0x67_8416, 0xff);
  }

  lemma WitnessTimes()
    ensures Times(Bits32, 0x811c_9dc7) == 0x070c_6045
    ensures Times(Bits32, 0x070c_6080) == 0x987b_e980
    ensures Times(Bits32, 0xf8f3_9f80) == 0x6784_1680
    ensures Times(Bits32, 0x987b_e97f) == 0x8a10_92ed
  {
  }

  lemma WitnessMixes()
    ensures Mix(Bits32, 0x811c_9dc5, 0x02) == StandardMix(Bits32, 0x811c_9dc5, 0x02) == 0x070c_6045
    ensures Mix(Bits32, 0x070c_6045, 0xc5) == 0x6784_1680
    ensures StandardMix(Bits32, 0x070c_6045, 0xc5) == 0x987b_e980
    ensures Mix(Bits32, 0x6784_1680, 0xff) == StandardMix(Bits32, 0x987b_e980, 0xff) == 0x8a10_92ed
  {
    WitnessXors();
    WitnessTimes();
  }

  lemma MixFirst(w: Width, c: Byte, t: seq<Byte>, value: nat)
    requires c != 0
    ensures Hash(w, [c] + t, value) == Hash(w, t, Mix(w, value, c))
    ensures Standard(w, [c] + t, value) == Standard(w, t, StandardMix(w, value, c))
  {
    assert ([c] + t)[1..] == t;
  }

  lemma LowXor32()
    ensures Xor(8, 0xc5, 0x61) == 0xa4
  {
    assert Xor(1, 0x1, 0x0) == 0x1;
    assert Xor(2, 0x3, 0x1) == 0x2;
    assert Xor(3, 0x6, 0x3) == 0x5;
    assert Xor(4, 0xc, 0x6) == 0xa;
    assert Xor(5, 0x18, 0xc) == 0x14;
    assert Xor(6, 0x31, 0x18) == 0x29;
    assert Xor(7, 0x62, 0x30) == 0x52;
    assert Xor(8, 0xc5, 0x61) == 0xa4;
  }

  lemma LowXor64()
    ensures Xor(8, 0x25, 0x61) == 0x44
  {
    assert Xor(1, 0x0, 0x0) == 0x0;
    assert Xor(2, 0x0, 0x1) == 0x1;
    assert Xor(3, 0x1, 0x3) == 0x2;
    assert Xor(4, 0x2, 0x6) == 0x4;
    assert Xor(5, 0x4, 0xc) == 0x8;
    assert Xor(6, 0x9, 0x18) == 0x11;
    assert Xor(7, 0x12, 0x30) == 0x22;
    assert Xor(8, 0x25, 0x61) == 0x44;
  }

  lemma Xor32OfA(low: Byte, c: Byte)
    requires low == 0xc5 && c == 0x61
    ensures Xor(32, low + 0x100 * 0x81_1c9d, c) == 0x811c_9da4
  {
    LowXor32();
    XorByte(low, 0x81_1c9d, c);
  }

  lemma Xor64OfA(low: Byte, c: Byte)
    requires low == 0x25 && c == 0x61
    ensures Xor(64, low + 0x100 * 0xcb_f29c_e484_2223, c) == 0xcbf2_9ce4_8422_2344
  {
    LowXor64();
    XorByte64(low, 0xcb_f29c_e484_2223, c);
  }

  lemma TimesOfA(x: nat, y: nat)
    requires x == 0x811c_9da4 && y == 0xcbf2_9ce4_8422_2344
    ensures Times(Bits32, x) == 0xe40c_292c && Times(Bits64, y) == 0xaf63_dc4c_8601_ec8c
  {
  }

  lemma MixOfA32(c: Byte)
    requires c == 0x61
    ensures Mix(Bits32, Basis(Bits32), c) == StandardMix(Bits32, Basis(Bits32), c) == 0xe40c_292c
  {
    Xor32OfA(0xc5, c);
    TimesOfA(0x811c_9da4, 0xcbf2_9ce4_8422_2344);
  }

  lemma MixOfA64(c: Byte)
    requires c == 0x61
    ensures Mix(Bits64, Basis(Bits64), c) == StandardMix(Bits64, Basis(Bits64), c) == 0xaf63_dc4c_8601_ec8c
  {
    Xor64OfA(0x25, c);
    TimesOfA(0x811c_9da4, 0xcbf2_9ce4_8422_2344);
  }

  /** The hashes of the string "a", which is the byte 0x61. */
  lemma KnownAnswers(c: Byte)
    requires c == 0x61
    ensures Hash(Bits32, [c], Basis(Bits32)) == Standard(Bits32, [c], Basis(Bits32)) == 0xe40c_292c
    ensures Hash(Bits64, [c], Basis(Bits64)) == Standard(Bits64, [c], Basis(Bits64)) == 0xaf63_dc4c_8601_ec8c
  {
    assert [c] == [c] + [];
    MixOfA32(c);
    MixOfA64(c);
    MixFirst(Bits32, c, [], Basis(Bits32));
    MixFirst(Bits64, c, [], Basis(Bits64));
  }

  lemma HighFirst(c: Byte, t: seq<Byte>)
    ensures OddHighBytes([c] + t) == ((c >= 0x80) != OddHighBytes(t))
  {
    assert ([c] + t)[1..] == t;
  }

  lemma CollidingHash(s: seq<Byte>)
    requires s == [0x02, 0xc5, 0xff]
    ensures Hash(Bits32, s, Basis(Bits32)) == 0x8a10_92ed
  {
    var u := s[1..];
    var t := u[1..];
    assert s == [0x02] + u && u == [0xc5] + t && t == [0xff] + [];
    WitnessMixes();
    MixFirst(Bits32, 0x02, u, Basis(Bits32));
    MixFirst(Bits32, 0xc5, t, 0x070c_6045);
    MixFirst(Bits32, 0xff, [], 0x6784_1680);
  }

  lemma CollidingStandard(s: seq<Byte>)
    requires s == [0x02, 0xc5, 0xff]
    ensures Standard(Bits32, s, Basis(Bits32)) == 0x8a10_92ed
  {
    var u := s[1..];
    var t := u[1..];
    assert s == [0x02] + u && u == [0xc5] + t && t == [0xff] + [];
    WitnessMixes();
    MixFirst(Bits32, 0x02, u, Basis(Bits32));
    MixFirst(Bits32, 0xc5, t, 0x070c_6045);
    MixFirst(Bits32, 0xff, [], 0x987b_e980);
  }

  lemma CollidingParity(s: seq<Byte>)
    requires s == [0x02, 0xc5, 0xff]
    ensures NoNul(s) && !OddHighBytes(s)
  {
    var u := s[1..];
    var t := u[1..];
    assert s == [0x02] + u && u == [0xc5] + t && t == [0xff] + [];
    HighFirst(0x02, u);
    HighFirst(0xc5, t);
    HighFirst(0xff, []);
  }

  /** With an even number of them the hashes can agree: on the string 02 c5 ff both are 8a1092ed. */
  lemma EvenHighBytesCanAgree(s: seq<Byte>)
    requires s == [0x02, 0xc5, 0xff]
    ensures NoNul(s) && !OddHighBytes(s)
    ensures Hash(Bits32, s, Basis(Bits32)) == Standard(Bits32, s, Basis(Bits32)) == 0x8a10_92ed
  {
    CollidingParity(s);
    CollidingHash(s);
    CollidingStandard(s);
  }

  /** How many bytes come before the first one of 0x80 or more. */
  function LowBytes(s: seq<Byte>): (n: nat)
    ensures n <= |s| && (forall i :: 0 <= i < n ==> s[i] < 0x80) && (n < |s| ==> s[n] >= 0x80)
  {
    if s == [] || s[0] >= 0x80 then 0 else LowBytes(s[1..]) + 1
  }

  /** The hash follows FNV-1a all the way through a string exactly when no byte of it is 0x80 or more. */
  lemma StandardThroughout(w: Width, s: seq<Byte>, value: nat)
    requires NoNul(s)
    ensures (forall n: nat :: n <= |s| ==> Hash(w, s[..n], value) == Standard(w, s[..n], value))
       <==> (forall i :: 0 <= i < |s| ==> s[i] < 0x80)
  {
    var k := LowBytes(s);
    if k < |s| {
      assert s[..k + 1] == s[..k] + [s[k]] && [s[k]][1..] == [];
      HashConcat(w, s[..k], [s[k]], value);
      StandardConcat(w, s[..k], [s[k]], value);
      MixIsStandard(w, Hash(w, s[..k], value), s[k]);
    } else {
      forall n: nat | n <= |s| ensures Hash(w, s[..n], value) == Standard(w, s[..n], value) {
        HashIsStandard(w, s[..n], value);
      }
    }
  }

  lemma {:induction false} StandardConcat(w: Width, a: seq<Byte>, b: seq<Byte>, value: nat)
    ensures Standard(w, a + b, value) == Standard(w, b, Standard(w, a, value))
  {
    if a == [] {
      assert a + b == b;
    } else {
      assert (a + b)[1..] == a[1..] + b;
      StandardConcat(w, a[1..], b, StandardMix(w, value, a[0]));
    }
  }
}
