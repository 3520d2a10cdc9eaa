// The table-driven CRC of src/crc8.c, for an arbitrary generator.
module Crc8 {

  // ------------------------------------------------- bit-by-bit specification

  /** Addition of polynomials over GF(2). */
  function Plus(a: bv8, b: bv8): bv8 {
    a ^ b
  }

  /** Shift the register by one bit, reducing by x^8 + gen. */
  function Step(b: bv8, gen: bv8): bv8 {
    if b & 0x80 != 0 then Plus(b << 1, gen) else b << 1
  }

  function Steps(b: bv8, gen: bv8, n: nat): bv8
    decreases n
  {
    if n == 0 then b else Steps(Step(b, gen), gen, n - 1)
  }

  /** Divide a message, byte by byte and bit by bit, starting from register c. */
  function Divide(c: bv8, gen: bv8, msg: seq<bv8>): bv8
    decreases |msg|
  {
    if msg == [] then c else Divide(Steps(Plus(msg[0], c), gen, 8), gen, msg[1..])
  }

  function PlusAll(a: seq<bv8>, b: seq<bv8>): (r: seq<bv8>)
    requires |a| == |b|
    ensures |r| == |a|
    decreases |a|
  {
    if a == [] then [] else [Plus(a[0], b[0])] + PlusAll(a[1..], b[1..])
  }

  // ----------------------------------------------------------------- linearity

  lemma PlusAssociates(a: bv8, b: bv8, c: bv8)
    ensures Plus(Plus(a, b), c) == Plus(a, Plus(b, c))
  {
  }

  lemma PlusBasics(a: bv8, b: bv8)
    ensures Plus(a, b) == Plus(b, a)
    ensures Plus(a, 0) == a && Plus(a, a) == 0
  {
  }

  lemma PlusLaws(a: bv8, b: bv8, c: bv8, d: bv8)
    ensures Plus(a, b) == Plus(b, a)
    ensures Plus(a, 0) == a && Plus(a, a) == 0
    ensures Plus(Plus(a, b), b) == a
    ensures Plus(Plus(a, b), Plus(c, d)) == Plus(Plus(a, c), Plus(b, d))
  {
    hide Plus;
    PlusBasics(a, b);
    PlusBasics(b, b);
    PlusAssociates(a, b, b);
    PlusBasics(b, c);
    PlusAssociates(a, b, Plus(c, d));
    PlusAssociates(b, c, d);
    PlusAssociates(c, b, d);
    PlusAssociates(a, c, Plus(b, d));
  }

  lemma TopBit(a: bv8, b: bv8)
    ensures a & 0x80 == 0 || a & 0x80 == 0x80
    ensures Plus(a, b) & 0x80 == Plus(a & 0x80, b & 0x80)
    ensures Plus(a, b) << 1 == Plus(a << 1, b << 1)
  {
  }

  lemma Regroup(x: bv8, y: bv8, g: bv8)
    ensures Plus(Plus(x, g), Plus(y, g)) == Plus(x, y)
    ensures Plus(Plus(x, g), y) == Plus(Plus(x, y), g)
    ensures Plus(x, Plus(y, g)) == Plus(Plus(x, y), g)
  {
    hide Plus;
    PlusLaws(x, g, y, g);
    PlusLaws(x, g, y, 0);
    PlusLaws(x, 0, y, g);
    PlusLaws(Plus(x, y), g, 0, 0);
    PlusLaws(g, g, 0, 0);
    PlusLaws(y, 0, 0, 0);
    PlusLaws(g, 0, 0, 0);
    PlusLaws(0, g, 0, 0);
  }

  lemma StepLinear(a: bv8, b: bv8, gen: bv8)
    ensures Step(Plus(a, b), gen) == Plus(Step(a, gen), Step(b, gen))
  {
    TopBit(a, b);
    TopBit(b, a);
    Regroup(a << 1, b << 1, gen);
  }

  lemma {:induction false} StepsLinear(a: bv8, b: bv8, gen: bv8, n: nat)
    ensures Steps(Plus(a, b), gen, n) == Plus(Steps(a, gen, n), Steps(b, gen, n))
    decreases n
  {
    hide Step, Plus;
    if n == 0 {
    } else {
      StepLinear(a, b, gen);
      StepsLinear(Step(a, gen), Step(b, gen), gen, n - 1);
    }
  }

  /** Register and message together: the division is xor-linear. */
  lemma {:induction false} DivideLinear(c: bv8, d: bv8, gen: bv8, a: seq<bv8>, b: seq<bv8>)
    requires |a| == |b|
    ensures Divide(Plus(c, d), gen, PlusAll(a, b)) == Plus(Divide(c, gen, a), Divide(d, gen, b))
    decreases |a|
  {
    hide Steps, Plus;
    if a == [] {
    } else {
      PlusLaws(a[0], b[0], c, d);
      StepsLinear(Plus(a[0], c), Plus(b[0], d), gen, 8);
      assert PlusAll(a, b)[1..] == PlusAll(a[1..], b[1..]);
      DivideLinear(Steps(Plus(a[0], c), gen, 8), Steps(Plus(b[0], d), gen, 8), gen, a[1..], b[1..]);
    }
  }

  /** The register after a message is the starting point for the next one. */
  lemma {:induction false} DivideComposes(c: bv8, gen: bv8, a: seq<bv8>, b: seq<bv8>)
    ensures Divide(c, gen, a + b) == Divide(Divide(c, gen, a), gen, b)
    decreases |a|
  {
    hide Steps, Plus;
    if a == [] {
      assert a + b == b;
    } else {
      assert (a + b)[1..] == a[1..] + b;
      DivideComposes(Steps(Plus(a[0], c), gen, 8), gen, a[1..], b);
    }
  }

  lemma {:induction false} StepsOfZero(gen: bv8, n: nat)
    ensures Steps(0, gen, n) == 0
    decreases n
  {
    if n == 0 {
    } else {
      StepsOfZero(gen, n - 1);
    }
  }

  /** A message followed by its own CRC byte leaves register zero. */
  lemma CheckByteCancels(c: bv8, gen: bv8, msg: seq<bv8>)
    ensures Divide(c, gen, msg + [Divide(c, gen, msg)]) == 0
  {
    hide Steps, Plus;
    var r := Divide(c, gen, msg);
    DivideComposes(c, gen, msg, [r]);
    PlusLaws(r, r, r, r);
    StepsOfZero(gen, 8);
    assert [r][1..] == [];
  }

  // ------------------------------------------------- division of polynomials

  /** A polynomial over GF(2): its coefficients from x^8 up, the highest first, and the
      eight below as a byte. */
  datatype Poly = Poly(hi: seq<bool>, lo: bv8)

  predicate Top(b: bv8) {
    b & 0x80 != 0
  }

  function TimesX(p: Poly): Poly {
    Poly(p.hi + [Top(p.lo)], p.lo << 1)
  }

  /** p and x^8 + gen together. */
  function WithGen(p: Poly, gen: bv8): Poly
    requires p.hi != []
  {
    Poly(p.hi[..|p.hi| - 1] + [!p.hi[|p.hi| - 1]], Plus(p.lo, gen))
  }

  /** The product of x^8 + gen with the polynomial of coefficients q, highest first. */
  function Multiple(q: seq<bool>, gen: bv8): (p: Poly)
    ensures |p.hi| == |q|
  {
    if q == [] then Poly([], 0)
    else
      var p := TimesX(Multiple(q[..|q| - 1], gen));
      if q[|q| - 1] then WithGen(p, gen) else p
  }

  /** The first n bits of b, and what is left of b after them. */
  function BitsOf(b: bv8, n: nat): seq<bool>
    decreases n
  {
    if n == 0 then [] else [Top(b)] + BitsOf(b << 1, n - 1)
  }

  function Rest(b: bv8, n: nat): bv8
    decreases n
  {
    if n == 0 then b else Rest(b << 1, n - 1)
  }

  function MessageBits(msg: seq<bv8>): seq<bool> {
    if msg == [] then [] else BitsOf(msg[0], 8) + MessageBits(msg[1..])
  }

  lemma TopOfPlus(s: bv8, w: bv8)
    requires (s == 0 || s == 0x80) && (w == 0 || w == 0x80)
    ensures Plus(s, w) != 0 <==> (s != 0) != (w != 0)
  {
  }

  lemma OneBit(s: bv8, w: bv8, gen: bv8)
    ensures Top(Plus(s, w)) == (Top(s) != Top(w))
    ensures Plus(s, w) << 1 == Plus(s << 1, w << 1)
    ensures Step(s, gen) == if Top(s) then Plus(s << 1, gen) else s << 1
    ensures Plus(Plus(s << 1, w << 1), gen) == Plus(Plus(s << 1, gen), w << 1)
  {
    TopBit(s, w);
    TopBit(w, s);
    TopOfPlus(s & 0x80, w & 0x80);
    hide Plus;
    Regroup(s << 1, w << 1, gen);
  }

  /** One step of the register is one more digit of the quotient: w holds the bits that
      are yet to come. */
  lemma Digit(q: seq<bool>, gen: bv8, bits: seq<bool>, s: bv8, w: bv8)
    requires Multiple(q, gen) == Poly(bits, Plus(s, w))
    ensures Multiple(q + [Top(s)], gen) == Poly(bits + [Top(w)], Plus(Step(s, gen), w << 1))
  {
    hide Plus, Top, Step;
    OneBit(s, w, gen);
    assert (q + [Top(s)])[..|q|] == q;
    assert TimesX(Multiple(q, gen)).hi[..|bits|] == bits;
  }

  lemma {:induction false} Digits(q: seq<bool>, gen: bv8, bits: seq<bool>, s: bv8, w: bv8, n: nat) returns (r: seq<bool>)
    requires Multiple(q, gen) == Poly(bits, Plus(s, w))
    ensures Multiple(r, gen) == Poly(bits + BitsOf(w, n), Plus(Steps(s, gen, n), Rest(w, n)))
    decreases n
  {
    hide Plus, Step, Multiple, Top;
    if n == 0 {
      r := q;
      assert bits + [] == bits;
    } else {
      Digit(q, gen, bits, s, w);
      r := Digits(q + [Top(s)], gen, bits + [Top(w)], Step(s, gen), w << 1, n - 1);
      assert bits + [Top(w)] + BitsOf(w << 1, n - 1) == bits + BitsOf(w, n);
    }
  }

  lemma ShiftedOut(b: bv8)
    ensures b << 1 << 1 << 1 << 1 << 1 << 1 << 1 << 1 == 0
  {
  }

  lemma NothingLeft(b: bv8)
    ensures Rest(b, 8) == 0
  {
    var b4 := b << 1 << 1 << 1 << 1;
    assert Rest(b, 8) == Rest(b << 1 << 1, 6) == Rest(b4, 4) == Rest(b4 << 1 << 1, 2) == b4 << 1 << 1 << 1 << 1;
    ShiftedOut(b);
  }

  lemma {:induction false} QuotientOf(q: seq<bool>, gen: bv8, bits: seq<bool>, c: bv8, msg: seq<bv8>) returns (r: seq<bool>)
    requires Multiple(q, gen) == Poly(bits, c)
    ensures Multiple(r, gen) == Poly(bits + MessageBits(msg), Divide(c, gen, msg))
    decreases |msg|
  {
    hide Plus, Steps, Multiple, Rest, BitsOf;
    if msg == [] {
      r := q;
      assert bits + [] == bits;
    } else {
      var s := Plus(msg[0], c);
      PlusLaws(c, msg[0], 0, 0);
      r := Digits(q, gen, bits, s, msg[0], 8);
      NothingLeft(msg[0]);
      PlusLaws(Steps(s, gen, 8), 0, 0, 0);
      r := QuotientOf(r, gen, bits + BitsOf(msg[0], 8), Steps(s, gen, 8), msg[1..]);
      assert bits + BitsOf(msg[0], 8) + MessageBits(msg[1..]) == bits + MessageBits(msg);
    }
  }

  lemma LastDigit(q: seq<bool>, gen: bv8)
    requires q != []
    ensures var p, before := Multiple(q, gen), Multiple(q[..|q| - 1], gen);
            p.hi[..|q| - 1] == before.hi && p.hi[|q| - 1] == (Top(before.lo) != q[|q| - 1])
  {
    hide Plus, Top;
  }

  /** Equal in the coefficients from x^8 up, two multiples are equal. */
  lemma {:induction false} MultipleUnique(p: seq<bool>, q: seq<bool>, gen: bv8)
    requires Multiple(p, gen).hi == Multiple(q, gen).hi
    ensures p == q
    decreases |p|
  {
    hide Plus, Top, Multiple;
    if p != [] {
      LastDigit(p, gen);
      LastDigit(q, gen);
      MultipleUnique(p[..|p| - 1], q[..|q| - 1], gen);
      assert p == p[..|p| - 1] + [p[|p| - 1]] && q == q[..|q| - 1] + [q[|q| - 1]];
    }
  }

  /** The CRC is the remainder: the one byte r such that message times x^8 plus r is a
      multiple of x^8 + gen. */
  lemma RemainderExact(gen: bv8, msg: seq<bv8>, r: bv8)
    ensures (exists q :: Multiple(q, gen) == Poly(MessageBits(msg), r)) <==> r == Divide(0, gen, msg)
  {
    hide Plus, Steps, MessageBits;
    var q := QuotientOf([], gen, [], 0, msg);
    assert [] + MessageBits(msg) == MessageBits(msg);
    if p :| Multiple(p, gen) == Poly(MessageBits(msg), r) {
      MultipleUnique(p, q, gen);
    }
  }

  /** Another start value counts as if added to the first byte. */
  lemma StartIsAdded(c: bv8, gen: bv8, msg: seq<bv8>)
    requires msg != []
    ensures Divide(c, gen, msg) == Divide(0, gen, [Plus(msg[0], c)] + msg[1..])
  {
    hide Plus, Steps;
    PlusLaws(Plus(msg[0], c), 0, 0, 0);
    assert ([Plus(msg[0], c)] + msg[1..])[1..] == msg[1..];
  }

  // --------------------------------------------------------------- injectivity

  lemma ShiftInjective(a: bv8, b: bv8)
    requires a << 1 == b << 1 && a & 0x80 == b & 0x80
    ensures a == b
  {
  }

  lemma LowBit(a: bv8, gen: bv8)
    requires gen & 1 == 1
    ensures (a << 1) & 1 == 0 && Plus(a << 1, gen) & 1 == 1
  {
  }

  /** The generator's low bit tells which branch was taken. */
  lemma StepInjective(a: bv8, b: bv8, gen: bv8)
    requires gen & 1 == 1 && Step(a, gen) == Step(b, gen)
    ensures a == b
  {
    hide Plus;
    TopBit(a, b);
    TopBit(b, a);
    LowBit(a, gen);
    LowBit(b, gen);
    PlusLaws(a << 1, gen, 0, 0);
    PlusLaws(b << 1, gen, 0, 0);
    assert a & 0x80 == b & 0x80;
    assert a << 1 == b << 1;
    ShiftInjective(a, b);
  }

  lemma {:induction false} StepsInjective(a: bv8, b: bv8, gen: bv8, n: nat)
    requires gen & 1 == 1 && Steps(a, gen, n) == Steps(b, gen, n)
    ensures a == b
    decreases n
  {
    hide Step;
    if n == 0 {
    } else {
      StepsInjective(Step(a, gen), Step(b, gen), gen, n - 1);
      StepInjective(a, b, gen);
    }
  }

  lemma {:induction false} DivideInjective(c: bv8, d: bv8, gen: bv8, msg: seq<bv8>)
    requires gen & 1 == 1 && Divide(c, gen, msg) == Divide(d, gen, msg)
    ensures c == d
    decreases |msg|
  {
    hide Plus, Steps;
    if msg == [] {
    } else {
      DivideInjective(Steps(Plus(msg[0], c), gen, 8), Steps(Plus(msg[0], d), gen, 8), gen, msg[1..]);
      StepsInjective(Plus(msg[0], c), Plus(msg[0], d), gen, 8);
      PlusLaws(c, msg[0], 0, 0);
      PlusLaws(d, msg[0], 0, 0);
    }
  }

  // -------------------------------------------------------------------- bursts

  function Shl(b: bv8, n: nat): bv8
    requires n <= 8
  {
    b << n
  }

  function Shr(b: bv8, n: nat): bv8
    requires n <= 8
  {
    b >> n
  }

  /** The two bytes that a window of 8 consecutive bits touches, when its first s
      bits are the last s of the first byte: every bit outside the window is 0. */
  predicate InWindow(first: bv8, second: bv8, s: nat)
    requires s <= 8
  {
    Shr(first, s) == 0 && Shl(second, 8 - s) == 0
  }

  lemma TopClear(b: bv8, n: nat)
    requires 0 < n <= 8 && Shr(b, 8 - n) == 0
    ensures b & 0x80 == 0 && Shr(b << 1, 8 - (n - 1)) == 0
    ensures Shl(b << 1, n - 1) == Shl(b, n)
  {
    assert n == 1 || n == 2 || n == 3 || n == 4 || n == 5 || n == 6 || n == 7 || n == 8;
  }

  /** While no bit reaches the top, stepping only shifts. */
  lemma {:induction false} StepsShift(b: bv8, gen: bv8, n: nat)
    requires n <= 8 && Shr(b, 8 - n) == 0
    ensures Steps(b, gen, n) == Shl(b, n)
    decreases n
  {
    if n == 0 {
    } else {
      TopClear(b, n);
      StepsShift(b << 1, gen, n - 1);
    }
  }

  lemma {:induction false} StepsAdd(b: bv8, gen: bv8, m: nat, n: nat)
    ensures Steps(b, gen, m + n) == Steps(Steps(b, gen, m), gen, n)
    decreases m
  {
    hide Step;
    if m == 0 {
    } else {
      StepsAdd(Step(b, gen), gen, m - 1, n);
    }
  }

  lemma WindowParts(first: bv8, second: bv8, s: nat)
    requires s <= 8 && InWindow(first, second, s)
    ensures Shr(Shr(second, s), 8 - s) == 0 && Shl(Shr(second, s), s) == second
    ensures Shr(first, 8 - (8 - s)) == 0
    ensures Shl(first, 8 - s) == Shr(second, s) ==> first == 0 && second == 0
  {
    assert s == 0 || s == 1 || s == 2 || s == 3 || s == 4 || s == 5 || s == 6 || s == 7 || s == 8;
  }

  lemma PlusZero(a: bv8, b: bv8)
    ensures Plus(a, b) == 0 <==> a == b
  {
  }

  /** Feeding both bytes of a window to an empty register leaves it non-empty. */
  lemma WindowSeen(first: bv8, second: bv8, s: nat, gen: bv8)
    requires gen & 1 == 1 && s <= 8 && InWindow(first, second, s) && (first != 0 || second != 0)
    ensures Plus(second, Steps(first, gen, 8)) != 0
  {
    hide Step, Plus, Steps, Shl, Shr;
    WindowParts(first, second, s);
    StepsAdd(first, gen, 8 - s, s);
    StepsShift(first, gen, 8 - s);
    StepsShift(Shr(second, s), gen, s);
    if Steps(first, gen, 8) == second {
      StepsInjective(Shl(first, 8 - s), Shr(second, s), gen, s);
    }
    PlusZero(second, Steps(first, gen, 8));
  }

  /** The byte after position at; after the last one there is nothing to disturb. */
  function ByteAfter(e: seq<bv8>, at: nat): bv8 {
    if at + 1 < |e| then e[at + 1] else 0
  }

  /** An error pattern whose non-zero bits all lie within 8 consecutive bits: in
      one byte, or across the boundary of two. */
  ghost predicate IsBurst(e: seq<bv8>, at: nat, s: nat) {
    && s <= 8 && at < |e|
    && InWindow(e[at], ByteAfter(e, at), s) && (e[at] != 0 || ByteAfter(e, at) != 0)
    && forall i | 0 <= i < |e| && i != at && i != at + 1 :: e[i] == 0
  }

  lemma {:induction false} DivideZeros(gen: bv8, e: seq<bv8>)
    requires forall i | 0 <= i < |e| :: e[i] == 0
    ensures Divide(0, gen, e) == 0
    decreases |e|
  {
    if e == [] {
    } else {
      StepsOfZero(gen, 8);
      PlusZero(e[0], 0);
      DivideZeros(gen, e[1..]);
    }
  }

  /** A non-empty register stays non-empty while zeros are fed to it. */
  lemma ZerosKeep(r: bv8, gen: bv8, rest: seq<bv8>)
    requires gen & 1 == 1 && r != 0 && forall i | 0 <= i < |rest| :: rest[i] == 0
    ensures Divide(r, gen, rest) != 0
  {
    DivideZeros(gen, rest);
    if Divide(r, gen, rest) == 0 {
      DivideInjective(r, 0, gen, rest);
    }
  }

  lemma StepsKeep(r: bv8, gen: bv8)
    requires gen & 1 == 1 && r != 0
    ensures Steps(r, gen, 8) != 0
  {
    hide Steps;
    StepsOfZero(gen, 8);
    if Steps(r, gen, 8) == 0 {
      StepsInjective(r, 0, gen, 8);
    }
  }

  lemma BurstSeen(gen: bv8, e: seq<bv8>, at: nat, s: nat)
    requires gen & 1 == 1 && IsBurst(e, at, s)
    ensures Divide(0, gen, e) != 0
  {
    hide Plus, Steps, InWindow;
    var first, second := e[at], ByteAfter(e, at);
    var tail := e[at + 1..];
    assert e == e[..at] + ([first] + tail);
    DivideComposes(0, gen, e[..at], [first] + tail);
    DivideZeros(gen, e[..at]);
    PlusLaws(first, first, 0, 0);
    assert ([first] + tail)[1..] == tail;
    var r := Steps(first, gen, 8);
    assert Divide(0, gen, e) == Divide(r, gen, tail);
    WindowSeen(first, second, s, gen);
    if tail == [] {
      PlusLaws(0, r, 0, 0);
      PlusLaws(r, r, 0, 0);
    } else {
      StepsKeep(Plus(second, r), gen);
      ZerosKeep(Steps(Plus(second, r), gen, 8), gen, tail[1..]);
    }
  }

  lemma PlusZeroRight(a: bv8, b: bv8)
    ensures Plus(a, b) == a <==> b == 0
  {
  }

  /** Whatever the message and the starting value, an error confined to 8
      consecutive bits changes the CRC, for every generator with its low bit set. */
  lemma BurstDetected(c: bv8, gen: bv8, msg: seq<bv8>, e: seq<bv8>, at: nat, s: nat)
    requires gen & 1 == 1 && |msg| == |e| && IsBurst(e, at, s)
    ensures Divide(c, gen, PlusAll(msg, e)) != Divide(c, gen, msg)
  {
    hide Plus, Divide, IsBurst;
    DivideLinear(c, 0, gen, msg, e);
    PlusLaws(c, c, 0, 0);
    BurstSeen(gen, e, at, s);
    PlusZeroRight(Divide(c, gen, msg), Divide(0, gen, e));
  }

  lemma HalfGenerator(gen: bv8)
    requires gen & 1 == 0
    ensures Step(Plus(0x80, gen >> 1), gen) == 0 && Plus(0x80, gen >> 1) != 0
  {
  }

  /** With an even generator a one-byte error is divided away: shifting 0x80 or
      the generator's own half gives the same register. */
  lemma EvenGeneratorIsBlind(gen: bv8)
    requires gen & 1 == 0
    ensures var e := Plus(0x80, gen >> 1);
            IsBurst([e], 0, 8) && Divide(0, gen, [e]) == 0
  {
    var e := Plus(0x80, gen >> 1);
    HalfGenerator(gen);
    StepsOfZero(gen, 7);
    assert Steps(e, gen, 8) == 0;
    PlusZero(e, 0);
    PlusLaws(e, 0, 0, 0);
    assert [e][1..] == [];
  }

  lemma LowBitIsBit(gen: bv8)
    ensures gen & 1 == 0 || gen & 1 == 1
  {
  }

  /** All errors confined to 8 consecutive bits are seen exactly when the
      generator's low bit is set. */
  lemma BurstsSeenIffOdd(gen: bv8)
    ensures gen & 1 == 1 <==> forall e, at, s | IsBurst(e, at, s) :: Divide(0, gen, e) != 0
  {
    hide Divide, IsBurst;
    if gen & 1 == 1 {
      forall e, at, s | IsBurst(e, at, s) ensures Divide(0, gen, e) != 0 {
        BurstSeen(gen, e, at, s);
      }
    } else {
      LowBitIsBit(gen);
      EvenGeneratorIsBlind(gen);
    }
  }

  // -------------------------------------------------------------------- the code

  function Index(b: bv8): (i: nat)
    ensures i < 256
  {
    b as nat
  }

  function ByteAt(i: nat): bv8
    requires i < 256
  {
    i as bv8
  }

  lemma ByteOfIndex(b: bv8)
    ensures ByteAt(Index(b)) == b
  {
  }

  class Crc {
    const table: array<bv8>     // crc8Table

    /** Each entry is what dividing that byte leaves. */
    ghost predicate Built(gen: bv8)
      reads table
    {
      table.Length == 256 && forall b: bv8 :: table[Index(b)] == Steps(b, gen, 8)
    }

    constructor (gen: bv8)
      ensures Built(gen) && fresh(table)
    {
      table := new bv8[256];
      new;
      CalculateTable(gen);
    }

    /** The inner loop: the CRC of one byte, bit by bit. */
    static method Entry(divident: bv8, gen: bv8) returns (currByte: bv8)
      ensures currByte == Steps(divident, gen, 8)
    {
      currByte := divident;
      var bit := 0;
      while bit < 8
        invariant 0 <= bit <= 8
        invariant Steps(currByte, gen, 8 - bit) == Steps(divident, gen, 8)
      {
        if currByte & 0x80 != 0 {
          currByte := currByte << 1;
          currByte := currByte ^ gen;
        } else {
          currByte := currByte << 1;
        }
        bit := bit + 1;
      }
    }

    /** CalulateTable_CRC8, by way of crc8Init. */
    method CalculateTable(gen: bv8)
      requires table.Length == 256
      modifies table
      ensures Built(gen)
    {
      hide ByteAt, Index;
      var divident := 0;
      while divident < 256
        invariant 0 <= divident <= 256
        invariant forall i: nat | i < divident :: table[i] == Steps(ByteAt(i), gen, 8)
      {
        table[divident] := Entry(ByteAt(divident), gen);
        divident := divident + 1;
      }
      forall b: bv8 ensures table[Index(b)] == Steps(b, gen, 8) {
        ByteOfIndex(b);
      }
    }

    /** calcCrc8 computes the remainder of the division. */
    method CalcCrc8(lastCrc: bv8, buf: seq<bv8>, ghost gen: bv8) returns (crc: bv8)
      requires Built(gen)
      ensures crc == Divide(lastCrc, gen, buf)
    {
      hide Index, Steps;
      crc := lastCrc;
      var i := 0;
      while i < |buf|
        invariant 0 <= i <= |buf|
        invariant Divide(crc, gen, buf[i..]) == Divide(lastCrc, gen, buf)
      {
        assert buf[i..][0] == buf[i] && buf[i..][1..] == buf[i + 1..];
        crc := table[Index(buf[i] ^ crc)];
        i := i + 1;
      }
    }
  }
}
