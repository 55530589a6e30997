/** The seeded xorshift generator of scripts/seededRandom.js. The state is one 32-bit word;
    every draw replaces it by its xorshift (shifts 13, 7, 17) and returns it. */
module Random {

  const TwoTo32: int := 0x1_0000_0000

  /** The three in-place updates of randInt: `x ^= x << 13`, `x ^= x >>> 7`, `x ^= x << 17`
      (`>>` on bv32 is the unsigned shift). */
  function Step13(x: bv32): bv32 { x ^ (x << 13) }
  function Step7(x: bv32): bv32 { x ^ (x >> 7) }
  function Step17(x: bv32): bv32 { x ^ (x << 17) }

  /** One draw: the three updates in order, all modulo 2^32. */
  function XorShift(x: bv32): bv32
  {
    Step17(Step7(Step13(x)))
  }

  /** Undoes Step13. */
  function UnStep13(y: bv32): bv32 { y ^ (y << 13) ^ (y << 26) }

  /** Undoes Step7. */
  function UnStep7(y: bv32): bv32 { y ^ (y >> 7) ^ (y >> 14) ^ (y >> 21) ^ (y >> 28) }

  /** Undoes Step17. */
  function UnStep17(y: bv32): bv32 { y ^ (y << 17) }

  /** The inverse of XorShift: the three updates undone in reverse order. */
  function UnXorShift(y: bv32): bv32
  {
    UnStep13(UnStep7(UnStep17(y)))
  }

  /** Each undo function inverts its update; stated on the update's expression so that the
      solver works on the bits directly. */
  lemma UnStep13Inverts(x: bv32)
    ensures UnStep13(x ^ (x << 13)) == x
  {
  }

  lemma UnStep7Inverts(x: bv32)
    ensures UnStep7(x ^ (x >> 7)) == x
  {
  }

  lemma UnStep17Inverts(x: bv32)
    ensures UnStep17(x ^ (x << 17)) == x
  {
  }

  /** Each update is a bijection on 32-bit words, so XorShift has an inverse. */
  lemma {:induction false} XorShiftRoundTrip(x: bv32)
    ensures UnXorShift(XorShift(x)) == x
  {
    var a := Step13(x);
    var b := Step7(a);
    UnStep17Inverts(b);
    UnStep7Inverts(a);
    UnStep13Inverts(x);
  }

  /** xorshift never maps a nonzero word to zero. */
  lemma XorShiftNonzero(x: bv32)
    requires x != 0
    ensures XorShift(x) != 0
  {
    XorShiftRoundTrip(x);
    assert UnXorShift(0) == 0;
  }

  /** The state after n draws. */
  function Iterate(x: bv32, n: nat): bv32
  {
    if n == 0 then x else XorShift(Iterate(x, n - 1))
  }

  /** A nonzero state stays nonzero however many times it is advanced. */
  lemma {:induction false} IterateNonzero(x: bv32, n: nat)
    requires x != 0
    ensures Iterate(x, n) != 0
  {
    if n > 0 {
      IterateNonzero(x, n - 1);
      XorShiftNonzero(Iterate(x, n - 1));
    }
  }

  /** The state `seed(s)` installs: `s >>> 0`, with a zero word replaced by the fallback
      nonzero seed that generateSeed would draw. */
  function SeedState(s: int, fallback: bv32): (r: bv32)
    requires fallback != 0
    ensures r != 0
    ensures s % TwoTo32 == 0 ==> r == fallback
  {
    var u := s % TwoTo32;
    if u == 0 then fallback else u as bv32
  }

  /** Seeding only sees the seed modulo 2^32. */
  lemma SeedModulo(s: int, fallback: bv32)
    requires fallback != 0
    ensures SeedState(s, fallback) == SeedState(s % TwoTo32, fallback)
  {
    assert (s % TwoTo32) % TwoTo32 == s % TwoTo32;
  }

  /** A drawn word read as the unsigned integer `>>> 0` gives. */
  function Word(x: bv32): (r: nat)
    ensures r < TwoTo32
  {
    x as int
  }

  /** `random()` on the word w just drawn: w / 2^32. */
  function UnitOf(w: nat): (r: real)
    requires w < TwoTo32
    ensures 0.0 <= r < 1.0
  {
    (w as real) / (TwoTo32 as real)
  }

  /** `Math.floor(random() * n)` on the word w just drawn, as integer arithmetic. */
  function RandIndex(w: nat, n: nat): (r: nat)
    requires w < TwoTo32
    ensures n > 0 ==> r < n
  {
    if n > 0 then MulStrict(w, TwoTo32, n); (w * n) / TwoTo32 else 0
  }

  /** The integer formula is exactly the floor of random() * n, and lies in [0, n). */
  lemma RandIndexIsFloor(w: nat, n: nat)
    requires w < TwoTo32
    ensures RandIndex(w, n) == (UnitOf(w) * n as real).Floor
    ensures n > 0 ==> RandIndex(w, n) < n
  {
    RealScale(w as real, n as real, TwoTo32 as real);
    CastMul(w, n);
    FloorOfQuotient(w * n, TwoTo32);
  }

  lemma MulStrict(a: int, b: int, n: int)
    requires a < b && n > 0
    ensures a * n < b * n
  {
    assert b * n - a * n == (b - a) * n;
  }

  lemma RealScale(a: real, n: real, m: real)
    requires m > 0.0
    ensures (a / m) * n == (a * n) / m
  {
  }

  lemma CastMul(a: int, n: int)
    ensures (a * n) as real == a as real * n as real
  {
  }

  lemma FloorOfQuotient(p: nat, d: nat)
    requires d > 0
    ensures (p as real / d as real).Floor == p / d
  {
    var q := p / d;
    assert q * d <= p < (q + 1) * d;
    CastMul(q, d);
    CastMul(q + 1, d);
    DivAtLeast(p as real, q as real, d as real);
    DivBelow(p as real, (q + 1) as real, d as real);
  }

  lemma DivAtLeast(a: real, b: real, d: real)
    requires d > 0.0 && b * d <= a
    ensures b <= a / d
  {
    assert a / d - b == (a - b * d) / d;
  }

  lemma DivBelow(a: real, b: real, d: real)
    requires d > 0.0 && a < b * d
    ensures a / d < b
  {
    assert b - a / d == (b * d - a) / d;
  }

  /** The value randIntRange(min, max) takes from the word w just drawn. JS `%` on a
      nonnegative dividend has the sign of the dividend, which Dafny's `%` gives too. */
  function RangeValue(w: nat, min: int, max: int): (r: int)
    requires min != max
    ensures min < max ==> min <= r < max
    ensures max < min ==> min <= r < min + (min - max)
  {
    min + (w % (max - min))
  }

  class SeededRandom {
    var state: bv32

    ghost predicate Valid()
      reads this
    {
      state != 0
    }

    /** `new SeededRandom(s)`: fallback stands for generateSeed's nonzero result. */
    constructor (s: int, fallback: bv32)
      requires fallback != 0
      ensures Valid() && state == SeedState(s, fallback)
    {
      state := SeedState(s, fallback);
    }

    method Seed(s: int, fallback: bv32)
      requires fallback != 0
      modifies this
      ensures Valid() && state == SeedState(s, fallback)
    {
      var u := s % TwoTo32;
      if u == 0 {
        u := fallback as int;
      }
      state := u as bv32;
    }

    method RandInt() returns (r: bv32)
      modifies this
      ensures r == XorShift(old(state)) && state == r
      ensures old(state) != 0 ==> Valid()
    {
      state := Step13(state);
      state := Step7(state);
      state := Step17(state);
      r := state;
      if old(state) != 0 {
        XorShiftNonzero(old(state));
      }
    }

    method Random() returns (r: real)
      modifies this
      ensures state == XorShift(old(state)) && r == UnitOf(Word(state))
      ensures 0.0 <= r < 1.0
      ensures old(state) != 0 ==> Valid()
    {
      var x := RandInt();
      r := (Word(x) as real) / (TwoTo32 as real);
    }

    method RandIntRange(min: int, max: int) returns (r: int)
      modifies this
      ensures min == max ==> r == min && state == old(state)
      ensures min != max ==> state == XorShift(old(state)) && r == RangeValue(Word(state), min, max)
      ensures min < max ==> min <= r < max
      ensures old(state) != 0 ==> Valid()
    {
      if min == max {
        return min;
      }
      var x := RandInt();
      r := min + (Word(x) % (max - min));
    }
  }

  /** Two generators seeded alike return the same words and the same units, draw by draw:
      here each round takes one randInt and then one random from each generator. */
  method SameSeedSameStream(s: int, fallback: bv32, n: nat)
    returns (words1: seq<bv32>, words2: seq<bv32>, units1: seq<real>, units2: seq<real>)
    requires fallback != 0
    ensures words1 == words2 && units1 == units2
    ensures |words1| == |units1| == n
    ensures forall k :: 0 <= k < n ==> words1[k] == Iterate(SeedState(s, fallback), 2 * k + 1)
    ensures forall k :: 0 <= k < n ==> units1[k] == UnitOf(Word(Iterate(SeedState(s, fallback), 2 * k + 2)))
  {
    var g1 := new SeededRandom(s, fallback);
    var g2 := new SeededRandom(s, fallback);
    ghost var x := g1.state;
    words1, words2, units1, units2 := [], [], [], [];
    var k := 0;
    while k < n
      invariant 0 <= k <= n
      invariant g1.state == g2.state == Iterate(x, 2 * k)
      invariant |words1| == |units1| == k
      invariant words1 == words2 && units1 == units2
      invariant forall i :: 0 <= i < k ==> words1[i] == Iterate(x, 2 * i + 1)
      invariant forall i :: 0 <= i < k ==> units1[i] == UnitOf(Word(Iterate(x, 2 * i + 2)))
    {
      var w1 := g1.RandInt();
      var w2 := g2.RandInt();
      assert w1 == w2 == Iterate(x, 2 * k + 1);
      var u1 := g1.Random();
      var u2 := g2.Random();
      assert u1 == u2 == UnitOf(Word(Iterate(x, 2 * k + 2)));
      words1, words2 := words1 + [w1], words2 + [w2];
      units1, units2 := units1 + [u1], units2 + [u2];
      k := k + 1;
    }
  }
}
