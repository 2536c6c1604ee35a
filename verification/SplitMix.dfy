/** The splitmix64 generator of the property suite, on unsigned 64-bit words. */
module SplitMix {

  const WORDS: nat := 0x1_0000_0000_0000_0000
  type U64 = n: nat | n < WORDS

  /******* Words and their bits *******/

  function Pow2(n: nat): (p: nat)
    ensures p > 0
  {
    if n == 0 then 1 else 2 * Pow2(n - 1)
  }

  /** The `len` low bits of a number, least significant first. */
  function Bits(n: nat, len: nat): (bits: seq<bool>)
    ensures |bits| == len
  {
    if len == 0 then [] else [n % 2 == 1] + Bits(n / 2, len - 1)
  }

  function Value(bits: seq<bool>): nat {
    if bits == [] then 0 else (if bits[0] then 1 else 0) + 2 * Value(bits[1..])
  }

  lemma {:induction false} BitsOfValue(bits: seq<bool>)
    ensures Bits(Value(bits), |bits|) == bits
    ensures Value(bits) < Pow2(|bits|)
  {
    if bits != [] {
      BitsOfValue(bits[1..]);
    }
  }

  lemma {:induction false} ValueOfBits(n: nat, len: nat)
    requires n < Pow2(len)
    ensures Value(Bits(n, len)) == n
  {
    if len > 0 {
      ValueOfBits(n / 2, len - 1);
      assert Bits(n, len)[1..] == Bits(n / 2, len - 1);
    }
  }

  lemma EightMoreBits(n: nat)
    ensures Pow2(n + 8) == 0x100 * Pow2(n)
  {
    assert Pow2(n + 4) == 2 * Pow2(n + 3) == 4 * Pow2(n + 2) == 8 * Pow2(n + 1) == 16 * Pow2(n);
    assert Pow2(n + 8) == 2 * Pow2(n + 7) == 4 * Pow2(n + 6) == 8 * Pow2(n + 5) == 16 * Pow2(n + 4);
  }

  lemma Pow2Of64()
    ensures Pow2(64) == WORDS
  {
    EightMoreBits(0);
    EightMoreBits(8);
    EightMoreBits(16);
    EightMoreBits(24);
    EightMoreBits(32);
    EightMoreBits(40);
    EightMoreBits(48);
    EightMoreBits(56);
  }

  /******* The two kinds of stage *******/

  /** Bit `i` of `bits >> k`. */
  predicate Shifted(bits: seq<bool>, k: nat, i: nat) {
    i + k < |bits| && bits[i + k]
  }

  lemma HalveThenDivide(n: nat, p: nat)
    requires p > 0
    ensures n / 2 / p == n / (2 * p)
  {
    var q, r := n / 2 / p, n / 2 % p;
    assert n == 2 * p * q + (2 * r + n % 2) by {
      assert n / 2 == q * p + r;
    }
    assert 2 * r + n % 2 < 2 * p;
    QuotientIs(n, 2 * p, q, 2 * r + n % 2);
  }

  lemma QuotientIs(n: nat, p: nat, q: nat, r: nat)
    requires p > 0 && n == p * q + r && r < p
    ensures n / p == q
  {
    var d := n / p - q;
    assert p * d == r - n % p;
  }

  /** More places do not change the lower bits, and the place beyond the value is clear. */
  lemma {:induction false} BitsExtend(n: nat, len: nat, i: nat)
    requires i <= len
    ensures i < len ==> Bits(n, len + 1)[i] == Bits(n, len)[i]
    ensures i == len && n < Pow2(len) ==> !Bits(n, len + 1)[i]
  {
    if i > 0 {
      BitsExtend(n / 2, len - 1, i - 1);
    }
  }

  /** Shifting right by `k` bits is dividing by two to the `k`. */
  lemma {:induction false} ShiftIsDivision(n: nat, len: nat, k: nat, i: nat)
    requires n < Pow2(len) && i < len
    ensures Shifted(Bits(n, len), k, i) == Bits(n / Pow2(k), len)[i]
  {
    if k > 0 {
      ShiftIsDivision(n / 2, len, k - 1, i);
      HalveThenDivide(n, Pow2(k - 1));
      if i + k <= len {
        BitsExtend(n / 2, len - 1, i + k - 1);
      }
    }
  }

  /** Bitwise `bits ^ (bits >> k)`. */
  function XorShiftBits(bits: seq<bool>, k: nat): (r: seq<bool>)
    ensures |r| == |bits|
  {
    seq(|bits|, i requires 0 <= i < |bits| => bits[i] != Shifted(bits, k, i))
  }

  /** Bitwise `bits ^ (bits >> k) ^ (bits >> 2k)`. */
  function UnshiftBits(bits: seq<bool>, k: nat): (r: seq<bool>)
    ensures |r| == |bits|
  {
    seq(|bits|, i requires 0 <= i < |bits| => (bits[i] != Shifted(bits, k, i)) != Shifted(bits, 2 * k, i))
  }

  /** A shift by at least a third of the word is undone by shifting once and twice. */
  lemma UnshiftUndoesXorShift(bits: seq<bool>, k: nat)
    requires |bits| <= 3 * k
    ensures UnshiftBits(XorShiftBits(bits, k), k) == bits
    ensures XorShiftBits(UnshiftBits(bits, k), k) == bits
  {
  }

  /** `z ^ (z >> k)` on a word. */
  function XorShift(z: U64, k: nat): U64 {
    Pow2Of64();
    BitsOfValue(XorShiftBits(Bits(z, 64), k));
    Value(XorShiftBits(Bits(z, 64), k))
  }

  /** `z ^ (z >> k) ^ (z >> 2k)` on a word. */
  function Unshift(z: U64, k: nat): U64 {
    Pow2Of64();
    BitsOfValue(UnshiftBits(Bits(z, 64), k));
    Value(UnshiftBits(Bits(z, 64), k))
  }

  lemma UnshiftIsInverse(z: U64, k: nat)
    requires 64 <= 3 * k
    ensures Unshift(XorShift(z, k), k) == z
    ensures XorShift(Unshift(z, k), k) == z
  {
    Pow2Of64();
    ValueOfBits(z, 64);
    var bits := Bits(z, 64);
    BitsOfValue(XorShiftBits(bits, k));
    BitsOfValue(UnshiftBits(bits, k));
    UnshiftUndoesXorShift(bits, k);
  }

  /** `wrapping_mul`. */
  function WrappingMul(z: U64, c: U64): U64 {
    z * c % WORDS
  }

  /** `wrapping_add`. */
  function WrappingAdd(z: U64, c: U64): U64 {
    (z + c) % WORDS
  }

  lemma ModAddMultiple(z: U64, x: int, k: int)
    requires x == z + WORDS * k
    ensures x % WORDS == z
  {
  }

  /** Multiplying by `c` and then by its inverse modulo 2^64 gives the word back. */
  lemma {:induction false} MulInverse(z: U64, c: U64, inverse: U64, t: nat)
    requires c * inverse == 1 + t * WORDS
    ensures WrappingMul(WrappingMul(z, c), inverse) == z
  {
    var q, r := z * c / WORDS, z * c % WORDS;
    calc {
      r * inverse;
      (z * c - q * WORDS) * inverse;
      z * (c * inverse) - q * WORDS * inverse;
      z * (1 + t * WORDS) - q * WORDS * inverse;
      z + WORDS * (z * t - q * inverse);
    }
    ModAddMultiple(z, r * inverse, z * t - q * inverse);
  }

  /******* The generator *******/

  const INCREMENT: U64 := 0x9e37_79b9_7f4a_7c15
  const INCREMENT_INVERSE: U64 := 0xf1de_83e1_9937_733d
  const FACTOR1: U64 := 0xbf58_476d_1ce4_e5b9
  const FACTOR1_INVERSE: U64 := 0x96de_1b17_3f11_9089
  const FACTOR2: U64 := 0x94d0_49bb_1331_11eb
  const FACTOR2_INVERSE: U64 := 0x3196_42b2_d24d_8ec3

  // factor * inverse == 1 + carry * 2^64
  const INCREMENT_CARRY: nat := 0x957b_bf35_006e_d677
  const FACTOR1_CARRY: nat := 0x70c3_bca7_8f27_f46c
  const FACTOR2_CARRY: nat := 0x1cd3_36ed_a85f_1453

  function Mix(state: U64): U64 {
    var z := WrappingMul(XorShift(state, 30), FACTOR1);
    var z := WrappingMul(XorShift(z, 27), FACTOR2);
    XorShift(z, 31)
  }

  /** The inverse of `Mix`, stage by stage. */
  function Unmix(output: U64): U64 {
    var z := WrappingMul(Unshift(output, 31), FACTOR2_INVERSE);
    var z := WrappingMul(Unshift(z, 27), FACTOR1_INVERSE);
    Unshift(z, 30)
  }

  /** The state after `calls` calls. */
  function After(seed: U64, calls: nat): U64 {
    if calls == 0 then seed else WrappingAdd(After(seed, calls - 1), INCREMENT)
  }

  /** What call number `k`, counted from 0, returns. */
  function Output(seed: U64, k: nat): U64 {
    Mix(After(seed, k + 1))
  }

  class Rng {
    var state: U64
    ghost var seed: U64
    ghost var calls: nat

    ghost predicate Valid()
      reads this
    {
      state == After(seed, calls)
    }

    constructor (seed: U64)
      ensures Valid() && this.seed == seed && calls == 0
    {
      this.state, this.seed, this.calls := seed, seed, 0;
    }

    method Next() returns (z: U64)
      requires Valid()
      modifies this
      ensures Valid() && seed == old(seed) && calls == old(calls) + 1
      ensures z == Output(seed, old(calls))
    {
      state := WrappingAdd(state, INCREMENT);
      z := state;
      z := WrappingMul(XorShift(z, 30), FACTOR1);
      z := WrappingMul(XorShift(z, 27), FACTOR2);
      z := XorShift(z, 31);
      calls := calls + 1;
    }

    /** A number below `n`. */
    method Below(n: U64) returns (r: U64)
      requires Valid() && n > 0
      modifies this
      ensures Valid() && seed == old(seed) && calls == old(calls) + 1
      ensures r == Output(seed, old(calls)) % n
    {
      var z := Next();
      r := z % n;
    }
  }

  lemma InversesAreInverse()
    ensures INCREMENT * INCREMENT_INVERSE == 1 + INCREMENT_CARRY * WORDS
    ensures FACTOR1 * FACTOR1_INVERSE == 1 + FACTOR1_CARRY * WORDS
    ensures FACTOR2 * FACTOR2_INVERSE == 1 + FACTOR2_CARRY * WORDS
  {
  }

  /** `Mix` is a bijection of the words: `Unmix` is its inverse on both sides. */
  lemma {:induction false} MixIsBijective(z: U64)
    ensures Unmix(Mix(z)) == z
    ensures Mix(Unmix(z)) == z
  {
    UnmixAfterMix(z);
    MixAfterUnmix(z);
  }

  lemma UnmixAfterMix(z: U64)
    ensures Unmix(Mix(z)) == z
  {
    var x := XorShift(z, 30);
    var a := WrappingMul(x, FACTOR1);
    var y := XorShift(a, 27);
    var b := WrappingMul(y, FACTOR2);
    InversesAreInverse();
    UnshiftIsInverse(b, 31);
    MulInverse(y, FACTOR2, FACTOR2_INVERSE, FACTOR2_CARRY);
    UnshiftIsInverse(a, 27);
    MulInverse(x, FACTOR1, FACTOR1_INVERSE, FACTOR1_CARRY);
    UnshiftIsInverse(z, 30);
  }

  lemma MixAfterUnmix(z: U64)
    ensures Mix(Unmix(z)) == z
  {
    var y := Unshift(z, 31);
    var b := WrappingMul(y, FACTOR2_INVERSE);
    var x := Unshift(b, 27);
    var a := WrappingMul(x, FACTOR1_INVERSE);
    InversesAreInverse();
    UnshiftIsInverse(a, 30);
    MulInverse(x, FACTOR1_INVERSE, FACTOR1, FACTOR1_CARRY);
    UnshiftIsInverse(b, 27);
    MulInverse(y, FACTOR2_INVERSE, FACTOR2, FACTOR2_CARRY);
    UnshiftIsInverse(z, 31);
  }

  /******* The state walks through every word *******/

  lemma {:induction false} AfterIsLinear(seed: U64, calls: nat)
    ensures After(seed, calls) == (seed + calls * INCREMENT) % WORDS
  {
    if calls > 0 {
      AfterIsLinear(seed, calls - 1);
      var before := seed + (calls - 1) * INCREMENT;
      var q := before / WORDS;
      var sum := before % WORDS + INCREMENT;
      ModAddMultiple(sum % WORDS, before + INCREMENT, q + sum / WORDS);
    }
  }

  /** The distance from one word to another, going up and wrapping around. */
  function Distance(from: U64, to: U64): U64 {
    (to + WORDS - from) % WORDS
  }

  /** Wrapping add reaches a word exactly when it adds the distance to it. */
  lemma AddReaches(from: U64, step: U64, to: U64)
    ensures (from + step) % WORDS == to <==> step == Distance(from, to)
  {
    assert (from + step) % WORDS == if from + step < WORDS then from + step else from + step - WORDS;
    assert Distance(from, to) == if to < from then to + WORDS - from else to - from;
  }

  lemma AddModulo(a: nat, b: nat)
    ensures (a + b % WORDS) % WORDS == (a + b) % WORDS
  {
    var sum := a + b % WORDS;
    ModAddMultiple(sum % WORDS, a + b, sum / WORDS + b / WORDS);
  }

  lemma MulModulo(a: nat, c: nat)
    ensures (a % WORDS) * c % WORDS == a * c % WORDS
  {
    var low, laps := a % WORDS, a / WORDS;
    calc {
      a * c;
      (low + laps * WORDS) * c;
      low * c + WORDS * (laps * c);
    }
    var product := low * c;
    ModAddMultiple(product % WORDS, a * c, product / WORDS + laps * c);
  }

  /** A state is reached after `calls` calls exactly when that many increments cover the distance. */
  lemma StateReached(seed: U64, state: U64, calls: nat)
    ensures After(seed, calls) == state <==> WrappingMul(calls % WORDS, INCREMENT) == Distance(seed, state)
  {
    AfterIsLinear(seed, calls);
    MulModulo(calls, INCREMENT);
    var product := calls * INCREMENT;
    AddModulo(seed, product);
    AddReaches(seed, product % WORDS, state);
  }

  /** The call count, modulo the number of words, that reaches a state. */
  function CallsToReach(seed: U64, state: U64): U64 {
    WrappingMul(Distance(seed, state), INCREMENT_INVERSE)
  }

  lemma ReachedAtOneCount(seed: U64, state: U64, calls: nat)
    ensures After(seed, calls) == state <==> calls % WORDS == CallsToReach(seed, state)
  {
    StateReached(seed, state, calls);
    InversesAreInverse();
    MulInverse(calls % WORDS, INCREMENT, INCREMENT_INVERSE, INCREMENT_CARRY);
    MulInverse(Distance(seed, state), INCREMENT_INVERSE, INCREMENT, INCREMENT_CARRY);
  }

  lemma MixHits(state: U64, output: U64)
    ensures Mix(state) == output <==> state == Unmix(output)
  {
    MixIsBijective(output);
    MixIsBijective(state);
  }

  /** The call that returns a given word: the one that completes the count reaching its state. */
  function CallReturning(seed: U64, output: U64): U64 {
    (CallsToReach(seed, Unmix(output)) + WORDS - 1) % WORDS
  }

  /** Call `k` is preceded by `k` calls and completes `k + 1`, modulo the number of words. */
  lemma CountOfCall(k: U64, count: U64)
    ensures (k + 1) % WORDS == count <==> k == (count + WORDS - 1) % WORDS
  {
  }

  /** A word is returned by a call exactly when its state is reached after it. */
  lemma OutputIsState(seed: U64, k: nat, output: U64)
    ensures Output(seed, k) == output <==> After(seed, k + 1) == Unmix(output)
  {
    MixHits(After(seed, k + 1), output);
  }

  /** From any seed, each word is returned by exactly one of the first 2^64
      calls: their outputs are a permutation of all words. */
  lemma {:induction false} OutputsArePermutation(seed: U64, k: U64, output: U64)
    ensures Output(seed, k) == output <==> k == CallReturning(seed, output)
  {
    var target := Unmix(output);
    var count := CallsToReach(seed, target);
    OutputIsState(seed, k, output);
    ReachedAtOneCount(seed, target, k + 1);
    CountOfCall(k, count);
    assert CallReturning(seed, output) == (count + WORDS - 1) % WORDS;
  }

  /** Two seeds give the same output at the same call only if they are the same seed. */
  lemma {:induction false} SeedsNeverCollide(seed1: U64, seed2: U64, k: nat)
    ensures Output(seed1, k) == Output(seed2, k) <==> seed1 == seed2
  {
    MixHits(After(seed1, k + 1), Output(seed2, k));
    MixHits(After(seed2, k + 1), Output(seed2, k));
    SameStateSameSeed(seed1, seed2, k + 1);
  }

  lemma {:induction false} SameStateSameSeed(seed1: U64, seed2: U64, calls: nat)
    ensures After(seed1, calls) == After(seed2, calls) <==> seed1 == seed2
  {
    AfterIsLinear(seed1, calls);
    AfterIsLinear(seed2, calls);
    var product := calls * INCREMENT;
    AddModulo(seed1, product);
    AddModulo(seed2, product);
    SameLanding(seed1, seed2, product % WORDS);
  }

  lemma SameLanding(a: U64, b: U64, step: U64)
    ensures (a + step) % WORDS == (b + step) % WORDS <==> a == b
  {
  }

  /******* The generator in numbers *******/

  /** Bitwise exclusive or of the `len` low bits. */
  function Xor(a: nat, b: nat, len: nat): nat {
    if len == 0 then 0
    else (if a % 2 != b % 2 then 1 else 0) + 2 * Xor(a / 2, b / 2, len - 1)
  }

  lemma {:induction false} XorBits(a: nat, b: nat, len: nat, i: nat)
    requires i < len
    ensures Bits(Xor(a, b, len), len)[i] <==> Bits(a, len)[i] != Bits(b, len)[i]
  {
    if i > 0 {
      XorBits(a / 2, b / 2, len - 1, i - 1);
    }
  }

  lemma {:induction false} XorBelow(a: nat, b: nat, len: nat)
    ensures Xor(a, b, len) < Pow2(len)
  {
    if len > 0 {
      XorBelow(a / 2, b / 2, len - 1);
    }
  }

  /** The xor-shift on words is the exclusive or with the quotient. */
  lemma XorShiftIsXor(z: U64, k: nat, shifted: nat)
    requires shifted == z / Pow2(k)
    ensures XorShift(z, k) == Xor(z, shifted, 64)
  {
    Pow2Of64();
    var x := Xor(z, shifted, 64);
    XorBelow(z, shifted, 64);
    ValueOfBits(x, 64);
    forall i: nat | i < 64
      ensures XorShiftBits(Bits(z, 64), k)[i] == Bits(x, 64)[i]
    {
      ShiftIsDivision(z, 64, k, i);
      XorBits(z, shifted, 64, i);
    }
    assert XorShiftBits(Bits(z, 64), k) == Bits(x, 64);
  }

  lemma ShiftAmounts()
    ensures Pow2(30) == 0x4000_0000 && Pow2(27) == 0x800_0000 && Pow2(31) == 0x8000_0000
  {
    EightMoreBits(0);
    EightMoreBits(8);
    EightMoreBits(16);
    assert Pow2(27) == 2 * Pow2(26) == 4 * Pow2(25) == 8 * Pow2(24);
    assert Pow2(30) == 2 * Pow2(29) == 4 * Pow2(28) == 8 * Pow2(27);
  }

  /** What call number `k` returns, in plain arithmetic from the seed on. */
  lemma OutputInNumbers(seed: U64, k: nat)
    ensures
      var z := (seed + (k + 1) * 0x9e37_79b9_7f4a_7c15) % 0x1_0000_0000_0000_0000;
      var a := Xor(z, z / 0x4000_0000, 64) * 0xbf58_476d_1ce4_e5b9 % 0x1_0000_0000_0000_0000;
      var b := Xor(a, a / 0x800_0000, 64) * 0x94d0_49bb_1331_11eb % 0x1_0000_0000_0000_0000;
      Output(seed, k) == Xor(b, b / 0x8000_0000, 64)
  {
    ShiftAmounts();
    AfterIsLinear(seed, k + 1);
    var z := After(seed, k + 1);
    XorShiftIsXor(z, 30, z / 0x4000_0000);
    var a := WrappingMul(XorShift(z, 30), FACTOR1);
    XorShiftIsXor(a, 27, a / 0x800_0000);
    var b := WrappingMul(XorShift(a, 27), FACTOR2);
    XorShiftIsXor(b, 31, b / 0x8000_0000);
  }
}
