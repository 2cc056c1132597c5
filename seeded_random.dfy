/**
 * The Park-Miller "minimal standard" Lehmer generator of SeededRandom.ts and
 * SeededRandom.js (the two files hold the same code): state' = state * 16807
 * mod (2^31 - 1), and each draw is state' / (2^31 - 1).
 *
 * The generator's state is kept as an integer. Every reachable product
 * state * 16807 is below 2^53, so the double arithmetic of the source is the
 * exact integer arithmetic modelled here.
 */
module SeededRandom {
  import opened JsNumeric

  const MODULUS: int := 2147483647
  const MULTIPLIER: int := 16807
  /** The inverse of MULTIPLIER modulo MODULUS: 16807 * 1407677000 - 11017 * MODULUS == 1. */
  const INVERSE: int := 1407677000
  const TWO_53: int := 0x20_0000_0000_0000

  /** Every value the `seed` field of a generator can hold (the constructor already reduces it). */
  type State = s: int | 0 <= s < MODULUS

  /**
   * The constructor: `seed % 2147483647` with ECMAScript's truncating remainder,
   * then 2147483646 added when that is not positive.
   */
  function Normalize(seed: int): (s: State)
    ensures s == 0 <==> JsRem(seed, MODULUS) == -(MODULUS - 1)
    ensures seed % MODULUS == 0 ==> s == MODULUS - 1
    ensures seed > 0 && seed % MODULUS != 0 ==> s == seed % MODULUS
    ensures seed >= 0 ==> 1 <= s
  {
    JsRemZero(seed, MODULUS);
    var r := JsRem(seed, MODULUS);
    if r <= 0 then r + (MODULUS - 1) else r
  }

  /** A nonzero state stays nonzero, because 16807 is invertible modulo the prime MODULUS. */
  lemma StepKeepsNonzero(s: State)
    ensures s != 0 ==> (s * MULTIPLIER) % MODULUS != 0
  {
    var q := (s * MULTIPLIER) / MODULUS;
    var r := (s * MULTIPLIER) % MODULUS;
    assert s * MULTIPLIER == q * MODULUS + r;
    assert MULTIPLIER * INVERSE - 11017 * MODULUS == 1;
    calc {
      s;
      s * (MULTIPLIER * INVERSE - 11017 * MODULUS);
      (s * MULTIPLIER) * INVERSE - s * 11017 * MODULUS;
      (q * MODULUS + r) * INVERSE - s * 11017 * MODULUS;
      MODULUS * (q * INVERSE - s * 11017) + r * INVERSE;
    }
    var k := q * INVERSE - s * 11017;
    assert r == 0 ==> s == MODULUS * k;
  }

  /** The update of `next()`: a nonzero state stays nonzero and 0 is a fixed point. */
  function NextState(s: State): (t: State)
    ensures s != 0 ==> t != 0
    ensures s == 0 ==> t == 0
  {
    StepKeepsNonzero(s);
    (s * MULTIPLIER) % MODULUS
  }

  /** Every product the update forms is an exact double. */
  lemma StepIsExact(s: State)
    ensures 0 <= s * MULTIPLIER < TWO_53
  {
  }

  /** The state after n calls of `next()` from state s. */
  function Advance(s: State, n: nat): (t: State)
    ensures (t == 0) == (s == 0)
  {
    if n == 0 then s else NextState(Advance(s, n - 1))
  }

  lemma {:induction false} AdvanceAdd(s: State, a: nat, b: nat)
    ensures Advance(Advance(s, a), b) == Advance(s, a + b)
  {
    if b > 0 {
      AdvanceAdd(s, a, b - 1);
    }
  }

  /** The state after k runs of m draws each from state s. */
  function AdvanceRuns(s: State, m: nat, k: nat): State {
    if k == 0 then s else Advance(AdvanceRuns(s, m, k - 1), m)
  }

  lemma AdvanceRunsIsAdvance(s: State, m: nat, k: nat)
    ensures AdvanceRuns(s, m, k) == Advance(s, m * k)
  {
    AdvanceRunsCount(s, m, k, m * k);
  }

  /** k runs of m draws are n == m * k draws. */
  lemma {:induction false} AdvanceRunsCount(s: State, m: nat, k: nat, n: nat)
    requires n == m * k
    ensures AdvanceRuns(s, m, k) == Advance(s, n)
  {
    if k > 0 {
      MulStep(m, k, n);
      AdvanceRunsCount(s, m, k - 1, n - m);
      AdvanceAddTo(s, n - m, m, n);
    }
  }

  lemma MulStep(m: nat, k: nat, n: nat)
    requires k > 0 && n == m * k
    ensures n >= m && n - m == m * (k - 1)
  {
  }

  /** AdvanceAdd with the sum named, so that no arithmetic is left to the caller. */
  lemma AdvanceAddTo(s: State, a: nat, b: nat, c: nat)
    requires a + b == c
    ensures Advance(Advance(s, a), b) == Advance(s, c)
  {
    AdvanceAdd(s, a, b);
  }

  /** The value `next()` returns once it has stored the state t. */
  function Value(t: State): (v: real)
    ensures 0.0 <= v < 1.0
    ensures t != 0 ==> v > 0.0
  {
    t as real / MODULUS as real
  }

  /** `Math.floor(next() * k)` for a stored state t, in exact arithmetic. */
  function ScaledDraw(t: State, k: int): (r: int)
    ensures k >= 1 ==> 0 <= r < k
    ensures k <= 0 ==> k <= r <= 0
  {
    ScaledDrawBounds(t, k);
    (t * k) / MODULUS
  }

  lemma ScaledDrawBounds(t: State, k: int)
    ensures k >= 1 ==> 0 <= (t * k) / MODULUS < k
    ensures k <= 0 ==> k <= (t * k) / MODULUS <= 0
  {
    if k >= 1 {
      assert 0 <= t * k < MODULUS * k;
    } else {
      assert -MODULUS * (-k) < t * k + 1 || k == 0;
      assert MODULUS * k <= t * k <= 0;
    }
  }

  /** ScaledDraw is the floor of the real product of the drawn value and k. */
  lemma ScaledDrawIsFloor(t: State, k: int)
    ensures ScaledDraw(t, k) == (Value(t) * k as real).Floor
  {
    var q := (t * k) / MODULUS;
    var m := (t * k) % MODULUS;
    assert t * k == q * MODULUS + m && 0 <= m < MODULUS;
    assert (t * k) as real == (t as real) * (k as real);
    assert Value(t) * k as real == (t * k) as real / MODULUS as real;
    assert (t * k) as real / MODULUS as real == q as real + m as real / MODULUS as real;
  }

  /** `nextInt(min, max)`: `Math.floor(next() * (max - min + 1)) + min` for the stored state t. */
  function IntValue(t: State, min: int, max: int): (r: int)
    ensures min <= max ==> min <= r <= max
  {
    min + ScaledDraw(t, max - min + 1)
  }

  /** The state a drawn value was computed from: `v * 2147483647`, exact for every drawn value. */
  function StateOf(v: real): int {
    (v * MODULUS as real).Floor
  }

  /** A drawn value gives back the state it was drawn from. */
  lemma StateOfValue(t: State)
    ensures StateOf(Value(t)) == t
  {
    assert Value(t) * MODULUS as real == t as real;
  }

  /** The draws from state s on: one step after another, each value giving back its state. */
  lemma DrawnStates(s: State, n: nat)
    ensures forall j :: 1 <= j <= n ==> StateOf(Value(Advance(s, j))) == Advance(s, j)
    ensures forall j :: 1 <= j <= n ==> (Value(Advance(s, j)) == 0.0 <==> s == 0)
    ensures forall j :: 1 <= j <= n ==> Advance(s, j) == NextState(Advance(s, j - 1))
    ensures Advance(s, 1) == NextState(s)
  {
    forall j | 1 <= j <= n
      ensures StateOf(Value(Advance(s, j))) == Advance(s, j)
    {
      StateOfValue(Advance(s, j));
    }
  }

  /**
   * The first n values drawn from a generator constructed with `seed`: each
   * lies in [0, 1), all are 0 exactly for the degenerate seed, the first is
   * one step from the normalised seed, and each value alone determines the
   * next, so the sequence is the same for the same seed.
   */
  function DrawSequence(seed: int, n: nat): (vs: seq<real>)
    ensures |vs| == n
    ensures forall i :: 0 <= i < n ==> 0.0 <= vs[i] < 1.0
    ensures forall i :: 0 <= i < n ==> (vs[i] == 0.0 <==> JsRem(seed, MODULUS) == -(MODULUS - 1))
    ensures n > 0 ==> vs[0] == Value(NextState(Normalize(seed)))
    ensures forall i :: 0 <= i < n - 1 ==> 0 <= StateOf(vs[i]) < MODULUS && vs[i + 1] == Value(NextState(StateOf(vs[i])))
  {
    var s := Normalize(seed);
    DrawnStates(s, n);
    seq(n, i requires 0 <= i < n => Value(Advance(s, i + 1)))
  }

  /** A seed whose truncated remainder is -2147483646 yields state 0, and every later draw is 0. */
  lemma DegenerateSeedDrawsZero(seed: int, n: nat)
    requires JsRem(seed, MODULUS) == -(MODULUS - 1)
    ensures Normalize(seed) == 0
    ensures Value(Advance(Normalize(seed), n)) == 0.0
  {
  }

  /** A value computed with draws, and the state those draws leave. */
  datatype Carried<T> = Carried(value: T, state: State)

  /**
   * What `list.sort(() => rng.next() - 0.5)` leaves: some order of the
   * elements, and how many comparator calls (one draw each) the sort made.
   * The engine's sort algorithm is not part of this model, so a shuffle is a
   * given function from the list and the generator state to such a result.
   */
  datatype Shuffled<T> = Shuffled(order: seq<T>, calls: nat)

  /** A shuffle only reorders: whatever it is given, it returns the same elements. */
  ghost predicate IsShuffler<T(!new)>(shuffle: (seq<T>, State) -> Shuffled<T>) {
    forall xs, s :: multiset(shuffle(xs, s).order) == multiset(xs)
  }

  /** The generator object: its only field is the state, overwritten by every `next()`. */
  class Rng {
    var seed: State

    constructor (seed: int)
      ensures this.seed == Normalize(seed)
    {
      this.seed := Normalize(seed);
    }

    method Next() returns (r: real)
      modifies this
      ensures seed == NextState(old(seed))
      ensures r == Value(seed)
    {
      seed := (seed * MULTIPLIER) % MODULUS;
      r := seed as real / MODULUS as real;
    }

    method NextInt(min: int, max: int) returns (r: int)
      modifies this
      ensures seed == NextState(old(seed))
      ensures r == IntValue(seed, min, max)
      ensures min <= max ==> min <= r <= max
    {
      var v := Next();
      ScaledDrawIsFloor(seed, max - min + 1);
      r := (v * (max - min + 1) as real).Floor + min;
    }

    /** `Math.floor(next() * k)`, as the generators write it inline. */
    method NextScaled(k: int) returns (r: int)
      modifies this
      ensures seed == NextState(old(seed))
      ensures r == ScaledDraw(seed, k)
    {
      var v := Next();
      ScaledDrawIsFloor(seed, k);
      r := (v * k as real).Floor;
    }

    /**
     * n calls of `next()` whose values are not used. It stands for the draws a
     * random comparator consumes inside the engine's sort.
     */
    method Discard(n: nat)
      modifies this
      ensures seed == Advance(old(seed), n)
    {
      var i := 0;
      while i < n
        invariant 0 <= i <= n
        invariant seed == Advance(old(seed), i)
      {
        var _ := Next();
        i := i + 1;
      }
    }

    /** `xs.sort(() => this.rng.next() - 0.5)`: the shuffle's order, after its draws. */
    method SortRandomly<T(==,!new)>(xs: seq<T>, shuffle: (seq<T>, State) -> Shuffled<T>) returns (ys: seq<T>)
      requires IsShuffler(shuffle)
      modifies this
      ensures ys == shuffle(xs, old(seed)).order
      ensures multiset(ys) == multiset(xs)
      ensures seed == Advance(old(seed), shuffle(xs, old(seed)).calls)
    {
      var sorted := shuffle(xs, seed);
      Discard(sorted.calls);
      ys := sorted.order;
    }
  }

  /** Constructs a generator from `seed` and draws n values: they depend on the seed alone. */
  method Draws(seed: int, n: nat) returns (vs: seq<real>)
    ensures vs == DrawSequence(seed, n)
  {
    var rng := new Rng(seed);
    vs := [];
    var i := 0;
    while i < n
      invariant 0 <= i <= n
      invariant rng.seed == Advance(Normalize(seed), i)
      invariant vs == DrawSequence(seed, i)
    {
      var v := rng.Next();
      vs := vs + [v];
      i := i + 1;
    }
  }
}
