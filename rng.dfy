/**
 * The RomuDuoJr pseudo-random generator (src/rng.rs).
 *
 * The state is two unsigned 64-bit words. The source's wrapping multiply,
 * wrapping subtract and rotate are written out on integers below 2^64;
 * the seed is mixed in with a 64-bit XOR.
 */
module Rng {
  import opened Wrappers

  /** The values of the source's `u64`. */
  type u64 = x: int | 0 <= x < 0x1_0000_0000_0000_0000

  /** `u64::MAX`. */
  const U64Max: int := 0xFFFF_FFFF_FFFF_FFFF

  /** `wrapping_mul`: the product modulo 2^64. */
  function WrappingMul(a: u64, b: u64): u64
  {
    (a * b) % 0x1_0000_0000_0000_0000
  }

  /** `wrapping_sub`: the difference modulo 2^64 (Dafny's `%` is never negative). */
  function WrappingSub(a: u64, b: u64): u64
  {
    (a - b) % 0x1_0000_0000_0000_0000
  }

  /**
   * `rotate_left(27)`: the low 37 bits move up by 27 places and the high 27
   * bits wrap around to the bottom.
   */
  function RotateLeft27(v: u64): u64
  {
    (v % 0x20_0000_0000) * 0x800_0000 + v / 0x20_0000_0000
  }

  /** Bitwise XOR of two 64-bit words. */
  function Xor(a: u64, b: u64): u64
  {
    ((a as bv64) ^ (b as bv64)) as int
  }

  datatype RandState = RandState(x: u64, y: u64)

  /** The state `with_seed` / `set_seed` derive from a seed. */
  function Seeded(seed: u64): RandState
  {
    RandState(Xor(seed, 0x12345), Xor(seed, 0x6789A))
  }

  /**
   * One step of the generator (the output of the step is the old `x`); the
   * multiplier is 15241094284759029579.
   */
  function Step(s: RandState): RandState
  {
    RandState(WrappingMul(15241094284759029579, s.y), RotateLeft27(WrappingSub(s.y, s.x)))
  }

  /** Draws are accepted when below this bound: `u64::MAX - u64::MAX % n`. */
  function AcceptBound(n: u64): int
    requires n >= 1
  {
    U64Max - U64Max % n
  }

  /**
   * The rejection loop of `below(n)` for n >= 2, allowed at most `fuel`
   * draws: the result (None when the draws ran out) and the final state.
   */
  function DrawBelow(s: RandState, n: u64, fuel: nat): (Option<u64>, RandState)
    requires n >= 2
    decreases fuel
  {
    if fuel == 0 then (None, s)
    else if s.x < AcceptBound(n) then (Some(s.x % n), Step(s))
    else DrawBelow(Step(s), n, fuel - 1)
  }

  /** `below(n)`: 0 without drawing when n <= 1, else the rejection loop. */
  function BelowSpec(s: RandState, n: u64, fuel: nat): (Option<u64>, RandState)
  {
    if n <= 1 then (Some(0), s) else DrawBelow(s, n, fuel)
  }

  /** `below(n)` with n <= 1 returns 0 and does not advance the generator. */
  lemma BelowTrivial(s: RandState, n: u64, fuel: nat)
    requires n <= 1
    ensures BelowSpec(s, n, fuel) == (Some(0), s)
  {
  }

  lemma {:induction false} DrawBelowInRange(s: RandState, n: u64, fuel: nat)
    requires n >= 2
    decreases fuel
    ensures DrawBelow(s, n, fuel).0.Some? ==> DrawBelow(s, n, fuel).0.value < n
  {
    if fuel > 0 && s.x >= AcceptBound(n) {
      DrawBelowInRange(Step(s), n, fuel - 1);
    }
  }

  /** Whatever `below(n)` returns is below n, or 0 when n <= 1. */
  lemma BelowInRange(s: RandState, n: u64, fuel: nat)
    ensures BelowSpec(s, n, fuel).0.Some? ==>
      BelowSpec(s, n, fuel).0.value < (if n <= 1 then 1 else n)
  {
    if n >= 2 {
      DrawBelowInRange(s, n, fuel);
    }
  }

  /** `choose` on a value: the element at the index `below(|from|)` yields, and the state after. */
  function ChooseSpec<T>(s: RandState, from: seq<T>, fuel: nat): (r: (Option<T>, RandState))
    requires 0 < |from| <= U64Max
    ensures r.1 == BelowSpec(s, |from|, fuel).1
    ensures r.0.None? <==> BelowSpec(s, |from|, fuel).0.None?
    ensures r.0.Some? ==> r.0.value in from
  {
    BelowInRange(s, |from|, fuel);
    var drawn := BelowSpec(s, |from|, fuel);
    (if drawn.0.Some? then Some(from[drawn.0.value]) else None, drawn.1)
  }

  /** The state after `k` steps of the generator. */
  function Iter(s: RandState, k: nat): RandState
    decreases k
  {
    if k == 0 then s else Iter(Step(s), k - 1)
  }

  /** The `k`-th draw from `s` is the first one below the acceptance bound. */
  predicate FirstAcceptedAt(s: RandState, n: u64, k: nat)
    requires n >= 2
  {
    Iter(s, k).x < AcceptBound(n) && forall j :: 0 <= j < k ==> Iter(s, j).x >= AcceptBound(n)
  }

  /**
   * `below(n)`'s loop answers with the first accepted draw of the stream,
   * reduced modulo n, and leaves the generator just after it; when it runs
   * out of draws, every one of them was rejected.
   */
  lemma {:induction false} DrawBelowAccepted(s: RandState, n: u64, fuel: nat)
    requires n >= 2
    ensures DrawBelow(s, n, fuel).0.Some? ==>
      exists k: nat :: k < fuel && FirstAcceptedAt(s, n, k)
        && DrawBelow(s, n, fuel).0.value == Iter(s, k).x % n
        && DrawBelow(s, n, fuel).1 == Iter(s, k + 1)
    ensures DrawBelow(s, n, fuel).0.None? ==>
      (forall j :: 0 <= j < fuel ==> Iter(s, j).x >= AcceptBound(n)) && DrawBelow(s, n, fuel).1 == Iter(s, fuel)
    decreases fuel
  {
    if fuel > 0 {
      if s.x < AcceptBound(n) {
        assert FirstAcceptedAt(s, n, 0);
        assert Iter(s, 1) == Iter(Step(s), 0);
      } else {
        DrawBelowAccepted(Step(s), n, fuel - 1);
        IterShift(s);
        if DrawBelow(s, n, fuel).0.Some? {
          var k: nat :| k < fuel - 1 && FirstAcceptedAt(Step(s), n, k)
            && DrawBelow(Step(s), n, fuel - 1).0.value == Iter(Step(s), k).x % n
            && DrawBelow(Step(s), n, fuel - 1).1 == Iter(Step(s), k + 1);
          assert FirstAcceptedAt(s, n, k + 1);
        }
      }
    }
  }

  /** Stepping first and iterating `k` times is iterating `k + 1` times. */
  lemma IterShift(s: RandState)
    ensures forall k: nat :: Iter(s, k + 1) == Iter(Step(s), k)
    ensures Iter(s, 0) == s
  {
  }

  /**
   * The acceptance bound is a positive multiple of n that cuts off fewer
   * than n values of the 64-bit range.
   */
  lemma AcceptBoundMultiple(n: u64)
    requires n >= 2
    ensures AcceptBound(n) > 0 && AcceptBound(n) % n == 0
    ensures U64Max - AcceptBound(n) < n
  {
    var q := U64Max / n;
    assert U64Max == n * q + U64Max % n;
    assert AcceptBound(n) == q * n;
    DivModUnique(q * n, n, q, 0);
  }

  lemma {:induction false} MulAtLeast(n: int, k: int)
    requires n >= 1 && k >= 1
    ensures n * k >= n
  {
    if k > 1 {
      MulAtLeast(n, k - 1);
      assert n * k == n * (k - 1) + n;
    }
  }

  /** Euclidean division is unique: d = q * n + r with 0 <= r < n fixes d / n and d % n. */
  lemma DivModUnique(d: int, n: int, q: int, r: int)
    requires n >= 1 && 0 <= r < n && d == q * n + r
    ensures d % n == r && d / n == q
  {
    var k := d / n - q;
    assert d == n * (d / n) + d % n;
    assert n * k == r - d % n by {
      assert n * k == n * (d / n) - n * q;
    }
    if k >= 1 {
      MulAtLeast(n, k);
    } else if k <= -1 {
      MulAtLeast(n, -k);
    }
  }

  /** The draws below `bound` that reduce to residue `r` modulo n. */
  function Accepted(bound: nat, n: nat, r: nat): set<nat>
    requires n >= 1
  {
    set d: nat | d < bound && d % n == r
  }

  lemma {:induction false} AcceptedCount(q: nat, n: nat, r: nat)
    requires r < n
    ensures |Accepted(q * n, n, r)| == q
  {
    if q > 0 {
      AcceptedCount(q - 1, n, r);
      var low := (q - 1) * n;
      assert q * n == low + n;
      var last := low + r;
      DivModUnique(last, n, q - 1, r);
      assert Accepted(q * n, n, r) == Accepted(low, n, r) + {last} by {
        forall d: nat | d < q * n && d % n == r
          ensures d < low || d == last
        {
          if d >= low {
            DivModUnique(d, n, q - 1, d - low);
          }
        }
      }
    }
  }

  /**
   * Rejection sampling is unbiased: every residue below n has exactly
   * `AcceptBound(n) / n` accepted draws.
   */
  lemma AcceptedUniform(n: u64, r: nat)
    requires n >= 2 && r < n
    ensures |Accepted(AcceptBound(n), n, r)| == AcceptBound(n) / n
  {
    AcceptBoundMultiple(n);
    var q := AcceptBound(n) / n;
    assert AcceptBound(n) == n * q + AcceptBound(n) % n;
    assert AcceptBound(n) == q * n;
    AcceptedCount(q, n, r);
  }

  class RomuDuoJrRand {
    var xState: u64
    var yState: u64

    function State(): RandState
      reads this
    {
      RandState(xState, yState)
    }

    /** `with_seed`: equal seeds give equal states, hence equal output streams. */
    constructor WithSeed(seed: u64)
      ensures State() == Seeded(seed)
    {
      xState, yState := 0, 0;
      new;
      SetSeed(seed);
    }

    method SetSeed(seed: u64)
      modifies this
      ensures State() == Seeded(seed)
    {
      xState := Xor(seed, 0x12345);
      yState := Xor(seed, 0x6789A);
    }

    /** `next`: returns the old x and advances by one step. */
    method Next() returns (r: u64)
      modifies this
      ensures r == old(xState)
      ensures State() == Step(old(State()))
    {
      var xp := xState;
      xState := WrappingMul(15241094284759029579, yState);
      yState := RotateLeft27(WrappingSub(yState, xp));
      r := xp;
    }

    /**
     * `below`: draws until a draw is below `AcceptBound(n)` and reduces it
     * modulo n. The source loops without bound; here at most `fuel` draws
     * are made and None reports that they ran out.
     */
    method Below(n: u64, fuel: nat) returns (r: Option<u64>)
      modifies this
      ensures (r, State()) == BelowSpec(old(State()), n, fuel)
    {
      if n <= 1 {
        return Some(0);
      }
      var left := fuel;
      while left > 0
        invariant DrawBelow(State(), n, left) == BelowSpec(old(State()), n, fuel)
      {
        var draw := Next();
        left := left - 1;
        if draw < AcceptBound(n) {
          return Some(draw % n);
        }
      }
      return None;
    }

    /**
     * `choose`: the element at index `below(|from|)`; the source asserts the
     * collection is non-empty.
     */
    method Choose<T>(from: seq<T>, fuel: nat) returns (r: Option<T>)
      requires 0 < |from| <= U64Max
      modifies this
      ensures State() == BelowSpec(old(State()), |from|, fuel).1
      ensures BelowSpec(old(State()), |from|, fuel).0.Some? ==>
        BelowSpec(old(State()), |from|, fuel).0.value < |from| &&
        r == Some(from[BelowSpec(old(State()), |from|, fuel).0.value])
      ensures BelowSpec(old(State()), |from|, fuel).0.None? ==> r.None?
      ensures r.Some? ==> r.value in from
      ensures (r, State()) == ChooseSpec(old(State()), from, fuel)
    {
      ghost var s := State();
      BelowInRange(s, |from|, fuel);
      var index := Below(|from|, fuel);
      if index.None? {
        return None;
      }
      r := Some(from[index.value]);
    }
  }
}
