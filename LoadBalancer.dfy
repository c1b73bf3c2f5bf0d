// Round-robin instance choice of the API gateway.  The shared counter is a
// Java `AtomicInteger`: a 32-bit two's-complement value that wraps from
// Integer.MAX_VALUE to Integer.MIN_VALUE, and the index is
// `Math.abs(counter % size)` with Java's remainder, which truncates toward zero.
module LoadBalancer {
  import opened Wrappers
  import opened Strings

  /** The value `getAndIncrement` leaves behind: c + 1 in 32-bit arithmetic. */
  function WrapIncrement(c: int): (r: int)
    requires IsInt32(c)
    ensures IsInt32(r)
    ensures (r - c - 1) % 0x1_0000_0000 == 0
  {
    if c == INT_MAX then INT_MIN else c + 1
  }

  lemma {:induction false} MulAtLeast(d: int, n: int)
    requires d >= 1 && n > 0
    ensures d * n >= n
  {
    if d > 1 {
      MulAtLeast(d - 1, n);
      assert d * n == (d - 1) * n + n;
    }
  }

  /** Quotient and remainder are unique. */
  lemma ModUnique(x: int, q: int, r: int, n: int)
    requires n > 0 && 0 <= r < n && x == q * n + r
    ensures x % n == r && x / n == q
  {
    var d := q - x / n;
    assert d * n == x % n - r;
    if d >= 1 {
      MulAtLeast(d, n);
    } else if d <= -1 {
      MulAtLeast(-d, n);
    }
  }

  lemma ModStep(a: int, n: int)
    requires n > 0 && a >= 0
    ensures (a + 1) % n == (a % n + 1) % n
  {
    var q, m := a / n, a % n;
    if m + 1 < n {
      ModUnique(a + 1, q, m + 1, n);
      ModUnique(m + 1, 0, m + 1, n);
    } else {
      ModUnique(a + 1, q + 1, 0, n);
      ModUnique(m + 1, 1, 0, n);
    }
  }

  /** Java's integer division for n > 0: the quotient is truncated toward zero. */
  function JavaDiv(a: int, n: int): int
    requires n > 0
  {
    if a >= 0 then a / n else -((-a) / n)
  }

  /** Java's `a % n` for n > 0: the sign follows the dividend. */
  function JavaRem(a: int, n: int): (r: int)
    requires n > 0
    ensures a == JavaDiv(a, n) * n + r
    ensures -n < r < n
    ensures a >= 0 ==> r >= 0
    ensures a < 0 ==> r <= 0
  {
    if a >= 0 then a % n else -((-a) % n)
  }

  function Abs(x: int): nat { if x < 0 then -x else x }

  /** The slot `Math.abs(c % n)`; `Math.abs(Integer.MIN_VALUE)` cannot arise because |c % n| < n. */
  function Index(c: int, n: int): (i: nat)
    requires n > 0
    ensures i < n
    ensures i == Abs(c) % n
  {
    Abs(JavaRem(c, n))
  }

  /** The counter after k calls starting from c. */
  function Advance(c: int, k: nat): (r: int)
    requires IsInt32(c)
    ensures IsInt32(r)
  {
    if k == 0 then c else WrapIncrement(Advance(c, k - 1))
  }

  /** One more call moves to the next slot, as long as the counter is non-negative. */
  lemma RoundRobinStep(c: int, n: int)
    requires n > 0 && 0 <= c
    ensures Index(c + 1, n) == (Index(c, n) + 1) % n
  {
    ModStep(c, n);
  }

  /**
   * k calls after a non-negative counter c, with no wrap in between, the
   * counter is c + k and the slot is k places further round the list.
   */
  lemma RoundRobin(c: int, k: nat, n: int)
    requires n > 0 && 0 <= c && c + k <= INT_MAX
    ensures Advance(c, k) == c + k
    ensures Index(Advance(c, k), n) == (Index(c, n) + k) % n
  {
    AdvanceNoWrap(c, k);
    ModShift(c, k, n);
    assert Index(c, n) == c % n;
    assert Index(c + k, n) == (c + k) % n;
  }

  /** Without a wrap, k increments add k. */
  lemma {:induction false} AdvanceNoWrap(c: int, k: nat)
    requires 0 <= c && c + k <= INT_MAX
    ensures Advance(c, k) == c + k
  {
    if k > 0 {
      AdvanceNoWrap(c, k - 1);
    }
  }

  /** Moving k places from a is moving k places from a's slot. */
  lemma {:induction false} ModShift(a: int, k: nat, n: int)
    requires n > 0 && a >= 0
    ensures (a + k) % n == (a % n + k) % n
  {
    if k > 0 {
      ModShift(a, k - 1, n);
      ModStep(a + k - 1, n);
      ModStep(a % n + k - 1, n);
    }
  }

  /** Across the wrap the rotation breaks: with three instances slot 1 is chosen twice in three calls. */
  lemma WrapRepeatsSlot()
    ensures Index(INT_MAX, 3) == 1
    ensures Index(WrapIncrement(INT_MAX), 3) == 2
    ensures Index(WrapIncrement(WrapIncrement(INT_MAX)), 3) == 1
  {
  }

  class LoadBalancerService {
    var counter: int

    ghost predicate Valid() reads this { IsInt32(counter) }

    constructor ()
      ensures Valid() && counter == 0
    {
      counter := 0;
    }

    /** `instances` being None stands for a null list. */
    method ChooseInstance(instances: Option<seq<string>>) returns (r: Option<string>)
      requires Valid()
      modifies this
      ensures Valid()
      ensures (instances.None? || instances.value == []) ==> r.None? && counter == old(counter)
      ensures instances.Some? && instances.value != [] ==>
        r == Some(instances.value[Index(old(counter), |instances.value|)])
        && counter == WrapIncrement(old(counter))
      ensures r.Some? ==> instances.Some? && r.value in instances.value
    {
      if instances.None? || instances.value == [] {
        return None;
      }
      var c := counter;
      counter := WrapIncrement(counter);
      var idx := Abs(JavaRem(c, |instances.value|));
      r := Some(instances.value[idx]);
    }
  }
}
