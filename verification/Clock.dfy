/** The PWM clock of clock.c: the divider search and what it sets. */
module Clock {

  const MIN_HZ := 10
  const DIVIDERS := 255
  const COUNT_MAX := 65536

  /** A divider and count the hardware takes, at 50 % duty, no faster than asked. */
  predicate Admissible(sys: nat, hz: nat, divider: nat, count: nat) {
    1 <= divider <= 255 && 2 <= count <= 65536 && count % 2 == 0 && sys <= hz * divider * count
  }

  /** sys / denominator rounded up, and up again to an even count of at least 2. */
  function CountFor(sys: nat, denominator: nat): nat
    requires denominator > 0
  {
    var c := ((sys + denominator - 1) / denominator + 1) / 2 * 2;
    if c < 2 then 2 else c
  }

  lemma RoundUp(sys: nat, den: nat, c: nat)
    requires den > 0
    ensures sys <= den * c <==> (sys + den - 1) / den <= c
  {
    var q, r := (sys + den - 1) / den, (sys + den - 1) % den;
    assert sys + den - 1 == den * q + r;
    if q <= c {
      assert den * q <= den * c;
    } else {
      assert den * (c + 1) <= den * q;
    }
  }

  /** The count a divider gets is the least admissible one. */
  lemma LeastCount(sys: nat, den: nat, c: nat)
    requires den > 0
    ensures var k := CountFor(sys, den);
            k >= 2 && k % 2 == 0 && sys <= den * k && (c >= 2 && c % 2 == 0 && sys <= den * c ==> k <= c)
  {
    RoundUp(sys, den, CountFor(sys, den));
    RoundUp(sys, den, c);
  }

  /** Nothing admissible with a divider below n beats this choice. */
  ghost predicate Best(sys: nat, hz: nat, n: nat, divider: nat, count: nat) {
    forall d: nat, c: nat :: Admissible(sys, hz, d, c) && d < n ==>
      && divider != 0 && divider * count <= d * c
      && (d * c == divider * count ==> c <= count)
  }

  lemma Grows(n: nat, k: nat, b: nat)
    requires k <= b
    ensures n * k <= n * b
  {
  }

  lemma BestNext(sys: nat, hz: nat, n: nat, divider: nat, count: nat, d: nat, c: nat)
    requires hz > 0 && 1 <= n <= DIVIDERS && Best(sys, hz, n, divider, count)
    requires d != 0 && Admissible(sys, hz, d, c)
    requires divider != 0 ==> d * c < divider * count || (d * c == divider * count && c >= count)
    requires var k := CountFor(sys, hz * n); k <= COUNT_MAX ==> d * c < n * k || (d * c == n * k && c >= k)
    ensures Best(sys, hz, n + 1, d, c)
  {
    forall e: nat, b: nat | Admissible(sys, hz, e, b) && e < n + 1
      ensures d * c <= e * b && (e * b == d * c ==> b <= c)
    {
      if e == n {
        NoneBelow(sys, hz, n, b);
      }
    }
  }

  /** A divider's own count beats every other count it could have. */
  lemma NoneBelow(sys: nat, hz: nat, n: nat, b: nat)
    requires hz > 0 && n > 0 && Admissible(sys, hz, n, b)
    ensures var k := CountFor(sys, hz * n); k <= b && n * k <= n * b && (k < b ==> n * k < n * b)
  {
    var k := CountFor(sys, hz * n);
    LeastCount(sys, hz * n, b);
    Grows(n, k, b);
    if k < b {
      Grows(n, k + 1, b);
    }
  }

  class Pwm {
    const max: nat               // Z80_CLOCK_MAX_HZ of the build
    var divider: nat
    var wrap: nat
    var level: nat
    var actual: nat

    constructor (m: nat)
      ensures max == m
    {
      max := m;
    }

    /** The search loop of z80_clock_set_hz. */
    method Search(sys: nat, hz: nat) returns (divider: nat, count: nat)
      requires hz > 0
      ensures divider == 0 <==> forall d: nat, c: nat :: !Admissible(sys, hz, d, c)
      ensures divider != 0 ==> Admissible(sys, hz, divider, count) && Best(sys, hz, 256, divider, count)
    {
      divider, count := 0, 0;
      var n := 1;
      while n <= DIVIDERS
        invariant 1 <= n <= DIVIDERS + 1
        invariant divider != 0 ==> Admissible(sys, hz, divider, count) && divider < n
        invariant Best(sys, hz, n, divider, count)
      {
        var k := CountFor(sys, hz * n);
        LeastCount(sys, hz * n, 2);
        if k <= COUNT_MAX {
          if divider == 0 || n * k < divider * count || (n * k == divider * count && k > count) {
            BestNext(sys, hz, n, divider, count, n, k);
            divider, count := n, k;
          } else {
            BestNext(sys, hz, n, divider, count, divider, count);
          }
        } else if divider != 0 {
          BestNext(sys, hz, n, divider, count, divider, count);
        } else {
          NoneAt(sys, hz, n);
        }
        n := n + 1;
      }
    }

    /** z80_clock_set_hz: on success the clock runs no faster than asked, at exactly half
        duty, with the smallest divider * count of all admissible settings. It fails
        exactly when the request is out of range or no setting is admissible. */
    method SetHz(sys: nat, hz: nat) returns (ok: bool)
      modifies this
      ensures ok <==> 10 <= hz <= max && exists d: nat, c: nat :: Admissible(sys, hz, d, c)
      ensures !ok ==> divider == old(divider) && wrap == old(wrap) && level == old(level) && actual == old(actual)
      ensures ok ==> Admissible(sys, hz, divider, wrap + 1) && Best(sys, hz, 256, divider, wrap + 1)
      ensures ok ==> 2 * level == wrap + 1 && wrap < 65536
      ensures ok ==> NotAbove(sys, Period(divider, wrap + 1), hz) && actual <= hz
      ensures ok ==> IsRounded(sys, Period(divider, wrap + 1), actual)
    {
      hide Admissible, Best, IsRounded, NotAbove, Period, Rounded;
      ok := false;
      if MIN_HZ <= hz <= max {
        var d, c := Search(sys, hz);
        if d != 0 {
          ok := true;
          divider, wrap, level := d, c - 1, c / 2;
          Setting(sys, hz, d, c);
          actual := Rounded(sys, Period(d, c));
        }
      }
    }
  }

  /** System clock cycles in one output period. */
  function Period(divider: nat, count: nat): nat { divider * count }

  /** The true frequency, sys / period, is at most hz. */
  predicate NotAbove(sys: nat, period: nat, hz: nat) { sys <= hz * period }

  function Rounded(sys: nat, period: nat): nat
    requires period > 0
  {
    (sys + period / 2) / period
  }

  lemma Setting(sys: nat, hz: nat, d: nat, c: nat)
    requires Admissible(sys, hz, d, c)
    ensures NotAbove(sys, Period(d, c), hz) && Period(d, c) > 0 && 2 <= c <= COUNT_MAX && c % 2 == 0
    ensures Rounded(sys, Period(d, c)) <= hz && IsRounded(sys, Period(d, c), Rounded(sys, Period(d, c)))
  {
    assert hz * d * c == hz * (d * c);
    assert d * c == 2 * (d * (c / 2));
    Reported(sys, hz, d * c);
  }

  lemma NoneAt(sys: nat, hz: nat, n: nat)
    requires hz > 0 && 1 <= n <= DIVIDERS && CountFor(sys, hz * n) > COUNT_MAX && Best(sys, hz, n, 0, 0)
    ensures Best(sys, hz, n + 1, 0, 0)
  {
    forall e: nat, b: nat | Admissible(sys, hz, e, b) && e < n + 1
      ensures false
    {
      if e == n {
        LeastCount(sys, hz * n, b);
      }
    }
  }

  /** The nearest whole number of hertz. */
  predicate IsRounded(sys: nat, product: nat, hz: nat) {
    2 * hz * product <= 2 * sys + product < 2 * (hz + 1) * product
  }

  /** Rounding to the nearest hertz does not carry the reported clock past the request. */
  lemma Reported(sys: nat, hz: nat, product: nat)
    requires product > 0 && product % 2 == 0 && sys <= hz * product
    ensures (sys + product / 2) / product <= hz
    ensures IsRounded(sys, product, (sys + product / 2) / product)
  {
    var q, r := (sys + product / 2) / product, (sys + product / 2) % product;
    assert sys + product / 2 == product * q + r;
    Grows(product, hz + 1, if q > hz then q else hz + 1);
  }
}
