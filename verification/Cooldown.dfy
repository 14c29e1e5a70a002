/** How long a breaker stays open: exponential back-off in 64-bit nanoseconds, plus a
    jitter taken from a hash. */
module Cooldown {

  const TWO_56: int := 0x100_0000_0000_0000
  const TWO_60: int := 0x1000_0000_0000_0000
  const TWO_61: int := 0x2000_0000_0000_0000
  const TWO_62: int := 0x4000_0000_0000_0000
  const TWO_63: int := 0x8000_0000_0000_0000
  const TWO_64: int := 0x1_0000_0000_0000_0000

  /** The value a 64-bit signed register holds after computing `x`. */
  function Wrap64(x: int): int {
    (x + TWO_63) % TWO_64 - TWO_63
  }

  function Min(a: int, b: int): int {
    if a <= b then a else b
  }

  function Pow2(n: nat): (r: int)
    ensures r >= 1
  {
    if n == 0 then 1 else 2 * Pow2(n - 1)
  }

  /** Doubling per failure after the first, capped: what the loop is for. */
  function Backoff(base: int, max: int, failures: nat): int {
    if failures <= 1 then base else Min(base * Pow2(failures - 1), max)
  }

  /** The loop itself, on 64-bit values, from iteration `i` on. */
  function Doubling(cooldown: int, max: int, i: nat, failures: nat): int
    decreases failures - i
  {
    if i >= failures then cooldown
    else
      var doubled := Wrap64(cooldown * 2);
      if doubled >= max then max else Doubling(doubled, max, i + 1, failures)
  }

  lemma Scale(c: int, p: int)
    requires c > 0 && p >= 1
    ensures c * (2 * p) == (c * 2) * p && c * (2 * p) >= c * 2
  {}

  lemma NoWrap(x: int)
    requires -TWO_63 <= x < TWO_63
    ensures Wrap64(x) == x
  {}

  /** Some power of two times the base reaches the maximum without leaving 63 bits. */
  ghost predicate Reaches(base: int, max: int) {
    exists n: nat :: ReachesAt(base, max, n)
  }

  predicate ReachesAt(base: int, max: int, n: nat) {
    n >= 1 && max <= base * Pow2(n) < TWO_63
  }

  lemma {:induction false} DoublingFrom(c: int, max: int, i: nat, failures: nat, n: nat)
    requires 0 < c <= max && i <= failures && ReachesAt(c, max, n)
    ensures Doubling(c, max, i, failures) == if i == failures then c else Min(c * Pow2(failures - i), max)
    decreases failures - i
  {
    Scale(c, Pow2(n - 1));
    if i < failures {
      NoWrap(c * 2);
      Scale(c, Pow2(failures - i - 1));
      if c * 2 < max {
        DoublingFrom(c * 2, max, i + 1, failures, n - 1);
      }
    }
  }

  /** The first doubling that reaches the maximum. */
  lemma {:induction false} FirstReaching(c: int, max: int) returns (n: nat)
    requires 0 < c <= max
    ensures n >= 1 && c * Pow2(n - 1) <= max <= c * Pow2(n) && (n > 1 ==> c * Pow2(n - 1) < max)
    decreases max - c
  {
    if c * 2 >= max {
      n := 1;
    } else {
      n := FirstReaching(c * 2, max);
      Scale(c, Pow2(n - 1));
      Scale(c, Pow2(n));
      n := n + 1;
    }
  }

  /** A doubling that leaves 63 bits before it reaches the maximum turns negative. */
  lemma {:induction false} DoublingWraps(c: int, max: int, i: nat, n: nat)
    requires 0 < c <= max < TWO_63 && n >= 1 && c * Pow2(n) >= TWO_63
    requires c * Pow2(n - 1) <= max && (n > 1 ==> c * Pow2(n - 1) < max)
    ensures Doubling(c, max, i, i + n) < 0
    decreases n
  {
    if n > 1 {
      Scale(c, Pow2(n - 1));
      Scale(c, Pow2(n - 2));
      NoWrap(c * 2);
      DoublingWraps(c * 2, max, i + 1, n - 1);
    }
  }

  /** The 64-bit loop computes the capped power of two for every number of failures
      exactly if some doubling of the base reaches the maximum within 63 bits. */
  lemma DoublingIsBackoffIff(base: int, max: int)
    requires 0 < base <= max < TWO_63
    ensures (forall failures: nat :: Doubling(base, max, 1, failures) == Backoff(base, max, failures))
      <==> Reaches(base, max)
  {
    if Reaches(base, max) {
      var n: nat :| ReachesAt(base, max, n);
      forall failures: nat ensures Doubling(base, max, 1, failures) == Backoff(base, max, failures) {
        if failures > 1 {
          DoublingFrom(base, max, 1, failures, n);
        }
      }
    } else {
      var n := FirstReaching(base, max);
      assert !ReachesAt(base, max, n);
      DoublingWraps(base, max, 1, n);
      assert Doubling(base, max, 1, n + 1) != Backoff(base, max, n + 1);
    }
  }

  /** Below 2^62 nanoseconds it always does. */
  lemma DoublingIsBackoff(base: int, max: int, failures: nat)
    requires 0 < base <= max < TWO_62
    ensures Doubling(base, max, 1, failures) == Backoff(base, max, failures)
    ensures base <= Backoff(base, max, failures) <= max
  {
    var n := FirstReaching(base, max);
    assert ReachesAt(base, max, n);
    DoublingIsBackoffIff(base, max);
    if failures > 1 {
      Scale(base, Pow2(failures - 2));
    }
  }

  /** From there on it depends on the base: with a maximum of 2^62 a base of 2^61 is
      doubled right, a base of 2^62 gives a negative cooldown after the second failure. */
  lemma DoublingAtLimit()
    ensures Reaches(TWO_61, TWO_62) && !Reaches(TWO_62, TWO_62)
    ensures Doubling(TWO_62, TWO_62, 1, 2) == -TWO_63
  {
    assert ReachesAt(TWO_61, TWO_62, 1);
    assert Doubling(-TWO_63, TWO_62, 2, 2) == -TWO_63;
    DoublingIsBackoffIff(TWO_62, TWO_62);
    assert Doubling(TWO_62, TWO_62, 1, 2) != Backoff(TWO_62, TWO_62, 2);
  }

  method CooldownFor(base: int, max: int, failures: nat) returns (cooldown: int)
    ensures cooldown == Doubling(base, max, 1, failures)
  {
    cooldown := base;
    var i := 1;
    while i < failures
      invariant 1 <= i && Doubling(cooldown, max, i, failures) == Doubling(base, max, 1, failures)
      decreases failures - i
    {
      cooldown := Wrap64(cooldown * 2);
      if cooldown >= max {
        cooldown := max;
        break;
      }
      i := i + 1;
    }
  }

  // ----- Jitter -----

  /** A SHA-256 digest in hex. */
  type Digest = s: string | |s| == 64 witness seq(64, _ => '0')

  function DigitOf(c: char): (d: int)
    ensures 0 <= d < 16
  {
    if '0' <= c <= '9' then (c - '0') as int
    else if 'a' <= c <= 'f' then (c - 'a') as int + 10
    else 0
  }

  /** The digit of a lower-case hexadecimal character is its place among them. */
  lemma DigitMeans(c: char)
    requires c in "0123456789abcdef"
    ensures "0123456789abcdef"[DigitOf(c)] == c
  {}

  function HexValue(s: string): (v: int)
    ensures v >= 0
  {
    if s == "" then 0 else HexValue(s[..|s| - 1]) * 16 + DigitOf(s[|s| - 1])
  }

  function JitterModulus(jitter: int): int {
    Min(jitter, TWO_56)
  }

  lemma AtLeastOne(k: int, m: int)
    requires k >= 1 && m > 0
    ensures k * m >= m
  {}

  lemma Remainder(y: int, q: int, r: int, m: int)
    requires m > 0 && y == q * m + r && 0 <= r < m
    ensures y % m == r
  {
    var q', r' := y / m, y % m;
    assert y == q' * m + r';
    assert (q - q') * m == r' - r;
    if q > q' {
      AtLeastOne(q - q', m);
    } else if q' > q {
      AtLeastOne(q' - q, m);
    }
  }

  lemma ReduceFirst(a: int, d: int, m: int)
    requires m > 0 && a >= 0
    ensures (a % m * 16 + d) % m == (a * 16 + d) % m
  {
    var q, r := a / m, a % m;
    assert a == q * m + r;
    var q', r' := (r * 16 + d) / m, (r * 16 + d) % m;
    assert r * 16 + d == q' * m + r';
    assert a * 16 + d == (q * 16 + q') * m + r' by {
      assert q * m * 16 == (q * 16) * m;
      assert (q * 16) * m + q' * m == (q * 16 + q') * m;
    }
    Remainder(a * 16 + d, q * 16 + q', r', m);
  }

  /** Every intermediate value fits in 60 bits. */
  lemma JitterFits(n: int, d: int, m: int)
    requires 0 <= n < m <= TWO_56 && 0 <= d < 16
    ensures 0 <= n * 16 + d < TWO_60
  {}

  /** What the loop holds after `i` digits, before it reduces the next one. */
  function JitterStep(jitter: int, hex: Digest, i: nat): int
    requires jitter > 0 && i < 16
  {
    HexValue(hex[..i]) % JitterModulus(jitter) * 16 + DigitOf(hex[i])
  }

  method DeterministicJitter(jitter: int, hex: Digest) returns (n: int)
    ensures jitter <= 0 ==> n == 0
    ensures jitter > 0 ==> n == HexValue(hex[..16]) % JitterModulus(jitter) && 0 <= n < jitter
    ensures jitter > 0 ==> forall i :: 0 <= i < 16 ==> 0 <= JitterStep(jitter, hex, i) < TWO_60
  {
    n := 0;
    if jitter <= 0 {
      return;
    }
    var m := jitter;
    if m > TWO_56 {
      m := TWO_56;
    }
    for i := 0 to 16
      invariant 0 <= n < m && n == HexValue(hex[..i]) % m
      invariant forall j :: 0 <= j < i ==> 0 <= JitterStep(jitter, hex, j) < TWO_60
    {
      var digit := DigitOf(hex[i]);
      assert n * 16 + digit == JitterStep(jitter, hex, i);
      JitterFits(n, digit, m);
      NoWrap(n * 16 + digit);
      ReduceFirst(HexValue(hex[..i]), digit, m);
      assert hex[..i + 1][..i] == hex[..i];
      n := Wrap64(n * 16 + digit) % m;
    }
  }
}
