/** The four numeric predicates of the view module: `is_prime`, `is_perfect`,
    `is_armstrong` and `get_digit_sum`, each tied to a plain definition. */
module NumberPredicates {
  import opened Decimal

  // ---------------------------------------------------------------------------
  // Primality
  // ---------------------------------------------------------------------------

  /** Reference definition: n is at least 2 and nothing in [2, n) divides it. */
  predicate Prime(n: int) {
    n >= 2 && forall d :: 2 <= d < n ==> n % d != 0
  }

  /** `int(math.sqrt(n))`: the floor of the square root. */
  function ISqrt(n: nat): (r: nat)
    ensures r * r <= n < (r + 1) * (r + 1)
  {
    if n == 0 then 0
    else
      var s := ISqrt(n - 1);
      if (s + 1) * (s + 1) <= n then s + 1 else s
  }

  /** Multiplying by a natural number is monotone. */
  lemma {:induction false} MulLeft(a: nat, b: int, c: int)
    requires b <= c
    ensures a * b <= a * c
  {
    if a > 0 {
      MulLeft(a - 1, b, c);
      assert a * b == (a - 1) * b + b;
      assert a * c == (a - 1) * c + c;
    }
  }

  /** Euclidean division is unique: x == e * q + r with 0 <= r < e fixes x % e. */
  lemma ModUnique(x: int, e: int, q: int, r: int)
    requires e > 0 && 0 <= r < e && x == e * q + r
    ensures x % e == r
  {
    var q', r' := x / e, x % e;
    assert e * (q - q') == r' - r;
    if q - q' >= 1 {
      MulLeft(e, 1, q - q');
    } else if q - q' <= -1 {
      MulLeft(e, q - q', -1);
    }
  }

  /** For n >= 2 the square root bound lies in [1, n). */
  lemma ISqrtBetween(n: nat)
    requires n >= 2
    ensures 1 <= ISqrt(n) < n
  {
    var r := ISqrt(n);
    if r >= n {
      MulLeft(r, n, r);
      MulLeft(n, 1, n);
    }
  }

  /** An odd number has no even divisor. */
  lemma OddHasNoEvenDivisor(n: int, d: int)
    requires n % 2 == 1 && d >= 2 && d % 2 == 0
    ensures n % d != 0
  {
    if n % d == 0 {
      var q := n / d;
      assert n == d * q;
      assert d == 2 * (d / 2);
      assert n == 2 * ((d / 2) * q);
      ModUnique(n, 2, (d / 2) * q, 0);
    }
  }

  /** If n has no divisor in [2, k) and k * k > n, then n has none in [2, n):
      a divisor d >= k would pair with a cofactor n / d below k. */
  lemma NoSmallDivisorMeansPrime(n: int, k: int)
    requires n >= 2 && k >= 2 && k * k > n
    requires forall d :: 2 <= d < k ==> n % d != 0
    ensures Prime(n)
  {
    forall d | 2 <= d < n
      ensures n % d != 0
    {
      if d >= k && n % d == 0 {
        CofactorIsSmallDivisor(n, k, d);
      }
    }
  }

  /** Moving from candidate i to i + 2 skips only the even i + 1, which cannot
      divide an odd n. */
  lemma NextOddCandidate(n: int, i: int)
    requires n % 2 == 1 && i >= 3 && i % 2 == 1 && n % i != 0
    requires forall d :: 2 <= d < i ==> n % d != 0
    ensures forall d :: 2 <= d < i + 2 ==> n % d != 0
  {
    OddHasNoEvenDivisor(n, i + 1);
  }

  /** The cofactor of a divisor d >= k of n, where k * k > n, is a divisor in [2, k). */
  lemma CofactorIsSmallDivisor(n: int, k: int, d: int)
    requires 2 <= k <= d < n && k * k > n && n % d == 0
    ensures 2 <= n / d < k && n % (n / d) == 0
  {
    var e := n / d;
    assert n == d * e;
    if e <= 1 {
      MulLeft(d, e, 1);
      assert false;
    }
    if e >= k {
      MulLeft(d, k, e);
      MulLeft(k, k, d);
      assert false;
    }
    ModUnique(n, e, d, 0);
  }

  /** `is_prime(n)`: rejects n < 2, accepts 2, rejects other even numbers, and then
      tries the odd candidates 3, 5, ... up to int(sqrt(n)), returning False at the
      first one that divides n. */
  method IsPrime(n: int) returns (b: bool)
    ensures b == Prime(n)
  {
    if n < 2 {
      return false;
    }
    if n == 2 {
      return true;
    }
    if n % 2 == 0 {
      return false;
    }
    var bound := ISqrt(n);
    ISqrtBetween(n);
    var i := 3;
    while i <= bound
      invariant 3 <= i <= bound + 2 && i % 2 == 1
      invariant forall d :: 2 <= d < i ==> n % d != 0
    {
      if n % i == 0 {
        return false;
      }
      NextOddCandidate(n, i);
      i := i + 2;
    }
    MulLeft(i, bound + 1, i);
    MulLeft(bound + 1, bound + 1, i);
    NoSmallDivisorMeansPrime(n, i);
    return true;
  }

  /** The cases `is_prime` settles before its loop. */
  lemma PrimeBaseCases(n: int)
    ensures n < 2 ==> !Prime(n)
    ensures Prime(2)
    ensures n > 2 && n % 2 == 0 ==> !Prime(n)
  {
  }

  // ---------------------------------------------------------------------------
  // Perfect numbers
  // ---------------------------------------------------------------------------

  /** `sum(i for i in range(1, k) if n % i == 0)`, summed in the order of the range. */
  function DivisorSum(n: nat, k: nat): (s: nat)
    ensures n >= 1 && k >= 2 ==> s >= 1
  {
    if k <= 1 then 0 else DivisorSum(n, k - 1) + (if n % (k - 1) == 0 then k - 1 else 0)
  }

  /** `is_perfect(n)`: n > 1 and n equals the sum of its divisors in [1, n).
      A perfect number is never prime. */
  predicate IsPerfect(n: int)
    ensures IsPerfect(n) ==> n > 1 && !Prime(n)
  {
    PrimeDivisorSum(n);
    n > 1 && DivisorSum(n, n) == n
  }

  /** Every divisor below k is counted in the sum. */
  lemma {:induction false} DivisorCounted(n: nat, k: nat, d: nat)
    requires 1 <= d < k && n % d == 0
    ensures DivisorSum(n, k) >= d
  {
    if d < k - 1 {
      DivisorCounted(n, k - 1, d);
    }
  }

  /** When nothing in [2, k) divides n, the only divisor counted is 1. */
  lemma {:induction false} DivisorSumOnlyOne(n: nat, k: nat)
    requires n >= 1 && k >= 2
    requires forall d :: 2 <= d < k ==> n % d != 0
    ensures DivisorSum(n, k) == 1
  {
    if k > 2 {
      DivisorSumOnlyOne(n, k - 1);
    }
  }

  /** The divisors of a prime below itself sum to 1. */
  lemma PrimeDivisorSum(n: int)
    ensures Prime(n) ==> DivisorSum(n, n) == 1
  {
    if Prime(n) {
      DivisorSumOnlyOne(n, n);
    }
  }

  /** `is_perfect` is False for n <= 1, and among the examples 6 and 28 are perfect
      while 27 is not. */
  lemma PerfectExamples(n: int)
    ensures n <= 1 ==> !IsPerfect(n)
    ensures IsPerfect(6) && IsPerfect(28) && !IsPerfect(27)
  {
    assert DivisorSum(6, 6) == 6;
    assert DivisorSum(28, 5) == 7;
    assert DivisorSum(28, 10) == 14;
    assert DivisorSum(28, 15) == 28;
    assert DivisorSum(28, 20) == 28;
    assert DivisorSum(28, 25) == 28;
    assert DivisorSum(27, 5) == 4;
    assert DivisorSum(27, 10) == 13;
    assert DivisorSum(27, 15) == 13;
    assert DivisorSum(27, 20) == 13;
    assert DivisorSum(27, 25) == 13;
  }

  // ---------------------------------------------------------------------------
  // Digit-based predicates, over the text `str(n)`
  // ---------------------------------------------------------------------------

  /** `sum(int(digit) ** p for digit in s)`, left to right; with p == 1 it is the
      plain digit sum. */
  function PowerSum(s: string, p: nat): (r: nat)
    requires AllDigits(s)
    ensures p == 1 ==> r == DigitSumOf(s)
  {
    if s == [] then 0
    else
      var d := DigitValue(s[|s| - 1]);
      assert Pow(d, 1) == d * Pow(d, 0);
      PowerSum(s[..|s| - 1], p) + Pow(d, p)
  }

  /** `is_armstrong(n)`: n equals the sum of the digits of `str(n)`, each raised to
      `len(str(n))`; equivalently, n equals the sum of its decimal digits each
      raised to its digit count. */
  predicate IsArmstrong(n: nat)
    ensures IsArmstrong(n) <==> n == DigitPowerSum(n, DigitCount(n))
  {
    var s := Str(n);
    StrLengthIsDigitCount(n);
    PowerSumOfStr(n, |s|);
    n == PowerSum(s, |s|)
  }

  /** `sum(int(digit) for digit in s)`, left to right. */
  function DigitSumOf(s: string): (r: nat)
    requires AllDigits(s)
    ensures r <= 9 * |s|
  {
    if s == [] then 0 else DigitSumOf(s[..|s| - 1]) + DigitValue(s[|s| - 1])
  }

  /** `get_digit_sum(n)`: the sum of the decimal digits of n, which is n itself
      for a single digit and never more than n. */
  function DigitSum(n: nat): (r: nat)
    ensures r == DecimalDigitSum(n)
    ensures n < 10 ==> r == n
    ensures r <= n
  {
    DigitSumOfStr(n);
    DecimalDigitSumBounds(n);
    DigitSumOf(Str(n))
  }

  // Arithmetic reference definitions, independent of the text form.

  /** The number of decimal digits of n (1 for zero). */
  function DigitCount(n: nat): (c: nat)
    ensures c >= 1
  {
    if n < 10 then 1 else DigitCount(n / 10) + 1
  }

  /** The sum of the p-th powers of the decimal digits of n, by division. */
  function DigitPowerSum(n: nat, p: nat): nat {
    if n < 10 then Pow(n, p) else DigitPowerSum(n / 10, p) + Pow(n % 10, p)
  }

  /** The sum of the decimal digits of n, by division. */
  function DecimalDigitSum(n: nat): nat {
    if n < 10 then n else DecimalDigitSum(n / 10) + n % 10
  }

  /** `len(str(n))` is the digit count of n. */
  lemma {:induction false} StrLengthIsDigitCount(n: nat)
    ensures |Str(n)| == DigitCount(n)
  {
    if n >= 10 {
      StrLengthIsDigitCount(n / 10);
    }
  }

  /** Summing powers over the text of n is summing powers of its digits. */
  lemma {:induction false} PowerSumOfStr(n: nat, p: nat)
    ensures PowerSum(Str(n), p) == DigitPowerSum(n, p)
  {
    if n >= 10 {
      StrSnoc(n);
      PowerSumOfStr(n / 10, p);
    }
  }

  /** Every single digit is an Armstrong number; 153 is one and 154 is not. */
  lemma ArmstrongExamples(n: nat)
    ensures n < 10 ==> IsArmstrong(n)
    ensures IsArmstrong(153) && !IsArmstrong(154)
  {
    if n < 10 {
      assert Pow(n, 1) == n * Pow(n, 0);
    }
  }

  /** Summing the digits of the text of n is summing its digits by division. */
  lemma {:induction false} DigitSumOfStr(n: nat)
    ensures DigitSumOf(Str(n)) == DecimalDigitSum(n)
  {
    if n >= 10 {
      StrSnoc(n);
      DigitSumOfStr(n / 10);
    }
  }

  /** The digit sum of a single digit is the digit itself, and it never exceeds n. */
  lemma {:induction false} DecimalDigitSumBounds(n: nat)
    ensures n < 10 ==> DecimalDigitSum(n) == n
    ensures DecimalDigitSum(n) <= n
  {
    if n >= 10 {
      DecimalDigitSumBounds(n / 10);
    }
  }
}
