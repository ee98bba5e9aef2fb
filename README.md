# numbers_api: a Dafny model of the number-details view

The repository is one Django view module, `numbersapi_app/views.py`. Given
`GET ?number=<n>` it answers with a JSON document describing n: whether it is
prime, whether it is perfect, its digit sum, a `properties` list
("armstrong" when n is an Armstrong number, then "even" or "odd") and a fun fact
fetched from a remote service. Wrong methods, missing or malformed parameters and
numbers outside [0, 1000000] get error bodies with status 405 or 400. A response
cache is consulted before the document is computed.

This project models:

- **`Decimal`** (`Decimal.dfy`): `str(n)` for n >= 0 as a string of ASCII digits,
  `int(c)` for a digit character, and `int(s)` for an optional sign followed by
  ASCII digits. Both directions of the round trip between `str` and `int` are proved.
- **`NumberPredicates`** (`Predicates.dfy`): the four helpers of the view.
  - `is_prime` is a method with the source's loop over odd candidates up to
    `int(math.sqrt(n))`. It is proved equal to the plain definition "n >= 2 and
    nothing in [2, n) divides n" (`Prime`).
  - `is_perfect`, `is_armstrong` and `get_digit_sum` are functions. They mirror the
    source's generator sums, folded left to right over `range(1, n)` or over the
    characters of `str(n)`. Each is tied by lemmas to an arithmetic definition,
    or to its examples and bounds.
- **`NumberDetailsView`** (`Views.dfy`): `number_details` as a pure function of
  - the request method;
  - the raw `number` parameter (`Option<string>`);
  - the outcome of `int(number)` (`Option<int>`; `None` stands for ValueError);
  - the outcome of the response-cache lookup (`Option<Doc>`);
  - the fun-fact text.

  Lemmas state the branch order, the range check, the cache-hit and cache-miss
  documents, the invariant of the `properties` list, and that a repeated request
  served from the cache gives the same response.
- **`Wrappers`** (`Wrappers.dfy`): the `Option` datatype.

Three small predicates have no contract of their own and appear in the contracts above: `NumberPredicates.Prime` is the reference definition "n >= 2 and no d in [2, n) divides n"; `NumberDetailsView.Missing` is `if not number` (numbersapi_app/views.py:79), true for an absent or empty parameter; `NumberDetailsView.InRange` is the negation of the range test `number < 0 or number > 1000000` (numbersapi_app/views.py:92).

The document's `is_prime` field is stated with `Prime`. The method
`NumberPredicates.IsPrime` is the source's `is_prime`, and its postcondition says
it returns exactly `Prime(n)`, so the two agree on every input.

## Model

| member | source | states |
|---|---|---|
| `Decimal.Pow` | numbersapi_app/views.py:34 | `digit ** power` on naturals; a positive base gives a positive power |
| `Decimal.DigitValue` | numbersapi_app/views.py:38 | `int(digit)` of a digit character is a value below 10 |
| `Decimal.DigitChar` | numbersapi_app/views.py:32 | the character printed for a digit is a digit character whose value is that digit |
| `Decimal.Str` | numbersapi_app/views.py:32 | `str(n)` is a non-empty string of digit characters that starts with '0' only for n == 0 |
| `Decimal.DigitsValue` | numbersapi_app/views.py:89 | the value of a digit string read left to right is below 10^len |
| `Decimal.ParseInt` | numbersapi_app/views.py:88-89 | `int(s)` on sign-plus-digits text succeeds exactly when 1 to 4300 digits follow the optional sign; its magnitude is the value of those digits, leading zeros allowed, and it is negative only after a '-' and never positive after one |
| `Decimal.DigitsValueOfStr` | numbersapi_app/views.py:32 | reading back what `str(n)` prints gives n |
| `Decimal.StrOfDigitsValue` | numbersapi_app/views.py:32 | a digit string without leading zeros is exactly `str` of its value |
| `Decimal.StrLength` | numbersapi_app/views.py:33 | `len(str(n))` is the number of decimal digits: 10^(len-1) <= n < 10^len for n >= 1 |
| `Decimal.ParseIntOfStr` | numbersapi_app/views.py:89 | within the 4300-digit limit, `int` accepts `str(n)`, `"+" + str(n)` and `"-" + str(n)`, giving n, n and -n |
| `Decimal.ParseIntCanonical` | numbersapi_app/views.py:89 | accepted text whose digits have no leading zero is `str` of the magnitude behind an optional sign |
| `Decimal.ParseIntLeadingZeros` | numbersapi_app/views.py:89 | "007" parses to 7, "+0012" to 12 and "-0" to 0 |
| `Decimal.ParseIntRejects` | numbersapi_app/views.py:137-145 | a character that is neither a digit nor a leading sign makes `int` fail (the ValueError path) |
| `NumberPredicates.ISqrt` | numbersapi_app/views.py:18 | `int(math.sqrt(n))` is the r with r*r <= n < (r+1)*(r+1) |
| `NumberPredicates.ISqrtBetween` | numbersapi_app/views.py:18 | for n >= 2 the loop bound lies in [1, n), so every candidate is a proper divisor candidate |
| `NumberPredicates.OddHasNoEvenDivisor` | numbersapi_app/views.py:16-18 | an odd n has no even divisor, which is why the loop may skip even candidates |
| `NumberPredicates.NextOddCandidate` | numbersapi_app/views.py:18-20 | stepping from candidate i to i + 2 keeps "no divisor found below the candidate" |
| `NumberPredicates.NoSmallDivisorMeansPrime` | numbersapi_app/views.py:18-21 | no divisor in [2, k) with k*k > n implies no divisor in [2, n), so stopping at the square root is sound |
| `NumberPredicates.IsPrime` | numbersapi_app/views.py:11-21 | `is_prime(n)` returns True exactly when n >= 2 and no d in [2, n) divides n; its early False is returned only on a real divisor |
| `NumberPredicates.PrimeBaseCases` | numbersapi_app/views.py:12-17 | false for n < 2, true for 2, false for every even n > 2 |
| `NumberPredicates.DivisorSum` | numbersapi_app/views.py:27 | `sum(i for i in range(1, k) if n % i == 0)`; it is at least 1 for n >= 1 and k >= 2, because 1 divides n |
| `NumberPredicates.DivisorCounted` | numbersapi_app/views.py:27 | the sum is at least d for every divisor d of n with 1 <= d < k |
| `NumberPredicates.DivisorSumOnlyOne` | numbersapi_app/views.py:27 | when nothing in [2, k) divides n the sum is exactly 1 |
| `NumberPredicates.PrimeDivisorSum` | numbersapi_app/views.py:27 | for a prime n the divisors in [1, n) sum to 1 |
| `NumberPredicates.IsPerfect` | numbersapi_app/views.py:24-28 | `is_perfect(n)` holds only for n > 1, and never for a prime |
| `NumberPredicates.PerfectExamples` | numbersapi_app/views.py:25-28 | `is_perfect` is False for n <= 1; 6 and 28 are perfect, 27 is not |
| `NumberPredicates.DigitSumOf` | numbersapi_app/views.py:38 | the sum of the digits of a string is at most 9 per character |
| `NumberPredicates.PowerSum` | numbersapi_app/views.py:34 | `sum(int(digit) ** p for digit in s)`; with p == 1 it equals the plain digit sum |
| `NumberPredicates.DigitCount` | numbersapi_app/views.py:33 | the arithmetic digit count of n is at least 1 |
| `NumberPredicates.StrLengthIsDigitCount` | numbersapi_app/views.py:32-33 | `power = len(str(n))` equals the arithmetic digit count |
| `NumberPredicates.PowerSumOfStr` | numbersapi_app/views.py:34 | summing `int(digit) ** p` over `str(n)` equals summing the p-th powers of n's digits by division |
| `NumberPredicates.IsArmstrong` | numbersapi_app/views.py:30-34 | `is_armstrong(n)` holds iff n equals the sum of its decimal digits, each raised to its digit count, all computed by division |
| `NumberPredicates.ArmstrongExamples` | numbersapi_app/views.py:31-34 | every n in 0..9 is an Armstrong number; 153 is one and 154 is not |
| `NumberPredicates.DigitSum` | numbersapi_app/views.py:36-38 | `get_digit_sum(n)` equals the sum of n's decimal digits computed by division; it is n when n < 10 and never exceeds n |
| `NumberPredicates.DigitSumOfStr` | numbersapi_app/views.py:38 | summing `int(digit)` over `str(n)` equals the digit sum by division |
| `NumberPredicates.DecimalDigitSumBounds` | numbersapi_app/views.py:38 | the digit sum by division is n when n < 10 and never exceeds n |
| `NumberDetailsView.Properties` | numbersapi_app/views.py:107-115 | the list has "armstrong" exactly when n is an Armstrong number, then in front and once, and exactly one of "even"/"odd", matching n % 2, and no other tag |
| `NumberDetailsView.NumberDetails` | numbersapi_app/views.py:68-145 | status 405 iff the method is not GET; status 200 iff the request is a GET with a present parameter parsing to a number in [0, 1000000]; otherwise 400; a document body exactly on 200 |
| `NumberDetailsView.MethodCheckedFirst` | numbersapi_app/views.py:69-76 | a non-GET request gives 405 "Method not allowed" whatever the parameter, parse, cache and fact |
| `NumberDetailsView.MissingNumberRejected` | numbersapi_app/views.py:78-86 | an absent or empty parameter gives 400 with a null number, whatever the parse and the cache |
| `NumberDetailsView.UnparsableNumberEchoed` | numbersapi_app/views.py:137-145 | a parameter `int` rejects gives 400 and echoes the raw text |
| `NumberDetailsView.OutOfRangeRejected` | numbersapi_app/views.py:92-99 | a parsed n < 0 or n > 1000000 gives 400 with the range message, independent of the cache and the fact |
| `NumberDetailsView.CacheHitReturned` | numbersapi_app/views.py:102-105 | a valid number with a cached document returns that document unchanged with 200 |
| `NumberDetailsView.CacheMissComputed` | numbersapi_app/views.py:107-124 | on a miss the 200 document carries n, `is_prime(n)`, `is_perfect(n)`, a well-formed properties list, `get_digit_sum(n)` and the fact |
| `NumberDetailsView.ComputedDocumentsWellFormed` | numbersapi_app/views.py:107-121 | every document the view computes itself has a non-negative number and a well-formed properties list for it |
| `NumberDetailsView.RepeatServedFromCache` | numbersapi_app/views.py:102-135 | storing the computed document and repeating the request returns the identical response from the cache |
| `NumberDetailsView.Example28` | numbersapi_app/views.py:107-135 | `?number=28` gives 200 with not prime, perfect, ["even"], digit sum 10 |
| `NumberDetailsView.ExampleZero` | numbersapi_app/views.py:79-124 | `?number=0` is not a missing parameter and gives 200 with ["armstrong", "even"], digit sum 0 |
| `NumberDetailsView.ExampleNegative` | numbersapi_app/views.py:92-99 | `?number=-5` gives the range error |
| `NumberDetailsView.ExampleNotANumber` | numbersapi_app/views.py:137-145 | `?number=abc` gives 400 echoing "abc" |
| `NumberDetailsView.TooManyDigitsEchoed` | numbersapi_app/views.py:137-145 | a parameter of more than 4300 digits makes `int` fail, so it is echoed with 400 instead of getting the range message |
| `NumberDetailsView.ExamplePost` | numbersapi_app/views.py:69-76 | a POST gives 405 |

## Left out

- `get_fun_fact` (numbersapi_app/views.py:40-66) is not modelled: the HTTP call, its timeout and status check, its fact cache and its fallback text. The fact is an input string of `NumberDetails`.
- The cache contents, TTLs and the writes with their swallowed exceptions (numbersapi_app/views.py:102-103, 127-130). A lookup is an `Option<Doc>` input. A write does not change the response, and its effect on a later request is stated by `RepeatServedFromCache`.
- The cache is assumed to hold only documents written by this view. Every such document is a non-empty dictionary, so `if cached_response:` treats it as a hit. Another value under the key, or an empty dictionary (falsy, so recomputed), is not modelled.
- Exceptions raised by `cache.get` in `number_details` (numbersapi_app/views.py:103) are not modelled. The surrounding `try` catches only `ValueError` (numbersapi_app/views.py:137): a `ValueError` from the cache would be answered with 400 echoing the raw parameter, and any other exception escapes the view. The model does not claim that cache read errors are absorbed.
- `@lru_cache` memoization: it changes only speed.
- `ParseInt` models only an optional sign followed by ASCII digits. `int()` also accepts surrounding whitespace, underscores between digits and non-ASCII decimal digits; these are not modelled. `NumberDetails` takes the parse outcome as an abstract input, and the examples use `ParseInt`.
- `ParseInt` uses CPython's default digit limit, 4300 (`sys.int_info.default_max_str_digits`, in force since 3.11 and the 2022 security releases). A changed limit (`sys.set_int_max_str_digits`, `PYTHONINTMAXSTRDIGITS`) or an older interpreter without the limit is not modelled.
- `Str` does not model the same limit on `str()`, which raises for numbers of more than 4300 digits. The view applies `str` only to numbers up to 1000000 (numbersapi_app/views.py:32, 38).
- `math.sqrt` floating point. `ISqrt` is the exact floor square root. This is what `int(math.sqrt(n))` gives for every n the view accepts (n <= 1000000).
- JSON serialization and indentation. In the code the 405, missing-parameter and range-error bodies are written without an indent, and the cache-hit, computed and ValueError bodies with 4 spaces.
- The request is reduced to its method string and the value of the `number` query parameter. Django's choice of the last value of a repeated parameter belongs to `request.GET.get` and is not modelled.
- `is_armstrong` and `get_digit_sum` are modelled on n >= 0 only. For a negative n, Python's `int('-')` would raise, but the view never passes one.
- The successive `properties.append` calls are modelled as a chain of sequence concatenations inside the function `Properties`, in the same order.
