/** The `number_details` view: method check, parameter validation, range check,
    response-cache lookup and assembly of the document, as one function of its
    inputs. The fact text and the cache lookup are inputs; the HTTP request
    is reduced to its method and its raw `number` parameter. */
module NumberDetailsView {
  import opened Wrappers
  import opened Decimal
  import opened NumberPredicates

  const MaxNumber: int := 1000000
  const MethodNotAllowed: string := "Method not allowed"
  const RangeMessage: string := "Number must be between 0 and 1,000,000"

  /** The document of a valid number (the `response_data` dictionary). */
  datatype Doc = Doc(
    number: int,
    isPrime: bool,
    isPerfect: bool,
    properties: seq<string>,
    digitSum: nat,
    funFact: string)

  /** The JSON bodies the view produces. */
  datatype Body =
    | ErrorMessage(message: string)         // {"error": true, "message": message}
    | ErrorNumber(number: Option<string>)   // {"error": true, "number": raw or null}
    | Details(doc: Doc)                     // the document itself

  datatype Response = Response(status: nat, body: Body)

  /** `not number`: the parameter is absent or empty. */
  predicate Missing(raw: Option<string>) {
    raw.None? || raw.value == []
  }

  /** The negation of `number < 0 or number > 1000000`. */
  predicate InRange(n: int) {
    0 <= n <= MaxNumber
  }

  /** The request reaches the cache lookup: a GET with a present parameter that
      parses to a number in range. */
  predicate Accepted(requestMethod: string, raw: Option<string>, parsed: Option<int>) {
    requestMethod == "GET" && !Missing(raw) && parsed.Some? && InRange(parsed.value)
  }

  /** What the `properties` list promises: "armstrong" exactly when n is an Armstrong
      number and then in front, and exactly one of "even"/"odd", matching n % 2,
      and nothing else. */
  predicate WellFormedProperties(n: nat, tags: seq<string>) {
    && (forall t :: t in tags ==> t == "armstrong" || t == "even" || t == "odd")
    && multiset(tags)["even"] + multiset(tags)["odd"] == 1
    && ("even" in tags <==> n % 2 == 0)
    && ("odd" in tags <==> n % 2 == 1)
    && multiset(tags)["armstrong"] == (if IsArmstrong(n) then 1 else 0)
    && ("armstrong" in tags ==> tags[0] == "armstrong")
  }

  /** The `properties` list, built by the same appends as the view: first an
      optional "armstrong", then the parity tag. */
  function Properties(n: nat): (tags: seq<string>)
    ensures WellFormedProperties(n, tags)
  {
    var tags0: seq<string> := [];
    var tags1 := if IsArmstrong(n) then tags0 + ["armstrong"] else tags0;
    if n % 2 == 0 then tags1 + ["even"] else tags1 + ["odd"]
  }

  /** The document describes n and carries the given fact. */
  predicate DescribesNumber(doc: Doc, n: nat, funFact: string) {
    && doc.number == n
    && doc.isPrime == Prime(n)
    && doc.isPerfect == IsPerfect(n)
    && WellFormedProperties(n, doc.properties)
    && doc.digitSum == DigitSum(n)
    && doc.funFact == funFact
  }

  /** `number_details(request)`; `parsed` is the outcome of `int(number)` (None when
      it raises ValueError), `cached` the outcome of the response-cache lookup,
      `funFact` what `get_fun_fact` returns. */
  function NumberDetails(
    requestMethod: string,
    raw: Option<string>,
    parsed: Option<int>,
    cached: Option<Doc>,
    funFact: string): (resp: Response)
    ensures resp.status == 405 <==> requestMethod != "GET"
    ensures resp.status == 200 <==> Accepted(requestMethod, raw, parsed)
    ensures resp.status == 200 || resp.status == 400 || resp.status == 405
    ensures resp.body.Details? <==> resp.status == 200
  {
    if requestMethod != "GET" then
      Response(405, ErrorMessage(MethodNotAllowed))
    else if Missing(raw) then
      Response(400, ErrorNumber(None))
    else if parsed.None? then
      Response(400, ErrorNumber(raw))
    else
      var n := parsed.value;
      if n < 0 || n > MaxNumber then
        Response(400, ErrorMessage(RangeMessage))
      else if cached.Some? then
        Response(200, Details(cached.value))
      else
        Response(200, Details(Doc(n, Prime(n), IsPerfect(n), Properties(n), DigitSum(n), funFact)))
  }

  // ---------------------------------------------------------------------------
  // The branches, in the order the view takes them
  // ---------------------------------------------------------------------------

  /** A method other than GET is refused before the parameter is looked at. */
  lemma MethodCheckedFirst(
    requestMethod: string, raw: Option<string>, parsed: Option<int>,
    cached: Option<Doc>, funFact: string)
    requires requestMethod != "GET"
    ensures NumberDetails(requestMethod, raw, parsed, cached, funFact)
         == Response(405, ErrorMessage(MethodNotAllowed))
  {
  }

  /** A missing or empty parameter gives 400 with a null number, whatever the parse
      and the cache would say. */
  lemma MissingNumberRejected(raw: Option<string>, parsed: Option<int>, cached: Option<Doc>, funFact: string)
    requires Missing(raw)
    ensures NumberDetails("GET", raw, parsed, cached, funFact) == Response(400, ErrorNumber(None))
  {
  }

  /** A parameter that does not parse gives 400 and echoes the raw text. */
  lemma UnparsableNumberEchoed(raw: string, cached: Option<Doc>, funFact: string)
    requires raw != []
    ensures NumberDetails("GET", Some(raw), None, cached, funFact) == Response(400, ErrorNumber(Some(raw)))
  {
  }

  /** A parsed number outside [0, 1000000] gives 400 with the range message; the
      outcome does not depend on the cache or the fact, so neither is consulted. */
  lemma OutOfRangeRejected(
    raw: string, n: int, cached1: Option<Doc>, fact1: string, cached2: Option<Doc>, fact2: string)
    requires raw != [] && !InRange(n)
    ensures NumberDetails("GET", Some(raw), Some(n), cached1, fact1) == Response(400, ErrorMessage(RangeMessage))
    ensures NumberDetails("GET", Some(raw), Some(n), cached1, fact1)
         == NumberDetails("GET", Some(raw), Some(n), cached2, fact2)
  {
  }

  /** A cache hit for a valid number is returned unchanged with status 200. */
  lemma CacheHitReturned(raw: string, n: int, doc: Doc, funFact: string)
    requires raw != [] && InRange(n)
    ensures NumberDetails("GET", Some(raw), Some(n), Some(doc), funFact) == Response(200, Details(doc))
  {
  }

  /** On a cache miss the document describes the number: its predicates, a
      well-formed properties list and the fact. */
  lemma CacheMissComputed(raw: string, n: int, funFact: string)
    requires raw != [] && InRange(n)
    ensures var resp := NumberDetails("GET", Some(raw), Some(n), None, funFact);
            resp.status == 200 && resp.body.Details? && DescribesNumber(resp.body.doc, n, funFact)
  {
  }

  /** Every document the view computes itself satisfies the properties-list
      invariant for the number it carries. */
  lemma ComputedDocumentsWellFormed(
    requestMethod: string, raw: Option<string>, parsed: Option<int>, funFact: string)
    ensures var resp := NumberDetails(requestMethod, raw, parsed, None, funFact);
            resp.body.Details? ==>
              resp.body.doc.number >= 0 &&
              WellFormedProperties(resp.body.doc.number, resp.body.doc.properties)
  {
  }

  /** Caching the computed document and asking again gives the identical response:
      the second request, served from the cache, repeats the first. */
  lemma RepeatServedFromCache(raw: string, n: int, fact1: string, fact2: string)
    requires raw != [] && InRange(n)
    ensures var first := NumberDetails("GET", Some(raw), Some(n), None, fact1);
            NumberDetails("GET", Some(raw), Some(n), Some(first.body.doc), fact2) == first
  {
  }

  // ---------------------------------------------------------------------------
  // Examples, with `int` applied to the raw text
  // ---------------------------------------------------------------------------

  /** GET ?number=28: 200, perfect, not prime, "even", digit sum 10. */
  lemma Example28(funFact: string)
    ensures var resp := NumberDetails("GET", Some("28"), ParseInt("28"), None, funFact);
            resp == Response(200, Details(Doc(28, false, true, ["even"], 10, funFact)))
  {
    assert ParseInt("28") == Some(28);
    assert !Prime(28) && IsPerfect(28) && DigitSum(28) == 10 && !IsArmstrong(28) by {
      PrimeBaseCases(28);
      PerfectExamples(28);
    }
    assert Properties(28) == ["even"];
  }

  /** GET ?number=0: the text "0" is not empty, so it is not taken for a missing
      parameter; zero is an even Armstrong number, neither prime nor perfect. */
  lemma ExampleZero(funFact: string)
    ensures var resp := NumberDetails("GET", Some("0"), ParseInt("0"), None, funFact);
            resp == Response(200, Details(Doc(0, false, false, ["armstrong", "even"], 0, funFact)))
  {
    assert ParseInt("0") == Some(0);
    assert !Prime(0) && !IsPerfect(0) && DigitSum(0) == 0 && IsArmstrong(0) by {
      PrimeBaseCases(0);
      PerfectExamples(0);
      ArmstrongExamples(0);
    }
    assert Properties(0) == ["armstrong", "even"];
  }

  /** GET ?number=-5: the range error. */
  lemma ExampleNegative(cached: Option<Doc>, funFact: string)
    ensures NumberDetails("GET", Some("-5"), ParseInt("-5"), cached, funFact)
         == Response(400, ErrorMessage(RangeMessage))
  {
    assert ParseInt("-5") == Some(-5);
  }

  /** GET ?number=abc: 400 echoing "abc". */
  lemma ExampleNotANumber(cached: Option<Doc>, funFact: string)
    ensures NumberDetails("GET", Some("abc"), ParseInt("abc"), cached, funFact)
         == Response(400, ErrorNumber(Some("abc")))
  {
    ParseIntRejects("abc", 0);
  }

  /** A parameter of more than MaxStrDigits digits makes `int` raise ValueError, so
      it is echoed with 400 rather than answered with the range message. */
  lemma TooManyDigitsEchoed(raw: string, cached: Option<Doc>, funFact: string)
    requires |raw| > MaxStrDigits && AllDigits(raw)
    ensures NumberDetails("GET", Some(raw), ParseInt(raw), cached, funFact)
         == Response(400, ErrorNumber(Some(raw)))
  {
    assert Unsigned(raw) == raw;
  }

  /** POST ?number=7: 405. */
  lemma ExamplePost(cached: Option<Doc>, funFact: string)
    ensures NumberDetails("POST", Some("7"), ParseInt("7"), cached, funFact)
         == Response(405, ErrorMessage(MethodNotAllowed))
  {
  }
}
