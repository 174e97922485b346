/**
 The two pricing functions of a model route.  A reservation is priced before egress at the
 dearest input rate and rounded up; a settlement is priced from the provider's token classes
 and rounded half to even.  Rates are exact (the decimal context of 96 digits never rounds).
 */
module Pricing {
  datatype Rounding = Ceiling | HalfEven

  datatype Part = Part(tokens: int, rate: real)

  datatype Route = Route(anthropic: bool, input: real, cacheRead: real, cacheWrite: real, output: real)

  /** Token counts reported by the provider. */
  datatype Usage = Usage(input: int, output: int, cacheRead: int, cacheWrite: int)

  function Natural(tokens: int): nat {
    if tokens < 0 then 0 else tokens
  }

  function NonNegative(rate: real): (r: real)
    ensures r >= 0.0
  {
    if rate < 0.0 then 0.0 else rate
  }

  function MaxRate(x: real, y: real): real {
    if x < y then y else x
  }

  function CeilingOf(x: real): (n: int)
    ensures x <= n as real < x + 1.0
  {
    -(-x).Floor
  }

  function HalfEvenOf(x: real): (n: int)
    ensures x - 0.5 <= n as real <= x + 0.5
    ensures (n as real == x - 0.5 || n as real == x + 0.5) ==> n % 2 == 0
  {
    var floor := x.Floor;
    var rest := x - floor as real;
    if rest < 0.5 || (rest == 0.5 && floor % 2 == 0) then floor else floor + 1
  }

  function Price(part: Part): real {
    Natural(part.tokens) as real * NonNegative(part.rate)
  }

  function Total(parts: seq<Part>): real {
    if parts == [] then 0.0 else Price(parts[0]) + Total(parts[1..])
  }

  function RouteCost(parts: seq<Part>, rounding: Rounding): int {
    var total := Total(parts);
    Natural(if rounding.Ceiling? then CeilingOf(total) else HalfEvenOf(total))
  }

  function EstimateReservation(route: Route, inputTokens: int, outputTokens: int): int {
    var inputRate := MaxRate(MaxRate(MaxRate(0.0, route.input), route.cacheRead), route.cacheWrite);
    RouteCost([Part(inputTokens, inputRate), Part(outputTokens, MaxRate(0.0, route.output))], Ceiling)
  }

  /** Input tokens billed at the plain input rate. */
  function Uncached(anthropic: bool, u: Usage): int {
    if anthropic then u.input else Natural(u.input - u.cacheRead - u.cacheWrite)
  }

  function EstimateCost(route: Route, u: Usage): int {
    RouteCost([Part(Uncached(route.anthropic, u), route.input), Part(u.cacheRead, route.cacheRead),
               Part(u.cacheWrite, route.cacheWrite), Part(u.output, route.output)], HalfEven)
  }

  /** The input tokens a settlement bills, over its three classes. */
  function BilledInput(anthropic: bool, u: Usage): nat {
    Natural(Uncached(anthropic, u)) + Natural(u.cacheRead) + Natural(u.cacheWrite)
  }

  // ---------------------------------------------------------------- reservation against settlement

  lemma TotalOfTwo(a: Part, b: Part)
    ensures Total([a, b]) == Price(a) + Price(b)
  {
    assert [a, b][1..] == [b] && [b][1..] == [];
    assert Total([b]) == Price(b) + Total([]);
  }

  lemma TotalOfFour(a: Part, b: Part, c: Part, d: Part)
    ensures Total([a, b, c, d]) == Price(a) + Price(b) + Price(c) + Price(d)
  {
    assert [a, b, c, d][1..] == [b, c, d] && [b, c, d][1..] == [c, d];
    TotalOfTwo(c, d);
  }

  lemma CheaperRate(tokens: real, rate: real, dear: real)
    requires 0.0 <= tokens && 0.0 <= rate <= dear
    ensures tokens * rate <= tokens * dear
  {
  }

  lemma FewerTokens(few: real, many: real, rate: real)
    requires few <= many && 0.0 <= rate
    ensures few * rate <= many * rate
  {
  }

  lemma Distribute(x: real, y: real, z: real, rate: real)
    ensures (x + y + z) * rate == x * rate + y * rate + z * rate
  {
  }

  /** Rounding half to even never passes the ceiling of a larger amount. */
  lemma RoundingOrder(x: seq<Part>, y: seq<Part>)
    requires Total(x) <= Total(y)
    ensures RouteCost(x, HalfEven) <= RouteCost(y, Ceiling)
  {
  }

  lemma SpreadInput(x: real, y: real, z: real, bound: real, rx: real, ry: real, rz: real, dear: real)
    requires 0.0 <= x && 0.0 <= y && 0.0 <= z && x + y + z <= bound
    requires 0.0 <= rx <= dear && 0.0 <= ry <= dear && 0.0 <= rz <= dear
    ensures x * rx + y * ry + z * rz <= bound * dear
  {
    CheaperRate(x, rx, dear);
    CheaperRate(y, ry, dear);
    CheaperRate(z, rz, dear);
    FewerTokens(x + y + z, bound, dear);
    Distribute(x, y, z, dear);
  }

  lemma InputPrices(plain: Part, read: Part, write: Part, bound: Part)
    requires Natural(plain.tokens) + Natural(read.tokens) + Natural(write.tokens) <= Natural(bound.tokens)
    requires NonNegative(plain.rate) <= NonNegative(bound.rate)
    requires NonNegative(read.rate) <= NonNegative(bound.rate)
    requires NonNegative(write.rate) <= NonNegative(bound.rate)
    ensures Price(plain) + Price(read) + Price(write) <= Price(bound)
  {
    SpreadInput(Natural(plain.tokens) as real, Natural(read.tokens) as real, Natural(write.tokens) as real,
                Natural(bound.tokens) as real, NonNegative(plain.rate), NonNegative(read.rate), NonNegative(write.rate),
                NonNegative(bound.rate));
  }

  lemma OutputPrices(out: Part, bound: Part)
    requires Natural(out.tokens) <= Natural(bound.tokens) && NonNegative(out.rate) == NonNegative(bound.rate)
    ensures Price(out) <= Price(bound)
  {
    FewerTokens(Natural(out.tokens) as real, Natural(bound.tokens) as real, NonNegative(out.rate));
  }

  lemma PricesOrdered(plain: Part, read: Part, write: Part, out: Part, inputBound: Part, outputBound: Part)
    requires Price(plain) + Price(read) + Price(write) <= Price(inputBound) && Price(out) <= Price(outputBound)
    ensures Total([plain, read, write, out]) <= Total([inputBound, outputBound])
  {
    TotalOfFour(plain, read, write, out);
    TotalOfTwo(inputBound, outputBound);
  }

  /** A usage within the reserved bounds never costs more than the reservation, whatever the
      rates are. */
  lemma ReservationDominates(route: Route, inputBound: int, outputBound: int, u: Usage)
    requires BilledInput(route.anthropic, u) <= Natural(inputBound)
    requires Natural(u.output) <= Natural(outputBound)
    ensures EstimateCost(route, u) <= EstimateReservation(route, inputBound, outputBound)
  {
    var dear := MaxRate(MaxRate(MaxRate(0.0, route.input), route.cacheRead), route.cacheWrite);
    var plain, read, write, out :=
      Part(Uncached(route.anthropic, u), route.input), Part(u.cacheRead, route.cacheRead),
      Part(u.cacheWrite, route.cacheWrite), Part(u.output, route.output);
    var reserved := [Part(inputBound, dear), Part(outputBound, MaxRate(0.0, route.output))];
    InputPrices(plain, read, write, reserved[0]);
    OutputPrices(out, reserved[1]);
    PricesOrdered(plain, read, write, out, reserved[0], reserved[1]);
    RoundingOrder([plain, read, write, out], reserved);
  }

  ghost predicate DominatesAtAllRates(anthropic: bool, inputBound: int, outputBound: int, u: Usage) {
    forall route: Route :: route.anthropic == anthropic ==>
      EstimateCost(route, u) <= EstimateReservation(route, inputBound, outputBound)
  }

  /** The bound is exact: the reservation covers the settlement at all rates if and only if the
      billed input classes sum within the input bound and the output is within its own. */
  lemma DominanceExact(anthropic: bool, inputBound: int, outputBound: int, u: Usage)
    ensures DominatesAtAllRates(anthropic, inputBound, outputBound, u) <==>
            BilledInput(anthropic, u) <= Natural(inputBound) && Natural(u.output) <= Natural(outputBound)
  {
    if BilledInput(anthropic, u) <= Natural(inputBound) && Natural(u.output) <= Natural(outputBound) {
      forall route: Route | route.anthropic == anthropic
        ensures EstimateCost(route, u) <= EstimateReservation(route, inputBound, outputBound)
      {
        ReservationDominates(route, inputBound, outputBound, u);
      }
    } else {
      var rate := if BilledInput(anthropic, u) <= Natural(inputBound) then 0.0 else 1.0;
      UnitCost(u, anthropic, rate, 1.0 - rate);
      UnitReservation(anthropic, inputBound, outputBound, rate, 1.0 - rate);
      assert Route(anthropic, rate, rate, rate, 1.0 - rate).anthropic == anthropic;
    }
  }

  lemma PriceAtUnit(part: Part)
    ensures part.rate == 1.0 ==> Price(part) == Natural(part.tokens) as real
    ensures part.rate == 0.0 ==> Price(part) == 0.0
  {
  }

  /** Whole amounts are not rounded. */
  lemma WholeCost(parts: seq<Part>, rounding: Rounding, n: nat)
    requires Total(parts) == n as real
    ensures RouteCost(parts, rounding) == n
  {
  }

  lemma UnitCost(u: Usage, anthropic: bool, rate: real, outputRate: real)
    requires (rate == 1.0 && outputRate == 0.0) || (rate == 0.0 && outputRate == 1.0)
    ensures EstimateCost(Route(anthropic, rate, rate, rate, outputRate), u)
         == if rate == 1.0 then BilledInput(anthropic, u) else Natural(u.output)
  {
    var plain, read, write, out :=
      Part(Uncached(anthropic, u), rate), Part(u.cacheRead, rate), Part(u.cacheWrite, rate), Part(u.output, outputRate);
    TotalOfFour(plain, read, write, out);
    PriceAtUnit(plain);
    PriceAtUnit(read);
    PriceAtUnit(write);
    PriceAtUnit(out);
    WholeCost([plain, read, write, out], HalfEven, if rate == 1.0 then BilledInput(anthropic, u) else Natural(u.output));
  }

  lemma UnitReservation(anthropic: bool, inputBound: int, outputBound: int, rate: real, outputRate: real)
    requires (rate == 1.0 && outputRate == 0.0) || (rate == 0.0 && outputRate == 1.0)
    ensures EstimateReservation(Route(anthropic, rate, rate, rate, outputRate), inputBound, outputBound)
         == if rate == 1.0 then Natural(inputBound) else Natural(outputBound)
  {
    var x, y := Part(inputBound, rate), Part(outputBound, outputRate);
    TotalOfTwo(x, y);
    PriceAtUnit(x);
    PriceAtUnit(y);
    WholeCost([x, y], Ceiling, if rate == 1.0 then Natural(inputBound) else Natural(outputBound));
  }

  /** Tokens at a rate; negative tokens and rates count as none. */
  function Tokens(tokens: int, rate: real): real {
    if tokens > 0 && rate > 0.0 then tokens as real * rate else 0.0
  }

  /** The exact price of a usage: each class of tokens at its own rate. An OpenAI input count holds
      the cached tokens, an Anthropic one does not. */
  function ExactCost(route: Route, u: Usage): real {
    Tokens(if route.anthropic then u.input else u.input - u.cacheRead - u.cacheWrite, route.input)
    + Tokens(u.cacheRead, route.cacheRead) + Tokens(u.cacheWrite, route.cacheWrite) + Tokens(u.output, route.output)
  }

  lemma PriceIs(part: Part)
    ensures Price(part) == Tokens(part.tokens, part.rate) >= 0.0
  {
  }

  lemma RoundedHalfEven(parts: seq<Part>, total: real)
    requires Total(parts) == total >= 0.0
    ensures RouteCost(parts, HalfEven) >= 0 && total - 0.5 <= RouteCost(parts, HalfEven) as real <= total + 0.5
    ensures RouteCost(parts, HalfEven) as real == total - 0.5 || RouteCost(parts, HalfEven) as real == total + 0.5 ==>
      RouteCost(parts, HalfEven) % 2 == 0
  {
  }

  /** A settlement is the exact price rounded half to even. */
  lemma CostExact(route: Route, u: Usage)
    ensures var cost, exact := EstimateCost(route, u), ExactCost(route, u);
      && cost >= 0 && exact - 0.5 <= cost as real <= exact + 0.5
      && (cost as real == exact - 0.5 || cost as real == exact + 0.5 ==> cost % 2 == 0)
  {
    var plain, read, write, out :=
      Part(Uncached(route.anthropic, u), route.input), Part(u.cacheRead, route.cacheRead),
      Part(u.cacheWrite, route.cacheWrite), Part(u.output, route.output);
    FourPrices(plain, read, write, out);
    PlainTokens(route, u);
    RoundedHalfEven([plain, read, write, out], ExactCost(route, u));
  }

  lemma FourPrices(a: Part, b: Part, c: Part, d: Part)
    ensures Total([a, b, c, d])
         == Tokens(a.tokens, a.rate) + Tokens(b.tokens, b.rate) + Tokens(c.tokens, c.rate) + Tokens(d.tokens, d.rate) >= 0.0
  {
    TotalOfFour(a, b, c, d);
    PriceIs(a);
    PriceIs(b);
    PriceIs(c);
    PriceIs(d);
  }

  lemma PlainTokens(route: Route, u: Usage)
    ensures Tokens(Uncached(route.anthropic, u), route.input)
         == Tokens(if route.anthropic then u.input else u.input - u.cacheRead - u.cacheWrite, route.input)
  {
  }

  /** A reservation prices the whole input bound at the dearest input rate and rounds up. */
  lemma ReservationExact(route: Route, inputTokens: nat, outputTokens: nat, dear: real, outRate: real)
    requires dear >= 0.0 && dear >= route.input && dear >= route.cacheRead && dear >= route.cacheWrite
    requires dear == 0.0 || dear == route.input || dear == route.cacheRead || dear == route.cacheWrite
    requires outRate == if route.output > 0.0 then route.output else 0.0
    ensures var exact := inputTokens as real * dear + outputTokens as real * outRate;
      exact <= EstimateReservation(route, inputTokens, outputTokens) as real < exact + 1.0
  {
    var x, y := Part(inputTokens, dear), Part(outputTokens, outRate);
    assert MaxRate(MaxRate(MaxRate(0.0, route.input), route.cacheRead), route.cacheWrite) == dear;
    assert MaxRate(0.0, route.output) == outRate;
    TotalOfTwo(x, y);
    NotNegative(inputTokens as real, dear);
    NotNegative(outputTokens as real, outRate);
  }

  lemma NotNegative(tokens: real, rate: real)
    requires tokens >= 0.0 && rate >= 0.0
    ensures tokens * rate >= 0.0
  {
  }

  /** The provider rules the ledger enforces on complete usage are enough: cached tokens are a
      subset of an OpenAI input count, and Anthropic's three classes sum within the bound. */
  predicate ProviderWithin(anthropic: bool, inputBound: int, outputBound: int, u: Usage) {
    && u.input >= 0 && u.cacheRead >= 0 && u.cacheWrite >= 0 && u.output <= outputBound
    && if anthropic then u.input + u.cacheRead + u.cacheWrite <= inputBound
       else u.cacheWrite <= u.input && u.cacheRead <= u.input - u.cacheWrite && u.input <= inputBound
  }

  lemma ProviderUsageDominated(route: Route, inputBound: int, outputBound: int, u: Usage)
    requires ProviderWithin(route.anthropic, inputBound, outputBound, u)
    ensures EstimateCost(route, u) <= EstimateReservation(route, inputBound, outputBound)
  {
    ReservationDominates(route, inputBound, outputBound, u);
  }

  /** Without the subset rule an OpenAI report of one input token, all of it both read from and
      written to the cache, costs twice its reservation. */
  lemma OverlappingCacheOverspends()
    ensures var route := Route(false, 1.0, 1.0, 1.0, 1.0);
      EstimateCost(route, Usage(1, 0, 1, 1)) == 2 && EstimateReservation(route, 1, 0) == 1
  {
    TotalOfFour(Part(0, 1.0), Part(1, 1.0), Part(1, 1.0), Part(0, 1.0));
    TotalOfTwo(Part(1, 1.0), Part(0, 1.0));
  }
}
