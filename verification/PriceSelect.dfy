/**
 Turning published prices into local ratios (controller/ratio_sync.go): the choice among
 models.dev providers, and the two conversions. Floating-point numbers are reals; a value that
 is not a finite number is NotFinite.
 */
module PriceSelect {
  import opened Options
  import opened PricingDiff

  datatype Float = Finite(value: real) | NotFinite

  const USD := 500.0

  // ---------------------------------------------------------------- candidates

  datatype Cost = Cost(input: Option<Float>, output: Option<Float>, cacheRead: Option<Float>)

  datatype Candidate = Candidate(provider: string, input: real, output: Option<real>, cacheRead: Option<real>)

  predicate ValidCost(v: Float) { v.Finite? && v.value >= 0.0 }

  /** buildModelsDevCandidate: the input price must be valid, an output price if given, and a free
      input with a priced output cannot be expressed; a bad cache price is merely dropped. */
  function BuildCandidate(provider: string, cost: Cost): Option<Candidate> {
    if cost.input.None? || !ValidCost(cost.input.value) then None
    else if cost.output.Some? && !ValidCost(cost.output.value) then None
    else
      var input := cost.input.value.value;
      var output := if cost.output.Some? then Some(cost.output.value.value) else None;
      if input == 0.0 && output.Some? && output.value > 0.0 then None
      else
        var cacheRead := if cost.cacheRead.Some? && ValidCost(cost.cacheRead.value) then Some(cost.cacheRead.value.value) else None;
        Some(Candidate(provider, input, output, cacheRead))
  }

  /** A published price that can be used: finite and not negative. */
  function Amount(v: Option<Float>): Option<real> {
    match v
    case Some(Finite(x)) => if x >= 0.0 then Some(x) else None
    case _ => None
  }

  /** Prices that local ratios can express: a usable input price, and no output price or a usable one,
      which is zero when the input is free. */
  predicate Sells(cost: Cost) {
    && Amount(cost.input).Some?
    && (cost.output.Some? ==> Amount(cost.output).Some?)
    && (Amount(cost.input) == Some(0.0) ==> Amount(cost.output) in {None, Some(0.0)})
  }

  /** A candidate is made if and only if its prices can be expressed, and carries them over one by one;
      a cache price that cannot be used is dropped. */
  lemma CandidateIff(provider: string, cost: Cost)
    ensures BuildCandidate(provider, cost) ==
            if Sells(cost) then Some(Candidate(provider, Amount(cost.input).value, Amount(cost.output), Amount(cost.cacheRead)))
            else None
  {}

  /** Byte order of strings. */
  predicate Less(a: string, b: string) {
    b != [] && (a == [] || a[0] < b[0] || (a[0] == b[0] && Less(a[1..], b[1..])))
  }

  predicate ShouldReplace(current: Candidate, next: Candidate) {
    var currentNonZero, nextNonZero := current.input > 0.0, next.input > 0.0;
    if currentNonZero != nextNonZero then nextNonZero
    else if nextNonZero && !NearlyEqual(next.input, current.input) then next.input < current.input
    else Less(next.provider, current.provider)
  }

  function Choose(cs: seq<Candidate>): Candidate
    requires cs != []
  {
    if |cs| == 1 then cs[0]
    else
      var current, next := Choose(cs[..|cs|-1]), cs[|cs|-1];
      if ShouldReplace(current, next) then next else current
  }

  predicate Ordered(cs: seq<Candidate>) {
    forall i, j :: 0 <= i < j < |cs| ==> Less(cs[i].provider, cs[j].provider)
  }

  lemma {:induction false} LessAsymmetric(a: string, b: string)
    requires Less(a, b)
    ensures !Less(b, a)
  {
    if a != [] && a[0] == b[0] { LessAsymmetric(a[1..], b[1..]); }
  }

  /** What a choice promises: one of the candidates, priced whenever some candidate is, and then
      cheaper than every priced candidate up to one epsilon. */
  ghost predicate CheapestNonZero(chosen: Candidate, cs: seq<Candidate>) {
    && chosen in cs
    && (forall c :: c in cs && c.input > 0.0 ==> chosen.input > 0.0 && chosen.input < c.input + EPSILON)
  }

  /** Visiting providers in name order, the fold under the non-transitive comparison still picks the
      cheapest non-zero price up to a single epsilon, for any number of providers. */
  lemma {:induction false} ChoosesCheapest(cs: seq<Candidate>)
    requires cs != [] && Ordered(cs) && forall c :: c in cs ==> c.input >= 0.0
    ensures CheapestNonZero(Choose(cs), cs)
  {
    if |cs| > 1 {
      var init, next := cs[..|cs|-1], cs[|cs|-1];
      ChoosesCheapest(init);
      var current := Choose(init);
      assert cs == init + [next];
      var k :| 0 <= k < |init| && init[k] == current;
      LessAsymmetric(current.provider, next.provider);
    }
  }

  /** The cheapest priced candidate, with nothing to spare. */
  ghost predicate Minimal(chosen: Candidate, cs: seq<Candidate>) {
    && chosen in cs
    && (forall c :: c in cs && c.input > 0.0 ==> chosen.input > 0.0 && chosen.input <= c.input)
  }

  /** Of two offers the cheaper priced one is chosen if and only if it is not the later one, cheaper
      by less than an epsilon. */
  lemma TwoOffersIff(a: Candidate, b: Candidate)
    requires Ordered([a, b]) && a.input >= 0.0 && b.input >= 0.0
    ensures Minimal(Choose([a, b]), [a, b]) <==> !(0.0 < b.input < a.input && NearlyEqual(b.input, a.input))
  {
    var cs := [a, b];
    assert cs[..1] == [a] && Choose(cs[..1]) == a;
    assert Less(cs[0].provider, cs[1].provider);
    LessAsymmetric(a.provider, b.provider);
    assert cs[0] in cs && cs[1] in cs;
  }

  /** So the dearer offer can stay. */
  lemma DearerStays(a: Candidate, b: Candidate)
    requires a.provider == "a" && b.provider == "b" && a.input == 1.0000000005 && b.input == 1.0
    ensures Ordered([a, b]) && Choose([a, b]) == a && !Minimal(a, [a, b])
  {
    var cs := [a, b];
    assert Less(a.provider, b.provider);
    assert cs[..1] == [a] && Choose(cs[..1]) == a;
    LessAsymmetric(a.provider, b.provider);
    assert cs[1] in cs;
  }

  /** Different prices are an epsilon or more apart. */
  ghost predicate Separated(cs: seq<Candidate>) {
    forall c, d :: c in cs && d in cs && c.input > 0.0 && d.input > 0.0 && NearlyEqual(c.input, d.input) ==> c.input == d.input
  }

  /** With prices an epsilon apart, or equal, the choice is truly the cheapest, for any number of offers. */
  lemma SeparatedIsMinimal(cs: seq<Candidate>)
    requires cs != [] && Ordered(cs) && Separated(cs) && forall c :: c in cs ==> c.input >= 0.0
    ensures Minimal(Choose(cs), cs)
  {
    ChoosesCheapest(cs);
  }

  /** Why the providers are sorted: out of name order the error would accumulate, and three providers
      would suffice to lose more than one epsilon. */
  lemma UnorderedDrifts(a: Candidate, b: Candidate, c: Candidate)
    requires a.provider == "z" && b.provider == "y" && c.provider == "x"
    requires a.input == 1.0 && b.input == 1.0000000006 && c.input == 1.0000000012
    ensures Choose([a, b, c]) == c && !CheapestNonZero(c, [a, b, c])
  {
    var cs := [a, b, c];
    var two := cs[..2];
    assert two == [a, b] && two[..1] == [a];
    assert Less(b.provider, a.provider) && Less(c.provider, b.provider);
    assert Choose(two) == b;
    assert Choose(cs) == c;
    assert cs[0] == a && a in cs;
  }

  /** Among unpriced candidates the first provider stays. */
  lemma {:induction false} FreeKeepsFirst(cs: seq<Candidate>)
    requires cs != [] && Ordered(cs) && forall c :: c in cs ==> c.input == 0.0
    ensures Choose(cs) == cs[0]
  {
    if |cs| > 1 {
      FreeKeepsFirst(cs[..|cs|-1]);
      LessAsymmetric(cs[0].provider, cs[|cs|-1].provider);
    }
  }

  // ---------------------------------------------------------------- rounding

  /** math.Round: to the nearest integer, halves away from zero. */
  function Round(x: real): int { if x >= 0.0 then (x + 0.5).Floor else -((-x + 0.5).Floor) }

  function RoundRatio(x: real): real { Round(x * 1000000.0) as real / 1000000.0 }

  const HALF_UNIT := 0.0000005

  lemma RoundClose(x: real)
    ensures Within(RoundRatio(x) - x, HALF_UNIT)
    ensures x >= 0.0 ==> RoundRatio(x) >= 0.0
  {
    var y := x * 1000000.0;
    assert -0.5 <= Round(y) as real - y <= 0.5;
    assert RoundRatio(x) - x == (Round(y) as real - y) / 1000000.0;
  }

  /** A rounded ratio is the nearest whole number of millionths, the one farther from zero of two. */
  lemma RoundIs(x: real, n: int)
    ensures RoundRatio(x) == n as real / 1000000.0 <==>
            if x >= 0.0 then n as real - 0.5 <= x * 1000000.0 < n as real + 0.5 else n as real - 0.5 < x * 1000000.0 <= n as real + 0.5
  {
    var y := x * 1000000.0;
    assert RoundRatio(x) == n as real / 1000000.0 <==> Round(y) == n;
  }

  predicate Within(error: real, bound: real) { error <= bound && 0.0 <= error + bound }

  lemma TimesWithin(a: real, c: real, h: real)
    requires Within(a, h) && c >= 0.0
    ensures Within(a * c, h * c)
  {
    assert (h - a) * c >= 0.0;
    assert (h + a) * c >= 0.0;
  }

  lemma ProductWithin(a: real, b: real, h: real)
    requires Within(a, h) && Within(b, h)
    ensures Within(a * b, h * h)
  {
    TimesWithin(a, h + b, h);
    TimesWithin(a, h - b, h);
    assert a * (h + b) == a * h + a * b && h * (h + b) == h * h + h * b;
    assert a * (h - b) == a * h - a * b && h * (h - b) == h * h - h * b;
  }

  lemma ErrorWithin(a: real, b: real, r: real, c: real, h: real)
    requires Within(a, h) && Within(b, h) && r >= 0.0 && c >= 0.0
    ensures Within((r + a) * (c + b) - r * c, h * (r + c) + h * h)
  {
    TimesWithin(a, c, h);
    TimesWithin(b, r, h);
    ProductWithin(a, b, h);
    assert (r + a) * (c + b) - r * c == a * c + b * r + a * b;
    assert h * (r + c) == h * r + h * c;
  }

  /** Two rounded factors: the product is off by no more than the roundings allow. */
  lemma ProductClose(r: real, c: real)
    requires r >= 0.0 && c >= 0.0
    ensures Within(RoundRatio(r) * RoundRatio(c) - r * c, HALF_UNIT * (r + c) + HALF_UNIT * HALF_UNIT)
  {
    RoundClose(r);
    RoundClose(c);
    ErrorWithin(RoundRatio(r) - r, RoundRatio(c) - c, r, c, HALF_UNIT);
  }

  // ---------------------------------------------------------------- local ratios

  /** One model's line of the local tables. */
  datatype Ratios = Ratios(model: real, completion: Option<real>, cache: Option<real>)

  /** The three local tables; an empty one is left out of the converted document. */
  datatype Tables = Tables(model: map<string, real>, completion: map<string, real>, cache: map<string, real>)

  function Quotient(price: Option<real>, base: real): Option<real>
    requires base != 0.0
  {
    if price.Some? then Some(RoundRatio(price.value / base)) else None
  }

  function DevModelRatio(input: real): real { RoundRatio(input * USD / 1000.0) }

  /** models.dev: prices per million tokens. */
  function DevRatios(c: Candidate): Ratios {
    if c.input == 0.0 then Ratios(0.0, None, None)
    else Ratios(DevModelRatio(c.input), Quotient(c.output, c.input), Quotient(c.cacheRead, c.input))
  }

  /** The dollar price per million tokens that a ratio stands for: one unit is two dollars. */
  function Dollars(ratio: real): real { 2.0 * ratio }

  ghost predicate PriceWithin(implied: real, input: real, price: real)
    requires input > 0.0
  {
    Within(implied - price, 2.0 * (HALF_UNIT * (input / 2.0 + price / input) + HALF_UNIT * HALF_UNIT))
  }

  /** Price given, ratio given; and the ratio then stands for the price, up to the two roundings. */
  ghost predicate RatioFor(model: real, ratio: Option<real>, input: real, price: Option<real>)
    requires input > 0.0
  {
    && ratio.Some? == price.Some?
    && (ratio.Some? ==> PriceWithin(Dollars(model * ratio.value), input, price.value))
  }

  /** The line of a priced model stands for the prices it came from. */
  ghost predicate StandsFor(r: Ratios, input: real, output: Option<real>, cacheRead: Option<real>)
    requires input > 0.0
  {
    && Within(Dollars(r.model) - input, 2.0 * HALF_UNIT)
    && RatioFor(r.model, r.completion, input, output)
    && RatioFor(r.model, r.cache, input, cacheRead)
  }

  lemma HalfTimesQuotient(input: real, price: real)
    requires input > 0.0
    ensures 2.0 * ((input / 2.0) * (price / input)) == price
    ensures price >= 0.0 ==> price / input >= 0.0
  {
    var q := price / input;
    assert q * input == price;
  }

  lemma QuotientClose(input: real, price: real)
    requires input > 0.0 && price >= 0.0
    ensures PriceWithin(Dollars(RoundRatio(input / 2.0) * RoundRatio(price / input)), input, price)
  {
    HalfTimesQuotient(input, price);
    RoundedProduct(input / 2.0, price / input, price);
  }

  lemma RoundedProduct(half: real, quotient: real, price: real)
    requires half >= 0.0 && quotient >= 0.0 && 2.0 * (half * quotient) == price
    ensures Within(Dollars(RoundRatio(half) * RoundRatio(quotient)) - price,
                   2.0 * (HALF_UNIT * (half + quotient) + HALF_UNIT * HALF_UNIT))
  {
    ProductClose(half, quotient);
    TwiceWithin(RoundRatio(half) * RoundRatio(quotient), half * quotient, HALF_UNIT * (half + quotient) + HALF_UNIT * HALF_UNIT);
  }

  lemma TwiceWithin(a: real, b: real, bound: real)
    requires Within(a - b, bound)
    ensures Within(2.0 * a - 2.0 * b, 2.0 * bound)
  {}

  lemma QuotientFor(input: real, price: Option<real>)
    requires input > 0.0 && (price.Some? ==> price.value >= 0.0)
    ensures RatioFor(RoundRatio(input / 2.0), Quotient(price, input), input, price)
  {
    if price.Some? { QuotientClose(input, price.value); }
  }

  lemma HalfClose(input: real)
    ensures Within(Dollars(RoundRatio(input / 2.0)) - input, 2.0 * HALF_UNIT)
  {
    RoundClose(input / 2.0);
  }

  lemma DevModelRatioIsHalf(input: real)
    ensures DevModelRatio(input) == RoundRatio(input / 2.0)
  {
    assert input * USD / 1000.0 == input / 2.0;
  }

  function Rounded(price: Option<real>, base: real): Option<real>
    requires base > 0.0
  {
    match price case Some(x) => Some(RoundRatio(x / base)) case None => None
  }

  /** A model's line is made of these prices per million tokens: half the input price, and the other
      prices as parts of it, rounded; so it stands for them. A free model has no other ratio. */
  ghost predicate MadeOf(r: Ratios, input: real, output: Option<real>, cacheRead: Option<real>)
    requires input >= 0.0
  {
    if input == 0.0 then r == Ratios(0.0, None, None)
    else r == Ratios(RoundRatio(input / 2.0), Rounded(output, input), Rounded(cacheRead, input)) && StandsFor(r, input, output, cacheRead)
  }

  ghost predicate MadeOfCost(r: Ratios, cost: Cost)
    requires Sells(cost)
  {
    MadeOf(r, Amount(cost.input).value, Amount(cost.output), Amount(cost.cacheRead))
  }

  predicate NotNegative(price: Option<real>) { price.Some? ==> price.value >= 0.0 }

  lemma DevRatiosMadeOf(c: Candidate)
    requires c.input >= 0.0 && NotNegative(c.output) && NotNegative(c.cacheRead)
    ensures MadeOf(DevRatios(c), c.input, c.output, c.cacheRead)
  {
    if c.input > 0.0 {
      DevModelRatioIsHalf(c.input);
      HalfClose(c.input);
      QuotientFor(c.input, c.output);
      QuotientFor(c.input, c.cacheRead);
    }
  }

  /** Converting a models.dev price keeps it. */
  lemma DevRatiosStandFor(provider: string, cost: Cost)
    requires Sells(cost)
    ensures BuildCandidate(provider, cost).Some? && MadeOfCost(DevRatios(BuildCandidate(provider, cost).value), cost)
  {
    CandidateIff(provider, cost);
    DevRatiosMadeOf(BuildCandidate(provider, cost).value);
  }

  // ---------------------------------------------------------------- the models.dev document

  /** provider -> model -> prices */
  type Feed = map<string, map<string, Cost>>

  function Offer(feed: Feed, provider: string, model: string): Option<Candidate> {
    if provider in feed && model in feed[provider] then BuildCandidate(provider, feed[provider][model]) else None
  }

  /** The candidates for a model, in the order of the providers visited. */
  function Offers(feed: Feed, providers: seq<string>, model: string): seq<Candidate> {
    if providers == [] then []
    else
      var last := |providers| - 1;
      var offer := Offer(feed, providers[last], model);
      Offers(feed, providers[..last], model) + if offer.Some? then [offer.value] else []
  }

  predicate Sorted(s: seq<string>) { forall i, j :: 0 <= i < j < |s| ==> Less(s[i], s[j]) }

  lemma {:induction false} OffersFacts(feed: Feed, providers: seq<string>, model: string)
    requires Sorted(providers)
    ensures Ordered(Offers(feed, providers, model))
    ensures forall c :: c in Offers(feed, providers, model) <==> c.provider in providers && Offer(feed, c.provider, model) == Some(c)
  {
    if providers != [] {
      var last := |providers| - 1;
      var init := providers[..last];
      assert providers == init + [providers[last]];
      OffersFacts(feed, init, model);
      var before := Offers(feed, init, model);
      forall i | 0 <= i < |before| ensures Less(before[i].provider, providers[last]) {
        assert before[i] in before;
      }
    }
  }

  /** What has been selected once these providers have been visited. */
  ghost predicate Selected(selected: map<string, Candidate>, feed: Feed, providers: seq<string>) {
    forall m :: Holds(selected, m, Offers(feed, providers, m))
  }

  ghost predicate Holds(selected: map<string, Candidate>, m: string, offers: seq<Candidate>) {
    (m in selected <==> offers != []) && (m in selected ==> selected[m] == Choose(offers))
  }

  /** The promise of the conversion: a model is listed exactly when some provider has a usable price
      for it; its line comes from one of them, and no priced offer is cheaper by an epsilon or more. */
  ghost predicate Cheapest(selected: map<string, Candidate>, feed: Feed) {
    forall m ::
      && (m in selected <==> exists p :: Offer(feed, p, m).Some?)
      && (m in selected ==> Best(selected[m], feed, m))
  }

  ghost predicate Best(c: Candidate, feed: Feed, m: string) {
    && Offer(feed, c.provider, m) == Some(c)
    && (forall p :: Offer(feed, p, m).Some? && Offer(feed, p, m).value.input > 0.0 ==> c.input > 0.0 && c.input < Offer(feed, p, m).value.input + EPSILON)
  }

  /** A best offer among prices an epsilon apart, or equal, is the cheapest. */
  lemma BestIsCheapest(c: Candidate, feed: Feed, m: string, p: string)
    requires Best(c, feed, m) && Offer(feed, p, m).Some? && Offer(feed, p, m).value.input > 0.0
    requires NearlyEqual(c.input, Offer(feed, p, m).value.input) ==> c.input == Offer(feed, p, m).value.input
    ensures c.input > 0.0 && c.input <= Offer(feed, p, m).value.input
  {}

  lemma SelectedIsBest(selected: map<string, Candidate>, feed: Feed, providers: seq<string>, m: string)
    requires Sorted(providers) && (forall p :: p in feed ==> p in providers) && Selected(selected, feed, providers)
    ensures m in selected <==> exists p :: Offer(feed, p, m).Some?
    ensures m in selected ==> Best(selected[m], feed, m)
  {
    var offers := Offers(feed, providers, m);
    OffersFacts(feed, providers, m);
    assert Holds(selected, m, offers);
    if m in selected {
      ChoosesCheapest(offers);
    }
    forall p | Offer(feed, p, m).Some? ensures Offer(feed, p, m).value in offers { }
    if offers != [] { assert offers[0] in offers; }
  }

  // ---------------------------------------------------------------- the loops

  lemma {:induction false} LessTotal(a: string, b: string)
    ensures Less(a, b) || Less(b, a) || a == b
  {
    if a != [] && b != [] && a[0] == b[0] {
      LessTotal(a[1..], b[1..]);
      assert a == [a[0]] + a[1..] && b == [b[0]] + b[1..];
    }
  }

  lemma {:induction false} LessTransitive(a: string, b: string, c: string)
    requires Less(a, b) && Less(b, c)
    ensures Less(a, c)
  {
    if a != [] && a[0] == b[0] && b[0] == c[0] { LessTransitive(a[1..], b[1..], c[1..]); }
  }

  /** The least of the keys. */
  method Least(keys: set<string>) returns (least: string)
    requires keys != {}
    ensures least in keys
    ensures forall k :: k in keys && k != least ==> Less(least, k)
  {
    least :| least in keys;
    var rest := keys - {least};
    while rest != {}
      invariant least in keys && rest <= keys && least !in rest
      invariant forall k :: k in keys && k !in rest && k != least ==> Less(least, k)
      decreases rest
    {
      var k :| k in rest;
      rest := rest - {k};
      LessTotal(k, least);
      if Less(k, least) {
        forall other | other in keys && other !in rest && other != k && other != least ensures Less(k, other) {
          LessTransitive(k, least, other);
        }
        least := k;
      }
    }
  }

  /** Collecting the keys of a map and sorting them. */
  method SortedKeys(keys: set<string>) returns (s: seq<string>)
    ensures Sorted(s)
    ensures forall k :: k in s <==> k in keys
  {
    s := [];
    var rest := keys;
    while rest != {}
      invariant rest <= keys && Sorted(s)
      invariant forall k :: k in s <==> k in keys && k !in rest
      invariant forall k, x :: k in s && x in rest ==> Less(k, x)
      decreases rest
    {
      var least := Least(rest);
      rest := rest - {least};
      s := s + [least];
    }
  }

  /** One more candidate for a model. */
  lemma OneMore(selected: map<string, Candidate>, name: string, offers: seq<Candidate>, c: Candidate)
    requires Holds(selected, name, offers)
    ensures var replace := name !in selected || ShouldReplace(selected[name], c);
            Holds(if replace then selected[name := c] else selected, name, offers + [c])
  {
    var all := offers + [c];
    assert all[..|all| - 1] == offers;
  }

  lemma OffersGrow(feed: Feed, providers: seq<string>, provider: string, model: string)
    ensures var offer := Offer(feed, provider, model); var before := Offers(feed, providers, model);
            Offers(feed, providers + [provider], model) == if offer.Some? then before + [offer.value] else before
  {
    var all := providers + [provider];
    assert all[..|all| - 1] == providers;
  }

  /** While a provider's models are visited, those already done count its offer and the others do not. */
  ghost predicate PartWay(selected: map<string, Candidate>, feed: Feed, providers: seq<string>, provider: string,
                          done: seq<string>)
  {
    forall m :: Holds(selected, m, OffersPartWay(feed, providers, provider, done, m))
  }

  ghost function OffersPartWay(feed: Feed, providers: seq<string>, provider: string, done: seq<string>, m: string): seq<Candidate> {
    Offers(feed, if m in done then providers + [provider] else providers, m)
  }

  lemma StaysPartWay(before: map<string, Candidate>, after: map<string, Candidate>, feed: Feed, providers: seq<string>,
                     provider: string, done: seq<string>, name: string)
    requires PartWay(before, feed, providers, provider, done)
    requires forall m :: m != name ==> (m in before <==> m in after) && (m in before ==> before[m] == after[m])
    requires Holds(after, name, Offers(feed, providers + [provider], name))
    ensures PartWay(after, feed, providers, provider, done + [name])
  {
    forall m ensures Holds(after, m, OffersPartWay(feed, providers, provider, done + [name], m)) {
      assert Holds(before, m, OffersPartWay(feed, providers, provider, done, m));
    }
  }

  /** One model of one provider. */
  method Consider(feed: Feed, ghost providers: seq<string>, provider: string, ghost done: seq<string>, name: string,
                  before: map<string, Candidate>)
    returns (selected: map<string, Candidate>)
    requires provider in feed && name in feed[provider] && name !in done
    requires PartWay(before, feed, providers, provider, done)
    ensures PartWay(selected, feed, providers, provider, done + [name])
  {
    selected := before;
    var candidate := BuildCandidate(provider, feed[provider][name]);
    OffersGrow(feed, providers, provider, name);
    assert Holds(before, name, OffersPartWay(feed, providers, provider, done, name));
    if candidate.Some? {
      OneMore(before, name, Offers(feed, providers, name), candidate.value);
      if name !in selected || ShouldReplace(selected[name], candidate.value) {
        selected := selected[name := candidate.value];
      }
    }
    StaysPartWay(before, selected, feed, providers, provider, done, name);
  }

  /** Visiting one provider's models. */
  method Visit(feed: Feed, ghost providers: seq<string>, provider: string, before: map<string, Candidate>)
    returns (selected: map<string, Candidate>)
    requires provider in feed && Selected(before, feed, providers)
    ensures Selected(selected, feed, providers + [provider])
  {
    selected := before;
    var names := SortedKeys(feed[provider].Keys);
    for i := 0 to |names|
      invariant PartWay(selected, feed, providers, provider, names[..i])
    {
      assert names[i] in names;
      Fresh(names, i);
      assert names[..i + 1] == names[..i] + [names[i]];
      selected := Consider(feed, providers, provider, names[..i], names[i], selected);
    }
    assert names[..|names|] == names;
    forall m ensures Holds(selected, m, Offers(feed, providers + [provider], m)) {
      assert Holds(selected, m, OffersPartWay(feed, providers, provider, names, m));
      OffersGrow(feed, providers, provider, m);
    }
  }

  lemma LessIrreflexive(a: string)
    ensures !Less(a, a)
  {
    if Less(a, a) { LessAsymmetric(a, a); }
  }

  lemma Fresh(names: seq<string>, i: nat)
    requires Sorted(names) && i < |names|
    ensures names[i] !in names[..i]
  {
    LessIrreflexive(names[i]);
  }

  /** Choosing a provider for every model. */
  method Select(feed: Feed) returns (selected: map<string, Candidate>)
    ensures Cheapest(selected, feed)
  {
    selected := map[];
    var providers := SortedKeys(feed.Keys);
    for i := 0 to |providers|
      invariant Selected(selected, feed, providers[..i])
    {
      assert providers[i] in providers;
      selected := Visit(feed, providers[..i], providers[i], selected);
      assert providers[..i + 1] == providers[..i] + [providers[i]];
    }
    assert providers[..|providers|] == providers;
    forall m
      ensures m in selected <==> exists p :: Offer(feed, p, m).Some?
      ensures m in selected ==> Best(selected[m], feed, m)
    {
      SelectedIsBest(selected, feed, providers, m);
    }
  }

  /** A model's line in the three tables. */
  ghost predicate Line(t: Tables, m: string, r: Option<Ratios>) {
    && (m in t.model <==> r.Some?)
    && (m in t.completion <==> r.Some? && r.value.completion.Some?)
    && (m in t.cache <==> r.Some? && r.value.cache.Some?)
    && (r.Some? ==> t.model[m] == r.value.model)
    && (m in t.completion ==> t.completion[m] == r.value.completion.value)
    && (m in t.cache ==> t.cache[m] == r.value.cache.value)
  }

  ghost function LineFor(selected: map<string, Candidate>, names: set<string>, m: string): Option<Ratios> {
    if m in selected && m in names then Some(DevRatios(selected[m])) else None
  }

  /** Adding the lines of one selected candidate. */
  method FillLine(before: Tables, m: string, c: Candidate) returns (t: Tables)
    requires Line(before, m, None)
    ensures Line(t, m, Some(DevRatios(c)))
    ensures forall other, r :: other != m ==> Line(t, other, r) == Line(before, other, r)
  {
    t := before;
    if c.input == 0.0 {
      t := t.(model := t.model[m := 0.0]);
      return;
    }
    t := t.(model := t.model[m := DevModelRatio(c.input)]);
    if c.output.Some? { t := t.(completion := t.completion[m := RoundRatio(c.output.value / c.input)]); }
    if c.cacheRead.Some? { t := t.(cache := t.cache[m := RoundRatio(c.cacheRead.value / c.input)]); }
  }

  method FillTables(selected: map<string, Candidate>) returns (t: Tables)
    ensures forall m :: Line(t, m, if m in selected then Some(DevRatios(selected[m])) else None)
  {
    t := Tables(map[], map[], map[]);
    var rest := selected.Keys;
    while rest != {}
      invariant rest <= selected.Keys
      invariant forall m :: Line(t, m, LineFor(selected, selected.Keys - rest, m))
      decreases rest
    {
      var m :| m in rest;
      ghost var before := rest;
      assert LineFor(selected, selected.Keys - before, m) == None;
      t := FillLine(t, m, selected[m]);
      rest := rest - {m};
      forall other ensures Line(t, other, LineFor(selected, selected.Keys - rest, other)) {
        if other != m {
          assert LineFor(selected, selected.Keys - rest, other) == LineFor(selected, selected.Keys - before, other);
        }
      }
    }
    forall m ensures Line(t, m, if m in selected then Some(DevRatios(selected[m])) else None) {
      assert Line(t, m, LineFor(selected, selected.Keys - rest, m));
    }
  }

  datatype Converted = Failed(why: string) | Done(tables: Tables)

  /** A provider publishes prices for a model that can be expressed. */
  predicate Sold(feed: Feed, p: string, m: string) { p in feed && m in feed[p] && Sells(feed[p][m]) }

  function InputPrice(feed: Feed, p: string, m: string): real
    requires Sold(feed, p, m)
  {
    Amount(feed[p][m].input).value
  }

  ghost predicate Usable(feed: Feed, m: string) { exists p :: Sold(feed, p, m) }

  /** A provider whose price is chosen: a priced one if there is any, and no priced one is cheaper by a
      billionth of a dollar or more. */
  ghost predicate Cheap(feed: Feed, p: string, m: string) {
    && Sold(feed, p, m)
    && (forall q :: Sold(feed, q, m) && InputPrice(feed, q, m) > 0.0 ==>
          InputPrice(feed, p, m) > 0.0 && InputPrice(feed, p, m) < InputPrice(feed, q, m) + 0.000000001)
  }

  /** A listed model carries the ratios made of the prices of such a provider; no other model is listed. */
  ghost predicate Listed(t: Tables, feed: Feed, m: string) {
    if Usable(feed, m) then exists p, r :: Cheap(feed, p, m) && Line(t, m, Some(r)) && MadeOfCost(r, feed[p][m])
    else Line(t, m, None)
  }

  lemma OfferIff(feed: Feed, p: string, m: string)
    ensures Offer(feed, p, m).Some? <==> Sold(feed, p, m)
    ensures Sold(feed, p, m) ==> Offer(feed, p, m).value.input == InputPrice(feed, p, m)
  {
    if p in feed && m in feed[p] { CandidateIff(p, feed[p][m]); }
  }

  lemma BestIsCheap(c: Candidate, feed: Feed, m: string)
    requires Best(c, feed, m)
    ensures Cheap(feed, c.provider, m) && MadeOfCost(DevRatios(c), feed[c.provider][m])
  {
    OfferIff(feed, c.provider, m);
    DevRatiosStandFor(c.provider, feed[c.provider][m]);
    forall q | Sold(feed, q, m) && InputPrice(feed, q, m) > 0.0
      ensures c.input > 0.0 && c.input < InputPrice(feed, q, m) + EPSILON
    {
      OfferIff(feed, q, m);
    }
  }

  lemma UsableIff(feed: Feed, m: string)
    ensures Usable(feed, m) <==> exists p :: Offer(feed, p, m).Some?
  {
    if p :| Sold(feed, p, m) { OfferIff(feed, p, m); }
    if p :| Offer(feed, p, m).Some? { OfferIff(feed, p, m); }
  }

  /** convertModelsDevToRatioData */
  method ConvertModelsDev(feed: Feed) returns (r: Converted)
    ensures r.Failed? <==> forall m :: !Usable(feed, m)
    ensures r.Failed? ==> r.why == if feed == map[] then "empty models.dev response" else "no valid models.dev pricing entries found"
    ensures r.Done? ==> forall m :: Listed(r.tables, feed, m)
  {
    if |feed| == 0 {
      return Failed("empty models.dev response");
    }
    var selected := Select(feed);
    forall m ensures Usable(feed, m) <==> m in selected { UsableIff(feed, m); }
    if |selected| == 0 {
      return Failed("no valid models.dev pricing entries found");
    }
    var t := FillTables(selected);
    r := Done(t);
    ghost var some :| some in selected;
    assert Usable(feed, some);
    forall m ensures Listed(t, feed, m) {
      if m in selected {
        assert Best(selected[m], feed, m);
        BestIsCheap(selected[m], feed, m);
        assert Line(t, m, Some(DevRatios(selected[m])));
      }
    }
  }

  // ---------------------------------------------------------------- the OpenRouter document

  /** One listed model; a price is None when its text does not parse. Prices are per token. */
  datatype Entry = Entry(id: string, prompt: Option<real>, completion: Option<real>, cacheRead: Option<real>)

  function OrZero(price: Option<real>): real { if price.Some? then price.value else 0.0 }

  predicate Known(e: Entry) {
    && (e.prompt.Some? || e.completion.Some?)
    && OrZero(e.prompt) >= 0.0 && OrZero(e.completion) >= 0.0
  }

  predicate Free(e: Entry) { Known(e) && OrZero(e.prompt) == 0.0 && OrZero(e.completion) == 0.0 }

  predicate Priced(e: Entry) { Known(e) && OrZero(e.prompt) > 0.0 }

  function CacheRead(e: Entry): Option<real> { if e.cacheRead.Some? && e.cacheRead.value >= 0.0 then e.cacheRead else None }

  function RouterModelRatio(prompt: real): real { RoundRatio(prompt * 1000.0 * USD) }

  function RouterRatios(e: Entry): Ratios
    requires Priced(e)
  {
    Ratios(RouterModelRatio(e.prompt.value), Quotient(Some(OrZero(e.completion)), e.prompt.value), Quotient(CacheRead(e), e.prompt.value))
  }

  // What an entry writes into each table.
  function ModelOf(e: Entry): Option<real> {
    if Free(e) then Some(0.0) else if Priced(e) then Some(RouterRatios(e).model) else None
  }

  function CompletionOf(e: Entry): Option<real> { if Priced(e) then RouterRatios(e).completion else None }

  function CacheOf(e: Entry): Option<real> { if Priced(e) then RouterRatios(e).cache else None }

  /** The table left by writing entry after entry. */
  function Writes(entries: seq<Entry>, written: Entry -> Option<real>): map<string, real> {
    if entries == [] then map[]
    else
      var last := entries[|entries| - 1];
      var before := Writes(entries[..|entries| - 1], written);
      if written(last).Some? then before[last.id := written(last).value] else before
  }

  method ConvertOpenRouter(entries: seq<Entry>) returns (t: Tables)
    ensures t == Tables(Writes(entries, ModelOf), Writes(entries, CompletionOf), Writes(entries, CacheOf))
  {
    t := Tables(map[], map[], map[]);
    for i := 0 to |entries|
      invariant t == Tables(Writes(entries[..i], ModelOf), Writes(entries[..i], CompletionOf), Writes(entries[..i], CacheOf))
    {
      var e := entries[i];
      assert entries[..i + 1][..i] == entries[..i];
      if e.prompt.None? && e.completion.None? { continue; }
      var promptPrice, completionPrice := OrZero(e.prompt), OrZero(e.completion);
      if promptPrice < 0.0 || completionPrice < 0.0 { continue; }
      if promptPrice == 0.0 && completionPrice == 0.0 {
        t := t.(model := t.model[e.id := 0.0]);
        continue;
      }
      if promptPrice <= 0.0 { continue; }
      t := t.(model := t.model[e.id := RoundRatio(promptPrice * 1000.0 * USD)],
              completion := t.completion[e.id := RoundRatio(completionPrice / promptPrice)]);
      if e.cacheRead.Some? && e.cacheRead.value >= 0.0 {
        t := t.(cache := t.cache[e.id := RoundRatio(e.cacheRead.value / promptPrice)]);
      }
    }
    assert entries[..|entries|] == entries;
  }

  /** The last writer of an id wins, and only ids somebody wrote are there. */
  lemma {:induction false} LastWriteWins(entries: seq<Entry>, written: Entry -> Option<real>, id: string)
    ensures id in Writes(entries, written) <==> exists e :: e in entries && e.id == id && written(e).Some?
    ensures forall i | 0 <= i < |entries| && entries[i].id == id && written(entries[i]).Some? && Last(entries, written, i) ::
              Writes(entries, written)[id] == written(entries[i]).value
  {
    if entries != [] {
      var n := |entries| - 1;
      var init := entries[..n];
      assert entries == init + [entries[n]];
      LastWriteWins(init, written, id);
      forall i | 0 <= i < n && entries[i].id == id && written(entries[i]).Some? && Last(entries, written, i)
        ensures Last(init, written, i) && Writes(entries, written)[id] == written(entries[i]).value
      {
        assert init[i] == entries[i];
      }
    }
  }

  ghost predicate Last(entries: seq<Entry>, written: Entry -> Option<real>, i: nat)
    requires i < |entries|
  {
    forall j :: i < j < |entries| && entries[j].id == entries[i].id ==> written(entries[j]).None?
  }

  /** A listed id keeps only lines about itself: ratios never appear without a model ratio. */
  lemma {:induction false} RatiosHaveAModel(entries: seq<Entry>)
    ensures Writes(entries, CompletionOf).Keys <= Writes(entries, ModelOf).Keys
    ensures Writes(entries, CacheOf).Keys <= Writes(entries, CompletionOf).Keys
  {
    if entries != [] { RatiosHaveAModel(entries[..|entries| - 1]); }
  }

  /** The line an entry asks for by itself; None when its prices cannot be expressed. */
  function LineOf(e: Entry): Option<Ratios> {
    if Free(e) then Some(Ratios(0.0, None, None)) else if Priced(e) then Some(RouterRatios(e)) else None
  }

  ghost predicate LastLine(entries: seq<Entry>, i: nat)
    requires i < |entries|
  {
    forall j :: i < j < |entries| && entries[j].id == entries[i].id ==> LineOf(entries[j]).None?
  }

  /** No earlier entry for the same id wrote a ratio that entry i does not write again. */
  ghost predicate NoLeftover(entries: seq<Entry>, i: nat, written: Entry -> Option<real>)
    requires i < |entries|
  {
    written(entries[i]).Some? || forall j :: 0 <= j < i && entries[j].id == entries[i].id ==> written(entries[j]).None?
  }

  lemma OwnCell(entries: seq<Entry>, i: nat, written: Entry -> Option<real>)
    requires i < |entries| && Last(entries, written, i)
    ensures written(entries[i]).Some? ==> entries[i].id in Writes(entries, written)
    ensures written(entries[i]).Some? ==> Writes(entries, written)[entries[i].id] == written(entries[i]).value
    ensures written(entries[i]).None? ==> (entries[i].id !in Writes(entries, written) <==> NoLeftover(entries, i, written))
  {
    LastWriteWins(entries, written, entries[i].id);
  }

  /** An id's line is that of its last usable entry exactly when no earlier entry left a ratio behind;
      in particular whenever ids are distinct. */
  lemma OwnLineIff(entries: seq<Entry>, i: nat)
    requires i < |entries| && LineOf(entries[i]).Some? && LastLine(entries, i)
    ensures var t := Tables(Writes(entries, ModelOf), Writes(entries, CompletionOf), Writes(entries, CacheOf));
            Line(t, entries[i].id, LineOf(entries[i])) <==>
            NoLeftover(entries, i, CompletionOf) && NoLeftover(entries, i, CacheOf)
  {
    OwnCell(entries, i, ModelOf);
    OwnCell(entries, i, CompletionOf);
    OwnCell(entries, i, CacheOf);
  }

  /** The line each entry asks for, from its prices per token: none when neither price is a number, a
      number is negative, or there is a completion price and nothing to relate it to; otherwise the
      line made of them per million tokens, a missing completion price being zero. */
  lemma EntryLineIs(e: Entry)
    ensures var prompt, completion := (if e.prompt.Some? then e.prompt.value else 0.0), (if e.completion.Some? then e.completion.value else 0.0);
      if (e.prompt.None? && e.completion.None?) || prompt < 0.0 || completion < 0.0 || (prompt == 0.0 && completion > 0.0)
      then LineOf(e) == None
      else
        LineOf(e).Some? && MadeOf(LineOf(e).value, 1000000.0 * prompt, Some(1000000.0 * completion),
               if e.cacheRead.Some? && e.cacheRead.value >= 0.0 then Some(1000000.0 * e.cacheRead.value) else None)
  {
    if Priced(e) {
      RouterIsDev(e);
      DevRatiosMadeOf(PerMillion(e));
    }
  }

  /** A priced entry's line stands for its prices per million tokens. */
  lemma RouterRatiosStandFor(e: Entry)
    requires Priced(e)
    ensures StandsFor(RouterRatios(e), 1000000.0 * e.prompt.value, Some(1000000.0 * OrZero(e.completion)), Scaled(CacheRead(e)))
  {
    EntryLineIs(e);
  }

  function Scaled(price: Option<real>): Option<real> { if price.Some? then Some(1000000.0 * price.value) else None }

  /** The same prices per million tokens, as a models.dev candidate. */
  function PerMillion(e: Entry): Candidate
    requires Priced(e)
  {
    Candidate("", 1000000.0 * e.prompt.value, Scaled(Some(OrZero(e.completion))), Scaled(CacheRead(e)))
  }

  lemma ScaleCancels(price: real, base: real)
    requires base > 0.0
    ensures (1000000.0 * price) / (1000000.0 * base) == price / base
  {
    var q := price / base;
    assert q * base == price;
    assert q * (1000000.0 * base) == 1000000.0 * price;
  }

  /** Both conversions agree: the same prices, per token or per million, become the same line. */
  lemma RouterIsDev(e: Entry)
    requires Priced(e)
    ensures RouterRatios(e) == DevRatios(PerMillion(e))
  {
    assert e.prompt.value * 1000.0 * USD == (1000000.0 * e.prompt.value) * USD / 1000.0;
    ScaleCancels(OrZero(e.completion), e.prompt.value);
    if CacheRead(e).Some? { ScaleCancels(e.cacheRead.value, e.prompt.value); }
  }

  /** An id listed twice, first priced and then free, is left with a zero ratio beside the first entry's others. */
  lemma RepeatedIdMixes(priced: Entry, free: Entry)
    requires priced.id == free.id && Priced(priced) && Free(free)
    ensures var entries := [priced, free];
            && Writes(entries, ModelOf) == map[free.id := 0.0]
            && Writes(entries, CompletionOf) == map[free.id := RouterRatios(priced).completion.value]
  {
    var entries := [priced, free];
    assert entries[..1] == [priced];
    WriteOne(priced, ModelOf);
    WriteOne(priced, CompletionOf);
  }

  lemma WriteOne(e: Entry, written: Entry -> Option<real>)
    ensures Writes([e], written) == if written(e).Some? then map[e.id := written(e).value] else map[]
  {
    assert [e][..0] == [];
  }
}
