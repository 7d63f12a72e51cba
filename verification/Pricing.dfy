/** Pricing one model call: long-context bands, service lanes, the carve-out of cached and
    reasoning tokens, and rounding to micro-USD. Token counts, rates and scaled costs are
    unbounded integers; the i64 clamp of the final rounding is explicit. */
module Pricing {
  import opened Order
  import opened Text
  import opened Wrappers

  const RATE_UNIT: int := 1_000_000
  const HALF_UNIT: int := 500_000
  const I64_MAX: int := 0x7FFF_FFFF_FFFF_FFFF

  /** Micro-USD per million tokens; `None` where no price is published. */
  datatype ModelRates = ModelRates(
    input: Option<int>,
    output: Option<int>,
    cacheRead: Option<int>,
    cacheWrite: Option<int>,
    reasoning: Option<int>)

  datatype RateTier = RateTier(aboveTokens: int, rates: ModelRates)

  datatype ServiceTierRates = ServiceTierRates(tier: string, rates: ModelRates)

  datatype ModelPricing = ModelPricing(base: ModelRates, tiers: seq<RateTier>, serviceTiers: seq<ServiceTierRates>)

  datatype TokenUsage = TokenUsage(tokensIn: int, tokensOut: int, cacheRead: int, cacheWrite: int, reasoning: int)

  datatype UnpricedReason = NoCatalog | ModelUnknown | NoRates | NoMatchingComponent

  datatype PricedCost = Priced(costMicros: int) | Unpriced(reason: UnpricedReason)

  const NO_RATES := ModelRates(None, None, None, None, None)

  function Or(o: Option<int>, fallback: Option<int>): Option<int> {
    if o.Some? then o else fallback
  }

  function Overlay(under: ModelRates, over: ModelRates): ModelRates {
    ModelRates(Or(over.input, under.input), Or(over.output, under.output), Or(over.cacheRead, under.cacheRead),
               Or(over.cacheWrite, under.cacheWrite), Or(over.reasoning, under.reasoning))
  }

  /** Laying rates over one another is associative, publishes what either publishes, and an empty
      set of rates changes nothing on either side. */
  lemma {:induction false} OverlayIsAMonoid(a: ModelRates, b: ModelRates, c: ModelRates)
    ensures Overlay(Overlay(a, b), c) == Overlay(a, Overlay(b, c))
    ensures Overlay(a, NO_RATES) == a == Overlay(NO_RATES, a)
    ensures Overlay(a, b) == NO_RATES <==> a == NO_RATES && b == NO_RATES
  {
  }

  function NormalizeModelKey(key: string): string {
    ToLowerAscii(Trim(key))
  }

  // ---- Which rates apply ----------------------------------------------------------------

  predicate Applies(t: RateTier, prompt: int) {
    prompt > t.aboveTokens
  }

  /** `max_by_key` over the bands the prompt clears: the last of the greatest. */
  function Band(tiers: seq<RateTier>, prompt: int): Option<RateTier> {
    if tiers == [] then None
    else
      var rest := Band(tiers[1..], prompt);
      if Applies(tiers[0], prompt) && (rest.None? || rest.value.aboveTokens < tiers[0].aboveTokens) then Some(tiers[0])
      else rest
  }

  function Lane(lanes: seq<ServiceTierRates>, name: string): Option<ServiceTierRates> {
    if lanes == [] then None
    else if lanes[0].tier == name then Some(lanes[0])
    else Lane(lanes[1..], name)
  }

  function WithBand(base: ModelRates, band: Option<RateTier>): ModelRates {
    if band.Some? then Overlay(base, band.value.rates) else base
  }

  function WithLane(rates: ModelRates, lane: Option<ServiceTierRates>): ModelRates {
    if lane.Some? then Overlay(rates, lane.value.rates) else rates
  }

  function RequestedLane(p: ModelPricing, serviceTier: Option<string>): Option<ServiceTierRates> {
    if serviceTier.Some? then Lane(p.serviceTiers, NormalizeModelKey(serviceTier.value)) else None
  }

  function ResolveRates(p: ModelPricing, prompt: int, serviceTier: Option<string>): ModelRates {
    WithLane(WithBand(p.base, Band(p.tiers, prompt)), RequestedLane(p, serviceTier))
  }

  predicate TierLeq(a: RateTier, b: RateTier) {
    a.aboveTokens <= b.aboveTokens
  }

  predicate LaneLeq(a: ServiceTierRates, b: ServiceTierRates) {
    CompareStrings(a.tier, b.tier) != Greater
  }

  /** The band billed has the greatest threshold strictly below the prompt, and among several
      bands with that threshold it is the last. */
  lemma {:induction false} BandMeaning(tiers: seq<RateTier>, prompt: int)
    ensures var band := Band(tiers, prompt);
            && (band.None? <==> forall t | t in tiers :: !Applies(t, prompt))
            && (band.Some? ==>
                  && band.value in tiers && Applies(band.value, prompt)
                  && (forall t | t in tiers && Applies(t, prompt) :: t.aboveTokens <= band.value.aboveTokens)
                  && var same := Class(TierLeq, tiers, band.value);
                     same != [] && same[|same| - 1] == band.value)
  {
    if tiers != [] {
      BandMeaning(tiers[1..], prompt);
      assert tiers == [tiers[0]] + tiers[1..];
      var band, rest := Band(tiers, prompt), Band(tiers[1..], prompt);
      if band.Some? && band != rest {
        NoneAlike(tiers[1..], band.value, prompt);
      }
    }
  }

  lemma {:induction false} NoneAlike(tiers: seq<RateTier>, t: RateTier, prompt: int)
    requires Applies(t, prompt)
    requires forall u | u in tiers && Applies(u, prompt) :: u.aboveTokens < t.aboveTokens
    ensures Class(TierLeq, tiers, t) == []
  {
    if tiers != [] {
      NoneAlike(tiers[1..], t, prompt);
    }
  }

  /** The lane is the first with exactly the requested normalized name. */
  lemma {:induction false} LaneMeaning(lanes: seq<ServiceTierRates>, name: string)
    ensures var lane := Lane(lanes, name);
            && (lane.None? <==> forall l | l in lanes :: l.tier != name)
            && (lane.Some? ==>
                  && lane.value in lanes && lane.value.tier == name
                  && var same := Class(LaneLeq, lanes, lane.value); same != [] && same[0] == lane.value)
  {
    if lanes != [] {
      LaneMeaning(lanes[1..], name);
      assert lanes == [lanes[0]] + lanes[1..];
      SameName(lanes[0], LaneOr(Lane(lanes, name), lanes[0]));
    }
  }

  function LaneOr(lane: Option<ServiceTierRates>, other: ServiceTierRates): ServiceTierRates {
    if lane.Some? then lane.value else other
  }

  lemma {:induction false} SameName(a: ServiceTierRates, b: ServiceTierRates)
    ensures Equivalent(LaneLeq, a, b) <==> a.tier == b.tier
  {
    LexicographicReverses(CodePoints(a.tier), CodePoints(b.tier));
    LexicographicEquality(CodePoints(a.tier), CodePoints(b.tier));
    if Equivalent(LaneLeq, a, b) {
      CodePointsInjective(a.tier, b.tier);
    }
  }

  lemma {:induction false} LanesAreOrdered()
    ensures TotalPreorder(LaneLeq)
  {
    forall a, b
      ensures LaneLeq(a, b) || LaneLeq(b, a)
    {
      LexicographicReverses(CodePoints(a.tier), CodePoints(b.tier));
    }
    forall a, b, c | LaneLeq(a, b) && LaneLeq(b, c)
      ensures LaneLeq(a, c)
    {
      LexicographicTransitive(CodePoints(a.tier), CodePoints(b.tier), CodePoints(c.tier));
    }
  }

  // ---- Whose rate is billed -------------------------------------------------------------

  datatype Component = Input | Output | CacheRead | CacheWrite | Reasoning

  function RateOf(r: ModelRates, c: Component): Option<int> {
    match c
    case Input => r.input
    case Output => r.output
    case CacheRead => r.cacheRead
    case CacheWrite => r.cacheWrite
    case Reasoning => r.reasoning
  }

  predicate IsFirstNamed(lanes: seq<ServiceTierRates>, name: string, i: nat) {
    i < |lanes| && lanes[i].tier == name && forall j | 0 <= j < i :: lanes[j].tier != name
  }

  /** The last of the bands with the greatest threshold the prompt is above. */
  predicate IsLastHighest(tiers: seq<RateTier>, prompt: int, i: nat) {
    && i < |tiers| && tiers[i].aboveTokens < prompt
    && forall j | 0 <= j < |tiers| && tiers[j].aboveTokens < prompt ::
         tiers[j].aboveTokens < tiers[i].aboveTokens || (tiers[j].aboveTokens == tiers[i].aboveTokens && j <= i)
  }

  /** The first lane with the requested name, once that is normalized, publishes the component. */
  predicate LanePublishes(p: ModelPricing, serviceTier: Option<string>, c: Component, i: nat) {
    && serviceTier.Some? && IsFirstNamed(p.serviceTiers, NormalizeModelKey(serviceTier.value), i)
    && RateOf(p.serviceTiers[i].rates, c).Some?
  }

  predicate BandPublishes(p: ModelPricing, prompt: int, c: Component, i: nat) {
    IsLastHighest(p.tiers, prompt, i) && RateOf(p.tiers[i].rates, c).Some?
  }

  /** The rate a component is billed at: the lane's if it publishes one, else the band's if that
      does, else the headline's. */
  ghost predicate IsBilledAt(p: ModelPricing, prompt: int, serviceTier: Option<string>, c: Component,
                             rate: Option<int>) {
    && (forall i: nat | LanePublishes(p, serviceTier, c, i) :: rate == RateOf(p.serviceTiers[i].rates, c))
    && ((forall i: nat :: !LanePublishes(p, serviceTier, c, i)) ==>
          && (forall i: nat | BandPublishes(p, prompt, c, i) :: rate == RateOf(p.tiers[i].rates, c))
          && ((forall i: nat :: !BandPublishes(p, prompt, c, i)) ==> rate == RateOf(p.base, c)))
  }

  lemma {:induction false} LaneIsFirstNamed(lanes: seq<ServiceTierRates>, name: string, i: nat)
    requires IsFirstNamed(lanes, name, i)
    ensures Lane(lanes, name) == Some(lanes[i])
  {
    if i > 0 {
      LaneIsFirstNamed(lanes[1..], name, i - 1);
    }
  }

  lemma {:induction false} LaneIsNamed(lanes: seq<ServiceTierRates>, name: string) returns (i: nat)
    requires Lane(lanes, name).Some?
    ensures IsFirstNamed(lanes, name, i)
  {
    if lanes[0].tier == name {
      i := 0;
    } else {
      var k := LaneIsNamed(lanes[1..], name);
      i := k + 1;
    }
  }

  lemma {:induction false} BandIsLastHighest(tiers: seq<RateTier>, prompt: int) returns (i: nat)
    requires Band(tiers, prompt).Some?
    ensures IsLastHighest(tiers, prompt, i) && Band(tiers, prompt) == Some(tiers[i])
  {
    var rest := tiers[1..];
    BandMeaning(rest, prompt);
    assert forall j | 1 <= j < |tiers| :: tiers[j] == rest[j - 1] && tiers[j] in rest;
    if Applies(tiers[0], prompt) && Band(tiers, prompt) == Some(tiers[0])
       && (Band(rest, prompt).None? || Band(rest, prompt).value.aboveTokens < tiers[0].aboveTokens) {
      i := 0;
    } else {
      var k := BandIsLastHighest(rest, prompt);
      i := k + 1;
    }
  }

  lemma {:induction false} BandOfIndex(tiers: seq<RateTier>, prompt: int, i: nat)
    requires IsLastHighest(tiers, prompt, i)
    ensures Band(tiers, prompt) == Some(tiers[i])
  {
    BandMeaning(tiers, prompt);
    assert Applies(tiers[i], prompt) && tiers[i] in tiers;
    var k := BandIsLastHighest(tiers, prompt);
    assert i == k;
  }

  /** Laying rates over one another, seen one component at a time. */
  lemma {:induction false} OverlaidRate(under: ModelRates, over: ModelRates, c: Component)
    ensures RateOf(Overlay(under, over), c) == if RateOf(over, c).Some? then RateOf(over, c) else RateOf(under, c)
  {
  }

  lemma {:induction false} BandedRate(p: ModelPricing, prompt: int, c: Component)
    ensures var rate := RateOf(WithBand(p.base, Band(p.tiers, prompt)), c);
            && (forall i: nat | BandPublishes(p, prompt, c, i) :: rate == RateOf(p.tiers[i].rates, c))
            && ((forall i: nat :: !BandPublishes(p, prompt, c, i)) ==> rate == RateOf(p.base, c))
  {
    var band := Band(p.tiers, prompt);
    forall i: nat | IsLastHighest(p.tiers, prompt, i)
      ensures band == Some(p.tiers[i])
    {
      BandOfIndex(p.tiers, prompt, i);
    }
    if band.Some? {
      var k := BandIsLastHighest(p.tiers, prompt);
      OverlaidRate(p.base, band.value.rates, c);
      if RateOf(band.value.rates, c).Some? {
        assert BandPublishes(p, prompt, c, k);
      }
    }
  }

  /** Component by component, for every price list, prompt and requested lane: the lane wins over the band
      and the band over the headline, and nothing is billed exactly when all three publish nothing. */
  lemma {:induction false} RatesMeaning(p: ModelPricing, prompt: int, serviceTier: Option<string>, c: Component)
    ensures IsBilledAt(p, prompt, serviceTier, c, RateOf(ResolveRates(p, prompt, serviceTier), c))
    ensures RateOf(ResolveRates(p, prompt, serviceTier), c).None? <==>
            && RateOf(p.base, c).None? && (forall i: nat :: !BandPublishes(p, prompt, c, i))
            && forall i: nat :: !LanePublishes(p, serviceTier, c, i)
  {
    BandedRate(p, prompt, c);
    var banded, lane := WithBand(p.base, Band(p.tiers, prompt)), RequestedLane(p, serviceTier);
    if serviceTier.Some? {
      var name := NormalizeModelKey(serviceTier.value);
      forall i: nat | IsFirstNamed(p.serviceTiers, name, i)
        ensures lane == Some(p.serviceTiers[i])
      {
        LaneIsFirstNamed(p.serviceTiers, name, i);
      }
      if lane.Some? {
        var k := LaneIsNamed(p.serviceTiers, name);
        OverlaidRate(banded, lane.value.rates, c);
        if RateOf(lane.value.rates, c).Some? {
          assert LanePublishes(p, serviceTier, c, k);
        }
      }
    }
  }

  // ---- Canonical order ------------------------------------------------------------------

  function Sorted(p: ModelPricing): ModelPricing {
    p.(tiers := Sort(TierLeq, p.tiers), serviceTiers := Sort(LaneLeq, p.serviceTiers))
  }

  lemma {:induction false} ClassOfEquivalent<T(!new)>(leq: (T, T) -> bool, s: seq<T>, a: T, b: T)
    requires TotalPreorder(leq) && Equivalent(leq, a, b)
    ensures Class(leq, s, a) == Class(leq, s, b)
  {
    if s != [] {
      ClassOfEquivalent(leq, s[1..], a, b);
      assert Equivalent(leq, s[0], a) <==> Equivalent(leq, s[0], b);
    }
  }

  lemma {:induction false} MembersOf<T>(s: seq<T>, t: seq<T>)
    requires multiset(s) == multiset(t)
    ensures forall x :: x in s <==> x in t
  {
    forall x
      ensures x in s <==> x in t
    {
      assert x in s <==> x in multiset(s);
      assert x in t <==> x in multiset(t);
    }
  }

  lemma {:induction false} SortKeepsBand(tiers: seq<RateTier>, prompt: int)
    ensures Band(Sort(TierLeq, tiers), prompt) == Band(tiers, prompt)
  {
    var sorted := Sort(TierLeq, tiers);
    SortFacts(TierLeq, tiers);
    MembersOf(sorted, tiers);
    BandMeaning(tiers, prompt);
    BandMeaning(sorted, prompt);
    var x, y := Band(tiers, prompt), Band(sorted, prompt);
    if x.Some? && y.Some? {
      SortIsStable(TierLeq, tiers, x.value);
      ClassOfEquivalent(TierLeq, sorted, x.value, y.value);
    }
  }

  lemma {:induction false} SortKeepsLane(lanes: seq<ServiceTierRates>, name: string)
    ensures Lane(Sort(LaneLeq, lanes), name) == Lane(lanes, name)
  {
    var sorted := Sort(LaneLeq, lanes);
    LanesAreOrdered();
    SortFacts(LaneLeq, lanes);
    MembersOf(sorted, lanes);
    LaneMeaning(lanes, name);
    LaneMeaning(sorted, name);
    var x, y := Lane(lanes, name), Lane(sorted, name);
    if x.Some? && y.Some? {
      SortIsStable(LaneLeq, lanes, x.value);
      SameName(x.value, y.value);
      ClassOfEquivalent(LaneLeq, sorted, x.value, y.value);
    }
  }

  /** Putting a price list in canonical order never changes what any request is billed at, even
      with repeated thresholds or lane names: the sort is stable. */
  lemma {:induction false} SortingKeepsRates(p: ModelPricing, prompt: int, serviceTier: Option<string>)
    ensures ResolveRates(Sorted(p), prompt, serviceTier) == ResolveRates(p, prompt, serviceTier)
  {
    SortKeepsBand(p.tiers, prompt);
    if serviceTier.Some? {
      SortKeepsLane(p.serviceTiers, NormalizeModelKey(serviceTier.value));
    }
  }

  predicate Canonical(p: ModelPricing) {
    Sorted(p) == p
  }

  lemma {:induction false} SortTwice<T(!new)>(leq: (T, T) -> bool, s: seq<T>)
    requires TotalPreorder(leq)
    ensures Sort(leq, Sort(leq, s)) == Sort(leq, s)
  {
    forall k
      ensures Class(leq, Sort(leq, s), k) == Class(leq, s, k)
    {
      SortIsStable(leq, s, k);
    }
    SameSortExactly(leq, Sort(leq, s), s);
  }

  lemma {:induction false} SortedIsCanonical(p: ModelPricing)
    ensures Canonical(Sorted(p))
  {
    SortTwice(TierLeq, p.tiers);
    LanesAreOrdered();
    SortTwice(LaneLeq, p.serviceTiers);
  }

  predicate DistinctThresholds(tiers: seq<RateTier>) {
    forall i, j | 0 <= i < j < |tiers| :: tiers[i].aboveTokens != tiers[j].aboveTokens
  }

  predicate DistinctNames(lanes: seq<ServiceTierRates>) {
    forall i, j | 0 <= i < j < |lanes| :: lanes[i].tier != lanes[j].tier
  }

  /** Bands that share a threshold are the same band, lanes that share a name the same lane. */
  predicate Unambiguous(p: ModelPricing) {
    Order.Unambiguous(TierLeq, p.tiers) && Order.Unambiguous(LaneLeq, p.serviceTiers)
  }

  /** The same prices, listed in any order. */
  predicate SamePrices(p: ModelPricing, q: ModelPricing) {
    p.base == q.base && multiset(p.tiers) == multiset(q.tiers) && multiset(p.serviceTiers) == multiset(q.serviceTiers)
  }

  lemma {:induction false} DistinctIsUnambiguous(p: ModelPricing)
    requires DistinctThresholds(p.tiers) && DistinctNames(p.serviceTiers)
    ensures Unambiguous(p)
  {
    forall i, j | 0 <= i < j < |p.serviceTiers|
      ensures !Equivalent(LaneLeq, p.serviceTiers[i], p.serviceTiers[j])
    {
      SameName(p.serviceTiers[i], p.serviceTiers[j]);
    }
  }

  /** Two lists of the same unambiguous prices, in any order, have the same canonical form and bill
      every request alike. */
  lemma {:induction false} OrderIsIrrelevant(p: ModelPricing, q: ModelPricing, prompt: int, serviceTier: Option<string>)
    requires SamePrices(p, q) && Unambiguous(p)
    ensures Sorted(p) == Sorted(q)
    ensures ResolveRates(p, prompt, serviceTier) == ResolveRates(q, prompt, serviceTier)
  {
    LanesAreOrdered();
    ReorderingSortsAlike(TierLeq, p.tiers, q.tiers);
    ReorderingSortsAlike(LaneLeq, p.serviceTiers, q.serviceTiers);
    SortingKeepsRates(p, prompt, serviceTier);
    SortingKeepsRates(q, prompt, serviceTier);
  }

  /** Exactly when every catalog that publishes the same prices compares equal: no two different
      bands may share a threshold, and no two different lanes a name. */
  lemma {:induction false} OrderIsIrrelevantExactly(p: ModelPricing)
    ensures Unambiguous(p) <==> forall q | SamePrices(p, q) :: Sorted(q) == Sorted(p)
  {
    if Unambiguous(p) {
      forall q | SamePrices(p, q)
        ensures Sorted(q) == Sorted(p)
      {
        OrderIsIrrelevant(p, q, 0, None);
      }
    } else if !Order.Unambiguous(TierLeq, p.tiers) {
      Order.OrderIsIrrelevantExactly(TierLeq, p.tiers);
      var tiers :| multiset(tiers) == multiset(p.tiers) && Sort(TierLeq, tiers) != Sort(TierLeq, p.tiers);
      assert SamePrices(p, p.(tiers := tiers));
    } else {
      LanesAreOrdered();
      Order.OrderIsIrrelevantExactly(LaneLeq, p.serviceTiers);
      var lanes :| multiset(lanes) == multiset(p.serviceTiers) && Sort(LaneLeq, lanes) != Sort(LaneLeq, p.serviceTiers);
      assert SamePrices(p, p.(serviceTiers := lanes));
    }
  }

  /** Exactly when any two price lists compare equal once sorted: the same headline rates, and the
      bands of each threshold and the lanes of each name in the same order. */
  lemma {:induction false} CompareEqualExactly(p: ModelPricing, q: ModelPricing)
    ensures Sorted(p) == Sorted(q) <==>
            && p.base == q.base && SameClasses(TierLeq, p.tiers, q.tiers)
            && SameClasses(LaneLeq, p.serviceTiers, q.serviceTiers)
  {
    LanesAreOrdered();
    SameSortExactly(TierLeq, p.tiers, q.tiers);
    SameSortExactly(LaneLeq, p.serviceTiers, q.serviceTiers);
  }

  /** Two bands with one threshold and different rates, listed the other way round, are a rate
      change: the lists do not compare equal, and a longer prompt is billed by the other band. */
  lemma {:induction false} RepeatedThresholdIsARateChange(base: ModelRates, above: int, a: ModelRates, b: ModelRates)
    requires a != b
    ensures var p := ModelPricing(base, [RateTier(above, a), RateTier(above, b)], []);
            var q := ModelPricing(base, [RateTier(above, b), RateTier(above, a)], []);
            && SamePrices(p, q) && Sorted(p) != Sorted(q)
            && ResolveRates(p, above + 1, None) == Overlay(base, b)
            && ResolveRates(q, above + 1, None) == Overlay(base, a)
  {
    var x, y := RateTier(above, a), RateTier(above, b);
    LastOfTwo(x, y);
    LastOfTwo(y, x);
    SortApart(x, y);
  }

  lemma {:induction false} LastOfTwo(x: RateTier, y: RateTier)
    requires x.aboveTokens == y.aboveTokens
    ensures Band([x, y], x.aboveTokens + 1) == Some(y)
  {
    assert [x, y][1..] == [y] && [y][1..] == [];
    assert Band([], x.aboveTokens + 1) == None;
  }

  lemma {:induction false} SortApart(x: RateTier, y: RateTier)
    requires x.aboveTokens == y.aboveTokens && x != y
    ensures multiset([x, y]) == multiset([y, x]) && Sort(TierLeq, [x, y]) != Sort(TierLeq, [y, x])
  {
    var s := [x, y];
    assert Swapped(s, 0, 1) == [y, x];
    SwappedPermutes(s, 0, 1);
    SwappedClass(TierLeq, s, 0, 1);
    SameSortExactly(TierLeq, s, [y, x]);
  }

  lemma {:induction false} BandSnoc(tiers: seq<RateTier>, last: RateTier, prompt: int)
    ensures var best := Band(tiers, prompt);
            Band(tiers + [last], prompt) ==
            if Applies(last, prompt) && (best.None?
                                         || best.value.aboveTokens <= last.aboveTokens) then Some(last) else best
  {
    if tiers == [] {
      assert tiers + [last] == [last] && [last][1..] == [];
      assert Band([], prompt) == None;
    } else {
      BandSnoc(tiers[1..], last, prompt);
      assert (tiers + [last])[1..] == tiers[1..] + [last];
    }
  }

  method FindBand(tiers: seq<RateTier>, prompt: int) returns (best: Option<RateTier>)
    ensures best == Band(tiers, prompt)
  {
    best := None;
    for i := 0 to |tiers|
      invariant best == Band(tiers[..i], prompt)
    {
      assert tiers[..i + 1] == tiers[..i] + [tiers[i]];
      BandSnoc(tiers[..i], tiers[i], prompt);
      if Applies(tiers[i], prompt) && (best.None? || best.value.aboveTokens <= tiers[i].aboveTokens) {
        best := Some(tiers[i]);
      }
    }
    assert tiers[..|tiers|] == tiers;
  }

  method ResolveRatesOf(p: ModelPricing, prompt: int, serviceTier: Option<string>) returns (rates: ModelRates)
    ensures rates == ResolveRates(p, prompt, serviceTier)
    ensures forall c :: IsBilledAt(p, prompt, serviceTier, c, RateOf(rates, c))
  {
    forall c {
      RatesMeaning(p, prompt, serviceTier, c);
    }
    rates := p.base;
    var best := FindBand(p.tiers, prompt);
    if best.Some? {
      rates := Overlay(rates, best.value.rates);
    }
    if serviceTier.Some? {
      var lane := FindLane(p.serviceTiers, NormalizeModelKey(serviceTier.value));
      if lane.Some? {
        rates := Overlay(rates, lane.value.rates);
      }
    }
  }

  method FindLane(lanes: seq<ServiceTierRates>, requested: string) returns (lane: Option<ServiceTierRates>)
    ensures lane == Lane(lanes, requested)
  {
    for i := 0 to |lanes|
      invariant Lane(lanes, requested) == Lane(lanes[i..], requested)
    {
      if lanes[i].tier == requested {
        return Some(lanes[i]);
      }
      assert lanes[i..][1..] == lanes[i + 1..];
    }
    lane := None;
  }

  // ---- The carve-out --------------------------------------------------------------------

  /** Scaled micro-USD (times a million) of each component, and whether any was priced. */
  datatype Scaled = Scaled(input: int, output: int, cacheRead: int, cacheWrite: int, reasoning: int, priced: bool)
  {
    function Total(): int {
      input + output + cacheRead + cacheWrite + reasoning
    }
  }

  const NOTHING := Scaled(0, 0, 0, 0, 0, false)

  function Max0(n: int): int {
    if n > 0 then n else 0
  }

  function Charge(rate: Option<int>, tokens: int): int {
    if rate.Some? && tokens > 0 then tokens * rate.value else 0
  }

  predicate Charges(rate: Option<int>, tokens: int) {
    rate.Some? && tokens > 0
  }

  /** The tokens of a part that leave their whole: none unless the part has a rate of its own. */
  function Carved(rate: Option<int>, tokens: int): int {
    if rate.Some? then Max0(tokens) else 0
  }

  /** What is left of the prompt for the input rate before the clamp at zero. */
  function InputSlack(u: TokenUsage, r: ModelRates): int {
    Max0(u.tokensIn) - Carved(r.cacheRead, u.cacheRead) - Carved(r.cacheWrite, u.cacheWrite)
  }

  function OutputSlack(u: TokenUsage, r: ModelRates): int {
    Max0(u.tokensOut) - Carved(r.reasoning, u.reasoning)
  }

  /** The components in closed form. */
  function Components(u: TokenUsage, r: ModelRates): Scaled {
    Scaled(Charge(r.input, InputSlack(u, r)), Charge(r.output, OutputSlack(u, r)),
           Charge(r.cacheRead, u.cacheRead), Charge(r.cacheWrite, u.cacheWrite), Charge(r.reasoning, u.reasoning),
           Charges(r.input, InputSlack(u, r)) || Charges(r.output, OutputSlack(u, r))
           || Charges(r.cacheRead, u.cacheRead) || Charges(r.cacheWrite, u.cacheWrite)
              || Charges(r.reasoning, u.reasoning))
  }

  /** The step-by-step carve-out, clamping after each subtraction, computes the closed form. */
  method ScaledCostComponents(u: TokenUsage, r: ModelRates) returns (c: Scaled)
    ensures c == Components(u, r)
  {
    var billableInput, billableOutput := Max0(u.tokensIn), Max0(u.tokensOut);
    var cacheRead, cacheWrite, reasoning := Max0(u.cacheRead), Max0(u.cacheWrite), Max0(u.reasoning);
    c := NOTHING;
    if r.cacheRead.Some? && cacheRead > 0 {
      c := c.(cacheRead := cacheRead * r.cacheRead.value, priced := true);
      billableInput := Max0(billableInput - cacheRead);
    }
    if r.cacheWrite.Some? && cacheWrite > 0 {
      c := c.(cacheWrite := cacheWrite * r.cacheWrite.value, priced := true);
      billableInput := Max0(billableInput - cacheWrite);
    }
    if r.input.Some? && billableInput > 0 {
      c := c.(input := billableInput * r.input.value, priced := true);
    }
    if r.reasoning.Some? && reasoning > 0 {
      c := c.(reasoning := reasoning * r.reasoning.value, priced := true);
      billableOutput := Max0(billableOutput - reasoning);
    }
    if r.output.Some? && billableOutput > 0 {
      c := c.(output := billableOutput * r.output.value, priced := true);
    }
  }

  // ---- Sums -----------------------------------------------------------------------------

  predicate NonNegative(u: TokenUsage) {
    u.tokensIn >= 0 && u.tokensOut >= 0 && u.cacheRead >= 0 && u.cacheWrite >= 0 && u.reasoning >= 0
  }

  /** Usage as the reporting client promises it: the parts are within their wholes. */
  predicate WellFormed(u: TokenUsage) {
    NonNegative(u) && u.cacheRead + u.cacheWrite <= u.tokensIn && u.reasoning <= u.tokensOut
  }

  function AddUsage(a: TokenUsage, b: TokenUsage): TokenUsage {
    TokenUsage(a.tokensIn + b.tokensIn, a.tokensOut + b.tokensOut, a.cacheRead + b.cacheRead,
               a.cacheWrite + b.cacheWrite, a.reasoning + b.reasoning)
  }

  function SumUsage(us: seq<TokenUsage>): TokenUsage {
    if us == [] then TokenUsage(0, 0, 0, 0, 0) else AddUsage(us[0], SumUsage(us[1..]))
  }

  function AddScaled(a: Scaled, b: Scaled): Scaled {
    Scaled(a.input + b.input, a.output + b.output, a.cacheRead + b.cacheRead, a.cacheWrite + b.cacheWrite,
           a.reasoning + b.reasoning, a.priced || b.priced)
  }

  function SumScaled(cs: seq<Scaled>): Scaled {
    if cs == [] then NOTHING else AddScaled(cs[0], SumScaled(cs[1..]))
  }

  /** Each call priced on its own. */
  function EachCall(us: seq<TokenUsage>, r: ModelRates): (cs: seq<Scaled>)
    ensures |cs| == |us| && forall i | 0 <= i < |us| :: cs[i] == Components(us[i], r)
  {
    seq(|us|, i requires 0 <= i < |us| => Components(us[i], r))
  }

  lemma {:induction false} ChargeAdds(rate: Option<int>, a: int, b: int)
    requires a >= 0 && b >= 0
    ensures Charge(rate, a + b) == Charge(rate, a) + Charge(rate, b)
    ensures Charges(rate, a + b) == (Charges(rate, a) || Charges(rate, b))
  {
    if rate.Some? {
      assert (a + b) * rate.value == a * rate.value + b * rate.value;
    }
  }

  lemma {:induction false} SlackAdds(a: TokenUsage, b: TokenUsage, r: ModelRates)
    requires NonNegative(a) && NonNegative(b)
    ensures InputSlack(AddUsage(a, b), r) == InputSlack(a, r) + InputSlack(b, r)
    ensures OutputSlack(AddUsage(a, b), r) == OutputSlack(a, r) + OutputSlack(b, r)
  {
  }

  lemma {:induction false} ComponentsAdd(a: TokenUsage, b: TokenUsage, r: ModelRates)
    requires WellFormed(a) && WellFormed(b)
    ensures Components(AddUsage(a, b), r) == AddScaled(Components(a, r), Components(b, r))
  {
    SlackAdds(a, b, r);
    ChargeAdds(r.input, InputSlack(a, r), InputSlack(b, r));
    ChargeAdds(r.output, OutputSlack(a, r), OutputSlack(b, r));
    ChargeAdds(r.cacheRead, a.cacheRead, b.cacheRead);
    ChargeAdds(r.cacheWrite, a.cacheWrite, b.cacheWrite);
    ChargeAdds(r.reasoning, a.reasoning, b.reasoning);
  }

  lemma {:induction false} NoTokensNoCost(r: ModelRates)
    ensures Components(TokenUsage(0, 0, 0, 0, 0), r) == NOTHING
  {
  }

  lemma {:induction false} SumScaledCons(us: seq<TokenUsage>, r: ModelRates)
    requires us != []
    ensures SumScaled(EachCall(us, r)) == AddScaled(Components(us[0], r), SumScaled(EachCall(us[1..], r)))
  {
    assert EachCall(us, r)[1..] == EachCall(us[1..], r);
  }

  /** For one rate set and well-formed usages, summing the tokens first and pricing once gives,
      component by component, the sum of pricing each. */
  lemma {:induction false} SummingFirstIsTheSame(us: seq<TokenUsage>, r: ModelRates)
    requires forall i | 0 <= i < |us| :: WellFormed(us[i])
    ensures WellFormed(SumUsage(us))
    ensures Components(SumUsage(us), r) == SumScaled(EachCall(us, r))
  {
    if us == [] {
      NoTokensNoCost(r);
    } else {
      var rest := SumUsage(us[1..]);
      SummingFirstIsTheSame(us[1..], r);
      ComponentsAdd(us[0], rest, r);
      SumScaledCons(us, r);
    }
  }

  /** A rate whose charge is really proportional: neither absent nor zero. */
  predicate Bites(rate: Option<int>) {
    rate.Some? && rate.value != 0
  }

  lemma {:induction false} SameMultiple(x: int, y: int, factor: int)
    ensures x * factor == y * factor <==> x == y || factor == 0
  {
    assert x * factor - y * factor == (x - y) * factor;
    if x != y && factor != 0 {
      assert (x - y) * factor != 0;
    }
  }

  /** What each call leaves for the input rate, below zero where its parts exceed its prompt. */
  function InputSlacks(us: seq<TokenUsage>, r: ModelRates): (xs: seq<int>)
    ensures |xs| == |us| && forall i | 0 <= i < |us| :: xs[i] == InputSlack(us[i], r)
  {
    seq(|us|, i requires 0 <= i < |us| => InputSlack(us[i], r))
  }

  function OutputSlacks(us: seq<TokenUsage>, r: ModelRates): (xs: seq<int>)
    ensures |xs| == |us| && forall i | 0 <= i < |us| :: xs[i] == OutputSlack(us[i], r)
  {
    seq(|us|, i requires 0 <= i < |us| => OutputSlack(us[i], r))
  }

  function Sum(xs: seq<int>): int {
    if xs == [] then 0 else xs[0] + Sum(xs[1..])
  }

  /** The sum of the positive parts. */
  function SumClamped(xs: seq<int>): int {
    if xs == [] then 0 else Max0(xs[0]) + SumClamped(xs[1..])
  }

  /** No two of the numbers have opposite signs. */
  predicate OneSided(xs: seq<int>) {
    (forall i | 0 <= i < |xs| :: xs[i] >= 0) || (forall i | 0 <= i < |xs| :: xs[i] <= 0)
  }

  lemma {:induction false} PositiveParts(xs: seq<int>)
    ensures 0 <= SumClamped(xs) && Sum(xs) <= SumClamped(xs)
    ensures SumClamped(xs) == 0 <==> forall i | 0 <= i < |xs| :: xs[i] <= 0
    ensures SumClamped(xs) == Sum(xs) <==> forall i | 0 <= i < |xs| :: xs[i] >= 0
  {
    if xs != [] {
      PositiveParts(xs[1..]);
      assert forall i | 1 <= i < |xs| :: xs[i] == xs[1..][i - 1];
    }
  }

  /** Clamping commutes with summing exactly for one-sided numbers. */
  lemma {:induction false} ClampAddsExactly(xs: seq<int>)
    ensures Max0(Sum(xs)) == SumClamped(xs) <==> OneSided(xs)
  {
    PositiveParts(xs);
  }

  lemma {:induction false} SumSlacks(us: seq<TokenUsage>, r: ModelRates)
    requires forall i | 0 <= i < |us| :: NonNegative(us[i])
    ensures NonNegative(SumUsage(us))
    ensures InputSlack(SumUsage(us), r) == Sum(InputSlacks(us, r))
    ensures OutputSlack(SumUsage(us), r) == Sum(OutputSlacks(us, r))
  {
    if us != [] {
      SumSlacks(us[1..], r);
      SlackAdds(us[0], SumUsage(us[1..]), r);
      assert InputSlacks(us, r)[1..] == InputSlacks(us[1..], r);
      assert OutputSlacks(us, r)[1..] == OutputSlacks(us[1..], r);
    }
  }

  function Rate(rate: Option<int>): int {
    if rate.Some? then rate.value else 0
  }

  lemma {:induction false} ChargeIsProduct(rate: Option<int>, tokens: int)
    ensures Charge(rate, tokens) == Max0(tokens) * Rate(rate)
  {
  }

  function ChargeEach(rate: Option<int>, tokens: seq<int>): (xs: seq<int>)
    ensures |xs| == |tokens| && forall i | 0 <= i < |tokens| :: xs[i] == Charge(rate, tokens[i])
  {
    seq(|tokens|, i requires 0 <= i < |tokens| => Charge(rate, tokens[i]))
  }

  lemma {:induction false} ChargesAreProduct(rate: Option<int>, tokens: seq<int>)
    ensures Sum(ChargeEach(rate, tokens)) == SumClamped(tokens) * Rate(rate)
  {
    if tokens != [] {
      ChargesAreProduct(rate, tokens[1..]);
      ChargeIsProduct(rate, tokens[0]);
      Distributes(Max0(tokens[0]), SumClamped(tokens[1..]), Rate(rate));
      assert ChargeEach(rate, tokens)[1..] == ChargeEach(rate, tokens[1..]);
    }
  }

  lemma {:induction false} Distributes(x: int, y: int, factor: int)
    ensures (x + y) * factor == x * factor + y * factor
  {
  }

  function Inputs(cs: seq<Scaled>): (xs: seq<int>)
    ensures |xs| == |cs| && forall i | 0 <= i < |cs| :: xs[i] == cs[i].input
  {
    seq(|cs|, i requires 0 <= i < |cs| => cs[i].input)
  }

  function Outputs(cs: seq<Scaled>): (xs: seq<int>)
    ensures |xs| == |cs| && forall i | 0 <= i < |cs| :: xs[i] == cs[i].output
  {
    seq(|cs|, i requires 0 <= i < |cs| => cs[i].output)
  }

  lemma {:induction false} WholesOfSum(cs: seq<Scaled>)
    ensures SumScaled(cs).input == Sum(Inputs(cs)) && SumScaled(cs).output == Sum(Outputs(cs))
  {
    if cs != [] {
      WholesOfSum(cs[1..]);
      assert Inputs(cs)[1..] == Inputs(cs[1..]) && Outputs(cs)[1..] == Outputs(cs[1..]);
    }
  }

  lemma {:induction false} WholesOfOne(us: seq<TokenUsage>, r: ModelRates, i: nat)
    requires i < |us|
    ensures Inputs(EachCall(us, r))[i] == Charge(r.input, InputSlack(us[i], r))
    ensures Outputs(EachCall(us, r))[i] == Charge(r.output, OutputSlack(us[i], r))
  {
  }

  lemma {:induction false} SameSums(xs: seq<int>, ys: seq<int>)
    requires |xs| == |ys| && forall i | 0 <= i < |xs| :: xs[i] == ys[i]
    ensures Sum(xs) == Sum(ys)
  {
    assert xs == ys;
  }

  lemma {:induction false} WholesOfEach(us: seq<TokenUsage>, r: ModelRates, inputs: seq<int>, outputs: seq<int>)
    requires inputs == ChargeEach(r.input, InputSlacks(us, r)) && outputs == ChargeEach(r.output, OutputSlacks(us, r))
    ensures SumScaled(EachCall(us, r)).input == Sum(inputs) && SumScaled(EachCall(us, r)).output == Sum(outputs)
  {
    var cs := EachCall(us, r);
    WholesOfSum(cs);
    forall i | 0 <= i < |us|
      ensures Inputs(cs)[i] == inputs[i] && Outputs(cs)[i] == outputs[i]
    {
      WholesOfOne(us, r, i);
    }
    SameSums(Inputs(cs), inputs);
    SameSums(Outputs(cs), outputs);
  }

  lemma {:induction false} PartsOfEach(us: seq<TokenUsage>, r: ModelRates)
    requires forall i | 0 <= i < |us| :: NonNegative(us[i])
    ensures var (each, sum) := (SumScaled(EachCall(us, r)), SumUsage(us));
            && each.cacheRead == Charge(r.cacheRead, sum.cacheRead)
            && each.cacheWrite == Charge(r.cacheWrite, sum.cacheWrite)
            && each.reasoning == Charge(r.reasoning, sum.reasoning)
  {
    if us != [] {
      var rest := SumUsage(us[1..]);
      PartsOfEach(us[1..], r);
      SumSlacks(us[1..], r);
      SumScaledCons(us, r);
      ChargeAdds(r.cacheRead, us[0].cacheRead, rest.cacheRead);
      ChargeAdds(r.cacheWrite, us[0].cacheWrite, rest.cacheWrite);
      ChargeAdds(r.reasoning, us[0].reasoning, rest.reasoning);
    }
  }

  lemma {:induction false} ChargedOnceExactly(rate: Option<int>, slacks: seq<int>)
    ensures Charge(rate, Sum(slacks)) == Sum(ChargeEach(rate, slacks)) <==> (Bites(rate) ==> OneSided(slacks))
  {
    ChargesAreProduct(rate, slacks);
    ChargeIsProduct(rate, Sum(slacks));
    SameMultiple(Max0(Sum(slacks)), SumClamped(slacks), Rate(rate));
    ClampAddsExactly(slacks);
  }

  /** Exactly when any number of usages can be summed first: a whole that is charged may not be
      over-carved in one call and under-carved in another. Well-formed calls are never over-carved.
      The parts themselves always add up. */
  lemma {:induction false} AddsExactly(us: seq<TokenUsage>, r: ModelRates)
    requires forall i | 0 <= i < |us| :: NonNegative(us[i])
    ensures var (both, each) := (Components(SumUsage(us), r), SumScaled(EachCall(us, r)));
            && (both.input == each.input <==> (Bites(r.input) ==> OneSided(InputSlacks(us, r))))
            && (both.output == each.output <==> (Bites(r.output) ==> OneSided(OutputSlacks(us, r))))
            && both.cacheRead == each.cacheRead && both.cacheWrite == each.cacheWrite
               && both.reasoning == each.reasoning
  {
    SumSlacks(us, r);
    WholesOfEach(us, r, ChargeEach(r.input, InputSlacks(us, r)), ChargeEach(r.output, OutputSlacks(us, r)));
    PartsOfEach(us, r);
    ChargedOnceExactly(r.input, InputSlacks(us, r));
    ChargedOnceExactly(r.output, OutputSlacks(us, r));
  }

  /** Without well-formedness the sum is off, by any amount: the first call reports `n` cached
      tokens beyond its own prompt, and the prompt of the second pays for them. */
  lemma {:induction false} IllFormedUsageDoesNotAdd(n: int, rate: int)
    requires n > 0
    ensures var (a, b) := (TokenUsage(0, 0, n, 0, 0), TokenUsage(n, 0, 0, 0, 0));
            var r := ModelRates(Some(rate), None, Some(rate), None, None);
            && Components(AddUsage(a, b), r).Total() == n * rate
            && AddScaled(Components(a, r), Components(b, r)).Total() == 2 * (n * rate)
  {
  }

  // ---- Rounding -------------------------------------------------------------------------

  /** `/` of the source: quotients are truncated toward zero. */
  function Truncate(n: int, d: int): int
    requires d > 0
  {
    if n >= 0 then n / d else -((-n) / d)
  }

  function RoundScaled(scaled: int): int {
    var cost := Truncate(scaled + HALF_UNIT, RATE_UNIT);
    if cost < 0 then 0 else if cost > I64_MAX then I64_MAX else cost
  }

  const SATURATION: int := I64_MAX * RATE_UNIT + HALF_UNIT

  /** Rounding is to the nearest micro-USD, halves up, with everything below zero at zero and
      everything from the saturation point up at the i64 maximum. */
  lemma {:induction false} RoundingIsNearest(scaled: int)
    ensures 0 <= RoundScaled(scaled) <= 0x7FFF_FFFF_FFFF_FFFF
    ensures -500_000 <= scaled < SATURATION ==> -500_000 <= scaled - RoundScaled(scaled) * 1_000_000 < 500_000
    ensures scaled < 500_000 <==> RoundScaled(scaled) == 0
    ensures scaled >= SATURATION ==> RoundScaled(scaled) == I64_MAX
  {
  }

  function SumRounded(xs: seq<int>): int {
    if xs == [] then 0 else RoundScaled(xs[0]) + SumRounded(xs[1..])
  }

  predicate Roundable(xs: seq<int>) {
    forall i | 0 <= i < |xs| :: 0 <= xs[i] < SATURATION
  }

  lemma {:induction false} ErrorsAddUp(xs: seq<int>)
    requires Roundable(xs)
    ensures RATE_UNIT * SumRounded(xs) - HALF_UNIT * |xs| <= Sum(xs)
            <= RATE_UNIT * SumRounded(xs) + (HALF_UNIT - 1) * |xs|
    ensures Sum(xs) >= 0
  {
    if xs != [] {
      RoundingIsNearest(xs[0]);
      ErrorsAddUp(xs[1..]);
    }
  }

  /** Rounding each of n amounts is within floor(n/2) micro-USD of rounding their sum once. */
  lemma {:induction false} RoundingDrift(xs: seq<int>)
    requires Roundable(xs) && Sum(xs) < SATURATION
    ensures -(|xs| / 2) <= SumRounded(xs) - RoundScaled(Sum(xs)) <= |xs| / 2
  {
    ErrorsAddUp(xs);
    RoundingIsNearest(Sum(xs));
  }

  function Halves(n: nat): (xs: seq<int>)
    ensures |xs| == n && forall i | 0 <= i < n :: xs[i] == HALF_UNIT
  {
    seq(n, _ => HALF_UNIT)
  }

  lemma {:induction false} SumOfHalves(n: nat)
    ensures Sum(Halves(n)) == HALF_UNIT * n && SumRounded(Halves(n)) == n
  {
    if n > 0 {
      SumOfHalves(n - 1);
      assert Halves(n)[1..] == Halves(n - 1);
    }
  }

  /** The bound is attained for every n: n half micro-USD round up one by one. */
  lemma {:induction false} DriftIsTight(n: nat)
    requires HALF_UNIT * n < SATURATION
    ensures Roundable(Halves(n)) && SumRounded(Halves(n)) - RoundScaled(Sum(Halves(n))) == n / 2
  {
    SumOfHalves(n);
    RoundingIsNearest(HALF_UNIT * n);
  }

  // ---- Prices ---------------------------------------------------------------------------

  datatype CostComponents =
    CostComponents(input: int, output: int, cacheRead: int, cacheWrite: int, reasoning: int)
  {
    function Total(): int {
      input + output + cacheRead + cacheWrite + reasoning
    }
  }

  function PriceModelCall(u: TokenUsage, r: ModelRates): PricedCost {
    if r == NO_RATES then Unpriced(NoRates)
    else
      var scaled := Components(u, r);
      if !scaled.priced then Unpriced(NoMatchingComponent) else Priced(RoundScaled(scaled.Total()))
  }

  predicate NothingPublished(p: ModelPricing) {
    && p.base == NO_RATES
    && (forall i | 0 <= i < |p.tiers| :: p.tiers[i].rates == NO_RATES)
    && (forall i | 0 <= i < |p.serviceTiers| :: p.serviceTiers[i].rates == NO_RATES)
  }

  function PriceModelCallTiered(p: ModelPricing, u: TokenUsage, serviceTier: Option<string>): PricedCost {
    if NothingPublished(p) then Unpriced(NoRates) else PriceModelCall(u, ResolveRates(p, u.tokensIn, serviceTier))
  }

  function PriceComponents(u: TokenUsage, r: ModelRates): Option<CostComponents> {
    if r == NO_RATES then None
    else
      var s := Components(u, r);
      if !s.priced then None
      else Some(CostComponents(RoundScaled(s.input), RoundScaled(s.output), RoundScaled(s.cacheRead),
                               RoundScaled(s.cacheWrite), RoundScaled(s.reasoning)))
  }

  /** The test for a price list with nothing published decides nothing of its own: such a list
      resolves to no rates for every request. */
  lemma {:induction false} EmptyListGuardIsRedundant(p: ModelPricing, u: TokenUsage, serviceTier: Option<string>)
    ensures PriceModelCallTiered(p, u, serviceTier) == PriceModelCall(u, ResolveRates(p, u.tokensIn, serviceTier))
  {
    BandMeaning(p.tiers, u.tokensIn);
    if serviceTier.Some? {
      LaneMeaning(p.serviceTiers, NormalizeModelKey(serviceTier.value));
    }
    if NothingPublished(p) {
      assert forall t | t in p.tiers :: t.rates == NO_RATES;
      assert forall l | l in p.serviceTiers :: l.rates == NO_RATES;
      assert ResolveRates(p, u.tokensIn, serviceTier) == NO_RATES;
    }
  }

  /** A call is priced exactly when a component it uses has a rate: a cached or reasoning part, or
      what its parts with rates of their own leave of its prompt or of its output. */
  lemma {:induction false} PricedExactly(u: TokenUsage, r: ModelRates)
    requires WellFormed(u)
    ensures PriceModelCall(u, r).Priced? <==>
            || (r.cacheRead.Some? && u.cacheRead > 0) || (r.cacheWrite.Some? && u.cacheWrite > 0)
            || (r.reasoning.Some? && u.reasoning > 0)
            || (r.input.Some? && u.tokensIn > (if r.cacheRead.Some? then u.cacheRead else 0)
                + (if r.cacheWrite.Some? then u.cacheWrite else 0))
            || (r.output.Some? && u.tokensOut > (if r.reasoning.Some? then u.reasoning else 0))
    ensures PriceModelCall(u, r) == Unpriced(NoRates) <==> r == NO_RATES
  {
  }

  /** A count of tokens, if its part has a rate of its own: none when negative. */
  function Apart(rate: Option<int>, tokens: int): nat {
    if rate.Some? && tokens > 0 then tokens else 0
  }

  /** What is billed for a usage, counted in tokens: parts with a rate of their own leave their whole, parts
      without stay in it, and no count is below zero. */
  predicate BilledTokens(u: TokenUsage, r: ModelRates, billed: TokenUsage) {
    && billed.cacheRead == Apart(r.cacheRead, u.cacheRead)
    && billed.cacheWrite == Apart(r.cacheWrite, u.cacheWrite)
    && billed.reasoning == Apart(r.reasoning, u.reasoning)
    && 0 <= billed.tokensIn && billed.tokensIn >= u.tokensIn - billed.cacheRead - billed.cacheWrite
    && (billed.tokensIn > 0 ==> billed.tokensIn == u.tokensIn - billed.cacheRead - billed.cacheWrite)
    && 0 <= billed.tokensOut && billed.tokensOut >= u.tokensOut - billed.reasoning
    && (billed.tokensOut > 0 ==> billed.tokensOut == u.tokensOut - billed.reasoning)
  }

  /** A component with a rate and tokens to bill at it. */
  predicate IsUsed(u: TokenUsage, r: ModelRates) {
    || (r.input.Some? && u.tokensIn > 0) || (r.output.Some? && u.tokensOut > 0)
    || (r.cacheRead.Some? && u.cacheRead > 0) || (r.cacheWrite.Some? && u.cacheWrite > 0)
    || (r.reasoning.Some? && u.reasoning > 0)
  }

  lemma {:induction false} ChargesOfBilled(u: TokenUsage, r: ModelRates, billed: TokenUsage)
    requires BilledTokens(u, r, billed)
    ensures var c := Components(u, r);
            && c.input == billed.tokensIn * Rate(r.input) && c.output == billed.tokensOut * Rate(r.output)
            && c.cacheRead == billed.cacheRead * Rate(r.cacheRead)
            && c.cacheWrite == billed.cacheWrite * Rate(r.cacheWrite)
            && c.reasoning == billed.reasoning * Rate(r.reasoning)
            && (c.priced <==> IsUsed(billed, r))
  {
    ChargeIsProduct(r.input, InputSlack(u, r));
    ChargeIsProduct(r.output, OutputSlack(u, r));
    assert Max0(InputSlack(u, r)) == billed.tokensIn && Max0(OutputSlack(u, r)) == billed.tokensOut;
  }

  /** Every token of a well-formed usage is billed exactly once. The price is the sum of tokens times rate, rounded
      once, and there is none exactly when nothing is published or nothing published is used. */
  lemma {:induction false} EveryTokenIsBilledOnce(u: TokenUsage, r: ModelRates, billed: TokenUsage)
    requires BilledTokens(u, r, billed)
    ensures WellFormed(u) ==>
              && billed.tokensIn + billed.cacheRead + billed.cacheWrite == u.tokensIn
              && billed.tokensOut + billed.reasoning == u.tokensOut
    ensures PriceModelCall(u, r) ==
            if forall c :: RateOf(r, c).None? then Unpriced(NoRates)
            else if !IsUsed(billed, r) then Unpriced(NoMatchingComponent)
            else Priced(RoundScaled(billed.tokensIn * Rate(r.input) + billed.tokensOut * Rate(r.output)
                                    + billed.cacheRead * Rate(r.cacheRead) + billed.cacheWrite * Rate(r.cacheWrite)
                                    + billed.reasoning * Rate(r.reasoning)))
    ensures PriceModelCall(u, r).Priced? ==>
              PriceComponents(u, r) ==
              Some(CostComponents(RoundScaled(billed.tokensIn * Rate(r.input)),
                                  RoundScaled(billed.tokensOut * Rate(r.output)),
                                  RoundScaled(billed.cacheRead * Rate(r.cacheRead)),
                                  RoundScaled(billed.cacheWrite * Rate(r.cacheWrite)),
                                  RoundScaled(billed.reasoning * Rate(r.reasoning))))
  {
    ChargesOfBilled(u, r, billed);
    if forall c :: RateOf(r, c).None? {
      assert RateOf(r, Input).None? && RateOf(r, Output).None? && RateOf(r, CacheRead).None?;
      assert RateOf(r, CacheWrite).None? && RateOf(r, Reasoning).None?;
    }
  }

  /** A normalized name is the name without the white space around it, in lower case as far as ASCII goes. */
  lemma {:induction false} NormalizedName(key: string) returns (before: string, core: string, after: string)
    ensures key == before + core + after && All(IsWhitespace, before) && All(IsWhitespace, after)
    ensures IsCore(IsWhitespace, core) && |NormalizeModelKey(key)| == |core|
    ensures forall i | 0 <= i < |core| ::
              NormalizeModelKey(key)[i] == if 'A' <= core[i] <= 'Z' then core[i] - 'A' + 'a' else core[i]
  {
    before, core, after := StripParts(IsWhitespace, key);
    LoweredName(core);
  }

  lemma {:induction false} LoweredName(core: string)
    ensures forall i | 0 <= i < |core| ::
              ToLowerAscii(core)[i] == if 'A' <= core[i] <= 'Z' then core[i] - 'A' + 'a' else core[i]
  {
  }

  predicate Within(rate: Option<int>, m: int) {
    rate.Some? ==> -m <= rate.value <= m
  }

  lemma {:induction false} ChargeIsBounded(rate: Option<int>, tokens: int, m: int)
    requires m >= 0 && Within(rate, m) && tokens >= 0
    ensures -(tokens * m) <= Charge(rate, tokens) <= tokens * m
  {
    assert tokens * m >= 0;
    if rate.Some? {
      assert -(tokens * m) == tokens * (-m) <= tokens * rate.value <= tokens * m;
    }
  }

  const I64_LIMIT: int := 0x8000_0000_0000_0000

  /** The 128-bit arithmetic of the source cannot overflow on well-formed usage: the total is at
      most the whole prompt and output at the largest rate. */
  lemma {:induction false} WellFormedTotalsFit(u: TokenUsage, r: ModelRates)
    requires WellFormed(u) && u.tokensIn < I64_LIMIT && u.tokensOut < I64_LIMIT
    requires Within(r.input, I64_LIMIT) && Within(r.output, I64_LIMIT) && Within(r.cacheRead, I64_LIMIT)
    requires Within(r.cacheWrite, I64_LIMIT) && Within(r.reasoning, I64_LIMIT)
    ensures -2 * I64_LIMIT * I64_LIMIT < Components(u, r).Total() < 2 * I64_LIMIT * I64_LIMIT
  {
    assert InputSlack(u, r) + Carved(r.cacheRead, u.cacheRead) + Carved(r.cacheWrite, u.cacheWrite) == u.tokensIn;
    assert OutputSlack(u, r) + Carved(r.reasoning, u.reasoning) == u.tokensOut;
    ChargeIsBounded(r.input, InputSlack(u, r), I64_LIMIT);
    ChargeIsBounded(r.output, OutputSlack(u, r), I64_LIMIT);
    ChargeIsBounded(r.cacheRead, Carved(r.cacheRead, u.cacheRead), I64_LIMIT);
    ChargeIsBounded(r.cacheWrite, Carved(r.cacheWrite, u.cacheWrite), I64_LIMIT);
    ChargeIsBounded(r.reasoning, Carved(r.reasoning, u.reasoning), I64_LIMIT);
  }

  predicate NonNegativeRate(rate: Option<int>) {
    rate.Some? ==> rate.value >= 0
  }

  predicate NonNegativeRates(r: ModelRates) {
    && NonNegativeRate(r.input) && NonNegativeRate(r.output) && NonNegativeRate(r.cacheRead)
    && NonNegativeRate(r.cacheWrite) && NonNegativeRate(r.reasoning)
  }

  lemma {:induction false} ChargeIsNonNegative(rate: Option<int>, tokens: int)
    requires NonNegativeRate(rate)
    ensures Charge(rate, tokens) >= 0
  {
  }

  lemma {:induction false} ComponentsAreNonNegative(u: TokenUsage, r: ModelRates)
    requires NonNegativeRates(r)
    ensures var c := Components(u, r);
            c.input >= 0 && c.output >= 0 && c.cacheRead >= 0 && c.cacheWrite >= 0 && c.reasoning >= 0
  {
    ChargeIsNonNegative(r.input, InputSlack(u, r));
    ChargeIsNonNegative(r.output, OutputSlack(u, r));
    ChargeIsNonNegative(r.cacheRead, u.cacheRead);
    ChargeIsNonNegative(r.cacheWrite, u.cacheWrite);
    ChargeIsNonNegative(r.reasoning, u.reasoning);
  }

  lemma {:induction false} SumOfFive(a: int, b: int, c: int, d: int, e: int)
    ensures var xs := [a, b, c, d, e];
            Sum(xs) == a + b + c + d + e
            && SumRounded(xs) == RoundScaled(a) + RoundScaled(b) + RoundScaled(c) + RoundScaled(d) + RoundScaled(e)
  {
    SumCons(e, []);
    SumCons(d, [e]);
    SumCons(c, [d, e]);
    SumCons(b, [c, d, e]);
    SumCons(a, [b, c, d, e]);
    assert [e] + [] == [e] && [d] + [e] == [d, e] && [c] + [d, e] == [c, d, e];
    assert [b] + [c, d, e] == [b, c, d, e] && [a] + [b, c, d, e] == [a, b, c, d, e];
  }

  lemma {:induction false} SumCons(x: int, xs: seq<int>)
    ensures Sum([x] + xs) == x + Sum(xs) && SumRounded([x] + xs) == RoundScaled(x) + SumRounded(xs)
  {
    assert ([x] + xs)[1..] == xs;
  }

  /** The five separately rounded components are priced exactly when the call is, and add up to
      within 2 micro-USD of its price. */
  lemma {:induction false} ComponentsNearPrice(u: TokenUsage, r: ModelRates)
    requires NonNegativeRates(r) && Components(u, r).Total() < SATURATION
    ensures PriceComponents(u, r).Some? <==> PriceModelCall(u, r).Priced?
    ensures PriceComponents(u, r).Some? ==>
              -2 <= PriceComponents(u, r).value.Total() - PriceModelCall(u, r).costMicros <= 2
  {
    ComponentsAreNonNegative(u, r);
    var c := Components(u, r);
    var xs := [c.input, c.output, c.cacheRead, c.cacheWrite, c.reasoning];
    SumOfFive(c.input, c.output, c.cacheRead, c.cacheWrite, c.reasoning);
    RoundingDrift(xs);
  }

  function Totals(cs: seq<Scaled>): (xs: seq<int>)
    ensures |xs| == |cs| && forall i | 0 <= i < |cs| :: xs[i] == cs[i].Total()
  {
    seq(|cs|, i requires 0 <= i < |cs| => cs[i].Total())
  }

  lemma {:induction false} TotalsAdd(cs: seq<Scaled>)
    ensures Sum(Totals(cs)) == SumScaled(cs).Total()
  {
    if cs != [] {
      TotalsAdd(cs[1..]);
      assert Totals(cs)[1..] == Totals(cs[1..]);
    }
  }

  /** What a call adds to a bill: nothing while it is unpriced. */
  function Billed(cost: PricedCost): int {
    if cost.Priced? then cost.costMicros else 0
  }

  function Bill(us: seq<TokenUsage>, r: ModelRates): int {
    if us == [] then 0 else Billed(PriceModelCall(us[0], r)) + Bill(us[1..], r)
  }

  lemma {:induction false} BilledIsRounded(u: TokenUsage, r: ModelRates)
    ensures Billed(PriceModelCall(u, r)) == RoundScaled(Components(u, r).Total())
  {
  }

  lemma {:induction false} BillIsRounded(us: seq<TokenUsage>, r: ModelRates)
    ensures Bill(us, r) == SumRounded(Totals(EachCall(us, r)))
  {
    if us != [] {
      BillIsRounded(us[1..], r);
      BilledIsRounded(us[0], r);
      assert Totals(EachCall(us, r))[1..] == Totals(EachCall(us[1..], r));
    }
  }

  lemma {:induction false} AnyPriced(cs: seq<Scaled>)
    ensures SumScaled(cs).priced <==> exists i | 0 <= i < |cs| :: cs[i].priced
  {
    if cs != [] {
      AnyPriced(cs[1..]);
      assert forall i | 1 <= i < |cs| :: cs[i] == cs[1..][i - 1];
      if i :| 0 <= i < |cs[1..]| && cs[1..][i].priced {
        assert cs[i + 1].priced;
      }
    }
  }

  lemma {:induction false} PricedByComponents(u: TokenUsage, r: ModelRates)
    ensures PriceModelCall(u, r).Priced? <==> Components(u, r).priced
  {
  }

  lemma {:induction false} TotalsAreNonNegative(us: seq<TokenUsage>, r: ModelRates)
    requires NonNegativeRates(r)
    ensures forall i | 0 <= i < |us| :: Totals(EachCall(us, r))[i] >= 0
  {
    forall i | 0 <= i < |us|
      ensures Totals(EachCall(us, r))[i] >= 0
    {
      ComponentsAreNonNegative(us[i], r);
    }
  }

  lemma {:induction false} BillIsNear(us: seq<TokenUsage>, r: ModelRates, sum: int)
    requires NonNegativeRates(r) && sum == Sum(Totals(EachCall(us, r))) && sum < SATURATION
    ensures -(|us| / 2) <= Bill(us, r) - RoundScaled(sum) <= |us| / 2
  {
    TotalsAreNonNegative(us, r);
    PartsWithinSum(Totals(EachCall(us, r)));
    RoundingDrift(Totals(EachCall(us, r)));
    BillIsRounded(us, r);
  }

  lemma {:induction false} SumOfTotals(us: seq<TokenUsage>, r: ModelRates)
    requires forall i | 0 <= i < |us| :: WellFormed(us[i])
    ensures Components(SumUsage(us), r).Total() == Sum(Totals(EachCall(us, r)))
  {
    SummingFirstIsTheSame(us, r);
    TotalsAdd(EachCall(us, r));
  }

  lemma {:induction false} SumIsPriced(us: seq<TokenUsage>, r: ModelRates)
    requires forall i | 0 <= i < |us| :: WellFormed(us[i])
    ensures PriceModelCall(SumUsage(us), r).Priced? <==> exists i | 0 <= i < |us| :: PriceModelCall(us[i], r).Priced?
  {
    SummingFirstIsTheSame(us, r);
    AnyPriced(EachCall(us, r));
    PricedByComponents(SumUsage(us), r);
    forall i | 0 <= i < |us|
      ensures PriceModelCall(us[i], r).Priced? <==> EachCall(us, r)[i].priced
    {
      PricedByComponents(us[i], r);
    }
  }

  /** The price of the summed usage differs from the bill of the n well-formed calls, at the same
      non-negative rates, by at most floor(n/2) micro-USD absent saturation; and the sum is priced
      exactly when one of the calls is. */
  lemma {:induction false} PricingTheSumDrifts(us: seq<TokenUsage>, r: ModelRates)
    requires NonNegativeRates(r) && forall i | 0 <= i < |us| :: WellFormed(us[i])
    requires Components(SumUsage(us), r).Total() < SATURATION
    ensures -(|us| / 2) <= Bill(us, r) - Billed(PriceModelCall(SumUsage(us), r)) <= |us| / 2
    ensures PriceModelCall(SumUsage(us), r).Priced? <==> exists i | 0 <= i < |us| :: PriceModelCall(us[i], r).Priced?
  {
    SumIsPriced(us, r);
    SumOfTotals(us, r);
    BilledIsRounded(SumUsage(us), r);
    BillIsNear(us, r, Components(SumUsage(us), r).Total());
  }

  lemma {:induction false} PartsWithinSum(xs: seq<int>)
    requires forall i | 0 <= i < |xs| :: xs[i] >= 0
    ensures Sum(xs) >= 0 && forall i | 0 <= i < |xs| :: xs[i] <= Sum(xs)
  {
    if xs != [] {
      PartsWithinSum(xs[1..]);
      assert forall i | 1 <= i < |xs| :: xs[i] == xs[1..][i - 1];
    }
  }

  // ---- Growing prompts ------------------------------------------------------------------

  predicate RateNeverFalls(low: Option<int>, high: Option<int>) {
    (low.Some? <==> high.Some?) && (low.Some? ==> low.value <= high.value)
  }

  /** The higher rates publish the same components at rates that are no lower. */
  predicate RatesNeverFall(low: ModelRates, high: ModelRates) {
    && RateNeverFalls(low.input, high.input) && RateNeverFalls(low.output, high.output)
    && RateNeverFalls(low.cacheRead, high.cacheRead) && RateNeverFalls(low.cacheWrite, high.cacheWrite)
    && RateNeverFalls(low.reasoning, high.reasoning)
  }

  lemma {:induction false} ChargeGrows(low: Option<int>, high: Option<int>, a: int, b: int)
    requires RateNeverFalls(low, high) && NonNegativeRate(low) && a <= b
    ensures Charge(low, a) <= Charge(high, b)
  {
    if low.Some? {
      var x, y := Max0(a), Max0(b);
      assert x * low.value <= y * low.value <= y * high.value;
    }
  }

  lemma {:induction false} CostGrows(u: TokenUsage, more: int, low: ModelRates, high: ModelRates)
    requires RatesNeverFall(low, high) && NonNegativeRates(low) && u.tokensIn <= more
    ensures Components(u, low).Total() <= Components(u.(tokensIn := more), high).Total()
  {
    var v := u.(tokensIn := more);
    ChargeGrows(low.input, high.input, InputSlack(u, low), InputSlack(v, high));
    ChargeGrows(low.output, high.output, OutputSlack(u, low), OutputSlack(v, high));
    ChargeGrows(low.cacheRead, high.cacheRead, u.cacheRead, v.cacheRead);
    ChargeGrows(low.cacheWrite, high.cacheWrite, u.cacheWrite, v.cacheWrite);
    ChargeGrows(low.reasoning, high.reasoning, u.reasoning, v.reasoning);
  }

  function Effective(p: ModelPricing, band: Option<RateTier>, serviceTier: Option<string>): ModelRates {
    WithLane(WithBand(p.base, band), RequestedLane(p, serviceTier))
  }

  /** Successive effective bands, starting from the headline rates, publish the same components at
      rates that never fall. */
  predicate BandsNeverFall(p: ModelPricing, serviceTier: Option<string>) {
    && (forall t | t in p.tiers :: RatesNeverFall(Effective(p, None, serviceTier), Effective(p, Some(t), serviceTier)))
    && (forall s, t | s in p.tiers && t in p.tiers && s.aboveTokens < t.aboveTokens ::
          RatesNeverFall(Effective(p, Some(s), serviceTier), Effective(p, Some(t), serviceTier)))
  }

  lemma {:induction false} BandsOnlyRise(tiers: seq<RateTier>, low: int, high: int)
    requires low <= high && Band(tiers, low).Some?
    ensures Band(tiers, high).Some?
    ensures Band(tiers, low) == Band(tiers, high)
            || Band(tiers, low).value.aboveTokens < Band(tiers, high).value.aboveTokens
  {
    BandMeaning(tiers, low);
    BandMeaning(tiers, high);
    var s := Band(tiers, low).value;
    assert Applies(s, high);
    var t := Band(tiers, high).value;
    if s.aboveTokens == t.aboveTokens {
      ClassOfEquivalent(TierLeq, tiers, s, t);
    }
  }

  /** A longer prompt never costs less, across band boundaries too, as long as no band undercuts
      the one below it. */
  lemma {:induction false} LongerPromptsNeverCostLess(p: ModelPricing, u: TokenUsage, more: int,
      serviceTier: Option<string>)
    requires BandsNeverFall(p, serviceTier) && NonNegativeRates(Effective(p, None, serviceTier)) && u.tokensIn <= more
    ensures Components(u, ResolveRates(p, u.tokensIn, serviceTier)).Total()
            <= Components(u.(tokensIn := more), ResolveRates(p, more, serviceTier)).Total()
  {
    var low, high := Band(p.tiers, u.tokensIn), Band(p.tiers, more);
    BandMeaning(p.tiers, u.tokensIn);
    BandMeaning(p.tiers, more);
    if low.Some? {
      BandsOnlyRise(p.tiers, u.tokensIn, more);
    }
    assert RatesNeverFall(Effective(p, low, serviceTier), Effective(p, high, serviceTier));
    assert NonNegativeRates(Effective(p, low, serviceTier)) by {
      assert low.Some? ==> RatesNeverFall(Effective(p, None, serviceTier), Effective(p, low, serviceTier));
    }
    CostGrows(u, more, Effective(p, low, serviceTier), Effective(p, high, serviceTier));
  }

  function InputOnly(rate: int): ModelRates {
    ModelRates(Some(rate), None, None, None, None)
  }

  /** Without that condition it can: a band above `n` tokens that quotes a low enough input rate
      makes one more prompt token cheaper. */
  lemma {:induction false} CheaperBandUndercuts(n: int, high: int, low: int)
    requires n > 0 && (n + 1) * low < n * high
    ensures var p := ModelPricing(InputOnly(high), [RateTier(n, InputOnly(low))], []);
            var u := TokenUsage(n, 0, 0, 0, 0);
            && Components(u, ResolveRates(p, n, None)).Total() == n * high
            && Components(u.(tokensIn := n + 1), ResolveRates(p, n + 1, None)).Total() == (n + 1) * low
  {
    var t := RateTier(n, InputOnly(low));
    OneBand(t, n);
    OneBand(t, n + 1);
    InputOnlyCost(n, high);
    InputOnlyCost(n + 1, low);
  }

  function Prompts(n: int, calls: nat): (us: seq<TokenUsage>)
    ensures |us| == calls && forall i | 0 <= i < calls :: us[i] == TokenUsage(n, 0, 0, 0, 0)
  {
    seq(calls, _ => TokenUsage(n, 0, 0, 0, 0))
  }

  lemma {:induction false} SumOfPrompts(n: int, calls: nat)
    ensures SumUsage(Prompts(n, calls)) == TokenUsage(calls * n, 0, 0, 0, 0)
  {
    if calls > 0 {
      SumOfPrompts(n, calls - 1);
      assert Prompts(n, calls)[1..] == Prompts(n, calls - 1);
      assert calls * n == n + (calls - 1) * n;
    }
  }

  /** Additivity is a matter of one rate set, not of one model: prompts that each stay below a
      band's threshold can clear it once summed, and are then priced by a rate no call reached. */
  lemma {:induction false} SummedPromptsClearABand(n: int, calls: nat, above: int, low: int, high: int)
    requires 0 < n <= above < calls * n
    ensures var p := ModelPricing(InputOnly(low), [RateTier(above, InputOnly(high))], []);
            var us := Prompts(n, calls);
            && SumScaled(EachCall(us, ResolveRates(p, n, None))).Total() == calls * n * low
            && Components(SumUsage(us), ResolveRates(p, SumUsage(us).tokensIn, None)).Total() == calls * n * high
  {
    var t, us := RateTier(above, InputOnly(high)), Prompts(n, calls);
    SumOfPrompts(n, calls);
    OneBand(t, n);
    OneBand(t, calls * n);
    SummingFirstIsTheSame(us, InputOnly(low));
    InputOnlyCost(calls * n, low);
    InputOnlyCost(calls * n, high);
  }

  lemma {:induction false} InputOnlyCost(n: int, rate: int)
    requires n > 0
    ensures Components(TokenUsage(n, 0, 0, 0, 0), InputOnly(rate)).Total() == n * rate
  {
    var u, r := TokenUsage(n, 0, 0, 0, 0), InputOnly(rate);
    assert InputSlack(u, r) == n;
    assert Components(u, r) == Scaled(Charge(r.input, n), 0, 0, 0, 0, true);
  }

  lemma {:induction false} OneBand(t: RateTier, prompt: int)
    ensures Band([t], prompt) == if Applies(t, prompt) then Some(t) else None
  {
    assert [t][1..] == [];
  }
}
