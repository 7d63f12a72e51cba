/** Reading an upstream catalog document, from integer rates on: long-context bands in either of
    their two spellings, service lanes, normalized keys and a canonical order. The maps of the
    document are sequences here, in whatever order the map happens to be walked. */
module CatalogDocument {
  import opened CatalogSync
  import opened Order
  import opened PriceHistory
  import opened Pricing
  import opened Text
  import opened Wrappers

  /** A band; `size` is its threshold, `None` when missing or not finite. */
  datatype UpstreamTier = UpstreamTier(rates: ModelRates, size: Option<int>)

  datatype UpstreamCost = UpstreamCost(rates: ModelRates, tiers: seq<UpstreamTier>, contextOver200k: Option<ModelRates>)

  datatype UpstreamMode = UpstreamMode(name: string, cost: Option<ModelRates>)

  datatype UpstreamModel = UpstreamModel(id: string, cost: Option<UpstreamCost>, modes: seq<UpstreamMode>)

  datatype UpstreamProvider = UpstreamProvider(id: string, models: seq<UpstreamModel>)

  /** What a walk over a list collects when each element contributes a list of its own. */
  function FlatMap<T, U>(f: T -> seq<U>, s: seq<T>): seq<U> {
    if s == [] then [] else f(s[0]) + FlatMap(f, s[1..])
  }

  lemma {:induction false} FlatMapOne<T, U>(f: T -> seq<U>, x: T)
    ensures FlatMap(f, [x]) == f(x)
  {
    assert [x][1..] == [];
    assert FlatMap(f, []) == [];
  }

  lemma {:induction false} FlatMapAppend<T, U>(f: T -> seq<U>, a: seq<T>, b: seq<T>)
    ensures FlatMap(f, a + b) == FlatMap(f, a) + FlatMap(f, b)
  {
    if a == [] {
      assert a + b == b;
    } else {
      FlatMapAppend(f, a[1..], b);
      HeadAndTail(a, b);
      Regroup(f(a[0]), FlatMap(f, a[1..]), FlatMap(f, b));
    }
  }

  lemma {:induction false} HeadAndTail<T>(a: seq<T>, b: seq<T>)
    requires a != []
    ensures (a + b)[0] == a[0] && (a + b)[1..] == a[1..] + b
  {
  }

  lemma {:induction false} Regroup<T>(a: seq<T>, b: seq<T>, c: seq<T>)
    ensures (a + b) + c == a + (b + c)
  {
  }

  lemma {:induction false} FlatMapAround<T, U>(f: T -> seq<U>, a: seq<T>, x: T, b: seq<T>)
    ensures multiset(FlatMap(f, a + [x] + b)) == multiset(f(x)) + multiset(FlatMap(f, a + b))
  {
    FlatMapAppend(f, a, b);
    FlatMapAppend(f, a + [x], b);
    FlatMapAppend(f, a, [x]);
    FlatMapOne(f, x);
  }

  lemma {:induction false} RemoveAt<T>(t: seq<T>, j: nat)
    requires j < |t|
    ensures t == t[..j] + [t[j]] + t[j + 1..]
    ensures multiset(t[..j] + t[j + 1..]) == multiset(t) - multiset{t[j]}
  {
    assert t == t[..j] + [t[j]] + t[j + 1..];
  }

  /** Walking in another order collects the same elements. */
  lemma {:induction false} FlatMapPermutes<T, U>(f: T -> seq<U>, s: seq<T>, t: seq<T>)
    requires multiset(s) == multiset(t)
    ensures multiset(FlatMap(f, s)) == multiset(FlatMap(f, t))
  {
    if s == [] {
      assert |multiset(t)| == 0;
    } else {
      SplitHead(s);
      assert s[0] in multiset(s) && s[0] in multiset(t);
      var j :| 0 <= j < |t| && t[j] == s[0];
      RemoveAt(t, j);
      FlatMapPermutes(f, s[1..], t[..j] + t[j + 1..]);
      FlatMapAround(f, t[..j], t[j], t[j + 1..]);
    }
  }

  lemma {:induction false} FlatMapMember<T, U>(f: T -> seq<U>, s: seq<T>, u: U)
    requires u in FlatMap(f, s)
    ensures exists i | 0 <= i < |s| :: u in f(s[i])
  {
    if u !in f(s[0]) {
      FlatMapMember(f, s[1..], u);
      var i :| 0 <= i < |s[1..]| && u in f(s[1..][i]);
      assert u in f(s[i + 1]);
    }
  }

  // ---- One model ------------------------------------------------------------------------

  /** A lane without rates of its own is left out. */
  function LaneOf(mode: UpstreamMode): seq<ServiceTierRates> {
    if mode.cost.None? || mode.cost.value == NO_RATES then []
    else [ServiceTierRates(NormalizeModelKey(mode.name), mode.cost.value)]
  }

  /** A band without a non-negative threshold or without rates is left out. */
  function BandOf(tier: UpstreamTier): seq<RateTier> {
    if tier.size.None? || tier.size.value < 0 || tier.rates == NO_RATES then []
    else [RateTier(tier.size.value, tier.rates)]
  }

  const LEGACY_THRESHOLD: int := 200_000

  predicate HasThreshold(bands: seq<RateTier>, threshold: int) {
    exists i | 0 <= i < |bands| :: bands[i].aboveTokens == threshold
  }

  /** The older spelling adds its band only if it has rates and no listed band has its threshold. */
  function WithLegacy(bands: seq<RateTier>, legacy: Option<ModelRates>): seq<RateTier> {
    if legacy.Some? && legacy.value != NO_RATES && !HasThreshold(bands, LEGACY_THRESHOLD)
    then bands + [RateTier(LEGACY_THRESHOLD, legacy.value)] else bands
  }

  function Listed(cost: Option<UpstreamCost>, modes: seq<UpstreamMode>): ModelPricing {
    var lanes := FlatMap(LaneOf, modes);
    match cost
    case None => ModelPricing(NO_RATES, [], lanes)
    case Some(c) => ModelPricing(c.rates, WithLegacy(FlatMap(BandOf, c.tiers), c.contextOver200k), lanes)
  }

  function PricingFromUpstream(cost: Option<UpstreamCost>, modes: seq<UpstreamMode>): ModelPricing {
    Sorted(Listed(cost, modes))
  }

  /** The legacy spelling never makes two bands share a threshold. */
  lemma {:induction false} LegacyKeepsThresholdsDistinct(bands: seq<RateTier>, legacy: Option<ModelRates>)
    requires DistinctThresholds(bands)
    ensures DistinctThresholds(WithLegacy(bands, legacy))
  {
  }

  /** Both spellings of one surcharge give the same prices, so moving a model from the old to the
      new one is no rate change; and stating it both ways is stating it once. */
  lemma {:induction false} SpellingsAgree(c: UpstreamCost, modes: seq<UpstreamMode>, rates: ModelRates)
    requires rates != NO_RATES && !HasThreshold(FlatMap(BandOf, c.tiers), LEGACY_THRESHOLD)
    ensures var legacy := c.(contextOver200k := Some(rates));
            var listed := c.(tiers := c.tiers + [UpstreamTier(rates, Some(LEGACY_THRESHOLD))], contextOver200k := None);
            var both := listed.(contextOver200k := Some(rates));
            PricingFromUpstream(Some(legacy), modes) == PricingFromUpstream(Some(listed), modes)
              == PricingFromUpstream(Some(both), modes)
  {
    var tier := UpstreamTier(rates, Some(LEGACY_THRESHOLD));
    var bands := FlatMap(BandOf, c.tiers);
    FlatMapAppend(BandOf, c.tiers, [tier]);
    FlatMapOne(BandOf, tier);
    var more := bands + [RateTier(LEGACY_THRESHOLD, rates)];
    assert more[|bands|].aboveTokens == LEGACY_THRESHOLD;
    assert HasThreshold(more, LEGACY_THRESHOLD);
  }

  /** The order in which the bands and lanes of a model are listed does not matter, as long as no
      two bands share a threshold and no two lanes a normalized name. */
  lemma {:induction false} ListingOrderIsIrrelevant(c: UpstreamCost, tiers: seq<UpstreamTier>,
      modes: seq<UpstreamMode>, modes': seq<UpstreamMode>)
    requires multiset(c.tiers) == multiset(tiers) && multiset(modes) == multiset(modes')
    requires DistinctThresholds(FlatMap(BandOf, c.tiers)) && DistinctNames(FlatMap(LaneOf, modes))
    ensures PricingFromUpstream(Some(c), modes) == PricingFromUpstream(Some(c.(tiers := tiers)), modes')
  {
    var bands, bands' := FlatMap(BandOf, c.tiers), FlatMap(BandOf, tiers);
    FlatMapPermutes(BandOf, c.tiers, tiers);
    FlatMapPermutes(LaneOf, modes, modes');
    SameThresholds(bands, bands', LEGACY_THRESHOLD);
    LegacyKeepsThresholdsDistinct(bands, c.contextOver200k);
    var p := ModelPricing(c.rates, WithLegacy(bands, c.contextOver200k), FlatMap(LaneOf, modes));
    var q := ModelPricing(c.rates, WithLegacy(bands', c.contextOver200k), FlatMap(LaneOf, modes'));
    SortedAlike(p, q);
  }

  lemma {:induction false} SortedAlike(p: ModelPricing, q: ModelPricing)
    requires p.base == q.base && multiset(p.tiers) == multiset(q.tiers)
    requires multiset(p.serviceTiers) == multiset(q.serviceTiers)
    requires DistinctThresholds(p.tiers) && DistinctNames(p.serviceTiers)
    ensures Sorted(p) == Sorted(q)
  {
    DistinctIsUnambiguous(p);
    OrderIsIrrelevant(p, q, 0, None);
  }

  lemma {:induction false} SameThresholds(a: seq<RateTier>, b: seq<RateTier>, threshold: int)
    requires multiset(a) == multiset(b)
    ensures HasThreshold(a, threshold) <==> HasThreshold(b, threshold)
  {
    MembersOf(a, b);
    if i :| 0 <= i < |a| && a[i].aboveTokens == threshold {
      assert a[i] in b;
    }
    if j :| 0 <= j < |b| && b[j].aboveTokens == threshold {
      assert b[j] in a;
    }
  }

  // ---- The document ---------------------------------------------------------------------

  /** How a document's names and prices are brought into stored form. */
  datatype Form = Form(name: string -> string, prices: ModelPricing -> ModelPricing)

  function CatalogForm(): Form {
    Form(NormalizeModelKey, Sorted)
  }

  function RowOf(form: Form, provider: string): UpstreamModel -> seq<ModelPrice> {
    (m: UpstreamModel) =>
      if form.name(m.id) == "" then []
      else [ModelPrice(Key(provider, form.name(m.id)), form.prices(Listed(m.cost, m.modes)))]
  }

  function RowsOf(form: Form): UpstreamProvider -> seq<ModelPrice> {
    (p: UpstreamProvider) => if form.name(p.id) == "" then [] else FlatMap(RowOf(form, form.name(p.id)), p.models)
  }

  predicate KeyLeq(a: ModelPrice, b: ModelPrice) {
    CompareStrings(a.key.provider, b.key.provider).Then(CompareStrings(a.key.model, b.key.model)) != Greater
  }

  function Rows(form: Form, providers: seq<UpstreamProvider>): seq<ModelPrice> {
    FlatMap(RowsOf(form), providers)
  }

  function ParseCatalog(form: Form, providers: seq<UpstreamProvider>): seq<ModelPrice> {
    Sort(KeyLeq, Rows(form, providers))
  }

  predicate DistinctKeys(rows: seq<ModelPrice>) {
    forall i, j | 0 <= i < j < |rows| :: rows[i].key != rows[j].key
  }

  lemma {:induction false} SameKey(a: ModelPrice, b: ModelPrice)
    ensures Equivalent(KeyLeq, a, b) <==> a.key == b.key
  {
    LexicographicReverses(CodePoints(a.key.provider), CodePoints(b.key.provider));
    LexicographicReverses(CodePoints(a.key.model), CodePoints(b.key.model));
    LexicographicEquality(CodePoints(a.key.provider), CodePoints(b.key.provider));
    LexicographicEquality(CodePoints(a.key.model), CodePoints(b.key.model));
    if Equivalent(KeyLeq, a, b) {
      CodePointsInjective(a.key.provider, b.key.provider);
      CodePointsInjective(a.key.model, b.key.model);
    }
  }

  lemma {:induction false} KeysAreOrdered()
    ensures TotalPreorder(KeyLeq)
  {
    forall a, b
      ensures KeyLeq(a, b) || KeyLeq(b, a)
    {
      LexicographicReverses(CodePoints(a.key.provider), CodePoints(b.key.provider));
      LexicographicReverses(CodePoints(a.key.model), CodePoints(b.key.model));
    }
    forall a, b, c | KeyLeq(a, b) && KeyLeq(b, c)
      ensures KeyLeq(a, c)
    {
      KeyLeqTransitive(a, b, c);
    }
  }

  lemma {:induction false} KeyLeqTransitive(a: ModelPrice, b: ModelPrice, c: ModelPrice)
    requires KeyLeq(a, b) && KeyLeq(b, c)
    ensures KeyLeq(a, c)
  {
    LexicographicTransitive(CodePoints(a.key.provider), CodePoints(b.key.provider), CodePoints(c.key.provider));
    LexicographicEquality(CodePoints(a.key.provider), CodePoints(b.key.provider));
    LexicographicEquality(CodePoints(b.key.provider), CodePoints(c.key.provider));
    LexicographicEquality(CodePoints(a.key.provider), CodePoints(c.key.provider));
    if Lexicographic(CodePoints(a.key.provider), CodePoints(b.key.provider)) == Equal
       && Lexicographic(CodePoints(b.key.provider), CodePoints(c.key.provider)) == Equal {
      LexicographicTransitive(CodePoints(a.key.model), CodePoints(b.key.model), CodePoints(c.key.model));
    }
  }

  /** The keys and prices of a parsed row are already as the price table would store them. */
  ghost predicate Clean(st: Storage, row: ModelPrice) {
    st.normalize(row.key) == row.key && st.decode(row.pricing) == row.pricing
  }

  /** A form whose results the storage stores and returns unchanged. */
  ghost predicate Settles(st: Storage, form: Form) {
    && (forall a, b :: st.normalize(Key(form.name(a), form.name(b))) == Key(form.name(a), form.name(b)))
    && (forall p :: st.decode(form.prices(p)) == form.prices(p))
  }

  lemma {:induction false} OneRowIsClean(st: Storage, form: Form, id: string, m: UpstreamModel, row: ModelPrice)
    requires Settles(st, form) && row in RowOf(form, form.name(id))(m)
    ensures Clean(st, row)
  {
    var listed := Listed(m.cost, m.modes);
    assert row == ModelPrice(Key(form.name(id), form.name(m.id)), form.prices(listed));
  }

  lemma {:induction false} RowsAreClean(st: Storage, form: Form, p: UpstreamProvider, row: ModelPrice)
    requires Settles(st, form) && row in RowsOf(form)(p)
    ensures Clean(st, row)
  {
    var f := RowOf(form, form.name(p.id));
    FlatMapMember(f, p.models, row);
    var i :| 0 <= i < |p.models| && row in f(p.models[i]);
    OneRowIsClean(st, form, p.id, p.models[i], row);
  }

  lemma {:induction false} CleanRowsAreWellFormed(st: Storage, rows: seq<ModelPrice>)
    requires DistinctKeys(rows) && forall i | 0 <= i < |rows| :: Clean(st, rows[i])
    ensures WellFormedRows(st, rows)
  {
  }

  lemma {:induction false} PermutedKeysStayDistinct(rows: seq<ModelPrice>, sorted: seq<ModelPrice>)
    requires DistinctKeys(rows) && multiset(rows) == multiset(sorted)
    ensures DistinctKeys(sorted)
  {
    forall i, j | 0 <= i < j < |sorted|
      ensures sorted[i].key != sorted[j].key
    {
      if sorted[i].key == sorted[j].key {
        assert sorted[i] in multiset(rows) && sorted[j] in multiset(rows);
        assert sorted[i] == sorted[j];
        TwiceInMultiset(sorted, i, j);
        OnceInMultiset(rows, sorted[i]);
      }
    }
  }

  lemma {:induction false} TwiceInMultiset<T>(s: seq<T>, i: nat, j: nat)
    requires i < j < |s| && s[i] == s[j]
    ensures multiset(s)[s[i]] >= 2
  {
    assert s == s[..i] + [s[i]] + s[i + 1..j] + [s[j]] + s[j + 1..];
  }

  lemma {:induction false} OnceInMultiset(rows: seq<ModelPrice>, row: ModelPrice)
    requires DistinctKeys(rows)
    ensures multiset(rows)[row] <= 1
  {
    if rows != [] {
      SplitHead(rows);
      OnceInMultiset(rows[1..], row);
      if rows[0] == row {
        assert row !in rows[1..];
      }
    }
  }

  lemma {:induction false} FormSettles()
    ensures Settles(ModelPrices(), CatalogForm())
  {
    forall a, b
      ensures NormalizeKey(Key(NormalizeModelKey(a), NormalizeModelKey(b)))
              == Key(NormalizeModelKey(a), NormalizeModelKey(b))
    {
      TrimmedLowerIsStable(a);
      TrimmedLowerIsStable(b);
    }
    forall p
      ensures Sorted(Sorted(p)) == Sorted(p)
    {
      SortedIsCanonical(p);
    }
  }

  lemma {:induction false} ParsedIsWellFormedWith(st: Storage, form: Form, providers: seq<UpstreamProvider>)
    requires Settles(st, form) && DistinctKeys(Rows(form, providers))
    ensures WellFormedRows(st, ParseCatalog(form, providers))
    ensures multiset(ParseCatalog(form, providers)) == multiset(Rows(form, providers))
    ensures SortedBy(KeyLeq, ParseCatalog(form, providers))
  {
    var rows, parsed := Rows(form, providers), ParseCatalog(form, providers);
    KeysAreOrdered();
    SortFacts(KeyLeq, rows);
    PermutedKeysStayDistinct(rows, parsed);
    MembersOf(rows, parsed);
    forall i | 0 <= i < |parsed|
      ensures Clean(st, parsed[i])
    {
      FlatMapMember(RowsOf(form), providers, parsed[i]);
      var p :| 0 <= p < |providers| && parsed[i] in RowsOf(form)(providers[p]);
      RowsAreClean(st, form, providers[p], parsed[i]);
    }
    CleanRowsAreWellFormed(st, parsed);
  }

  /** A parsed document is what a sync expects, provided no two of its models have the same
      normalized provider and model. */
  lemma {:induction false} ParsedIsWellFormed(providers: seq<UpstreamProvider>)
    requires DistinctKeys(Rows(CatalogForm(), providers))
    ensures WellFormedRows(ModelPrices(), ParseCatalog(CatalogForm(), providers))
  {
    FormSettles();
    ParsedIsWellFormedWith(ModelPrices(), CatalogForm(), providers);
  }

  // ---- What a document says -------------------------------------------------------------

  lemma {:induction false} FlatMapHas<T, U>(f: T -> seq<U>, s: seq<T>, i: nat, u: U)
    requires i < |s| && u in f(s[i])
    ensures u in FlatMap(f, s)
  {
    if i > 0 {
      FlatMapHas(f, s[1..], i - 1, u);
    }
  }

  lemma {:induction false} FlatMapMembers<T, U>(f: T -> seq<U>, s: seq<T>, u: U)
    ensures u in FlatMap(f, s) <==> exists i | 0 <= i < |s| :: u in f(s[i])
  {
    if u in FlatMap(f, s) {
      FlatMapMember(f, s, u);
    }
    forall i | 0 <= i < |s| && u in f(s[i])
      ensures u in FlatMap(f, s)
    {
      FlatMapHas(f, s, i, u);
    }
  }

  /** A listed band, unless it has no rates or no threshold from zero up. */
  predicate ListsBand(tier: UpstreamTier, t: RateTier) {
    tier.size == Some(t.aboveTokens) && t.aboveTokens >= 0 && tier.rates == t.rates && PublishesSome(t.rates)
  }

  /** A lane under its normalized name, unless it has no rates. */
  predicate ListsLane(name: string -> string, mode: UpstreamMode, l: ServiceTierRates) {
    mode.cost == Some(l.rates) && l.tier == name(mode.name) && PublishesSome(l.rates)
  }

  predicate ListsThreshold(tiers: seq<UpstreamTier>, threshold: int) {
    exists i | 0 <= i < |tiers| ::
      tiers[i].size == Some(threshold) && threshold >= 0 && PublishesSome(tiers[i].rates)
  }

  lemma {:induction false} BandOfMeaning(tier: UpstreamTier, t: RateTier)
    ensures t in BandOf(tier) <==> ListsBand(tier, t)
  {
    NoRatesPublishNothing(tier.rates);
  }

  lemma {:induction false} LaneOfMeaning(mode: UpstreamMode, l: ServiceTierRates, name: string -> string)
    requires name == NormalizeModelKey
    ensures l in LaneOf(mode) <==> ListsLane(name, mode, l)
  {
    if mode.cost.Some? {
      NoRatesPublishNothing(mode.cost.value);
    }
  }

  lemma {:induction false} BandsMeaning(tiers: seq<UpstreamTier>, t: RateTier)
    ensures t in FlatMap(BandOf, tiers) <==> exists i | 0 <= i < |tiers| :: ListsBand(tiers[i], t)
  {
    FlatMapMembers(BandOf, tiers, t);
    forall i | 0 <= i < |tiers|
      ensures t in BandOf(tiers[i]) <==> ListsBand(tiers[i], t)
    {
      BandOfMeaning(tiers[i], t);
    }
  }

  lemma {:induction false} ThresholdsMeaning(tiers: seq<UpstreamTier>, threshold: int)
    ensures HasThreshold(FlatMap(BandOf, tiers), threshold) <==> ListsThreshold(tiers, threshold)
  {
    var bands := FlatMap(BandOf, tiers);
    if HasThreshold(bands, threshold) {
      var k :| 0 <= k < |bands| && bands[k].aboveTokens == threshold;
      BandsMeaning(tiers, bands[k]);
    }
    if ListsThreshold(tiers, threshold) {
      var i :| 0 <= i < |tiers| && tiers[i].size == Some(threshold) && threshold >= 0 && PublishesSome(tiers[i].rates);
      var t := RateTier(threshold, tiers[i].rates);
      BandsMeaning(tiers, t);
      assert ListsBand(tiers[i], t);
      var k :| 0 <= k < |bands| && bands[k] == t;
    }
  }

  lemma {:induction false} LanesMeaning(modes: seq<UpstreamMode>, l: ServiceTierRates, name: string -> string)
    requires name == NormalizeModelKey
    ensures l in FlatMap(LaneOf, modes) <==> exists i | 0 <= i < |modes| :: ListsLane(name, modes[i], l)
  {
    FlatMapMembers(LaneOf, modes, l);
    forall i | 0 <= i < |modes|
      ensures l in LaneOf(modes[i]) <==> ListsLane(name, modes[i], l)
    {
      LaneOfMeaning(modes[i], l, name);
    }
  }

  /** The bands of a model: those listed, and the one above 200 000 tokens in its older spelling unless it has no
      rates or a listed one has that threshold. */
  predicate HasBand(cost: UpstreamCost, t: RateTier) {
    || (exists i | 0 <= i < |cost.tiers| :: ListsBand(cost.tiers[i], t))
    || (t.aboveTokens == 200_000 && cost.contextOver200k == Some(t.rates) && PublishesSome(t.rates)
        && !ListsThreshold(cost.tiers, 200_000))
  }

  lemma {:induction false} LegacyMeaning(bands: seq<RateTier>, legacy: Option<ModelRates>, t: RateTier)
    ensures t in WithLegacy(bands, legacy) <==>
            || t in bands
            || (t.aboveTokens == 200_000 && legacy == Some(t.rates) && PublishesSome(t.rates)
                && !HasThreshold(bands, 200_000))
  {
    if legacy.Some? {
      NoRatesPublishNothing(legacy.value);
    }
  }

  lemma {:induction false} BandsOfCost(cost: UpstreamCost, t: RateTier)
    ensures t in WithLegacy(FlatMap(BandOf, cost.tiers), cost.contextOver200k) <==> HasBand(cost, t)
  {
    BandsMeaning(cost.tiers, t);
    ThresholdsMeaning(cost.tiers, 200_000);
    LegacyMeaning(FlatMap(BandOf, cost.tiers), cost.contextOver200k, t);
  }

  lemma {:induction false} ListedMeaning(cost: Option<UpstreamCost>, modes: seq<UpstreamMode>, t: RateTier,
                                         l: ServiceTierRates, name: string -> string)
    requires name == NormalizeModelKey
    ensures Listed(cost, modes).base == if cost.Some? then cost.value.rates else NO_RATES
    ensures t in Listed(cost, modes).tiers <==> cost.Some? && HasBand(cost.value, t)
    ensures l in Listed(cost, modes).serviceTiers <==> exists i | 0 <= i < |modes| :: ListsLane(name, modes[i], l)
  {
    LanesMeaning(modes, l, name);
    if cost.Some? {
      BandsOfCost(cost.value, t);
    }
  }

  lemma {:induction false} SortingKeepsMembers(p: ModelPricing, t: RateTier, l: ServiceTierRates)
    ensures t in Sorted(p).tiers <==> t in p.tiers
    ensures l in Sorted(p).serviceTiers <==> l in p.serviceTiers
    ensures |Sorted(p).tiers| == |p.tiers| && |Sorted(p).serviceTiers| == |p.serviceTiers|
  {
    LanesAreOrdered();
    SortFacts(TierLeq, p.tiers);
    SortFacts(LaneLeq, p.serviceTiers);
    MembersOf(p.tiers, Sorted(p).tiers);
    MembersOf(p.serviceTiers, Sorted(p).serviceTiers);
    assert |multiset(p.tiers)| == |p.tiers| && |multiset(p.serviceTiers)| == |p.serviceTiers|;
    assert |multiset(Sorted(p).tiers)| == |Sorted(p).tiers|;
    assert |multiset(Sorted(p).serviceTiers)| == |Sorted(p).serviceTiers|;
  }

  /** What a model's entry comes to: its headline rates, exactly its usable bands and exactly its usable lanes. */
  lemma {:induction false} PricingMeaning(cost: Option<UpstreamCost>, modes: seq<UpstreamMode>, t: RateTier,
                                          l: ServiceTierRates, name: string -> string)
    requires name == NormalizeModelKey
    ensures PricingFromUpstream(cost, modes).base == if cost.Some? then cost.value.rates else NO_RATES
    ensures t in PricingFromUpstream(cost, modes).tiers <==> cost.Some? && HasBand(cost.value, t)
    ensures l in PricingFromUpstream(cost, modes).serviceTiers <==>
            exists i | 0 <= i < |modes| :: ListsLane(name, modes[i], l)
  {
    ListedMeaning(cost, modes, t, l, name);
    SortingKeepsMembers(Listed(cost, modes), t, l);
  }

  /** The row of a model of a provider, unless one of their normalized names is empty. */
  predicate Describes(name: string -> string, p: UpstreamProvider, m: UpstreamModel, row: ModelPrice) {
    && name(p.id) != "" && name(m.id) != "" && row.key == Key(name(p.id), name(m.id))
    && row.pricing == PricingFromUpstream(m.cost, m.modes)
  }

  lemma {:induction false} ProviderMeaning(form: Form, p: UpstreamProvider, row: ModelPrice)
    requires form.prices == Sorted
    ensures row in RowsOf(form)(p) <==> exists k | 0 <= k < |p.models| :: Describes(form.name, p, p.models[k], row)
  {
    var f := RowOf(form, form.name(p.id));
    FlatMapMembers(f, p.models, row);
    forall k | 0 <= k < |p.models|
      ensures form.name(p.id) != "" ==> (row in f(p.models[k]) <==> Describes(form.name, p, p.models[k], row))
    {
    }
  }

  /** Both parts of the key in the order of their characters, the provider first. */
  ghost predicate InOrder(a: Key, b: Key) {
    if a.provider == b.provider then a.model == b.model || Smaller(a.model, b.model)
    else Smaller(a.provider, b.provider)
  }

  lemma {:induction false} LeqIsInOrder(a: ModelPrice, b: ModelPrice)
    requires KeyLeq(a, b)
    ensures InOrder(a.key, b.key)
  {
    StringsCompare(a.key.provider, b.key.provider);
    StringsCompare(a.key.model, b.key.model);
    LexicographicEquality(CodePoints(a.key.provider), CodePoints(b.key.provider));
    LexicographicEquality(CodePoints(a.key.model), CodePoints(b.key.model));
    if CodePoints(a.key.provider) == CodePoints(b.key.provider) {
      CodePointsInjective(a.key.provider, b.key.provider);
    }
    if CodePoints(a.key.model) == CodePoints(b.key.model) {
      CodePointsInjective(a.key.model, b.key.model);
    }
  }

  /** What is parsed: exactly the rows of the models whose names are not blank, in key order. */
  lemma {:induction false} ParsedMeaning(providers: seq<UpstreamProvider>, row: ModelPrice, form: Form)
    requires form.name == NormalizeModelKey && form == CatalogForm()
    ensures row in ParseCatalog(form, providers) <==>
            exists i, k | 0 <= i < |providers| && 0 <= k < |providers[i].models| ::
              Describes(form.name, providers[i], providers[i].models[k], row)
    ensures var parsed := ParseCatalog(form, providers);
            forall i, j | 0 <= i < j < |parsed| :: InOrder(parsed[i].key, parsed[j].key)
  {
    var rows, parsed := Rows(form, providers), ParseCatalog(form, providers);
    KeysAreOrdered();
    SortFacts(KeyLeq, rows);
    MembersOf(rows, parsed);
    FlatMapMembers(RowsOf(form), providers, row);
    forall i | 0 <= i < |providers|
      ensures row in RowsOf(form)(providers[i]) <==>
              exists k | 0 <= k < |providers[i].models| ::
                Describes(form.name, providers[i], providers[i].models[k], row)
    {
      ProviderMeaning(form, providers[i], row);
    }
    forall i, j | 0 <= i < j < |parsed|
      ensures InOrder(parsed[i].key, parsed[j].key)
    {
      LeqIsInOrder(parsed[i], parsed[j]);
    }
  }

  lemma {:induction false} FlatMapNext<T, U>(f: T -> seq<U>, s: seq<T>, i: nat)
    requires i < |s|
    ensures FlatMap(f, s[..i + 1]) == FlatMap(f, s[..i]) + f(s[i])
  {
    assert s[..i + 1] == s[..i] + [s[i]];
    FlatMapAppend(f, s[..i], [s[i]]);
    FlatMapOne(f, s[i]);
  }

  method Parse(form: Form, providers: seq<UpstreamProvider>) returns (rows: seq<ModelPrice>)
    ensures rows == ParseCatalog(form, providers)
  {
    rows := [];
    for i := 0 to |providers|
      invariant rows == FlatMap(RowsOf(form), providers[..i])
    {
      var more := ParseProvider(form, providers[i]);
      FlatMapNext(RowsOf(form), providers, i);
      rows := rows + more;
    }
    assert providers[..|providers|] == providers;
    rows := Sort(KeyLeq, rows);
  }

  method ParseProvider(form: Form, p: UpstreamProvider) returns (rows: seq<ModelPrice>)
    ensures rows == RowsOf(form)(p)
  {
    rows := [];
    var provider := form.name(p.id);
    if provider == "" {
      return;
    }
    var f := RowOf(form, provider);
    for j := 0 to |p.models|
      invariant rows == FlatMap(f, p.models[..j])
    {
      FlatMapNext(f, p.models, j);
      rows := rows + f(p.models[j]);
    }
    assert p.models[..|p.models|] == p.models;
  }
}
