/** The maps of a catalog document are walked in no particular order: the providers, the models of a
    provider, and the service lanes of a model. When the parsed catalog depends on the walk. */
module CatalogWalks {
  import opened CatalogDocument
  import opened CatalogSync
  import opened Order
  import opened PriceHistory
  import opened Pricing
  import opened Wrappers

  // ---- Walks ----------------------------------------------------------------------------

  /** `t` lists what `s` lists, in another order and with each element replaced by one like it. */
  ghost predicate Rearranged<T(!new)>(alike: (T, T) -> bool, s: seq<T>, t: seq<T>) {
    exists mid: seq<T> :: multiset(mid) == multiset(s) && Pairwise(alike, mid, t)
  }

  predicate Pairwise<T>(alike: (T, T) -> bool, s: seq<T>, t: seq<T>) {
    |s| == |t| && forall i | 0 <= i < |s| :: alike(s[i], t[i])
  }

  /** One model, its lanes walked in any order. */
  predicate SameModel(m: UpstreamModel, n: UpstreamModel) {
    m.id == n.id && m.cost == n.cost && multiset(m.modes) == multiset(n.modes)
  }

  /** One provider, its models walked in any order. */
  ghost predicate SameProvider(p: UpstreamProvider, q: UpstreamProvider) {
    p.id == q.id && Rearranged(SameModel, p.models, q.models)
  }

  /** One document, every map of it walked in any order. */
  ghost predicate SameDocument(providers: seq<UpstreamProvider>, others: seq<UpstreamProvider>) {
    Rearranged(SameProvider, providers, others)
  }

  ghost predicate EveryWalkParsesAlike(form: Form, providers: seq<UpstreamProvider>) {
    forall others | SameDocument(providers, others) :: ParseCatalog(form, others) == ParseCatalog(form, providers)
  }

  // ---- What does not depend on the walk -------------------------------------------------

  /** Lanes that share a normalized name are the same lane. */
  predicate ClearLanes(m: UpstreamModel) {
    Order.Unambiguous(LaneLeq, FlatMap(LaneOf, m.modes))
  }

  /** So it is for every model that makes it into the catalog. */
  predicate LanesAreClear(form: Form, providers: seq<UpstreamProvider>) {
    forall i, j | 0 <= i < |providers| && form.name(providers[i].id) != ""
                  && 0 <= j < |providers[i].models| && form.name(providers[i].models[j].id) != "" ::
      ClearLanes(providers[i].models[j])
  }

  /** The form does not see the order of clear lanes. */
  ghost predicate IgnoresLaneOrder(form: Form) {
    forall m, n | SameModel(m, n) && ClearLanes(m) ::
             form.prices(Listed(m.cost, m.modes)) == form.prices(Listed(n.cost, n.modes))
  }

  lemma {:induction false} PairwisePermutes<T(!new), U>(f: T -> seq<U>, alike: (T, T) -> bool, s: seq<T>, t: seq<T>)
    requires Pairwise(alike, s, t) && forall x, y | x in s && alike(x, y) :: multiset(f(x)) == multiset(f(y))
    ensures multiset(FlatMap(f, s)) == multiset(FlatMap(f, t))
  {
    if s != [] {
      assert s[0] in s && forall x | x in s[1..] :: x in s;
      PairwisePermutes(f, alike, s[1..], t[1..]);
      assert alike(s[0], t[0]);
    }
  }

  lemma {:induction false} RearrangedPermutes<T(!new), U>(f: T -> seq<U>, alike: (T, T) -> bool, s: seq<T>, t: seq<T>)
    requires Rearranged(alike, s, t) && forall x, y | x in s && alike(x, y) :: multiset(f(x)) == multiset(f(y))
    ensures multiset(FlatMap(f, s)) == multiset(FlatMap(f, t))
  {
    var mid: seq<T> :| multiset(mid) == multiset(s) && Pairwise(alike, mid, t);
    MembersOf(s, mid);
    FlatMapPermutes(f, s, mid);
    PairwisePermutes(f, alike, mid, t);
  }

  lemma {:induction false} LanesSortAlike(m: UpstreamModel, n: UpstreamModel)
    requires SameModel(m, n) && ClearLanes(m)
    ensures Sorted(Listed(m.cost, m.modes)) == Sorted(Listed(n.cost, n.modes))
  {
    LanesAreOrdered();
    FlatMapPermutes(LaneOf, m.modes, n.modes);
    ReorderingSortsAlike(LaneLeq, FlatMap(LaneOf, m.modes), FlatMap(LaneOf, n.modes));
  }

  lemma {:induction false} SameModelSameRow(form: Form, provider: string, m: UpstreamModel, n: UpstreamModel)
    requires IgnoresLaneOrder(form) && SameModel(m, n) && (form.name(m.id) != "" ==> ClearLanes(m))
    ensures RowOf(form, provider)(m) == RowOf(form, provider)(n)
  {
  }

  lemma {:induction false} SameProviderSameRows(form: Form, p: UpstreamProvider, q: UpstreamProvider)
    requires IgnoresLaneOrder(form) && SameProvider(p, q)
    requires form.name(p.id) != "" ==> forall m | m in p.models && form.name(m.id) != "" :: ClearLanes(m)
    ensures multiset(RowsOf(form)(p)) == multiset(RowsOf(form)(q))
  {
    if form.name(p.id) != "" {
      var f := RowOf(form, form.name(p.id));
      forall m, n | m in p.models && SameModel(m, n)
        ensures multiset(f(m)) == multiset(f(n))
      {
        SameModelSameRow(form, form.name(p.id), m, n);
      }
      RearrangedPermutes(f, SameModel, p.models, q.models);
    }
  }

  lemma {:induction false} SameDocumentSameRows(form: Form, providers: seq<UpstreamProvider>,
                                                others: seq<UpstreamProvider>)
    requires IgnoresLaneOrder(form) && LanesAreClear(form, providers) && SameDocument(providers, others)
    ensures multiset(Rows(form, providers)) == multiset(Rows(form, others))
  {
    forall p, q | p in providers && SameProvider(p, q)
      ensures multiset(RowsOf(form)(p)) == multiset(RowsOf(form)(q))
    {
      SameProviderSameRows(form, p, q);
    }
    RearrangedPermutes(RowsOf(form), SameProvider, providers, others);
  }

  lemma {:induction false} ClearWalksAgree(form: Form, providers: seq<UpstreamProvider>, others: seq<UpstreamProvider>)
    requires IgnoresLaneOrder(form) && LanesAreClear(form, providers) && SameDocument(providers, others)
    requires Order.Unambiguous(KeyLeq, Rows(form, providers))
    ensures ParseCatalog(form, others) == ParseCatalog(form, providers)
  {
    KeysAreOrdered();
    SameDocumentSameRows(form, providers, others);
    ReorderingSortsAlike(KeyLeq, Rows(form, providers), Rows(form, others));
  }

  // ---- Walking one element first --------------------------------------------------------

  /** The list with `x` in front in place of the element at `i`. */
  function FrontWith<T>(s: seq<T>, i: nat, x: T): seq<T>
    requires i < |s|
  {
    [x] + (s[..i] + s[i + 1..])
  }

  lemma {:induction false} FrontPermutes<T>(s: seq<T>, i: nat)
    requires i < |s|
    ensures multiset(FrontWith(s, i, s[i])) == multiset(s)
  {
    RemoveAt(s, i);
  }

  lemma {:induction false} FrontRearranges<T(!new)>(alike: (T, T) -> bool, s: seq<T>, i: nat, x: T)
    requires i < |s| && alike(s[i], x) && forall y :: alike(y, y)
    ensures Rearranged(alike, s, FrontWith(s, i, x))
  {
    FrontPermutes(s, i);
    assert Pairwise(alike, FrontWith(s, i, s[i]), FrontWith(s, i, x));
  }

  lemma {:induction false} FlatMapFront<T, U>(f: T -> seq<U>, s: seq<T>, i: nat, x: T)
    requires i < |s| && f(x) != []
    ensures FlatMap(f, FrontWith(s, i, x)) != [] && FlatMap(f, FrontWith(s, i, x))[0] == f(x)[0]
  {
    assert FrontWith(s, i, x)[1..] == s[..i] + s[i + 1..];
  }

  lemma {:induction false} ProvidersAreThemselves()
    ensures forall p :: SameProvider(p, p)
  {
    forall p: UpstreamProvider
      ensures SameProvider(p, p)
    {
      assert Pairwise(SameModel, p.models, p.models);
    }
  }

  /** The provider at `i` walked first, its model at `j` first and in the guise of `m`. */
  function WalkFirst(providers: seq<UpstreamProvider>, i: nat, j: nat, m: UpstreamModel): seq<UpstreamProvider>
    requires i < |providers| && j < |providers[i].models|
  {
    FrontWith(providers, i, UpstreamProvider(providers[i].id, FrontWith(providers[i].models, j, m)))
  }

  lemma {:induction false} WalkFirstIsAWalk(providers: seq<UpstreamProvider>, i: nat, j: nat, m: UpstreamModel)
    requires i < |providers| && j < |providers[i].models| && SameModel(providers[i].models[j], m)
    ensures SameDocument(providers, WalkFirst(providers, i, j, m))
  {
    FrontRearranges(SameModel, providers[i].models, j, m);
    ProvidersAreThemselves();
    FrontRearranges(SameProvider, providers, i,
                    UpstreamProvider(providers[i].id, FrontWith(providers[i].models, j, m)));
  }

  lemma {:induction false} WalkFirstRow(form: Form, providers: seq<UpstreamProvider>, i: nat, j: nat, m: UpstreamModel)
    requires i < |providers| && j < |providers[i].models|
    requires form.name(providers[i].id) != "" && form.name(m.id) != ""
    ensures var rows := Rows(form, WalkFirst(providers, i, j, m));
            rows != [] && [rows[0]] == RowOf(form, form.name(providers[i].id))(m)
  {
    var p := UpstreamProvider(providers[i].id, FrontWith(providers[i].models, j, m));
    FlatMapFront(RowOf(form, form.name(p.id)), providers[i].models, j, m);
    FlatMapFront(RowsOf(form), providers, i, p);
  }

  /** Two walks that start with different rows of one key parse differently, so not every walk
      parses alike. */
  lemma {:induction false} FirstRowsDecide(form: Form, providers: seq<UpstreamProvider>, a: seq<UpstreamProvider>,
                                           b: seq<UpstreamProvider>)
    requires SameDocument(providers, a) && SameDocument(providers, b) && Rows(form, a) != [] && Rows(form, b) != []
    requires Rows(form, a)[0].key == Rows(form, b)[0].key && Rows(form, a)[0] != Rows(form, b)[0]
    ensures !EveryWalkParsesAlike(form, providers)
  {
    KeysAreOrdered();
    SameKey(Rows(form, a)[0], Rows(form, b)[0]);
    HeadsDecide(KeyLeq, Rows(form, a), Rows(form, b));
  }

  // ---- Rows that clash ------------------------------------------------------------------

  /** The model a row comes from. */
  lemma {:induction false} RowOrigin(form: Form, providers: seq<UpstreamProvider>, row: ModelPrice)
    returns (i: nat, j: nat)
    requires row in Rows(form, providers)
    ensures i < |providers| && j < |providers[i].models|
    ensures form.name(providers[i].id) != "" && form.name(providers[i].models[j].id) != ""
    ensures RowOf(form, form.name(providers[i].id))(providers[i].models[j]) == [row]
  {
    FlatMapMember(RowsOf(form), providers, row);
    i :| 0 <= i < |providers| && row in RowsOf(form)(providers[i]);
    var f := RowOf(form, form.name(providers[i].id));
    FlatMapMember(f, providers[i].models, row);
    j :| 0 <= j < |providers[i].models| && row in f(providers[i].models[j]);
  }

  lemma {:induction false} RowWalkedFirst(form: Form, providers: seq<UpstreamProvider>, row: ModelPrice)
    returns (walk: seq<UpstreamProvider>)
    requires row in Rows(form, providers)
    ensures SameDocument(providers, walk) && Rows(form, walk) != [] && Rows(form, walk)[0] == row
  {
    var i, j := RowOrigin(form, providers, row);
    var m := providers[i].models[j];
    walk := WalkFirst(providers, i, j, m);
    WalkFirstIsAWalk(providers, i, j, m);
    WalkFirstRow(form, providers, i, j, m);
  }

  lemma {:induction false} ClashingRowsShow(form: Form, providers: seq<UpstreamProvider>)
    requires !Order.Unambiguous(KeyLeq, Rows(form, providers))
    ensures !EveryWalkParsesAlike(form, providers)
  {
    var rows := Rows(form, providers);
    var x, y :| 0 <= x < y < |rows| && Equivalent(KeyLeq, rows[x], rows[y]) && rows[x] != rows[y];
    SameKey(rows[x], rows[y]);
    var a := RowWalkedFirst(form, providers, rows[x]);
    var b := RowWalkedFirst(form, providers, rows[y]);
    FirstRowsDecide(form, providers, a, b);
  }

  // ---- Lanes that clash -----------------------------------------------------------------

  /** Whatever a walk collects one by one can be collected first. */
  lemma {:induction false} CollectedFirst<T(!new), U>(f: T -> seq<U>, s: seq<T>, u: U) returns (t: seq<T>)
    requires u in FlatMap(f, s) && forall x :: |f(x)| <= 1
    ensures multiset(t) == multiset(s) && FlatMap(f, t) != [] && FlatMap(f, t)[0] == u
  {
    FlatMapMember(f, s, u);
    var i :| 0 <= i < |s| && u in f(s[i]);
    t := FrontWith(s, i, s[i]);
    FrontPermutes(s, i);
    FlatMapFront(f, s, i, s[i]);
  }

  lemma {:induction false} AtMostOneLane(mode: UpstreamMode)
    ensures |LaneOf(mode)| <= 1
  {
  }

  /** The model with the lane walked first. */
  lemma {:induction false} LaneWalkedFirst(m: UpstreamModel, lane: ServiceTierRates) returns (n: UpstreamModel)
    requires lane in FlatMap(LaneOf, m.modes)
    ensures SameModel(m, n) && FlatMap(LaneOf, n.modes) != [] && FlatMap(LaneOf, n.modes)[0] == lane
  {
    forall mode
      ensures |LaneOf(mode)| <= 1
    {
      AtMostOneLane(mode);
    }
    var modes := CollectedFirst(LaneOf, m.modes, lane);
    n := m.(modes := modes);
  }

  /** Two lanes of one name and different rates: the price list is one or the other. */
  lemma {:induction false} ClashingLanes(m: UpstreamModel) returns (a: UpstreamModel, b: UpstreamModel)
    requires !ClearLanes(m)
    ensures SameModel(m, a) && SameModel(m, b)
    ensures Sorted(Listed(a.cost, a.modes)) != Sorted(Listed(b.cost, b.modes))
  {
    var lanes := FlatMap(LaneOf, m.modes);
    var x, y :| 0 <= x < y < |lanes| && Equivalent(LaneLeq, lanes[x], lanes[y]) && lanes[x] != lanes[y];
    a := LaneWalkedFirst(m, lanes[x]);
    b := LaneWalkedFirst(m, lanes[y]);
    LanesAreOrdered();
    HeadsDecide(LaneLeq, FlatMap(LaneOf, a.modes), FlatMap(LaneOf, b.modes));
    ListedLanes(a);
    ListedLanes(b);
  }

  lemma {:induction false} ListedLanes(m: UpstreamModel)
    ensures Listed(m.cost, m.modes).serviceTiers == FlatMap(LaneOf, m.modes)
  {
  }

  lemma {:induction false} ClashingModelShows(form: Form, providers: seq<UpstreamProvider>, i: nat, j: nat,
                                              a: UpstreamModel, b: UpstreamModel)
    requires i < |providers| && j < |providers[i].models| && form.name(providers[i].id) != ""
    requires SameModel(providers[i].models[j], a) && SameModel(providers[i].models[j], b) && form.name(a.id) != ""
    requires form.prices(Listed(a.cost, a.modes)) != form.prices(Listed(b.cost, b.modes))
    ensures !EveryWalkParsesAlike(form, providers)
  {
    WalkFirstIsAWalk(providers, i, j, a);
    WalkFirstIsAWalk(providers, i, j, b);
    WalkFirstRow(form, providers, i, j, a);
    WalkFirstRow(form, providers, i, j, b);
    FirstRowsDecide(form, providers, WalkFirst(providers, i, j, a), WalkFirst(providers, i, j, b));
  }

  lemma {:induction false} ClashingLanesShow(providers: seq<UpstreamProvider>)
    requires !LanesAreClear(CatalogForm(), providers)
    ensures !EveryWalkParsesAlike(CatalogForm(), providers)
  {
    var form := CatalogForm();
    var i, j :| 0 <= i < |providers| && form.name(providers[i].id) != ""
      && 0 <= j < |providers[i].models| && form.name(providers[i].models[j].id) != ""
         && !ClearLanes(providers[i].models[j]);
    var a, b := ClashingLanes(providers[i].models[j]);
    ClashingModelShows(form, providers, i, j, a, b);
  }

  /** Exactly when the parsed catalog does not depend on how the maps of its document are walked, of
      providers, of models and of lanes alike: rows that share a key must be the same row, and in
      every model that makes it into the catalog lanes that share a name must be the same lane. */
  lemma {:induction false} WalkOrderIsIrrelevantExactly(providers: seq<UpstreamProvider>)
    ensures EveryWalkParsesAlike(CatalogForm(), providers) <==>
            Order.Unambiguous(KeyLeq, Rows(CatalogForm(), providers)) && LanesAreClear(CatalogForm(), providers)
  {
    var form := CatalogForm();
    if !LanesAreClear(form, providers) {
      ClashingLanesShow(providers);
    } else if !Order.Unambiguous(KeyLeq, Rows(form, providers)) {
      ClashingRowsShow(form, providers);
    } else {
      forall m, n | SameModel(m, n) && ClearLanes(m)
        ensures form.prices(Listed(m.cost, m.modes)) == form.prices(Listed(n.cost, n.modes))
      {
        LanesSortAlike(m, n);
      }
      forall others | SameDocument(providers, others)
        ensures ParseCatalog(form, others) == ParseCatalog(form, providers)
      {
        ClearWalksAgree(form, providers, others);
      }
    }
  }

  // ---- Inputs that fail -----------------------------------------------------------------

  lemma {:induction false} FlatMapTwo<T, U>(f: T -> seq<U>, x: T, y: T, u: U, v: U)
    requires f(x) == [u] && f(y) == [v]
    ensures FlatMap(f, [x, y]) == [u, v]
  {
    assert [x, y] == [x] + [y];
    FlatMapAppend(f, [x], [y]);
    FlatMapOne(f, x);
    FlatMapOne(f, y);
  }

  /** A provider that lists one model twice, under two spellings of its name and at two prices. */
  lemma {:induction false} RepeatedModelDependsOnWalk(form: Form, id: string, m: UpstreamModel, n: UpstreamModel,
                                                      a: ModelPrice, b: ModelPrice)
    requires form.name(id) != "" && RowOf(form, form.name(id))(m) == [a] && RowOf(form, form.name(id))(n) == [b]
    requires form.name(m.id) == form.name(n.id)
    requires form.prices(Listed(m.cost, m.modes)) != form.prices(Listed(n.cost, n.modes))
    ensures !EveryWalkParsesAlike(form, [UpstreamProvider(id, [m, n])])
  {
    var p := UpstreamProvider(id, [m, n]);
    FlatMapTwo(RowOf(form, form.name(id)), m, n, a, b);
    FlatMapOne(RowsOf(form), p);
    SameKey(a, b);
    assert Rows(form, [p])[0] == a && Rows(form, [p])[1] == b;
    ClashingRowsShow(form, [p]);
  }

  /** A model that lists one lane twice, under two spellings of its name and at two rates. */
  lemma {:induction false} RepeatedLaneDependsOnWalk(id: string, m: UpstreamModel, x: UpstreamMode, y: UpstreamMode,
                                                     a: ServiceTierRates, b: ServiceTierRates)
    requires CatalogForm().name(id) != "" && CatalogForm().name(m.id) != "" && m.modes == [x, y]
    requires LaneOf(x) == [a] && LaneOf(y) == [b] && a.tier == b.tier && a.rates != b.rates
    ensures !EveryWalkParsesAlike(CatalogForm(), [UpstreamProvider(id, [m])])
  {
    var p := UpstreamProvider(id, [m]);
    FlatMapTwo(LaneOf, x, y, a, b);
    SameName(a, b);
    assert FlatMap(LaneOf, m.modes)[0] == a && FlatMap(LaneOf, m.modes)[1] == b;
    assert [p][0].models[0] == m;
    ClashingLanesShow([p]);
  }
}
