/** Applying catalog documents to the price history, one after the other. A document is known by
    the digest of its content; a sync that finds the latest digest again does nothing. */
module CatalogSync {
  import opened PriceHistory
  import opened Pricing
  import opened Wrappers

  datatype ModelPrice = ModelPrice(key: Key, pricing: ModelPricing)

  datatype Document = Document(version: string, rows: seq<ModelPrice>)

  datatype SyncResult =
    | Unchanged
    | Applied(modelCount: nat, pricedModelCount: nat, changedModelCount: nat)
    | VersionTaken

  /** How the price table treats what it is given: the key a row is stored under and the pricing
      a reader gets back. The proofs below hold for any such pair. */
  datatype Storage = Storage(normalize: Key -> Key, decode: ModelPricing -> ModelPricing)

  function NormalizeKey(key: Key): Key {
    KeyOf(key.provider, key.model)
  }

  function ModelPrices(): Storage {
    Storage(NormalizeKey, Sorted)
  }

  /** What parsing guarantees: normalized keys, no model twice, prices in canonical order. */
  predicate WellFormedRows(st: Storage, rows: seq<ModelPrice>) {
    && (forall i | 0 <= i < |rows| ::
          st.normalize(rows[i].key) == rows[i].key && st.decode(rows[i].pricing) == rows[i].pricing)
    && (forall i, j | 0 <= i < j < |rows| :: rows[i].key != rows[j].key)
  }

  function CurrentPricing(st: Storage, rows: seq<Row>, key: Key): Option<ModelPricing> {
    var newest := Newest(rows, key, None);
    if newest.Some? then Some(st.decode(newest.value.pricing)) else None
  }

  /** The models whose price in the document is not their current one, in document order. */
  function Changed(st: Storage, rows: seq<Row>, doc: seq<ModelPrice>): seq<ModelPrice> {
    if doc == [] then []
    else
      (if CurrentPricing(st, rows, doc[0].key) != Some(doc[0].pricing) then [doc[0]] else [])
      + Changed(st, rows, doc[1..])
  }

  function CountPriced(doc: seq<ModelPrice>): nat {
    if doc == [] then 0 else (if NothingPublished(doc[0].pricing) then 0 else 1) + CountPriced(doc[1..])
  }

  /** The primary key of the price table. */
  predicate Taken(rows: seq<Row>, key: Key, at: int) {
    exists i | 0 <= i < |rows| :: rows[i].key == key && rows[i].effectiveFrom == at
  }

  function InsertOne(st: Storage, rows: seq<Row>, catalog: string, at: int, price: ModelPrice): seq<Row> {
    var key := st.normalize(price.key);
    if Taken(rows, key, at) then rows else rows + [Row(key, at, catalog, price.pricing)]
  }

  function Insert(st: Storage, rows: seq<Row>, catalog: string, at: int, prices: seq<ModelPrice>): seq<Row>
    decreases |prices|
  {
    if prices == [] then rows else Insert(st, InsertOne(st, rows, catalog, at, prices[0]), catalog, at, prices[1..])
  }

  predicate VersionKnown(catalogs: seq<Catalog>, version: string) {
    exists i | 0 <= i < |catalogs| :: catalogs[i].version == version
  }

  predicate IsRepeat(db: Database, doc: Document) {
    var latest := LatestCatalog(db.catalogs);
    latest.Some? && latest.value.version == doc.version
  }

  /** One completed `apply_catalog`. The catalog row is inserted plainly, so a version recorded
      before and not latest any more makes the sync fail with nothing written. */
  function Sync(st: Storage, db: Database, doc: Document, at: int): (Database, SyncResult) {
    if IsRepeat(db, doc) then (db, Unchanged)
    else if VersionKnown(db.catalogs, doc.version) then (db, VersionTaken)
    else
      var changed := Changed(st, db.rows, doc.rows);
      var catalog := Catalog(doc.version, at, |doc.rows|, CountPriced(doc.rows), |changed|);
      (Database(db.catalogs + [catalog], Insert(st, db.rows, doc.version, at, changed)),
       Applied(|doc.rows|, CountPriced(doc.rows), |changed|))
  }

  // ---- One sync -------------------------------------------------------------------------

  lemma {:induction false} ChangedMeaning(st: Storage, rows: seq<Row>, doc: seq<ModelPrice>)
    requires WellFormedRows(st, doc)
    ensures WellFormedRows(st, Changed(st, rows, doc))
    ensures forall p :: p in Changed(st, rows, doc) <==> p in doc && CurrentPricing(st, rows, p.key) != Some(p.pricing)
  {
    if doc != [] {
      ChangedMeaning(st, rows, doc[1..]);
      assert doc == [doc[0]] + doc[1..];
      var rest := Changed(st, rows, doc[1..]);
      forall j | 0 <= j < |rest|
        ensures rest[j].key != doc[0].key
      {
        assert rest[j] in doc[1..];
      }
    }
  }

  /** The rows a sync adds: one for each given price, all from the same moment and catalog. */
  function Additions(catalog: string, at: int, prices: seq<ModelPrice>): (rows: seq<Row>)
    ensures |rows| == |prices|
    ensures forall i | 0 <= i < |prices| :: rows[i] == Row(prices[i].key, at, catalog, prices[i].pricing)
  {
    seq(|prices|, i requires 0 <= i < |prices| => Row(prices[i].key, at, catalog, prices[i].pricing))
  }

  /** None of the prices can conflict with a row. */
  predicate Free(rows: seq<Row>, at: int, prices: seq<ModelPrice>) {
    forall i, j | 0 <= i < |rows| && 0 <= j < |prices| :: rows[i].key != prices[j].key || rows[i].effectiveFrom < at
  }

  lemma {:induction false} FreeAfterOne(st: Storage, rows: seq<Row>, catalog: string, at: int, prices: seq<ModelPrice>)
    requires WellFormedRows(st, prices) && Free(rows, at, prices) && prices != []
    ensures InsertOne(st, rows, catalog, at, prices[0]) == rows + [Row(prices[0].key, at, catalog, prices[0].pricing)]
    ensures Free(InsertOne(st, rows, catalog, at, prices[0]), at, prices[1..])
  {
  }

  lemma {:induction false} AdditionsCons(rows: seq<Row>, catalog: string, at: int, prices: seq<ModelPrice>)
    requires prices != []
    ensures rows + [Row(prices[0].key, at, catalog, prices[0].pricing)] + Additions(catalog, at, prices[1..])
            == rows + Additions(catalog, at, prices)
  {
    assert [Row(prices[0].key, at, catalog, prices[0].pricing)] + Additions(catalog, at, prices[1..])
           == Additions(catalog, at, prices);
  }

  /** With the clock past every row nothing conflicts: every price is inserted. */
  lemma {:induction false} InsertAppends(st: Storage, rows: seq<Row>, catalog: string, at: int, prices: seq<ModelPrice>)
    requires WellFormedRows(st, prices) && Free(rows, at, prices)
    ensures Insert(st, rows, catalog, at, prices) == rows + Additions(catalog, at, prices)
    decreases |prices|
  {
    if prices == [] {
      assert rows + Additions(catalog, at, prices) == rows;
    } else {
      FreeAfterOne(st, rows, catalog, at, prices);
      InsertAppends(st, InsertOne(st, rows, catalog, at, prices[0]), catalog, at, prices[1..]);
      AdditionsCons(rows, catalog, at, prices);
    }
  }

  /** The clock of the sync is later than everything recorded. */
  predicate Timely(db: Database, at: int) {
    && (forall i | 0 <= i < |db.rows| :: db.rows[i].effectiveFrom < at)
    && (forall i | 0 <= i < |db.catalogs| :: db.catalogs[i].fetchedAt < at)
  }

  lemma {:induction false} SyncAppends(st: Storage, db: Database, doc: Document, at: int)
    requires Timely(db, at) && WellFormedRows(st, doc.rows) && Sync(st, db, doc, at).1.Applied?
    ensures Sync(st, db, doc, at).0.rows == db.rows + Additions(doc.version, at, Changed(st, db.rows, doc.rows))
  {
    ChangedMeaning(st, db.rows, doc.rows);
    InsertAppends(st, db.rows, doc.version, at, Changed(st, db.rows, doc.rows));
  }

  lemma {:induction false} LastRowIsCurrent(rows: seq<Row>, row: Row)
    requires forall i | 0 <= i < |rows| :: rows[i].key != row.key || rows[i].effectiveFrom < row.effectiveFrom
    ensures Newest(rows + [row], row.key, None) == Some(row)
  {
    NewestMeaning(rows, row.key, None);
    assert (rows + [row])[..|rows + [row]| - 1] == rows;
  }

  lemma {:induction false} Around<T>(a: seq<T>, b: seq<T>, j: nat)
    requires j < |b|
    ensures a + b == a + b[..j] + [b[j]] + b[j + 1..]
  {
    assert b == b[..j] + [b[j]] + b[j + 1..];
  }

  lemma {:induction false} AdditionIsCurrent(rows: seq<Row>, more: seq<Row>, j: nat)
    requires j < |more|
    requires forall i | 0 <= i < |rows| :: rows[i].effectiveFrom < more[j].effectiveFrom
    requires forall i | 0 <= i < |more| && i != j :: more[i].key != more[j].key
    ensures Newest(rows + more, more[j].key, None) == Some(more[j])
  {
    var before, after := rows + more[..j], more[j + 1..];
    forall i | 0 <= i < |before|
      ensures before[i].key != more[j].key || before[i].effectiveFrom < more[j].effectiveFrom
    {
      assert i >= |rows| ==> before[i] == more[i - |rows|];
    }
    LastRowIsCurrent(before, more[j]);
    assert forall i | 0 <= i < |after| :: after[i] == more[j + 1 + i];
    LaterRowsAreInvisible(before + [more[j]], after, more[j].key, None);
    Around(rows, more, j);
  }

  /** A row is added exactly for the models of the document whose price differs from their current
      one, and it is stamped with the document's version and the time of the sync. */
  lemma {:induction false} RowsAddedExactly(st: Storage, db: Database, doc: Document, at: int, row: Row)
    requires Timely(db, at) && WellFormedRows(st, doc.rows) && Sync(st, db, doc, at).1.Applied?
    ensures db.rows <= Sync(st, db, doc, at).0.rows
    ensures row in Sync(st, db, doc, at).0.rows[|db.rows|..] <==>
            && row.effectiveFrom == at && row.catalog == doc.version
            && ModelPrice(row.key, row.pricing) in doc.rows
            && CurrentPricing(st, db.rows, row.key) != Some(row.pricing)
  {
    SyncAppends(st, db, doc, at);
    var changed := Changed(st, db.rows, doc.rows);
    var more := Additions(doc.version, at, changed);
    assert Sync(st, db, doc, at).0.rows[|db.rows|..] == more;
    ChangedMeaning(st, db.rows, doc.rows);
    if ModelPrice(row.key, row.pricing) in changed && row.effectiveFrom == at && row.catalog == doc.version {
      var i :| 0 <= i < |changed| && changed[i] == ModelPrice(row.key, row.pricing);
      assert more[i] == row;
    }
  }

  /** After a completed sync the current price of every model in the document is the document's. */
  lemma {:induction false} SyncedModelIsCurrent(st: Storage, db: Database, doc: Document, at: int, price: ModelPrice)
    requires Timely(db, at) && WellFormedRows(st, doc.rows) && Sync(st, db, doc, at).1.Applied? && price in doc.rows
    ensures CurrentPricing(st, Sync(st, db, doc, at).0.rows, price.key) == Some(price.pricing)
  {
    SyncAppends(st, db, doc, at);
    ChangedMeaning(st, db.rows, doc.rows);
    if price in Changed(st, db.rows, doc.rows) {
      AddedIsCurrent(db.rows, doc.version, at, Changed(st, db.rows, doc.rows), price);
    } else {
      UnchangedStaysCurrent(st, db.rows, doc, at, price);
    }
  }

  lemma {:induction false} AddedIsCurrent(rows: seq<Row>, catalog: string, at: int, changed: seq<ModelPrice>,
                                          price: ModelPrice)
    requires price in changed && forall i | 0 <= i < |rows| :: rows[i].effectiveFrom < at
    requires forall i, j | 0 <= i < j < |changed| :: changed[i].key != changed[j].key
    ensures Newest(rows + Additions(catalog, at, changed), price.key, None)
            == Some(Row(price.key, at, catalog, price.pricing))
  {
    var j :| 0 <= j < |changed| && changed[j] == price;
    AdditionIsCurrent(rows, Additions(catalog, at, changed), j);
  }

  lemma {:induction false} UnchangedStaysCurrent(st: Storage, rows: seq<Row>, doc: Document, at: int, price: ModelPrice)
    requires WellFormedRows(st, doc.rows) && price in doc.rows && price !in Changed(st, rows, doc.rows)
    ensures Newest(rows + Additions(doc.version, at, Changed(st, rows, doc.rows)), price.key, None)
            == Newest(rows, price.key, None)
  {
    var changed := Changed(st, rows, doc.rows);
    ChangedMeaning(st, rows, doc.rows);
    forall i | 0 <= i < |changed|
      ensures changed[i].key != price.key
    {
      assert changed[i] in changed && changed[i] in doc.rows;
      if changed[i].key == price.key {
        SameKeySamePrice(st, doc.rows, changed[i], price);
      }
    }
    LaterRowsAreInvisible(rows, Additions(doc.version, at, changed), price.key, None);
  }

  lemma {:induction false} SameKeySamePrice(st: Storage, doc: seq<ModelPrice>, a: ModelPrice, b: ModelPrice)
    requires WellFormedRows(st, doc) && a in doc && b in doc && a.key == b.key
    ensures a == b
  {
  }

  /** A model the document does not mention keeps its current price. */
  lemma {:induction false} OtherModelsKeepTheirs(st: Storage, db: Database, doc: Document, at: int, key: Key)
    requires Timely(db, at) && WellFormedRows(st, doc.rows)
    requires forall i | 0 <= i < |doc.rows| :: doc.rows[i].key != key
    ensures Newest(Sync(st, db, doc, at).0.rows, key, None) == Newest(db.rows, key, None)
  {
    if Sync(st, db, doc, at).1.Applied? {
      SyncAppends(st, db, doc, at);
      var changed := Changed(st, db.rows, doc.rows);
      ChangedMeaning(st, db.rows, doc.rows);
      forall i | 0 <= i < |changed|
        ensures changed[i].key != key
      {
        assert changed[i] in doc.rows;
      }
      LaterRowsAreInvisible(db.rows, Additions(doc.version, at, changed), key, None);
    }
  }

  lemma {:induction false} SyncKeepsThePast(st: Storage, db: Database, doc: Document, at: int, key: Key, t: int)
    requires Timely(db, at) && WellFormedRows(st, doc.rows) && t < at
    ensures db.rows <= Sync(st, db, doc, at).0.rows
    ensures Newest(Sync(st, db, doc, at).0.rows, key, Some(t)) == Newest(db.rows, key, Some(t))
    ensures Earliest(db.rows, key).Some? ==> Earliest(Sync(st, db, doc, at).0.rows, key) == Earliest(db.rows, key)
  {
    if Sync(st, db, doc, at).1.Applied? {
      SyncAppends(st, db, doc, at);
      var more := Additions(doc.version, at, Changed(st, db.rows, doc.rows));
      LaterRowsAreInvisible(db.rows, more, key, Some(t));
      if Earliest(db.rows, key).Some? {
        EarliestMeaning(db.rows, key);
        EarliestStays(db.rows, more, key);
      }
    }
  }

  lemma {:induction false} SyncStaysTimely(st: Storage, db: Database, doc: Document, at: int, later: int)
    requires Timely(db, at) && WellFormedRows(st, doc.rows) && at < later
    ensures Timely(Sync(st, db, doc, at).0, later)
  {
    if Sync(st, db, doc, at).1.Applied? {
      SyncAppends(st, db, doc, at);
    }
  }

  /** The primary key holds whatever is inserted. */
  lemma {:induction false} InsertKeepsUnique(st: Storage, rows: seq<Row>, catalog: string, at: int,
                                             prices: seq<ModelPrice>)
    requires UniqueRows(rows)
    ensures UniqueRows(Insert(st, rows, catalog, at, prices)) && rows <= Insert(st, rows, catalog, at, prices)
    decreases |prices|
  {
    if prices != [] {
      InsertKeepsUnique(st, InsertOne(st, rows, catalog, at, prices[0]), catalog, at, prices[1..]);
    }
  }

  // ---- Runs of syncs --------------------------------------------------------------------

  datatype Call = Call(doc: Document, at: int)

  function Syncs(st: Storage, db: Database, calls: seq<Call>): Database
    decreases |calls|
  {
    if calls == [] then db else Syncs(st, Sync(st, db, calls[0].doc, calls[0].at).0, calls[1..])
  }

  /** Well-formed documents and a clock that strictly advances. */
  predicate Proper(st: Storage, db: Database, calls: seq<Call>) {
    && (forall i | 0 <= i < |calls| :: WellFormedRows(st, calls[i].doc.rows))
    && (forall i, j | 0 <= i < j < |calls| :: calls[i].at < calls[j].at)
    && (calls != [] ==> Timely(db, calls[0].at))
  }

  lemma {:induction false} ProperTail(st: Storage, db: Database, calls: seq<Call>)
    requires Proper(st, db, calls) && calls != []
    ensures Proper(st, Sync(st, db, calls[0].doc, calls[0].at).0, calls[1..])
  {
    if |calls| > 1 {
      SyncStaysTimely(st, db, calls[0].doc, calls[0].at, calls[1].at);
    }
  }

  /** Over every run of syncs the history only grows, the row in force at a time before the run
      never changes, and neither does a model's earliest row. */
  lemma {:induction false} HistoryIsStable(st: Storage, db: Database, calls: seq<Call>, key: Key, t: int)
    requires Proper(st, db, calls) && (calls != [] ==> t < calls[0].at)
    ensures db.rows <= Syncs(st, db, calls).rows
    ensures Newest(Syncs(st, db, calls).rows, key, Some(t)) == Newest(db.rows, key, Some(t))
    ensures Earliest(db.rows, key).Some? ==> Earliest(Syncs(st, db, calls).rows, key) == Earliest(db.rows, key)
    decreases |calls|
  {
    if calls != [] {
      SyncKeepsThePast(st, db, calls[0].doc, calls[0].at, key, t);
      ProperTail(st, db, calls);
      HistoryIsStable(st, Sync(st, db, calls[0].doc, calls[0].at).0, calls[1..], key, t);
    }
  }

  lemma {:induction false} NewRowsAreLater(st: Storage, db: Database, calls: seq<Call>)
    requires Proper(st, db, calls)
    ensures db.rows <= Syncs(st, db, calls).rows
    ensures calls != [] ==> forall i | |db.rows| <= i < |Syncs(st, db, calls).rows| ::
              calls[0].at <= Syncs(st, db, calls).rows[i].effectiveFrom
    decreases |calls|
  {
    if calls != [] {
      var next := Sync(st, db, calls[0].doc, calls[0].at).0;
      ProperTail(st, db, calls);
      NewRowsAreLater(st, next, calls[1..]);
      if Sync(st, db, calls[0].doc, calls[0].at).1.Applied? {
        SyncAppends(st, db, calls[0].doc, calls[0].at);
      }
      assert forall i | 0 <= i < |next.rows| :: Syncs(st, db, calls).rows[i] == next.rows[i];
    }
  }

  /** The primary key of the price table holds throughout: a reload always finds one current row a model. */
  lemma {:induction false} RowsStayUnique(st: Storage, db: Database, calls: seq<Call>)
    requires UniqueRows(db.rows)
    ensures UniqueRows(Syncs(st, db, calls).rows)
    decreases |calls|
  {
    if calls != [] {
      var (doc, at) := (calls[0].doc, calls[0].at);
      InsertKeepsUnique(st, db.rows, doc.version, at, Changed(st, db.rows, doc.rows));
      RowsStayUnique(st, Sync(st, db, doc, at).0, calls[1..]);
    }
  }

  /** A rate table loaded once and never reloaded still prices every event reported before the
      next sync as the full history does, through any number of later syncs. */
  lemma {:induction false} EventsThroughSyncs(seen: Database, calls: seq<Call>, key: Key, u: TokenUsage,
                                              serviceTier: Option<string>, at: int)
    requires Proper(ModelPrices(), seen, calls) && seen.catalogs != [] && (calls != [] ==> at < calls[0].at)
    ensures var now := Syncs(ModelPrices(), seen, calls);
            PriceEvent(now, Load(seen), Some(key), u, serviceTier, at).cost
            == CostInForce(now, key, u, serviceTier, at) == CostInForce(seen, key, u, serviceTier, at)
  {
    var now := Syncs(ModelPrices(), seen, calls);
    NewRowsAreLater(ModelPrices(), seen, calls);
    StaleTableAgrees(seen, now, key, u, serviceTier, at);
    HistoryIsStable(ModelPrices(), seen, calls, key, at);
  }

  lemma {:induction false} FirstRowOf(st: Storage, db: Database, doc: Document, at: int, price: ModelPrice)
    requires Timely(db, at) && WellFormedRows(st, doc.rows) && Sync(st, db, doc, at).1.Applied? && price in doc.rows
    requires CurrentPricing(st, db.rows, price.key) != Some(price.pricing)
    ensures Newest(Sync(st, db, doc, at).0.rows, price.key, None)
            == Some(Row(price.key, at, doc.version, price.pricing))
  {
    SyncAppends(st, db, doc, at);
    ChangedMeaning(st, db.rows, doc.rows);
    AddedIsCurrent(db.rows, doc.version, at, Changed(st, db.rows, doc.rows), price);
  }

  lemma {:induction false} SameRowAfter(st: Storage, db: Database, doc: Document, at: int, price: ModelPrice)
    requires Timely(db, at) && WellFormedRows(st, doc.rows) && Sync(st, db, doc, at).1.Applied? && price in doc.rows
    requires CurrentPricing(st, db.rows, price.key) == Some(price.pricing)
    ensures Newest(Sync(st, db, doc, at).0.rows, price.key, None) == Newest(db.rows, price.key, None)
  {
    SyncAppends(st, db, doc, at);
    ChangedMeaning(st, db.rows, doc.rows);
    UnchangedStaysCurrent(st, db.rows, doc, at, price);
  }

  /** The database after two syncs from the start. */
  function AfterTwo(st: Storage, first: Document, second: Document, t1: int, t2: int): Database {
    Sync(st, Sync(st, Database([], []), first, t1).0, second, t2).0
  }

  lemma {:induction false} SecondIsApplied(st: Storage, first: Document, second: Document, t1: int, t2: int)
    requires first.version != second.version
    ensures Sync(st, Database([], []), first, t1).1.Applied?
    ensures Sync(st, Sync(st, Database([], []), first, t1).0, second, t2).1.Applied?
  {
    var one := Sync(st, Database([], []), first, t1).0;
    SyncRecordsVersion(st, Database([], []), first, t1, second.version);
    RepeatIsKnown(one, second);
  }

  lemma {:induction false} FirstRowStays(st: Storage, first: Document, second: Document, t1: int, t2: int,
                                         price: ModelPrice)
    requires WellFormedRows(st, first.rows) && WellFormedRows(st, second.rows) && t1 < t2
    requires first.version != second.version && price in first.rows && price in second.rows
    ensures var now := AfterTwo(st, first, second, t1, t2);
            && Newest(now.rows, price.key, None) == Some(Row(price.key, t1, first.version, price.pricing))
            && LatestCatalog(now.catalogs).Some? && LatestCatalog(now.catalogs).value.version == second.version
            && Timely(now, t2 + 1)
  {
    var empty := Database([], []);
    var one := Sync(st, empty, first, t1).0;
    SecondIsApplied(st, first, second, t1, t2);
    FirstRowOf(st, empty, first, t1, price);
    SyncStaysTimely(st, empty, first, t1, t2);
    SyncStaysTimely(st, one, second, t2, t2 + 1);
    SyncedIsLatest(st, one, second, t2);
    SameRowAfter(st, one, second, t2, price);
  }

  /** The stamp that is not the row's own: two syncs from the start, the second publishing the same
      price for a model under another version. A later call is billed by the row of the first and
      stamped with the second. */
  lemma {:induction false} UnchangedPriceIsStampedAnew(first: Document, second: Document, t1: int, t2: int,
      price: ModelPrice, u: TokenUsage, serviceTier: Option<string>, at: int)
    requires WellFormedRows(ModelPrices(), first.rows) && WellFormedRows(ModelPrices(), second.rows)
    requires t1 < t2 <= at && first.version != second.version && price in first.rows && price in second.rows
    requires PriceModelCallTiered(price.pricing, u, serviceTier).Priced?
    ensures var now := AfterTwo(ModelPrices(), first, second, t1, t2);
            && Newest(now.rows, price.key, Some(at)) == Some(Row(price.key, t1, first.version, price.pricing))
            && PriceEvent(now, Load(now), Some(price.key), u, serviceTier, at)
               == Answer(PriceModelCallTiered(price.pricing, u, serviceTier), Some(second.version))
  {
    var now := AfterTwo(ModelPrices(), first, second, t1, t2);
    FirstRowStays(ModelPrices(), first, second, t1, t2, price);
    DecodedAsStored(ModelPrices(), first.rows, price);
    CurrentFrom(now.rows, price.key, at);
    TableHoldsCurrent(now, price.key);
    NotBackdated(now, at);
    MemoryAnswers(now, Load(now), price.key, price.pricing, u, serviceTier, at,
                  PriceModelCallTiered(price.pricing, u, serviceTier));
  }

  lemma {:induction false} DecodedAsStored(st: Storage, rows: seq<ModelPrice>, price: ModelPrice)
    requires WellFormedRows(st, rows) && price in rows
    ensures st.decode(price.pricing) == price.pricing
  {
  }

  lemma {:induction false} MemoryAnswers(db: Database, t: RateTable, key: Key, pricing: ModelPricing, u: TokenUsage,
                                         serviceTier: Option<string>, at: int, cost: PricedCost)
    requires t.catalogVersion.Some? && !Predates(t, at) && RateFor(t, key) == Some(pricing)
    requires cost == PriceModelCallTiered(pricing, u, serviceTier) && cost.Priced?
    ensures PriceEvent(db, t, Some(key), u, serviceTier, at) == Answer(cost, t.catalogVersion)
  {
  }

  lemma {:induction false} NotBackdated(db: Database, at: int)
    requires forall i | 0 <= i < |db.rows| :: db.rows[i].effectiveFrom <= at
    ensures !Predates(Load(db), at)
  {
    NewestTimeMeaning(db.rows);
  }

  /** The document a version names: a digest identifies its content. */
  type Contents = string -> seq<ModelPrice>

  ghost predicate Identified(contents: Contents, calls: seq<Call>) {
    forall i | 0 <= i < |calls| :: calls[i].doc.rows == contents(calls[i].doc.version)
  }

  /** Every model of the latest document is current. */
  predicate UpToDate(st: Storage, db: Database, contents: Contents) {
    var latest := LatestCatalog(db.catalogs);
    latest.Some? ==> forall i | 0 <= i < |contents(latest.value.version)| ::
                       var price := contents(latest.value.version)[i];
                       CurrentPricing(st, db.rows, price.key) == Some(price.pricing)
  }

  lemma {:induction false} SyncedIsLatest(st: Storage, db: Database, doc: Document, at: int)
    requires Timely(db, at) && Sync(st, db, doc, at).1.Applied?
    ensures LatestCatalog(Sync(st, db, doc, at).0.catalogs).Some?
    ensures LatestCatalog(Sync(st, db, doc, at).0.catalogs).value.version == doc.version
  {
    var n := Sync(st, db, doc, at).0;
    LatestMeaning(db.catalogs);
    assert n.catalogs[..|n.catalogs| - 1] == db.catalogs;
  }

  lemma {:induction false} SyncStaysUpToDate(st: Storage, db: Database, contents: Contents, doc: Document, at: int)
    requires Timely(db, at) && WellFormedRows(st, doc.rows) && doc.rows == contents(doc.version)
    requires UpToDate(st, db, contents)
    ensures UpToDate(st, Sync(st, db, doc, at).0, contents)
  {
    if Sync(st, db, doc, at).1.Applied? {
      SyncedIsLatest(st, db, doc, at);
      forall i | 0 <= i < |doc.rows|
        ensures CurrentPricing(st, Sync(st, db, doc, at).0.rows, doc.rows[i].key) == Some(doc.rows[i].pricing)
      {
        SyncedModelIsCurrent(st, db, doc, at, doc.rows[i]);
      }
    }
  }

  /** After every run of completed syncs from an empty or up-to-date database, every model of the
      latest recorded document is priced by it. */
  lemma {:induction false} RunsStayUpToDate(st: Storage, db: Database, contents: Contents, calls: seq<Call>)
    requires Proper(st, db, calls) && Identified(contents, calls) && UpToDate(st, db, contents)
    ensures UpToDate(st, Syncs(st, db, calls), contents)
    decreases |calls|
  {
    if calls != [] {
      ProperTail(st, db, calls);
      SyncStaysUpToDate(st, db, contents, calls[0].doc, calls[0].at);
      RunsStayUpToDate(st, Sync(st, db, calls[0].doc, calls[0].at).0, contents, calls[1..]);
    }
  }

  /** So a sync that does not fail leaves every model of its document current, whether it applied
      the document or found it unchanged. */
  lemma {:induction false} SyncMakesCurrent(st: Storage, db: Database, contents: Contents, calls: seq<Call>,
                                            doc: Document, at: int, price: ModelPrice)
    requires Proper(st, db, calls) && Identified(contents, calls) && UpToDate(st, db, contents)
    requires Timely(Syncs(st, db, calls), at) && WellFormedRows(st, doc.rows) && doc.rows == contents(doc.version)
    requires !Sync(st, Syncs(st, db, calls), doc, at).1.VersionTaken? && price in doc.rows
    ensures CurrentPricing(st, Sync(st, Syncs(st, db, calls), doc, at).0.rows, price.key) == Some(price.pricing)
  {
    RunsStayUpToDate(st, db, contents, calls);
    if Sync(st, Syncs(st, db, calls), doc, at).1.Applied? {
      SyncedModelIsCurrent(st, Syncs(st, db, calls), doc, at, price);
    }
  }

  // ---- Where a sync does not do its work ------------------------------------------------

  lemma {:induction false} SyncRecordsVersion(st: Storage, db: Database, doc: Document, at: int, version: string)
    ensures VersionKnown(Sync(st, db, doc, at).0.catalogs, version)
            <==> VersionKnown(db.catalogs, version) || version == doc.version
  {
    var n := Sync(st, db, doc, at).0;
    LatestMeaning(db.catalogs);
    if Sync(st, db, doc, at).1.Applied? {
      assert forall i | 0 <= i < |db.catalogs| :: n.catalogs[i] == db.catalogs[i];
      assert n.catalogs[|db.catalogs|].version == doc.version;
    }
  }

  lemma {:induction false} VersionsKnown(st: Storage, db: Database, calls: seq<Call>, version: string)
    ensures VersionKnown(Syncs(st, db, calls).catalogs, version) <==>
            VersionKnown(db.catalogs, version) || exists i | 0 <= i < |calls| :: calls[i].doc.version == version
    decreases |calls|
  {
    if calls != [] {
      SyncRecordsVersion(st, db, calls[0].doc, calls[0].at, version);
      VersionsKnown(st, Sync(st, db, calls[0].doc, calls[0].at).0, calls[1..], version);
      if i :| 0 <= i < |calls[1..]| && calls[1..][i].doc.version == version {
        assert calls[i + 1].doc.version == version;
      }
    }
  }

  /** After a run from an empty database a sync fails exactly when its document was offered before
      and is not the latest recorded one. */
  lemma {:induction false} FailsExactly(st: Storage, db: Database, calls: seq<Call>, doc: Document, at: int)
    requires db.catalogs == []
    ensures Sync(st, Syncs(st, db, calls), doc, at).1.VersionTaken? <==>
            && (exists i | 0 <= i < |calls| :: calls[i].doc.version == doc.version)
            && !IsRepeat(Syncs(st, db, calls), doc)
  {
    VersionsKnown(st, db, calls, doc.version);
  }

  /** So when upstream goes back to an earlier document, that is never applied. */
  lemma {:induction false} ReturningDocumentIsRefused(st: Storage, db: Database, first: Document, second: Document,
      t1: int, t2: int, t3: int)
    requires Timely(db, t1) && t1 < t2 < t3 && first.version != second.version
    requires WellFormedRows(st, first.rows) && WellFormedRows(st, second.rows)
    requires !VersionKnown(db.catalogs, first.version) && !VersionKnown(db.catalogs, second.version)
    ensures var after := Syncs(st, db, [Call(first, t1), Call(second, t2)]);
            Sync(st, after, first, t3) == (after, VersionTaken)
  {
    var one := Sync(st, db, first, t1).0;
    var two := Sync(st, one, second, t2).0;
    SyncRecordsVersion(st, db, first, t1, first.version);
    SyncRecordsVersion(st, db, first, t1, second.version);
    SyncRecordsVersion(st, one, second, t2, first.version);
    RepeatIsKnown(one, second);
    SyncStaysTimely(st, db, first, t1, t2);
    SyncedIsLatest(st, one, second, t2);
    TwoSyncs(st, db, Call(first, t1), Call(second, t2));
  }

  lemma {:induction false} RepeatIsKnown(db: Database, doc: Document)
    ensures IsRepeat(db, doc) ==> VersionKnown(db.catalogs, doc.version)
  {
    LatestMeaning(db.catalogs);
  }

  lemma {:induction false} TwoSyncs(st: Storage, db: Database, first: Call, second: Call)
    ensures Syncs(st, db, [first, second]) == Sync(st, Sync(st, db, first.doc, first.at).0, second.doc, second.at).0
  {
    assert [first, second][1..] == [second] && [second][1..] == [];
    var one := Sync(st, db, first.doc, first.at).0;
    var two := Sync(st, one, second.doc, second.at).0;
    assert Syncs(st, two, []) == two;
    assert Syncs(st, one, [second]) == two;
  }

  /** A sync stopped halfway: recording the catalog and inserting its prices are not one transaction. */
  function Stopped(st: Storage, db: Database, doc: Document, at: int): Database {
    db.(catalogs := db.catalogs + [Catalog(doc.version, at, |doc.rows|, CountPriced(doc.rows),
                                           |Changed(st, db.rows, doc.rows)|)])
  }

  lemma {:induction false} StoppedIsLatest(st: Storage, db: Database, doc: Document, at: int)
    requires Timely(db, at)
    ensures IsRepeat(Stopped(st, db, doc, at), doc) && VersionKnown(Stopped(st, db, doc, at).catalogs, doc.version)
  {
    var stopped := Stopped(st, db, doc, at);
    LatestMeaning(db.catalogs);
    assert stopped.catalogs[..|stopped.catalogs| - 1] == db.catalogs;
    RepeatIsKnown(stopped, doc);
  }

  lemma {:induction false} NothingChangedExactly(st: Storage, rows: seq<Row>, doc: seq<ModelPrice>)
    ensures Changed(st, rows, doc) == [] <==> forall i | 0 <= i < |doc| ::
              CurrentPricing(st, rows, doc[i].key) == Some(doc[i].pricing)
  {
    if doc != [] {
      NothingChangedExactly(st, rows, doc[1..]);
      assert forall i | 1 <= i < |doc| :: doc[i] == doc[1..][i - 1];
    }
  }

  /** Stopped in between, a retry takes the document for applied and changes nothing; so every model
      of the document is current exactly when the document changed no price in the first place. */
  lemma {:induction false} RetryIsNoRepair(st: Storage, db: Database, doc: Document, at: int, later: int)
    requires Timely(db, at)
    ensures var stopped := Stopped(st, db, doc, at);
            && Sync(st, stopped, doc, later) == (stopped, Unchanged)
            && ((forall i | 0 <= i < |doc.rows| ::
                   CurrentPricing(st, stopped.rows, doc.rows[i].key) == Some(doc.rows[i].pricing))
                <==> Changed(st, db.rows, doc.rows) == [])
  {
    StoppedIsLatest(st, db, doc, at);
    NothingChangedExactly(st, db.rows, doc.rows);
  }

  /** And whatever syncs follow, that version is never applied: after any run it is answered as
      unchanged or refused, and adds no row. */
  lemma {:induction false} InterruptedVersionIsNeverApplied(st: Storage, db: Database, doc: Document, at: int,
      calls: seq<Call>, again: Document, later: int)
    requires Timely(db, at) && again.version == doc.version
    ensures var now := Syncs(st, Stopped(st, db, doc, at), calls);
            Sync(st, now, again, later) == (now, if IsRepeat(now, again) then Unchanged else VersionTaken)
  {
    StoppedIsLatest(st, db, doc, at);
    VersionsKnown(st, Stopped(st, db, doc, at), calls, doc.version);
  }

  /** What it published can still arrive under another version: any later document not offered
      before makes current what it publishes, the same prices included. */
  lemma {:induction false} AnotherVersionRepairs(st: Storage, db: Database, doc: Document, at: int,
      calls: seq<Call>, other: Document, later: int, price: ModelPrice)
    requires Timely(db, at) && Proper(st, Stopped(st, db, doc, at), calls)
    requires Timely(Syncs(st, Stopped(st, db, doc, at), calls), later) && WellFormedRows(st, other.rows)
    requires other.version != doc.version && !VersionKnown(db.catalogs, other.version)
    requires forall i | 0 <= i < |calls| :: calls[i].doc.version != other.version
    requires price in other.rows
    ensures CurrentPricing(st, Sync(st, Syncs(st, Stopped(st, db, doc, at), calls), other, later).0.rows, price.key)
            == Some(price.pricing)
  {
    var stopped := Stopped(st, db, doc, at);
    VersionsKnown(st, stopped, calls, other.version);
    RepeatIsKnown(Syncs(st, stopped, calls), other);
    SyncedModelIsCurrent(st, Syncs(st, stopped, calls), other, later, price);
  }

  // ---- The price table as an object -----------------------------------------------------

  lemma {:induction false} InsertStep(st: Storage, rows: seq<Row>, catalog: string, at: int, prices: seq<ModelPrice>,
                                      i: nat)
    requires i < |prices|
    ensures Insert(st, rows, catalog, at, prices[i..])
            == Insert(st, InsertOne(st, rows, catalog, at, prices[i]), catalog, at, prices[i + 1..])
  {
    assert prices[i..][1..] == prices[i + 1..];
  }

  lemma {:induction false} ChangedSnoc(st: Storage, rows: seq<Row>, doc: seq<ModelPrice>, last: ModelPrice)
    ensures Changed(st, rows, doc + [last]) ==
            Changed(st, rows, doc) + (if CurrentPricing(st, rows, last.key) != Some(last.pricing) then [last] else [])
  {
    if doc == [] {
      assert doc + [last] == [last] && [last][1..] == [];
      assert Changed(st, rows, []) == [];
    } else {
      ChangedSnoc(st, rows, doc[1..], last);
      assert (doc + [last])[1..] == doc[1..] + [last];
    }
  }

  lemma {:induction false} CountPricedSnoc(doc: seq<ModelPrice>, last: ModelPrice)
    ensures CountPriced(doc + [last]) == CountPriced(doc) + (if NothingPublished(last.pricing) then 0 else 1)
  {
    if doc == [] {
      assert doc + [last] == [last] && [last][1..] == [];
    } else {
      CountPricedSnoc(doc[1..], last);
      assert (doc + [last])[1..] == doc[1..] + [last];
    }
  }

  // ---- What a sync reports --------------------------------------------------------------

  predicate PublishesSome(r: ModelRates) {
    exists c :: RateOf(r, c).Some?
  }

  /** A rate is published somewhere: in the headline, in a band or in a lane. */
  predicate Publishes(p: ModelPricing) {
    || PublishesSome(p.base)
    || (exists i | 0 <= i < |p.tiers| :: PublishesSome(p.tiers[i].rates))
    || exists i | 0 <= i < |p.serviceTiers| :: PublishesSome(p.serviceTiers[i].rates)
  }

  lemma {:induction false} NoRatesPublishNothing(r: ModelRates)
    ensures PublishesSome(r) <==> r != NO_RATES
  {
    if r != NO_RATES {
      assert RateOf(r, Input).Some? || RateOf(r, Output).Some? || RateOf(r, CacheRead).Some?
             || RateOf(r, CacheWrite).Some? || RateOf(r, Reasoning).Some?;
    }
  }

  lemma {:induction false} PublishesExactly(p: ModelPricing)
    ensures Publishes(p) <==> !NothingPublished(p)
  {
    NoRatesPublishNothing(p.base);
    forall i | 0 <= i < |p.tiers|
      ensures PublishesSome(p.tiers[i].rates) <==> p.tiers[i].rates != NO_RATES
    {
      NoRatesPublishNothing(p.tiers[i].rates);
    }
    forall i | 0 <= i < |p.serviceTiers|
      ensures PublishesSome(p.serviceTiers[i].rates) <==> p.serviceTiers[i].rates != NO_RATES
    {
      NoRatesPublishNothing(p.serviceTiers[i].rates);
    }
  }

  type Test = ModelPrice -> bool

  function Where(test: Test, doc: seq<ModelPrice>): set<nat> {
    set i: nat | i < |doc| && test(doc[i])
  }

  lemma {:induction false} WhereSnoc(test: Test, doc: seq<ModelPrice>, last: ModelPrice)
    ensures |Where(test, doc + [last])| == |Where(test, doc)| + if test(last) then 1 else 0
  {
    var front, all := Where(test, doc), Where(test, doc + [last]);
    assert forall i: nat | i < |doc| :: (doc + [last])[i] == doc[i];
    assert all == if test(last) then front + {|doc|} else front;
  }

  /** The models that differ from what the table would answer for them. */
  function IsNew(db: Database): Test {
    (price: ModelPrice) => RateFor(Load(db), price.key) != Some(price.pricing)
  }

  function HasPrice(): Test {
    (price: ModelPrice) => Publishes(price.pricing)
  }

  lemma {:induction false} ComparesWithTable(db: Database, price: ModelPrice)
    ensures IsNew(db)(price) <==> CurrentPricing(ModelPrices(), db.rows, price.key) != Some(price.pricing)
  {
    TableHoldsCurrent(db, price.key);
  }

  lemma {:induction false} CountedByIndex(db: Database, doc: seq<ModelPrice>, isNew: Test, hasPrice: Test)
    requires isNew == IsNew(db) && hasPrice == HasPrice()
    ensures CountPriced(doc) == |Where(hasPrice, doc)|
    ensures |Changed(ModelPrices(), db.rows, doc)| == |Where(isNew, doc)|
  {
    if doc == [] {
      assert Where(hasPrice, doc) == {} && Where(isNew, doc) == {};
    } else {
      var front, last := doc[..|doc| - 1], doc[|doc| - 1];
      assert doc == front + [last];
      CountedByIndex(db, front, isNew, hasPrice);
      WhereSnoc(isNew, front, last);
      WhereSnoc(hasPrice, front, last);
      CountPricedSnoc(front, last);
      ChangedSnoc(ModelPrices(), db.rows, front, last);
      PublishesExactly(last.pricing);
      ComparesWithTable(db, last);
    }
  }

  /** Every way a sync can end: nothing for the latest version again, a refusal for any other known one, and otherwise
      one more catalog with the counts of the document: its models, those with a price, and those that are new. */
  lemma {:induction false} ReportsExactly(db: Database, doc: Document, at: int)
    ensures var (n, result) := Sync(ModelPrices(), db, doc, at);
            var latest := LatestCatalog(db.catalogs);
            if latest.Some? && latest.value.version == doc.version then n == db && result == Unchanged
            else if exists i | 0 <= i < |db.catalogs| :: db.catalogs[i].version == doc.version then
              n == db && result == VersionTaken
            else
              var (priced, changed) := (|Where(HasPrice(), doc.rows)|, |Where(IsNew(db), doc.rows)|);
              && result == Applied(|doc.rows|, priced, changed)
              && n.catalogs == db.catalogs + [Catalog(doc.version, at, |doc.rows|, priced, changed)]
  {
    CountedByIndex(db, doc.rows, IsNew(db), HasPrice());
  }

  class ModelPriceRepo {
    var db: Database
    const st: Storage

    constructor (start: Database)
      ensures db == start && st == ModelPrices()
    {
      db := start;
      st := ModelPrices();
    }

    /** A plain insert on the version's primary key. */
    method RecordCatalog(catalog: Catalog) returns (ok: bool)
      modifies this
      ensures ok <==> !VersionKnown(old(db).catalogs, catalog.version)
      ensures db == if ok then old(db).(catalogs := old(db).catalogs + [catalog]) else old(db)
    {
      ok := !VersionKnown(db.catalogs, catalog.version);
      if ok {
        db := db.(catalogs := db.catalogs + [catalog]);
      }
    }

    /** Inserts in order, skipping taken keys, and counts what was inserted. */
    method InsertPrices(catalog: string, at: int, prices: seq<ModelPrice>) returns (inserted: nat)
      modifies this
      ensures db == old(db).(rows := Insert(st, old(db).rows, catalog, at, prices))
      ensures inserted == |db.rows| - |old(db).rows|
    {
      inserted := 0;
      if prices == [] {
        return;
      }
      var rows := db.rows;
      assert prices[0..] == prices;
      for i := 0 to |prices|
        invariant Insert(st, rows, catalog, at, prices[i..]) == Insert(st, old(db).rows, catalog, at, prices)
        invariant db == old(db) && inserted == |rows| - |db.rows|
      {
        InsertStep(st, rows, catalog, at, prices, i);
        var key := st.normalize(prices[i].key);
        if !Taken(rows, key, at) {
          rows := rows + [Row(key, at, catalog, prices[i].pricing)];
          inserted := inserted + 1;
        }
      }
      assert prices[|prices|..] == [];
      db := db.(rows := rows);
    }

    method ApplyCatalog(doc: Document, at: int) returns (r: SyncResult)
      modifies this
      ensures (db, r) == Sync(st, old(db), doc, at)
    {
      var latest := LatestCatalog(db.catalogs);
      if latest.Some? && latest.value.version == doc.version {
        return Unchanged;
      }
      var priced, changed := 0, [];
      for i := 0 to |doc.rows|
        invariant priced == CountPriced(doc.rows[..i]) && changed == Changed(st, db.rows, doc.rows[..i])
        invariant db == old(db)
      {
        var price := doc.rows[i];
        assert doc.rows[..i + 1] == doc.rows[..i] + [price];
        CountPricedSnoc(doc.rows[..i], price);
        ChangedSnoc(st, db.rows, doc.rows[..i], price);
        if !NothingPublished(price.pricing) {
          priced := priced + 1;
        }
        if CurrentPricing(st, db.rows, price.key) != Some(price.pricing) {
          changed := changed + [price];
        }
      }
      assert doc.rows[..|doc.rows|] == doc.rows;
      var recorded := RecordCatalog(Catalog(doc.version, at, |doc.rows|, priced, |changed|));
      if !recorded {
        return VersionTaken;
      }
      var inserted := InsertPrices(doc.version, at, changed);
      r := Applied(|doc.rows|, priced, |changed|);
    }
  }
}
