/** The append-only price history, the syncs that extend it, and the in-memory rate table that
    must agree with it even when it is stale. Times are integers; a catalog's version stands for
    the digest of its document. */
module PriceHistory {
  import opened Pricing
  import opened Text
  import opened Wrappers
  import Order

  datatype Key = Key(provider: string, model: string)

  function KeyOf(provider: string, model: string): Key {
    Key(NormalizeModelKey(provider), NormalizeModelKey(model))
  }

  datatype Row = Row(key: Key, effectiveFrom: int, catalog: string, pricing: ModelPricing)

  datatype Catalog = Catalog(version: string, fetchedAt: int, modelCount: nat, pricedModelCount: nat,
                             changedModelCount: nat)

  datatype Database = Database(catalogs: seq<Catalog>, rows: seq<Row>)

  // ---- Lookups --------------------------------------------------------------------------

  predicate Covers(r: Row, key: Key, at: Option<int>) {
    r.key == key && (at.Some? ==> r.effectiveFrom <= at.value)
  }

  /** The newest row of a model, among those effective by `at` if a time is given. */
  function Newest(rows: seq<Row>, key: Key, at: Option<int>): Option<Row> {
    if rows == [] then None
    else
      var last := rows[|rows| - 1];
      var best := Newest(rows[..|rows| - 1], key, at);
      if Covers(last, key, at) && (best.None?
                                   || best.value.effectiveFrom < last.effectiveFrom) then Some(last) else best
  }

  function Earliest(rows: seq<Row>, key: Key): Option<Row> {
    if rows == [] then None
    else
      var last := rows[|rows| - 1];
      var best := Earliest(rows[..|rows| - 1], key);
      if last.key == key && (best.None? || last.effectiveFrom < best.value.effectiveFrom) then Some(last) else best
  }

  lemma {:induction false} NewestMeaning(rows: seq<Row>, key: Key, at: Option<int>)
    ensures var best := Newest(rows, key, at);
            && (best.None? <==> forall i | 0 <= i < |rows| :: !Covers(rows[i], key, at))
            && (best.Some? ==>
                  && best.value in rows && Covers(best.value, key, at)
                  && forall i | 0 <= i < |rows| && Covers(rows[i], key, at) ::
                       rows[i].effectiveFrom <= best.value.effectiveFrom)
  {
    if rows != [] {
      var front := rows[..|rows| - 1];
      NewestMeaning(front, key, at);
      assert forall i | 0 <= i < |front| :: front[i] == rows[i];
    }
  }

  lemma {:induction false} EarliestMeaning(rows: seq<Row>, key: Key)
    ensures var best := Earliest(rows, key);
            && (best.None? <==> forall i | 0 <= i < |rows| :: rows[i].key != key)
            && (best.Some? ==>
                  && best.value in rows && best.value.key == key
                  && forall i | 0 <= i < |rows| && rows[i].key == key ::
                       best.value.effectiveFrom <= rows[i].effectiveFrom)
  {
    if rows != [] {
      var front := rows[..|rows| - 1];
      EarliestMeaning(front, key);
      assert forall i | 0 <= i < |front| :: front[i] == rows[i];
    }
  }

  /** Rows that a lookup does not cover are invisible to it. */
  lemma {:induction false} LaterRowsAreInvisible(rows: seq<Row>, more: seq<Row>, key: Key, at: Option<int>)
    requires forall i | 0 <= i < |more| :: !Covers(more[i], key, at)
    ensures Newest(rows + more, key, at) == Newest(rows, key, at)
  {
    if more == [] {
      assert rows + more == rows;
    } else {
      var front := more[..|more| - 1];
      LaterRowsAreInvisible(rows, front, key, at);
      assert (rows + more)[..|rows + more| - 1] == rows + front;
    }
  }

  lemma {:induction false} EarliestStays(rows: seq<Row>, more: seq<Row>, key: Key)
    requires Earliest(rows, key).Some?
    requires forall i | 0 <= i < |more| && more[i].key == key ::
               Earliest(rows, key).value.effectiveFrom <= more[i].effectiveFrom
    ensures Earliest(rows + more, key) == Earliest(rows, key)
  {
    if more == [] {
      assert rows + more == rows;
    } else {
      var front := more[..|more| - 1];
      EarliestStays(rows, front, key);
      assert (rows + more)[..|rows + more| - 1] == rows + front;
    }
  }

  /** A time at or after every row of the history covers whatever is current. */
  lemma {:induction false} CurrentFrom(rows: seq<Row>, key: Key, at: int)
    requires forall i | 0 <= i < |rows| :: rows[i].effectiveFrom <= at
    ensures Newest(rows, key, Some(at)) == Newest(rows, key, None)
  {
    if rows != [] {
      CurrentFrom(rows[..|rows| - 1], key, at);
    }
  }

  /** What a reader of a row gets: bands and lanes are put in canonical order on the way out. */
  function Read(row: Option<Row>): Option<ModelPricing> {
    if row.Some? then Some(Sorted(row.value.pricing)) else None
  }

  predicate IsLatest(catalogs: seq<Catalog>, c: Catalog) {
    c in catalogs && forall i | 0 <= i < |catalogs| :: catalogs[i].fetchedAt <= c.fetchedAt
  }

  function LatestCatalog(catalogs: seq<Catalog>): Option<Catalog> {
    if catalogs == [] then None
    else
      var last := catalogs[|catalogs| - 1];
      var best := LatestCatalog(catalogs[..|catalogs| - 1]);
      if best.None? || best.value.fetchedAt <= last.fetchedAt then Some(last) else best
  }

  lemma {:induction false} LatestMeaning(catalogs: seq<Catalog>)
    ensures LatestCatalog(catalogs).None? <==> catalogs == []
    ensures LatestCatalog(catalogs).Some? ==> IsLatest(catalogs, LatestCatalog(catalogs).value)
  {
    if catalogs != [] {
      var front := catalogs[..|catalogs| - 1];
      LatestMeaning(front);
      assert forall i | 0 <= i < |front| :: front[i] == catalogs[i];
    }
  }

  // ---- The rate table -------------------------------------------------------------------

  datatype RateTable = RateTable(catalogVersion: Option<string>, newestEffectiveFrom: Option<int>, rates: map<Key,
                                 ModelPricing>)

  const EMPTY_TABLE := RateTable(None, None, map[])

  function Keys(rows: seq<Row>): set<Key> {
    set i | 0 <= i < |rows| :: rows[i].key
  }

  /** The newest time of any row. */
  function NewestTime(rows: seq<Row>): Option<int> {
    if rows == [] then None
    else
      var last := rows[|rows| - 1].effectiveFrom;
      var best := NewestTime(rows[..|rows| - 1]);
      if best.None? || best.value < last then Some(last) else best
  }

  lemma {:induction false} NewestTimeMeaning(rows: seq<Row>)
    ensures NewestTime(rows).None? <==> rows == []
    ensures NewestTime(rows).Some? ==>
              && (forall i | 0 <= i < |rows| :: rows[i].effectiveFrom <= NewestTime(rows).value)
              && exists i | 0 <= i < |rows| :: rows[i].effectiveFrom == NewestTime(rows).value
  {
    if rows != [] {
      var front := rows[..|rows| - 1];
      NewestTimeMeaning(front);
      assert forall i | 0 <= i < |front| :: front[i] == rows[i];
      if front != [] {
        var i :| 0 <= i < |front| && front[i].effectiveFrom == NewestTime(front).value;
        assert rows[i].effectiveFrom == NewestTime(front).value;
      }
      assert rows[|rows| - 1].effectiveFrom <= NewestTime(rows).value;
    }
  }

  type Decoder = ModelPricing -> ModelPricing

  function CurrentRates(rows: seq<Row>, decode: Decoder): map<Key, ModelPricing> {
    map k | k in Keys(rows) && Newest(rows, k, None).Some? :: decode(Newest(rows, k, None).value.pricing)
  }

  /** What `reload` leaves in memory. */
  function Load(db: Database): RateTable {
    var latest := LatestCatalog(db.catalogs);
    RateTable(if latest.Some? then Some(latest.value.version) else None, NewestTime(db.rows),
              CurrentRates(db.rows, Sorted))
  }

  function RateFor(t: RateTable, key: Key): Option<ModelPricing> {
    if key in t.rates then Some(t.rates[key]) else None
  }

  lemma {:induction false} TableHoldsCurrent(db: Database, key: Key)
    ensures RateFor(Load(db), key) == Read(Newest(db.rows, key, None))
  {
    NewestMeaning(db.rows, key, None);
    if Newest(db.rows, key, None).Some? {
      assert key in Keys(db.rows);
    }
  }

  /** Whatever order prices were stored in, the table holds them in canonical order, so that comparing is exact. */
  lemma {:induction false} TableIsCanonical(db: Database, key: Key)
    ensures RateFor(Load(db), key).Some? ==> Canonical(RateFor(Load(db), key).value)
  {
    TableHoldsCurrent(db, key);
    var newest := Newest(db.rows, key, None);
    if newest.Some? {
      SortedIsCanonical(newest.value.pricing);
    }
  }

  /** The answer to a telemetry event: its cost and the catalog stamped on it. */
  datatype Answer = Answer(cost: PricedCost, version: Option<string>)

  function Unknown(reason: UnpricedReason): Answer {
    Answer(Unpriced(reason), None)
  }

  predicate Predates(t: RateTable, reportedAt: int) {
    t.newestEffectiveFrom.Some? && reportedAt < t.newestEffectiveFrom.value
  }

  /** The event's model, if it names both a provider and a model. */
  function EventKey(provider: Option<string>, model: Option<string>): Option<Key> {
    if provider.Some? && model.Some? then Some(KeyOf(provider.value, model.value)) else None
  }

  /** However a client cases and pads the names, the event prices as the normalized model; an event that names only
      one of them names none. */
  lemma {:induction false} SpellingIsIrrelevant(provider: string, model: string)
    ensures EventKey(Some(NormalizeModelKey(provider)), Some(NormalizeModelKey(model)))
            == EventKey(Some(provider), Some(model))
            == Some(Key(NormalizeModelKey(provider), NormalizeModelKey(model)))
    ensures EventKey(None, Some(model)) == EventKey(Some(provider), None) == EventKey(None, None) == None
  {
    TrimmedLowerIsStable(provider);
    TrimmedLowerIsStable(model);
  }

  function PriceEvent(db: Database, t: RateTable, event: Option<Key>, u: TokenUsage, serviceTier: Option<string>,
                      reportedAt: int): Answer
  {
    if t.catalogVersion.None? then Unknown(NoCatalog)
    else if event.None? then Unknown(ModelUnknown)
    else
      var row := Newest(db.rows, event.value, Some(reportedAt));
      var pricing := if Predates(t, reportedAt) then Read(row) else RateFor(t, event.value);
      var version :=
        if !Predates(t, reportedAt) then t.catalogVersion
        else if row.Some? then Some(row.value.catalog)
        else None;
      if pricing.None? then Unknown(ModelUnknown)
      else
        var cost := PriceModelCallTiered(pricing.value, u, serviceTier);
        Answer(cost, if cost.Priced? then version else None)
  }

  /** Pricing by what a lookup returned. */
  function CostBy(pricing: Option<ModelPricing>, u: TokenUsage, serviceTier: Option<string>): PricedCost {
    if pricing.None? then Unpriced(ModelUnknown) else PriceModelCallTiered(pricing.value, u, serviceTier)
  }

  /** Pricing by the row in force. */
  function CostInForce(db: Database, key: Key, u: TokenUsage, serviceTier: Option<string>, at: int): PricedCost {
    CostBy(Read(Newest(db.rows, key, Some(at))), u, serviceTier)
  }

  // ---- What an event is answered --------------------------------------------------------

  predicate IsBy(r: Row, key: Key, at: Option<int>) {
    r.key == key && (at.None? || r.effectiveFrom <= at.value)
  }

  /** The row of the model in force at a time, or at all: the newest effective by then, and the first of
      equals. */
  predicate IsInForce(rows: seq<Row>, key: Key, at: Option<int>, i: nat) {
    && i < |rows| && IsBy(rows[i], key, at)
    && forall j | 0 <= j < |rows| && IsBy(rows[j], key, at) ::
         rows[j].effectiveFrom < rows[i].effectiveFrom || (rows[j].effectiveFrom == rows[i].effectiveFrom && i <= j)
  }

  predicate IsEarliest(rows: seq<Row>, key: Key, i: nat) {
    && i < |rows| && rows[i].key == key
    && forall j | 0 <= j < |rows| && rows[j].key == key ::
         rows[i].effectiveFrom < rows[j].effectiveFrom || (rows[j].effectiveFrom == rows[i].effectiveFrom && i <= j)
  }

  lemma {:induction false} InForceIsNewest(rows: seq<Row>, key: Key, at: Option<int>) returns (i: nat)
    requires Newest(rows, key, at).Some?
    ensures IsInForce(rows, key, at, i) && Newest(rows, key, at) == Some(rows[i])
  {
    var front := rows[..|rows| - 1];
    var best := Newest(front, key, at);
    NewestMeaning(front, key, at);
    if best.Some? {
      i := InForceIsNewest(front, key, at);
    }
    if Newest(rows, key, at) != best {
      i := |rows| - 1;
    }
    forall j | 0 <= j < |rows| && IsBy(rows[j], key, at)
      ensures rows[j].effectiveFrom < rows[i].effectiveFrom
              || (rows[j].effectiveFrom == rows[i].effectiveFrom && i <= j)
    {
      if j < |front| {
        assert front[j] == rows[j];
        assert Covers(front[j], key, at);
      }
    }
  }

  /** And there is one whenever a row is in force. */
  lemma {:induction false} NewestOfIndex(rows: seq<Row>, key: Key, at: Option<int>, i: nat)
    requires IsInForce(rows, key, at, i)
    ensures Newest(rows, key, at) == Some(rows[i])
  {
    NewestMeaning(rows, key, at);
    assert Covers(rows[i], key, at);
    var k := InForceIsNewest(rows, key, at);
    assert IsBy(rows[k], key, at) && k == i;
  }

  lemma {:induction false} EarliestIsFirst(rows: seq<Row>, key: Key) returns (i: nat)
    requires Earliest(rows, key).Some?
    ensures IsEarliest(rows, key, i) && Earliest(rows, key) == Some(rows[i])
  {
    var front := rows[..|rows| - 1];
    var best := Earliest(front, key);
    EarliestMeaning(front, key);
    if best.Some? {
      i := EarliestIsFirst(front, key);
    }
    if Earliest(rows, key) != best {
      i := |rows| - 1;
    }
    assert forall j | 0 <= j < |front| :: front[j] == rows[j];
  }

  /** Reading a row puts its prices in order, which changes no cost. */
  lemma {:induction false} ReadingKeepsCost(row: Row, u: TokenUsage, serviceTier: Option<string>)
    ensures CostBy(Read(Some(row)), u, serviceTier) == PriceModelCallTiered(row.pricing, u, serviceTier)
  {
    EmptyListGuardIsRedundant(row.pricing, u, serviceTier);
    EmptyListGuardIsRedundant(Sorted(row.pricing), u, serviceTier);
    SortingKeepsRates(row.pricing, u.tokensIn, serviceTier);
  }

  /** Some row the table was loaded from takes effect only after the event. */
  predicate IsOlderThanTable(seen: Database, at: int) {
    exists i | 0 <= i < |seen.rows| :: at < seen.rows[i].effectiveFrom
  }

  /** The row an event is priced by: the one in force in the history as it is now when the event is older than the
      table, and otherwise the model's newest as the table was loaded. */
  predicate Answers(seen: Database, now: Database, key: Key, at: int, row: Row) {
    if IsOlderThanTable(seen, at) then
      exists i: nat | i < |now.rows| :: IsInForce(now.rows, key, Some(at), i) && row == now.rows[i]
    else exists i: nat | i < |seen.rows| :: IsInForce(seen.rows, key, None, i) && row == seen.rows[i]
  }

  lemma {:induction false} TableIsOlder(seen: Database, at: int)
    ensures Predates(Load(seen), at) <==> IsOlderThanTable(seen, at)
  {
    NewestTimeMeaning(seen.rows);
  }

  lemma {:induction false} AnswersByIndex(rows: seq<Row>, key: Key, at: Option<int>, row: Row)
    ensures Newest(rows, key, at) == Some(row) <==>
            exists i: nat | i < |rows| :: IsInForce(rows, key, at, i) && row == rows[i]
  {
    if Newest(rows, key, at) == Some(row) {
      var i := InForceIsNewest(rows, key, at);
    }
    forall i: nat | i < |rows| && IsInForce(rows, key, at, i)
      ensures Newest(rows, key, at) == Some(rows[i])
    {
      NewestOfIndex(rows, key, at, i);
    }
  }

  lemma {:induction false} AnswerByRow(seen: Database, now: Database, key: Key, u: TokenUsage,
                                       serviceTier: Option<string>, at: int, row: Option<Row>)
    requires seen.catalogs != [] && LatestCatalog(seen.catalogs).Some?
    requires row == if IsOlderThanTable(seen, at) then Newest(now.rows, key, Some(at)) else Newest(seen.rows, key, None)
    ensures PriceEvent(now, Load(seen), Some(key), u, serviceTier, at) ==
            if row.None? then Unknown(ModelUnknown)
            else
              var cost := PriceModelCallTiered(row.value.pricing, u, serviceTier);
              Answer(cost, if cost.Unpriced? then None else if IsOlderThanTable(seen, at) then Some(row.value.catalog)
                           else Some(LatestCatalog(seen.catalogs).value.version))
  {
    TableIsOlder(seen, at);
    TableHoldsCurrent(seen, key);
    if row.Some? {
      ReadingKeepsCost(row.value, u, serviceTier);
    }
  }

  lemma {:induction false} RowAnswers(seen: Database, now: Database, key: Key, at: int, row: Row)
    ensures Answers(seen, now, key, at, row) <==>
            Some(row) == if IsOlderThanTable(seen, at) then Newest(now.rows, key, Some(at))
                         else Newest(seen.rows, key, None)
  {
    AnswersByIndex(now.rows, key, Some(at), row);
    AnswersByIndex(seen.rows, key, None, row);
  }

  /** The answer to an event in every case, without the table: no catalog, names that are missing or unknown, a price
      with its stamp, and a call nothing published is used by, which carries no stamp. */
  lemma {:induction false} EveryAnswer(seen: Database, now: Database, event: Option<Key>, u: TokenUsage,
                                       serviceTier: Option<string>, at: int)
    ensures var answer := PriceEvent(now, Load(seen), event, u, serviceTier, at);
            if seen.catalogs == [] then answer == Answer(Unpriced(NoCatalog), None)
            else if event.None? then answer == Answer(Unpriced(ModelUnknown), None)
            else
              && ((forall row :: !Answers(seen, now, event.value, at, row)) ==>
                    answer == Answer(Unpriced(ModelUnknown), None))
              && forall row | Answers(seen, now, event.value, at, row) ::
                   && answer.cost == PriceModelCallTiered(row.pricing, u, serviceTier)
                   && (answer.cost.Unpriced? ==> answer.version.None?)
                   && (answer.cost.Priced? && IsOlderThanTable(seen, at) ==> answer.version == Some(row.catalog))
                   && (answer.cost.Priced? && !IsOlderThanTable(seen, at) ==>
                         exists c | c in seen.catalogs ::
                           IsLatest(seen.catalogs, c) && answer.version == Some(c.version))
  {
    LatestMeaning(seen.catalogs);
    if seen.catalogs != [] && event.Some? {
      var key := event.value;
      var found := if IsOlderThanTable(seen, at) then Newest(now.rows, key, Some(at)) else Newest(seen.rows, key, None);
      AnswerByRow(seen, now, key, u, serviceTier, at, found);
      forall row
        ensures Answers(seen, now, key, at, row) <==> Some(row) == found
      {
        RowAnswers(seen, now, key, at, row);
      }
    }
  }

  /** The history has only been appended to since the table was loaded. */
  predicate Extends(seen: Database, now: Database) {
    seen.rows <= now.rows
  }

  /** The event was reported before the first append the table has not seen. */
  predicate BeforeUnseen(seen: Database, now: Database, at: int) {
    forall i | |seen.rows| <= i < |now.rows| :: at < now.rows[i].effectiveFrom
  }

  /** A loaded rate table, however stale, resolves every event reported before the first append it
      has not seen to the row in force in the full current history. */
  lemma {:induction false} StaleTableResolves(seen: Database, now: Database, key: Key, at: int)
    requires Extends(seen, now) && BeforeUnseen(seen, now, at) && !Predates(Load(seen), at)
    ensures RateFor(Load(seen), key) == Read(Newest(now.rows, key, Some(at)))
  {
    var more := now.rows[|seen.rows|..];
    assert now.rows == seen.rows + more;
    NewestTimeMeaning(seen.rows);
    CurrentFrom(seen.rows, key, at);
    LaterRowsAreInvisible(seen.rows, more, key, Some(at));
    TableHoldsCurrent(seen, key);
  }

  /** On the memory branch and the database branch alike, the cost of an event is that of the row
      in force in the full current history, if it was reported before the first unseen append. */
  lemma {:induction false} StaleTableAgrees(seen: Database, now: Database, key: Key, u: TokenUsage,
                                            serviceTier: Option<string>, at: int)
    requires Extends(seen, now) && BeforeUnseen(seen, now, at) && seen.catalogs != []
    ensures PriceEvent(now, Load(seen), Some(key), u, serviceTier, at).cost == CostInForce(now, key, u, serviceTier, at)
  {
    LatestMeaning(seen.catalogs);
    if !Predates(Load(seen), at) {
      StaleTableResolves(seen, now, key, at);
    }
  }

  function Unseen(seen: Database, now: Database): seq<Row>
    requires Extends(seen, now)
  {
    now.rows[|seen.rows|..]
  }

  predicate AllLater(rows: seq<Row>, more: seq<Row>) {
    forall i, j | 0 <= i < |rows| && 0 <= j < |more| :: rows[i].effectiveFrom < more[j].effectiveFrom
  }

  predicate NoneCovers(more: seq<Row>, key: Key, at: int) {
    forall j | 0 <= j < |more| :: !Covers(more[j], key, Some(at))
  }

  lemma {:induction false} CurrentExactly(rows: seq<Row>, more: seq<Row>, key: Key, at: int)
    requires AllLater(rows, more) && forall i | 0 <= i < |rows| :: rows[i].effectiveFrom <= at
    ensures Newest(rows, key, None) == Newest(rows + more, key, Some(at)) <==> NoneCovers(more, key, at)
  {
    CurrentFrom(rows, key, at);
    if NoneCovers(more, key, at) {
      LaterRowsAreInvisible(rows, more, key, Some(at));
    } else {
      var j :| 0 <= j < |more| && Covers(more[j], key, Some(at));
      NewestMeaning(rows, key, None);
      NewestMeaning(rows + more, key, Some(at));
      assert (rows + more)[|rows| + j] == more[j];
    }
  }

  /** From the first unseen append of its model on, the memory branch still answers from the row
      before it: it resolves to the row in force exactly when no unseen row of the model is
      effective by the time of the event. */
  lemma {:induction false} StaleExactly(seen: Database, now: Database, key: Key, at: int)
    requires Extends(seen, now) && !Predates(Load(seen), at) && AllLater(seen.rows, Unseen(seen, now))
    ensures Newest(seen.rows, key, None) == Newest(now.rows, key, Some(at)) <==> NoneCovers(Unseen(seen, now), key, at)
  {
    assert now.rows == seen.rows + Unseen(seen, now);
    NewestTimeMeaning(seen.rows);
    CurrentExactly(seen.rows, Unseen(seen, now), key, at);
  }

  /** Exactly when the catalog stamped on a priced event is the one that published the row in force:
      when the event predates the table and the row is looked up, or when the latest catalog of the
      table happens to be the row's own. From memory the stamp is always the latest catalog. */
  lemma {:induction false} StampIsOwnExactly(seen: Database, now: Database, key: Key, u: TokenUsage,
      serviceTier: Option<string>, at: int)
    requires Extends(seen, now) && BeforeUnseen(seen, now, at) && seen.catalogs != []
    requires PriceEvent(now, Load(seen), Some(key), u, serviceTier, at).cost.Priced?
    ensures var (row, latest) := (Newest(now.rows, key, Some(at)), LatestCatalog(seen.catalogs));
            var version := PriceEvent(now, Load(seen), Some(key), u, serviceTier, at).version;
            && row.Some? && latest.Some?
            && (version == Some(row.value.catalog)
                <==> Predates(Load(seen), at) || row.value.catalog == latest.value.version)
            && (!Predates(Load(seen), at) ==> version == Some(latest.value.version))
  {
    LatestMeaning(seen.catalogs);
    StaleTableAgrees(seen, now, key, u, serviceTier, at);
  }

  // ---- The shared table -----------------------------------------------------------------

  /** No two rows of a model share a time. */
  predicate UniqueRows(rows: seq<Row>) {
    forall i, j | 0 <= i < j < |rows| :: rows[i].key != rows[j].key || rows[i].effectiveFrom != rows[j].effectiveFrom
  }

  predicate IsCurrent(rows: seq<Row>, r: Row) {
    forall i | 0 <= i < |rows| && rows[i].key == r.key :: rows[i].effectiveFrom <= r.effectiveFrom
  }

  lemma {:induction false} CurrentIsNewest(rows: seq<Row>, i: nat)
    requires UniqueRows(rows) && i < |rows|
    ensures IsCurrent(rows, rows[i]) <==> Newest(rows, rows[i].key, None) == Some(rows[i])
  {
    NewestMeaning(rows, rows[i].key, None);
    var best := Newest(rows, rows[i].key, None).value;
    var j :| 0 <= j < |rows| && rows[j] == best;
  }

  /** Every row that is not current is older than one that is. */
  lemma {:induction false} NewestIsCurrent(rows: seq<Row>, key: Key)
    requires key in Keys(rows)
    ensures Newest(rows, key, None).Some? && Newest(rows, key, None).value in rows
    ensures IsCurrent(rows, Newest(rows, key, None).value)
    ensures forall i | 0 <= i < |rows| && rows[i].key == key ::
              rows[i].effectiveFrom <= Newest(rows, key, None).value.effectiveFrom
  {
    NewestMeaning(rows, key, None);
  }

  predicate HoldsNewest(rows: seq<Row>, rates: map<Key, ModelPricing>, decode: Decoder, key: Key)
    requires key in rates
  {
    Newest(rows, key, None).Some? && rates[key] == decode(Newest(rows, key, None).value.pricing)
  }

  /** `rates` is filled from the current ones among the first `n` rows. */
  predicate Filled(rows: seq<Row>, n: nat, rates: map<Key, ModelPricing>, decode: Decoder)
    requires n <= |rows|
  {
    && (forall k | k in rates :: HoldsNewest(rows, rates, decode, k))
    && (forall i | 0 <= i < n && IsCurrent(rows, rows[i]) :: rows[i].key in rates)
  }

  lemma {:induction false} FilledIsCurrentRates(rows: seq<Row>, rates: map<Key, ModelPricing>, decode: Decoder)
    requires Filled(rows, |rows|, rates, decode)
    ensures rates == CurrentRates(rows, decode)
  {
    forall k
      ensures k in rates <==> k in Keys(rows)
    {
      NewestMeaning(rows, k, None);
      if k in Keys(rows) {
        NewestIsCurrent(rows, k);
      }
      if k in rates {
        assert HoldsNewest(rows, rates, decode, k);
      }
    }
    forall k | k in rates
      ensures Newest(rows, k, None).Some? && rates[k] == decode(Newest(rows, k, None).value.pricing)
    {
      assert HoldsNewest(rows, rates, decode, k);
    }
  }

  /** `newest` is the greatest time among the current ones of the first `n` rows. */
  predicate NewestOfCurrent(rows: seq<Row>, n: nat, newest: Option<int>)
    requires n <= |rows|
  {
    && (forall i | 0 <= i < n && IsCurrent(rows, rows[i]) :: newest.Some? && rows[i].effectiveFrom <= newest.value)
    && (newest.Some? ==> NewestTime(rows).Some? && newest.value <= NewestTime(rows).value)
  }

  lemma {:induction false} NewestRow(rows: seq<Row>) returns (i: nat)
    requires rows != []
    ensures i < |rows| && NewestTime(rows) == Some(rows[i].effectiveFrom)
    ensures forall j | 0 <= j < |rows| :: rows[j].effectiveFrom <= rows[i].effectiveFrom
  {
    NewestTimeMeaning(rows);
    i :| 0 <= i < |rows| && rows[i].effectiveFrom == NewestTime(rows).value;
  }

  /** The greatest time among the current rows is the greatest of all. */
  lemma {:induction false} NewestOfCurrentIsNewest(rows: seq<Row>, newest: Option<int>)
    requires NewestOfCurrent(rows, |rows|, newest)
    ensures newest == NewestTime(rows)
  {
    if rows != [] {
      var i := NewestRow(rows);
      assert IsCurrent(rows, rows[i]);
    }
  }

  lemma {:induction false} FillOne(rows: seq<Row>, n: nat, rates: map<Key, ModelPricing>, decode: Decoder)
    requires n < |rows| && UniqueRows(rows) && Filled(rows, n, rates, decode) && IsCurrent(rows, rows[n])
    ensures Filled(rows, n + 1, rates[rows[n].key := decode(rows[n].pricing)], decode)
  {
    CurrentIsNewest(rows, n);
    var next := rates[rows[n].key := decode(rows[n].pricing)];
    forall k | k in next
      ensures HoldsNewest(rows, next, decode, k)
    {
      assert k != rows[n].key ==> HoldsNewest(rows, rates, decode, k);
    }
  }

  lemma {:induction false} SkipOne(rows: seq<Row>, n: nat, rates: map<Key, ModelPricing>, newest: Option<int>,
                                   decode: Decoder)
    requires n < |rows| && Filled(rows, n, rates, decode) && NewestOfCurrent(rows, n, newest)
    requires !IsCurrent(rows, rows[n])
    ensures Filled(rows, n + 1, rates, decode) && NewestOfCurrent(rows, n + 1, newest)
  {
  }

  lemma {:induction false} RaiseOne(rows: seq<Row>, n: nat, newest: Option<int>)
    requires n < |rows| && NewestOfCurrent(rows, n, newest)
    ensures var at := rows[n].effectiveFrom;
            NewestOfCurrent(rows, n + 1, if newest.None? || newest.value < at then Some(at) else newest)
  {
    NewestTimeMeaning(rows);
  }

  /** The process-wide handle: swapped wholesale, read as a snapshot. */
  class SharedRateTable {
    var table: RateTable

    constructor ()
      ensures table == EMPTY_TABLE
    {
      table := EMPTY_TABLE;
    }

    method Snapshot() returns (t: RateTable)
      ensures t == table
    {
      t := table;
    }

    method Replace(t: RateTable)
      modifies this
      ensures table == t
    {
      table := t;
    }

    /** Prices one event from a snapshot, or from the row in force when it predates the snapshot. */
    method Price(db: Database, event: Option<Key>, u: TokenUsage, serviceTier: Option<string>,
                 reportedAt: int) returns (answer: Answer)
      ensures answer == PriceEvent(db, table, event, u, serviceTier, reportedAt)
    {
      var snapshot := Snapshot();
      if snapshot.catalogVersion.None? {
        return Unknown(NoCatalog);
      }
      if event.None? {
        return Unknown(ModelUnknown);
      }
      var key := event.value;
      var pricing, version := None, None;
      if Predates(snapshot, reportedAt) {
        var found := Newest(db.rows, key, Some(reportedAt));
        if found.Some? {
          pricing, version := Read(found), Some(found.value.catalog);
        }
      } else if key in snapshot.rates {
        pricing, version := Some(snapshot.rates[key]), snapshot.catalogVersion;
      }
      if pricing.None? {
        return Unknown(ModelUnknown);
      }
      var cost := PriceModelCallTiered(pricing.value, u, serviceTier);
      answer := Answer(cost, if cost.Priced? then version else None);
    }

    /** Rebuilds the table from the current row of each model. */
    method Reload(db: Database) returns (loaded: nat)
      requires UniqueRows(db.rows)
      modifies this
      ensures table == Load(db) && loaded == |table.rates|
    {
      var latest := LatestCatalog(db.catalogs);
      var newest: Option<int> := None;
      var rates: map<Key, ModelPricing> := map[];
      for i := 0 to |db.rows|
        invariant NewestOfCurrent(db.rows, i, newest)
        invariant Filled(db.rows, i, rates, Sorted)
      {
        var row := db.rows[i];
        if IsCurrent(db.rows, row) {
          FillOne(db.rows, i, rates, Sorted);
          RaiseOne(db.rows, i, newest);
          if newest.None? || newest.value < row.effectiveFrom {
            newest := Some(row.effectiveFrom);
          }
          rates := rates[row.key := Sorted(row.pricing)];
        } else {
          SkipOne(db.rows, i, rates, newest, Sorted);
        }
      }
      FilledIsCurrentRates(db.rows, rates, Sorted);
      NewestOfCurrentIsNewest(db.rows, newest);
      loaded := |rates|;
      Replace(RateTable(if latest.Some? then Some(latest.value.version) else None, newest, rates));
    }
  }
}
