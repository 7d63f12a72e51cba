/** Pricing telemetry while catalogs are synced: syncs, reloads of the shared rate table and events,
    each taken apart into its database statements and run in any interleaving. A sync may stop
    between its two statements, and a reload may read the catalogs before a sync and the rows after. */
module LivePricing {
  import opened CatalogSync
  import opened Machine
  import opened PriceHistory
  import opened Pricing
  import opened Wrappers

  type Id = nat

  datatype Event = Event(key: Option<Key>, usage: TokenUsage, serviceTier: Option<string>, reportedAt: int)

  /** An event that took its snapshot and is not priced yet; `seen` is what the snapshot was read from. */
  datatype InFlight = InFlight(event: Event, table: RateTable, seen: Database)

  /** An answer, with the database it was given against. */
  datatype Answered = Answered(event: Event, seen: Database, asOf: Database, answer: Answer)

  /** `shared` is the table every snapshot is taken of, `loaded` what it was read from, `reloads` the
      catalogs each unfinished reload has read. */
  datatype State = State(db: Database, shared: RateTable, loaded: Database, reloads: map<Id, seq<Catalog>>,
                         events: map<Id, InFlight>, answered: seq<Answered>)

  datatype Action =
    | RecordCatalog(catalog: Catalog)
    | InsertPrices(version: string, at: int, prices: seq<ModelPrice>)
    | ReadCatalogs(task: Id)
    | ReadRows(task: Id)
    | TakeSnapshot(id: Id, event: Event)
    | Price(id: Id)

  function PriceOf(db: Database, table: RateTable, e: Event): Answer {
    PriceEvent(db, table, e.key, e.usage, e.serviceTier, e.reportedAt)
  }

  function Apply(s: State, a: Action): Option<State> {
    match a
    case RecordCatalog(catalog) =>
      if VersionKnown(s.db.catalogs, catalog.version) then None
      else Some(s.(db := s.db.(catalogs := s.db.catalogs + [catalog])))
    case InsertPrices(version, at, prices) =>
      Some(s.(db := s.db.(rows := Insert(ModelPrices(), s.db.rows, version, at, prices))))
    case ReadCatalogs(task) =>
      if task in s.reloads then None else Some(s.(reloads := s.reloads[task := s.db.catalogs]))
    case ReadRows(task) =>
      if task !in s.reloads then None
      else
        var read := Database(s.reloads[task], s.db.rows);
        Some(s.(shared := Load(read), loaded := read, reloads := s.reloads - {task}))
    case TakeSnapshot(id, event) =>
      if id in s.events then None else Some(s.(events := s.events[id := InFlight(event, s.shared, s.loaded)]))
    case Price(id) =>
      if id !in s.events then None
      else
        var e := s.events[id];
        Some(s.(events := s.events - {id},
                answered := s.answered + [Answered(e.event, e.seen, s.db, PriceOf(s.db, e.table, e.event))]))
  }

  /** A process that has loaded nothing yet. */
  function Start(db: Database): State {
    State(db, EMPTY_TABLE, Database([], []), map[], map[], [])
  }

  // ---- What every step keeps ------------------------------------------------------------

  predicate Faithful(s: State, e: InFlight) {
    e.table == Load(e.seen) && Extends(e.seen, s.db)
  }

  predicate Given(s: State, a: Answered) {
    && Extends(a.seen, a.asOf) && Extends(a.asOf, s.db)
    && a.answer == PriceOf(a.asOf, Load(a.seen), a.event)
  }

  /** Every table in use holds what was read, however long ago, and the history only grew since. */
  predicate Sound(s: State) {
    && UniqueRows(s.db.rows)
    && s.shared == Load(s.loaded) && Extends(s.loaded, s.db)
    && (forall id | id in s.events :: Faithful(s, s.events[id]))
    && (forall i | 0 <= i < |s.answered| :: Given(s, s.answered[i]))
  }

  lemma {:induction false} StartIsSound(db: Database)
    requires UniqueRows(db.rows)
    ensures Sound(Start(db))
  {
    assert Load(Database([], [])) == EMPTY_TABLE by {
      assert CurrentRates([], Sorted) == map[];
    }
  }

  lemma {:induction false} GrowthIsSound(s: State, db: Database)
    requires Sound(s) && Extends(s.db, db) && UniqueRows(db.rows)
    ensures Sound(s.(db := db))
  {
    var n := s.(db := db);
    forall id | id in n.events
      ensures Faithful(n, n.events[id])
    {
      assert Faithful(s, s.events[id]);
    }
    forall i | 0 <= i < |n.answered|
      ensures Given(n, n.answered[i])
    {
      assert Given(s, s.answered[i]);
    }
  }

  lemma {:induction false} StepIsSound(s: State, a: Action)
    requires Sound(s) && Apply(s, a).Some?
    ensures Sound(Apply(s, a).value)
  {
    var n := Apply(s, a).value;
    if a.RecordCatalog? || a.InsertPrices? {
      if a.InsertPrices? {
        InsertKeepsUnique(ModelPrices(), s.db.rows, a.version, a.at, a.prices);
      }
      GrowthIsSound(s, n.db);
    } else {
      forall id | id in n.events
        ensures Faithful(n, n.events[id])
      {
        assert id in s.events ==> Faithful(s, s.events[id]);
      }
      forall i | 0 <= i < |n.answered|
        ensures Given(n, n.answered[i])
      {
        assert i < |s.answered| ==> Given(s, s.answered[i]);
      }
    }
  }

  /** Whatever else happens, a snapshot stays as it was taken until its event is priced: a reload
      that replaces the shared table does not reach it. */
  lemma {:induction false} SnapshotsAreUnaffected(s: State, actions: seq<Action>, id: Id)
    requires id in s.events && Run(Apply, s, actions).Some?
    requires forall i | 0 <= i < |actions| :: actions[i] != Price(id)
    ensures var n := Run(Apply, s, actions).value; id in n.events && n.events[id] == s.events[id]
    decreases |actions|
  {
    if actions != [] {
      SnapshotsAreUnaffected(Apply(s, actions[0]).value, actions[1..], id);
    }
  }

  lemma {:induction false} RunIsSound(s: State, actions: seq<Action>)
    requires Sound(s) && Run(Apply, s, actions).Some?
    ensures Sound(Run(Apply, s, actions).value)
    decreases |actions|
  {
    if actions != [] {
      StepIsSound(s, actions[0]);
      RunIsSound(Apply(s, actions[0]).value, actions[1..]);
    }
  }

  /** So an event is answered from the table that was shared when it came in, against the history of the moment
      it is priced. */
  lemma {:induction false} PricedAsItCame(s: State, first: State, actions: seq<Action>, second: State, id: Id,
                                          event: Event)
    requires Apply(s, TakeSnapshot(id, event)) == Some(first) && Run(Apply, first, actions) == Some(second)
    requires forall i | 0 <= i < |actions| :: actions[i] != Price(id)
    ensures Apply(second, Price(id)).Some?
    ensures var now := Apply(second, Price(id)).value.answered;
            && |now| == |second.answered| + 1 && now[..|second.answered|] == second.answered
            && now[|second.answered|].event == event
            && now[|second.answered|].answer
               == PriceEvent(second.db, s.shared, event.key, event.usage, event.serviceTier, event.reportedAt)
  {
    SnapshotsAreUnaffected(first, actions, id);
  }

  predicate NotReading(actions: seq<Action>, task: Id) {
    forall i | 0 <= i < |actions| :: actions[i] != ReadRows(task)
  }

  lemma {:induction false} CatalogsStayRead(s: State, actions: seq<Action>, task: Id)
    requires task in s.reloads && NotReading(actions, task) && Run(Apply, s, actions).Some?
    ensures var n := Run(Apply, s, actions).value; task in n.reloads && n.reloads[task] == s.reloads[task]
    decreases |actions|
  {
    if actions != [] {
      CatalogsStayRead(Apply(s, actions[0]).value, actions[1..], task);
    }
  }

  /** A reload is not one read: whatever happens in between, it stamps with the catalogs of its first statement and
      prices by the rows of its second. */
  lemma {:induction false} ReloadIsTorn(s: State, first: State, actions: seq<Action>, second: State, task: Id)
    requires Apply(s, ReadCatalogs(task)) == Some(first) && NotReading(actions, task)
    requires Run(Apply, first, actions) == Some(second)
    ensures Apply(second, ReadRows(task)).Some?
    ensures var shared := Apply(second, ReadRows(task)).value.shared;
            && shared.catalogVersion == Load(s.db).catalogVersion
            && shared.rates == Load(second.db).rates
            && shared.newestEffectiveFrom == Load(second.db).newestEffectiveFrom
  {
    CatalogsStayRead(first, actions, task);
  }

  ghost predicate Reaches(start: Database, actions: seq<Action>, s: State) {
    UniqueRows(start.rows) && Run(Apply, Start(start), actions) == Some(s)
  }

  lemma {:induction false} RowSurvivesGrowth(asOf: Database, now: Database, key: Key, at: int)
    requires Extends(asOf, now) && BeforeUnseen(asOf, now, at)
    ensures Newest(asOf.rows, key, Some(at)) == Newest(now.rows, key, Some(at))
  {
    var more := now.rows[|asOf.rows|..];
    assert now.rows == asOf.rows + more;
    LaterRowsAreInvisible(asOf.rows, more, key, Some(at));
  }

  /** In every interleaving of syncs, reloads and events, an answer given from a snapshot that had a
      catalog costs what the row in force costs in the history as it is at the end, as long as the
      event was reported before every row appended since the snapshot's rows were read. */
  lemma {:induction false} EveryAnswerIsInForce(start: Database, actions: seq<Action>, s: State, i: nat)
    requires Reaches(start, actions, s) && i < |s.answered|
    requires s.answered[i].seen.catalogs != [] && s.answered[i].event.key.Some?
    requires BeforeUnseen(s.answered[i].seen, s.db, s.answered[i].event.reportedAt)
    ensures var e := s.answered[i].event;
            s.answered[i].answer.cost == CostInForce(s.db, e.key.value, e.usage, e.serviceTier, e.reportedAt)
  {
    StartIsSound(start);
    RunIsSound(Start(start), actions);
    var a := s.answered[i];
    assert Given(s, a);
    assert BeforeUnseen(a.seen, a.asOf, a.event.reportedAt) by {
      assert forall k | 0 <= k < |a.asOf.rows| :: a.asOf.rows[k] == s.db.rows[k];
    }
    StaleTableAgrees(a.seen, a.asOf, a.event.key.value, a.event.usage, a.event.serviceTier, a.event.reportedAt);
    RowSurvivesGrowth(a.asOf, s.db, a.event.key.value, a.event.reportedAt);
  }
}
