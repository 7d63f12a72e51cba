/** Repricing the model calls that carry no cost: pages of unpriced calls in id order, each call
    resolved against the price history, each page stored before the next is read. */
module Reprice {
  import opened PriceHistory
  import opened Pricing
  import opened Wrappers

  const BATCH: nat := 500

  type Id = int

  datatype Mode = InForceOnly | EarliestKnownFallback

  datatype Basis = InForce | EarliestKnown

  /** What is stored with a call; a call without a cost is unpriced. */
  datatype Stored = Stored(cost: Option<int>, reason: Option<UnpricedReason>, version: Option<string>,
                           basis: Option<Basis>)

  datatype Call = Call(id: Id, key: Option<Key>, usage: TokenUsage, serviceTier: Option<string>, reportedAt: int,
                       stored: Stored)

  datatype Resolved = Resolved(cost: PricedCost, basis: Basis, version: string)

  datatype Report = Report(examined: nat, pricedInForce: nat, pricedFromEarliest: nat, leftUnpriced: nat)

  // ---- One call -------------------------------------------------------------------------

  function Resolve(db: Database, c: Call, mode: Mode): Option<Resolved> {
    if c.key.None? then None
    else
      var row := Newest(db.rows, c.key.value, Some(c.reportedAt));
      if row.Some? then Some(Resolved(CostBy(Read(row), c.usage, c.serviceTier), InForce, row.value.catalog))
      else if mode.InForceOnly? then None
      else
        var first := Earliest(db.rows, c.key.value);
        if first.None? then None
        else Some(Resolved(CostBy(Read(first), c.usage, c.serviceTier), EarliestKnown, first.value.catalog))
  }

  function Verdict(db: Database, mode: Mode, c: Call): Stored {
    var r := Resolve(db, c, mode);
    if r.Some? && r.value.cost.Priced? then Stored(Some(r.value.cost.costMicros), None, Some(r.value.version),
                                                   Some(r.value.basis))
    else Stored(None, Some(ModelUnknown), None, None)
  }

  /** A cost in force is what the row in force gives; the earliest row is used only on request, and
      only for a call that no row of its model covers in time. */
  lemma {:induction false} BasisIsHonest(db: Database, mode: Mode, c: Call)
    ensures var v := Verdict(db, mode, c);
            && (v.basis == Some(InForce) ==>
                  && c.key.Some?
                  && Priced(v.cost.value) == CostInForce(db, c.key.value, c.usage, c.serviceTier, c.reportedAt))
            && (v.basis == Some(EarliestKnown) ==>
                  && mode.EarliestKnownFallback? && c.key.Some?
                  && (forall i | 0 <= i < |db.rows| && db.rows[i].key == c.key.value ::
                        c.reportedAt < db.rows[i].effectiveFrom)
                  && var first := Earliest(db.rows, c.key.value);
                     && first.Some? && v.version == Some(first.value.catalog)
                     && (forall i | 0 <= i < |db.rows| && db.rows[i].key == c.key.value ::
                           first.value.effectiveFrom <= db.rows[i].effectiveFrom)
                     && Priced(v.cost.value) == CostBy(Read(first), c.usage, c.serviceTier))
            && (v.cost.Some? <==> v.basis.Some?) && (v.cost.Some? <==> v.reason.None?)
  {
    if c.key.Some? {
      NewestMeaning(db.rows, c.key.value, Some(c.reportedAt));
      EarliestMeaning(db.rows, c.key.value);
      if Newest(db.rows, c.key.value, Some(c.reportedAt)).None? {
        forall i | 0 <= i < |db.rows| && db.rows[i].key == c.key.value
          ensures c.reportedAt < db.rows[i].effectiveFrom
        {
          assert !Covers(db.rows[i], c.key.value, Some(c.reportedAt));
        }
      }
    }
  }

  /** The row that may price the call on this basis: the one in force, or, on request and when none is,
      the earliest. */
  predicate Supplies(db: Database, mode: Mode, c: Call, basis: Basis, i: nat) {
    c.key.Some? &&
    match basis
    case InForce => IsInForce(db.rows, c.key.value, Some(c.reportedAt), i)
    case EarliestKnown =>
      && mode.EarliestKnownFallback? && IsEarliest(db.rows, c.key.value, i)
      && c.reportedAt < db.rows[i].effectiveFrom
  }

  function CostFrom(row: Row, c: Call): PricedCost {
    PriceModelCallTiered(row.pricing, c.usage, c.serviceTier)
  }

  predicate Prices(db: Database, mode: Mode, c: Call, basis: Basis, i: nat) {
    i < |db.rows| && Supplies(db, mode, c, basis, i) && CostFrom(db.rows[i], c).Priced?
  }

  /** What a run stores: the cost, the catalog and the basis of the row that prices the call, and if
      none does, that the model is unknown. */
  ghost predicate IsVerdict(db: Database, mode: Mode, c: Call, stored: Stored) {
    && (forall basis: Basis, i: nat | Prices(db, mode, c, basis, i) ::
          stored == Stored(Some(CostFrom(db.rows[i], c).costMicros), None, Some(db.rows[i].catalog), Some(basis)))
    && ((forall basis: Basis, i: nat :: !Prices(db, mode, c, basis, i)) ==>
          stored == Stored(None, Some(ModelUnknown), None, None))
  }

  lemma {:induction false} OneSupplier(db: Database, mode: Mode, c: Call, basis: Basis, i: nat, other: Basis, j: nat)
    requires Supplies(db, mode, c, basis, i) && Supplies(db, mode, c, other, j)
    ensures basis == other && i == j
  {
  }

  /** Whatever row may price the call is the one it is resolved by. */
  lemma {:induction false} ResolvedBySupplier(db: Database, mode: Mode, c: Call) returns (basis: Basis, i: nat)
    ensures Resolve(db, c, mode).None? ==> forall b: Basis, j: nat :: !Supplies(db, mode, c, b, j)
    ensures Resolve(db, c, mode).Some? ==>
              && i < |db.rows| && Supplies(db, mode, c, basis, i)
              && Resolve(db, c, mode) == Some(Resolved(CostFrom(db.rows[i], c), basis, db.rows[i].catalog))
  {
    basis, i := InForce, 0;
    if c.key.Some? {
      var key := c.key.value;
      NewestMeaning(db.rows, key, Some(c.reportedAt));
      EarliestMeaning(db.rows, key);
      if Newest(db.rows, key, Some(c.reportedAt)).Some? {
        i := InForceIsNewest(db.rows, key, Some(c.reportedAt));
        ReadingKeepsCost(db.rows[i], c.usage, c.serviceTier);
      } else {
        assert forall j | 0 <= j < |db.rows| && db.rows[j].key == key :: !Covers(db.rows[j], key, Some(c.reportedAt));
        if Earliest(db.rows, key).Some? {
          basis := EarliestKnown;
          i := EarliestIsFirst(db.rows, key);
          ReadingKeepsCost(db.rows[i], c.usage, c.serviceTier);
        }
      }
    }
  }

  /** A call which can be priced is priced, by the row in force or, failing that and on request, by the earliest,
      and exactly the others are left unpriced. */
  lemma {:induction false} VerdictMeaning(db: Database, mode: Mode, c: Call)
    ensures forall stored :: IsVerdict(db, mode, c, stored) <==> stored == Verdict(db, mode, c)
  {
    var basis, i := ResolvedBySupplier(db, mode, c);
    if Resolve(db, c, mode).Some? {
      forall b: Basis, j: nat | Supplies(db, mode, c, b, j)
        ensures b == basis && j == i
      {
        OneSupplier(db, mode, c, basis, i, b, j);
      }
      if CostFrom(db.rows[i], c).Priced? {
        assert Prices(db, mode, c, basis, i);
      }
    }
  }

  // ---- The table of calls ---------------------------------------------------------------

  predicate Unpriced(c: Call) {
    c.stored.cost.None?
  }

  predicate After(c: Call, cursor: Option<Id>) {
    cursor.None? || c.id > cursor.value
  }

  predicate InIdOrder(calls: seq<Call>) {
    forall i, j | 0 <= i < j < |calls| :: calls[i].id < calls[j].id
  }

  /** The unpriced calls after the cursor, in id order. */
  function Candidates(calls: seq<Call>, cursor: Option<Id>): seq<Call> {
    if calls == [] then []
    else (if Unpriced(calls[0]) && After(calls[0], cursor) then [calls[0]] else []) + Candidates(calls[1..], cursor)
  }

  function Page(calls: seq<Call>, cursor: Option<Id>, limit: nat): seq<Call> {
    var all := Candidates(calls, cursor);
    if |all| <= limit then all else all[..limit]
  }

  lemma {:induction false} CandidatesMeaning(calls: seq<Call>, cursor: Option<Id>)
    requires InIdOrder(calls)
    ensures InIdOrder(Candidates(calls, cursor))
    ensures forall c :: c in Candidates(calls, cursor) <==> c in calls && Unpriced(c) && After(c, cursor)
  {
    if calls != [] {
      CandidatesMeaning(calls[1..], cursor);
      assert calls == [calls[0]] + calls[1..];
      var rest := Candidates(calls[1..], cursor);
      forall j | 0 <= j < |rest|
        ensures calls[0].id < rest[j].id
      {
        assert rest[j] in calls[1..];
      }
    }
  }

  /** Two lists in id order with the same members are the same list. */
  lemma {:induction false} SameMembersSameList(a: seq<Call>, b: seq<Call>)
    requires InIdOrder(a) && InIdOrder(b)
    requires forall c :: c in a <==> c in b
    ensures a == b
  {
    if a != [] {
      assert a[0] in b;
    }
    if b != [] {
      assert b[0] in a;
    }
    if a != [] && b != [] {
      assert a[0] == b[0];
      TailMembers(a);
      TailMembers(b);
      SameMembersSameList(a[1..], b[1..]);
    }
  }

  lemma {:induction false} TailMembers(a: seq<Call>)
    requires InIdOrder(a) && a != []
    ensures forall c :: c in a[1..] <==> c in a && c != a[0]
  {
  }

  lemma {:induction false} LaterMembers(a: seq<Call>, k: nat)
    requires InIdOrder(a) && k < |a|
    ensures InIdOrder(a[k + 1..])
    ensures forall c :: c in a[k + 1..] <==> c in a && c.id > a[k].id
  {
    forall c
      ensures c in a[k + 1..] <==> c in a && c.id > a[k].id
    {
      if c in a && c.id > a[k].id {
        var i :| 0 <= i < |a| && a[i] == c;
        assert i > k;
        assert a[k + 1..][i - k - 1] == c;
      }
      if c in a[k + 1..] {
        var i :| 0 <= i < |a[k + 1..]| && a[k + 1..][i] == c;
        assert a[k + 1 + i] == c;
      }
    }
  }

  /** Keyset paging: moving the cursor to a candidate leaves exactly the candidates behind it. */
  lemma {:induction false} CursorSplits(calls: seq<Call>, cursor: Option<Id>, k: nat)
    requires InIdOrder(calls) && k < |Candidates(calls, cursor)|
    ensures Candidates(calls, Some(Candidates(calls, cursor)[k].id)) == Candidates(calls, cursor)[k + 1..]
  {
    var all := Candidates(calls, cursor);
    var at := all[k].id;
    CandidatesMeaning(calls, cursor);
    CandidatesMeaning(calls, Some(at));
    LaterMembers(all, k);
    assert After(all[k], cursor) by {
      assert all[k] in all;
    }
    SameMembersSameList(Candidates(calls, Some(at)), all[k + 1..]);
  }

  // ---- A run ----------------------------------------------------------------------------

  type Rule = Call -> Stored

  function Settle(rule: Rule, c: Call): Call {
    c.(stored := rule(c))
  }

  /** Everything up to the cursor settled, the rest untouched. */
  function Progress(rule: Rule, calls: seq<Call>, cursor: Option<Id>): (now: seq<Call>)
    ensures |now| == |calls|
    ensures forall i | 0 <= i < |calls| ::
              now[i] == if Unpriced(calls[i]) && !After(calls[i], cursor) then Settle(rule, calls[i]) else calls[i]
  {
    seq(|calls|, i requires 0 <= i < |calls| =>
      if Unpriced(calls[i]) && !After(calls[i], cursor) then Settle(rule, calls[i]) else calls[i])
  }

  /** Every unpriced call settled by the rule, every priced one left alone. */
  function Settled(rule: Rule, calls: seq<Call>): (now: seq<Call>)
    ensures |now| == |calls|
    ensures forall i | 0 <= i < |calls| :: now[i] == if Unpriced(calls[i]) then Settle(rule, calls[i]) else calls[i]
  {
    seq(|calls|, i requires 0 <= i < |calls| => if Unpriced(calls[i]) then Settle(rule, calls[i]) else calls[i])
  }

  /** Calls settled so far are invisible behind the cursor, priced or not. */
  lemma {:induction false} ProgressKeepsCandidates(rule: Rule, calls: seq<Call>, cursor: Option<Id>)
    ensures Candidates(Progress(rule, calls, cursor), cursor) == Candidates(calls, cursor)
  {
    if calls != [] {
      ProgressKeepsCandidates(rule, calls[1..], cursor);
      assert Progress(rule, calls, cursor)[1..] == Progress(rule, calls[1..], cursor);
    }
  }

  /** The statement that stores a page: each listed call, found by id, gets its new value unless it
      has been priced meanwhile. */
  function Store(calls: seq<Call>, updates: map<Id, Stored>): (now: seq<Call>)
    ensures |now| == |calls|
    ensures forall i | 0 <= i < |calls| ::
              now[i] == if calls[i].id in updates
                && Unpriced(calls[i]) then calls[i].(stored := updates[calls[i].id]) else calls[i]
  {
    seq(|calls|, i requires 0 <= i < |calls| =>
      if calls[i].id in updates && Unpriced(calls[i]) then calls[i].(stored := updates[calls[i].id]) else calls[i])
  }

  function Ids(page: seq<Call>, n: nat): set<Id>
    requires n <= |page|
  {
    set i | 0 <= i < n :: page[i].id
  }

  /** The updates the first `n` calls of a page ask for. */
  predicate UpdatesFor(rule: Rule, page: seq<Call>, n: nat, updates: map<Id, Stored>)
    requires n <= |page|
  {
    && (forall i | 0 <= i < n :: page[i].id in updates && updates[page[i].id] == rule(page[i]))
    && updates.Keys == Ids(page, n)
  }

  predicate IsPage(calls: seq<Call>, cursor: Option<Id>, next: Id, page: seq<Call>) {
    && (forall c | c in page :: c in calls && Unpriced(c) && After(c, cursor) && c.id <= next)
    && (forall i | 0 <= i < |calls| && Unpriced(calls[i]) && After(calls[i], cursor) && calls[i].id <= next ::
          calls[i] in page)
  }

  lemma {:induction false} OnlyPageIsUpdated(rule: Rule, calls: seq<Call>, cursor: Option<Id>, next: Id,
                                             page: seq<Call>, updates: map<Id, Stored>, i: nat)
    requires InIdOrder(calls) && UpdatesFor(rule, page, |page|, updates) && IsPage(calls, cursor, next, page)
    requires i < |calls|
    ensures calls[i].id in updates <==> calls[i] in page
    ensures calls[i] in page ==> updates[calls[i].id] == rule(calls[i])
  {
    if calls[i].id in updates {
      var p :| 0 <= p < |page| && page[p].id == calls[i].id;
      assert page[p] in calls;
    }
  }

  /** Storing the page between two cursors moves the progress from one to the other. */
  lemma {:induction false} StoringMoves(rule: Rule, calls: seq<Call>, cursor: Option<Id>, next: Id, page: seq<Call>,
                                        updates: map<Id, Stored>)
    requires InIdOrder(calls) && UpdatesFor(rule, page, |page|, updates) && IsPage(calls, cursor, next, page)
    requires cursor.Some? ==> cursor.value <= next
    ensures Store(Progress(rule, calls, cursor), updates) == Progress(rule, calls, Some(next))
  {
    forall i | 0 <= i < |calls|
      ensures Store(Progress(rule, calls, cursor), updates)[i] == Progress(rule, calls, Some(next))[i]
    {
      OnlyPageIsUpdated(rule, calls, cursor, next, page, updates, i);
    }
  }

  lemma {:induction false} EarlierIsInPage(all: seq<Call>, n: nat, c: Call)
    requires InIdOrder(all) && 0 < n <= |all| && c in all && c.id <= all[n - 1].id
    ensures c in all[..n]
  {
    var j :| 0 <= j < |all| && all[j] == c;
    assert j < n;
    assert all[..n][j] == c;
  }

  lemma {:induction false} PageIsExact(calls: seq<Call>, cursor: Option<Id>, all: seq<Call>, page: seq<Call>)
    requires InIdOrder(calls) && all == Candidates(calls, cursor) && page != [] && page <= all
    ensures IsPage(calls, cursor, page[|page| - 1].id, page)
    ensures After(page[|page| - 1], cursor)
  {
    var n := |page|;
    CandidatesMeaning(calls, cursor);
    forall i | 0 <= i < |calls| && Unpriced(calls[i]) && After(calls[i], cursor) && calls[i].id <= page[n - 1].id
      ensures calls[i] in page
    {
      EarlierIsInPage(all, n, calls[i]);
      assert all[..n] == page;
    }
    assert all[n - 1] in all;
  }

  lemma {:induction false} PrefixSplits(all: seq<Call>, page: seq<Call>)
    requires page <= all
    ensures all == page + all[|page|..]
    ensures page != [] ==> all[|page| - 1] == page[|page| - 1]
  {
  }

  lemma {:induction false} DoneIsSettled(rule: Rule, calls: seq<Call>, cursor: Option<Id>)
    requires InIdOrder(calls) && Candidates(calls, cursor) == []
    ensures Progress(rule, calls, cursor) == Settled(rule, calls)
  {
    CandidatesMeaning(calls, cursor);
    forall i | 0 <= i < |calls| && Unpriced(calls[i])
      ensures !After(calls[i], cursor)
    {
      assert calls[i] in calls;
    }
  }

  /** How many of the calls the rule settles on a basis (or on none). */
  function CountBasis(rule: Rule, cs: seq<Call>, basis: Option<Basis>): nat {
    if cs == [] then 0
    else CountBasis(rule, cs[..|cs| - 1], basis) + (if rule(cs[|cs| - 1]).basis == basis then 1 else 0)
  }

  /** The report counts the outcomes of these calls. */
  predicate Tallies(rule: Rule, cs: seq<Call>, r: Report) {
    && r.examined == |cs|
    && r.pricedInForce == CountBasis(rule, cs, Some(InForce))
    && r.pricedFromEarliest == CountBasis(rule, cs, Some(EarliestKnown))
    && r.leftUnpriced == CountBasis(rule, cs, None)
  }

  function Tally(r: Report, basis: Option<Basis>): Report {
    match basis
    case Some(InForce) => r.(examined := r.examined + 1, pricedInForce := r.pricedInForce + 1)
    case Some(EarliestKnown) => r.(examined := r.examined + 1, pricedFromEarliest := r.pricedFromEarliest + 1)
    case None => r.(examined := r.examined + 1, leftUnpriced := r.leftUnpriced + 1)
  }

  lemma {:induction false} TalliesNext(rule: Rule, cs: seq<Call>, c: Call, r: Report)
    requires Tallies(rule, cs, r)
    ensures Tallies(rule, cs + [c], Tally(r, rule(c).basis))
  {
    assert (cs + [c])[..|cs|] == cs;
  }

  /** Every examined call is counted once: the three outcomes add up. */
  lemma {:induction false} OutcomesAddUp(rule: Rule, cs: seq<Call>)
    ensures CountBasis(rule, cs, Some(InForce)) + CountBasis(rule, cs, Some(EarliestKnown))
            + CountBasis(rule, cs, None) == |cs|
  {
    if cs != [] {
      OutcomesAddUp(rule, cs[..|cs| - 1]);
      match rule(cs[|cs| - 1]).basis {
        case Some(InForce) =>
        case Some(EarliestKnown) =>
        case None =>
      }
    }
  }

  class TelemetryRepo {
    var calls: seq<Call>

    constructor (start: seq<Call>)
      ensures calls == start
    {
      calls := start;
    }

    method UnpricedModelCalls(cursor: Option<Id>, limit: nat) returns (page: seq<Call>)
      ensures page == Page(calls, cursor, limit)
    {
      page := Page(calls, cursor, limit);
    }

    method ApplyRepricedCosts(updates: map<Id, Stored>)
      modifies this
      ensures calls == Store(old(calls), updates)
    {
      calls := Store(calls, updates);
    }
  }

  /** Settles one page: what to store for each call, and the report so far. */
  method SettlePage(rule: Rule, page: seq<Call>, report: Report, ghost done: seq<Call>)
    returns (updates: map<Id, Stored>, r: Report)
    requires InIdOrder(page) && Tallies(rule, done, report)
    ensures UpdatesFor(rule, page, |page|, updates) && Tallies(rule, done + page, r)
  {
    updates, r := map[], report;
    ghost var counted := done;
    for i := 0 to |page|
      invariant Tallies(rule, counted, r) && counted == done + page[..i]
      invariant UpdatesFor(rule, page, i, updates)
    {
      var stored := rule(page[i]);
      TalliesNext(rule, counted, page[i], r);
      UpdatesNext(rule, page, i, updates);
      r := Tally(r, stored.basis);
      updates := updates[page[i].id := stored];
      counted := counted + [page[i]];
    }
    assert page[..|page|] == page;
  }

  lemma {:induction false} UpdatesNext(rule: Rule, page: seq<Call>, n: nat, updates: map<Id, Stored>)
    requires InIdOrder(page) && n < |page| && UpdatesFor(rule, page, n, updates)
    ensures UpdatesFor(rule, page, n + 1, updates[page[n].id := rule(page[n])])
  {
    assert Ids(page, n + 1) == Ids(page, n) + {page[n].id};
  }

  /** The rule a run settles calls by. */
  function RuleOf(db: Database, mode: Mode): Rule {
    (c: Call) => Verdict(db, mode, c)
  }

  lemma {:induction false} PageAdvances(rule: Rule, before: seq<Call>, cursor: Option<Id>, page: seq<Call>,
                                        updates: map<Id, Stored>)
    requires InIdOrder(before) && page != [] && page <= Candidates(before, cursor)
    requires UpdatesFor(rule, page, |page|, updates)
    ensures Store(Progress(rule, before, cursor), updates) == Progress(rule, before, Some(page[|page| - 1].id))
    ensures Candidates(before, cursor) == page + Candidates(before, Some(page[|page| - 1].id))
  {
    var all := Candidates(before, cursor);
    PageIsExact(before, cursor, all, page);
    StoringMoves(rule, before, cursor, page[|page| - 1].id, page, updates);
    PrefixSplits(all, page);
    CursorSplits(before, cursor, |page| - 1);
  }

  lemma {:induction false} PageIsNext(rule: Rule, before: seq<Call>, cursor: Option<Id>)
    requires InIdOrder(before)
    ensures var page := Page(Progress(rule, before, cursor), cursor, BATCH);
            && page <= Candidates(before, cursor) && InIdOrder(page)
            && (|page| < BATCH ==> page == Candidates(before, cursor))
  {
    ProgressKeepsCandidates(rule, before, cursor);
    CandidatesMeaning(before, cursor);
  }

  /** One round of the loop: reads a page, settles and stores it, moves the cursor. */
  method NextPage(repo: TelemetryRepo, rule: Rule, cursor: Option<Id>, report: Report, ghost before: seq<Call>,
                  ghost done: seq<Call>)
    returns (n: nat, c: Option<Id>, r: Report, ghost page: seq<Call>)
    requires InIdOrder(before) && repo.calls == Progress(rule, before, cursor) && Tallies(rule, done, report)
    modifies repo
    ensures repo.calls == Progress(rule, before, c) && Tallies(rule, done + page, r)
    ensures n == |page| && Candidates(before, cursor) == page + Candidates(before, c)
    ensures n <= 500 && (n < 500 ==> Candidates(before, c) == [])
  {
    PageIsNext(rule, before, cursor);
    var found := repo.UnpricedModelCalls(cursor, BATCH);
    page, n := found, |found|;
    if found == [] {
      assert done + [] == done;
      return 0, cursor, report, [];
    }
    var updates;
    updates, r := SettlePage(rule, found, report, done);
    PageAdvances(rule, before, cursor, found, updates);
    repo.ApplyRepricedCosts(updates);
    c := Some(found[n - 1].id);
  }

  /** Reprices the table. Without a catalog nothing is examined. Otherwise the run ends, having
      visited every unpriced call exactly once and in id order although some stay unpriced; each is
      settled by the rule, every priced call is left alone, and the report counts the outcomes. */
  method RepriceAll(repo: TelemetryRepo, hasCatalog: bool, rule: Rule) returns (report: Report,
                    ghost visited: seq<Call>)
    requires InIdOrder(repo.calls)
    modifies repo
    ensures !hasCatalog ==> repo.calls == old(repo.calls) && report == Report(0, 0, 0, 0) && visited == []
    ensures hasCatalog ==> visited == Candidates(old(repo.calls), None) && repo.calls == Settled(rule, old(repo.calls))
    ensures Tallies(rule, visited, report)
    ensures report.examined == report.pricedInForce + report.pricedFromEarliest + report.leftUnpriced
  {
    report, visited := Report(0, 0, 0, 0), [];
    if !hasCatalog {
      return;
    }
    ghost var before := repo.calls;
    var cursor: Option<Id> := None;
    var more := true;
    assert Progress(rule, before, None) == before;
    while more
      invariant repo.calls == Progress(rule, before, cursor) && Tallies(rule, visited, report)
      invariant Candidates(before, None) == visited + Candidates(before, cursor)
      invariant !more ==> Candidates(before, cursor) == []
      decreases |Candidates(before, cursor)|, more
    {
      ghost var page;
      var n;
      n, cursor, report, page := NextPage(repo, rule, cursor, report, before, visited);
      Regroup(visited, page, Candidates(before, cursor));
      visited := visited + page;
      more := n >= BATCH;
    }
    DoneIsSettled(rule, before, cursor);
    OutcomesAddUp(rule, visited);
  }

  lemma {:induction false} Regroup<T>(a: seq<T>, b: seq<T>, c: seq<T>)
    ensures a + (b + c) == (a + b) + c
  {
  }

  /** The calls of a table left on a basis (or on none) that had no price before. */
  function Outcomes(before: seq<Call>, now: seq<Call>, basis: Option<Basis>): nat
    requires |before| == |now|
  {
    if before == [] then 0
    else (if Unpriced(before[0]) && now[0].stored.basis == basis then 1 else 0)
         + Outcomes(before[1..], now[1..], basis)
  }

  lemma {:induction false} CountFromFront(rule: Rule, cs: seq<Call>, basis: Option<Basis>)
    requires cs != []
    ensures CountBasis(rule, cs, basis) ==
            (if rule(cs[0]).basis == basis then 1 else 0) + CountBasis(rule, cs[1..], basis)
  {
    if |cs| > 1 {
      var front := cs[..|cs| - 1];
      CountFromFront(rule, front, basis);
      assert cs[1..][..|cs| - 2] == front[1..];
    }
  }

  lemma {:induction false} OutcomesAreCounted(rule: Rule, calls: seq<Call>, basis: Option<Basis>)
    ensures Outcomes(calls, Settled(rule, calls), basis) == CountBasis(rule, Candidates(calls, None), basis)
  {
    if calls != [] {
      OutcomesAreCounted(rule, calls[1..], basis);
      assert Settled(rule, calls)[1..] == Settled(rule, calls[1..]);
      if Unpriced(calls[0]) {
        CountFromFront(rule, Candidates(calls, None), basis);
        assert Candidates(calls, None)[1..] == Candidates(calls[1..], None);
      } else {
        assert Candidates(calls, None) == Candidates(calls[1..], None);
      }
    }
  }

  /** Every call that had no price has its verdict, nothing else of it changes, and no other call does. */
  ghost predicate Repriced(db: Database, mode: Mode, before: seq<Call>, now: seq<Call>) {
    && |now| == |before|
    && forall i | 0 <= i < |now| ::
         if before[i].stored.cost.None? then
           now[i] == before[i].(stored := now[i].stored) && IsVerdict(db, mode, before[i], now[i].stored)
         else now[i] == before[i]
  }

  lemma {:induction false} SettledIsRepriced(db: Database, mode: Mode, calls: seq<Call>)
    ensures Repriced(db, mode, calls, Settled(RuleOf(db, mode), calls))
  {
    forall i | 0 <= i < |calls|
      ensures forall stored :: IsVerdict(db, mode, calls[i], stored) <==> stored == Verdict(db, mode, calls[i])
    {
      VerdictMeaning(db, mode, calls[i]);
    }
  }

  method Run(db: Database, repo: TelemetryRepo, mode: Mode) returns (report: Report, ghost visited: seq<Call>)
    requires InIdOrder(repo.calls)
    modifies repo
    ensures db.catalogs == [] ==> repo.calls == old(repo.calls) && report == Report(0, 0, 0, 0)
    ensures db.catalogs != [] ==>
              && visited == Candidates(old(repo.calls), None)
              && repo.calls == Settled(RuleOf(db, mode), old(repo.calls))
    ensures Tallies(RuleOf(db, mode), visited, report)
    ensures report.examined == report.pricedInForce + report.pricedFromEarliest + report.leftUnpriced
    ensures db.catalogs != [] ==>
              && Repriced(db, mode, old(repo.calls), repo.calls)
              && report.pricedInForce == Outcomes(old(repo.calls), repo.calls, Some(InForce))
              && report.pricedFromEarliest == Outcomes(old(repo.calls), repo.calls, Some(EarliestKnown))
              && report.leftUnpriced == Outcomes(old(repo.calls), repo.calls, None)
  {
    LatestMeaning(db.catalogs);
    SettledIsRepriced(db, mode, repo.calls);
    OutcomesAreCounted(RuleOf(db, mode), repo.calls, Some(InForce));
    OutcomesAreCounted(RuleOf(db, mode), repo.calls, Some(EarliestKnown));
    OutcomesAreCounted(RuleOf(db, mode), repo.calls, None);
    report, visited := RepriceAll(repo, LatestCatalog(db.catalogs).Some?, RuleOf(db, mode));
  }

  /** With the same history a second run changes nothing: what it priced is left alone, and what it
      could not price it settles the same way. */
  lemma {:induction false} SecondRunChangesNothing(db: Database, mode: Mode, calls: seq<Call>)
    ensures var rule := RuleOf(db, mode); Settled(rule, Settled(rule, calls)) == Settled(rule, calls)
  {
    var rule := RuleOf(db, mode);
    var once := Settled(rule, calls);
    forall i | 0 <= i < |calls|
      ensures Settled(rule, once)[i] == once[i]
    {
      VerdictIgnoresStored(db, mode, calls[i], rule(calls[i]));
    }
  }

  lemma {:induction false} VerdictIgnoresStored(db: Database, mode: Mode, c: Call, stored: Stored)
    ensures Verdict(db, mode, c.(stored := stored)) == Verdict(db, mode, c)
  {
  }
}
