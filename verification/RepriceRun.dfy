/** A repricing run among others: while it reads a page, resolves its calls one by one and stores
    it, ingestion may price calls of the table and syncs may append to the price history, in any
    interleaving. No call is inserted or deleted. */
module RepriceRun {
  import Machine
  import opened PriceHistory
  import opened Reprice
  import opened Wrappers

  /** Between pages, somewhere in a page as it was read, or at the end. */
  datatype Phase =
    | Reading
    | Settling(page: seq<Call>, updates: map<Id, Stored>, n: nat)
    | Finished

  /** A call the run resolved, and what it resolved to. */
  datatype Visit = Visit(id: Id, stored: Stored)

  datatype State = State(db: Database, calls: seq<Call>, cursor: Option<Id>, phase: Phase, report: Report,
                         visited: seq<Visit>)

  datatype Action = ReadPage | SettleNext | StorePage | PriceElsewhere(id: Id,
                                                                       stored: Stored) | AppendRows(rows: seq<Row>)

  function Start(db: Database, calls: seq<Call>): State {
    State(db, calls, None, Reading, Report(0, 0, 0, 0), [])
  }

  function Last(page: seq<Call>): Id
    requires page != []
  {
    page[|page| - 1].id
  }

  function Step(mode: Mode): (State, Action) -> Option<State> {
    (s: State, a: Action) => Apply(mode, s, a)
  }

  function Apply(mode: Mode, s: State, a: Action): Option<State> {
    match a
    case ReadPage =>
      if !s.phase.Reading? then None
      else
        var page := Page(s.calls, s.cursor, BATCH);
        Some(s.(phase := if page == [] then Finished else Settling(page, map[], 0)))
    case SettleNext =>
      if !s.phase.Settling? || s.phase.n >= |s.phase.page| then None
      else
        var c := s.phase.page[s.phase.n];
        var stored := Verdict(s.db, mode, c);
        Some(s.(phase := Settling(s.phase.page, s.phase.updates[c.id := stored], s.phase.n + 1),
                report := Tally(s.report, stored.basis), visited := s.visited + [Visit(c.id, stored)]))
    case StorePage =>
      if !s.phase.Settling? || s.phase.n != |s.phase.page| || s.phase.page == [] then None
      else
        Some(s.(calls := Store(s.calls, s.phase.updates), cursor := Some(Last(s.phase.page)),
                phase := if |s.phase.page| < BATCH then Finished else Reading))
    case PriceElsewhere(id, stored) =>
      if stored.cost.None? then None else Some(s.(calls := Store(s.calls, map[id := stored])))
    case AppendRows(rows) => Some(s.(db := s.db.(rows := s.db.rows + rows)))
  }

  // ---- What every step keeps ------------------------------------------------------------

  /** Calls change in their price alone, and only once. */
  predicate PricedOnce(before: seq<Call>, now: seq<Call>) {
    && |now| == |before|
    && forall i | 0 <= i < |now| ::
         now[i] == before[i].(stored := now[i].stored) && (!Unpriced(before[i]) ==> now[i] == before[i])
  }

  predicate Increasing(visited: seq<Visit>) {
    forall i, j | 0 <= i < j < |visited| :: visited[i].id < visited[j].id
  }

  predicate Behind(visited: seq<Visit>, cursor: Option<Id>) {
    visited != [] ==> cursor.Some? && visited[|visited| - 1].id <= cursor.value
  }

  /** The visits resolved on a basis (or on none). */
  function Visits(visited: seq<Visit>, basis: Option<Basis>): nat {
    if visited == [] then 0
    else Visits(visited[..|visited| - 1], basis) + (if visited[|visited| - 1].stored.basis == basis then 1 else 0)
  }

  predicate Counted(visited: seq<Visit>, r: Report) {
    && r.examined == |visited| == r.pricedInForce + r.pricedFromEarliest + r.leftUnpriced
    && r.pricedInForce == Visits(visited, Some(InForce))
    && r.pricedFromEarliest == Visits(visited, Some(EarliestKnown))
    && r.leftUnpriced == Visits(visited, None)
  }

  /** The call is one of those unpriced at the start, with whatever price. */
  predicate WasUnpriced(start: seq<Call>, c: Call) {
    exists i | 0 <= i < |start| :: Unpriced(start[i]) && c == start[i].(stored := c.stored)
  }

  /** What the visit stored is the verdict on a call unpriced at the start, by the history as it was
      at some moment up to now. */
  ghost predicate Judged(start: seq<Call>, mode: Mode, now: Database, v: Visit) {
    exists i, n | 0 <= i < |start| && 0 <= n <= |now.rows| ::
      start[i].id == v.id && Unpriced(start[i]) && IsVerdict(now.(rows := now.rows[..n]), mode, start[i], v.stored)
  }

  ghost predicate AllJudged(start: seq<Call>, mode: Mode, now: Database, visited: seq<Visit>) {
    forall k | 0 <= k < |visited| :: Judged(start, mode, now, visited[k])
  }

  /** What is still unpriced up to the cursor was visited, and is left as the visit resolved it. */
  predicate Done(calls: seq<Call>, cursor: Option<Id>, visited: seq<Visit>) {
    forall i | 0 <= i < |calls| && Unpriced(calls[i]) && !After(calls[i], cursor) ::
             Visit(calls[i].id, calls[i].stored) in visited
  }

  predicate AllDone(calls: seq<Call>, visited: seq<Visit>) {
    forall i | 0 <= i < |calls| && Unpriced(calls[i]) :: Visit(calls[i].id, calls[i].stored) in visited
  }

  predicate OnPage(page: seq<Call>, id: Id) {
    exists k | 0 <= k < |page| :: page[k].id == id
  }

  /** Whatever is still unpriced behind the cursor up to the page's end is on the page. */
  predicate PageCovers(calls: seq<Call>, cursor: Option<Id>, page: seq<Call>)
    requires page != []
  {
    forall i | 0 <= i < |calls| && Unpriced(calls[i]) && After(calls[i], cursor)
           && (|page| < BATCH || calls[i].id <= Last(page)) ::
      OnPage(page, calls[i].id)
  }

  predicate PageSound(start: seq<Call>, cursor: Option<Id>, page: seq<Call>) {
    InIdOrder(page) && forall k | 0 <= k < |page| :: After(page[k], cursor) && WasUnpriced(start, page[k])
  }

  /** The updates are the visits of the first `n` calls of the page. */
  predicate UpdatesVisited(page: seq<Call>, n: nat, updates: map<Id, Stored>, visited: seq<Visit>)
    requires n <= |page|
  {
    updates.Keys == Ids(page, n) && forall id | id in updates :: Visit(id, updates[id]) in visited
  }

  /** Where a page resolved up to its `n`th call has got to. */
  function Front(cursor: Option<Id>, page: seq<Call>, n: nat): Option<Id>
    requires n <= |page|
  {
    if n == 0 then cursor else Some(page[n - 1].id)
  }

  predicate PhaseSound(start: seq<Call>, s: State) {
    match s.phase
    case Reading => Done(s.calls, s.cursor, s.visited) && Behind(s.visited, s.cursor)
    case Settling(page, updates, n) =>
      && page != [] && n <= |page| && PageSound(start, s.cursor, page) && PageCovers(s.calls, s.cursor, page)
      && Done(s.calls, s.cursor, s.visited) && UpdatesVisited(page, n, updates, s.visited)
      && Behind(s.visited, Front(s.cursor, page, n))
    case Finished => AllDone(s.calls, s.visited)
  }

  ghost predicate Sound(start: seq<Call>, mode: Mode, s: State) {
    && InIdOrder(start) && PricedOnce(start, s.calls) && Increasing(s.visited) && Counted(s.visited, s.report)
    && AllJudged(start, mode, s.db, s.visited) && PhaseSound(start, s)
  }

  lemma {:induction false} StoringPricesOnce(start: seq<Call>, calls: seq<Call>, updates: map<Id, Stored>)
    requires PricedOnce(start, calls)
    ensures PricedOnce(start, Store(calls, updates)) && PricedOnce(calls, Store(calls, updates))
  {
  }

  lemma {:induction false} OrderKept(start: seq<Call>, calls: seq<Call>)
    requires InIdOrder(start) && PricedOnce(start, calls)
    ensures InIdOrder(calls)
  {
  }

  lemma {:induction false} StillUnpriced(start: seq<Call>, calls: seq<Call>, c: Call)
    requires PricedOnce(start, calls) && c in calls && Unpriced(c)
    ensures WasUnpriced(start, c)
  {
    var i :| 0 <= i < |calls| && calls[i] == c;
    assert Unpriced(start[i]) && c == start[i].(stored := c.stored);
  }

  lemma {:induction false} PageIsCovering(calls: seq<Call>, cursor: Option<Id>, page: seq<Call>)
    requires InIdOrder(calls) && page == Page(calls, cursor, BATCH) && page != []
    ensures PageCovers(calls, cursor, page) && InIdOrder(page)
    ensures forall c | c in page :: c in calls && Unpriced(c) && After(c, cursor)
  {
    var all := Candidates(calls, cursor);
    CandidatesMeaning(calls, cursor);
    PageIsExact(calls, cursor, all, page);
    forall i | 0 <= i < |calls| && Unpriced(calls[i]) && After(calls[i], cursor)
           && (|page| < BATCH || calls[i].id <= Last(page))
      ensures OnPage(page, calls[i].id)
    {
      assert calls[i] in all;
      if |page| < BATCH {
        assert page == all;
      }
      assert calls[i] in page;
      var k :| 0 <= k < |page| && page[k] == calls[i];
    }
  }

  lemma {:induction false} ReadIsSound(start: seq<Call>, mode: Mode, s: State)
    requires Sound(start, mode, s) && s.phase.Reading?
    ensures Sound(start, mode, Apply(mode, s, ReadPage).value)
  {
    var page := Page(s.calls, s.cursor, BATCH);
    OrderKept(start, s.calls);
    if page == [] {
      CandidatesMeaning(s.calls, s.cursor);
      assert Candidates(s.calls, s.cursor) == [];
      forall i | 0 <= i < |s.calls| && Unpriced(s.calls[i])
        ensures !After(s.calls[i], s.cursor)
      {
        assert s.calls[i] in s.calls;
      }
    } else {
      PageIsCovering(s.calls, s.cursor, page);
      forall k | 0 <= k < |page|
        ensures WasUnpriced(start, page[k])
      {
        assert page[k] in page;
        StillUnpriced(start, s.calls, page[k]);
      }
    }
  }

  lemma {:induction false} OneMoreVisit(visited: seq<Visit>, cursor: Option<Id>, v: Visit, r: Report)
    requires Increasing(visited) && Behind(visited, cursor) && (cursor.Some? ==> cursor.value < v.id)
             && Counted(visited, r)
    ensures Increasing(visited + [v]) && Behind(visited + [v], Some(v.id))
            && Counted(visited + [v], Tally(r, v.stored.basis))
  {
    assert visited != [] ==> visited[|visited| - 1].id < v.id;
    assert (visited + [v])[..|visited|] == visited;
  }

  lemma {:induction false} OneMoreUpdate(page: seq<Call>, n: nat, updates: map<Id, Stored>, visited: seq<Visit>,
                                         stored: Stored)
    requires InIdOrder(page) && n < |page| && UpdatesVisited(page, n, updates, visited)
    ensures UpdatesVisited(page, n + 1, updates[page[n].id := stored], visited + [Visit(page[n].id, stored)])
  {
    var more := visited + [Visit(page[n].id, stored)];
    assert Ids(page, n + 1) == Ids(page, n) + {page[n].id};
    assert more[|visited|] == Visit(page[n].id, stored);
    assert forall v | v in visited :: v in more;
  }

  lemma {:induction false} VisitsOnlyHelp(calls: seq<Call>, cursor: Option<Id>, visited: seq<Visit>, v: Visit)
    requires Done(calls, cursor, visited)
    ensures Done(calls, cursor, visited + [v])
  {
    assert forall u | u in visited :: u in visited + [v];
  }

  lemma {:induction false} NextIsAfterFront(start: seq<Call>, cursor: Option<Id>, page: seq<Call>, n: nat)
    requires PageSound(start, cursor, page) && n < |page|
    ensures Front(cursor, page, n).Some? ==> Front(cursor, page, n).value < page[n].id
    ensures WasUnpriced(start, page[n])
  {
  }

  lemma {:induction false} VerdictIsJudged(start: seq<Call>, mode: Mode, now: Database, c: Call)
    requires WasUnpriced(start, c)
    ensures Judged(start, mode, now, Visit(c.id, Verdict(now, mode, c)))
  {
    var i :| 0 <= i < |start| && Unpriced(start[i]) && c == start[i].(stored := c.stored);
    VerdictIgnoresStored(now, mode, start[i], c.stored);
    VerdictMeaning(now, mode, start[i]);
    assert now.(rows := now.rows[..|now.rows|]) == now;
  }

  lemma {:induction false} GrowthKeepsJudgement(start: seq<Call>, mode: Mode, now: Database, more: seq<Row>, v: Visit)
    requires Judged(start, mode, now, v)
    ensures Judged(start, mode, now.(rows := now.rows + more), v)
  {
    var i, n :| 0 <= i < |start| && 0 <= n <= |now.rows|
      && start[i].id == v.id && Unpriced(start[i]) && IsVerdict(now.(rows := now.rows[..n]), mode, start[i], v.stored);
    var later := now.(rows := now.rows + more);
    assert later.(rows := later.rows[..n]) == now.(rows := now.rows[..n]);
  }

  lemma {:induction false} RowsAppendedIsSound(start: seq<Call>, mode: Mode, s: State, more: seq<Row>)
    requires Sound(start, mode, s)
    ensures Sound(start, mode, Apply(mode, s, AppendRows(more)).value)
  {
    forall k | 0 <= k < |s.visited|
      ensures Judged(start, mode, s.db.(rows := s.db.rows + more), s.visited[k])
    {
      GrowthKeepsJudgement(start, mode, s.db, more, s.visited[k]);
    }
  }

  lemma {:induction false} VisitingIsSound(start: seq<Call>, mode: Mode, s: State, page: seq<Call>,
                                           updates: map<Id, Stored>, n: nat, stored: Stored, next: State)
    requires Sound(start, mode, s) && s.phase == Settling(page, updates, n) && n < |page|
    requires stored == Verdict(s.db, mode, page[n])
    requires next == s.(phase := Settling(page, updates[page[n].id := stored], n + 1),
                        report := Tally(s.report, stored.basis), visited := s.visited + [Visit(page[n].id, stored)])
    ensures Sound(start, mode, next)
  {
    var v := Visit(page[n].id, stored);
    NextIsAfterFront(start, s.cursor, page, n);
    VerdictIsJudged(start, mode, s.db, page[n]);
    OneMoreVisit(s.visited, Front(s.cursor, page, n), v, s.report);
    OneMoreUpdate(page, n, updates, s.visited, stored);
    VisitsOnlyHelp(s.calls, s.cursor, s.visited, v);
  }

  lemma {:induction false} SettleIsSound(start: seq<Call>, mode: Mode, s: State)
    requires Sound(start, mode, s) && Apply(mode, s, SettleNext).Some?
    ensures Sound(start, mode, Apply(mode, s, SettleNext).value)
  {
    var (page, n) := (s.phase.page, s.phase.n);
    VisitingIsSound(start, mode, s, page, s.phase.updates, n, Verdict(s.db, mode, page[n]),
                    Apply(mode, s, SettleNext).value);
  }

  lemma {:induction false} StoredIsDone(calls: seq<Call>, cursor: Option<Id>, page: seq<Call>, updates: map<Id, Stored>,
                                        visited: seq<Visit>, i: nat)
    requires page != [] && PageCovers(calls, cursor, page) && Done(calls, cursor, visited)
    requires UpdatesVisited(page, |page|, updates, visited) && forall k | 0 <= k < |page| :: After(page[k], cursor)
    requires i < |calls| && Unpriced(Store(calls, updates)[i]) && (|page| < BATCH || calls[i].id <= Last(page))
    ensures Visit(calls[i].id, Store(calls, updates)[i].stored) in visited
  {
    if After(calls[i], cursor) {
      assert OnPage(page, calls[i].id);
      assert calls[i].id in Ids(page, |page|);
    } else {
      assert calls[i].id !in Ids(page, |page|);
    }
  }

  lemma {:induction false} StoreIsSound(start: seq<Call>, mode: Mode, s: State, page: seq<Call>, updates: map<Id,
                                        Stored>)
    requires Sound(start, mode, s) && s.phase == Settling(page, updates, |page|)
    ensures Sound(start, mode, Apply(mode, s, StorePage).value)
  {
    var calls := Store(s.calls, updates);
    StoringPricesOnce(start, s.calls, updates);
    forall i | 0 <= i < |calls| && Unpriced(calls[i]) && (|page| < BATCH || calls[i].id <= Last(page))
      ensures Visit(calls[i].id, calls[i].stored) in s.visited
    {
      StoredIsDone(s.calls, s.cursor, page, updates, s.visited, i);
    }
  }

  /** Pricing a call elsewhere only shrinks what is left to do. */
  lemma {:induction false} ElsewhereIsSound(start: seq<Call>, mode: Mode, s: State, id: Id, stored: Stored)
    requires Sound(start, mode, s) && stored.cost.Some?
    ensures Sound(start, mode, Apply(mode, s, PriceElsewhere(id, stored)).value)
  {
    var calls := Store(s.calls, map[id := stored]);
    StoringPricesOnce(start, s.calls, map[id := stored]);
    assert forall i | 0 <= i < |calls| && Unpriced(calls[i]) :: calls[i] == s.calls[i];
  }

  lemma {:induction false} StepIsSound(start: seq<Call>, mode: Mode, s: State, a: Action)
    requires Sound(start, mode, s) && Apply(mode, s, a).Some?
    ensures Sound(start, mode, Apply(mode, s, a).value)
  {
    match a {
      case ReadPage => ReadIsSound(start, mode, s);
      case SettleNext => SettleIsSound(start, mode, s);
      case StorePage => StoreIsSound(start, mode, s, s.phase.page, s.phase.updates);
      case PriceElsewhere(id, stored) => ElsewhereIsSound(start, mode, s, id, stored);
      case AppendRows(rows) => RowsAppendedIsSound(start, mode, s, rows);
    }
  }

  lemma {:induction false} RunIsSound(start: seq<Call>, mode: Mode, s: State, actions: seq<Action>)
    requires Sound(start, mode, s) && Machine.Run(Step(mode), s, actions).Some?
    ensures Sound(start, mode, Machine.Run(Step(mode), s, actions).value)
    decreases |actions|
  {
    if actions != [] {
      StepIsSound(start, mode, s, actions[0]);
      RunIsSound(start, mode, Apply(mode, s, actions[0]).value, actions[1..]);
    }
  }

  /** In every interleaving the run visits calls that were unpriced at its start, each at most once
      and in id order, and resolves each by the history as it was at some moment; its report counts
      them; a call changes in its price alone, and a call once priced, by the run or by anybody else,
      keeps its price. When the run ends every call is priced or was visited, and then stands as the
      run resolved it. */
  lemma {:induction false} EveryInterleaving(db: Database, start: seq<Call>, mode: Mode, actions: seq<Action>, s: State)
    requires InIdOrder(start) && Machine.Run(Step(mode), Start(db, start), actions) == Some(s)
    ensures Increasing(s.visited) && AllJudged(start, mode, s.db, s.visited)
    ensures Counted(s.visited, s.report)
    ensures PricedOnce(start, s.calls)
    ensures s.phase.Finished? ==>
              forall i | 0 <= i < |s.calls| && Unpriced(s.calls[i]) ::
                       Visit(s.calls[i].id, s.calls[i].stored) in s.visited
  {
    RunIsSound(start, mode, Start(db, start), actions);
  }

  /** From any moment of any interleaving on, a priced call stays as it is. */
  lemma {:induction false} PricesAreFinal(mode: Mode, s: State, actions: seq<Action>)
    requires Machine.Run(Step(mode), s, actions).Some?
    ensures PricedOnce(s.calls, Machine.Run(Step(mode), s, actions).value.calls)
    decreases |actions|
  {
    if actions != [] {
      var n := Apply(mode, s, actions[0]).value;
      PricesAreFinal(mode, n, actions[1..]);
      assert PricedOnce(s.calls, s.calls);
    }
  }
}
