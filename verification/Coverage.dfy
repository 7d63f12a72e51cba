/** Fleet coverage: per-installation contact days, and how much of a window they account for. Days
    are integers. */
module Coverage {
  import opened Arithmetic
  import opened Wrappers

  type Id = nat
  type Day = int

  /** `start` is the day of registration, `None` when its stored text is not a date. */
  datatype Installation = Installation(id: Id, project: Id, start: Option<Day>)

  datatype Contact = Contact(project: Id, firstAt: int, lastAt: int, telemetryEvents: nat, heartbeats: nat)

  /** The primary key of the contact table. */
  datatype DayKey = DayKey(installation: Id, day: Day)

  datatype Tables = Tables(installations: seq<Installation>, contacts: map<DayKey, Contact>)

  // ---- Recording ------------------------------------------------------------------------

  datatype Report = Report(key: DayKey, project: Id, at: int, telemetryEvents: nat, heartbeats: nat)

  /** The upsert: the first contact and the project stay, the last moves, the counters accumulate. */
  function RecordContact(contacts: map<DayKey, Contact>, r: Report): map<DayKey, Contact> {
    contacts[r.key :=
      if r.key in contacts then
        var row := contacts[r.key];
        row.(lastAt := r.at, telemetryEvents := row.telemetryEvents + r.telemetryEvents,
             heartbeats := row.heartbeats + r.heartbeats)
      else Contact(r.project, r.at, r.at, r.telemetryEvents, r.heartbeats)]
  }

  function RecordAll(contacts: map<DayKey, Contact>, rs: seq<Report>): map<DayKey, Contact> {
    if rs == [] then contacts else RecordContact(RecordAll(contacts, rs[..|rs| - 1]), rs[|rs| - 1])
  }

  /** The reports of one installation and day, in order. */
  function For(rs: seq<Report>, key: DayKey): seq<Report> {
    if rs == [] then []
    else For(rs[..|rs| - 1], key) + (if rs[|rs| - 1].key == key then [rs[|rs| - 1]] else [])
  }

  function SumEvents(rs: seq<Report>): nat {
    if rs == [] then 0 else SumEvents(rs[..|rs| - 1]) + rs[|rs| - 1].telemetryEvents
  }

  function SumHeartbeats(rs: seq<Report>): nat {
    if rs == [] then 0 else SumHeartbeats(rs[..|rs| - 1]) + rs[|rs| - 1].heartbeats
  }

  lemma {:induction false} SumsNext(rs: seq<Report>, last: Report)
    ensures SumEvents(rs + [last]) == SumEvents(rs) + last.telemetryEvents
    ensures SumHeartbeats(rs + [last]) == SumHeartbeats(rs) + last.heartbeats
  {
    assert (rs + [last])[..|rs|] == rs;
  }

  /** After any reports an installation's day has a row exactly when it reported; the row's first
      contact and project are the first report's, its last contact the last report's, and its
      counters their sums. */
  lemma {:induction false} ContactIsItsReports(rs: seq<Report>, key: DayKey)
    ensures var (table, own) := (RecordAll(map[], rs), For(rs, key));
            && (key in table <==> own != [])
            && (own != [] ==> table[key] == Contact(own[0].project, own[0].at, own[|own| - 1].at, SumEvents(own),
                                                    SumHeartbeats(own)))
  {
    if rs != [] {
      var front, last := rs[..|rs| - 1], rs[|rs| - 1];
      ContactIsItsReports(front, key);
      var own := For(front, key);
      SumsNext(own, last);
      assert own + [] == own;
      assert SumEvents([]) == 0 && SumHeartbeats([]) == 0;
    }
  }

  // ---- What is expected -----------------------------------------------------------------

  datatype Window = Window(first: Day, last: Day)

  function Max(a: int, b: int): int {
    if a >= b then a else b
  }

  predicate Registered(i: Installation, project: Id, w: Window) {
    i.project == project && i.start.Some? && i.start.value <= w.last
  }

  predicate Expected(i: Installation, project: Id, w: Window, day: Day) {
    Registered(i, project, w) && Max(i.start.value, w.first) <= day <= w.last
  }

  /** The closed days on or after registration, one pair for each installation. */
  function ExpectedPairs(rows: seq<Installation>, project: Id, w: Window): set<DayKey> {
    set i, d | 0 <= i < |rows| && w.first <= d <= w.last && Expected(rows[i], project, w, d) :: DayKey(rows[i].id, d)
  }

  predicate UniqueIds(rows: seq<Installation>) {
    forall i, j | 0 <= i < j < |rows| :: rows[i].id != rows[j].id
  }

  function DaysFrom(start: Day, w: Window): nat {
    var first := Max(start, w.first);
    if first > w.last then 0 else w.last - first + 1
  }

  /** What an installation counts for by its registration day. */
  type Weight = Day -> nat

  function DaysExpected(w: Window): Weight {
    (start: Day) => DaysFrom(start, w)
  }

  function One(): Weight {
    (start: Day) => 1
  }

  function Sum(rows: seq<Installation>, project: Id, w: Window, weight: Weight): nat {
    if rows == [] then 0
    else
      (if Registered(rows[0], project, w) then weight(rows[0].start.value) else 0)
      + Sum(rows[1..], project, w, weight)
  }

  function Interval(id: Id, first: Day, last: Day): set<DayKey> {
    set d | first <= d <= last :: DayKey(id, d)
  }

  lemma {:induction false} IntervalSize(id: Id, first: Day, last: Day)
    ensures |Interval(id, first, last)| == if first > last then 0 else last - first + 1
    decreases last - first
  {
    if first > last {
      assert Interval(id, first, last) == {};
    } else {
      IntervalSize(id, first, last - 1);
      assert Interval(id, first, last) == Interval(id, first, last - 1) + {DayKey(id, last)};
    }
  }

  /** The days expected of one installation. */
  function OwnPairs(i: Installation, project: Id, w: Window): set<DayKey> {
    if Registered(i, project, w) then Interval(i.id, Max(i.start.value, w.first), w.last) else {}
  }

  lemma {:induction false} PairsSplit(rows: seq<Installation>, project: Id, w: Window)
    requires rows != [] && UniqueIds(rows)
    ensures ExpectedPairs(rows, project, w) == OwnPairs(rows[0], project, w) + ExpectedPairs(rows[1..], project, w)
    ensures OwnPairs(rows[0], project, w) !! ExpectedPairs(rows[1..], project, w)
  {
    var all, own, rest := ExpectedPairs(rows, project, w), OwnPairs(rows[0], project, w),
                          ExpectedPairs(rows[1..], project, w);
    forall k
      ensures k in all <==> k in own || k in rest
    {
      if k in all {
        var i, d :| 0 <= i < |rows| && w.first <= d <= w.last && Expected(rows[i], project, w, d)
                    && k == DayKey(rows[i].id, d);
        if i > 0 {
          assert rows[1..][i - 1] == rows[i];
        }
      }
      if k in rest {
        var i, d :| 0 <= i < |rows[1..]| && w.first <= d <= w.last && Expected(rows[1..][i], project, w, d)
                    && k == DayKey(rows[1..][i].id, d);
        assert rows[i + 1] == rows[1..][i];
      }
      if k in own {
        assert w.first <= k.day <= w.last && Expected(rows[0], project, w, k.day) && k == DayKey(rows[0].id, k.day);
      }
    }
    forall k | k in rest
      ensures k.installation != rows[0].id
    {
      var i, d :| 0 <= i < |rows[1..]| && w.first <= d <= w.last && Expected(rows[1..][i], project, w, d)
                  && k == DayKey(rows[1..][i].id, d);
      assert rows[i + 1] == rows[1..][i];
    }
    assert forall k | k in own :: k.installation == rows[0].id;
  }

  /** The number of expected pairs is the sum over installations of their days in the window. */
  lemma {:induction false} PairsAreDays(rows: seq<Installation>, project: Id, w: Window)
    requires UniqueIds(rows)
    ensures |ExpectedPairs(rows, project, w)| == Sum(rows, project, w, DaysExpected(w))
  {
    if rows == [] {
      assert ExpectedPairs(rows, project, w) == {};
    } else {
      PairsAreDays(rows[1..], project, w);
      PairsSplit(rows, project, w);
      if Registered(rows[0], project, w) {
        IntervalSize(rows[0].id, Max(rows[0].start.value, w.first), w.last);
      }
    }
  }

  // ---- Cohorts --------------------------------------------------------------------------

  /** One row of the grouped query: a registration day and how many installations share it. */
  datatype Cohort = Cohort(start: Option<Day>, installations: nat)

  function CountOn(rows: seq<Installation>, project: Id, day: Day): nat {
    if rows == [] then 0
    else (if rows[0].project == project && rows[0].start == Some(day) then 1 else 0) + CountOn(rows[1..], project, day)
  }

  /** What the grouped query answers: every readable registration day up to the last day once, with
      the number of installations registered on it, in any order. */
  ghost predicate Grouped(cohorts: seq<Cohort>, rows: seq<Installation>, project: Id, last: Day) {
    && (forall i, j | 0 <= i < j < |cohorts| && cohorts[i].start.Some? :: cohorts[i].start != cohorts[j].start)
    && (forall i | 0 <= i < |cohorts| && cohorts[i].start.Some? ::
          cohorts[i].start.value <= last && cohorts[i].installations == CountOn(rows, project, cohorts[i].start.value))
    && (forall i | 0 <= i < |rows| && rows[i].project == project && rows[i].start.Some?
        && rows[i].start.value <= last ::
          exists c | 0 <= c < |cohorts| :: cohorts[c].start == rows[i].start)
  }

  function SumCohorts(cohorts: seq<Cohort>, weight: Weight): nat {
    if cohorts == [] then 0
    else
      var last := cohorts[|cohorts| - 1];
      SumCohorts(cohorts[..|cohorts| - 1], weight)
        + (if last.start.Some? then weight(last.start.value) * last.installations else 0)
  }

  /** The installations of the project registered on one of the cohorts' days. */
  predicate InCohorts(i: Installation, cohorts: seq<Cohort>, project: Id) {
    i.project == project && i.start.Some? && exists c | 0 <= c < |cohorts| :: cohorts[c].start == i.start
  }

  function SumIn(rows: seq<Installation>, cohorts: seq<Cohort>, project: Id, weight: Weight): nat {
    if rows == [] then 0
    else
      (if InCohorts(rows[0], cohorts, project) then weight(rows[0].start.value) else 0)
      + SumIn(rows[1..], cohorts, project, weight)
  }

  lemma {:induction false} OneCohort(rows: seq<Installation>, cohorts: seq<Cohort>, last: Cohort, project: Id,
                                     weight: Weight)
    requires last.start.Some? && forall c | 0 <= c < |cohorts| :: cohorts[c].start != last.start
    ensures SumIn(rows, cohorts + [last], project, weight)
            == SumIn(rows, cohorts, project, weight)
              + weight(last.start.value) * CountOn(rows, project, last.start.value)
  {
    if rows != [] {
      OneCohort(rows[1..], cohorts, last, project, weight);
      CohortJoins(rows[0], cohorts, last, project);
      var days, rest := weight(last.start.value), CountOn(rows[1..], project, last.start.value);
      assert days * (1 + rest) == days + days * rest;
    }
  }

  lemma {:induction false} CohortJoins(i: Installation, cohorts: seq<Cohort>, last: Cohort, project: Id)
    ensures InCohorts(i, cohorts + [last], project) <==>
            InCohorts(i, cohorts, project) || (i.project == project && i.start.Some? && i.start == last.start)
  {
    var more := cohorts + [last];
    if InCohorts(i, cohorts, project) {
      var c :| 0 <= c < |cohorts| && cohorts[c].start == i.start;
      assert more[c].start == i.start;
    }
    if i.start == last.start {
      assert more[|cohorts|].start == i.start;
    }
  }

  lemma {:induction false} UnreadableCohort(rows: seq<Installation>, cohorts: seq<Cohort>, last: Cohort, project: Id,
                                            weight: Weight)
    requires last.start.None?
    ensures SumIn(rows, cohorts + [last], project, weight) == SumIn(rows, cohorts, project, weight)
  {
    if rows != [] {
      UnreadableCohort(rows[1..], cohorts, last, project, weight);
      CohortJoins(rows[0], cohorts, last, project);
    }
  }

  lemma {:induction false} NoCohorts(rows: seq<Installation>, project: Id, weight: Weight)
    ensures SumIn(rows, [], project, weight) == 0
  {
    if rows != [] {
      NoCohorts(rows[1..], project, weight);
    }
  }

  /** Summing by cohort is summing over the installations the cohorts cover. */
  lemma {:induction false} CohortsAreDays(cohorts: seq<Cohort>, rows: seq<Installation>, project: Id, weight: Weight)
    requires forall i, j | 0 <= i < j < |cohorts| && cohorts[i].start.Some? :: cohorts[i].start != cohorts[j].start
    requires forall i | 0 <= i < |cohorts| && cohorts[i].start.Some? ::
               cohorts[i].installations == CountOn(rows, project, cohorts[i].start.value)
    ensures SumCohorts(cohorts, weight) == SumIn(rows, cohorts, project, weight)
  {
    if cohorts == [] {
      NoCohorts(rows, project, weight);
    } else {
      var front, last := cohorts[..|cohorts| - 1], cohorts[|cohorts| - 1];
      CohortsAreDays(front, rows, project, weight);
      assert cohorts == front + [last];
      if last.start.Some? {
        OneCohort(rows, front, last, project, weight);
      } else {
        UnreadableCohort(rows, front, last, project, weight);
      }
    }
  }

  lemma {:induction false} CoveredByCohorts(rows: seq<Installation>, all: seq<Installation>, cohorts: seq<Cohort>,
                                            project: Id,
                                            w: Window, weight: Weight)
    requires Grouped(cohorts, all, project, w.last) && forall i | 0 <= i < |rows| :: rows[i] in all
    ensures SumIn(rows, cohorts, project, weight) == Sum(rows, project, w, weight)
  {
    if rows != [] {
      CoveredByCohorts(rows[1..], all, cohorts, project, w, weight);
      CohortOf(rows[0], all, cohorts, project, w);
    }
  }

  lemma {:induction false} CohortOf(i: Installation, all: seq<Installation>, cohorts: seq<Cohort>, project: Id,
                                    w: Window)
    requires Grouped(cohorts, all, project, w.last) && i in all
    ensures InCohorts(i, cohorts, project) <==> Registered(i, project, w)
  {
    var k :| 0 <= k < |all| && all[k] == i;
  }

  lemma {:induction false} GroupingKeepsSums(cohorts: seq<Cohort>, rows: seq<Installation>, project: Id, w: Window,
                                             weight: Weight)
    requires Grouped(cohorts, rows, project, w.last)
    ensures SumCohorts(cohorts, weight) == Sum(rows, project, w, weight)
  {
    CohortsAreDays(cohorts, rows, project, weight);
    CoveredByCohorts(rows, rows, cohorts, project, w, weight);
  }

  function RegisteredIds(rows: seq<Installation>, project: Id, w: Window): set<Id> {
    set i | 0 <= i < |rows| && Registered(rows[i], project, w) :: rows[i].id
  }

  lemma {:induction false} RegisteredCount(rows: seq<Installation>, project: Id, w: Window)
    requires UniqueIds(rows)
    ensures |RegisteredIds(rows, project, w)| == Sum(rows, project, w, One())
  {
    if rows == [] {
      assert RegisteredIds(rows, project, w) == {};
    } else {
      RegisteredCount(rows[1..], project, w);
      var rest := RegisteredIds(rows[1..], project, w);
      assert forall i | 1 <= i < |rows| :: rows[i] == rows[1..][i - 1];
      assert rows[0].id !in rest;
      assert RegisteredIds(rows, project, w) == if Registered(rows[0], project, w) then rest + {rows[0].id} else rest;
    }
  }

  /** The grouped sums of the source are the number of (installation, closed day on or after
      registration) pairs in the window and the number of installations expected in it. */
  lemma {:induction false} ExpectedIsPairs(cohorts: seq<Cohort>, rows: seq<Installation>, project: Id, w: Window)
    requires UniqueIds(rows) && Grouped(cohorts, rows, project, w.last)
    ensures SumCohorts(cohorts, DaysExpected(w)) == |ExpectedPairs(rows, project, w)|
    ensures SumCohorts(cohorts, One()) == |RegisteredIds(rows, project, w)|
  {
    GroupingKeepsSums(cohorts, rows, project, w, DaysExpected(w));
    GroupingKeepsSums(cohorts, rows, project, w, One());
    PairsAreDays(rows, project, w);
    RegisteredCount(rows, project, w);
  }

  // ---- The verdict ----------------------------------------------------------------------

  datatype State = Complete | Incomplete | Unknown

  datatype Usage = Usage(
    state: State,
    throughDay: Option<Day>,
    expectedDays: nat,
    coveredDays: nat,
    missingDays: nat,
    silentInstallations: nat,
    expectedInstallations: nat,
    coveredBps: nat)

  const EMPTY := Usage(Unknown, None, 0, 0, 0, 0, 0, 10_000)

  /** The contact rows the coverage query counts. */
  function ContactPairs(t: Tables, project: Id, w: Window): set<DayKey> {
    set k | k in t.contacts && t.contacts[k].project == project && w.first <= k.day <= w.last
  }

  predicate HasContact(t: Tables, id: Id, w: Window) {
    exists k | k in t.contacts :: k.installation == id && w.first <= k.day <= w.last
  }

  /** Registered by the last day and without a contact in the window. */
  function Silent(t: Tables, project: Id, w: Window): set<Id> {
    set i | i in t.installations && Registered(i, project, w) && !HasContact(t, i.id, w) :: i.id
  }

  function Min(a: nat, b: nat): nat {
    if a <= b then a else b
  }

  /** Who and what is counted: the days of the window from registration on, the project's own contacts on its days, the
      installations registered by its end, and those of them without any contact in it. */
  lemma {:induction false} CountedExactly(t: Tables, project: Id, w: Window, k: DayKey)
    ensures k in ExpectedPairs(t.installations, project, w) <==>
            w.first <= k.day <= w.last
            && exists i | 0 <= i < |t.installations| :: RegisteredBy(t.installations[i], k.installation, project, k.day)
    ensures k in ContactPairs(t, project, w) <==>
            w.first <= k.day <= w.last && k in t.contacts && t.contacts[k].project == project
    ensures k.installation in RegisteredIds(t.installations, project, w) <==>
            exists i | 0 <= i < |t.installations| :: RegisteredBy(t.installations[i], k.installation, project, w.last)
    ensures k.installation in Silent(t, project, w) <==>
            && (exists i | 0 <= i < |t.installations| ::
                  RegisteredBy(t.installations[i], k.installation, project, w.last))
            && forall day | w.first <= day <= w.last :: DayKey(k.installation, day) !in t.contacts
  {
    if exists i | 0 <= i < |t.installations| :: RegisteredBy(t.installations[i], k.installation, project, k.day) {
      var i :| 0 <= i < |t.installations| && RegisteredBy(t.installations[i], k.installation, project, k.day);
      assert w.first <= k.day <= w.last ==> Expected(t.installations[i], project, w, k.day);
    }
    if exists i | 0 <= i < |t.installations| :: RegisteredBy(t.installations[i], k.installation, project, w.last) {
      var i :| 0 <= i < |t.installations| && RegisteredBy(t.installations[i], k.installation, project, w.last);
      assert Registered(t.installations[i], project, w) && t.installations[i] in t.installations;
    }
    SilentDays(t, k.installation, w);
  }

  predicate RegisteredBy(i: Installation, id: Id, project: Id, day: Day) {
    i.id == id && i.project == project && i.start.Some? && i.start.value <= day
  }

  lemma {:induction false} SilentDays(t: Tables, id: Id, w: Window)
    ensures !HasContact(t, id, w) <==> forall day | w.first <= day <= w.last :: DayKey(id, day) !in t.contacts
  {
    if !HasContact(t, id, w) {
      forall day | w.first <= day <= w.last
        ensures DayKey(id, day) !in t.contacts
      {
        var k := DayKey(id, day);
        assert k.installation == id;
      }
    } else {
      var k :| k in t.contacts && k.installation == id && w.first <= k.day <= w.last;
      assert k == DayKey(id, k.day);
    }
  }

  /** The loop of the source over the grouped rows. */
  method SumUp(cohorts: seq<Cohort>, w: Window) returns (days: nat, installations: nat)
    requires w.first <= w.last && forall i | 0 <= i < |cohorts| && cohorts[i].start.Some? ::
               cohorts[i].start.value <= w.last
    ensures days == SumCohorts(cohorts, DaysExpected(w)) && installations == SumCohorts(cohorts, One())
  {
    days, installations := 0, 0;
    for i := 0 to |cohorts|
      invariant days == SumCohorts(cohorts[..i], DaysExpected(w)) && installations == SumCohorts(cohorts[..i], One())
    {
      assert cohorts[..i + 1][..i] == cohorts[..i];
      var c := cohorts[i];
      if c.start.None? {
        continue;
      }
      var first := Max(c.start.value, w.first);
      if first > w.last {
        continue;
      }
      days := days + (w.last - first + 1) * c.installations;
      installations := installations + c.installations;
    }
    assert cohorts[..|cohorts|] == cohorts;
  }

  /** The counts of a window and the verdict on them. */
  ghost predicate Judged(t: Tables, project: Id, w: Window, r: Usage) {
    && r.throughDay == Some(w.last)
    && r.expectedDays == |ExpectedPairs(t.installations, project, w)|
    && r.expectedInstallations == |RegisteredIds(t.installations, project, w)|
    && r.silentInstallations == |Silent(t, project, w)|
    && r.coveredDays == Min(|ContactPairs(t, project, w)|, r.expectedDays)
    && Consistent(r)
  }

  /** Covered and missing days make up the expected ones; the basis points are the floor of the
      covered share, and full exactly when nothing is missing; the state says whether anything was
      expected and whether anything is missing. */
  predicate Consistent(r: Usage) {
    && r.coveredDays + r.missingDays == r.expectedDays
    && (r.coveredBps == 10_000 <==> r.missingDays == 0)
    && (r.expectedDays > 0 ==>
          r.coveredBps * r.expectedDays <= r.coveredDays * 10_000 < (r.coveredBps + 1) * r.expectedDays)
    && (r.state.Unknown? <==> r.expectedDays == 0)
    && (r.state.Complete? <==> r.expectedDays > 0 && r.missingDays == 0)
  }

  method Verdict(last: Day, expected: nat, contacts: nat, silent: nat, installations: nat) returns (r: Usage)
    ensures r.throughDay == Some(last) && r.expectedDays == expected && r.silentInstallations == silent
    ensures r.expectedInstallations == installations && r.coveredDays == Min(contacts, expected)
    ensures Consistent(r)
  {
    var covered := Min(contacts, expected);
    var missing := expected - covered;
    var bps := 10_000;
    if expected > 0 {
      bps := covered * 10_000 / expected;
      BasisPoints(covered, expected);
    }
    var state := if expected == 0 then Unknown else if missing == 0 then Complete else Incomplete;
    r := Usage(state, Some(last), expected, covered, missing, silent, installations, bps);
  }

  /** The coverage of the closed days of a window; `cohorts` is the answer of the grouped query. */
  method Judge(t: Tables, project: Id, from: Day, to: Day, today: Day, cohorts: seq<Cohort>) returns (r: Usage)
    requires UniqueIds(t.installations) && Grouped(cohorts, t.installations, project, LastClosed(to, today))
    ensures var w := Window(from, LastClosed(to, today));
            if w.last < w.first then r == EMPTY else Judged(t, project, w, r)
    ensures r.throughDay.None? ==> r == Usage(Unknown, None, 0, 0, 0, 0, 0, 10_000)
                                   && forall day :: !IsOver(day, from, to, today)
    ensures r.throughDay.Some? ==> IsOver(r.throughDay.value, from, to, today)
                                   && forall day | IsOver(day, from, to, today) :: day <= r.throughDay.value
  {
    var last := LastClosed(to, today);
    if last < from {
      return EMPTY;
    }
    var w := Window(from, last);
    var days, installations := SumUp(cohorts, w);
    ExpectedIsPairs(cohorts, t.installations, project, w);
    r := Verdict(last, days, |ContactPairs(t, project, w)|, |Silent(t, project, w)|, installations);
  }

  /** A day of the window that is over: today is not. */
  predicate IsOver(day: Day, from: Day, to: Day, today: Day) {
    from <= day <= to && day < today
  }

  /** The last day that is over, clipped to the window. */
  function LastClosed(to: Day, today: Day): Day {
    if to <= today - 1 then to else today - 1
  }

  lemma {:induction false} BasisPoints(covered: nat, days: nat)
    requires 0 < days && covered <= days
    ensures var bps := covered * 10_000 / days;
            && bps * days <= covered * 10_000 < (bps + 1) * days
            && (bps == 10_000 <==> covered == days)
  {
    FloorBounds(covered * 10_000, days);
    FullShare(covered, days, covered * 10_000 / days);
  }

  lemma {:induction false} FullShare(covered: int, days: int, bps: int)
    requires 0 <= covered <= days && days > 0 && bps * days <= covered * 10_000 < (bps + 1) * days
    ensures bps == 10_000 <==> covered == days
  {
    if covered == days {
      AtMostByFactor(bps, 10_000, days);
      LessByFactor(10_000, bps + 1, days);
    }
  }

  lemma {:induction false} SubsetSize<T>(small: set<T>, large: set<T>)
    requires small <= large
    ensures |small| <= |large|
    ensures |small| == |large| ==> small == large
  {
    assert large == small + (large - small);
  }

  /** When contact rows exist only for expected pairs, the window counts as complete exactly when
      something is expected and every expected pair has its row. */
  lemma {:induction false} CompleteMeansEveryPair(t: Tables, project: Id, w: Window, r: Usage)
    requires Judged(t, project, w, r)
    requires ContactPairs(t, project, w) <= ExpectedPairs(t.installations, project, w)
    ensures var (expected, contacts) := (ExpectedPairs(t.installations, project, w), ContactPairs(t, project, w));
            r.state.Complete? <==> expected != {} && forall k | k in expected :: k in contacts
  {
    var expected, contacts := ExpectedPairs(t.installations, project, w), ContactPairs(t, project, w);
    SubsetSize(contacts, expected);
    if forall k | k in expected :: k in contacts {
      assert expected == contacts;
    }
  }

  /** Then nobody who was expected is silent either. */
  lemma {:induction false} CompleteMeansNobodySilent(t: Tables, project: Id, w: Window, r: Usage)
    requires w.first <= w.last && Judged(t, project, w, r) && r.state.Complete?
    requires ContactPairs(t, project, w) <= ExpectedPairs(t.installations, project, w)
    ensures r.silentInstallations == 0
  {
    CompleteMeansEveryPair(t, project, w, r);
    forall i | i in t.installations && Registered(i, project, w)
      ensures HasContact(t, i.id, w)
    {
      var n :| 0 <= n < |t.installations| && t.installations[n] == i;
      assert Expected(t.installations[n], project, w, w.last);
      assert DayKey(i.id, w.last) in ContactPairs(t, project, w);
    }
    assert Silent(t, project, w) == {};
  }

  lemma {:induction false} SplitSize<T>(a: set<T>, b: set<T>)
    ensures |a| == |a - b| + |a * b|
  {
    assert a == (a - b) + (a * b);
  }

  /** Exactly when the verdict can be trusted: it calls a window complete precisely when every
      expected pair has its row if and only if nothing is missing at all, or fewer rows stray from
      the expected pairs than are missing among them. */
  lemma {:induction false} CompleteExactly(t: Tables, project: Id, w: Window, r: Usage)
    requires Judged(t, project, w, r)
    ensures var (expected, contacts) := (ExpectedPairs(t.installations, project, w), ContactPairs(t, project, w));
            && (r.state.Complete? <==> expected != {} && |expected - contacts| <= |contacts - expected|)
            && ((r.state.Complete? <==> expected != {} && expected <= contacts)
                <==> expected - contacts == {} || |contacts - expected| < |expected - contacts|)
  {
    var expected, contacts := ExpectedPairs(t.installations, project, w), ContactPairs(t, project, w);
    SplitSize(expected, contacts);
    SplitSize(contacts, expected);
    assert expected * contacts == contacts * expected;
    if !(expected <= contacts) {
      var k :| k in expected && k !in contacts;
      assert k in expected - contacts;
    }
  }

  /** Where it cannot, a row of a deleted installation stands in for a silent one: the window is
      judged complete although the only expected pair has no contact. */
  lemma {:induction false} StrayContactHidesSilence(project: Id, day: Day, id: Id, deleted: Id, contact: Contact,
                                                    r: Usage)
    requires id != deleted && contact.project == project
    requires Judged(Tables([Installation(id, project, Some(day))], map[DayKey(deleted, day) := contact]), project,
                    Window(day, day), r)
    ensures var t := Tables([Installation(id, project, Some(day))], map[DayKey(deleted, day) := contact]);
            && ExpectedPairs(t.installations, project, Window(day, day)) == {DayKey(id, day)}
            && DayKey(id, day) !in t.contacts && Silent(t, project, Window(day, day)) == {id}
    ensures r.state.Complete? && r.missingDays == 0 && r.coveredBps == 10_000 && r.silentInstallations == 1
  {
    var i := Installation(id, project, Some(day));
    var t := Tables([i], map[DayKey(deleted, day) := contact]);
    var w := Window(day, day);
    assert t.installations[0] == i && Expected(t.installations[0], project, w, day);
    assert ExpectedPairs(t.installations, project, w) == {DayKey(id, day)};
    assert ContactPairs(t, project, w) == {DayKey(deleted, day)};
    assert i in t.installations && Registered(i, project, w) && !HasContact(t, i.id, w);
    assert Silent(t, project, w) == {id};
  }
}
