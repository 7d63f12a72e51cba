/** Registering client installations with replay protection, and their heartbeats. The request hash
    stands for the request: `contents` names the request a hash belongs to. */
module Installations {
  import opened Text
  import opened Wrappers

  type Id = nat
  type Hash = string

  const REPLAY_WINDOW: int := 24 * 60 * 60

  datatype Request = Request(installationKey: Id, displayName: string, platform: string, version: string)

  /** The text an installation shows, as stored. */
  datatype Profile = Profile(displayName: string, platform: string, version: string)

  /** How the text of a request is stored; the proofs below hold for any form. */
  type Form = Request -> Profile

  function Trimmed(r: Request): Profile {
    Profile(Trim(r.displayName), r.platform, Trim(r.version))
  }

  datatype Installation = Installation(
    id: Id,
    instance: Id,
    user: Id,
    installationKey: Id,
    profile: Profile,
    connectedAt: int,
    lastSeenAt: int,
    createdAt: int,
    updatedAt: int)

  /** The primary key and the rest of a replay-protection row. */
  datatype ReplayKey = ReplayKey(instance: Id, user: Id, idempotencyKey: Id)

  datatype Replay = Replay(hash: Hash, installation: Id, createdAt: int)

  datatype Tables = Tables(installations: seq<Installation>, replays: map<ReplayKey, Replay>)

  datatype Call =
    | Register(key: ReplayKey, hash: Hash, request: Request, freshId: Id, now: int)
    | Heartbeat(installation: Id, instance: Id, user: Id, now: int)

  /** `NotFound` is the empty answer to a heartbeat. */
  datatype Error = Conflict | Database | NotFound

  type Answer = Result<Installation, Error>

  // ---- One call -------------------------------------------------------------------------

  predicate Expired(key: ReplayKey, row: Replay, instance: Id, now: int) {
    key.instance == instance && row.createdAt < now - REPLAY_WINDOW
  }

  function Purge(replays: map<ReplayKey, Replay>, instance: Id, now: int): map<ReplayKey, Replay> {
    map k | k in replays && !Expired(k, replays[k], instance, now) :: replays[k]
  }

  /** The index of the installation with this id, or the number of rows. */
  function ById(rows: seq<Installation>, id: Id): (i: nat)
    ensures i <= |rows| && (i < |rows| ==> rows[i].id == id)
    ensures forall k | 0 <= k < i :: rows[k].id != id
  {
    if rows == [] || rows[0].id == id then 0
    else
      var rest := ById(rows[1..], id);
      assert forall k | 1 <= k < rest + 1 :: rows[k] == rows[1..][k - 1];
      rest + 1
  }

  /** The index of the installation with this key in the instance, or the number of rows. */
  function ByKey(rows: seq<Installation>, instance: Id, key: Id): (i: nat)
    ensures i <= |rows| && (i < |rows| ==> rows[i].instance == instance && rows[i].installationKey == key)
    ensures forall k | 0 <= k < i :: rows[k].instance != instance || rows[k].installationKey != key
  {
    if rows == [] || (rows[0].instance == instance && rows[0].installationKey == key) then 0
    else
      var rest := ByKey(rows[1..], instance, key);
      assert forall k | 1 <= k < rest + 1 :: rows[k] == rows[1..][k - 1];
      rest + 1
  }

  function Refreshed(form: Form, row: Installation, request: Request, now: int): Installation {
    row.(profile := form(request), lastSeenAt := now, updatedAt := now)
  }

  function Created(form: Form, c: Call): Installation
    requires c.Register?
  {
    Installation(c.freshId, c.key.instance, c.key.user, c.request.installationKey, form(c.request), c.now, c.now,
                 c.now, c.now)
  }

  function WithReplay(t: Tables, c: Call, rows: seq<Installation>, row: Installation): (Tables, Answer)
    requires c.Register?
  {
    (Tables(rows, Purge(t.replays, c.key.instance, c.now)[c.key := Replay(c.hash, row.id, c.now)]), Success(row))
  }

  /** A registration transaction; a failure rolls the purge back too. */
  function RegisterOn(form: Form, t: Tables, c: Call): (Tables, Answer)
    requires c.Register?
  {
    var live := Purge(t.replays, c.key.instance, c.now);
    if c.key in live then
      if live[c.key].hash != c.hash then (t, Failure(Conflict))
      else
        var i := ById(t.installations, live[c.key].installation);
        if i == |t.installations| then (t, Failure(Database))
        else (Tables(t.installations, live), Success(t.installations[i]))
    else
      var i := ByKey(t.installations, c.key.instance, c.request.installationKey);
      if i < |t.installations| then
        if t.installations[i].user != c.key.user then (t, Failure(Conflict))
        else
          var row := Refreshed(form, t.installations[i], c.request, c.now);
          WithReplay(t, c, t.installations[i := row], row)
      else if ById(t.installations, c.freshId) < |t.installations| then (t, Failure(Database))
      else WithReplay(t, c, t.installations + [Created(form, c)], Created(form, c))
  }

  function HeartbeatOn(t: Tables, c: Call): (Tables, Answer)
    requires c.Heartbeat?
  {
    var i := ById(t.installations, c.installation);
    if i == |t.installations| || t.installations[i].instance != c.instance || t.installations[i].user != c.user
    then (t, Failure(NotFound))
    else
      var row := t.installations[i].(lastSeenAt := c.now, updatedAt := c.now);
      (t.(installations := t.installations[i := row]), Success(row))
  }

  function Execute(form: Form, t: Tables, c: Call): (Tables, Answer) {
    if c.Register? then RegisterOn(form, t, c) else HeartbeatOn(t, c)
  }

  // ---- What every call keeps ------------------------------------------------------------

  predicate UniqueIds(rows: seq<Installation>) {
    forall i, j | 0 <= i < j < |rows| :: rows[i].id != rows[j].id
  }

  predicate UniqueKeys(rows: seq<Installation>) {
    forall i, j | 0 <= i < j < |rows| ::
      rows[i].instance != rows[j].instance || rows[i].installationKey != rows[j].installationKey
  }

  /** The part of an installation that is fixed when it is created. */
  predicate SameIdentity(a: Installation, b: Installation) {
    && a.id == b.id && a.instance == b.instance && a.user == b.user && a.installationKey == b.installationKey
    && a.connectedAt == b.connectedAt && a.createdAt == b.createdAt
  }

  /** Rows stay where they are and keep their identity; new ones come last. */
  predicate Persists(before: seq<Installation>, after: seq<Installation>) {
    |before| <= |after| && forall i | 0 <= i < |before| :: SameIdentity(before[i], after[i])
  }

  type Contents = Hash -> Request

  /** A replay row points at the installation of the request its hash names, owned by its user. */
  ghost predicate Anchored(rows: seq<Installation>, contents: Contents, key: ReplayKey, replay: Replay) {
    var i := ById(rows, replay.installation);
    && i < |rows| && rows[i].instance == key.instance && rows[i].user == key.user
    && rows[i].installationKey == contents(replay.hash).installationKey
  }

  ghost predicate Sound(t: Tables, contents: Contents) {
    && UniqueIds(t.installations) && UniqueKeys(t.installations)
    && forall k | k in t.replays :: Anchored(t.installations, contents, k, t.replays[k])
  }

  predicate Identified(c: Call, contents: Contents) {
    c.Register? ==> contents(c.hash) == c.request
  }

  lemma {:induction false} FindsIt(rows: seq<Installation>, i: nat)
    requires i < |rows| && UniqueIds(rows)
    ensures ById(rows, rows[i].id) == i
  {
  }

  lemma {:induction false} FindsByKey(rows: seq<Installation>, i: nat)
    requires i < |rows| && UniqueKeys(rows)
    ensures ByKey(rows, rows[i].instance, rows[i].installationKey) == i
  {
  }

  predicate OneMore(before: seq<Installation>, after: seq<Installation>) {
    |after| == |before| + 1 && var last := after[|before|];
    ById(before, last.id) == |before| && ByKey(before, last.instance, last.installationKey) == |before|
  }

  /** Unique rows stay unique when each keeps its identity and the only new one is new in both. */
  lemma {:induction false} PersistKeepsIds(before: seq<Installation>, after: seq<Installation>)
    requires UniqueIds(before) && Persists(before, after)
    requires |after| == |before| || OneMore(before, after)
    ensures UniqueIds(after)
  {
    forall i, j | 0 <= i < j < |after|
      ensures after[i].id != after[j].id
    {
      assert SameIdentity(before[i], after[i]);
      assert j < |before| ==> SameIdentity(before[j], after[j]);
    }
  }

  lemma {:induction false} PersistKeepsKeys(before: seq<Installation>, after: seq<Installation>)
    requires UniqueKeys(before) && Persists(before, after)
    requires |after| == |before| || OneMore(before, after)
    ensures UniqueKeys(after)
  {
    forall i, j | 0 <= i < j < |after|
      ensures after[i].instance != after[j].instance || after[i].installationKey != after[j].installationKey
    {
      assert SameIdentity(before[i], after[i]);
      assert j < |before| ==> SameIdentity(before[j], after[j]);
    }
  }

  lemma {:induction false} AnchorPersists(before: seq<Installation>, after: seq<Installation>, contents: Contents,
                                          key: ReplayKey, replay: Replay)
    requires Persists(before, after) && UniqueIds(after) && Anchored(before, contents, key, replay)
    ensures Anchored(after, contents, key, replay)
  {
    var i := ById(before, replay.installation);
    assert SameIdentity(before[i], after[i]);
    FindsIt(after, i);
  }

  /** Rows stay in place with their identity, and at most one new one comes last. */
  predicate Moves(before: seq<Installation>, after: seq<Installation>) {
    Persists(before, after) && (|after| == |before| || OneMore(before, after))
  }

  lemma {:induction false} ReplacingMoves(rows: seq<Installation>, i: nat, row: Installation)
    requires i < |rows| && SameIdentity(rows[i], row)
    ensures Moves(rows, rows[i := row])
  {
  }

  lemma {:induction false} AppendingMoves(rows: seq<Installation>, row: Installation)
    requires ById(rows, row.id) == |rows| && ByKey(rows, row.instance, row.installationKey) == |rows|
    ensures Moves(rows, rows + [row])
  {
  }

  /** How a call changes the installations: one row refreshed, one row added, or nothing. */
  lemma {:induction false} CallMoves(form: Form, t: Tables, c: Call)
    ensures Moves(t.installations, Execute(form, t, c).0.installations)
  {
    var rows := t.installations;
    match c {
      case Heartbeat(id, _, _, now) =>
        var i := ById(rows, id);
        if i < |rows| {
          ReplacingMoves(rows, i, rows[i].(lastSeenAt := now, updatedAt := now));
        }
      case Register(key, _, request, _, now) =>
        var i := ByKey(rows, key.instance, request.installationKey);
        if i < |rows| {
          ReplacingMoves(rows, i, Refreshed(form, rows[i], request, now));
        } else if ById(rows, c.freshId) == |rows| {
          AppendingMoves(rows, Created(form, c));
        }
    }
  }

  lemma {:induction false} MovesKeepUnique(before: seq<Installation>, after: seq<Installation>)
    requires UniqueIds(before) && UniqueKeys(before) && Moves(before, after)
    ensures Persists(before, after) && UniqueIds(after) && UniqueKeys(after)
  {
    PersistKeepsIds(before, after);
    PersistKeepsKeys(before, after);
  }

  lemma {:induction false} CallPersists(form: Form, t: Tables, c: Call, rows: seq<Installation>)
    requires UniqueIds(t.installations) && UniqueKeys(t.installations) && rows == Execute(form, t, c).0.installations
    ensures Persists(t.installations, rows) && UniqueIds(rows) && UniqueKeys(rows)
  {
    CallMoves(form, t, c);
    MovesKeepUnique(t.installations, rows);
  }

  /** A successful registration answers a row of the user's with the requested key. */
  lemma {:induction false} AnswerIsRow(form: Form, t: Tables, contents: Contents, c: Call) returns (i: nat)
    requires Sound(t, contents) && Identified(c, contents) && c.Register? && RegisterOn(form, t, c).1.Success?
    ensures var (n, answer) := RegisterOn(form, t, c);
            && i < |n.installations| && n.installations[i] == answer.value
            && answer.value.instance == c.key.instance && answer.value.user == c.key.user
            && answer.value.installationKey == c.request.installationKey
  {
    var live := Purge(t.replays, c.key.instance, c.now);
    if c.key in live {
      assert Anchored(t.installations, contents, c.key, t.replays[c.key]);
      i := ById(t.installations, live[c.key].installation);
    } else {
      i := ByKey(t.installations, c.key.instance, c.request.installationKey);
    }
  }

  /** The replay rows after a call: those that survive the purge, and the registration's own. */
  lemma {:induction false} ReplaysAfter(form: Form, t: Tables, c: Call, k: ReplayKey)
    requires k in Execute(form, t, c).0.replays
    ensures var (n, answer) := Execute(form, t, c);
            || (k in t.replays && n.replays[k] == t.replays[k])
            || (c.Register? && k == c.key && answer.Success? && n.replays[k] == Replay(c.hash, answer.value.id, c.now))
  {
  }

  lemma {:induction false} NewAnchor(form: Form, t: Tables, contents: Contents, c: Call)
    requires Sound(t, contents) && Identified(c, contents) && c.Register? && RegisterOn(form, t, c).1.Success?
    requires UniqueIds(RegisterOn(form, t, c).0.installations)
    ensures Anchored(RegisterOn(form, t, c).0.installations, contents, c.key,
                     Replay(c.hash, RegisterOn(form, t, c).1.value.id, c.now))
  {
    var i := AnswerIsRow(form, t, contents, c);
    FindsIt(RegisterOn(form, t, c).0.installations, i);
  }

  lemma {:induction false} CallIsSound(form: Form, t: Tables, contents: Contents, c: Call)
    requires Sound(t, contents) && Identified(c, contents)
    ensures Sound(Execute(form, t, c).0, contents)
  {
    var n := Execute(form, t, c).0;
    CallPersists(form, t, c, n.installations);
    forall k | k in n.replays
      ensures Anchored(n.installations, contents, k, n.replays[k])
    {
      ReplaysAfter(form, t, c, k);
      if k in t.replays && n.replays[k] == t.replays[k] {
        AnchorPersists(t.installations, n.installations, contents, k, t.replays[k]);
      } else {
        NewAnchor(form, t, contents, c);
      }
    }
  }

  // ---- Whole runs -----------------------------------------------------------------------

  function Runs(form: Form, t: Tables, calls: seq<Call>): Tables
    decreases |calls|
  {
    if calls == [] then t else Runs(form, Execute(form, t, calls[0]).0, calls[1..])
  }

  predicate AllIdentified(calls: seq<Call>, contents: Contents) {
    forall i | 0 <= i < |calls| :: Identified(calls[i], contents)
  }

  lemma {:induction false} PersistsTransitively(a: seq<Installation>, b: seq<Installation>, c: seq<Installation>)
    requires Persists(a, b) && Persists(b, c)
    ensures Persists(a, c)
  {
    forall i | 0 <= i < |a|
      ensures SameIdentity(a[i], c[i])
    {
      assert SameIdentity(a[i], b[i]) && SameIdentity(b[i], c[i]);
    }
  }

  /** Over every run installations are unique by id and by instance and key, no installation is
      lost, and none changes its identity: its owner, instance, key and id. */
  lemma {:induction false} RunIsSound(form: Form, t: Tables, contents: Contents, calls: seq<Call>)
    requires Sound(t, contents) && AllIdentified(calls, contents)
    ensures Sound(Runs(form, t, calls), contents)
    ensures Persists(t.installations, Runs(form, t, calls).installations)
    decreases |calls|
  {
    if calls != [] {
      CallIsSound(form, t, contents, calls[0]);
      CallPersists(form, t, calls[0], Execute(form, t, calls[0]).0.installations);
      RunIsSound(form, Execute(form, t, calls[0]).0, contents, calls[1..]);
      PersistsTransitively(t.installations, Execute(form, t, calls[0]).0.installations,
                           Runs(form, t, calls).installations);
    }
  }

  /** An instance and installation key name one installation for good, with one owner. */
  lemma {:induction false} OneInstallationForGood(form: Form, t: Tables, contents: Contents, calls: seq<Call>,
      instance: Id, key: Id)
    requires Sound(t, contents) && AllIdentified(calls, contents)
    requires ByKey(t.installations, instance, key) < |t.installations|
    ensures var (i, n) := (ByKey(t.installations, instance, key), Runs(form, t, calls).installations);
            && ByKey(n, instance, key) == i && i < |n|
            && n[i].id == t.installations[i].id && n[i].user == t.installations[i].user
  {
    RunIsSound(form, t, contents, calls);
    var i := ByKey(t.installations, instance, key);
    assert SameIdentity(t.installations[i], Runs(form, t, calls).installations[i]);
    FindsByKey(Runs(form, t, calls).installations, i);
  }

  /** A live replay row of the same key with another request. */
  predicate KeyIsTaken(t: Tables, c: Call)
    requires c.Register?
  {
    c.key in t.replays && !Expired(c.key, t.replays[c.key], c.key.instance, c.now) && t.replays[c.key].hash != c.hash
  }

  lemma {:induction false} KnownRequestAnswers(form: Form, t: Tables, contents: Contents, c: Call, i: nat)
    requires Sound(t, contents) && Identified(c, contents) && c.Register?
    requires i < |t.installations| && t.installations[i].instance == c.key.instance
    requires t.installations[i].user == c.key.user
    requires t.installations[i].installationKey == c.request.installationKey
    ensures RegisterOn(form, t, c).1.Success? ==> RegisterOn(form, t, c).1.value.id == t.installations[i].id
    ensures RegisterOn(form, t, c).1.Failure? <==> KeyIsTaken(t, c)
    ensures RegisterOn(form, t, c).1.Failure? ==> RegisterOn(form, t, c).1.error == Conflict
  {
    FindsByKey(t.installations, i);
    var live := Purge(t.replays, c.key.instance, c.now);
    if c.key in live && live[c.key].hash == c.hash {
      assert Anchored(t.installations, contents, c.key, t.replays[c.key]);
      FindsByKey(t.installations, ById(t.installations, live[c.key].installation));
    }
  }

  /** A later registration of the same user for the same installation key, after any run and at any
      time, inside the replay window or after it, with the same idempotency key or another, gets the
      same installation id; it is refused exactly when its idempotency key has been used for another
      request within the window. */
  lemma {:induction false} SameRequestSameInstallation(form: Form, t: Tables, contents: Contents, first: Call,
      calls: seq<Call>, again: Call)
    requires Sound(t, contents) && first.Register? && Identified(first, contents) && AllIdentified(calls, contents)
    requires Execute(form, t, first).1.Success?
    requires again.Register? && Identified(again, contents)
    requires again.key.instance == first.key.instance && again.key.user == first.key.user
    requires again.request.installationKey == first.request.installationKey
    ensures var (n, answer) := (Runs(form, Execute(form, t, first).0, calls), Execute(form, t, first).1);
            && (RegisterOn(form, n, again).1.Success? ==> RegisterOn(form, n, again).1.value.id == answer.value.id)
            && (RegisterOn(form, n, again).1.Failure? <==> KeyIsTaken(n, again))
  {
    var next := Execute(form, t, first).0;
    var i := AnswerIsRow(form, t, contents, first);
    CallIsSound(form, t, contents, first);
    RunIsSound(form, next, contents, calls);
    var n := Runs(form, next, calls);
    assert SameIdentity(next.installations[i], n.installations[i]);
    KnownRequestAnswers(form, n, contents, again, i);
  }

  /** A replay inside the window answers the recorded installation as it is now and changes no
      installation and no replay row that survives the purge. */
  lemma {:induction false} ReplayChangesNothing(form: Form, t: Tables, contents: Contents, c: Call)
    requires Sound(t, contents) && c.Register? && c.key in t.replays && t.replays[c.key].hash == c.hash
    requires t.replays[c.key].createdAt >= c.now - REPLAY_WINDOW
    ensures var (n, answer) := RegisterOn(form, t, c);
            && answer.Success? && answer.value in t.installations && answer.value.id == t.replays[c.key].installation
            && n.installations == t.installations
            && (forall k | k in n.replays :: k in t.replays && n.replays[k] == t.replays[k])
            && (forall k | k in t.replays :: k in n.replays <==> !Expired(k, t.replays[k], c.key.instance, c.now))
  {
    assert Anchored(t.installations, contents, c.key, t.replays[c.key]);
  }

  /** A failed call leaves both tables as they were, the purge included. A new registration conflicts
      exactly when its idempotency key is taken or its installation key belongs to another user. */
  lemma {:induction false} FailureChangesNothing(form: Form, t: Tables, c: Call)
    ensures Execute(form, t, c).1.Failure? ==> Execute(form, t, c).0 == t
    ensures c.Register? ==>
              var i := ByKey(t.installations, c.key.instance, c.request.installationKey);
              (RegisterOn(form, t, c).1 == Failure(Conflict) <==>
               KeyIsTaken(t, c)
               || (i < |t.installations| && t.installations[i].user != c.key.user
                   && (c.key in t.replays ==> Expired(c.key, t.replays[c.key], c.key.instance, c.now))))
  {
  }

  // ---- What a call leaves ---------------------------------------------------------------

  /** A replay row that a registration keeps: of another instance, or at most a day old. */
  predicate IsKept(t: Tables, c: Call, k: ReplayKey)
    requires c.Register?
  {
    k in t.replays && (k.instance != c.key.instance || t.replays[k].createdAt + 86_400 >= c.now)
  }

  predicate HasKey(row: Installation, c: Call)
    requires c.Register?
  {
    row.instance == c.key.instance && row.installationKey == c.request.installationKey
  }

  predicate NoneHasKey(rows: seq<Installation>, c: Call)
    requires c.Register?
  {
    forall i | 0 <= i < |rows| :: !HasKey(rows[i], c)
  }

  /** A replay answers the recorded installation; what is kept of the replay rows is all that changes. */
  ghost predicate Replayed(t: Tables, c: Call, n: Tables, row: Installation)
    requires c.Register?
  {
    && IsKept(t, c, c.key) && t.replays[c.key].hash == c.hash && row.id == t.replays[c.key].installation
    && row in t.installations && n.installations == t.installations
    && (forall k :: k in n.replays <==> IsKept(t, c, k)) && (forall k | k in n.replays :: n.replays[k] == t.replays[k])
  }

  /** A new request gets a row seen now and showing what it says, and its replay row is the only new one. */
  ghost predicate Answered(form: Form, t: Tables, c: Call, n: Tables, row: Installation)
    requires c.Register?
  {
    && !IsKept(t, c, c.key)
    && row.profile == form(c.request) && row.lastSeenAt == c.now && row.updatedAt == c.now
    && row.user == c.key.user && HasKey(row, c)
    && c.key in n.replays && n.replays[c.key] == Replay(c.hash, row.id, c.now)
    && (forall k | k != c.key :: k in n.replays <==> IsKept(t, c, k))
    && (forall k | k in n.replays && k != c.key :: n.replays[k] == t.replays[k])
  }

  /** One row is the answer and every other is as it was: an old row keeps what it was created with, a new one
      comes last with the new id. */
  predicate RowAnswered(t: Tables, c: Call, n: Tables, row: Installation, i: nat)
    requires c.Register?
  {
    i < |n.installations| && n.installations[i] == row &&
    if i < |t.installations| then
      && |n.installations| == |t.installations|
      && (forall j | 0 <= j < |t.installations| && j != i :: n.installations[j] == t.installations[j])
      && HasKey(t.installations[i], c) && t.installations[i].user == c.key.user && row.id == t.installations[i].id
      && row.connectedAt == t.installations[i].connectedAt && row.createdAt == t.installations[i].createdAt
    else
      && NoneHasKey(t.installations, c) && n.installations == t.installations + [row]
      && row.id == c.freshId && row.connectedAt == c.now && row.createdAt == c.now
  }

  /** Every way a registration can end. */
  lemma {:induction false} RegistrationMeaning(form: Form, t: Tables, c: Call) returns (i: nat)
    requires c.Register?
    ensures var (n, answer) := RegisterOn(form, t, c);
            match answer
            case Success(row) =>
              Replayed(t, c, n, row) || (Answered(form, t, c, n, row) && RowAnswered(t, c, n, row, i))
            case Failure(Conflict) =>
              if IsKept(t, c, c.key) then t.replays[c.key].hash != c.hash
              else i < |t.installations| && HasKey(t.installations[i], c) && t.installations[i].user != c.key.user
            case Failure(Database) =>
              if IsKept(t, c, c.key) then
                forall j | 0 <= j < |t.installations| :: t.installations[j].id != t.replays[c.key].installation
              else
                NoneHasKey(t.installations, c) && i < |t.installations| && t.installations[i].id == c.freshId
            case Failure(NotFound) => false
  {
    var known := ByKey(t.installations, c.key.instance, c.request.installationKey);
    i := if !IsKept(t, c, c.key) && known == |t.installations| then ById(t.installations, c.freshId) else known;
  }

  /** A heartbeat moves when its installation was last seen, and nothing else of anything. It finds nothing exactly when
      the first row with the id is not the user's, or there is none. */
  lemma {:induction false} HeartbeatMeaning(t: Tables, c: Call) returns (i: nat)
    requires c.Heartbeat?
    ensures i <= |t.installations| && forall j | 0 <= j < i :: t.installations[j].id != c.installation
    ensures i < |t.installations| ==> t.installations[i].id == c.installation
    ensures var (n, answer) := HeartbeatOn(t, c);
            if i < |t.installations| && t.installations[i].instance == c.instance
              && t.installations[i].user == c.user then
              && n.replays == t.replays && |n.installations| == |t.installations|
              && (forall j | 0 <= j < |t.installations| && j != i :: n.installations[j] == t.installations[j])
              && n.installations[i] == t.installations[i].(lastSeenAt := c.now, updatedAt := c.now)
              && answer == Success(n.installations[i])
            else n == t && answer == Failure(NotFound)
  {
    i := ById(t.installations, c.installation);
  }

  /** The text is stored without the white space around it, and the platform as it is. */
  lemma {:induction false} StoredText(r: Request) returns (before: string, after: string, left: string, right: string)
    ensures r.displayName == before + Trimmed(r).displayName + after && All(IsWhitespace, before + after)
    ensures r.version == left + Trimmed(r).version + right && All(IsWhitespace, left + right)
    ensures IsCore(IsWhitespace, Trimmed(r).displayName) && IsCore(IsWhitespace, Trimmed(r).version)
    ensures Trimmed(r).platform == r.platform
  {
    var name, version;
    before, name, after := StripParts(IsWhitespace, r.displayName);
    left, version, right := StripParts(IsWhitespace, r.version);
  }

  // ---- The repository object ------------------------------------------------------------

  class ClientInstallationRepo {
    var tables: Tables
    const form: Form

    constructor (start: Tables)
      ensures tables == start && form == Trimmed
    {
      tables := start;
      form := Trimmed;
    }

    /** One transaction: works on a copy that replaces the tables only on commit. */
    method RegisterClient(c: Call) returns (r: Answer)
      requires c.Register?
      modifies this
      ensures (tables, r) == RegisterOn(form, old(tables), c)
    {
      var rows, replays := tables.installations, Purge(tables.replays, c.key.instance, c.now);
      if c.key in replays {
        if replays[c.key].hash != c.hash {
          return Failure(Conflict);
        }
        var i := ById(rows, replays[c.key].installation);
        if i == |rows| {
          return Failure(Database);
        }
        tables := Tables(rows, replays);
        return Success(rows[i]);
      }
      var row: Installation;
      var i := ByKey(rows, c.key.instance, c.request.installationKey);
      if i < |rows| {
        if rows[i].user != c.key.user {
          return Failure(Conflict);
        }
        row := Refreshed(form, rows[i], c.request, c.now);
        rows := rows[i := row];
      } else {
        if ById(rows, c.freshId) < |rows| {
          return Failure(Database);
        }
        row := Created(form, c);
        rows := rows + [row];
      }
      replays := replays[c.key := Replay(c.hash, row.id, c.now)];
      tables := Tables(rows, replays);
      r := Success(row);
    }

    method RecordHeartbeat(c: Call) returns (r: Answer)
      requires c.Heartbeat?
      modifies this
      ensures (tables, r) == HeartbeatOn(old(tables), c)
    {
      var i := ById(tables.installations, c.installation);
      if i == |tables.installations| || tables.installations[i].instance != c.instance
        || tables.installations[i].user != c.user {
        return Failure(NotFound);
      }
      var row := tables.installations[i].(lastSeenAt := c.now, updatedAt := c.now);
      tables := tables.(installations := tables.installations[i := row]);
      r := Success(row);
    }
  }
}
