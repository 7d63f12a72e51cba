/** The realtime connection hub as a state machine: any number of clients connect, fail, count
    their owner and drop while an operator reloads the configuration and observers read the
    active connections. Each acquire, increment, decrement, release and half of an update is one
    atomic step; a run is any sequence of enabled steps. */
module Hub {
  import opened Machine
  import opened Wrappers

  type Id = nat

  datatype RealtimeConfig = RealtimeConfig(
    maxConnections: nat,
    maxConnectionsPerSecret: nat,
    maxConcurrentHandshakes: nat,
    broadcastCapacity: nat,
    heartbeatSeconds: nat)

  /** Where a client stands between asking for a connection and giving everything back. A client
      that is not listed holds nothing. */
  datatype Phase =
    | HasGlobal(secret: Id, owner: Id)
    | HasCell(secret: Id, owner: Id)
    | Refused
    | HasBoth(secret: Id, owner: Id)
    | Connected(secret: Id, owner: Id)
    | Uncounted(secret: Id)
    | SecretOnly(secret: Id)

  /** `available` permits of the two semaphore layers, the owner map and the locked configuration.
      `born` records the capacity each secret's semaphore was created with; `updating` is the
      configuration an update has added permits for but not stored yet; `readers` maps each
      observer under the read lock to the maximum it has read. */
  datatype State = State(
    config: RealtimeConfig,
    globalAvailable: nat,
    secretAvailable: map<Id, nat>,
    born: map<Id, nat>,
    owners: map<Id, nat>,
    updating: Option<RealtimeConfig>,
    readers: map<Id, nat>,
    clients: map<Id, Phase>)

  datatype Action =
    | AcquireGlobal(client: Id, secret: Id, owner: Id)
    | EnsureSecret(client: Id)
    | AcquireSecret(client: Id)
    | ReleaseRefused(client: Id)
    | CountOwner(client: Id)
    | DropCount(client: Id)
    | DropGlobal(client: Id)
    | DropSecret(client: Id)
    | BeginUpdate(next: RealtimeConfig)
    | FinishUpdate
    | BeginObserve(reader: Id)
    | EndObserve(reader: Id)

  function New(config: RealtimeConfig): State {
    State(config, config.maxConnections, map[], map[], map[], None, map[], map[])
  }

  // ---- Steps ----------------------------------------------------------------------------

  function CountOf(owners: map<Id, nat>, owner: Id): nat {
    if owner in owners then owners[owner] else 0
  }

  function Increment(owners: map<Id, nat>, owner: Id): map<Id, nat> {
    owners[owner := CountOf(owners, owner) + 1]
  }

  function Decrement(owners: map<Id, nat>, owner: Id): map<Id, nat> {
    if owner !in owners then owners
    else if owners[owner] <= 1 then owners - {owner}
    else owners[owner := owners[owner] - 1]
  }

  function Raise(config: RealtimeConfig, next: RealtimeConfig): nat {
    if next.maxConnections > config.maxConnections then next.maxConnections - config.maxConnections else 0
  }

  /** One atomic step; `None` when the step is not enabled (or waits for the lock). */
  function Apply(h: State, a: Action): Option<State> {
    match a
    case AcquireGlobal(c, secret, owner) =>
      if c in h.clients then None
      else if h.globalAvailable == 0 then Some(h)
      else Some(h.(globalAvailable := h.globalAvailable - 1, clients := h.clients[c := HasGlobal(secret, owner)]))
    case EnsureSecret(c) =>
      if c !in h.clients || !h.clients[c].HasGlobal? then None
      else
        var (secret, owner) := (h.clients[c].secret, h.clients[c].owner);
        if secret in h.secretAvailable then Some(h.(clients := h.clients[c := HasCell(secret, owner)]))
        else if h.updating.Some? then None
        else Some(h.(secretAvailable := h.secretAvailable[secret := h.config.maxConnectionsPerSecret],
                     born := h.born[secret := h.config.maxConnectionsPerSecret],
                     clients := h.clients[c := HasCell(secret, owner)]))
    case AcquireSecret(c) =>
      if c !in h.clients || !h.clients[c].HasCell? || h.clients[c].secret !in h.secretAvailable then None
      else
        var (secret, owner) := (h.clients[c].secret, h.clients[c].owner);
        if h.secretAvailable[secret] == 0 then Some(h.(clients := h.clients[c := Refused]))
        else Some(h.(secretAvailable := h.secretAvailable[secret := h.secretAvailable[secret] - 1],
                     clients := h.clients[c := HasBoth(secret, owner)]))
    case ReleaseRefused(c) =>
      if c !in h.clients || !h.clients[c].Refused? then None
      else Some(h.(globalAvailable := h.globalAvailable + 1, clients := h.clients - {c}))
    case CountOwner(c) =>
      if c !in h.clients || !h.clients[c].HasBoth? then None
      else Some(h.(owners := Increment(h.owners, h.clients[c].owner),
                   clients := h.clients[c := Connected(h.clients[c].secret, h.clients[c].owner)]))
    case DropCount(c) =>
      if c !in h.clients || !h.clients[c].Connected? then None
      else Some(h.(owners := Decrement(h.owners, h.clients[c].owner),
                   clients := h.clients[c := Uncounted(h.clients[c].secret)]))
    case DropGlobal(c) =>
      if c !in h.clients || !h.clients[c].Uncounted? then None
      else Some(h.(globalAvailable := h.globalAvailable + 1,
                   clients := h.clients[c := SecretOnly(h.clients[c].secret)]))
    case DropSecret(c) =>
      if c !in h.clients || !h.clients[c].SecretOnly? || h.clients[c].secret !in h.secretAvailable then None
      else
        var secret := h.clients[c].secret;
        Some(h.(secretAvailable := h.secretAvailable[secret := h.secretAvailable[secret] + 1],
                clients := h.clients - {c}))
    case BeginUpdate(next) =>
      if h.updating.Some? || h.readers != map[] then None
      else Some(h.(globalAvailable := h.globalAvailable + Raise(h.config, next), updating := Some(next)))
    case FinishUpdate =>
      if h.updating.None? then None
      else
        var next := h.updating.value;
        Some(h.(config := h.config.(maxConnections := h.config.maxConnections + Raise(h.config, next),
                                    maxConnectionsPerSecret := next.maxConnectionsPerSecret,
                                    heartbeatSeconds := next.heartbeatSeconds),
                updating := None))
    case BeginObserve(reader) =>
      if h.updating.Some? || reader in h.readers then None
      else Some(h.(readers := h.readers[reader := h.config.maxConnections]))
    case EndObserve(reader) =>
      if reader !in h.readers then None else Some(h.(readers := h.readers - {reader}))
  }

  function Execute(h: State, actions: seq<Action>): Option<State> {
    Run(Apply, h, actions)
  }

  // ---- Counting clients -----------------------------------------------------------------

  predicate HoldsGlobal(p: Phase) {
    !p.SecretOnly?
  }

  function HoldsSecret(secret: Id): Phase -> bool {
    (p: Phase) => (p.HasBoth? || p.Connected? || p.Uncounted? || p.SecretOnly?) && p.secret == secret
  }

  function CountedFor(owner: Id): Phase -> bool {
    (p: Phase) => p.Connected? && p.owner == owner
  }

  function Those(clients: map<Id, Phase>, p: Phase -> bool): set<Id> {
    set c | c in clients && p(clients[c])
  }

  function Number(clients: map<Id, Phase>, p: Phase -> bool): nat {
    |Those(clients, p)|
  }

  function One(b: bool): nat {
    if b then 1 else 0
  }

  lemma {:induction false} NumberWith(clients: map<Id, Phase>, c: Id, phase: Phase, p: Phase -> bool)
    ensures Number(clients[c := phase], p) == Number(clients - {c}, p) + One(p(phase))
  {
    var rest := Those(clients - {c}, p);
    assert Those(clients[c := phase], p) == if p(phase) then rest + {c} else rest;
  }

  lemma {:induction false} NumberWithout(clients: map<Id, Phase>, c: Id, p: Phase -> bool)
    requires c in clients
    ensures Number(clients, p) == Number(clients - {c}, p) + One(p(clients[c]))
  {
    NumberWith(clients, c, clients[c], p);
    assert clients[c := clients[c]] == clients;
  }

  // ---- What every step keeps ------------------------------------------------------------

  function PendingRaise(h: State): nat {
    if h.updating.Some? then Raise(h.config, h.updating.value) else 0
  }

  predicate GlobalBalanced(h: State) {
    h.globalAvailable + Number(h.clients, HoldsGlobal) == h.config.maxConnections + PendingRaise(h)
  }

  predicate SecretBalanced(h: State, secret: Id)
    requires secret in h.secretAvailable && secret in h.born
  {
    h.secretAvailable[secret] + Number(h.clients, HoldsSecret(secret)) == h.born[secret]
  }

  predicate SecretsBalanced(h: State) {
    && h.secretAvailable.Keys == h.born.Keys
    && forall secret | secret in h.born :: SecretBalanced(h, secret)
  }

  /** A client past the lookup refers to a semaphore that exists. */
  predicate CellsExist(h: State) {
    forall c | c in h.clients && !h.clients[c].HasGlobal? && !h.clients[c].Refused? :: h.clients[c].secret in h.born
  }

  predicate OwnerCounted(h: State, owner: Id) {
    CountOf(h.owners, owner) == Number(h.clients, CountedFor(owner))
  }

  /** The owner map holds exactly the connected clients of each owner and no zero entry. */
  ghost predicate OwnersCounted(h: State) {
    && (forall owner :: OwnerCounted(h, owner))
    && (forall owner | owner in h.owners :: h.owners[owner] > 0)
  }

  /** The read lock keeps writers out, so what an observer read is still the stored maximum. */
  predicate ReadersCurrent(h: State) {
    && (h.readers != map[] ==> h.updating.None?)
    && forall r | r in h.readers :: h.readers[r] == h.config.maxConnections
  }

  ghost predicate Safe(h: State) {
    GlobalBalanced(h) && SecretsBalanced(h) && CellsExist(h) && OwnersCounted(h) && ReadersCurrent(h)
  }

  lemma {:induction false} NewIsSafe(config: RealtimeConfig)
    ensures Safe(New(config))
  {
    var h := New(config);
    assert Those(h.clients, HoldsGlobal) == {};
    forall owner
      ensures OwnerCounted(h, owner)
    {
      assert Those(h.clients, CountedFor(owner)) == {};
    }
  }

  /** The one client a step can move; an arbitrary one for the steps that move none. */
  function Mover(a: Action): Id {
    match a
    case AcquireGlobal(c, _, _) => c
    case EnsureSecret(c) => c
    case AcquireSecret(c) => c
    case ReleaseRefused(c) => c
    case CountOwner(c) => c
    case DropCount(c) => c
    case DropGlobal(c) => c
    case DropSecret(c) => c
    case _ => 0
  }

  predicate OnlyMoves(before: map<Id, Phase>, after: map<Id, Phase>, c: Id) {
    after == before || after == before - {c} || (c in after && after == before[c := after[c]])
  }

  lemma {:induction false} OneClientMoves(h: State, a: Action)
    requires Apply(h, a).Some?
    ensures OnlyMoves(h.clients, Apply(h, a).value.clients, Mover(a))
  {
  }

  predicate InPhase(clients: map<Id, Phase>, c: Id, p: Phase -> bool) {
    c in clients && p(clients[c])
  }

  /** How the number of clients in a kind of phase changes when one client moves. */
  lemma {:induction false} NumberMoves(before: map<Id, Phase>, after: map<Id, Phase>, c: Id, p: Phase -> bool)
    requires OnlyMoves(before, after, c)
    ensures Number(after, p) + One(InPhase(before, c, p)) == Number(before, p) + One(InPhase(after, c, p))
  {
    if c in before {
      NumberWithout(before, c, p);
    } else {
      assert before - {c} == before;
    }
    if c in after && after != before {
      NumberWith(before, c, after[c], p);
    }
  }

  lemma {:induction false} GlobalLedger(h: State, a: Action)
    requires Apply(h, a).Some?
    ensures var n := Apply(h, a).value;
            n.globalAvailable + One(InPhase(n.clients, Mover(a), HoldsGlobal)) + h.config.maxConnections
              + PendingRaise(h)
            == h.globalAvailable + One(InPhase(h.clients, Mover(a), HoldsGlobal)) + n.config.maxConnections
              + PendingRaise(n)
  {
  }

  lemma {:induction false} StepKeepsGlobal(h: State, a: Action)
    requires GlobalBalanced(h) && Apply(h, a).Some?
    ensures GlobalBalanced(Apply(h, a).value)
  {
    OneClientMoves(h, a);
    GlobalLedger(h, a);
    NumberMoves(h.clients, Apply(h, a).value.clients, Mover(a), HoldsGlobal);
  }

  /** A step changes a secret's permits by exactly what its client starts or stops holding; a
      secret's semaphore appears full and its capacity never changes. */
  predicate SecretMoved(h: State, n: State, c: Id, secret: Id)
    requires secret in n.born && secret in n.secretAvailable && (secret in h.born ==> secret in h.secretAvailable)
  {
    if secret in h.born then
      && n.born[secret] == h.born[secret]
      && n.secretAvailable[secret] + One(InPhase(n.clients, c, HoldsSecret(secret)))
         == h.secretAvailable[secret] + One(InPhase(h.clients, c, HoldsSecret(secret)))
    else n.secretAvailable[secret] == n.born[secret] && !InPhase(n.clients, c, HoldsSecret(secret))
  }

  lemma {:induction false} KeysMoved(h: State, a: Action)
    requires Apply(h, a).Some? && h.secretAvailable.Keys == h.born.Keys
    ensures Apply(h, a).value.secretAvailable.Keys == Apply(h, a).value.born.Keys
    ensures h.born.Keys <= Apply(h, a).value.born.Keys
  {
  }

  lemma {:induction false} SecretLedger(h: State, a: Action, secret: Id)
    requires Apply(h, a).Some? && h.secretAvailable.Keys == h.born.Keys && CellsExist(h)
    requires secret in Apply(h, a).value.born && secret in Apply(h, a).value.secretAvailable
    ensures SecretMoved(h, Apply(h, a).value, Mover(a), secret)
  {
  }

  lemma {:induction false} SecretStaysBalanced(h: State, n: State, c: Id, secret: Id)
    requires secret in n.born && secret in n.secretAvailable && OnlyMoves(h.clients, n.clients, c)
    requires SecretsBalanced(h) && CellsExist(h) && SecretMoved(h, n, c, secret)
    ensures SecretBalanced(n, secret)
  {
    NumberMoves(h.clients, n.clients, c, HoldsSecret(secret));
    if secret in h.born {
      assert SecretBalanced(h, secret);
    } else {
      assert Those(h.clients, HoldsSecret(secret)) == {};
    }
  }

  lemma {:induction false} StepKeepsSecrets(h: State, a: Action)
    requires SecretsBalanced(h) && CellsExist(h) && Apply(h, a).Some?
    ensures SecretsBalanced(Apply(h, a).value)
  {
    OneClientMoves(h, a);
    KeysMoved(h, a);
    var n := Apply(h, a).value;
    forall secret | secret in n.born
      ensures SecretBalanced(n, secret)
    {
      SecretLedger(h, a, secret);
      SecretStaysBalanced(h, n, Mover(a), secret);
    }
  }

  lemma {:induction false} StepKeepsCells(h: State, a: Action)
    requires h.secretAvailable.Keys == h.born.Keys && CellsExist(h) && Apply(h, a).Some?
    ensures CellsExist(Apply(h, a).value)
  {
  }

  lemma {:induction false} OwnerLedger(h: State, a: Action, owner: Id)
    requires Apply(h, a).Some?
    requires a.DropCount? ==> CountOf(h.owners, h.clients[a.client].owner) > 0
    ensures var n := Apply(h, a).value;
            CountOf(n.owners, owner) + One(InPhase(h.clients, Mover(a), CountedFor(owner)))
            == CountOf(h.owners, owner) + One(InPhase(n.clients, Mover(a), CountedFor(owner)))
  {
  }

  lemma {:induction false} NoZeroEntries(h: State, a: Action)
    requires Apply(h, a).Some? && forall owner | owner in h.owners :: h.owners[owner] > 0
    ensures forall owner | owner in Apply(h, a).value.owners :: Apply(h, a).value.owners[owner] > 0
  {
  }

  /** A connected client is one of the counted, so its owner's entry is there to decrement. */
  lemma {:induction false} ConnectedIsCounted(h: State, c: Id)
    requires OwnersCounted(h) && c in h.clients && h.clients[c].Connected?
    ensures CountOf(h.owners, h.clients[c].owner) > 0
  {
    var owner := h.clients[c].owner;
    assert OwnerCounted(h, owner);
    assert c in Those(h.clients, CountedFor(owner));
  }

  lemma {:induction false} StepKeepsOwners(h: State, a: Action)
    requires OwnersCounted(h) && Apply(h, a).Some?
    ensures OwnersCounted(Apply(h, a).value)
  {
    var n := Apply(h, a).value;
    if a.DropCount? {
      ConnectedIsCounted(h, a.client);
    }
    OneClientMoves(h, a);
    NoZeroEntries(h, a);
    forall owner
      ensures OwnerCounted(n, owner)
    {
      assert OwnerCounted(h, owner);
      OwnerLedger(h, a, owner);
      NumberMoves(h.clients, n.clients, Mover(a), CountedFor(owner));
    }
  }

  lemma {:induction false} StepKeepsReaders(h: State, a: Action)
    requires ReadersCurrent(h) && Apply(h, a).Some?
    ensures ReadersCurrent(Apply(h, a).value)
  {
  }

  lemma {:induction false} StepIsSafe(h: State, a: Action)
    requires Safe(h) && Apply(h, a).Some?
    ensures Safe(Apply(h, a).value)
  {
    StepKeepsGlobal(h, a);
    StepKeepsSecrets(h, a);
    StepKeepsCells(h, a);
    StepKeepsOwners(h, a);
    StepKeepsReaders(h, a);
  }

  // ---- Whole runs -----------------------------------------------------------------------

  /** The largest maximum the hub was ever given. */
  function HighWater(start: nat, actions: seq<Action>): nat
    decreases |actions|
  {
    if actions == [] then start
    else
      HighWater(if actions[0].BeginUpdate? && actions[0].next.maxConnections > start
                then actions[0].next.maxConnections else start, actions[1..])
  }

  function Target(h: State): nat {
    h.config.maxConnections + PendingRaise(h)
  }

  lemma {:induction false} StepTarget(h: State, a: Action)
    requires Apply(h, a).Some?
    ensures Target(Apply(h, a).value) ==
            if a.BeginUpdate? && a.next.maxConnections > Target(h) then a.next.maxConnections else Target(h)
  {
  }

  /** Every run from every safe state stays safe, and the global cap only ever follows the largest
      maximum asked for: lowering it is ignored. */
  lemma {:induction false} RunIsSafe(h: State, actions: seq<Action>)
    requires Safe(h) && Execute(h, actions).Some?
    ensures Safe(Execute(h, actions).value)
    ensures Target(Execute(h, actions).value) == HighWater(Target(h), actions)
    decreases |actions|
  {
    if actions != [] {
      StepIsSafe(h, actions[0]);
      StepTarget(h, actions[0]);
      RunIsSafe(Apply(h, actions[0]).value, actions[1..]);
    }
  }

  /** What a run of a new hub guarantees at its end, in the terms of its callers: permits out plus
      permits available make up the cap, no secret has more live connections than its semaphore
      was created for, the owner map lists each owner's connections with no empty entry, and an
      observer's subtraction never underflows and is the number of clients holding a permit. */
  lemma {:induction false} EveryRun(config: RealtimeConfig, actions: seq<Action>)
    requires Execute(New(config), actions).Some?
    ensures var h := Execute(New(config), actions).value;
            && h.globalAvailable + Number(h.clients, HoldsGlobal) == HighWater(config.maxConnections, actions)
            && h.secretAvailable.Keys == h.born.Keys
            && (forall secret | secret in h.born ::
                  h.secretAvailable[secret] + Number(h.clients, HoldsSecret(secret)) == h.born[secret])
            && (forall owner | owner in h.owners :: h.owners[owner] > 0)
            && (forall owner :: CountOf(h.owners, owner) == Number(h.clients, CountedFor(owner)))
            && (forall r | r in h.readers ::
                  h.readers[r] >= h.globalAvailable
                    && h.readers[r] - h.globalAvailable == Number(h.clients, HoldsGlobal))
  {
    var h := Execute(New(config), actions).value;
    NewIsSafe(config);
    RunIsSafe(New(config), actions);
    assert forall secret | secret in h.born :: SecretBalanced(h, secret);
    forall owner
      ensures CountOf(h.owners, owner) == Number(h.clients, CountedFor(owner))
    {
      assert OwnerCounted(h, owner);
    }
    assert h.readers != map[] ==> PendingRaise(h) == 0;
  }

  lemma {:induction false} StepKeepsCapacity(h: State, a: Action, secret: Id)
    requires Apply(h, a).Some? && secret in h.born && h.secretAvailable.Keys == h.born.Keys
    ensures secret in Apply(h, a).value.born && Apply(h, a).value.born[secret] == h.born[secret]
  {
  }

  /** Once a secret's semaphore exists its capacity is fixed, whatever updates follow. */
  lemma {:induction false} CapacityIsFixed(h: State, actions: seq<Action>, secret: Id)
    requires Safe(h) && secret in h.born && Execute(h, actions).Some?
    ensures var n := Execute(h, actions).value;
            secret in n.born && n.born[secret] == h.born[secret]
              && Number(n.clients, HoldsSecret(secret)) <= h.born[secret]
    decreases |actions|
  {
    RunIsSafe(h, actions);
    if actions == [] {
      assert SecretBalanced(h, secret);
    } else {
      StepIsSafe(h, actions[0]);
      StepKeepsCapacity(h, actions[0], secret);
      CapacityIsFixed(Apply(h, actions[0]).value, actions[1..], secret);
    }
  }

  /** The live connections of a secret that a client asking for one more finds. */
  function Live(h: State, secret: Id): nat {
    Number(h.clients, HoldsSecret(secret))
  }

  /** A client is refused exactly when its secret is at the capacity it was created with. */
  lemma {:induction false} RefusedExactly(h: State, c: Id)
    requires Safe(h) && c in h.clients && h.clients[c].HasCell?
    ensures var secret := h.clients[c].secret;
            && secret in h.born
            && Apply(h, AcquireSecret(c)).Some?
            && var refused := Apply(h, AcquireSecret(c)).value.clients[c].Refused?;
               && (refused <==> Live(h, secret) == h.born[secret])
               && (!refused ==> Apply(h, AcquireSecret(c)).value.clients[c] == HasBoth(secret, h.clients[c].owner))
  {
    assert SecretBalanced(h, h.clients[c].secret);
  }

  // ---- A connection attempt, start to end -----------------------------------------------

  function Connect(c: Id, secret: Id, owner: Id): seq<Action> {
    [AcquireGlobal(c, secret, owner), EnsureSecret(c), AcquireSecret(c), CountOwner(c)]
  }

  function Refusal(c: Id, secret: Id, owner: Id): seq<Action> {
    [AcquireGlobal(c, secret, owner), EnsureSecret(c), AcquireSecret(c), ReleaseRefused(c)]
  }

  /** The capacity a secret's next connection is measured against. */
  function CapacityFor(h: State, secret: Id): nat {
    if secret in h.born then h.born[secret] else h.config.maxConnectionsPerSecret
  }

  function AvailableFor(h: State, secret: Id): nat {
    if secret in h.secretAvailable then h.secretAvailable[secret] else h.config.maxConnectionsPerSecret
  }

  function BornWith(h: State, secret: Id): map<Id, nat> {
    if secret in h.secretAvailable then h.born else h.born[secret := h.config.maxConnectionsPerSecret]
  }

  function AfterConnect(h: State, c: Id, secret: Id, owner: Id): State
    requires h.globalAvailable > 0 && AvailableFor(h, secret) > 0
  {
    h.(globalAvailable := h.globalAvailable - 1,
       secretAvailable := h.secretAvailable[secret := AvailableFor(h, secret) - 1],
       born := BornWith(h, secret),
       owners := Increment(h.owners, owner),
       clients := h.clients[c := Connected(secret, owner)])
  }

  function AfterRefusal(h: State, secret: Id): State {
    h.(secretAvailable := h.secretAvailable[secret := 0], born := BornWith(h, secret))
  }

  function AfterUpdate(h: State, next: RealtimeConfig): State {
    h.(globalAvailable := h.globalAvailable + Raise(h.config, next),
       config := h.config.(maxConnections := h.config.maxConnections + Raise(h.config, next),
                           maxConnectionsPerSecret := next.maxConnectionsPerSecret,
                           heartbeatSeconds := next.heartbeatSeconds))
  }

  function AfterDrop(h: State, c: Id, secret: Id, owner: Id): State
    requires secret in h.secretAvailable
  {
    h.(globalAvailable := h.globalAvailable + 1,
       secretAvailable := h.secretAvailable[secret := h.secretAvailable[secret] + 1],
       owners := Decrement(h.owners, owner),
       clients := h.clients - {c})
  }

  /** After the global permit and the lookup. */
  function AfterLookup(h: State, c: Id, secret: Id, owner: Id): State
    requires h.globalAvailable > 0
  {
    h.(globalAvailable := h.globalAvailable - 1,
       secretAvailable := h.secretAvailable[secret := AvailableFor(h, secret)],
       born := BornWith(h, secret),
       clients := h.clients[c := HasCell(secret, owner)])
  }

  lemma {:induction false} LookupSteps(h: State, c: Id, secret: Id, owner: Id) returns (h1: State)
    requires c !in h.clients && h.updating.None? && h.globalAvailable > 0
    ensures Apply(h, AcquireGlobal(c, secret, owner)) == Some(h1)
    ensures Apply(h1, EnsureSecret(c)) == Some(AfterLookup(h, c, secret, owner))
  {
    h1 := h.(globalAvailable := h.globalAvailable - 1, clients := h.clients[c := HasGlobal(secret, owner)]);
    assert h1.clients[c := HasCell(secret, owner)] == h.clients[c := HasCell(secret, owner)];
    if secret in h.secretAvailable {
      assert h.secretAvailable[secret := h.secretAvailable[secret]] == h.secretAvailable;
    }
  }

  lemma {:induction false} AcquireStep(h: State, c: Id) returns (n: State)
    requires c in h.clients && h.clients[c].HasCell? && h.clients[c].secret in h.secretAvailable
    requires h.secretAvailable[h.clients[c].secret] > 0
    ensures var (secret, owner) := (h.clients[c].secret, h.clients[c].owner);
            n == h.(secretAvailable := h.secretAvailable[secret := h.secretAvailable[secret] - 1],
                    clients := h.clients[c := HasBoth(secret, owner)])
    ensures Apply(h, AcquireSecret(c)) == Some(n)
  {
    var (secret, owner) := (h.clients[c].secret, h.clients[c].owner);
    n := h.(secretAvailable := h.secretAvailable[secret := h.secretAvailable[secret] - 1],
            clients := h.clients[c := HasBoth(secret, owner)]);
  }

  lemma {:induction false} CountStep(h: State, h2: State, h3: State, c: Id, secret: Id, owner: Id)
    requires h.globalAvailable > 0 && AvailableFor(h, secret) > 0 && h2 == AfterLookup(h, c, secret, owner)
    requires h3 == h2.(secretAvailable := h2.secretAvailable[secret := h2.secretAvailable[secret] - 1],
                       clients := h2.clients[c := HasBoth(secret, owner)])
    ensures Apply(h3, CountOwner(c)) == Some(AfterConnect(h, c, secret, owner))
  {
    var h4 := AfterConnect(h, c, secret, owner);
    assert h3.clients[c := Connected(secret, owner)] == h4.clients;
    assert h3.secretAvailable == h4.secretAvailable;
  }

  lemma {:induction false} ConnectRuns(h: State, c: Id, secret: Id, owner: Id)
    requires c !in h.clients && h.updating.None? && h.globalAvailable > 0 && AvailableFor(h, secret) > 0
    ensures Execute(h, Connect(c, secret, owner)) == Some(AfterConnect(h, c, secret, owner))
  {
    var h1 := LookupSteps(h, c, secret, owner);
    var h2 := AfterLookup(h, c, secret, owner);
    var h4 := AfterConnect(h, c, secret, owner);
    var h3 := AcquireStep(h2, c);
    CountStep(h, h2, h3, c, secret, owner);
    RunFour(Apply, h, AcquireGlobal(c, secret, owner), EnsureSecret(c), AcquireSecret(c), CountOwner(c), h1, h2, h3,
            h4);
  }

  lemma {:induction false} RefusalRuns(h: State, c: Id, secret: Id, owner: Id)
    requires c !in h.clients && h.updating.None? && h.globalAvailable > 0 && AvailableFor(h, secret) == 0
    ensures Execute(h, Refusal(c, secret, owner)) == Some(AfterRefusal(h, secret))
  {
    var h1 := LookupSteps(h, c, secret, owner);
    var h2 := AfterLookup(h, c, secret, owner);
    var h3 := h2.(clients := h.clients[c := Refused]);
    assert Apply(h2, AcquireSecret(c)) == Some(h3) by {
      assert h2.clients[c := Refused] == h3.clients;
    }
    assert Apply(h3, ReleaseRefused(c)) == Some(AfterRefusal(h, secret)) by {
      assert h3.clients - {c} == h.clients;
    }
    RunFour(Apply, h, AcquireGlobal(c, secret, owner), EnsureSecret(c), AcquireSecret(c), ReleaseRefused(c),
            h1, h2, h3, AfterRefusal(h, secret));
  }

  function Update(next: RealtimeConfig): seq<Action> {
    [BeginUpdate(next), FinishUpdate]
  }

  lemma {:induction false} UpdateRuns(h: State, next: RealtimeConfig)
    requires h.updating.None? && h.readers == map[]
    ensures Execute(h, Update(next)) == Some(AfterUpdate(h, next))
  {
    var h1 := h.(globalAvailable := h.globalAvailable + Raise(h.config, next), updating := Some(next));
    assert Apply(h, BeginUpdate(next)) == Some(h1);
    assert Apply(h1, FinishUpdate) == Some(AfterUpdate(h, next));
    RunTwo(Apply, h, BeginUpdate(next), FinishUpdate, h1, AfterUpdate(h, next));
  }

  function Leave(c: Id): seq<Action> {
    [DropCount(c), DropGlobal(c), DropSecret(c)]
  }

  lemma {:induction false} DropRuns(h: State, c: Id, secret: Id, owner: Id)
    requires c in h.clients && h.clients[c] == Connected(secret, owner) && secret in h.secretAvailable
    ensures Execute(h, Leave(c)) == Some(AfterDrop(h, c, secret, owner))
  {
    var h3 := AfterDrop(h, c, secret, owner);
    var h1 := h.(owners := h3.owners, clients := h.clients[c := Uncounted(secret)]);
    var h2 := h1.(globalAvailable := h.globalAvailable + 1, clients := h1.clients[c := SecretOnly(secret)]);
    assert Apply(h, DropCount(c)) == Some(h1);
    assert Apply(h1, DropGlobal(c)) == Some(h2);
    assert Apply(h2, DropSecret(c)) == Some(h3) by {
      assert h2.clients - {c} == h3.clients;
    }
    RunThree(Apply, h, DropCount(c), DropGlobal(c), DropSecret(c), h1, h2, h3);
  }

  /** The promise that the per-secret limit affects new connections right away is not kept for a
      secret already seen: after any raise above one, a second connection is still refused. */
  lemma {:induction false} RaisedLimitIsIgnored(config: RealtimeConfig, next: RealtimeConfig, secret: Id, owner: Id)
    requires config.maxConnections >= 2 && config.maxConnectionsPerSecret == 1
    requires next.maxConnectionsPerSecret > 1
    ensures var run := Connect(1, secret, owner) + (Update(next) + Refusal(2, secret, owner));
            && Execute(New(config), run).Some?
            && Live(Execute(New(config), run).value, secret) == 1
            && Execute(New(config), run).value.config.maxConnectionsPerSecret == next.maxConnectionsPerSecret
  {
    var h := New(config);
    ConnectRuns(h, 1, secret, owner);
    var h1 := AfterConnect(h, 1, secret, owner);
    UpdateRuns(h1, next);
    var h2 := AfterUpdate(h1, next);
    RefusalRuns(h2, 2, secret, owner);
    RunAppend(Apply, h1, Update(next), Refusal(2, secret, owner));
    RunAppend(Apply, h, Connect(1, secret, owner), Update(next) + Refusal(2, secret, owner));
    assert Those(h2.clients, HoldsSecret(secret)) == {1};
  }

  // ---- Everything can be given back -----------------------------------------------------

  /** A stretch of a run in which the configuration is left alone. */
  predicate NoUpdates(actions: seq<Action>) {
    forall i | 0 <= i < |actions| :: !actions[i].BeginUpdate? && !actions[i].FinishUpdate?
  }

  function NextStep(p: Phase, c: Id): Action {
    match p
    case HasGlobal(_, _) => EnsureSecret(c)
    case HasCell(_, _) => AcquireSecret(c)
    case Refused => ReleaseRefused(c)
    case HasBoth(_, _) => CountOwner(c)
    case Connected(_, _) => DropCount(c)
    case Uncounted(_) => DropGlobal(c)
    case SecretOnly(_) => DropSecret(c)
  }

  lemma {:induction false} QuietStep(p: Phase, c: Id, rest: seq<Action>)
    requires NoUpdates(rest)
    ensures NoUpdates([NextStep(p, c)] + rest)
  {
  }

  function StepsLeft(p: Phase): nat {
    match p
    case HasGlobal(_, _) => 6
    case HasCell(_, _) => 5
    case HasBoth(_, _) => 4
    case Connected(_, _) => 3
    case Uncounted(_) => 2
    case SecretOnly(_) => 1
    case Refused => 1
  }

  /** With no update half done a client's next step is always enabled, and takes it closer to
      holding nothing without moving any other client. */
  lemma {:induction false} ClientProgresses(h: State, c: Id)
    requires Safe(h) && h.updating.None? && c in h.clients
    ensures var n := Apply(h, NextStep(h.clients[c], c));
            && n.Some?
            && n.value.updating.None? && n.value.config == h.config
            && n.value.clients - {c} == h.clients - {c}
            && (c in n.value.clients ==> StepsLeft(n.value.clients[c]) < StepsLeft(h.clients[c]))
  {
    StepIsEnabled(h, c);
    OneClientMoves(h, NextStep(h.clients[c], c));
    StepGoesForward(h, c);
    MovesLeaveTheRest(h.clients, Apply(h, NextStep(h.clients[c], c)).value.clients, c);
  }

  lemma {:induction false} MovesLeaveTheRest(before: map<Id, Phase>, after: map<Id, Phase>, c: Id)
    requires OnlyMoves(before, after, c)
    ensures after - {c} == before - {c}
  {
  }

  lemma {:induction false} StepIsEnabled(h: State, c: Id)
    requires h.secretAvailable.Keys == h.born.Keys && CellsExist(h) && h.updating.None? && c in h.clients
    ensures Apply(h, NextStep(h.clients[c], c)).Some?
  {
  }

  lemma {:induction false} StepGoesForward(h: State, c: Id)
    requires c in h.clients && Apply(h, NextStep(h.clients[c], c)).Some?
    ensures var n := Apply(h, NextStep(h.clients[c], c)).value;
            && n.updating == h.updating && n.config == h.config
            && (c in n.clients ==> StepsLeft(n.clients[c]) < StepsLeft(h.clients[c]))
  {
  }

  lemma {:induction false} ClientFinishes(h: State, c: Id) returns (actions: seq<Action>)
    requires Safe(h) && h.updating.None? && c in h.clients
    ensures Execute(h, actions).Some?
    ensures var n := Execute(h, actions).value;
            Safe(n) && n.updating.None? && n.config == h.config && n.clients == h.clients - {c}
    ensures NoUpdates(actions)
    decreases StepsLeft(h.clients[c])
  {
    var a := NextStep(h.clients[c], c);
    ClientProgresses(h, c);
    StepIsSafe(h, a);
    var n := Apply(h, a).value;
    if c in n.clients {
      var rest := ClientFinishes(n, c);
      actions := [a] + rest;
      QuietStep(h.clients[c], c, rest);
    } else {
      actions := [a];
      QuietStep(h.clients[c], c, []);
      assert n.clients == n.clients - {c};
    }
    assert actions[0] == a && Execute(h, actions) == Execute(n, actions[1..]);
  }

  /** Once no client holds anything both counts are back at zero and every permit is back. */
  lemma {:induction false} NothingHeldNothingCounted(h: State)
    requires Safe(h) && h.updating.None? && h.clients == map[]
    ensures h.owners == map[] && h.globalAvailable == h.config.maxConnections && h.secretAvailable == h.born
  {
    assert Those(h.clients, HoldsGlobal) == {};
    forall owner
      ensures owner !in h.owners
    {
      assert OwnerCounted(h, owner);
      assert Those(h.clients, CountedFor(owner)) == {};
    }
    forall secret | secret in h.born
      ensures h.secretAvailable[secret] == h.born[secret]
    {
      assert SecretBalanced(h, secret);
      assert Those(h.clients, HoldsSecret(secret)) == {};
    }
  }

  lemma {:induction false} ClientsCanLeave(h: State) returns (actions: seq<Action>)
    requires Safe(h) && h.updating.None?
    ensures Execute(h, actions).Some?
    ensures var n := Execute(h, actions).value;
            && Safe(n) && n.clients == map[] && n.owners == map[] && n.config == h.config && n.updating.None?
            && n.globalAvailable == n.config.maxConnections && n.secretAvailable == n.born
    ensures NoUpdates(actions)
    decreases |h.clients|
  {
    if h.clients == map[] {
      actions := [];
      NothingHeldNothingCounted(h);
    } else {
      var c :| c in h.clients;
      var first := ClientFinishes(h, c);
      var n := Execute(h, first).value;
      assert |n.clients.Keys| < |h.clients.Keys| by {
        assert n.clients.Keys == h.clients.Keys - {c};
      }
      var rest := ClientsCanLeave(n);
      actions := first + rest;
      RunAppend(Apply, h, first, rest);
    }
  }

  lemma {:induction false} UpdateFinishes(h: State)
    requires Safe(h) && h.updating.Some?
    ensures Apply(h, FinishUpdate).Some?
    ensures var n := Apply(h, FinishUpdate).value;
            Safe(n) && n.updating.None? && n.config.maxConnections == Target(h)
  {
    StepIsSafe(h, FinishUpdate);
  }

  /** From every safe state, an update half done included, the update can finish and the clients can
      all run to the end; then both counts are zero and every permit of the raised cap is available. */
  lemma {:induction false} EveryoneCanLeave(h: State) returns (actions: seq<Action>)
    requires Safe(h)
    ensures Execute(h, actions).Some?
    ensures var n := Execute(h, actions).value;
            && n.clients == map[] && n.owners == map[] && n.updating.None?
            && n.globalAvailable == n.config.maxConnections == Target(h) && n.secretAvailable == n.born
            && (h.updating.None? ==> n.config == h.config)
  {
    if h.updating.None? {
      actions := ClientsCanLeave(h);
    } else {
      UpdateFinishes(h);
      var rest := ClientsCanLeave(Apply(h, FinishUpdate).value);
      actions := [FinishUpdate] + rest;
      assert actions[0] == FinishUpdate && actions[1..] == rest;
    }
  }

  // ---- When the current limit decides ---------------------------------------------------

  lemma {:induction false} QuietKeepsConfig(h: State, actions: seq<Action>)
    requires NoUpdates(actions) && Execute(h, actions).Some?
    ensures Execute(h, actions).value.config == h.config
    decreases |actions|
  {
    if actions != [] {
      assert !actions[0].BeginUpdate? && !actions[0].FinishUpdate?;
      QuietKeepsConfig(Apply(h, actions[0]).value, actions[1..]);
    }
  }

  predicate Asks(h: State, c: Id, secret: Id) {
    c in h.clients && h.clients[c].HasCell? && h.clients[c].secret == secret
  }

  /** The client is refused exactly when its secret has as many connections as are allowed now. */
  predicate DecidedByLimit(h: State, c: Id, secret: Id)
    requires Asks(h, c, secret)
  {
    var n := Apply(h, AcquireSecret(c));
    n.Some? && c in n.value.clients && (n.value.clients[c].Refused?
                                        <==> Live(h, secret) >= h.config.maxConnectionsPerSecret)
  }

  /** Whatever its clients do, every later request of the secret is decided by the current limit. */
  ghost predicate LimitIsHonoured(h: State, secret: Id) {
    forall actions, c | NoUpdates(actions) && Execute(h, actions).Some? && Asks(Execute(h, actions).value, c, secret) ::
      DecidedByLimit(Execute(h, actions).value, c, secret)
  }

  /** Clients 0 to `k - 1`, all leaving: the global permit is back, the secret's is not. */
  function Parked(secret: Id, k: nat): map<Id, Phase> {
    if k == 0 then map[] else Parked(secret, k - 1)[k - 1 := SecretOnly(secret)]
  }

  lemma {:induction false} ParkedClients(secret: Id, k: nat)
    ensures forall c | c in Parked(secret, k) :: c < k
    ensures Number(Parked(secret, k), HoldsSecret(secret)) == k
  {
    if k == 0 {
      assert Those(map[], HoldsSecret(secret)) == {};
    } else {
      var fewer := Parked(secret, k - 1);
      ParkedClients(secret, k - 1);
      NumberWith(fewer, k - 1, SecretOnly(secret), HoldsSecret(secret));
      assert fewer - {k - 1} == fewer;
    }
  }

  function AfterParking(h: State, c: Id, secret: Id, owner: Id): State {
    h.(globalAvailable := h.globalAvailable + 1, owners := Decrement(h.owners, owner),
       clients := h.clients[c := SecretOnly(secret)])
  }

  lemma {:induction false} ParkingRuns(h: State, c: Id, secret: Id, owner: Id)
    requires c in h.clients && h.clients[c] == Connected(secret, owner)
    ensures Execute(h, [DropCount(c), DropGlobal(c)]) == Some(AfterParking(h, c, secret, owner))
  {
    var h1 := h.(owners := Decrement(h.owners, owner), clients := h.clients[c := Uncounted(secret)]);
    var h2 := AfterParking(h, c, secret, owner);
    assert Apply(h1, DropGlobal(c)) == Some(h2) by {
      assert h1.clients[c := SecretOnly(secret)] == h2.clients;
    }
    RunTwo(Apply, h, DropCount(c), DropGlobal(c), h1, h2);
  }

  /** One client connects and half leaves, through a single global permit. */
  lemma {:induction false} ParkOne(h: State, secret: Id, k: nat) returns (actions: seq<Action>)
    requires h.clients == Parked(secret, k) && h.updating.None? && secret in h.secretAvailable
    requires h.secretAvailable[secret] > 0 && h.globalAvailable > 0
    ensures NoUpdates(actions) && Execute(h, actions).Some?
    ensures var n := Execute(h, actions).value;
            && n.clients == Parked(secret, k + 1) && n.updating.None? && n.config == h.config
            && secret in n.secretAvailable && n.secretAvailable[secret] == h.secretAvailable[secret] - 1
            && n.globalAvailable == h.globalAvailable
  {
    ParkedClients(secret, k);
    ConnectRuns(h, k, secret, 0);
    var connected := AfterConnect(h, k, secret, 0);
    ParkingRuns(connected, k, secret, 0);
    RunAppend(Apply, h, Connect(k, secret, 0), [DropCount(k), DropGlobal(k)]);
    actions := Connect(k, secret, 0) + [DropCount(k), DropGlobal(k)];
    assert connected.clients[k := SecretOnly(secret)] == h.clients[k := SecretOnly(secret)];
  }

  lemma {:induction false} ParkMany(h: State, secret: Id, k: nat) returns (actions: seq<Action>)
    requires h.clients == map[] && h.updating.None? && secret in h.secretAvailable
    requires k <= h.secretAvailable[secret] && h.globalAvailable > 0
    ensures NoUpdates(actions) && Execute(h, actions).Some?
    ensures var n := Execute(h, actions).value;
            && n.clients == Parked(secret, k) && n.updating.None? && n.config == h.config
            && secret in n.secretAvailable && n.secretAvailable[secret] == h.secretAvailable[secret] - k
            && n.globalAvailable == h.globalAvailable
    decreases k
  {
    if k == 0 {
      actions := [];
    } else {
      var first := ParkMany(h, secret, k - 1);
      var last := ParkOne(Execute(h, first).value, secret, k - 1);
      RunAppend(Apply, h, first, last);
      QuietAppend(first, last);
      actions := first + last;
    }
  }

  lemma {:induction false} QuietAppend(first: seq<Action>, rest: seq<Action>)
    requires NoUpdates(first) && NoUpdates(rest)
    ensures NoUpdates(first + rest)
  {
  }

  lemma {:induction false} AskNext(h: State, secret: Id, k: nat) returns (actions: seq<Action>)
    requires h.clients == Parked(secret, k) && h.updating.None? && h.globalAvailable > 0
    ensures NoUpdates(actions) && Execute(h, actions).Some?
    ensures Asks(Execute(h, actions).value, k, secret) && Live(Execute(h, actions).value, secret) == k
  {
    ParkedClients(secret, k);
    var h1 := LookupSteps(h, k, secret, 0);
    actions := [AcquireGlobal(k, secret, 0), EnsureSecret(k)];
    RunTwo(Apply, h, actions[0], actions[1], h1, AfterLookup(h, k, secret, 0));
    NumberWith(h.clients, k, HasCell(secret, 0), HoldsSecret(secret));
    assert h.clients - {k} == h.clients;
  }

  /** A secret can be brought to any number of live permits up to its capacity while one more client
      asks: one global permit is enough, since a leaving client gives it back before the secret's. */
  lemma {:induction false} AskAt(h: State, secret: Id, k: nat) returns (actions: seq<Action>)
    requires Safe(h) && h.updating.None? && secret in h.born
    requires k <= h.born[secret] && h.config.maxConnections > 0
    ensures NoUpdates(actions) && Execute(h, actions).Some?
    ensures Asks(Execute(h, actions).value, k, secret) && Live(Execute(h, actions).value, secret) == k
  {
    var leave := ClientsCanLeave(h);
    var empty := Execute(h, leave).value;
    CapacityIsFixed(h, leave, secret);
    var fill := ParkMany(empty, secret, k);
    var ask := AskNext(Execute(empty, fill).value, secret, k);
    RunAppend(Apply, empty, fill, ask);
    RunAppend(Apply, h, leave, fill + ask);
    QuietAppend(fill, ask);
    QuietAppend(leave, fill + ask);
    actions := leave + (fill + ask);
  }

  lemma {:induction false} DecisionAt(h: State, c: Id, secret: Id)
    requires Safe(h) && Asks(h, c, secret)
    ensures secret in h.born
    ensures DecidedByLimit(h, c, secret) <==> (Live(h, secret) == h.born[secret]
                                               <==> Live(h, secret) >= h.config.maxConnectionsPerSecret)
  {
    RefusedExactly(h, c);
  }

  /** Exactly when the promise holds that a secret already seen is held to the current limit: its
      semaphore was created with just that limit, or the hub admits nobody at all. */
  lemma {:induction false} LimitIsHonouredExactly(h: State, secret: Id)
    requires Safe(h) && h.updating.None? && secret in h.born
    ensures LimitIsHonoured(h, secret) <==>
            h.born[secret] == h.config.maxConnectionsPerSecret || h.config.maxConnections == 0
  {
    var born, limit := h.born[secret], h.config.maxConnectionsPerSecret;
    if born == limit {
      forall actions, c | NoUpdates(actions) && Execute(h, actions).Some? && Asks(Execute(h, actions).value, c, secret)
        ensures DecidedByLimit(Execute(h, actions).value, c, secret)
      {
        AlwaysDecided(h, actions, c, secret);
      }
    } else if h.config.maxConnections == 0 {
      forall actions, c | NoUpdates(actions) && Execute(h, actions).Some?
        ensures !Asks(Execute(h, actions).value, c, secret)
      {
        NobodyAsks(h, actions, c, secret);
      }
    } else {
      var k := if born < limit then born else limit;
      var actions := AskAt(h, secret, k);
      NotDecided(h, actions, k, secret);
    }
  }

  lemma {:induction false} QuietStaysQuiet(h: State, actions: seq<Action>)
    requires NoUpdates(actions) && Execute(h, actions).Some? && h.updating.None?
    ensures Execute(h, actions).value.updating.None?
    decreases |actions|
  {
    if actions != [] {
      assert !actions[0].BeginUpdate? && !actions[0].FinishUpdate?;
      QuietStaysQuiet(Apply(h, actions[0]).value, actions[1..]);
    }
  }

  /** Without a single global permit no request gets as far as the secret. */
  lemma {:induction false} NobodyAsks(h: State, actions: seq<Action>, c: Id, secret: Id)
    requires Safe(h) && h.updating.None? && h.config.maxConnections == 0
    requires NoUpdates(actions) && Execute(h, actions).Some?
    ensures !Asks(Execute(h, actions).value, c, secret)
  {
    var n := Execute(h, actions).value;
    RunIsSafe(h, actions);
    QuietKeepsConfig(h, actions);
    QuietStaysQuiet(h, actions);
    assert Those(n.clients, HoldsGlobal) == {};
    assert c !in Those(n.clients, HoldsGlobal);
  }

  lemma {:induction false} AlwaysDecided(h: State, actions: seq<Action>, c: Id, secret: Id)
    requires Safe(h) && secret in h.born && h.born[secret] == h.config.maxConnectionsPerSecret
    requires NoUpdates(actions) && Execute(h, actions).Some? && Asks(Execute(h, actions).value, c, secret)
    ensures DecidedByLimit(Execute(h, actions).value, c, secret)
  {
    RunIsSafe(h, actions);
    QuietKeepsConfig(h, actions);
    CapacityIsFixed(h, actions, secret);
    DecisionAt(Execute(h, actions).value, c, secret);
  }

  lemma {:induction false} NotDecided(h: State, actions: seq<Action>, k: nat, secret: Id)
    requires Safe(h) && secret in h.born && h.born[secret] != h.config.maxConnectionsPerSecret
    requires var (born, limit) := (h.born[secret], h.config.maxConnectionsPerSecret);
             k == if born < limit then born else limit
    requires NoUpdates(actions) && Execute(h, actions).Some?
    requires Asks(Execute(h, actions).value, k, secret) && Live(Execute(h, actions).value, secret) == k
    ensures !LimitIsHonoured(h, secret)
  {
    RunIsSafe(h, actions);
    QuietKeepsConfig(h, actions);
    CapacityIsFixed(h, actions, secret);
    DecisionAt(Execute(h, actions).value, k, secret);
  }

  /** The secret had no semaphore, and the limit then in force is the capacity it has now. */
  predicate BornThen(h: State, secret: Id, capacity: nat) {
    secret !in h.born && h.config.maxConnectionsPerSecret == capacity
  }

  lemma {:induction false} BornInStep(h: State, a: Action, secret: Id)
    requires Apply(h, a).Some? && secret !in h.born && secret in Apply(h, a).value.born
    ensures BornThen(h, secret, Apply(h, a).value.born[secret])
  {
  }

  lemma {:induction false} RunStep(h: State, a: Action, n: State, rest: seq<Action>, j: nat)
    requires Apply(h, a) == Some(n) && j <= |rest|
    ensures Execute(h, [a] + rest) == Execute(n, rest)
    ensures Execute(h, ([a] + rest)[..j + 1]) == Execute(n, rest[..j]) && Execute(h, ([a] + rest)[..0]) == Some(h)
  {
    assert ([a] + rest)[1..] == rest;
    assert ([a] + rest)[..j + 1][1..] == rest[..j];
  }

  /** Over every run the capacity of a new semaphore is the limit that was in force at the moment it was created. */
  lemma {:induction false} BornAtTheLimit(h: State, actions: seq<Action>, secret: Id) returns (k: nat)
    requires Safe(h) && Execute(h, actions).Some? && secret !in h.born && secret in Execute(h, actions).value.born
    ensures k < |actions| && Execute(h, actions[..k]).Some?
    ensures BornThen(Execute(h, actions[..k]).value, secret, Execute(h, actions).value.born[secret])
    decreases |actions|
  {
    var a, rest := actions[0], actions[1..];
    var n := Apply(h, a).value;
    assert actions == [a] + rest;
    StepIsSafe(h, a);
    if secret in n.born {
      k := 0;
      RunStep(h, a, n, rest, 0);
      BornInStep(h, a, secret);
      CapacityIsFixed(n, rest, secret);
    } else {
      var j := BornAtTheLimit(n, rest, secret);
      k := j + 1;
      RunStep(h, a, n, rest, j);
    }
  }

  // ---- The hub object -------------------------------------------------------------------

  datatype CapacityError = Global | PerSecret

  datatype Permit = Permit(client: Id, secret: Id, owner: Id)

  /** A run written out state by state. */
  ghost predicate IsTrace(trace: seq<State>, actions: seq<Action>) {
    |trace| == |actions| + 1 && forall i | 0 <= i < |actions| :: Apply(trace[i], actions[i]) == Some(trace[i + 1])
  }

  ghost predicate Reaches(start: RealtimeConfig, history: seq<Action>, h: State) {
    exists trace :: IsTrace(trace, history) && trace[0] == New(start) && trace[|history|] == h
  }

  lemma {:induction false} TraceIsExecution(trace: seq<State>, actions: seq<Action>)
    requires IsTrace(trace, actions)
    ensures Execute(trace[0], actions) == Some(trace[|actions|])
    decreases |actions|
  {
    if actions != [] {
      TraceIsExecution(trace[1..], actions[1..]);
    }
  }

  lemma {:induction false} ExecutionHasTrace(h: State, actions: seq<Action>) returns (trace: seq<State>)
    requires Execute(h, actions).Some?
    ensures IsTrace(trace, actions) && trace[0] == h && trace[|actions|] == Execute(h, actions).value
    decreases |actions|
  {
    if actions == [] {
      trace := [h];
    } else {
      var rest := ExecutionHasTrace(Apply(h, actions[0]).value, actions[1..]);
      trace := [h] + rest;
    }
  }

  lemma {:induction false} ReachesExactly(start: RealtimeConfig, history: seq<Action>, h: State)
    ensures Reaches(start, history, h) <==> Execute(New(start), history) == Some(h)
  {
    if Reaches(start, history, h) {
      var trace :| IsTrace(trace, history) && trace[0] == New(start) && trace[|history|] == h;
      TraceIsExecution(trace, history);
    }
    if Execute(New(start), history) == Some(h) {
      var trace := ExecutionHasTrace(New(start), history);
    }
  }

  /** Who is let in, in terms of the connections alone: the global cap first, then the secret's. */
  function Admission(h: State, c: Id, secret: Id, owner: Id): Result<Permit, CapacityError> {
    if Number(h.clients, HoldsGlobal) >= h.config.maxConnections then Failure(Global)
    else if Live(h, secret) >= CapacityFor(h, secret) then Failure(PerSecret)
    else Success(Permit(c, secret, owner))
  }

  lemma {:induction false} Extends(start: RealtimeConfig, history: seq<Action>, h: State, more: seq<Action>, n: State)
    requires Reaches(start, history, h) && Execute(h, more) == Some(n)
    ensures Reaches(start, history + more, n)
  {
    ReachesExactly(start, history, h);
    ReachesExactly(start, history + more, n);
    RunAppend(Apply, New(start), history, more);
  }

  lemma {:induction false} ReachedIsSafe(start: RealtimeConfig, history: seq<Action>, h: State)
    requires Reaches(start, history, h)
    ensures Safe(h)
  {
    ReachesExactly(start, history, h);
    NewIsSafe(start);
    RunIsSafe(New(start), history);
  }

  lemma {:induction false} ConnectExtends(start: RealtimeConfig, history: seq<Action>, h: State, c: Id, secret: Id,
                                          owner: Id)
    requires Reaches(start, history, h) && c !in h.clients && h.updating.None?
    requires h.globalAvailable > 0 && AvailableFor(h, secret) > 0
    ensures Reaches(start, history + Connect(c, secret, owner), AfterConnect(h, c, secret, owner))
    ensures Admission(h, c, secret, owner) == Success(Permit(c, secret, owner))
  {
    AvailableIsRest(start, history, h, secret);
    ConnectRuns(h, c, secret, owner);
    Extends(start, history, h, Connect(c, secret, owner), AfterConnect(h, c, secret, owner));
  }

  lemma {:induction false} RefusalExtends(start: RealtimeConfig, history: seq<Action>, h: State, c: Id, secret: Id,
                                          owner: Id)
    requires Reaches(start, history, h) && c !in h.clients && h.updating.None?
    requires h.globalAvailable > 0 && AvailableFor(h, secret) == 0
    ensures Reaches(start, history + Refusal(c, secret, owner), AfterRefusal(h, secret))
    ensures Admission(h, c, secret, owner) == Failure(PerSecret)
  {
    AvailableIsRest(start, history, h, secret);
    RefusalRuns(h, c, secret, owner);
    Extends(start, history, h, Refusal(c, secret, owner), AfterRefusal(h, secret));
  }

  lemma {:induction false} ConnectedHasCell(start: RealtimeConfig, history: seq<Action>, h: State, c: Id)
    requires Reaches(start, history, h) && c in h.clients && h.clients[c].Connected?
    ensures h.clients[c].secret in h.secretAvailable
  {
    ReachedIsSafe(start, history, h);
  }

  lemma {:induction false} SemaphoresAreBorn(start: RealtimeConfig, history: seq<Action>, h: State)
    requires Reaches(start, history, h)
    ensures h.secretAvailable.Keys == h.born.Keys
  {
    ReachedIsSafe(start, history, h);
  }

  function Admitted(h: State, c: Id, secret: Id, owner: Id): State
    requires secret in h.secretAvailable && h.secretAvailable[secret] > 0
  {
    h.(secretAvailable := h.secretAvailable[secret := h.secretAvailable[secret] - 1],
       owners := Increment(h.owners, owner),
       clients := h.clients[c := Connected(secret, owner)])
  }

  function LookedUp(h: State, secret: Id): State
    requires h.globalAvailable > 0
  {
    h.(globalAvailable := h.globalAvailable - 1,
       secretAvailable := h.secretAvailable[secret := AvailableFor(h, secret)],
       born := BornWith(h, secret))
  }

  lemma {:induction false} AdmitIsConnect(h: State, c: Id, secret: Id, owner: Id, n: State)
    requires h.globalAvailable > 0 && AvailableFor(h, secret) > 0
    requires n == Admitted(LookedUp(h, secret), c, secret, owner)
    ensures n == AfterConnect(h, c, secret, owner)
  {
    assert n.secretAvailable == h.secretAvailable[secret := AvailableFor(h, secret) - 1];
  }

  /** The hub as its callers see it: each call runs its steps without interruption. `history` is
      the run so far, so a valid hub is always in a state that a run of a new hub reaches;
      `clients`, `born` and the parameter `c` name the connections in the specification. */
  class RealtimeHub {
    var config: RealtimeConfig
    var globalConnections: nat
    var perSecretConnections: map<Id, nat>
    var ownerConnections: map<Id, nat>
    ghost var born: map<Id, nat>
    ghost var clients: map<Id, Phase>
    ghost var history: seq<Action>
    ghost const start: RealtimeConfig

    ghost function View(): State
      reads this
    {
      State(config, globalConnections, perSecretConnections, born, ownerConnections, None, map[], clients)
    }

    ghost predicate Valid()
      reads this
    {
      Reaches(start, history, View())
    }

    constructor (initial: RealtimeConfig)
      ensures View() == New(initial) && start == initial && history == [] && Valid()
    {
      config := initial;
      globalConnections := initial.maxConnections;
      perSecretConnections := map[];
      ownerConnections := map[];
      born, clients, history, start := map[], map[], [], initial;
      new;
      ReachesExactly(initial, [], View());
    }

    /** Looks the secret's semaphore up, creating it with the current limit when it is missing. */
    method SecretSemaphore(secret: Id)
      modifies this`perSecretConnections, this`born
      ensures perSecretConnections == old(perSecretConnections)[secret := old(AvailableFor(View(), secret))]
      ensures born == old(BornWith(View(), secret))
    {
      if secret !in perSecretConnections {
        born := born[secret := config.maxConnectionsPerSecret];
        perSecretConnections := perSecretConnections[secret := config.maxConnectionsPerSecret];
      }
      assert old(perSecretConnections)[secret := perSecretConnections[secret]] == perSecretConnections;
    }

    /** Takes the secret's permit and counts the owner. */
    method Admit(c: Id, secret: Id, owner: Id)
      requires secret in perSecretConnections && perSecretConnections[secret] > 0
      modifies this`perSecretConnections, this`ownerConnections, this`clients
      ensures View() == old(Admitted(View(), c, secret, owner))
    {
      perSecretConnections := perSecretConnections[secret := perSecretConnections[secret] - 1];
      ownerConnections := Increment(ownerConnections, owner);
      clients := clients[c := Connected(secret, owner)];
    }

    method TryConnect(c: Id, secret: Id, owner: Id) returns (r: Result<Permit, CapacityError>)
      requires Valid() && c !in clients
      modifies this
      ensures Valid()
      ensures r == Admission(old(View()), c, secret, owner)
      ensures history == old(history) + (match r
                                         case Success(_) => Connect(c, secret, owner)
                                         case Failure(PerSecret) => Refusal(c, secret, owner)
                                         case Failure(Global) => [])
      ensures r == Failure(Global) ==> View() == old(View())
      ensures r == Failure(Global) <==> Number(old(clients), HoldsGlobal) >= old(config).maxConnections
      ensures r == Failure(PerSecret) <==>
              && Number(old(clients), HoldsGlobal) < old(config).maxConnections
              && Number(old(clients), HoldsSecret(secret))
                 >= if secret in old(born) then old(born)[secret] else old(config).maxConnectionsPerSecret
      ensures r.Success? ==> r.value == Permit(c, secret, owner)
      ensures clients == (if r.Success? then old(clients)[c := Connected(secret, owner)] else old(clients))
      ensures config == old(config)
      ensures born == (if r == Failure(Global) || secret in old(born) then old(born)
                       else old(born)[secret := old(config).maxConnectionsPerSecret])
    {
      ghost var before := View();
      SemaphoresAreBorn(start, history, before);
      if globalConnections == 0 {
        AvailableIsRest(start, history, before, secret);
        assert history + [] == history;
        return Failure(Global);
      }
      globalConnections := globalConnections - 1;
      SecretSemaphore(secret);
      if perSecretConnections[secret] == 0 {
        globalConnections := globalConnections + 1;
        RefusalExtends(start, history, before, c, secret, owner);
        history := history + Refusal(c, secret, owner);
        assert View() == AfterRefusal(before, secret);
        return Failure(PerSecret);
      }
      Admit(c, secret, owner);
      AdmitIsConnect(before, c, secret, owner, View());
      ConnectExtends(start, history, before, c, secret, owner);
      history := history + Connect(c, secret, owner);
      r := Success(Permit(c, secret, owner));
    }

    method Drop(permit: Permit)
      requires Valid() && permit.client in clients && clients[permit.client] == Connected(permit.secret, permit.owner)
      modifies this
      ensures Valid()
      ensures history == old(history) + Leave(permit.client)
      ensures clients == old(clients) - {permit.client}
    {
      ghost var before := View();
      ConnectedHasCell(start, history, before, permit.client);
      if permit.owner in ownerConnections {
        if ownerConnections[permit.owner] <= 1 {
          ownerConnections := ownerConnections - {permit.owner};
        } else {
          ownerConnections := ownerConnections[permit.owner := ownerConnections[permit.owner] - 1];
        }
      }
      globalConnections := globalConnections + 1;
      perSecretConnections := perSecretConnections[permit.secret := perSecretConnections[permit.secret] + 1];
      clients := clients - {permit.client};
      assert View() == AfterDrop(before, permit.client, permit.secret, permit.owner);
      history := history + Leave(permit.client);
      DropRuns(before, permit.client, permit.secret, permit.owner);
      Extends(start, old(history), before, Leave(permit.client), View());
    }

    method UpdateConfig(next: RealtimeConfig)
      requires Valid()
      modifies this
      ensures Valid()
      ensures history == old(history) + Update(next)
      ensures clients == old(clients) && perSecretConnections == old(perSecretConnections)
      ensures config.maxConnections >= next.maxConnections && config.maxConnections >= old(config).maxConnections
      ensures config.maxConnections == next.maxConnections || config.maxConnections == old(config).maxConnections
      ensures config == old(config).(maxConnections := config.maxConnections, heartbeatSeconds := next.heartbeatSeconds,
                                     maxConnectionsPerSecret := next.maxConnectionsPerSecret)
    {
      ghost var before := View();
      if next.maxConnections > config.maxConnections {
        globalConnections := globalConnections + (next.maxConnections - config.maxConnections);
        config := config.(maxConnections := next.maxConnections);
      }
      config := config.(maxConnectionsPerSecret := next.maxConnectionsPerSecret);
      config := config.(heartbeatSeconds := next.heartbeatSeconds);
      assert View() == AfterUpdate(before, next);
      history := history + Update(next);
      UpdateRuns(before, next);
      Extends(start, old(history), before, Update(next), View());
    }

    /** The subtraction never underflows and counts the clients that hold a global permit. */
    method ActiveConnections() returns (n: nat)
      requires Valid()
      ensures n == Number(clients, HoldsGlobal)
    {
      AvailableIsRest(start, history, View(), 0);
      n := config.maxConnections - globalConnections;
    }

    /** The number of distinct owners with a connected client. */
    method ActiveOwners() returns (n: nat)
      requires Valid()
      ensures n == |ConnectedOwners(clients)|
    {
      OwnersAreConnected(start, history, View());
      n := |ownerConnections|;
    }
  }

  function ConnectedOwners(clients: map<Id, Phase>): set<Id> {
    set c | c in clients && clients[c].Connected? :: clients[c].owner
  }

  lemma {:induction false} OwnersAreConnected(start: RealtimeConfig, history: seq<Action>, h: State)
    requires Reaches(start, history, h)
    ensures h.owners.Keys == ConnectedOwners(h.clients)
  {
    ReachedIsSafe(start, history, h);
    forall owner
      ensures owner in h.owners <==> owner in ConnectedOwners(h.clients)
    {
      assert OwnerCounted(h, owner);
      if owner in h.owners {
        assert Those(h.clients, CountedFor(owner)) != {};
        var c :| c in Those(h.clients, CountedFor(owner));
        assert h.clients[c].owner == owner;
      }
      if owner in ConnectedOwners(h.clients) {
        var c :| c in h.clients && h.clients[c].Connected? && h.clients[c].owner == owner;
        assert c in Those(h.clients, CountedFor(owner));
      }
    }
  }

  lemma {:induction false} AvailableIsRest(start: RealtimeConfig, history: seq<Action>, h: State, secret: Id)
    requires Reaches(start, history, h) && h.updating.None?
    ensures h.globalAvailable + Number(h.clients, HoldsGlobal) == h.config.maxConnections
    ensures AvailableFor(h, secret) + Live(h, secret) == CapacityFor(h, secret)
  {
    ReachedIsSafe(start, history, h);
    if secret in h.born {
      assert SecretBalanced(h, secret);
    } else {
      assert Those(h.clients, HoldsSecret(secret)) == {};
    }
  }
}
