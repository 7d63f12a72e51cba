/** The three member-access commands and the transactions that carry them. Every transaction takes
    the project row lock before it reads, checks, writes and commits or rolls back; any number of
    them interleave. */
module MemberAccess {
  import opened Machine
  import opened Wrappers
  import Text

  type Id = nat

  datatype PrimaryRole = Admin | Contribute | User

  datatype UserStatus = Pending | Invited | Active | Disabled

  datatype SecretScope = SubscribeResources | ReportTelemetry | SyncInventory

  datatype StatusReason = AdministrativeDisable | AdministrativeEnable | AdministrativeApproval

  datatype Member = Member(
    displayName: string,
    role: PrimaryRole,
    status: UserStatus,
    subRoles: set<Id>,
    tags: set<Id>,
    approvedBy: Option<Id>,
    mustChangePassword: bool,
    sessionVersion: nat)

  datatype Credential = Credential(id: Id, owner: Id, scopes: seq<SecretScope>, revoked: bool)

  /** The rows the commands read and write; credentials in creation order. */
  datatype Database = Database(
    configured: bool,
    members: map<Id, Member>,
    subRoles: set<Id>,
    tags: set<Id>,
    credentials: seq<Credential>)

  datatype Command =
    | UpdateProfile(actor: Id, target: Id, displayName: Option<string>, role: Option<PrimaryRole>,
                    subRoleIds: Option<seq<Id>>, tagIds: Option<seq<Id>>)
    | Approve(actor: Id, target: Id, role: Option<PrimaryRole>, subRoleIds: Option<seq<Id>>, tagIds: Option<seq<Id>>)
    | SetStatus(actor: Id, target: Id, status: UserStatus, reason: StatusReason)

  datatype Error =
    | ProjectNotConfigured | ActorNotFound | TargetNotFound | ActorNotAuthorized | SelfPrimaryRoleChange
    | SelfDisable | LastActiveAdmin | EmptyDisplayName | DuplicateSubRoleId | DuplicateTagId
    | UnknownSubRoleId | UnknownTagId | UnsupportedStatus | NotPendingApproval | InvalidCredential(id: Id)

  datatype Change = Change(before: Member, after: Member, adminElevation: bool, audienceChanged: bool, revoked: seq<Id>)

  type Outcome = Result<Change, Error>

  // ---- What one command does ------------------------------------------------------------

  predicate AllUnique(ids: seq<Id>) {
    forall i, j | 0 <= i < j < |ids| :: ids[i] != ids[j]
  }

  function AssignmentShape(subRoleIds: Option<seq<Id>>, tagIds: Option<seq<Id>>): Option<Error> {
    if subRoleIds.Some? && !AllUnique(subRoleIds.value) then Some(DuplicateSubRoleId)
    else if tagIds.Some? && !AllUnique(tagIds.value) then Some(DuplicateTagId)
    else None
  }

  /** Nothing is left of it once trimmed. */
  predicate Blank(text: string) {
    Text.All(Text.IsWhitespace, text)
  }

  /** What is refused before a transaction begins. */
  function Shape(c: Command): Option<Error> {
    match c
    case UpdateProfile(_, _, displayName, _, subRoleIds, tagIds) =>
      if displayName.Some? && Blank(displayName.value) then Some(EmptyDisplayName)
      else AssignmentShape(subRoleIds, tagIds)
    case Approve(_, _, _, subRoleIds, tagIds) => AssignmentShape(subRoleIds, tagIds)
    case SetStatus(_, _, status, reason) =>
      if (status.Active? && reason.AdministrativeEnable?) || (status.Disabled? && reason.AdministrativeDisable?)
      then None else Some(UnsupportedStatus)
  }

  predicate ActiveAdmin(m: Member) {
    m.role.Admin? && m.status.Active?
  }

  function ActiveAdmins(db: Database): set<Id> {
    set m | m in db.members && ActiveAdmin(db.members[m])
  }

  predicate Known(ids: Option<seq<Id>>, rows: set<Id>) {
    ids.Some? ==> forall i | 0 <= i < |ids.value| :: ids.value[i] in rows
  }

  function AssignmentRows(db: Database, subRoleIds: Option<seq<Id>>, tagIds: Option<seq<Id>>): Option<Error> {
    if !Known(subRoleIds, db.subRoles) then Some(UnknownSubRoleId)
    else if !Known(tagIds, db.tags) then Some(UnknownTagId)
    else None
  }

  function Or<T>(o: Option<T>, default: T): T {
    if o.Some? then o.value else default
  }

  /** The checks between reading the two members and the first write, in the order the source makes
      them. `keepLastAdmin` switches the last-admin guard, so that it can be compared with its absence. */
  function Refusal(db: Database, c: Command, actor: Member, target: Member, keepLastAdmin: bool): Option<Error> {
    match c
    case UpdateProfile(_, _, _, role, subRoleIds, tagIds) =>
      var next := Or(role, target.role);
      if c.actor == c.target && next != target.role then Some(SelfPrimaryRoleChange)
      else if keepLastAdmin && ActiveAdmin(target) && !next.Admin? && |ActiveAdmins(db)| <= 1 then Some(LastActiveAdmin)
      else if !ActiveAdmin(actor) then Some(ActorNotAuthorized)
      else AssignmentRows(db, subRoleIds, tagIds)
    case SetStatus(_, _, status, _) =>
      if c.actor == c.target && status.Disabled? && !target.status.Disabled? then Some(SelfDisable)
      else if keepLastAdmin && ActiveAdmin(target) && !status.Active? && |ActiveAdmins(db)| <= 1 then
        Some(LastActiveAdmin)
      else if !ActiveAdmin(actor) then Some(ActorNotAuthorized)
      else None
    case Approve(_, _, _, subRoleIds, tagIds) =>
      if !ActiveAdmin(actor) then Some(ActorNotAuthorized)
      else if !target.status.Pending? && !target.status.Invited? then Some(NotPendingApproval)
      else AssignmentRows(db, subRoleIds, tagIds)
  }

  predicate Elevates(c: Command, target: Member) {
    !c.SetStatus? && !target.role.Admin? && Or(c.role, target.role).Admin?
  }

  /** The `UPDATE users` row. */
  function Written(c: Command, target: Member): Member {
    match c
    case UpdateProfile(_, _, displayName, role, _, _) =>
      target.(displayName := Or(displayName, target.displayName), role := Or(role, target.role),
              sessionVersion := target.sessionVersion + (if Elevates(c, target) then 1 else 0))
    case Approve(actor, _, role, _, _) =>
      target.(status := Active, role := Or(role, target.role), approvedBy := Some(actor), mustChangePassword := false,
              sessionVersion := target.sessionVersion + 1)
    case SetStatus(_, _, status, _) =>
      if target.status == status then target
      else target.(status := status, sessionVersion := target.sessionVersion + 1)
  }

  function IdSet(ids: seq<Id>): set<Id> {
    set i | i in ids
  }

  /** The replaced assignment rows. */
  function Assigned(c: Command, m: Member): Member {
    if c.SetStatus? then m
    else m.(subRoles := if c.subRoleIds.Some? then IdSet(c.subRoleIds.value) else m.subRoles,
            tags := if c.tagIds.Some? then IdSet(c.tagIds.value) else m.tags)
  }

  predicate AudienceChanged(c: Command, before: Member, after: Member) {
    match c
    case UpdateProfile(_, _, _, _, _, _) =>
      before.role != after.role || before.subRoles != after.subRoles || before.tags != after.tags
    case Approve(_, _, _, _, _) =>
      before.role != after.role || before.status != after.status || before.subRoles != after.subRoles
        || before.tags != after.tags
    case SetStatus(_, _, status, _) => before.status != status
  }

  // ---- Credentials ----------------------------------------------------------------------

  predicate ScopeIsRoleCompatible(role: PrimaryRole, scope: SecretScope) {
    (role.Admin? || role.Contribute? || role.User?)
    && (scope.SubscribeResources? || scope.ReportTelemetry? || scope.SyncInventory?)
  }

  type Compatibility = (PrimaryRole, SecretScope) -> bool

  predicate HasDuplicates(scopes: seq<SecretScope>) {
    exists i, j | 0 <= i < j < |scopes| :: scopes[i] == scopes[j]
  }

  predicate Malformed(k: Credential) {
    k.scopes == [] || HasDuplicates(k.scopes)
  }

  predicate Concerns(k: Credential, owner: Id) {
    k.owner == owner && !k.revoked
  }

  predicate Incompatible(ok: Compatibility, role: PrimaryRole, k: Credential) {
    exists i | 0 <= i < |k.scopes| :: !ok(role, k.scopes[i])
  }

  predicate MustRevoke(ok: Compatibility, k: Credential, owner: Id, role: PrimaryRole) {
    Concerns(k, owner) && Incompatible(ok, role, k)
  }

  datatype Reconciled = Reconciled(credentials: seq<Credential>, revoked: seq<Id>)

  /** The pass over the member's live credentials: the first malformed one aborts it. */
  function Reconcile(ok: Compatibility, ks: seq<Credential>, owner: Id, role: PrimaryRole): (r: Result<Reconciled,
                     Error>)
    ensures r.Failure? ==> r.error.InvalidCredential?
  {
    if ks == [] then Success(Reconciled([], []))
    else if Concerns(ks[0], owner) && Malformed(ks[0]) then Failure(InvalidCredential(ks[0].id))
    else
      var rest := Reconcile(ok, ks[1..], owner, role);
      if rest.Failure? then rest
      else if MustRevoke(ok, ks[0], owner, role)
      then Success(Reconciled([ks[0].(revoked := true)] + rest.value.credentials, [ks[0].id] + rest.value.revoked))
      else Success(Reconciled([ks[0]] + rest.value.credentials, rest.value.revoked))
  }

  lemma {:induction false} RevokedMeaning(ok: Compatibility, ks: seq<Credential>, owner: Id, role: PrimaryRole, id: Id)
    requires Reconcile(ok, ks, owner, role).Success?
    ensures id in Reconcile(ok, ks, owner, role).value.revoked <==>
            exists i | 0 <= i < |ks| :: ks[i].id == id && MustRevoke(ok, ks[i], owner, role)
  {
    if ks != [] {
      RevokedMeaning(ok, ks[1..], owner, role, id);
      if i :| 0 <= i < |ks[1..]| && ks[1..][i].id == id && MustRevoke(ok, ks[1..][i], owner, role) {
        assert ks[i + 1].id == id && MustRevoke(ok, ks[i + 1], owner, role);
      }
      if i :| 1 <= i < |ks| && ks[i].id == id && MustRevoke(ok, ks[i], owner, role) {
        assert ks[1..][i - 1] == ks[i];
      }
    }
  }

  lemma {:induction false} CredentialsMeaning(ok: Compatibility, ks: seq<Credential>, owner: Id, role: PrimaryRole)
    ensures var r := Reconcile(ok, ks, owner, role);
            && (r.Failure? <==> exists i | 0 <= i < |ks| :: Concerns(ks[i], owner) && Malformed(ks[i]))
            && (r.Success? ==>
                  && |r.value.credentials| == |ks|
                  && forall i | 0 <= i < |ks| ::
                       r.value.credentials[i] == ks[i].(revoked := ks[i].revoked || MustRevoke(ok, ks[i], owner, role)))
  {
    if ks != [] {
      CredentialsMeaning(ok, ks[1..], owner, role);
      assert forall i | 1 <= i < |ks| :: ks[i] == ks[1..][i - 1];
      if i :| 0 <= i < |ks[1..]| && Concerns(ks[1..][i], owner) && Malformed(ks[1..][i]) {
        assert Concerns(ks[i + 1], owner) && Malformed(ks[i + 1]);
      }
    }
  }

  /** Reconciliation fails exactly when a live credential of the member is malformed; otherwise it
      revokes exactly the member's live credentials with an incompatible scope, and nothing else
      about any credential changes. */
  lemma {:induction false} ReconcileMeaning(ok: Compatibility, ks: seq<Credential>, owner: Id, role: PrimaryRole)
    ensures var r := Reconcile(ok, ks, owner, role);
            && (r.Failure? <==> exists i | 0 <= i < |ks| :: Concerns(ks[i], owner) && Malformed(ks[i]))
            && (r.Success? ==>
                  && |r.value.credentials| == |ks|
                  && (forall i | 0 <= i < |ks| ::
                        r.value.credentials[i]
                        == ks[i].(revoked := ks[i].revoked || MustRevoke(ok, ks[i], owner, role)))
                  && (forall id :: id in r.value.revoked <==>
                        exists i | 0 <= i < |ks| :: ks[i].id == id && MustRevoke(ok, ks[i], owner, role)))
  {
    CredentialsMeaning(ok, ks, owner, role);
    if Reconcile(ok, ks, owner, role).Success? {
      forall id
        ensures id in Reconcile(ok, ks, owner, role).value.revoked <==>
                exists i | 0 <= i < |ks| :: ks[i].id == id && MustRevoke(ok, ks[i], owner, role)
      {
        RevokedMeaning(ok, ks, owner, role, id);
      }
    }
  }

  /** With the compatibility table of this version no role change ever revokes a credential. */
  lemma {:induction false} NothingIsRevoked(ks: seq<Credential>, owner: Id, role: PrimaryRole)
    ensures var r := Reconcile(ScopeIsRoleCompatible, ks, owner, role);
            r.Success? ==> r.value == Reconciled(ks, [])
  {
    if ks != [] {
      NothingIsRevoked(ks[1..], owner, role);
    }
  }

  // ---- The command as a whole -----------------------------------------------------------

  /** The credential pass of the command; status changes make none. */
  function Credentials(c: Command, target: Member, ks: seq<Credential>): Result<Reconciled, Error> {
    if c.SetStatus? then Success(Reconciled(ks, []))
    else Reconcile(ScopeIsRoleCompatible, ks, c.target, Or(c.role, target.role))
  }

  function UserWritten(db: Database, c: Command, target: Member): Database {
    db.(members := db.members[c.target := Written(c, target)])
  }

  function RowsWritten(db: Database, c: Command, target: Member): Database {
    db.(members := db.members[c.target := Assigned(c, Written(c, target))])
  }

  /** The writes of a command that passed its checks, and its answer. */
  function WriteRows(db: Database, c: Command, target: Member): (Database, Outcome) {
    var ks := Credentials(c, target, db.credentials);
    if ks.Failure? then (db, Failure(ks.error))
    else
      var after := Assigned(c, Written(c, target));
      (RowsWritten(db, c, target).(credentials := ks.value.credentials),
       Success(Change(target, after, Elevates(c, target), AudienceChanged(c, target, after), ks.value.revoked)))
  }

  /** Reads, checks and writes of one command on the database it locked. */
  function Perform(db: Database, c: Command, keepLastAdmin: bool): (Database, Outcome) {
    if !db.configured then (db, Failure(ProjectNotConfigured))
    else if c.actor !in db.members then (db, Failure(ActorNotFound))
    else if c.target !in db.members then (db, Failure(TargetNotFound))
    else
      var (actor, target) := (db.members[c.actor], db.members[c.target]);
      var refusal := Refusal(db, c, actor, target, keepLastAdmin);
      if refusal.Some? then (db, Failure(refusal.value)) else WriteRows(db, c, target)
  }

  function Exec(db: Database, c: Command): (Database, Outcome) {
    if Shape(c).Some? then (db, Failure(Shape(c).value)) else Perform(db, c, true)
  }

  // ---- What a command keeps -------------------------------------------------------------

  /** Whoever issues a successful command was an active admin and still is. */
  lemma {:induction false} ActorStaysAdmin(db: Database, c: Command)
    requires Exec(db, c).1.Success?
    ensures c.actor in db.members && ActiveAdmin(db.members[c.actor])
    ensures c.actor in Exec(db, c).0.members && ActiveAdmin(Exec(db, c).0.members[c.actor])
  {
  }

  /** A project with an active admin still has one after any command. */
  lemma {:induction false} AdminRemains(db: Database, c: Command)
    requires ActiveAdmins(db) != {}
    ensures ActiveAdmins(Exec(db, c).0) != {}
  {
    if Exec(db, c).1.Success? {
      ActorStaysAdmin(db, c);
      assert c.actor in ActiveAdmins(Exec(db, c).0);
    }
  }

  /** Failure changes nothing; success changes the target's row alone. */
  lemma {:induction false} OnlyTheTargetChanges(db: Database, c: Command)
    ensures var (n, outcome) := Exec(db, c);
            && (outcome.Failure? ==> n == db)
            && n.members.Keys == db.members.Keys && n.subRoles == db.subRoles && n.tags == db.tags
            && n.configured == db.configured && n.credentials == db.credentials
            && (forall id | id in db.members && id != c.target :: n.members[id] == db.members[id])
            && (outcome.Success? ==> c.target in db.members && outcome.value.before == db.members[c.target]
                                     && outcome.value.after == n.members[c.target])
  {
    if c.target in db.members && !c.SetStatus? {
      NothingIsRevoked(db.credentials, c.target, Or(c.role, db.members[c.target].role));
    }
  }

  /** The answer's flags read off the two rows, whatever the command: elevation is a step up to
      admin, and the audience changed exactly when role, status or an assignment did. */
  lemma {:induction false} FlagsDescribeTheRows(db: Database, c: Command)
    requires Exec(db, c).1.Success?
    ensures var change := Exec(db, c).1.value;
            var (b, a) := (change.before, change.after);
            && (change.adminElevation <==> !b.role.Admin? && a.role.Admin?)
            && (change.audienceChanged <==> !(b.role == a.role && b.status == a.status && b.subRoles == a.subRoles
                                              && b.tags == a.tags))
  {
  }

  /** Field by field, what a successful command leaves in the target's row. */
  lemma {:induction false} SuccessfulRow(db: Database, c: Command)
    requires Exec(db, c).1.Success?
    ensures c.target in db.members && c.target in Exec(db, c).0.members
    ensures var (b, a) := (db.members[c.target], Exec(db, c).0.members[c.target]);
            && (c.SetStatus? ==>
                  a.status == c.status && a == b.(status := c.status, sessionVersion := a.sessionVersion))
            && (c.Approve? ==>
                  && a.status.Active? && a.approvedBy == Some(c.actor) && !a.mustChangePassword
                  && a.displayName == b.displayName)
            && (c.UpdateProfile? ==>
                  && a.status == b.status && a.approvedBy == b.approvedBy
                  && a.mustChangePassword == b.mustChangePassword && a.displayName == Or(c.displayName, b.displayName))
            && (!c.SetStatus? ==>
                  && a.role == Or(c.role, b.role)
                  && (c.subRoleIds.None? ==> a.subRoles == b.subRoles) && (c.tagIds.None? ==> a.tags == b.tags)
                  && (c.subRoleIds.Some? ==> forall i :: i in a.subRoles <==> i in c.subRoleIds.value)
                  && (c.tagIds.Some? ==> forall i :: i in a.tags <==> i in c.tagIds.value))
  {
  }

  /** Whether a finished command moves the session version of `id`. */
  predicate Bumps(c: Command, outcome: Outcome, id: Id) {
    && outcome.Success? && c.target == id
    && match c
       case UpdateProfile(_, _, _, _, _, _) => !outcome.value.before.role.Admin? && outcome.value.after.role.Admin?
       case Approve(_, _, _, _, _) => true
       case SetStatus(_, _, _, _) => outcome.value.before.status != outcome.value.after.status
  }

  function Bump(c: Command, outcome: Outcome, id: Id): nat {
    if Bumps(c, outcome, id) then 1 else 0
  }

  /** The session version rises by exactly one on elevation to admin, on a real status change and
      on approval, and otherwise stays. */
  lemma {:induction false} SessionVersionIsExact(db: Database, c: Command, id: Id)
    requires id in db.members
    ensures var (n, outcome) := Exec(db, c);
            && id in n.members
            && n.members[id].sessionVersion == db.members[id].sessionVersion + Bump(c, outcome, id)
  {
  }

  lemma {:induction false} TwoAdmins(db: Database, a: Id, b: Id)
    requires a in ActiveAdmins(db) && b in ActiveAdmins(db) && a != b
    ensures |ActiveAdmins(db)| >= 2
  {
    assert ActiveAdmins(db) == {a, b} + (ActiveAdmins(db) - {a, b});
  }

  /** Where the guard would refuse, the actor is no active admin: the only one is the target, and an
      active admin acting on itself has been refused before. */
  lemma {:induction false} GuardedRefusal(db: Database, c: Command, actor: Member, target: Member)
    requires Shape(c).None? && c.actor in db.members && actor == db.members[c.actor]
    requires c.target in db.members && target == db.members[c.target]
    ensures var (guarded, unguarded) := (Refusal(db, c, actor, target, true), Refusal(db, c, actor, target, false));
            guarded == unguarded || (guarded == Some(LastActiveAdmin) && unguarded == Some(ActorNotAuthorized))
  {
    if ActiveAdmin(actor) && ActiveAdmin(target) && c.actor != c.target {
      TwoAdmins(db, c.actor, c.target);
    }
  }

  /** The last-admin guard never decides anything: without it the same commands succeed with the
      same effect, and what it would have refused is refused because the actor is no active admin. */
  lemma {:induction false} LastAdminGuardIsRedundant(db: Database, c: Command)
    requires Shape(c).None?
    ensures var (guarded, unguarded) := (Perform(db, c, true), Perform(db, c, false));
            && guarded.0 == unguarded.0
            && (guarded.1 == unguarded.1
                || (guarded.1 == Failure(LastActiveAdmin) && unguarded.1 == Failure(ActorNotAuthorized)))
  {
    if c.actor in db.members && c.target in db.members {
      GuardedRefusal(db, c, db.members[c.actor], db.members[c.target]);
    }
  }

  /** Exactly which commands succeed, with no mention of the number of admins. */
  lemma {:induction false} SucceedsExactly(db: Database, c: Command)
    ensures Exec(db, c).1.Success? <==>
            && Shape(c).None? && db.configured
            && c.actor in db.members && c.target in db.members && ActiveAdmin(db.members[c.actor])
            && var target := db.members[c.target];
               && Credentials(c, target, db.credentials).Success?
               && (!c.SetStatus? ==> Known(c.subRoleIds, db.subRoles) && Known(c.tagIds, db.tags))
               && (c.UpdateProfile? && c.actor == c.target ==> Or(c.role, target.role) == target.role)
               && (c.Approve? ==> target.status.Pending? || target.status.Invited?)
               && (c.SetStatus? && c.actor == c.target ==> !c.status.Disabled?)
  {
    if Shape(c).None? {
      LastAdminGuardIsRedundant(db, c);
    }
  }

  // ---- Which error is answered ----------------------------------------------------------

  predicate RepeatsAnId(ids: seq<Id>) {
    exists i, j | 0 <= i < j < |ids| :: ids[i] == ids[j]
  }

  predicate NamesUnknown(ids: seq<Id>, rows: set<Id>) {
    exists i | 0 <= i < |ids| :: ids[i] !in rows
  }

  predicate OnlyActiveAdmin(db: Database, id: Id) {
    && id in db.members && db.members[id].role.Admin? && db.members[id].status.Active?
    && forall other | other in db.members && other != id ::
         !db.members[other].role.Admin? || !db.members[other].status.Active?
  }

  /** The command would leave the member something other than an active admin. */
  predicate TakesAdminAway(c: Command) {
    (c.UpdateProfile? && c.role.Some? && c.role != Some(Admin)) || (c.SetStatus? && !c.status.Active?)
  }

  /** A live credential of the member without scopes or with a repeated one, and the first of them. */
  predicate IsFirstInvalid(ks: seq<Credential>, owner: Id, i: nat) {
    && i < |ks| && IsInvalid(ks[i], owner)
    && forall j | 0 <= j < i :: !IsInvalid(ks[j], owner)
  }

  predicate IsInvalid(k: Credential, owner: Id) {
    && k.owner == owner && !k.revoked
    && (|k.scopes| == 0 || exists i, j | 0 <= i < j < |k.scopes| :: k.scopes[i] == k.scopes[j])
  }

  /** What is wrong with a command, each fault on its own. */
  predicate Fault(db: Database, c: Command, e: Error) {
    match e
    case EmptyDisplayName =>
      c.UpdateProfile? && c.displayName.Some?
      && forall i | 0 <= i < |c.displayName.value| :: Text.IsWhitespace(c.displayName.value[i])
    case DuplicateSubRoleId => !c.SetStatus? && c.subRoleIds.Some? && RepeatsAnId(c.subRoleIds.value)
    case DuplicateTagId => !c.SetStatus? && c.tagIds.Some? && RepeatsAnId(c.tagIds.value)
    case UnsupportedStatus =>
      c.SetStatus? && !(c.status == Active && c.reason == AdministrativeEnable)
      && !(c.status == Disabled && c.reason == AdministrativeDisable)
    case ProjectNotConfigured => !db.configured
    case ActorNotFound => c.actor !in db.members
    case TargetNotFound => c.target !in db.members
    case SelfPrimaryRoleChange =>
      c.UpdateProfile? && c.actor == c.target && c.target in db.members && c.role.Some?
      && c.role.value != db.members[c.target].role
    case SelfDisable =>
      c.SetStatus? && c.actor == c.target && c.target in db.members && c.status == Disabled
      && db.members[c.target].status != Disabled
    case LastActiveAdmin => TakesAdminAway(c) && OnlyActiveAdmin(db, c.target)
    case ActorNotAuthorized =>
      c.actor in db.members && !(db.members[c.actor].role == Admin && db.members[c.actor].status == Active)
    case NotPendingApproval =>
      c.Approve? && c.target in db.members
      && (db.members[c.target].status == Active || db.members[c.target].status == Disabled)
    case UnknownSubRoleId => !c.SetStatus? && c.subRoleIds.Some? && NamesUnknown(c.subRoleIds.value, db.subRoles)
    case UnknownTagId => !c.SetStatus? && c.tagIds.Some? && NamesUnknown(c.tagIds.value, db.tags)
    case InvalidCredential(id) =>
      !c.SetStatus? && exists i: nat | i < |db.credentials| ::
        IsFirstInvalid(db.credentials, c.target, i) && db.credentials[i].id == id
  }

  /** The order in which faults are looked for. */
  function Rank(e: Error): nat {
    match e
    case EmptyDisplayName => 0
    case DuplicateSubRoleId => 1
    case DuplicateTagId => 2
    case UnsupportedStatus => 3
    case ProjectNotConfigured => 4
    case ActorNotFound => 5
    case TargetNotFound => 6
    case SelfPrimaryRoleChange => 7
    case SelfDisable => 8
    case LastActiveAdmin => 9
    case ActorNotAuthorized => 10
    case NotPendingApproval => 11
    case UnknownSubRoleId => 12
    case UnknownTagId => 13
    case InvalidCredential(_) => 14
  }

  ghost predicate IsFirstFault(db: Database, c: Command, e: Error) {
    Fault(db, c, e) && forall f | Fault(db, c, f) :: Rank(e) <= Rank(f)
  }

  lemma {:induction false} ShapeIsFirst(db: Database, c: Command, e: Error)
    ensures Shape(c) == Some(e) ==> Fault(db, c, e)
    ensures Shape(c) == Some(e) ==> forall f | Fault(db, c, f) :: Rank(e) <= Rank(f)
    ensures Shape(c).None? ==> (Fault(db, c, e) ==> Rank(e) >= 4)
  {
  }
  lemma {:induction false} OnlyOneAdmin(db: Database, id: Id)
    requires id in db.members
    ensures ActiveAdmin(db.members[id]) && |ActiveAdmins(db)| <= 1 <==> OnlyActiveAdmin(db, id)
  {
    if OnlyActiveAdmin(db, id) {
      assert ActiveAdmins(db) == {id};
    } else if ActiveAdmin(db.members[id]) {
      var other :| other in db.members && other != id && ActiveAdmin(db.members[other]);
      TwoAdmins(db, id, other);
    }
  }

  predicate InTransaction(e: Error) {
    7 <= Rank(e) <= 13
  }

  lemma {:induction false} RefusalIsFault(db: Database, c: Command, actor: Member, target: Member, e: Error)
    requires c.actor in db.members && actor == db.members[c.actor]
    requires c.target in db.members && target == db.members[c.target]
    requires Refusal(db, c, actor, target, true) == Some(e)
    ensures Fault(db, c, e) && InTransaction(e)
  {
    OnlyOneAdmin(db, c.target);
  }

  lemma {:induction false} FaultIsRefused(db: Database, c: Command, actor: Member, target: Member, f: Error)
    requires c.actor in db.members && actor == db.members[c.actor]
    requires c.target in db.members && target == db.members[c.target]
    requires Fault(db, c, f) && InTransaction(f)
    ensures var refusal := Refusal(db, c, actor, target, true); refusal.Some? && Rank(refusal.value) <= Rank(f)
  {
    OnlyOneAdmin(db, c.target);
  }

  lemma {:induction false} SameInvalid(k: Credential, owner: Id)
    ensures Concerns(k, owner) && Malformed(k) <==> IsInvalid(k, owner)
  {
  }

  lemma {:induction false} FirstInvalid(ok: Compatibility, ks: seq<Credential>, owner: Id, role: PrimaryRole)
    returns (i: nat)
    ensures Reconcile(ok, ks, owner, role).Failure? ==>
              IsFirstInvalid(ks, owner, i) && Reconcile(ok, ks, owner, role) == Failure(InvalidCredential(ks[i].id))
    ensures Reconcile(ok, ks, owner, role).Success? ==> forall j | 0 <= j < |ks| :: !IsInvalid(ks[j], owner)
  {
    i := 0;
    if ks != [] {
      SameInvalid(ks[0], owner);
      var k := FirstInvalid(ok, ks[1..], owner, role);
      if !IsInvalid(ks[0], owner) {
        i := k + 1;
        assert forall j | 1 <= j < |ks| :: ks[j] == ks[1..][j - 1];
      }
    }
  }

  lemma {:induction false} CredentialFault(db: Database, c: Command, target: Member, id: Id)
    ensures Fault(db, c, InvalidCredential(id)) <==>
            Credentials(c, target, db.credentials) == Failure(InvalidCredential(id))
    ensures Credentials(c, target, db.credentials).Failure? ==>
              Credentials(c, target, db.credentials).error.InvalidCredential?
  {
    if !c.SetStatus? {
      var i := FirstInvalid(ScopeIsRoleCompatible, db.credentials, c.target, Or(c.role, target.role));
      forall j: nat | IsFirstInvalid(db.credentials, c.target, j)
        ensures Credentials(c, target, db.credentials).Failure? && j == i
      {
      }
    }
  }

  lemma {:induction false} TransactionFault(db: Database, c: Command, e: Error)
    requires Shape(c).None? && db.configured && c.actor in db.members && c.target in db.members
    ensures Exec(db, c).1 == Failure(e) ==> Fault(db, c, e)
    ensures Fault(db, c, e) ==> Exec(db, c).1.Failure? && Rank(Exec(db, c).1.error) <= Rank(e)
  {
    var (actor, target) := (db.members[c.actor], db.members[c.target]);
    var refusal := Refusal(db, c, actor, target, true);
    ShapeIsFirst(db, c, e);
    if refusal.Some? {
      RefusalIsFault(db, c, actor, target, refusal.value);
    }
    if Fault(db, c, e) && InTransaction(e) {
      FaultIsRefused(db, c, actor, target, e);
    }
    if e.InvalidCredential? {
      CredentialFault(db, c, target, e.id);
    }
    if refusal.None? {
      CredentialFault(db, c, target, 0);
    }
  }

  lemma {:induction false} EarlyFault(db: Database, c: Command, e: Error)
    ensures Exec(db, c).1 == Failure(e) ==> Fault(db, c, e)
    ensures Fault(db, c, e) ==> Exec(db, c).1.Failure? && Rank(Exec(db, c).1.error) <= Rank(e)
  {
    if Shape(c).None? && db.configured && c.actor in db.members && c.target in db.members {
      TransactionFault(db, c, e);
    } else if Shape(c).Some? {
      ShapeIsFirst(db, c, Shape(c).value);
    } else {
      ShapeIsFirst(db, c, e);
    }
  }

  /** Every command fails with the first of its faults, whatever else is wrong with it, and succeeds exactly
      when nothing is. */
  lemma {:induction false} FailsWithFirstFault(db: Database, c: Command)
    ensures Exec(db, c).1.Failure? ==> IsFirstFault(db, c, Exec(db, c).1.error)
    ensures Exec(db, c).1.Success? <==> forall e :: !Fault(db, c, e)
  {
    forall e
      ensures Exec(db, c).1 == Failure(e) ==> Fault(db, c, e)
      ensures Fault(db, c, e) ==> Exec(db, c).1.Failure? && Rank(Exec(db, c).1.error) <= Rank(e)
    {
      EarlyFault(db, c, e);
    }
  }

  // ---- Interleaved transactions ---------------------------------------------------------

  /** How far a transaction has come; `work` is its own uncommitted view of the database. */
  datatype Phase =
    | Begun
    | Locked
    | ActorRead(actor: Member)
    | BothRead(actor: Member, target: Member)
    | Checked(target: Member)
    | UserRow(target: Member, work: Database)
    | Rows(target: Member, work: Database)
    | Ready(change: Change, work: Database)
    | Failing(error: Error)

  datatype Transaction = Transaction(command: Command, phase: Phase)

  /** A finished command; `answered` tells whether its caller learned the outcome. */
  datatype Entry = Entry(command: Command, outcome: Outcome, answered: bool)

  /** The committed database, the project row lock, the open transactions and the commands finished
      so far in the order they finished. */
  datatype System = System(db: Database, lock: Option<Id>, open: map<Id, Transaction>, log: seq<Entry>)

  datatype Action = Begin(tx: Id, command: Command) | Advance(tx: Id) | Break(tx: Id) | LoseAnswer(tx: Id)

  predicate Working(p: Phase) {
    !p.Begun? && !p.Ready? && !p.Failing?
  }

  /** One statement of a transaction that holds the lock. */
  function Work(db: Database, c: Command, p: Phase): Phase
    requires Working(p)
  {
    match p
    case Locked => if c.actor in db.members then ActorRead(db.members[c.actor]) else Failing(ActorNotFound)
    case ActorRead(actor) =>
      if c.target in db.members then BothRead(actor, db.members[c.target]) else Failing(TargetNotFound)
    case BothRead(actor, target) =>
      var refusal := Refusal(db, c, actor, target, true);
      if refusal.Some? then Failing(refusal.value) else Checked(target)
    case Checked(target) => UserRow(target, db.(members := db.members[c.target := Written(c, target)]))
    case UserRow(target, work) =>
      if c.target !in work.members then Failing(TargetNotFound)
      else Rows(target, work.(members := work.members[c.target := Assigned(c, work.members[c.target])]))
    case Rows(target, work) =>
      var ks := Credentials(c, target, work.credentials);
      if ks.Failure? then Failing(ks.error)
      else if c.target !in work.members then Failing(TargetNotFound)
      else
        var after := work.members[c.target];
        Ready(Change(target, after, Elevates(c, target), AudienceChanged(c, target, after), ks.value.revoked),
              work.(credentials := ks.value.credentials))
  }

  function Close(s: System, tx: Id, db: Database, log: seq<Entry>): System {
    System(db, if s.lock == Some(tx) then None else s.lock, s.open - {tx}, log)
  }

  /** One step of the system: a command is checked and opens a transaction; a transaction takes the
      lock, works, commits or rolls back; or its connection breaks, which rolls it back unanswered, or
      breaks just as it finishes, so that it takes effect but nobody learns the outcome. */
  function Apply(s: System, a: Action): Option<System> {
    match a
    case Begin(tx, c) =>
      if tx in s.open then None
      else if Shape(c).Some? then Some(s.(log := s.log + [Entry(c, Failure(Shape(c).value), true)]))
      else Some(s.(open := s.open[tx := Transaction(c, Begun)]))
    case Break(tx) => if tx in s.open then Some(Close(s, tx, s.db, s.log)) else None
    case LoseAnswer(tx) =>
      if tx !in s.open then None
      else
        (match s.open[tx].phase
         case Ready(change, work) => Some(Close(s, tx, work,
                                                s.log + [Entry(s.open[tx].command, Success(change), false)]))
         case Failing(e) => Some(Close(s, tx, s.db, s.log + [Entry(s.open[tx].command, Failure(e), false)]))
         case _ => None)
    case Advance(tx) =>
      if tx !in s.open then None
      else
        var (c, p) := (s.open[tx].command, s.open[tx].phase);
        match p
        case Begun =>
          if !s.db.configured then Some(s.(open := s.open[tx := Transaction(c, Failing(ProjectNotConfigured))]))
          else if s.lock.Some? then None
          else Some(s.(lock := Some(tx), open := s.open[tx := Transaction(c, Locked)]))
        case Ready(change, work) => Some(Close(s, tx, work, s.log + [Entry(c, Success(change), true)]))
        case Failing(e) => Some(Close(s, tx, s.db, s.log + [Entry(c, Failure(e), true)]))
        case _ => Some(s.(open := s.open[tx := Transaction(c, Work(s.db, c, p))]))
  }

  function Start(db: Database): System {
    System(db, None, map[], [])
  }

  // ---- Serializability ------------------------------------------------------------------

  /** The database after the logged commands run one at a time, if each gives the logged answer. */
  function Replay(db: Database, log: seq<Entry>): Option<Database>
    decreases |log|
  {
    if log == [] then Some(db)
    else if Exec(db, log[0].command).1 != log[0].outcome then None
    else Replay(Exec(db, log[0].command).0, log[1..])
  }

  lemma {:induction false} ReplayAppend(db: Database, log: seq<Entry>, now: Database, entry: Entry, next: Database)
    requires Replay(db, log) == Some(now) && Exec(now, entry.command) == (next, entry.outcome)
    ensures Replay(db, log + [entry]) == Some(next)
    decreases |log|
  {
    if log == [] {
      assert [entry][1..] == [];
      assert log + [entry] == [entry];
      assert Replay(next, []) == Some(next);
    } else {
      ReplayAppend(Exec(db, log[0].command).0, log[1..], now, entry, next);
      assert (log + [entry])[1..] == log[1..] + [entry];
    }
  }

  predicate Passed(db: Database, c: Command, target: Member) {
    && db.configured && c.actor in db.members && c.target in db.members && target == db.members[c.target]
    && Refusal(db, c, db.members[c.actor], target, true).None?
  }

  /** What a transaction knows is true of the committed database. */
  predicate Sound(db: Database, c: Command, p: Phase) {
    && Shape(c).None?
    && match p
       case Begun => true
       case Locked => db.configured
       case ActorRead(actor) => db.configured && c.actor in db.members && actor == db.members[c.actor]
       case BothRead(actor, target) =>
         && db.configured && c.actor in db.members && actor == db.members[c.actor]
         && c.target in db.members && target == db.members[c.target]
       case Checked(target) => Passed(db, c, target)
       case UserRow(target, work) => Passed(db, c, target) && work == UserWritten(db, c, target)
       case Rows(target, work) => Passed(db, c, target) && work == RowsWritten(db, c, target)
       case Ready(change, work) => Perform(db, c, true) == (work, Success(change))
       case Failing(e) => Perform(db, c, true) == (db, Failure(e))
  }

  lemma {:induction false} WorkIsSound(db: Database, c: Command, p: Phase)
    requires Working(p) && Sound(db, c, p)
    ensures Sound(db, c, Work(db, c, p)) && !Work(db, c, p).Begun? && Work(db, c, p) != Failing(ProjectNotConfigured)
  {
  }

  predicate HoldsLock(p: Phase) {
    !p.Begun? && p != Failing(ProjectNotConfigured)
  }

  predicate SoundIn(s: System, tx: Id)
    requires tx in s.open
  {
    && Sound(s.db, s.open[tx].command, s.open[tx].phase)
    && (HoldsLock(s.open[tx].phase) <==> s.lock == Some(tx))
  }

  predicate Consistent(s: System) {
    && (forall tx | tx in s.open :: SoundIn(s, tx))
    && (s.lock.Some? ==> s.lock.value in s.open)
  }

  ghost predicate Serial(start: Database, s: System) {
    Consistent(s) && Replay(start, s.log) == Some(s.db)
  }

  lemma {:induction false} BeginIsSerial(start: Database, s: System, a: Action)
    requires Serial(start, s) && a.Begin? && Apply(s, a).Some?
    ensures Serial(start, Apply(s, a).value)
  {
    var n := Apply(s, a).value;
    if Shape(a.command).Some? {
      ReplayAppend(start, s.log, s.db, Entry(a.command, Failure(Shape(a.command).value), true), s.db);
    } else {
      forall tx | tx in n.open
        ensures SoundIn(n, tx)
      {
        assert tx != a.tx ==> SoundIn(s, tx);
      }
    }
  }

  /** Closing a transaction leaves the others sound: none of them holds the lock if the database
      changes, and the rest know nothing of it but whether a project is configured. */
  lemma {:induction false} CloseIsConsistent(s: System, tx: Id, db: Database, log: seq<Entry>)
    requires Consistent(s) && tx in s.open
    requires db != s.db ==> s.lock == Some(tx) && db.configured == s.db.configured
    ensures Consistent(Close(s, tx, db, log))
  {
    var n := Close(s, tx, db, log);
    forall other | other in n.open
      ensures SoundIn(n, other)
    {
      assert SoundIn(s, other);
    }
    if s.lock.Some? && s.lock != Some(tx) {
      assert s.lock.value in n.open;
    }
  }

  lemma {:induction false} FinishIsSerial(start: Database, s: System, tx: Id, answered: bool)
    requires Serial(start, s) && tx in s.open && (s.open[tx].phase.Ready? || s.open[tx].phase.Failing?)
    ensures Serial(start, Apply(s, if answered then Advance(tx) else LoseAnswer(tx)).value)
  {
    var (c, p) := (s.open[tx].command, s.open[tx].phase);
    assert SoundIn(s, tx);
    var db := Exec(s.db, c).0;
    OnlyTheTargetChanges(s.db, c);
    var entry := Entry(c, Exec(s.db, c).1, answered);
    CloseIsConsistent(s, tx, db, s.log + [entry]);
    ReplayAppend(start, s.log, s.db, entry, db);
  }

  lemma {:induction false} BreakIsSerial(start: Database, s: System, tx: Id)
    requires Serial(start, s) && tx in s.open
    ensures Serial(start, Close(s, tx, s.db, s.log))
  {
    CloseIsConsistent(s, tx, s.db, s.log);
  }

  lemma {:induction false} WorkIsSerial(start: Database, s: System, tx: Id)
    requires Serial(start, s) && tx in s.open && Working(s.open[tx].phase)
    ensures Serial(start, Apply(s, Advance(tx)).value)
  {
    var n := Apply(s, Advance(tx)).value;
    assert SoundIn(s, tx);
    WorkIsSound(s.db, s.open[tx].command, s.open[tx].phase);
    forall other | other in n.open
      ensures SoundIn(n, other)
    {
      assert SoundIn(s, other);
    }
  }

  lemma {:induction false} LockIsSerial(start: Database, s: System, tx: Id)
    requires Serial(start, s) && tx in s.open && s.open[tx].phase.Begun? && Apply(s, Advance(tx)).Some?
    ensures Serial(start, Apply(s, Advance(tx)).value)
  {
    var n := Apply(s, Advance(tx)).value;
    assert SoundIn(s, tx);
    forall other | other in n.open
      ensures SoundIn(n, other)
    {
      assert SoundIn(s, other);
    }
  }

  lemma {:induction false} StepIsSerial(start: Database, s: System, a: Action)
    requires Serial(start, s) && Apply(s, a).Some?
    ensures Serial(start, Apply(s, a).value)
  {
    match a {
      case Begin(_, _) => BeginIsSerial(start, s, a);
      case Break(tx) => BreakIsSerial(start, s, tx);
      case LoseAnswer(tx) => FinishIsSerial(start, s, tx, false);
      case Advance(tx) =>
        var p := s.open[tx].phase;
        if p.Begun? {
          LockIsSerial(start, s, tx);
        } else if Working(p) {
          WorkIsSerial(start, s, tx);
        } else {
          FinishIsSerial(start, s, tx, true);
        }
    }
  }

  lemma {:induction false} RunIsSerial(start: Database, s: System, actions: seq<Action>)
    requires Serial(start, s) && Run(Apply, s, actions).Some?
    ensures Serial(start, Run(Apply, s, actions).value)
    decreases |actions|
  {
    if actions != [] {
      StepIsSerial(start, s, actions[0]);
      RunIsSerial(start, Apply(s, actions[0]).value, actions[1..]);
    }
  }

  ghost predicate Reaches(start: Database, actions: seq<Action>, s: System) {
    Run(Apply, Start(start), actions) == Some(s)
  }

  /** Whatever the interleaving, the committed database and every outcome are those of running the
      finished commands one after the other in the order they finished, whether or not the answer
      got through. */
  lemma {:induction false} EveryInterleavingIsSerial(start: Database, actions: seq<Action>, s: System)
    requires Reaches(start, actions, s)
    ensures Replay(start, s.log) == Some(s.db)
  {
    RunIsSerial(start, Start(start), actions);
  }

  // ---- Safety over all interleavings ----------------------------------------------------

  lemma {:induction false} ReplayKeepsAnAdmin(db: Database, log: seq<Entry>)
    requires ActiveAdmins(db) != {} && Replay(db, log).Some?
    ensures ActiveAdmins(Replay(db, log).value) != {}
    decreases |log|
  {
    if log != [] {
      AdminRemains(db, log[0].command);
      ReplayKeepsAnAdmin(Exec(db, log[0].command).0, log[1..]);
    }
  }

  /** A project that starts with an active admin has one at every moment of every interleaving. */
  lemma {:induction false} AnAdminAlwaysRemains(start: Database, actions: seq<Action>, s: System)
    requires Reaches(start, actions, s) && ActiveAdmins(start) != {}
    ensures ActiveAdmins(s.db) != {}
  {
    EveryInterleavingIsSerial(start, actions, s);
    ReplayKeepsAnAdmin(start, s.log);
  }

  /** How many finished commands move the session version of `id`. */
  function BumpsIn(log: seq<Entry>, id: Id): nat
    decreases |log|
  {
    if log == [] then 0 else Bump(log[0].command, log[0].outcome, id) + BumpsIn(log[1..], id)
  }

  lemma {:induction false} ReplayCountsBumps(db: Database, log: seq<Entry>, id: Id)
    requires id in db.members && Replay(db, log).Some?
    ensures var n := Replay(db, log).value;
            && n.members.Keys == db.members.Keys
            && n.members[id].sessionVersion == db.members[id].sessionVersion + BumpsIn(log, id)
    decreases |log|
  {
    if log != [] {
      SessionVersionIsExact(db, log[0].command, id);
      OnlyTheTargetChanges(db, log[0].command);
      ReplayCountsBumps(Exec(db, log[0].command).0, log[1..], id);
    }
  }

  /** In every interleaving a member's session version has grown by exactly the number of
      elevations, real status changes and approvals finished with success for that member. */
  lemma {:induction false} SessionVersionsCountChanges(start: Database, actions: seq<Action>, s: System, id: Id)
    requires Reaches(start, actions, s) && id in start.members
    ensures id in s.db.members
    ensures s.db.members[id].sessionVersion == start.members[id].sessionVersion + BumpsIn(s.log, id)
  {
    EveryInterleavingIsSerial(start, actions, s);
    ReplayCountsBumps(start, s.log, id);
  }

  lemma {:induction false} FailuresReplayToNothing(db: Database, log: seq<Entry>)
    requires Replay(db, log).Some? && forall i | 0 <= i < |log| :: log[i].outcome.Failure?
    ensures Replay(db, log).value == db
    decreases |log|
  {
    if log != [] {
      OnlyTheTargetChanges(db, log[0].command);
      FailuresReplayToNothing(db, log[1..]);
    }
  }

  /** Failed, refused and broken transactions leave no trace, however they interleave. */
  lemma {:induction false} FailuresChangeNothing(start: Database, actions: seq<Action>, s: System)
    requires Reaches(start, actions, s) && forall i | 0 <= i < |s.log| :: s.log[i].outcome.Failure?
    ensures s.db == start
  {
    EveryInterleavingIsSerial(start, actions, s);
    FailuresReplayToNothing(start, s.log);
  }

  // ---- The repository object ------------------------------------------------------------

  method CheckUnique(ids: seq<Id>) returns (unique: bool)
    ensures unique == AllUnique(ids)
  {
    var seen := {};
    for i := 0 to |ids|
      invariant seen == IdSet(ids[..i])
      invariant AllUnique(ids[..i])
    {
      assert ids[..i + 1] == ids[..i] + [ids[i]];
      if ids[i] in seen {
        return false;
      }
      seen := seen + {ids[i]};
    }
    assert ids[..|ids|] == ids;
    unique := true;
  }

  method IsBlank(name: Option<string>) returns (blank: bool)
    ensures blank <==> name.Some? && Blank(name.value)
  {
    if name.None? {
      return false;
    }
    Text.StripsToNothing(Text.IsWhitespace, name.value);
    blank := Text.Trim(name.value) == "";
  }

  method CheckKnown(ids: seq<Id>, rows: set<Id>) returns (known: bool)
    ensures known == Known(Some(ids), rows)
  {
    for i := 0 to |ids|
      invariant forall j | 0 <= j < i :: ids[j] in rows
    {
      if ids[i] !in rows {
        return false;
      }
    }
    known := true;
  }

  method ValidateAssignmentShape(subRoleIds: Option<seq<Id>>, tagIds: Option<seq<Id>>) returns (e: Option<Error>)
    ensures e == AssignmentShape(subRoleIds, tagIds)
  {
    if subRoleIds.Some? {
      var unique := CheckUnique(subRoleIds.value);
      if !unique {
        return Some(DuplicateSubRoleId);
      }
    }
    if tagIds.Some? {
      var unique := CheckUnique(tagIds.value);
      if !unique {
        return Some(DuplicateTagId);
      }
    }
    e := None;
  }

  method ValidateAssignmentRows(db: Database, subRoleIds: Option<seq<Id>>,
                                tagIds: Option<seq<Id>>) returns (e: Option<Error>)
    ensures e == AssignmentRows(db, subRoleIds, tagIds)
  {
    if subRoleIds.Some? {
      var known := CheckKnown(subRoleIds.value, db.subRoles);
      if !known {
        return Some(UnknownSubRoleId);
      }
    }
    if tagIds.Some? {
      var known := CheckKnown(tagIds.value, db.tags);
      if !known {
        return Some(UnknownTagId);
      }
    }
    e := None;
  }

  function Prepend(done: Reconciled, rest: Result<Reconciled, Error>): Result<Reconciled, Error> {
    if rest.Failure? then rest
    else Success(Reconciled(done.credentials + rest.value.credentials, done.revoked + rest.value.revoked))
  }

  lemma {:induction false} Regroup<T>(a: seq<T>, x: T, b: seq<T>)
    ensures (a + [x]) + b == a + ([x] + b)
  {
  }

  lemma {:induction false} PrependOne(done: Reconciled, ks: seq<Credential>, owner: Id, role: PrimaryRole)
    requires ks != [] && !(Concerns(ks[0], owner) && Malformed(ks[0]))
    ensures var k := ks[0];
            var next := if MustRevoke(ScopeIsRoleCompatible, k, owner, role)
                        then Reconciled(done.credentials + [k.(revoked := true)], done.revoked + [k.id])
                        else Reconciled(done.credentials + [k], done.revoked);
            Prepend(next, Reconcile(ScopeIsRoleCompatible, ks[1..], owner, role))
            == Prepend(done, Reconcile(ScopeIsRoleCompatible, ks, owner, role))
  {
    var rest := Reconcile(ScopeIsRoleCompatible, ks[1..], owner, role);
    if rest.Success? {
      var k := if MustRevoke(ScopeIsRoleCompatible, ks[0], owner, role) then ks[0].(revoked := true) else ks[0];
      Regroup(done.credentials, k, rest.value.credentials);
      Regroup(done.revoked, ks[0].id, rest.value.revoked);
    }
  }

  lemma {:induction false} PrependNothing(rest: Result<Reconciled, Error>)
    ensures Prepend(Reconciled([], []), rest) == rest
  {
    if rest.Success? {
      assert [] + rest.value.credentials == rest.value.credentials && [] + rest.value.revoked == rest.value.revoked;
    }
  }

  method ReconcileCredentialPolicy(ks: seq<Credential>, owner: Id, role: PrimaryRole) returns (r: Result<Reconciled,
                                   Error>)
    ensures r == Reconcile(ScopeIsRoleCompatible, ks, owner, role)
  {
    var done := Reconciled([], []);
    assert ks[0..] == ks;
    PrependNothing(Reconcile(ScopeIsRoleCompatible, ks, owner, role));
    for i := 0 to |ks|
      invariant Prepend(done, Reconcile(ScopeIsRoleCompatible, ks[i..], owner, role))
                == Reconcile(ScopeIsRoleCompatible, ks, owner, role)
    {
      var k := ks[i];
      assert ks[i..][0] == k && ks[i..][1..] == ks[i + 1..];
      if Concerns(k, owner) && Malformed(k) {
        return Failure(InvalidCredential(k.id));
      }
      PrependOne(done, ks[i..], owner, role);
      if Concerns(k, owner) && Incompatible(ScopeIsRoleCompatible, role, k) {
        done := Reconciled(done.credentials + [k.(revoked := true)], done.revoked + [k.id]);
      } else {
        done := Reconciled(done.credentials + [k], done.revoked);
      }
    }
    assert done.credentials + [] == done.credentials && done.revoked + [] == done.revoked;
    r := Success(done);
  }

  /** Writes the user row, then the assignment rows, then the credential pass; gives the original
      database back when that fails. */
  method Store(db: Database, c: Command, target: Member) returns (work: Database, r: Outcome)
    requires !c.SetStatus?
    ensures (work, r) == WriteRows(db, c, target)
  {
    work := db.(members := db.members[c.target := Written(c, target)]);
    work := work.(members := work.members[c.target := Assigned(c, work.members[c.target])]);
    assert work == RowsWritten(db, c, target);
    var ks := ReconcileCredentialPolicy(work.credentials, c.target, Or(c.role, target.role));
    if ks.Failure? {
      return db, Failure(ks.error);
    }
    var after := work.members[c.target];
    work := work.(credentials := ks.value.credentials);
    r := Success(Change(target, after, Elevates(c, target), AudienceChanged(c, target, after), ks.value.revoked));
  }

  /** The repository run without interference: each command works on a private copy that replaces
      the committed database only when it commits. */
  class MemberAccessRepo {
    var db: Database

    constructor (start: Database)
      ensures db == start
    {
      db := start;
    }

    method UpdateAccessProfile(c: Command) returns (r: Outcome)
      requires c.UpdateProfile?
      modifies this
      ensures (db, r) == Exec(old(db), c)
    {
      var blank := IsBlank(c.displayName);
      if blank {
        return Failure(EmptyDisplayName);
      }
      var shape := ValidateAssignmentShape(c.subRoleIds, c.tagIds);
      if shape.Some? {
        return Failure(shape.value);
      }
      var tx := db;
      if !tx.configured {
        return Failure(ProjectNotConfigured);
      }
      if c.actor !in tx.members {
        return Failure(ActorNotFound);
      }
      if c.target !in tx.members {
        return Failure(TargetNotFound);
      }
      var actor, target := tx.members[c.actor], tx.members[c.target];
      var nextRole := Or(c.role, target.role);
      if c.actor == c.target && nextRole != target.role {
        return Failure(SelfPrimaryRoleChange);
      }
      if ActiveAdmin(target) && !nextRole.Admin? && |ActiveAdmins(tx)| <= 1 {
        return Failure(LastActiveAdmin);
      }
      if !ActiveAdmin(actor) {
        return Failure(ActorNotAuthorized);
      }
      var rows := ValidateAssignmentRows(tx, c.subRoleIds, c.tagIds);
      if rows.Some? {
        return Failure(rows.value);
      }
      db, r := Store(tx, c, target);
    }

    method ApproveMember(c: Command) returns (r: Outcome)
      requires c.Approve?
      modifies this
      ensures (db, r) == Exec(old(db), c)
    {
      var shape := ValidateAssignmentShape(c.subRoleIds, c.tagIds);
      if shape.Some? {
        return Failure(shape.value);
      }
      var tx := db;
      if !tx.configured {
        return Failure(ProjectNotConfigured);
      }
      if c.actor !in tx.members {
        return Failure(ActorNotFound);
      }
      if c.target !in tx.members {
        return Failure(TargetNotFound);
      }
      var actor, target := tx.members[c.actor], tx.members[c.target];
      if !ActiveAdmin(actor) {
        return Failure(ActorNotAuthorized);
      }
      if !target.status.Pending? && !target.status.Invited? {
        return Failure(NotPendingApproval);
      }
      var rows := ValidateAssignmentRows(tx, c.subRoleIds, c.tagIds);
      if rows.Some? {
        return Failure(rows.value);
      }
      db, r := Store(tx, c, target);
    }

    method SetMemberStatus(c: Command) returns (r: Outcome)
      requires c.SetStatus?
      modifies this
      ensures (db, r) == Exec(old(db), c)
    {
      if Shape(c).Some? {
        return Failure(UnsupportedStatus);
      }
      var tx := db;
      if !tx.configured {
        return Failure(ProjectNotConfigured);
      }
      if c.actor !in tx.members {
        return Failure(ActorNotFound);
      }
      if c.target !in tx.members {
        return Failure(TargetNotFound);
      }
      var actor, target := tx.members[c.actor], tx.members[c.target];
      if c.actor == c.target && c.status.Disabled? && !target.status.Disabled? {
        return Failure(SelfDisable);
      }
      if ActiveAdmin(target) && !c.status.Active? && |ActiveAdmins(tx)| <= 1 {
        return Failure(LastActiveAdmin);
      }
      if !ActiveAdmin(actor) {
        return Failure(ActorNotAuthorized);
      }
      if target.status != c.status {
        tx := tx.(members := tx.members[c.target := Written(c, target)]);
      }
      assert tx == RowsWritten(db, c, target) by {
        assert db.members[c.target := target] == db.members;
      }
      var after := tx.members[c.target];
      db := tx;
      r := Success(Change(target, after, false, target.status != c.status, []));
    }
  }
}
