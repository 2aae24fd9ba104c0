// Who belongs to a workspace and how they came to: workspaces, memberships,
// invitations, and the requests that change them.
module Collaboration {
  import opened Basics

  datatype Role = Owner | Editor | Viewer

  /** Personal workspaces are named after their tenant and person; shared ones get a new id. */
  datatype WorkspaceId = PersonalOf(tenant: Id, person: Id) | Shared(id: Id)

  datatype Workspace = Workspace(tenant: Id, personal: bool, local: bool, version: int)

  datatype Seat = Seat(workspace: WorkspaceId, actor: Id)

  datatype Status = Pending | Accepted | Declined | Revoked | Expired

  datatype Invitation = Invitation(
    workspace: WorkspaceId, target: Id, role: Role, status: Status, createdBy: Id, createdAt: int, expiresAt: int,
      version: int)

  datatype State = State(
    workspaces: map<WorkspaceId, Workspace>, members: map<Seat, Role>, invitations: map<Id, Invitation>)

  datatype Actor = Actor(id: Id, tenant: Id, agent: bool)

  datatype Error =
    | Missing | OwnerRequired | PersonalWorkspace | ApprovalRequired | InvalidInput | TenantSelectionRequired
    | VersionRequired | VersionConflict | LastOwner | InvitationUnavailable | AlreadyMember | InvitationExists
    | LocalWorkspace | DuplicateKey

  /** `expected` is the version the caller has seen; the `Ok` flags say whether the texts are well formed. */
  datatype Request =
    | CreateWorkspace(newId: Id, scopeOk: bool, nameOk: bool)
    | RenameWorkspace(w: WorkspaceId, nameOk: bool, expected: Option<int>)
    | ChangeRole(w: WorkspaceId, target: Id, role: Option<Role>, expected: Option<int>)
    | RemoveMember(w: WorkspaceId, target: Id, expected: Option<int>)
    | Leave(w: WorkspaceId, expected: Option<int>)
    | Invite(w: WorkspaceId, target: Id, targetOk: bool, role: Option<Role>, newId: Id, expected: Option<int>)
    | RevokeInvitation(w: WorkspaceId, id: Id, expected: Option<int>)
    | Answer(id: Id, accept: bool, expected: Option<int>)
    | ProvisionPersonal

  const LOCAL_OWNER: Id := "local-owner"
  const SEVEN_DAYS: int := 7 * 24 * 3600

  // ---- Questions asked of the tables ----

  function RoleOf(s: State, w: WorkspaceId, actor: Id): Option<Role> {
    if Seat(w, actor) in s.members then Some(s.members[Seat(w, actor)]) else None
  }

  predicate InTenant(s: State, actor: Actor, w: WorkspaceId) {
    w in s.workspaces && s.workspaces[w].tenant != "" && s.workspaces[w].tenant == actor.tenant
  }

  predicate Authorized(s: State, actor: Actor, w: WorkspaceId) {
    InTenant(s, actor, w) && RoleOf(s, w, actor.id).Some?
  }

  function OwnerCheck(s: State, actor: Actor, w: WorkspaceId): Option<Error> {
    if !Authorized(s, actor, w) then Some(Missing)
    else if actor.agent || RoleOf(s, w, actor.id) != Some(Owner) then Some(OwnerRequired)
    else None
  }

  function VersionCheck(expected: Option<int>, current: int): Option<Error> {
    match expected
    case None => Some(VersionRequired)
    case Some(n) => if n != current then Some(VersionConflict) else None
  }

  /** How an invitation reads at a moment. */
  function ShownStatus(i: Invitation, now: int): Status {
    if i.status == Pending && i.expiresAt < now then Expired else i.status
  }

  function Owners(s: State, w: WorkspaceId): set<Seat> {
    set seat | seat in s.members && seat.workspace == w && s.members[seat] == Owner
  }

  predicate OpenInvitation(s: State, w: WorkspaceId, target: Id, now: int) {
    exists id :: id in s.invitations && s.invitations[id].workspace == w && s.invitations[id].target == target
      && s.invitations[id].status == Pending && s.invitations[id].expiresAt > now
  }

  /** What is checked before anything else, replayed responses included. */
  function RouteCheck(s: State, actor: Actor, r: Request, now: int): Option<Error> {
    match r
    case RenameWorkspace(w, _, _) => OwnerCheck(s, actor, w)
    case ChangeRole(w, _, _, _) => OwnerCheck(s, actor, w)
    case RemoveMember(w, _, _) => OwnerCheck(s, actor, w)
    case Invite(w, _, _, _, _, _) => OwnerCheck(s, actor, w)
    case RevokeInvitation(w, _, _) => OwnerCheck(s, actor, w)
    case Answer(id, accept, _) =>
      if id !in s.invitations then Some(Missing)
      else
        var i := s.invitations[id];
        var status := ShownStatus(i, now);
        if actor.agent || i.target != actor.id then Some(Missing)
        else if !InTenant(s, actor, i.workspace) then Some(Missing)
        else if status == Revoked || status == Expired || (accept && status == Declined)
        then Some(InvitationUnavailable)
        else if status == Accepted && !Authorized(s, actor, i.workspace) then Some(Missing)
        else None
    case _ => None
  }

  function WorkspaceCheck(s: State, actor: Actor, w: WorkspaceId, expected: Option<int>): Option<Error> {
    if !Authorized(s, actor, w) then Some(Missing)
    else if s.workspaces[w].personal then Some(PersonalWorkspace)
    else VersionCheck(expected, s.workspaces[w].version)
  }

  // ---- What each request does to the tables ----

  datatype Outcome = Done(state: State) | Failed(error: Error)

  function Saved(s: State, w: WorkspaceId): State
    requires w in s.workspaces
  {
    s.(workspaces := s.workspaces[w := s.workspaces[w].(version := s.workspaces[w].version + 1)])
  }

  function Withdrawn(i: Invitation): Invitation {
    i.(status := Revoked, version := i.version + 1)
  }

  /** Open and accepted invitations of a person to a workspace end. */
  function EndedFor(invs: map<Id, Invitation>, w: WorkspaceId, target: Id): map<Id, Invitation> {
    map id | id in invs ::
      if invs[id].workspace == w && invs[id].target == target &&
        (invs[id].status == Pending || invs[id].status == Accepted)
      then Withdrawn(invs[id]) else invs[id]
  }

  /** Open invitations a person sent end. */
  function EndedBy(invs: map<Id, Invitation>, w: WorkspaceId, sender: Id): map<Id, Invitation> {
    map id | id in invs ::
      if invs[id].workspace == w && invs[id].createdBy == sender && invs[id].status == Pending
      then Withdrawn(invs[id]) else invs[id]
  }

  /** A new role for a member, or None to end the membership. */
  function Changed(s: State, w: WorkspaceId, target: Id, next: Option<Role>): Outcome
    requires w in s.workspaces
  {
    var previous := RoleOf(s, w, target);
    if previous == None then Failed(Missing)
    else if previous == Some(Owner) && next != Some(Owner) && |Owners(s, w)| <= 1 then Failed(LastOwner)
    else
      var members := if next.Some? then s.members[Seat(w, target) := next.value] else s.members - {Seat(w, target)};
      var ended := if next.Some? then s.invitations else EndedFor(s.invitations, w, target);
      var invitations := if next != Some(Owner) then EndedBy(ended, w, target) else ended;
      Done(Saved(State(s.workspaces, members, invitations), w))
  }

  function Invited(s: State, actor: Actor, r: Request, now: int): Outcome
    requires r.Invite? && r.w in s.workspaces
  {
    if s.workspaces[r.w].local then Failed(LocalWorkspace)
    else if !r.targetOk then Failed(InvalidInput)
    else if RoleOf(s, r.w, r.target).Some? then Failed(AlreadyMember)
    else if r.role != Some(Editor) && r.role != Some(Viewer) then Failed(InvalidInput)
    else if OpenInvitation(s, r.w, r.target, now) then Failed(InvitationExists)
    else if r.newId in s.invitations then Failed(DuplicateKey)
    else
      var i := Invitation(r.w, r.target, r.role.value, Pending, actor.id, now, now + SEVEN_DAYS, 1);
      Done(Saved(s.(invitations := s.invitations[r.newId := i]), r.w))
  }

  function InvitationWithdrawn(s: State, w: WorkspaceId, id: Id, now: int): Outcome
    requires w in s.workspaces
  {
    if id !in s.invitations || s.invitations[id].workspace != w then Failed(Missing)
    else
      var status := ShownStatus(s.invitations[id], now);
      if status != Pending && status != Expired then Failed(InvitationUnavailable)
      else Done(Saved(s.(invitations := s.invitations[id := Withdrawn(s.invitations[id])]), w))
  }

  function Answered(s: State, actor: Actor, r: Request, now: int): Outcome
    requires r.Answer? && r.id in s.invitations && s.invitations[r.id].workspace in s.workspaces
  {
    var i := s.invitations[r.id];
    var w := i.workspace;
    if VersionCheck(r.expected, i.version).Some? then Failed(VersionCheck(r.expected, i.version).value)
    else if ShownStatus(i, now) != Pending then Failed(InvitationUnavailable)
    else if s.workspaces[w].personal then Failed(PersonalWorkspace)
    else if RoleOf(s, w, i.createdBy) != Some(Owner) then Failed(InvitationUnavailable)
    else if r.accept && RoleOf(s, w, actor.id).Some? then Failed(AlreadyMember)
    else
      var members := if r.accept then s.members[Seat(w, actor.id) := i.role] else s.members;
      var done := i.(status := if r.accept then Accepted else Declined, version := i.version + 1);
      Done(Saved(State(s.workspaces, members, s.invitations[r.id := done]), w))
  }

  function Created(s: State, actor: Actor, r: Request): Outcome
    requires r.CreateWorkspace?
  {
    if !r.scopeOk then Failed(InvalidInput)
    else if actor.tenant == "" then Failed(TenantSelectionRequired)
    else if !r.nameOk then Failed(InvalidInput)
    else if Shared(r.newId) in s.workspaces || Seat(Shared(r.newId), actor.id) in s.members then Failed(DuplicateKey)
    else
      var w := Workspace(actor.tenant, false, actor.id == LOCAL_OWNER, 1);
      Done(s.(workspaces := s.workspaces[Shared(r.newId) := w],
              members := s.members[Seat(Shared(r.newId), actor.id) := Owner]))
  }

  /** Both inserts ignore rows that are already there. */
  function Provisioned(s: State, actor: Actor): Outcome {
    if actor.tenant == "" then Failed(TenantSelectionRequired)
    else
      var w := PersonalOf(actor.tenant, actor.id);
      var workspaces := if w in s.workspaces then s.workspaces
        else s.workspaces[w := Workspace(actor.tenant, true, false, 1)];
      var members := if Seat(w, actor.id) in s.members then s.members else s.members[Seat(w, actor.id) := Owner];
      Done(s.(workspaces := workspaces, members := members))
  }

  /** One request, run alone; a refused request changes nothing. */
  function Apply(s: State, actor: Actor, r: Request, now: int): Outcome {
    if r.ProvisionPersonal? then Provisioned(s, actor)
    else if actor.agent then Failed(ApprovalRequired)
    else if RouteCheck(s, actor, r, now).Some? then Failed(RouteCheck(s, actor, r, now).value)
    else if r.CreateWorkspace? then Created(s, actor, r)
    else if r.Answer? then Answered(s, actor, r, now)
    else if WorkspaceCheck(s, actor, r.w, r.expected).Some? then Failed(WorkspaceCheck(s, actor, r.w, r.expected).value)
    else
      match r
      case RenameWorkspace(w, nameOk, _) => if nameOk then Done(Saved(s, w)) else Failed(InvalidInput)
      case ChangeRole(w, target, role, _) => if role == None then Failed(InvalidInput) else Changed(s, w, target, role)
      case RemoveMember(w, target, _) => Changed(s, w, target, None)
      case Leave(w, _) => Changed(s, w, actor.id, None)
      case Invite(_, _, _, _, _, _) => Invited(s, actor, r, now)
      case RevokeInvitation(w, id, _) => InvitationWithdrawn(s, w, id, now)
  }

  /** The tables hold what the outcome says, or nothing changed and the error is reported. */
  ghost predicate Ended(before: State, o: Outcome, after: State, e: Option<Error>) {
    match o
    case Done(s) => e == None && after == s
    case Failed(x) => e == Some(x) && after == before
  }

  // ---- The tables, and the statements that change them ----

  class Store {
    var workspaces: map<WorkspaceId, Workspace>
    var members: map<Seat, Role>
    var invitations: map<Id, Invitation>

    constructor ()
      ensures Now() == State(map[], map[], map[])
    {
      workspaces, members, invitations := map[], map[], map[];
    }

    /** What the three tables hold. */
    function Now(): State
      reads this
    {
      State(workspaces, members, invitations)
    }

    method SaveWorkspace(w: WorkspaceId)
      requires w in workspaces
      modifies this
      ensures Now() == Saved(old(Now()), w)
    {
      workspaces := workspaces[w := workspaces[w].(version := workspaces[w].version + 1)];
    }

    method EndInvitationsFor(w: WorkspaceId, target: Id)
      modifies this
      ensures Now() == old(Now()).(invitations := EndedFor(old(invitations), w, target))
    {
      invitations := map id | id in invitations ::
        if invitations[id].workspace == w && invitations[id].target == target
           && (invitations[id].status == Pending || invitations[id].status == Accepted)
        then Withdrawn(invitations[id]) else invitations[id];
    }

    method EndInvitationsBy(w: WorkspaceId, sender: Id)
      modifies this
      ensures Now() == old(Now()).(invitations := EndedBy(old(invitations), w, sender))
    {
      invitations := map id | id in invitations ::
        if invitations[id].workspace == w && invitations[id].createdBy == sender && invitations[id].status == Pending
        then Withdrawn(invitations[id]) else invitations[id];
    }

    method ChangeMember(w: WorkspaceId, target: Id, next: Option<Role>) returns (e: Option<Error>)
      requires w in workspaces
      modifies this
      ensures Ended(old(Now()), Changed(old(Now()), w, target, next), Now(), e)
    {
      var previous := RoleOf(Now(), w, target);
      if previous == None { return Some(Missing); }
      if previous == Some(Owner) && next != Some(Owner) {
        var owners := Owners(Now(), w);
        if |owners| <= 1 { return Some(LastOwner); }
      }
      if next.Some? {
        members := members[Seat(w, target) := next.value];
      } else {
        members := members - {Seat(w, target)};
        EndInvitationsFor(w, target);
      }
      if next != Some(Owner) { EndInvitationsBy(w, target); }
      SaveWorkspace(w);
      return None;
    }

    method IssueInvitation(actor: Actor, r: Request, now: int) returns (e: Option<Error>)
      requires r.Invite? && r.w in workspaces
      modifies this
      ensures Ended(old(Now()), Invited(old(Now()), actor, r, now), Now(), e)
    {
      if workspaces[r.w].local { return Some(LocalWorkspace); }
      if !r.targetOk { return Some(InvalidInput); }
      if RoleOf(Now(), r.w, r.target).Some? { return Some(AlreadyMember); }
      if r.role != Some(Editor) && r.role != Some(Viewer) { return Some(InvalidInput); }
      if OpenInvitation(Now(), r.w, r.target, now) { return Some(InvitationExists); }
      if r.newId in invitations { return Some(DuplicateKey); }
      var i := Invitation(r.w, r.target, r.role.value, Pending, actor.id, now, now + SEVEN_DAYS, 1);
      invitations := invitations[r.newId := i];
      SaveWorkspace(r.w);
      return None;
    }

    method WithdrawInvitation(w: WorkspaceId, id: Id, now: int) returns (e: Option<Error>)
      requires w in workspaces
      modifies this
      ensures Ended(old(Now()), InvitationWithdrawn(old(Now()), w, id, now), Now(), e)
    {
      if id !in invitations || invitations[id].workspace != w { return Some(Missing); }
      var status := ShownStatus(invitations[id], now);
      if status != Pending && status != Expired { return Some(InvitationUnavailable); }
      invitations := invitations[id := Withdrawn(invitations[id])];
      SaveWorkspace(w);
      return None;
    }

    method AnswerInvitation(actor: Actor, r: Request, now: int) returns (e: Option<Error>)
      requires r.Answer? && r.id in invitations && invitations[r.id].workspace in workspaces
      modifies this
      ensures Ended(old(Now()), Answered(old(Now()), actor, r, now), Now(), e)
    {
      var i := invitations[r.id];
      e := VersionCheck(r.expected, i.version);
      if e.Some? { return; }
      if ShownStatus(i, now) != Pending { return Some(InvitationUnavailable); }
      if workspaces[i.workspace].personal { return Some(PersonalWorkspace); }
      if RoleOf(Now(), i.workspace, i.createdBy) != Some(Owner) { return Some(InvitationUnavailable); }
      if r.accept {
        if RoleOf(Now(), i.workspace, actor.id).Some? { return Some(AlreadyMember); }
        members := members[Seat(i.workspace, actor.id) := i.role];
      }
      var answer := if r.accept then Accepted else Declined;
      invitations := invitations[r.id := i.(status := answer, version := i.version + 1)];
      SaveWorkspace(i.workspace);
      return None;
    }

    method CreateWorkspace(actor: Actor, r: Request) returns (e: Option<Error>)
      requires r.CreateWorkspace?
      modifies this
      ensures Ended(old(Now()), Created(old(Now()), actor, r), Now(), e)
    {
      if !r.scopeOk { return Some(InvalidInput); }
      if actor.tenant == "" { return Some(TenantSelectionRequired); }
      if !r.nameOk { return Some(InvalidInput); }
      var w := Shared(r.newId);
      if w in workspaces || Seat(w, actor.id) in members { return Some(DuplicateKey); }
      workspaces := workspaces[w := Workspace(actor.tenant, false, actor.id == LOCAL_OWNER, 1)];
      members := members[Seat(w, actor.id) := Owner];
      return None;
    }

    method ProvisionPersonal(actor: Actor) returns (e: Option<Error>)
      modifies this
      ensures Ended(old(Now()), Provisioned(old(Now()), actor), Now(), e)
    {
      if actor.tenant == "" { return Some(TenantSelectionRequired); }
      var w := PersonalOf(actor.tenant, actor.id);
      if w !in workspaces { workspaces := workspaces[w := Workspace(actor.tenant, true, false, 1)]; }
      if Seat(w, actor.id) !in members { members := members[Seat(w, actor.id) := Owner]; }
      return None;
    }

    /** A request that names its workspace, once the route check has passed. */
    method ChangeWorkspace(actor: Actor, r: Request, now: int) returns (e: Option<Error>)
      requires !r.ProvisionPersonal? && !r.CreateWorkspace? && !r.Answer?
      requires !actor.agent && RouteCheck(Now(), actor, r, now) == None
      modifies this
      ensures Ended(old(Now()), Apply(old(Now()), actor, r, now), Now(), e)
    {
      e := WorkspaceCheck(Now(), actor, r.w, r.expected);
      if e.Some? { return; }
      match r {
        case RenameWorkspace(w, nameOk, _) =>
          if !nameOk { return Some(InvalidInput); }
          SaveWorkspace(w);
          return None;
        case ChangeRole(w, target, role, _) =>
          if role == None { return Some(InvalidInput); }
          e := ChangeMember(w, target, role);
        case RemoveMember(w, target, _) => e := ChangeMember(w, target, None);
        case Leave(w, _) => e := ChangeMember(w, actor.id, None);
        case Invite(_, _, _, _, _, _) => e := IssueInvitation(actor, r, now);
        case RevokeInvitation(w, id, _) => e := WithdrawInvitation(w, id, now);
      }
    }

    method Dispatch(actor: Actor, r: Request, now: int) returns (e: Option<Error>)
      modifies this
      ensures Ended(old(Now()), Apply(old(Now()), actor, r, now), Now(), e)
    {
      if r.ProvisionPersonal? {
        e := ProvisionPersonal(actor);
        return;
      }
      if actor.agent { return Some(ApprovalRequired); }
      e := RouteCheck(Now(), actor, r, now);
      if e.Some? { return; }
      if r.CreateWorkspace? { e := CreateWorkspace(actor, r); }
      else if r.Answer? { e := AnswerInvitation(actor, r, now); }
      else { e := ChangeWorkspace(actor, r, now); }
    }
  }
}
