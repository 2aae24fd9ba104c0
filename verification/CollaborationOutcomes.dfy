// What each request comes to, told from the tables alone: exactly when it is
// accepted, and everything the tables hold afterwards.
module CollaborationOutcomes {
  import opened Basics
  import opened Collaboration

  // ---- Conditions on the tables ----

  ghost predicate Holds(s: State, w: WorkspaceId, a: Id, role: Role) {
    Seat(w, a) in s.members && s.members[Seat(w, a)] == role
  }

  /** A person, not an agent, acting as a member in the tenant of the workspace. */
  ghost predicate ActsAsMember(s: State, actor: Actor, w: WorkspaceId) {
    && !actor.agent && w in s.workspaces && Seat(w, actor.id) in s.members
    && s.workspaces[w].tenant == actor.tenant && actor.tenant != ""
  }

  ghost predicate ActsAsOwner(s: State, actor: Actor, w: WorkspaceId) {
    ActsAsMember(s, actor, w) && s.members[Seat(w, actor.id)] == Owner
  }

  /** The workspace can be shared and the caller has seen its latest version. */
  ghost predicate UpToDate(s: State, w: WorkspaceId, expected: Option<int>) {
    w in s.workspaces && !s.workspaces[w].personal && expected == Some(s.workspaces[w].version)
  }

  ghost predicate OnlyOwner(s: State, w: WorkspaceId, a: Id) {
    Holds(s, w, a, Owner) && forall b :: b != a ==> !Holds(s, w, b, Owner)
  }

  // ---- What stays and what becomes of the tables ----

  /** No seat but this one is touched. */
  ghost predicate OtherSeatsStay(s: State, t: State, seat: Seat) {
    forall x: Seat {:trigger x in t.members} {:trigger x in s.members} :: x != seat ==>
      (x in t.members <==> x in s.members) && (x in s.members ==> t.members[x] == s.members[x])
  }

  /** The version of w moves on by one; nothing else about any workspace does. */
  ghost predicate OnlyVersionMoves(s: State, t: State, w: WorkspaceId) {
    && t.workspaces.Keys == s.workspaces.Keys && w in s.workspaces
    && t.workspaces[w].version == s.workspaces[w].version + 1
    && t.workspaces[w].tenant == s.workspaces[w].tenant && t.workspaces[w].personal == s.workspaces[w].personal
    && t.workspaces[w].local == s.workspaces[w].local
    && forall v {:trigger t.workspaces[v]} :: v in s.workspaces && v != w ==> t.workspaces[v] == s.workspaces[v]
  }

  ghost predicate IsRevokedFrom(i: Invitation, j: Invitation) {
    && j.status == Revoked && j.version == i.version + 1 && j.workspace == i.workspace && j.target == i.target
    && j.role == i.role && j.createdBy == i.createdBy && j.createdAt == i.createdAt && j.expiresAt == i.expiresAt
  }

  ghost predicate OtherInvitationsStay(s: State, t: State, id: Id) {
    forall x {:trigger x in t.invitations} {:trigger x in s.invitations} :: x != id ==>
      (x in t.invitations <==> x in s.invitations) && (x in s.invitations ==> t.invitations[x] == s.invitations[x])
  }

  /** Invitations to w that are revoked with a change of a's place there. */
  ghost predicate EndsWith(i: Invitation, w: WorkspaceId, a: Id, left: bool, demoted: bool) {
    && i.workspace == w
    && ((left && i.target == a && (i.status == Pending || i.status == Accepted)) ||
        (demoted && i.createdBy == a && i.status == Pending))
  }

  ghost predicate InvitationsEnd(s: State, t: State, w: WorkspaceId, a: Id, left: bool, demoted: bool) {
    && t.invitations.Keys == s.invitations.Keys
    && forall id {:trigger t.invitations[id]} :: id in s.invitations ==>
         if EndsWith(s.invitations[id], w, a, left, demoted) then IsRevokedFrom(s.invitations[id], t.invitations[id])
         else t.invitations[id] == s.invitations[id]
  }

  // ---- Changing and ending a membership ----

  lemma {:induction false} OwnersCounted(s: State, w: WorkspaceId, a: Id)
    requires Holds(s, w, a, Owner)
    ensures |Owners(s, w)| <= 1 <==> OnlyOwner(s, w, a)
  {
    assert Seat(w, a) in Owners(s, w);
    if |Owners(s, w)| <= 1 {
      forall b | b != a ensures !Holds(s, w, b, Owner) {
        if Holds(s, w, b, Owner) { SubsetSize({Seat(w, a), Seat(w, b)}, Owners(s, w)); }
      }
    }
    if OnlyOwner(s, w, a) {
      forall x | x in Owners(s, w) ensures x in {Seat(w, a)} { assert Holds(s, w, x.actor, Owner); }
      SubsetSize(Owners(s, w), {Seat(w, a)});
    }
  }

  /** When a place can be given up for `next`, and what becomes of the tables. */
  ghost predicate PlaceChanges(s: State, o: Outcome, w: WorkspaceId, a: Id, next: Option<Role>) {
    && (o.Done? <==> Seat(w, a) in s.members && (next == Some(Owner) || !OnlyOwner(s, w, a)))
    && (o == Failed(LastOwner) <==> next != Some(Owner) && OnlyOwner(s, w, a))
    && (o.Done? ==>
         && (if next.Some? then Holds(o.state, w, a, next.value) else Seat(w, a) !in o.state.members)
         && OtherSeatsStay(s, o.state, Seat(w, a)) && OnlyVersionMoves(s, o.state, w)
         && InvitationsEnd(s, o.state, w, a, next == None, next != Some(Owner)))
  }

  lemma {:induction false} EndedIs(s: State, invs: map<Id, Invitation>, t: State, w: WorkspaceId, a: Id,
      next: Option<Role>)
    requires invs == if next.Some? then s.invitations else EndedFor(s.invitations, w, a)
    requires t.invitations == if next != Some(Owner) then EndedBy(invs, w, a) else invs
    ensures InvitationsEnd(s, t, w, a, next == None, next != Some(Owner))
  {
  }

  lemma {:induction false} ChangedIs(s: State, w: WorkspaceId, a: Id, next: Option<Role>)
    requires w in s.workspaces
    ensures PlaceChanges(s, Changed(s, w, a, next), w, a, next)
  {
    if Holds(s, w, a, Owner) { OwnersCounted(s, w, a); }
    var o := Changed(s, w, a, next);
    if o.Done? {
      EndedIs(s, if next.Some? then s.invitations else EndedFor(s.invitations, w, a), o.state, w, a, next);
    }
  }

  /** An owner's change of a role is accepted exactly when it names a role, from the latest version, for a member,
      and does not make the only owner step down; the member then has exactly the role asked for. */
  lemma {:induction false} RoleChangeIs(s: State, actor: Actor, w: WorkspaceId, a: Id, role: Option<Role>,
      expected: Option<int>, now: int)
    ensures var o := Apply(s, actor, ChangeRole(w, a, role, expected), now);
            && (o.Done? <==>
                 && ActsAsOwner(s, actor, w) && UpToDate(s, w, expected) && role.Some?
                 && Seat(w, a) in s.members && (role == Some(Owner) || !OnlyOwner(s, w, a)))
            && (o.Done? ==>
                 && Holds(o.state, w, a, role.value)
                 && OtherSeatsStay(s, o.state, Seat(w, a)) && OnlyVersionMoves(s, o.state, w)
                 && InvitationsEnd(s, o.state, w, a, false, role.value != Owner))
  {
    if w in s.workspaces { ChangedIs(s, w, a, role); }
  }

  /** Removing somebody takes an owner; leaving, only membership. Neither takes the only owner away. Afterwards the
      seat is gone, with every open or accepted invitation to it and every open one its holder sent. */
  lemma {:induction false} RemovalIs(s: State, actor: Actor, w: WorkspaceId, a: Id, leaving: bool,
      expected: Option<int>, now: int)
    requires leaving ==> a == actor.id
    ensures var o := Apply(s, actor, if leaving then Leave(w, expected) else RemoveMember(w, a, expected), now);
            && (o.Done? <==>
                 && (if leaving then ActsAsMember(s, actor, w) else ActsAsOwner(s, actor, w))
                 && UpToDate(s, w, expected) && Seat(w, a) in s.members && !OnlyOwner(s, w, a))
            && (o.Done? ==>
                 && Seat(w, a) !in o.state.members
                 && OtherSeatsStay(s, o.state, Seat(w, a)) && OnlyVersionMoves(s, o.state, w)
                 && InvitationsEnd(s, o.state, w, a, true, true))
  {
    if w in s.workspaces { ChangedIs(s, w, a, None); }
  }

  // ---- Invitations ----

  ghost predicate OpenTo(i: Invitation, w: WorkspaceId, a: Id, now: int) {
    i.workspace == w && i.target == a && i.status == Pending && i.expiresAt > now
  }

  ghost predicate HasOpen(s: State, w: WorkspaceId, a: Id, now: int) {
    exists x :: x in s.invitations && OpenTo(s.invitations[x], w, a, now)
  }

  lemma {:induction false} HasOpenIs(s: State, w: WorkspaceId, a: Id, now: int)
    ensures OpenInvitation(s, w, a, now) <==> HasOpen(s, w, a, now)
  {
    if OpenInvitation(s, w, a, now) {
      var id :| id in s.invitations && s.invitations[id].workspace == w && s.invitations[id].target == a
        && s.invitations[id].status == Pending && s.invitations[id].expiresAt > now;
      assert OpenTo(s.invitations[id], w, a, now);
    }
  }

  /** An owner can invite exactly somebody who is neither a member nor already invited, never as an owner, and the
      new invitation is open for seven days. */
  lemma {:induction false} InvitingIs(s: State, actor: Actor, w: WorkspaceId, a: Id, wellNamed: bool,
      role: Option<Role>, id: Id, expected: Option<int>, now: int)
    ensures var o := Apply(s, actor, Invite(w, a, wellNamed, role, id, expected), now);
            && (o.Done? <==>
                 && ActsAsOwner(s, actor, w) && UpToDate(s, w, expected) && !s.workspaces[w].local && wellNamed
                 && Seat(w, a) !in s.members && (role == Some(Editor) || role == Some(Viewer))
                 && !HasOpen(s, w, a, now) && id !in s.invitations)
            && (o.Done? ==>
                 && id in o.state.invitations && OtherInvitationsStay(s, o.state, id)
                 && o.state.invitations[id] ==
                    Invitation(w, a, role.value, Pending, actor.id, now, now + 604800, 1)
                 && o.state.members == s.members && OnlyVersionMoves(s, o.state, w))
  {
    HasOpenIs(s, w, a, now);
  }

  /** An owner withdraws exactly invitations to the workspace nobody has answered or withdrawn. */
  lemma {:induction false} WithdrawingIs(s: State, actor: Actor, w: WorkspaceId, id: Id, expected: Option<int>,
      now: int)
    ensures var o := Apply(s, actor, RevokeInvitation(w, id, expected), now);
            && (o.Done? <==>
                 && ActsAsOwner(s, actor, w) && UpToDate(s, w, expected)
                 && id in s.invitations && s.invitations[id].workspace == w
                 && (s.invitations[id].status == Pending || s.invitations[id].status == Expired))
            && (o.Done? ==>
                 && id in o.state.invitations && IsRevokedFrom(s.invitations[id], o.state.invitations[id])
                 && OtherInvitationsStay(s, o.state, id)
                 && o.state.members == s.members && OnlyVersionMoves(s, o.state, w))
  {
  }

  /** An invitation can be answered exactly by the person it is for, acting in the tenant of the workspace, from its
      latest version, while it is open and its sender is an owner. Accepting gives the seat it names, declining
      none. */
  lemma {:induction false} AnsweringIs(s: State, actor: Actor, id: Id, accept: bool, expected: Option<int>, now: int)
    ensures var o := Apply(s, actor, Answer(id, accept, expected), now);
            && (o.Done? <==>
                 && !actor.agent && id in s.invitations
                 && var i := s.invitations[id];
                    && i.target == actor.id && i.workspace in s.workspaces
                    && s.workspaces[i.workspace].tenant == actor.tenant != "" && !s.workspaces[i.workspace].personal
                    && expected == Some(i.version) && i.status == Pending && now <= i.expiresAt
                    && Holds(s, i.workspace, i.createdBy, Owner)
                    && (accept ==> Seat(i.workspace, actor.id) !in s.members))
            && (o.Done? ==>
                 var i := s.invitations[id];
                 && (if accept then
                       Holds(o.state, i.workspace, actor.id, i.role) &&
                       OtherSeatsStay(s, o.state, Seat(i.workspace, actor.id))
                     else o.state.members == s.members)
                 && id in o.state.invitations && OtherInvitationsStay(s, o.state, id)
                 && o.state.invitations[id] == Invitation(i.workspace, i.target, i.role,
                      if accept then Accepted else Declined, i.createdBy, i.createdAt, i.expiresAt, i.version + 1)
                 && OnlyVersionMoves(s, o.state, i.workspace))
  {
  }

  // ---- Workspaces ----

  /** Anyone acting in a tenant can create a workspace, in that tenant for good, and owns it alone. */
  lemma {:induction false} CreatingIs(s: State, actor: Actor, id: Id, scopeOk: bool, nameOk: bool, now: int)
    ensures var o := Apply(s, actor, CreateWorkspace(id, scopeOk, nameOk), now);
            && (o.Done? <==>
                 && !actor.agent && scopeOk && nameOk && actor.tenant != ""
                 && Shared(id) !in s.workspaces && Seat(Shared(id), actor.id) !in s.members)
            && (o.Done? ==>
                 && Shared(id) in o.state.workspaces
                 && o.state.workspaces[Shared(id)] == Workspace(actor.tenant, false, actor.id == "local-owner", 1)
                 && (forall v :: v != Shared(id) ==> (v in o.state.workspaces <==> v in s.workspaces))
                 && (forall v :: v in s.workspaces ==> o.state.workspaces[v] == s.workspaces[v])
                 && Holds(o.state, Shared(id), actor.id, Owner)
                 && OtherSeatsStay(s, o.state, Seat(Shared(id), actor.id)) && o.state.invitations == s.invitations)
  {
  }

  lemma {:induction false} RenamingIs(s: State, actor: Actor, w: WorkspaceId, nameOk: bool, expected: Option<int>,
      now: int)
    ensures var o := Apply(s, actor, RenameWorkspace(w, nameOk, expected), now);
            && (o.Done? <==> ActsAsOwner(s, actor, w) && UpToDate(s, w, expected) && nameOk)
            && (o.Done? ==>
                 o.state.members == s.members && o.state.invitations == s.invitations &&
                 OnlyVersionMoves(s, o.state, w))
  {
  }

  /** Providing for a person's own workspace, agents included, adds what is missing and touches nothing there. */
  lemma {:induction false} ProvidingIs(s: State, actor: Actor, now: int)
    ensures var o, w := Apply(s, actor, ProvisionPersonal, now), PersonalOf(actor.tenant, actor.id);
            && (o.Done? <==> actor.tenant != "")
            && (o.Done? ==>
                 && o.state.workspaces.Keys == s.workspaces.Keys + {w}
                 && (forall v :: v in s.workspaces ==> o.state.workspaces[v] == s.workspaces[v])
                 && (w !in s.workspaces ==> o.state.workspaces[w] == Workspace(actor.tenant, true, false, 1))
                 && o.state.members.Keys == s.members.Keys + {Seat(w, actor.id)}
                 && (forall x :: x in s.members ==> o.state.members[x] == s.members[x])
                 && (Seat(w, actor.id) !in s.members ==> o.state.members[Seat(w, actor.id)] == Owner)
                 && o.state.invitations == s.invitations)
  {
  }

  // ---- Why a request is refused ----

  /** The workspace a request names, and the version it was made from. */
  ghost function Named(r: Request): (WorkspaceId, Option<int>)
    requires !r.CreateWorkspace? && !r.Answer? && !r.ProvisionPersonal?
  {
    match r
    case RenameWorkspace(w, _, expected) => (w, expected)
    case ChangeRole(w, _, _, expected) => (w, expected)
    case RemoveMember(w, _, expected) => (w, expected)
    case Leave(w, expected) => (w, expected)
    case Invite(w, _, _, _, _, expected) => (w, expected)
    case RevokeInvitation(w, _, expected) => (w, expected)
  }

  /** The first thing wrong with a request about a workspace, whoever makes it and whatever it asks. */
  ghost function WrongAtFirst(s: State, actor: Actor, r: Request): Option<Error>
    requires !r.CreateWorkspace? && !r.Answer? && !r.ProvisionPersonal?
  {
    var (w, expected) := Named(r);
    if actor.agent then Some(ApprovalRequired)
    else if !ActsAsMember(s, actor, w) then Some(Missing)
    else if !r.Leave? && !ActsAsOwner(s, actor, w) then Some(OwnerRequired)
    else if s.workspaces[w].personal then Some(PersonalWorkspace)
    else if expected == None then Some(VersionRequired)
    else if expected.value != s.workspaces[w].version then Some(VersionConflict)
    else None
  }

  /** Then what is wrong with what it asks. */
  ghost function WrongWithAsking(s: State, actor: Actor, r: Request, now: int): Option<Error>
    requires !r.CreateWorkspace? && !r.Answer? && !r.ProvisionPersonal?
  {
    match r
    case RenameWorkspace(_, nameOk, _) => if nameOk then None else Some(InvalidInput)
    case ChangeRole(w, a, role, _) =>
      if role == None then Some(InvalidInput)
      else if Seat(w, a) !in s.members then Some(Missing)
      else if role != Some(Owner) && OnlyOwner(s, w, a) then Some(LastOwner) else None
    case RemoveMember(w, a, _) =>
      if Seat(w, a) !in s.members then Some(Missing) else if OnlyOwner(s, w, a) then Some(LastOwner) else None
    case Leave(w, _) => if OnlyOwner(s, w, actor.id) then Some(LastOwner) else None
    case Invite(w, a, wellNamed, role, id, _) =>
      if w in s.workspaces && s.workspaces[w].local then Some(LocalWorkspace)
      else if !wellNamed then Some(InvalidInput)
      else if Seat(w, a) in s.members then Some(AlreadyMember)
      else if role != Some(Editor) && role != Some(Viewer) then Some(InvalidInput)
      else if HasOpen(s, w, a, now) then Some(InvitationExists)
      else if id in s.invitations then Some(DuplicateKey) else None
    case RevokeInvitation(w, id, _) =>
      if id !in s.invitations || s.invitations[id].workspace != w then Some(Missing)
      else if s.invitations[id].status != Pending && s.invitations[id].status != Expired
      then Some(InvitationUnavailable) else None
  }

  lemma {:induction false} CheckedFirst(s: State, actor: Actor, r: Request, now: int)
    requires !r.CreateWorkspace? && !r.Answer? && !r.ProvisionPersonal?
    ensures WrongAtFirst(s, actor, r) ==
            if actor.agent then Some(ApprovalRequired)
            else if RouteCheck(s, actor, r, now).Some? then RouteCheck(s, actor, r, now)
            else WorkspaceCheck(s, actor, Named(r).0, Named(r).1)
  {
  }

  lemma {:induction false} AskedInvitation(s: State, actor: Actor, r: Request, now: int)
    requires r.Invite? && r.w in s.workspaces
    ensures match Invited(s, actor, r, now)
            case Failed(e) => WrongWithAsking(s, actor, r, now) == Some(e)
            case Done(_) => WrongWithAsking(s, actor, r, now) == None
  {
    HasOpenIs(s, r.w, r.target, now);
  }

  lemma {:induction false} AskedChange(s: State, w: WorkspaceId, a: Id, next: Option<Role>)
    requires w in s.workspaces
    ensures Changed(s, w, a, next) == Failed(Missing) <==> Seat(w, a) !in s.members
    ensures Changed(s, w, a, next) == Failed(LastOwner) <==> next != Some(Owner) && OnlyOwner(s, w, a)
    ensures Changed(s, w, a, next).Failed? ==> Changed(s, w, a, next).error in {Missing, LastOwner}
  {
    if Holds(s, w, a, Owner) { OwnersCounted(s, w, a); }
  }

  /** A refused request about a workspace says the first thing that is wrong: an agent asking, a stranger, no owner, a
      personal workspace, no version or an old one, and only then what is wrong with what it asks. */
  lemma {:induction false} RefusalNamesTheFirst(s: State, actor: Actor, r: Request, now: int)
    requires !r.CreateWorkspace? && !r.Answer? && !r.ProvisionPersonal?
    ensures var o, first := Apply(s, actor, r, now), WrongAtFirst(s, actor, r);
            if first.Some? then o == Failed(first.value)
            else match WrongWithAsking(s, actor, r, now) case Some(e) => o == Failed(e) case None => o.Done?
  {
    CheckedFirst(s, actor, r, now);
    if WrongAtFirst(s, actor, r) == None {
      match r
      case ChangeRole(w, a, role, _) => AskedChange(s, w, a, role);
      case RemoveMember(w, a, _) => AskedChange(s, w, a, None);
      case Leave(w, _) => AskedChange(s, w, actor.id, None);
      case Invite(_, _, _, _, _, _) => AskedInvitation(s, actor, r, now);
      case _ =>
    }
  }

  /** An answer that is refused: an agent's, one not addressed to the caller in their tenant, one withdrawn, over or
      declined, one accepted by somebody who has left, and then versions, use, place, sender and membership. */
  lemma {:induction false} AnswerRefusedWith(s: State, actor: Actor, id: Id, accept: bool, expected: Option<int>,
      now: int)
    ensures var o := Apply(s, actor, Answer(id, accept, expected), now);
            if actor.agent then o == Failed(ApprovalRequired)
            else if id !in s.invitations then o == Failed(Missing)
            else
              var i := s.invitations[id];
              if i.target != actor.id || i.workspace !in s.workspaces || actor.tenant == "" ||
                s.workspaces[i.workspace].tenant != actor.tenant then o == Failed(Missing)
              else if i.status == Revoked || i.status == Expired || (i.status == Pending && i.expiresAt < now) ||
                (accept && i.status == Declined) then o == Failed(InvitationUnavailable)
              else if i.status == Accepted && Seat(i.workspace, actor.id) !in s.members then o == Failed(Missing)
              else if expected == None then o == Failed(VersionRequired)
              else if expected.value != i.version then o == Failed(VersionConflict)
              else if i.status != Pending then o == Failed(InvitationUnavailable)
              else if s.workspaces[i.workspace].personal then o == Failed(PersonalWorkspace)
              else if !Holds(s, i.workspace, i.createdBy, Owner) then o == Failed(InvitationUnavailable)
              else if accept && Seat(i.workspace, actor.id) in s.members then o == Failed(AlreadyMember)
              else o.Done?
  {
  }
}
