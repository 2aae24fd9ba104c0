// What every run of requests keeps: workspaces never lose their last owner,
// open invitations stand behind a current owner, and a person who left comes
// back only through an invitation issued after they left.
module CollaborationRuns {
  import opened Basics
  import opened Collaboration

  // ---- Every reachable state ----

  ghost predicate HasOwner(s: State, w: WorkspaceId) {
    exists a :: Seat(w, a) in s.members && s.members[Seat(w, a)] == Owner
  }

  ghost predicate EveryWorkspaceHasAnOwner(s: State) {
    forall w :: w in s.workspaces ==> HasOwner(s, w)
  }

  /** Open invitations were sent by someone who is an owner now. */
  ghost predicate SendersAreOwners(s: State) {
    forall id {:trigger s.invitations[id]} :: id in s.invitations && s.invitations[id].status == Pending ==>
      RoleOf(s, s.invitations[id].workspace, s.invitations[id].createdBy) == Some(Owner)
  }

  ghost predicate AcceptedAreMembers(s: State) {
    forall id {:trigger s.invitations[id]} :: id in s.invitations && s.invitations[id].status == Accepted ==>
      RoleOf(s, s.invitations[id].workspace, s.invitations[id].target).Some?
  }

  predicate OpenFor(i: Invitation, w: WorkspaceId, target: Id, now: int) {
    i.workspace == w && i.target == target && i.status == Pending && i.expiresAt > now
  }

  ghost predicate OneOpenEach(s: State, now: int) {
    forall i, j, w, t {:trigger OpenFor(s.invitations[i], w, t, now), OpenFor(s.invitations[j], w, t, now)} ::
      i in s.invitations && OpenFor(s.invitations[i], w, t, now) ==>
      j in s.invitations && OpenFor(s.invitations[j], w, t, now) ==> i == j
  }

  /** An invitation lasts seven days and never makes an owner; `Expired` is only ever shown. */
  predicate WellIssued(i: Invitation) {
    i.status != Expired && i.role != Owner && i.expiresAt == i.createdAt + SEVEN_DAYS
  }

  /** Invitations are to workspaces that exist and can be shared. */
  ghost predicate InvitationsFit(s: State) {
    forall id {:trigger s.invitations[id]} :: id in s.invitations ==>
      s.invitations[id].workspace in s.workspaces && s.invitations[id].workspace.Shared? &&
        WellIssued(s.invitations[id])
  }

  /** Seats are in workspaces that exist; a personal workspace has its person and nobody else. */
  ghost predicate SeatsFit(s: State) {
    && (forall seat {:trigger seat in s.members} :: seat in s.members ==> seat.workspace in s.workspaces)
    && (forall seat {:trigger seat in s.members} :: seat in s.members && seat.workspace.PersonalOf? ==>
       seat.actor == seat.workspace.person)
    && (forall w {:trigger w in s.workspaces} :: w in s.workspaces ==> s.workspaces[w].personal == w.PersonalOf?)
    && (forall w {:trigger w in s.workspaces} :: w in s.workspaces && w.PersonalOf? ==>
       RoleOf(s, w, w.person) == Some(Owner))
  }

  ghost predicate Inv(s: State, now: int) {
    && EveryWorkspaceHasAnOwner(s) && SendersAreOwners(s) && AcceptedAreMembers(s) && OneOpenEach(s, now)
    && InvitationsFit(s) && SeatsFit(s)
  }

  // ---- Two ways a change is harmless ----

  /** No owner lost, and every new workspace comes with one. */
  lemma {:induction false} OwnersStay(s: State, t: State)
    requires EveryWorkspaceHasAnOwner(s)
    requires forall seat {:trigger seat in s.members} :: seat in s.members && s.members[seat] == Owner ==>
               seat in t.members && t.members[seat] == Owner
    requires forall w {:trigger w in t.workspaces} :: w in t.workspaces && w !in s.workspaces ==> HasOwner(t, w)
    ensures EveryWorkspaceHasAnOwner(t)
  {
  }

  /** No invitation newly open. */
  lemma {:induction false} NoneOpened(s: State, t: State, now: int)
    requires OneOpenEach(s, now)
    requires forall id {:trigger t.invitations[id]} :: id in t.invitations && t.invitations[id].status == Pending ==>
               id in s.invitations && s.invitations[id] == t.invitations[id]
    ensures OneOpenEach(t, now)
  {
  }

  // ---- Changing a member ----

  lemma {:induction false} AnotherOwner(s: State, w: WorkspaceId, target: Id) returns (a: Id)
    requires |Owners(s, w)| >= 2
    ensures a != target && RoleOf(s, w, a) == Some(Owner)
  {
    var rest := Owners(s, w) - {Seat(w, target)};
    if rest == {} { assert Owners(s, w) <= {Seat(w, target)}; SubsetSize(Owners(s, w), {Seat(w, target)}); }
    var seat :| seat in rest;
    a := seat.actor;
    assert seat == Seat(w, a);
  }

  lemma {:induction false} OwnerStays(s: State, w: WorkspaceId, target: Id, next: Option<Role>) returns (a: Id)
    requires w in s.workspaces && HasOwner(s, w) && Changed(s, w, target, next).Done?
    ensures RoleOf(Changed(s, w, target, next).state, w, a) == Some(Owner)
  {
    if next == Some(Owner) { a := target; }
    else if RoleOf(s, w, target) == Some(Owner) { a := AnotherOwner(s, w, target); }
    else { a :| Seat(w, a) in s.members && s.members[Seat(w, a)] == Owner; }
  }

  lemma {:induction false} ChangedKeepsOwners(s: State, w: WorkspaceId, target: Id, next: Option<Role>)
    requires w in s.workspaces && EveryWorkspaceHasAnOwner(s) && Changed(s, w, target, next).Done?
    ensures EveryWorkspaceHasAnOwner(Changed(s, w, target, next).state)
  {
    var t := Changed(s, w, target, next).state;
    var a := OwnerStays(s, w, target, next);
    forall v | v in t.workspaces ensures HasOwner(t, v) {
      if v == w { assert Seat(w, a) in t.members; }
      else {
        var b :| Seat(v, b) in s.members && s.members[Seat(v, b)] == Owner;
        assert Seat(v, b) in t.members;
      }
    }
  }

  lemma {:induction false} ChangedKeepsSenders(s: State, w: WorkspaceId, target: Id, next: Option<Role>)
    requires w in s.workspaces && SendersAreOwners(s) && Changed(s, w, target, next).Done?
    ensures SendersAreOwners(Changed(s, w, target, next).state)
  {
  }

  lemma {:induction false} ChangedKeepsAccepted(s: State, w: WorkspaceId, target: Id, next: Option<Role>)
    requires w in s.workspaces && AcceptedAreMembers(s) && Changed(s, w, target, next).Done?
    ensures AcceptedAreMembers(Changed(s, w, target, next).state)
  {
  }

  lemma {:induction false} EndingKeepsRows(invs: map<Id, Invitation>, w: WorkspaceId, a: Id, id: Id)
    requires id in invs
    ensures EndedFor(invs, w, a)[id].workspace == invs[id].workspace &&
            (WellIssued(invs[id]) ==> WellIssued(EndedFor(invs, w, a)[id]))
    ensures EndedBy(invs, w, a)[id].workspace == invs[id].workspace &&
            (WellIssued(invs[id]) ==> WellIssued(EndedBy(invs, w, a)[id]))
  {
  }

  lemma {:induction false} ChangedKeepsInvitations(s: State, w: WorkspaceId, target: Id, next: Option<Role>)
    requires w in s.workspaces && InvitationsFit(s) && Changed(s, w, target, next).Done?
    ensures InvitationsFit(Changed(s, w, target, next).state)
  {
    var t := Changed(s, w, target, next).state;
    var ended := if next.Some? then s.invitations else EndedFor(s.invitations, w, target);
    forall id | id in t.invitations
      ensures t.invitations[id].workspace in t.workspaces && t.invitations[id].workspace.Shared? &&
              WellIssued(t.invitations[id])
    {
      EndingKeepsRows(s.invitations, w, target, id);
      EndingKeepsRows(ended, w, target, id);
    }
  }

  lemma {:induction false} ChangedKeepsSeats(s: State, w: WorkspaceId, target: Id, next: Option<Role>)
    requires w in s.workspaces && !s.workspaces[w].personal && SeatsFit(s) && Changed(s, w, target, next).Done?
    ensures SeatsFit(Changed(s, w, target, next).state)
  {
  }

  lemma {:induction false} ChangedKeepsRows(s: State, w: WorkspaceId, target: Id, next: Option<Role>)
    requires w in s.workspaces && !s.workspaces[w].personal && InvitationsFit(s) && SeatsFit(s) &&
             Changed(s, w, target, next).Done?
    ensures InvitationsFit(Changed(s, w, target, next).state) && SeatsFit(Changed(s, w, target, next).state)
  {
    ChangedKeepsInvitations(s, w, target, next);
    ChangedKeepsSeats(s, w, target, next);
  }

  lemma {:induction false} ChangedKeeps(s: State, w: WorkspaceId, target: Id, next: Option<Role>, now: int)
    requires Inv(s, now) && w in s.workspaces && !s.workspaces[w].personal && Changed(s, w, target, next).Done?
    ensures Inv(Changed(s, w, target, next).state, now)
  {
    ChangedKeepsOwners(s, w, target, next);
    ChangedKeepsSenders(s, w, target, next);
    ChangedKeepsAccepted(s, w, target, next);
    ChangedKeepsRows(s, w, target, next);
    NoneOpened(s, Changed(s, w, target, next).state, now);
  }

  // ---- New workspaces ----

  lemma {:induction false} CreatedKeeps(s: State, actor: Actor, r: Request, now: int)
    requires Inv(s, now) && r.CreateWorkspace? && Created(s, actor, r).Done?
    ensures Inv(Created(s, actor, r).state, now)
  {
    var t := Created(s, actor, r).state;
    assert Seat(Shared(r.newId), actor.id) in t.members;
    OwnersStay(s, t);
    NoneOpened(s, t, now);
    SeatAdded(s, t, Seat(Shared(r.newId), actor.id));
  }

  lemma {:induction false} ProvisionedKeeps(s: State, actor: Actor, now: int)
    requires Inv(s, now) && Provisioned(s, actor).Done?
    ensures Inv(Provisioned(s, actor).state, now)
  {
    var t, w := Provisioned(s, actor).state, PersonalOf(actor.tenant, actor.id);
    assert Seat(w, actor.id) in t.members;
    if w in s.workspaces { assert RoleOf(s, w, w.person) == Some(Owner); }
    OwnersStay(s, t);
    NoneOpened(s, t, now);
    SeatAdded(s, t, Seat(w, actor.id));
  }

  /** One more seat takes nothing away from what the invitations rest on. */
  lemma {:induction false} SeatAdded(s: State, t: State, seat: Seat)
    requires SendersAreOwners(s) && AcceptedAreMembers(s) && t.invitations == s.invitations
    requires (seat in s.members && t.members == s.members) ||
             (seat !in s.members && seat in t.members && t.members == s.members[seat := t.members[seat]])
    ensures SendersAreOwners(t) && AcceptedAreMembers(t)
  {
  }

  // ---- Invitations ----

  /** Only the version of a workspace differs. */
  ghost predicate SameSharing(s: State, t: State) {
    && t.members == s.members && t.invitations == s.invitations && t.workspaces.Keys == s.workspaces.Keys
    && forall w {:trigger t.workspaces[w]} :: w in t.workspaces ==> t.workspaces[w].personal == s.workspaces[w].personal
  }

  lemma {:induction false} SavedIsSame(s: State, w: WorkspaceId)
    requires w in s.workspaces
    ensures SameSharing(s, Saved(s, w))
  {
  }

  lemma {:induction false} SameKeeps(s: State, t: State, now: int)
    requires Inv(s, now) && SameSharing(s, t)
    ensures Inv(t, now)
  {
    OwnersStay(s, t);
    NoneOpened(s, t, now);
    assert SendersAreOwners(t) && AcceptedAreMembers(t) by {
      forall id | id in t.invitations && t.invitations[id].status == Pending
        ensures RoleOf(t, t.invitations[id].workspace, t.invitations[id].createdBy) == Some(Owner)
      {
        assert RoleOf(s, s.invitations[id].workspace, s.invitations[id].createdBy) == Some(Owner);
      }
    }
    assert SeatsFit(t) by {
      forall w | w in t.workspaces && w.PersonalOf? ensures RoleOf(t, w, w.person) == Some(Owner) {
        assert RoleOf(s, w, w.person) == Some(Owner);
      }
    }
  }

  lemma {:induction false} SavedKeeps(s: State, w: WorkspaceId, now: int)
    requires Inv(s, now) && w in s.workspaces
    ensures Inv(Saved(s, w), now)
  {
    SavedIsSame(s, w);
    SameKeeps(s, Saved(s, w), now);
  }

  /** One invitation set to i, nothing else. */
  ghost predicate Put(s: State, t: State, id: Id, i: Invitation) {
    t.workspaces == s.workspaces && t.members == s.members && t.invitations == s.invitations[id := i]
  }

  lemma {:induction false} PutKeeps(s: State, t: State, id: Id, i: Invitation, now: int)
    requires Inv(s, now) && Put(s, t, id, i) && i.workspace in s.workspaces && i.workspace.Shared? && WellIssued(i)
    requires i.status == Accepted ==> RoleOf(s, i.workspace, i.target).Some?
    requires i.status == Pending ==> RoleOf(s, i.workspace, i.createdBy) == Some(Owner)
    requires OneOpenEach(t, now)
    ensures Inv(t, now)
  {
    OwnersStay(s, t);
    forall k | k in t.invitations && t.invitations[k].status == Pending
      ensures RoleOf(t, t.invitations[k].workspace, t.invitations[k].createdBy) == Some(Owner)
    {
      if k != id { assert RoleOf(s, s.invitations[k].workspace, s.invitations[k].createdBy) == Some(Owner); }
    }
    forall k | k in t.invitations && t.invitations[k].status == Accepted
      ensures RoleOf(t, t.invitations[k].workspace, t.invitations[k].target).Some?
    {
      if k != id { assert RoleOf(s, s.invitations[k].workspace, s.invitations[k].target).Some?; }
    }
    PutFits(s, t, id, i);
  }

  lemma {:induction false} PutFits(s: State, t: State, id: Id, i: Invitation)
    requires InvitationsFit(s) && SeatsFit(s) && Put(s, t, id, i)
    requires i.workspace in s.workspaces && i.workspace.Shared? && WellIssued(i)
    ensures InvitationsFit(t) && SeatsFit(t)
  {
  }

  /** An invitation that is settled opens nothing. */
  lemma {:induction false} SettledKeeps(s: State, id: Id, i: Invitation, now: int)
    requires Inv(s, now) && id in s.invitations && i.workspace == s.invitations[id].workspace && WellIssued(i)
    requires i.status == Revoked || i.status == Declined ||
             (i.status == Accepted && RoleOf(s, i.workspace, i.target).Some?)
    ensures Inv(Saved(s.(invitations := s.invitations[id := i]), i.workspace), now)
  {
  }

  lemma {:induction false} InvitedOnce(s: State, newId: Id, i: Invitation, now: int)
    requires OneOpenEach(s, now) && newId !in s.invitations && !OpenInvitation(s, i.workspace, i.target, now)
    ensures OneOpenEach(s.(invitations := s.invitations[newId := i]), now)
  {
  }

  lemma {:induction false} InvitedKeeps(s: State, actor: Actor, r: Request, now: int)
    requires Inv(s, now) && r.Invite? && r.w in s.workspaces && !s.workspaces[r.w].personal
    requires RoleOf(s, r.w, actor.id) == Some(Owner) && Invited(s, actor, r, now).Done?
    ensures Inv(Invited(s, actor, r, now).state, now)
  {
    var i := Invitation(r.w, r.target, r.role.value, Pending, actor.id, now, now + SEVEN_DAYS, 1);
    var t := s.(invitations := s.invitations[r.newId := i]);
    InvitedOnce(s, r.newId, i, now);
    PutKeeps(s, t, r.newId, i, now);
    SavedKeeps(t, r.w, now);
  }

  lemma {:induction false} SeatedKeeps(s: State, t: State, w: WorkspaceId, a: Id, role: Role, now: int)
    requires Inv(s, now) && w in s.workspaces && w.Shared? && RoleOf(s, w, a) == None
    requires t == s.(members := s.members[Seat(w, a) := role])
    ensures Inv(t, now)
  {
    OwnersStay(s, t);
    NoneOpened(s, t, now);
    SeatAdded(s, t, Seat(w, a));
    forall v | v in t.workspaces && v.PersonalOf? ensures RoleOf(t, v, v.person) == Some(Owner) {
      assert RoleOf(s, v, v.person) == Some(Owner);
    }
  }

  function AcceptedState(s: State, id: Id): State
    requires id in s.invitations && s.invitations[id].workspace in s.workspaces
  {
    var i := s.invitations[id];
    var u := s.(members := s.members[Seat(i.workspace, i.target) := i.role]);
    Saved(u.(invitations := u.invitations[id := i.(status := Accepted, version := i.version + 1)]), i.workspace)
  }

  function DeclinedState(s: State, id: Id): State
    requires id in s.invitations && s.invitations[id].workspace in s.workspaces
  {
    var i := s.invitations[id];
    Saved(s.(invitations := s.invitations[id := i.(status := Declined, version := i.version + 1)]), i.workspace)
  }

  lemma {:induction false} AcceptedKeeps(s: State, id: Id, now: int)
    requires Inv(s, now) && id in s.invitations &&
             RoleOf(s, s.invitations[id].workspace, s.invitations[id].target) == None
    ensures Inv(AcceptedState(s, id), now)
  {
    var i := s.invitations[id].(status := Accepted, version := s.invitations[id].version + 1);
    var u := s.(members := s.members[Seat(i.workspace, i.target) := i.role]);
    assert AcceptedState(s, id) == Saved(u.(invitations := u.invitations[id := i]), i.workspace);
    assert i.workspace.Shared? && i.workspace == s.invitations[id].workspace;
    SeatedKeeps(s, u, i.workspace, i.target, i.role, now);
    SettledKeeps(u, id, i, now);
  }

  lemma {:induction false} DeclinedKeeps(s: State, id: Id, now: int)
    requires Inv(s, now) && id in s.invitations
    ensures Inv(DeclinedState(s, id), now)
  {
    var i := s.invitations[id].(status := Declined, version := s.invitations[id].version + 1);
    assert DeclinedState(s, id) == Saved(s.(invitations := s.invitations[id := i]), i.workspace);
    SettledKeeps(s, id, i, now);
  }

  /** An answer that goes through: the addressee, in the workspace's tenant, of an invitation still open. */
  lemma {:induction false} AnsweredIs(s: State, actor: Actor, r: Request, now: int)
    requires r.Answer? && RouteCheck(s, actor, r, now) == None && Answered(s, actor, r, now).Done?
    ensures s.invitations[r.id].target == actor.id && InTenant(s, actor, s.invitations[r.id].workspace)
    ensures r.accept ==> RoleOf(s, s.invitations[r.id].workspace, actor.id) == None
    ensures Answered(s, actor, r, now).state == if r.accept then AcceptedState(s, r.id) else DeclinedState(s, r.id)
  {
  }

  lemma {:induction false} AnsweredKeeps(s: State, actor: Actor, r: Request, t: State, now: int)
    requires Inv(s, now) && r.Answer? && RouteCheck(s, actor, r, now) == None && Answered(s, actor, r, now) == Done(t)
    ensures Inv(t, now)
  {
    AnsweredIs(s, actor, r, now);
    if r.accept { AcceptedKeeps(s, r.id, now); } else { DeclinedKeeps(s, r.id, now); }
  }

  lemma {:induction false} WithdrawnKeeps(s: State, w: WorkspaceId, id: Id, now: int)
    requires Inv(s, now) && w in s.workspaces && InvitationWithdrawn(s, w, id, now).Done?
    ensures Inv(InvitationWithdrawn(s, w, id, now).state, now)
  {
    SettledKeeps(s, id, Withdrawn(s.invitations[id]), now);
  }

  /** Every request, granted or refused, keeps all of it. */
  lemma {:induction false} ApplyKeeps(s: State, actor: Actor, r: Request, now: int)
    requires Inv(s, now) && Apply(s, actor, r, now).Done?
    ensures Inv(Apply(s, actor, r, now).state, now)
  {
    match r
    case ProvisionPersonal => ProvisionedKeeps(s, actor, now);
    case CreateWorkspace(_, _, _) => CreatedKeeps(s, actor, r, now);
    case Answer(_, _, _) => AnsweredKeeps(s, actor, r, Apply(s, actor, r, now).state, now);
    case RenameWorkspace(w, _, _) => SavedKeeps(s, w, now);
    case ChangeRole(w, target, role, _) => ChangedKeeps(s, w, target, role, now);
    case RemoveMember(w, target, _) => ChangedKeeps(s, w, target, None, now);
    case Leave(w, _) => ChangedKeeps(s, w, actor.id, None, now);
    case Invite(_, _, _, _, _, _) => InvitedKeeps(s, actor, r, now);
    case RevokeInvitation(w, id, _) => WithdrawnKeeps(s, w, id, now);
  }

  lemma {:induction false} TimePasses(s: State, t: int, now: int)
    requires Inv(s, t) && t <= now
    ensures Inv(s, now)
  {
    forall i, j, v, g | i in s.invitations && j in s.invitations && OpenFor(s.invitations[i], v, g, now) &&
      OpenFor(s.invitations[j], v, g, now)
      ensures i == j
    {
      assert OpenFor(s.invitations[i], v, g, t) && OpenFor(s.invitations[j], v, g, t);
    }
  }

  // ---- Runs ----

  datatype Event = Event(actor: Actor, request: Request, at: int)

  /** The state after an event; a refused request leaves it as it was. */
  function After(s: State, e: Event): State {
    match Apply(s, e.actor, e.request, e.at)
    case Done(t) => t
    case Failed(_) => s
  }

  ghost predicate InTime(events: seq<Event>) {
    forall i, j {:trigger events[i], events[j]} :: 0 <= i < j < |events| ==> events[i].at <= events[j].at
  }

  /** The state after the first n events. */
  function StateAt(events: seq<Event>, n: nat): State
    requires n <= |events|
  {
    if n == 0 then State(map[], map[], map[]) else After(StateAt(events, n - 1), events[n - 1])
  }

  /** Whatever is asked, by whomever and in whatever order: every workspace has an owner,
      open invitations come from current owners, accepted ones belong to members, and
      nobody has two open invitations to the same workspace. */
  lemma {:induction false} EveryRunIsSound(events: seq<Event>, n: nat, now: int)
    requires InTime(events) && n <= |events| && (n > 0 ==> events[n - 1].at <= now)
    ensures Inv(StateAt(events, n), now)
  {
    if n > 0 {
      var e, s := events[n - 1], StateAt(events, n - 1);
      if n > 1 { assert events[n - 2].at <= events[n - 1].at; }
      EveryRunIsSound(events, n - 1, e.at);
      if Apply(s, e.actor, e.request, e.at).Done? { ApplyKeeps(s, e.actor, e.request, e.at); }
      TimePasses(After(s, e), e.at, now);
    }
  }

  /** The re-check of the sender never refuses: an invitation that is still open has an owner behind it. */
  lemma {:induction false} SenderCheckNeverFires(events: seq<Event>, n: nat, id: Id, now: int)
    requires InTime(events) && n <= |events| && (n > 0 ==> events[n - 1].at <= now)
    requires id in StateAt(events, n).invitations && ShownStatus(StateAt(events, n).invitations[id], now) == Pending
    ensures var i := StateAt(events, n).invitations[id];
            RoleOf(StateAt(events, n), i.workspace, i.createdBy) == Some(Owner)
  {
    EveryRunIsSound(events, n, now);
  }

  /** Two invitations of one person to one workspace both read as pending only at the very moment one of them
      expires. */
  lemma {:induction false} TwoPendingOnlyAtExpiry(events: seq<Event>, n: nat, i: Id, j: Id, now: int)
    requires InTime(events) && n <= |events| && (n > 0 ==> events[n - 1].at <= now)
    requires var invs := StateAt(events, n).invitations;
             && i in invs && j in invs && i != j && invs[i].workspace == invs[j].workspace &&
                invs[i].target == invs[j].target
             && ShownStatus(invs[i], now) == Pending && ShownStatus(invs[j], now) == Pending
    ensures var invs := StateAt(events, n).invitations;
            invs[i].expiresAt == now || invs[j].expiresAt == now
  {
    EveryRunIsSound(events, n, now);
    var invs := StateAt(events, n).invitations;
    var w, t := invs[i].workspace, invs[i].target;
    assert !OpenFor(invs[i], w, t, now) || !OpenFor(invs[j], w, t, now);
  }

  lemma {:induction false} StateStep(events: seq<Event>, n: nat)
    requires 0 < n <= |events|
    ensures StateAt(events, n) == After(StateAt(events, n - 1), events[n - 1])
  {
  }

  function NewWorkspace(a: Actor, w: Id): State {
    State(map[Shared(w) := Workspace(a.tenant, false, false, 1)], map[Seat(Shared(w), a.id) := Owner], map[])
  }

  lemma {:induction false} FirstInvitation(a: Actor, w: Id, b: Id, role: Role, i: Id, now: int) returns (s: State)
    requires a.tenant != "" && !a.agent && a.id != LOCAL_OWNER && b != a.id && role != Owner
    ensures Apply(State(map[], map[], map[]), a, CreateWorkspace(w, true, true), now) ==
            Done(NewWorkspace(a, w))
    ensures s == State(map[Shared(w) := Workspace(a.tenant, false, false, 2)], map[Seat(Shared(w), a.id) := Owner],
                       map[i := Invitation(Shared(w), b, role, Pending, a.id, now, now + SEVEN_DAYS, 1)])
    ensures Apply(NewWorkspace(a, w), a, Invite(Shared(w), b, true, Some(role), i, Some(1)), now) == Done(s)
  {
    s := State(map[Shared(w) := Workspace(a.tenant, false, false, 2)], map[Seat(Shared(w), a.id) := Owner],
               map[i := Invitation(Shared(w), b, role, Pending, a.id, now, now + SEVEN_DAYS, 1)]);
  }

  /** And at that moment they can: an owner who invites, and invites again as the first invitation expires, leaves
      two. */
  lemma {:induction false} InvitedAgainAtExpiry(a: Actor, w: Id, b: Id, role: Role, i: Id, j: Id, now: int)
    returns (events: seq<Event>)
    requires a.tenant != "" && !a.agent && a.id != LOCAL_OWNER && b != a.id && role != Owner && i != j
    ensures InTime(events) && |events| == 3 && events[2].at == now
    ensures var invs := StateAt(events, 3).invitations;
            && i in invs && j in invs && invs[i].target == invs[j].target == b &&
               invs[i].workspace == invs[j].workspace == Shared(w)
            && ShownStatus(invs[i], now) == Pending && ShownStatus(invs[j], now) == Pending && invs[i].expiresAt == now
  {
    events := [
      Event(a, CreateWorkspace(w, true, true), now - SEVEN_DAYS),
      Event(a, Invite(Shared(w), b, true, Some(role), i, Some(1)), now - SEVEN_DAYS),
      Event(a, Invite(Shared(w), b, true, Some(role), j, Some(2)), now)];
    var s := FirstInvitation(a, w, b, role, i, now - SEVEN_DAYS);
    StateStep(events, 1);
    StateStep(events, 2);
    StateStep(events, 3);
    assert StateAt(events, 2) == s;
    assert !OpenInvitation(s, Shared(w), b, now);
    assert Apply(s, a, events[2].request, now) == Invited(s, a, events[2].request, now);
  }

  // ---- Leaving, and coming back ----

  predicate Seated(s: State, w: WorkspaceId, a: Id) {
    Seat(w, a) in s.members
  }

  predicate IsOpenFor(i: Invitation, w: WorkspaceId, a: Id) {
    i.workspace == w && i.target == a && i.status == Pending
  }

  ghost predicate NoneOpen(s: State, w: WorkspaceId, a: Id) {
    forall id {:trigger s.invitations[id]} :: id in s.invitations ==> !IsOpenFor(s.invitations[id], w, a)
  }

  /** Open invitations for the seat are none of the old ones. */
  ghost predicate OpenAreNew(s: State, w: WorkspaceId, a: Id, old': set<Id>) {
    forall id {:trigger s.invitations[id]} ::
      id in s.invitations && IsOpenFor(s.invitations[id], w, a) ==> id !in old'
  }

  lemma {:induction false} EndedForAll(s: State, w: WorkspaceId, a: Id)
    requires w in s.workspaces && Changed(s, w, a, None).Done?
    ensures NoneOpen(Changed(s, w, a, None).state, w, a)
  {
  }

  /** A seat is given up only by being removed or by leaving, in a shared workspace. */
  lemma {:induction false} DepartureIs(s: State, e: Event, w: WorkspaceId, a: Id)
    requires Seated(s, w, a) && !Seated(After(s, e), w, a)
    ensures w in s.workspaces && !s.workspaces[w].personal && Changed(s, w, a, None) == Done(After(s, e))
    ensures e.request == RemoveMember(w, a, e.request.expected) ||
            (e.request == Leave(w, e.request.expected) && e.actor.id == a)
  {
  }

  lemma {:induction false} RowsStay(s: State, e: Event)
    ensures s.workspaces.Keys <= After(s, e).workspaces.Keys && s.invitations.Keys <= After(s, e).invitations.Keys
  {
  }

  lemma {:induction false} OpenStayNew(s: State, e: Event, w: WorkspaceId, a: Id, old': set<Id>)
    requires OpenAreNew(s, w, a, old') && old' <= s.invitations.Keys
    ensures OpenAreNew(After(s, e), w, a, old')
  {
  }

  /** What a single event that seats someone must have been. */
  lemma {:induction false} SeatedHow(s: State, e: Event, w: WorkspaceId, a: Id)
    requires Inv(s, e.at) && w in s.workspaces && !s.workspaces[w].personal
    requires !Seated(s, w, a) && Seated(After(s, e), w, a)
    ensures e.request.Answer? && e.request.accept && e.request.id in s.invitations && e.actor.id == a
    ensures InTenant(s, e.actor, w)
    ensures var i := s.invitations[e.request.id];
            && i.workspace == w && i.target == a && i.status == Pending && RoleOf(s, w, i.createdBy) == Some(Owner)
            && e.at <= i.createdAt + SEVEN_DAYS
            && RoleOf(After(s, e), w, a) == Some(i.role) && i.role != Owner
  {
    assert Apply(s, e.actor, e.request, e.at).Done?;
    assert e.request.Answer?;
    assert WellIssued(s.invitations[e.request.id]);
  }

  lemma {:induction false} AwayStart(s: State, e: Event, w: WorkspaceId, a: Id)
    requires Seated(s, w, a) && !Seated(After(s, e), w, a) && SeatsFit(s)
    ensures OpenAreNew(After(s, e), w, a, After(s, e).invitations.Keys) && w in After(s, e).workspaces && w.Shared?
  {
    DepartureIs(s, e, w, a);
    EndedForAll(s, w, a);
    RowsStay(s, e);
  }

  lemma {:induction false} AwayUntilInvited(events: seq<Event>, d: nat, n: nat, w: WorkspaceId, a: Id, old': set<Id>)
    requires InTime(events) && d < n <= |events|
    requires Seated(StateAt(events, d), w, a) && !Seated(StateAt(events, d + 1), w, a)
    requires old' == StateAt(events, d + 1).invitations.Keys
    ensures OpenAreNew(StateAt(events, n), w, a, old') && old' <= StateAt(events, n).invitations.Keys
    ensures w in StateAt(events, n).workspaces && w.Shared?
    decreases n
  {
    var s, e := StateAt(events, n - 1), events[n - 1];
    if n == d + 1 {
      if d > 0 { assert events[d - 1].at <= events[d].at; }
      EveryRunIsSound(events, d, e.at);
      AwayStart(s, e, w, a);
    } else {
      AwayUntilInvited(events, d, n - 1, w, a, old');
      RowsStay(s, e);
      OpenStayNew(s, e, w, a, old');
    }
  }

  /** Whoever left, or was removed from, a workspace becomes a member again only by
      accepting, in the workspace's tenant and within seven days of its issue, an invitation
      that did not exist when they left, sent by someone who is an owner at the moment of
      accepting; and never as an owner. */
  lemma {:induction false} ReturnOnlyByNewInvitation(events: seq<Event>, d: nat, j: nat, w: WorkspaceId, a: Id)
    requires InTime(events) && d < j < |events|
    requires Seated(StateAt(events, d), w, a) && !Seated(StateAt(events, d + 1), w, a)
    requires !Seated(StateAt(events, j), w, a) && Seated(StateAt(events, j + 1), w, a)
    ensures var e, s := events[j], StateAt(events, j);
            && e.request.Answer? && e.request.accept && e.actor.id == a && InTenant(s, e.actor, w)
            && e.request.id in s.invitations && e.request.id !in StateAt(events, d + 1).invitations
            && var i := s.invitations[e.request.id];
               && i.workspace == w && i.target == a && RoleOf(s, w, i.createdBy) == Some(Owner)
               && e.at <= i.createdAt + SEVEN_DAYS
               && RoleOf(StateAt(events, j + 1), w, a) == Some(i.role) && i.role != Owner
  {
    AwayUntilInvited(events, d, j, w, a, StateAt(events, d + 1).invitations.Keys);
    assert events[j - 1].at <= events[j].at;
    EveryRunIsSound(events, j, events[j].at);
    SeatedHow(StateAt(events, j), events[j], w, a);
  }

  // ---- Who can change whose place ----

  /** A person's place in a workspace changes only through themselves, or through an owner
      acting in the workspace's tenant; and no request moves a workspace to another tenant. */
  lemma {:induction false} PlacesChangeOnlyBy(s: State, e: Event, w: WorkspaceId, a: Id)
    requires RoleOf(After(s, e), w, a) != RoleOf(s, w, a)
    ensures e.actor.id == a ||
            (RoleOf(s, w, e.actor.id) == Some(Owner) && InTenant(s, e.actor, w) && !e.actor.agent
             && (e.request.ChangeRole? || e.request.RemoveMember?) && e.request.w == w && e.request.target == a)
  {
    assert Apply(s, e.actor, e.request, e.at).Done?;
    if e.request.Answer? { AnsweredIs(s, e.actor, e.request, e.at); }
  }

  lemma {:induction false} TenantStays(s: State, e: Event, w: WorkspaceId)
    requires w in s.workspaces
    ensures w in After(s, e).workspaces && After(s, e).workspaces[w].tenant == s.workspaces[w].tenant
  {
  }

  // ---- Versions ----

  predicate NamesWorkspace(r: Request) {
    !r.CreateWorkspace? && !r.Answer? && !r.ProvisionPersonal?
  }

  /** Every change to a shared workspace moves its version on by one, so of two requests made
      from the same version only one can succeed. */
  lemma {:induction false} StaleRequestsFail(s: State, e: Event, f: Event)
    requires NamesWorkspace(e.request) && NamesWorkspace(f.request) && e.request.w == f.request.w
    requires e.request.expected == f.request.expected && Apply(s, e.actor, e.request, e.at).Done?
    ensures After(s, e).workspaces[e.request.w].version == s.workspaces[e.request.w].version + 1
    ensures Apply(After(s, e), f.actor, f.request, f.at).Failed?
  {
  }
}
