// What each request about a client comes to, told from the tables alone: exactly when it is accepted, everything
// that is stored afterwards, and exactly what is then applied without asking again.
module DelegationOutcomes {
  import opened Basics
  import opened Delegation

  // ---- Conditions on the tables ----

  /** The person's own connection, in the tenant they act in. */
  ghost predicate Owns(s: State, a: Actor, id: Id) {
    id in s.connections && s.connections[id].actor == a.id && s.connections[id].tenant == a.tenant
  }

  ghost predicate KnowsClient(s: State, a: Actor, client: Id) {
    exists id :: Owns(s, a, id) && s.connections[id].client == client
  }

  ghost predicate CanBeGranted(scope: string) {
    scope == "pathbase.read" || scope == "pathbase.propose" || scope == "pathbase.apply" || scope == "pathbase.context"
  }

  ghost predicate GoodChoice(scopes: seq<string>) {
    scopes != [] && forall k :: 0 <= k < |scopes| ==> CanBeGranted(scopes[k])
  }

  /** An active connection that may apply. */
  ghost predicate MayApply(s: State, id: Id) {
    id in s.connections && s.connections[id].status == Active && "pathbase.apply" in s.connections[id].scopes
  }

  ghost predicate GoodRange(c: Choice) {
    1 <= c.days <= 90 && (c.create || c.update) && c.mayWrite
  }

  // ---- What stays ----

  ghost predicate OtherConnectionsStay(s: State, t: State, id: Id) {
    forall x {:trigger x in t.connections} {:trigger x in s.connections} :: x != id ==>
      (x in t.connections <==> x in s.connections) && (x in s.connections ==> t.connections[x] == s.connections[x])
  }

  ghost predicate OtherRangesStay(s: State, t: State, k: RangeKey) {
    forall x {:trigger x in t.rules} {:trigger x in s.rules} :: x != k ==>
      (x in t.rules <==> x in s.rules) && (x in s.rules ==> t.rules[x] == s.rules[x])
  }

  /** The connection keeps whose it is and which client's; its version moves on by one. */
  ghost predicate SameHolder(c: Connection, d: Connection) {
    d.actor == c.actor && d.tenant == c.tenant && d.client == c.client && d.version == c.version + 1
  }

  /** The range keeps its id, what it allows, its days and its creation; it is closed now. */
  ghost predicate IsClosed(r: Rule, q: Rule, now: int) {
    && q.revokedAt == Some(now) && q.updatedAt == now && q.version == r.version + 1 && q.id == r.id
    && q.allowCreate == r.allowCreate && q.allowUpdate == r.allowUpdate && q.allowGuarded == r.allowGuarded
    && q.expiresAt == r.expiresAt && q.createdAt == r.createdAt
  }

  // ---- Connections ----

  /** A first contact leaves a pending connection without scopes; a known client leaves everything as it is. */
  lemma {:induction false} ContactIs(s: State, a: Actor, client: Id, newId: Id)
    ensures var o := PendingEnsured(s, a, client, newId);
            && o.Done? && o.state.rules == s.rules && o.state.tenants == s.tenants
            && (KnowsClient(s, a, client) ==> o.state == s)
            && (!KnowsClient(s, a, client) && newId !in s.connections ==>
                 && Owns(o.state, a, newId) && OtherConnectionsStay(s, o.state, newId)
                 && o.state.connections[newId] == Connection(a.id, a.tenant, client, [], Pending, 1))
  {
    assert KnowsClient(s, a, client) <==> HasClient(s, a, client);
  }

  lemma {:induction false} GrantableIs(scopes: seq<string>)
    ensures AllGrantable(scopes) && scopes != [] <==> GoodChoice(scopes)
  {
    assert forall x :: x in GRANTABLE_SCOPES <==> CanBeGranted(x);
  }

  lemma {:induction false} GrantedOnce(scopes: seq<string>, n: nat)
    requires n <= |scopes|
    ensures NoDup(Granted(scopes, n))
    ensures forall x :: x in Granted(scopes, n) <==> x in scopes[..n]
  {
    if n > 0 {
      GrantedOnce(scopes, n - 1);
      assert scopes[..n] == scopes[..n - 1] + [scopes[n - 1]];
    }
  }

  /** x is mentioned before y is. */
  ghost predicate MentionedBefore(scopes: seq<string>, x: string, y: string) {
    exists p :: 0 <= p < |scopes| && scopes[p] == x && y !in scopes[..p + 1]
  }

  lemma {:induction false} GrantedFrom(scopes: seq<string>, n: nat, i: nat) returns (p: nat)
    requires n <= |scopes| && i < |Granted(scopes, n)|
    ensures p < n && scopes[p] == Granted(scopes, n)[i] && |Granted(scopes, p)| == i
    ensures Granted(scopes, p + 1) == Granted(scopes, n)[..i + 1]
  {
    if i < |Granted(scopes, n - 1)| { p := GrantedFrom(scopes, n - 1, i); } else { p := n - 1; }
  }

  /** Scopes are granted in the order they are first mentioned. */
  lemma {:induction false} GrantedInOrder(scopes: seq<string>, i: nat, j: nat)
    requires i < j < |Granted(scopes, |scopes|)|
    ensures MentionedBefore(scopes, Granted(scopes, |scopes|)[i], Granted(scopes, |scopes|)[j])
  {
    var g := Granted(scopes, |scopes|);
    var p := GrantedFrom(scopes, |scopes|, i);
    GrantedOnce(scopes, |scopes|);
    GrantedOnce(scopes, p + 1);
    assert g[j] !in g[..i + 1];
  }

  /** The connection becomes active with exactly the scopes asked for, each once, in the order they are mentioned. */
  ghost predicate BecomesActive(s: State, t: State, id: Id, scopes: seq<string>) {
    && id in s.connections && id in t.connections && OtherConnectionsStay(s, t, id)
    && SameHolder(s.connections[id], t.connections[id]) && t.connections[id].status == Active
    && NoDup(t.connections[id].scopes) && (forall x :: x in t.connections[id].scopes <==> x in scopes)
    && (forall i, j :: 0 <= i < j < |t.connections[id].scopes| ==>
          MentionedBefore(scopes, t.connections[id].scopes[i], t.connections[id].scopes[j]))
    && t.rules == s.rules && t.tenants == s.tenants
  }

  /** Consent is accepted exactly for the person's own connection and a choice of scopes that can be granted. */
  lemma {:induction false} ConsentIs(s: State, a: Actor, id: Id, scopes: seq<string>)
    ensures var o := Consented(s, a, id, scopes);
            && (o.Done? <==> Owns(s, a, id) && GoodChoice(scopes))
            && (o.Done? ==> BecomesActive(s, o.state, id, scopes))
  {
    GrantableIs(scopes);
    GrantedOnce(scopes, |scopes|);
    assert scopes[..|scopes|] == scopes;
    var g := Granted(scopes, |scopes|);
    forall i, j | 0 <= i < j < |g| ensures MentionedBefore(scopes, g[i], g[j]) { GrantedInOrder(scopes, i, j); }
  }

  /** The settings screen also needs the latest version, and cannot bring back a disconnected client. */
  lemma {:induction false} ApprovalIs(s: State, a: Actor, id: Id, scopes: seq<string>, expected: int)
    ensures var o := Approved(s, a, id, scopes, expected);
            && (o.Done? <==>
                 && Owns(s, a, id) && GoodChoice(scopes) && s.connections[id].version == expected
                 && s.connections[id].status != RevokedConnection)
            && (o.Done? ==> BecomesActive(s, o.state, id, scopes))
  {
    ConsentIs(s, a, id, scopes);
  }

  /** Disconnecting needs only that the connection is the person's own. It leaves it revoked without scopes and
      closes now exactly the open ranges that hang on it. */
  lemma {:induction false} DisconnectionIs(s: State, a: Actor, id: Id, now: int)
    ensures var o := Disconnected(s, a, id, now);
            && (o.Done? <==> Owns(s, a, id))
            && (o.Done? ==>
                 && id in o.state.connections && OtherConnectionsStay(s, o.state, id)
                 && SameHolder(s.connections[id], o.state.connections[id])
                 && o.state.connections[id].status == RevokedConnection && o.state.connections[id].scopes == []
                 && o.state.rules.Keys == s.rules.Keys && o.state.tenants == s.tenants
                 && forall k {:trigger o.state.rules[k]} :: k in s.rules ==>
                      if k.actor == a.id && k.connection == id && s.rules[k].revokedAt == None
                      then IsClosed(s.rules[k], o.state.rules[k], now) else o.state.rules[k] == s.rules[k])
  {
  }

  // ---- Ranges ----

  /** A range is saved exactly for one to ninety days, allowing something, in a workspace the person may write to, on
      their own active connection that may apply. It then stands open as chosen until its days are over; a range
      saved before keeps its id and its creation, and every other range stays. */
  lemma {:induction false} SavingIs(s: State, a: Actor, c: Choice, now: int)
    ensures var o, k := Saved(s, a, c, now), RangeKey(a.id, c.workspace, c.connection);
            && (o.Done? <==>
                 && GoodRange(c) && Owns(s, a, c.connection) && MayApply(s, c.connection)
                 && (k in s.rules || forall x :: x in s.rules ==> s.rules[x].id != c.newId))
            && (o.Done? ==>
                 && o.state.connections == s.connections && o.state.tenants == s.tenants
                 && OtherRangesStay(s, o.state, k) && k in o.state.rules
                 && var r := o.state.rules[k];
                    && r.allowCreate == c.create && r.allowUpdate == c.update && r.allowGuarded == c.guarded
                    && r.expiresAt == now + 86400 * c.days && r.revokedAt == None && r.updatedAt == now
                    && (k in s.rules ==>
                          r.id == s.rules[k].id && r.createdAt == s.rules[k].createdAt &&
                          r.version == s.rules[k].version + 1)
                    && (k !in s.rules ==> r.id == c.newId && r.createdAt == now && r.version == 1))
  {
  }

  /** A choice that is refused: for its days, for allowing nothing, for a connection that is not the person's own, not
      active or may not apply, for a workspace they may not write to. */
  lemma {:induction false} SavingRefusedWith(s: State, a: Actor, c: Choice, now: int)
    ensures var o := Saved(s, a, c, now);
            if c.days < 1 || c.days > 90 || !(c.create || c.update) then o == Failed(Invalid)
            else if !Owns(s, a, c.connection) then o == Failed(Missing)
            else if !MayApply(s, c.connection) then o == Failed(Invalid)
            else if !c.mayWrite then o == Failed(Forbidden)
            else o.Done? || o == Failed(DuplicateKey)
  {
  }

  /** An approval, and a consent, that is refused. */
  lemma {:induction false} GrantRefusedWith(s: State, a: Actor, id: Id, scopes: seq<string>, expected: int)
    ensures var o := Approved(s, a, id, scopes, expected);
            if !Owns(s, a, id) then o == Failed(Missing)
            else if s.connections[id].version != expected then o == Failed(VersionConflict)
            else if s.connections[id].status == RevokedConnection then o == Failed(ConnectionRevoked)
            else if !GoodChoice(scopes) then o == Failed(Invalid) else o.Done?
    ensures var o := Consented(s, a, id, scopes);
            if !Owns(s, a, id) then o == Failed(Missing) else if !GoodChoice(scopes) then o == Failed(Invalid)
            else o.Done?
  {
    GrantableIs(scopes);
  }

  ghost predicate HasRange(s: State, a: Actor, id: Id) {
    exists k :: k in s.rules && s.rules[k].id == id && k.actor == a.id && k.workspace in s.tenants &&
      s.tenants[k.workspace] == a.tenant
  }

  /** Turning off needs a range of the person's own in the tenant they act in; it closes it and stays on record. */
  lemma {:induction false} TurningOffIs(s: State, a: Actor, id: Id, now: int)
    ensures var o := TurnedOff(s, a, id, now);
            && (o.Done? <==> HasRange(s, a, id))
            && (o.Done? ==>
                 && o.state.connections == s.connections && o.state.tenants == s.tenants
                 && o.state.rules.Keys == s.rules.Keys
                 && forall k {:trigger o.state.rules[k]} :: k in s.rules ==>
                      if s.rules[k].id == id && k.actor == a.id then IsClosed(s.rules[k], o.state.rules[k], now)
                      else o.state.rules[k] == s.rules[k])
  {
    assert SeesRange(s, a, id) <==> HasRange(s, a, id);
  }

  // ---- What is applied without asking again ----

  ghost predicate IsCommitment(key: string) {
    || key == "due_date" || key == "start_date" || key == "scheduled_date" || key == "assignee_id"
    || key == "self_assessment" || key == "target" || key == "baseline"
  }

  /** One operation with its recorded difference stays inside the range. */
  ghost predicate StaysInside(r: Rule, op: Operation, c: Change) {
    && ((c.effect == Some("created") && r.allowCreate) || (c.effect == Some("updated") && r.allowUpdate))
    && (c.archivedAfter ==> c.archivedBefore)
    && (r.allowGuarded || forall key :: key in op.keys || key in op.fieldKeys ==> !IsCommitment(key))
  }

  lemma {:induction false} FitsIs(r: Rule, op: Operation, c: Change)
    ensures Fits(r, op, c) <==> StaysInside(r, op, c)
  {
    assert forall key :: IsCommitment(key) <==> key in GUARDED;
    if forall k :: 0 <= k < |GUARDED| ==> !Touches(op, GUARDED[k]) {
      forall key | IsCommitment(key) ensures key !in op.keys && key !in op.fieldKeys { UntouchedAt(op, key); }
    }
  }

  lemma {:induction false} UntouchedAt(op: Operation, key: string)
    requires key in GUARDED && forall k :: 0 <= k < |GUARDED| ==> !Touches(op, GUARDED[k])
    ensures !Touches(op, key)
  {
    var k :| 0 <= k < |GUARDED| && GUARDED[k] == key;
  }

  /** The range a request arriving on connection c may use. */
  ghost predicate Usable(s: State, a: Actor, w: Id, now: int, c: Id, r: Rule) {
    && a.connection == Some(c) && c != "" && Owns(s, a, c) && MayApply(s, c)
    && RangeKey(a.id, w, c) in s.rules && r == s.rules[RangeKey(a.id, w, c)] && r.revokedAt == None && now < r.expiresAt
  }

  /** A proposal is applied at once exactly when it arrives on the connection it was made by, that connection is the
      person's own, active and may apply, the person's range for it in the workspace is open and not over, and every
      operation of the proposal, of which there is at least one, is described and stays inside the range. */
  lemma {:induction false} AppliedAtOnceExactlyWhen(s: State, a: Actor, w: Id, cs: Changeset, now: int, r: Rule)
    ensures (InForce(s, a, w, now) == Some(r) && cs.proposedBy == a.connection && Covered(r, cs, now)) <==>
            exists c :: Usable(s, a, w, now, c, r) && cs.proposedBy == Some(c) &&
              cs.operations.Some? && cs.changes.Some? && |cs.operations.value| == |cs.changes.value| > 0 &&
              forall i :: 0 <= i < |cs.operations.value| ==>
                StaysInside(r, cs.operations.value[i], cs.changes.value[i])
  {
    InForceIs(s, a, w, now, r);
    if cs.operations.Some? && cs.changes.Some? && |cs.operations.value| == |cs.changes.value| {
      forall i {:trigger cs.operations.value[i]} | 0 <= i < |cs.operations.value|
        ensures Fits(r, cs.operations.value[i], cs.changes.value[i]) <==>
                StaysInside(r, cs.operations.value[i], cs.changes.value[i])
      {
        FitsIs(r, cs.operations.value[i], cs.changes.value[i]);
      }
    }
  }

  lemma {:induction false} InForceIs(s: State, a: Actor, w: Id, now: int, r: Rule)
    ensures InForce(s, a, w, now) == Some(r) <==> exists c :: Usable(s, a, w, now, c, r)
  {
    if InForce(s, a, w, now) == Some(r) { assert Usable(s, a, w, now, a.connection.value, r); }
  }
}
