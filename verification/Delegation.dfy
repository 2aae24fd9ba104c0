// What a person lets an AI client do: connections they consent to, and ranges
// of changes they agree to in advance.
module Delegation {
  import opened Basics

  // ---- Connections ----

  datatype ConnectionStatus = Pending | Active | RevokedConnection

  datatype Connection = Connection(actor: Id, tenant: Id, client: Id, scopes: seq<string>, status: ConnectionStatus,
    version: int)
  {
    predicate Allows(scope: string) {
      status == Active && scope in scopes
    }
  }

  const SCOPE_READ := "pathbase.read"
  const SCOPE_PROPOSE := "pathbase.propose"
  const SCOPE_APPLY := "pathbase.apply"
  const SCOPE_CONTEXT := "pathbase.context"
  const GRANTABLE_SCOPES: seq<string> := [SCOPE_READ, SCOPE_PROPOSE, SCOPE_APPLY, SCOPE_CONTEXT]

  // ---- Ranges ----

  datatype RangeKey = RangeKey(actor: Id, workspace: Id, connection: Id)

  datatype Rule = Rule(
    id: Id, allowCreate: bool, allowUpdate: bool, allowGuarded: bool, expiresAt: int, createdAt: int, updatedAt: int,
    revokedAt: Option<int>, version: int)
  {
    predicate InEffect(now: int) {
      revokedAt == None && expiresAt > now
    }
  }

  const MAX_DAYS: int := 90
  const DAY: int := 24 * 3600

  /** connection: the delegation a request arrived on, none in the browser. */
  datatype Actor = Actor(id: Id, tenant: Id, agent: bool, connection: Option<Id>)

  /** tenants: which tenant each workspace belongs to. */
  datatype State = State(tenants: map<Id, Id>, connections: map<Id, Connection>, rules: map<RangeKey, Rule>)

  datatype Error = Missing | VersionConflict | ConnectionRevoked | Invalid | Forbidden | DuplicateKey

  datatype Outcome = Done(state: State) | Failed(error: Error)

  // ---- Granting ----

  function Granted(scopes: seq<string>, n: nat): seq<string>
    requires n <= |scopes|
  {
    if n == 0 then []
    else if scopes[n - 1] in Granted(scopes, n - 1) then Granted(scopes, n - 1)
    else Granted(scopes, n - 1) + [scopes[n - 1]]
  }

  predicate AllGrantable(scopes: seq<string>) {
    forall k :: 0 <= k < |scopes| ==> scopes[k] in GRANTABLE_SCOPES
  }

  /** The connection as the person sees it from the tenant they act in. */
  predicate Visible(s: State, a: Actor, id: Id) {
    id in s.connections && s.connections[id].actor == a.id && s.connections[id].tenant == a.tenant
  }

  predicate HasClient(s: State, a: Actor, client: Id) {
    exists id :: id in s.connections && s.connections[id].actor == a.id && s.connections[id].tenant == a.tenant &&
      s.connections[id].client == client
  }

  function PendingEnsured(s: State, a: Actor, client: Id, newId: Id): Outcome {
    if HasClient(s, a, client) || newId in s.connections then Done(s)
    else Done(s.(connections := s.connections[newId := Connection(a.id, a.tenant, client, [], Pending, 1)]))
  }

  function WithScopes(s: State, id: Id, scopes: seq<string>): State
    requires id in s.connections
  {
    var c := s.connections[id];
    s.(connections := s.connections[id := c.(scopes := scopes, status := Active, version := c.version + 1)])
  }

  function Consented(s: State, a: Actor, id: Id, scopes: seq<string>): Outcome {
    if !Visible(s, a, id) then Failed(Missing)
    else if !AllGrantable(scopes) || scopes == [] then Failed(Invalid)
    else Done(WithScopes(s, id, Granted(scopes, |scopes|)))
  }

  function Approved(s: State, a: Actor, id: Id, scopes: seq<string>, expected: int): Outcome {
    if !Visible(s, a, id) then Failed(Missing)
    else if s.connections[id].version != expected then Failed(VersionConflict)
    else if s.connections[id].status == RevokedConnection then Failed(ConnectionRevoked)
    else Consented(s, a, id, scopes)
  }

  /** The open ranges of one connection. */
  function OpenKeys(rules: map<RangeKey, Rule>, actor: Id, connection: Id): set<RangeKey> {
    set k | k in rules && k.actor == actor && k.connection == connection && rules[k].revokedAt == None
  }

  function Closed(rules: map<RangeKey, Rule>, keys: set<RangeKey>, now: int): map<RangeKey, Rule> {
    map k | k in rules ::
      if k in keys then rules[k].(revokedAt := Some(now), updatedAt := now, version := rules[k].version + 1)
      else rules[k]
  }

  function Left(connections: map<Id, Connection>, id: Id): map<Id, Connection>
    requires id in connections
  {
    var c := connections[id];
    connections[id := c.(scopes := [], status := RevokedConnection, version := c.version + 1)]
  }

  function Disconnected(s: State, a: Actor, id: Id, now: int): Outcome {
    if !Visible(s, a, id) then Failed(Missing)
    else
      Done(s.(rules := Closed(s.rules, OpenKeys(s.rules, a.id, id), now), connections := Left(s.connections, id)))
  }

  // ---- Ranges: saving and turning off ----

  predicate IdTaken(s: State, id: Id) {
    exists k :: k in s.rules && s.rules[k].id == id
  }

  /** What the person chose on the screen. `mayWrite`: they may change the workspace, from the tenant they act in. */
  datatype Choice = Choice(workspace: Id, connection: Id, create: bool, update: bool, guarded: bool, days: int,
                           mayWrite: bool, newId: Id)

  function KeyOf(a: Actor, c: Choice): RangeKey {
    RangeKey(a.id, c.workspace, c.connection)
  }

  /** Why a choice is refused before its range is looked at. */
  function Refusal(s: State, a: Actor, c: Choice): Option<Error> {
    if !(1 <= c.days <= MAX_DAYS) then Some(Invalid)
    else if !c.create && !c.update then Some(Invalid)
    else if !Visible(s, a, c.connection) then Some(Missing)
    else if s.connections[c.connection].status != Active then Some(Invalid)
    else if !s.connections[c.connection].Allows(SCOPE_APPLY) then Some(Invalid)
    else if !c.mayWrite then Some(Forbidden)
    else None
  }

  /** The range as it will stand: an earlier one keeps its id and its creation, and is open again. */
  function Chosen(s: State, a: Actor, c: Choice, now: int): Rule {
    var k, until := KeyOf(a, c), now + c.days * DAY;
    if k in s.rules then
      s.rules[k].(allowCreate := c.create, allowUpdate := c.update, allowGuarded := c.guarded, expiresAt := until,
                  updatedAt := now, revokedAt := None, version := s.rules[k].version + 1)
    else Rule(c.newId, c.create, c.update, c.guarded, until, now, now, None, 1)
  }

  function Saved(s: State, a: Actor, c: Choice, now: int): Outcome {
    if Refusal(s, a, c).Some? then Failed(Refusal(s, a, c).value)
    else if KeyOf(a, c) !in s.rules && IdTaken(s, c.newId) then Failed(DuplicateKey)
    else Done(s.(rules := s.rules[KeyOf(a, c) := Chosen(s, a, c, now)]))
  }

  predicate SeesRange(s: State, a: Actor, id: Id) {
    exists k :: k in s.rules && s.rules[k].id == id && k.actor == a.id && k.workspace in s.tenants &&
      s.tenants[k.workspace] == a.tenant
  }

  function TurnedOff(s: State, a: Actor, id: Id, now: int): Outcome {
    if !SeesRange(s, a, id) then Failed(Missing)
    else
      Done(s.(rules := map k | k in s.rules ::
                if s.rules[k].id == id && k.actor == a.id
                then s.rules[k].(revokedAt := Some(now), updatedAt := now, version := s.rules[k].version + 1)
                else s.rules[k]))
  }

  /** The range in force for the connection a request arrived on. */
  function InForce(s: State, a: Actor, w: Id, now: int): Option<Rule> {
    if a.connection == None || a.connection.value == "" then None
    else
      var k := RangeKey(a.id, w, a.connection.value);
      if k !in s.rules || !s.rules[k].InEffect(now) then None
      else if !Visible(s, a, k.connection) || !s.connections[k.connection].Allows(SCOPE_APPLY) then None
      else Some(s.rules[k])
  }

  // ---- What a range covers ----

  /** `effect` is what the recorded diff row says; the sides say whether the item was archived before and after. */
  datatype Change = Change(effect: Option<string>, archivedBefore: bool, archivedAfter: bool)

  /** The keys an operation's body mentions, at the top and under `fields`. */
  datatype Operation = Operation(keys: seq<string>, fieldKeys: seq<string>)

  /** None where the stored proposal has no such list. */
  datatype Changeset = Changeset(operations: Option<seq<Operation>>, changes: Option<seq<Change>>,
    proposedBy: Option<Id>)

  datatype Effect = WasCreated | WasUpdated | WasRemoved | Unknown

  const GUARDED: seq<string> :=
    ["due_date", "start_date", "scheduled_date", "assignee_id", "self_assessment", "target", "baseline"]

  function GuardedKeys(op: Operation, n: nat): seq<string>
    requires n <= |GUARDED|
  {
    if n == 0 then []
    else if GUARDED[n - 1] in op.keys || GUARDED[n - 1] in op.fieldKeys then GuardedKeys(op, n - 1) + [GUARDED[n - 1]]
    else GuardedKeys(op, n - 1)
  }

  function EffectOf(c: Change): Effect {
    if !c.archivedBefore && c.archivedAfter then WasRemoved
    else
      match c.effect
      case None => Unknown
      case Some(e) =>
        if e == "created" then WasCreated else if e == "updated" then WasUpdated
        else if e == "deleted" then WasRemoved else Unknown
  }

  predicate CoversOperation(r: Rule, op: Operation, c: Change) {
    if !r.allowGuarded && GuardedKeys(op, |GUARDED|) != [] then false
    else
      match EffectOf(c)
      case WasCreated => r.allowCreate
      case WasUpdated => r.allowUpdate
      case WasRemoved => false
      case Unknown => false
  }

  predicate Touches(op: Operation, key: string) {
    key in op.keys || key in op.fieldKeys
  }

  lemma {:induction false} GuardedKeysAre(op: Operation, n: nat)
    requires n <= |GUARDED|
    ensures GuardedKeys(op, n) == [] <==> forall k :: 0 <= k < n ==> !Touches(op, GUARDED[k])
  {
    if n > 0 { GuardedKeysAre(op, n - 1); }
  }

  /** One operation adds or changes what the range allows, touches no commitment unless that is
      allowed too, and archives nothing. */
  ghost predicate Fits(r: Rule, op: Operation, c: Change) {
    && (r.allowGuarded || forall k :: 0 <= k < |GUARDED| ==> !Touches(op, GUARDED[k]))
    && (c.archivedBefore || !c.archivedAfter)
    && ((c.effect == Some("created") && r.allowCreate) || (c.effect == Some("updated") && r.allowUpdate))
  }

  lemma {:induction false} CoversOperationIsFits(r: Rule, op: Operation, c: Change)
    ensures CoversOperation(r, op, c) <==> Fits(r, op, c)
  {
    GuardedKeysAre(op, |GUARDED|);
  }

  /** The range is in effect, and the proposal describes each of its operations, all of which fit. */
  ghost predicate Covered(r: Rule, cs: Changeset, now: int) {
    && r.InEffect(now) && cs.operations.Some? && cs.changes.Some?
    && |cs.operations.value| == |cs.changes.value| > 0
    && forall i {:trigger cs.operations.value[i]} {:trigger cs.changes.value[i]} :: 0 <= i < |cs.operations.value| ==>
         Fits(r, cs.operations.value[i], cs.changes.value[i])
  }

  method Covers(r: Rule, cs: Changeset, now: int) returns (b: bool)
    ensures b <==> Covered(r, cs, now)
  {
    if !r.InEffect(now) { return false; }
    if cs.operations == None || cs.changes == None { return false; }
    var operations, changes := cs.operations.value, cs.changes.value;
    if operations == [] || |operations| != |changes| { return false; }
    for i := 0 to |operations|
      invariant forall j {:trigger operations[j]} {:trigger changes[j]} :: 0 <= j < i ==>
                  Fits(r, operations[j], changes[j])
    {
      CoversOperationIsFits(r, operations[i], changes[i]);
      if !CoversOperation(r, operations[i], changes[i]) { return false; }
    }
    return true;
  }

  // ---- The tables, changed in place ----

  /** The tables hold what the outcome says, or nothing changed and the error is reported. */
  ghost predicate Ended(before: State, o: Outcome, after: State, e: Option<Error>) {
    match o
    case Done(s) => e == None && after == s
    case Failed(x) => e == Some(x) && after == before
  }

  class Delegations {
    const tenants: map<Id, Id>
    var connections: map<Id, Connection>
    var rules: map<RangeKey, Rule>

    constructor (tenants: map<Id, Id>)
      ensures Now() == State(tenants, map[], map[])
    {
      this.tenants, connections, rules := tenants, map[], map[];
    }

    function Now(): State
      reads this
    {
      State(tenants, connections, rules)
    }

    method EnsurePending(a: Actor, client: Id, newId: Id)
      modifies this
      ensures PendingEnsured(old(Now()), a, client, newId) == Done(Now())
    {
      if HasClient(Now(), a, client) || newId in connections { return; }
      connections := connections[newId := Connection(a.id, a.tenant, client, [], Pending, 1)];
    }

    /** The scopes to grant: grantable ones only, each once, in the order asked. */
    method Grant(scopes: seq<string>) returns (granted: Option<seq<string>>)
      ensures granted == if AllGrantable(scopes) && scopes != [] then Some(Granted(scopes, |scopes|)) else None
    {
      var list: seq<string> := [];
      for i := 0 to |scopes|
        invariant list == Granted(scopes, i)
        invariant forall k :: 0 <= k < i ==> scopes[k] in GRANTABLE_SCOPES
        invariant list == [] <==> i == 0
      {
        if scopes[i] !in GRANTABLE_SCOPES { return None; }
        if scopes[i] !in list { list := list + [scopes[i]]; }
      }
      if list == [] { return None; }
      return Some(list);
    }

    method GrantFromConsent(a: Actor, id: Id, scopes: seq<string>) returns (e: Option<Error>)
      modifies this
      ensures Ended(old(Now()), Consented(old(Now()), a, id, scopes), Now(), e)
    {
      if !Visible(Now(), a, id) { return Some(Missing); }
      var granted := Grant(scopes);
      if granted == None { return Some(Invalid); }
      var c := connections[id];
      connections := connections[id := c.(scopes := granted.value, status := Active, version := c.version + 1)];
      return None;
    }

    method Approve(a: Actor, id: Id, scopes: seq<string>, expected: int) returns (e: Option<Error>)
      modifies this
      ensures Ended(old(Now()), Approved(old(Now()), a, id, scopes, expected), Now(), e)
    {
      if !Visible(Now(), a, id) { return Some(Missing); }
      if connections[id].version != expected { return Some(VersionConflict); }
      if connections[id].status == RevokedConnection { return Some(ConnectionRevoked); }
      e := GrantFromConsent(a, id, scopes);
    }

    method RevokeForConnection(actor: Id, connection: Id, now: int)
      modifies this`rules
      ensures rules == Closed(old(rules), OpenKeys(old(rules), actor, connection), now)
    {
      rules := map k | k in rules ::
        if k.actor == actor && k.connection == connection && rules[k].revokedAt == None
        then rules[k].(revokedAt := Some(now), updatedAt := now, version := rules[k].version + 1) else rules[k];
    }

    /** The ranges go first, in the same transaction; without such a connection it is rolled back. */
    method Disconnect(a: Actor, id: Id, now: int) returns (e: Option<Error>)
      modifies this
      ensures Ended(old(Now()), Disconnected(old(Now()), a, id, now), Now(), e)
    {
      var before := rules;
      RevokeForConnection(a.id, id, now);
      if !Visible(Now(), a, id) {
        rules := before;
        return Some(Missing);
      }
      var c := connections[id];
      connections := connections[id := c.(scopes := [], status := RevokedConnection, version := c.version + 1)];
      return None;
    }

    method Save(a: Actor, c: Choice, now: int) returns (e: Option<Error>)
      modifies this
      ensures Ended(old(Now()), Saved(old(Now()), a, c, now), Now(), e)
    {
      if !(1 <= c.days <= MAX_DAYS) { return Some(Invalid); }
      if !c.create && !c.update { return Some(Invalid); }
      if !Visible(Now(), a, c.connection) { return Some(Missing); }
      if connections[c.connection].status != Active { return Some(Invalid); }
      if !connections[c.connection].Allows(SCOPE_APPLY) { return Some(Invalid); }
      if !c.mayWrite { return Some(Forbidden); }
      var k, until := RangeKey(a.id, c.workspace, c.connection), now + c.days * DAY;
      if k in rules {
        rules := rules[k := rules[k].(allowCreate := c.create, allowUpdate := c.update, allowGuarded := c.guarded,
                                      expiresAt := until, updatedAt := now, revokedAt := None,
                                      version := rules[k].version + 1)];
      } else {
        if IdTaken(Now(), c.newId) { return Some(DuplicateKey); }
        rules := rules[k := Rule(c.newId, c.create, c.update, c.guarded, until, now, now, None, 1)];
      }
      return None;
    }

    method TurnOff(a: Actor, id: Id, now: int) returns (e: Option<Error>)
      modifies this
      ensures Ended(old(Now()), TurnedOff(old(Now()), a, id, now), Now(), e)
    {
      if !SeesRange(Now(), a, id) { return Some(Missing); }
      rules := map k | k in rules ::
        if rules[k].id == id && k.actor == a.id
        then rules[k].(revokedAt := Some(now), updatedAt := now, version := rules[k].version + 1) else rules[k];
      return None;
    }

    /** Whether a proposal may be applied on this request without asking again. */
    method Covering(a: Actor, w: Id, cs: Changeset, now: int) returns (r: Option<Rule>)
      ensures r == if InForce(Now(), a, w, now).Some? && cs.proposedBy == a.connection &&
              Covered(InForce(Now(), a, w, now).value, cs, now)
                   then InForce(Now(), a, w, now) else None
    {
      var rule := InForce(Now(), a, w, now);
      if rule == None { return None; }
      if cs.proposedBy != a.connection { return None; }
      var covers := Covers(rule.value, cs, now);
      return if covers then rule else None;
    }
  }
}
