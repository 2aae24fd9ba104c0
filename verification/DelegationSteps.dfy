// Granting, choosing ranges and disconnecting, while several servers answer the
// same person at once. None of these requests names a workspace in its path, so
// nothing but the rows they touch keeps them apart: a statement locks the rows it
// reads for writing or changes, and only rows it finds.
module DelegationSteps {
  import opened Basics
  import opened Delegation

  // ---- Two transactions of several statements ----

  /** A disconnection or a choice of range under way. `since` and `locked` number the statements that ended
      the ranges and locked the connection; they are kept for the proofs and no code reads them. */
  datatype Call =
    | Ending(actor: Actor, connection: Id)
    | RangesEnded(actor: Actor, connection: Id, keys: set<RangeKey>, now: int, since: nat)
    | Leaving(actor: Actor, connection: Id, keys: set<RangeKey>, now: int, since: nat, locked: nat)
    | Saving(actor: Actor, choice: Choice)
    | Checked(actor: Actor, choice: Choice)
    | Placed(actor: Actor, choice: Choice, rule: Rule)
    | Refused(actor: Actor, error: Error)

  predicate Fresh(c: Call) {
    (c.Ending? || c.Saving?) && !c.actor.agent
  }

  /** The next statement of a call, the n-th of the run; what it writes stays with it until it commits. */
  function Next(s: State, c: Call, n: nat, now: int): Call {
    match c
    case Ending(a, id) => RangesEnded(a, id, OpenKeys(s.rules, a.id, id), now, n)
    case RangesEnded(a, id, keys, at, since) =>
      if Visible(s, a, id) then Leaving(a, id, keys, at, since, n) else Refused(a, Missing)
    case Saving(a, choice) =>
      (match Refusal(s, a, choice)
       case Some(e) => Refused(a, e)
       case None => Checked(a, choice))
    case Checked(a, choice) =>
      if KeyOf(a, choice) !in s.rules && IdTaken(s, choice.newId) then Refused(a, DuplicateKey)
      else Placed(a, choice, Chosen(s, a, choice, now))
    case _ => c
  }

  predicate Complete(c: Call) {
    c.Leaving? || c.Placed?
  }

  /** The tables with a complete call's writes in them. */
  function Merged(s: State, c: Call): State
    requires c.Leaving? ==> c.connection in s.connections
  {
    match c
    case Leaving(_, id, keys, now, _, _) =>
      s.(rules := Closed(s.rules, keys, now), connections := Left(s.connections, id))
    case Placed(a, choice, rule) => s.(rules := s.rules[KeyOf(a, choice) := rule])
    case _ => s
  }

  /** With nobody beside it a disconnection ends as the method does. */
  lemma {:induction false} DisconnectAlone(s: State, a: Actor, id: Id, m: nat, n: nat, now: int, later: int)
    ensures var c := Next(s, Next(s, Ending(a, id), m, now), n, later);
            match Disconnected(s, a, id, now)
            case Failed(e) => c == Refused(a, e)
            case Done(t) => c.Leaving? && c.connection in s.connections && Merged(s, c) == t
  {
  }

  /** So does saving a range. */
  lemma {:induction false} SaveAlone(s: State, a: Actor, choice: Choice, m: nat, n: nat, earlier: int, now: int)
    ensures var c := Next(s, Next(s, Saving(a, choice), m, earlier), n, now);
            match Saved(s, a, choice, now)
            case Failed(e) => c == Refused(a, e)
            case Done(t) => c.Placed? && Merged(s, c) == t
  {
  }

  // ---- Row locks ----

  function HeldConnection(c: Call): Option<Id> {
    match c
    case Leaving(_, id, _, _, _, _) => Some(id)
    case Checked(_, choice) => Some(choice.connection)
    case Placed(_, choice, _) => Some(choice.connection)
    case _ => None
  }

  function HeldRanges(c: Call): set<RangeKey> {
    match c
    case RangesEnded(_, _, keys, _, _) => keys
    case Leaving(_, _, keys, _, _, _) => keys
    case Placed(a, choice, _) => {KeyOf(a, choice)}
    case _ => {}
  }

  /** Two calls that hold one row, or write one range id. */
  predicate Clash(c: Call, d: Call) {
    || (HeldConnection(c).Some? && HeldConnection(c) == HeldConnection(d))
    || !(HeldRanges(c) !! HeldRanges(d))
    || (c.Placed? && d.Placed? && c.rule.id == d.rule.id)
  }

  // ---- Everything at once ----

  /** Requests that lock their one row in their first statement: each is one step. */
  datatype Command =
    | EnsurePending(client: Id, newId: Id)
    | Consent(id: Id, scopes: seq<string>)
    | Approve(id: Id, scopes: seq<string>, expected: int)
    | TurnOff(id: Id)

  /** `count` numbers the events so far and `saves` the one that last saved each range; both are kept for the proofs. */
  datatype World = World(tables: State, calls: map<nat, Call>, count: nat, saves: map<RangeKey, nat>)

  datatype Event =
    | Single(actor: Actor, command: Command, now: int)
    | Arrive(p: nat, call: Call)
    | Step(p: nat, now: int)
    | Commit(p: nat)
    | Drop(p: nat)          // refused, rolled back after a deadlock, or the server died

  function Result(s: State, e: Event): Outcome
    requires e.Single?
  {
    match e.command
    case EnsurePending(client, newId) => PendingEnsured(s, e.actor, client, newId)
    case Consent(id, scopes) => Consented(s, e.actor, id, scopes)
    case Approve(id, scopes, expected) => Approved(s, e.actor, id, scopes, expected)
    case TurnOff(id) => TurnedOff(s, e.actor, id, e.now)
  }

  function Settled(s: State, o: Outcome): State {
    match o
    case Done(t) => t
    case Failed(_) => s
  }

  /** No call under way holds the row a single-step request needs. */
  ghost predicate Free(w: World, command: Command) {
    match command
    case EnsurePending(_, _) => true
    case Consent(id, _) => forall q {:trigger w.calls[q]} :: q in w.calls ==> HeldConnection(w.calls[q]) != Some(id)
    case Approve(id, _, _) => forall q {:trigger w.calls[q]} :: q in w.calls ==> HeldConnection(w.calls[q]) != Some(id)
    case TurnOff(id) =>
      forall q, k {:trigger k in HeldRanges(w.calls[q])} :: q in w.calls && k in HeldRanges(w.calls[q]) ==>
        k !in w.tables.rules || w.tables.rules[k].id != id
  }

  /** A statement waits for rows somebody else holds. An agent never manages its own delegation: these
      routes do not exist for it. */
  ghost predicate Enabled(w: World, e: Event) {
    match e
    case Single(a, command, _) => Free(w, command) && (command.Approve? || command.TurnOff? ==> !a.agent)
    case Arrive(p, c) => p !in w.calls && Fresh(c)
    case Step(p, now) =>
      p in w.calls && forall q {:trigger w.calls[q]} :: q in w.calls && q != p ==>
        !Clash(Next(w.tables, w.calls[p], w.count, now), w.calls[q])
    case Commit(p) =>
      p in w.calls && Complete(w.calls[p]) && (w.calls[p].Leaving? ==> w.calls[p].connection in w.tables.connections)
    case Drop(p) => p in w.calls
  }

  function After(w: World, e: Event): World
    requires e.Commit? ==> e.p in w.calls && (w.calls[e.p].Leaving? ==> w.calls[e.p].connection in w.tables.connections)
  {
    var v := w.(count := w.count + 1);
    match e
    case Single(_, _, _) => v.(tables := Settled(w.tables, Result(w.tables, e)))
    case Arrive(p, c) => v.(calls := w.calls[p := c])
    case Step(p, now) => if p in w.calls then v.(calls := w.calls[p := Next(w.tables, w.calls[p], w.count, now)]) else v
    case Commit(p) =>
      var c := w.calls[p];
      v.(tables := Merged(w.tables, c), calls := w.calls - {p},
         saves := if c.Placed? then w.saves[KeyOf(c.actor, c.choice) := w.count] else w.saves)
    case Drop(p) => v.(calls := w.calls - {p})
  }

  // ---- What every interleaving keeps ----

  /** Ranges hang on a connection of the same person; no two ranges share an id. */
  ghost predicate RangesFit(s: State) {
    && (forall k {:trigger s.rules[k]} :: k in s.rules ==>
          k.connection in s.connections && s.connections[k.connection].actor == k.actor)
    && forall j, k {:trigger s.rules[j], s.rules[k]} ::
       j in s.rules && k in s.rules && s.rules[j].id == s.rules[k].id ==> j == k
  }

  /** Nothing is granted that cannot be, and only to connections that are active. */
  ghost predicate ScopesAreGrantable(s: State) {
    forall id {:trigger s.connections[id]} :: id in s.connections ==>
      AllGrantable(s.connections[id].scopes) && (s.connections[id].scopes != [] ==> s.connections[id].status == Active)
  }

  /** The rows a disconnection is ending are still there, open. */
  predicate StillOpen(s: State, a: Actor, id: Id, keys: set<RangeKey>) {
    forall k :: k in keys ==> k in s.rules && k.actor == a.id && k.connection == id && s.rules[k].revokedAt == None
  }

  /** What a call has found holds until it commits, because it holds the rows. */
  predicate Fine(s: State, c: Call) {
    match c
    case RangesEnded(a, id, keys, _, _) => StillOpen(s, a, id, keys)
    case Leaving(a, id, keys, _, _, _) => StillOpen(s, a, id, keys) && Visible(s, a, id)
    case Checked(a, choice) => Refusal(s, a, choice) == None
    case Placed(a, choice, rule) =>
      && Refusal(s, a, choice) == None && rule == Chosen(s, a, choice, rule.updatedAt)
      && (KeyOf(a, choice) in s.rules || !IdTaken(s, choice.newId))
    case _ => true
  }

  /** A range a disconnection has not ended was saved after its statement, and before it locked the connection. */
  ghost predicate Missed(w: World, c: Call) {
    c.RangesEnded? || c.Leaving? ==>
      && c.since < w.count && (c.Leaving? ==> c.since < c.locked < w.count)
      && forall k {:trigger w.saves[k]} ::
           k in w.saves && k in w.tables.rules && k.actor == c.actor.id && k.connection == c.connection ==>
           && (w.tables.rules[k].revokedAt == None && k !in c.keys ==> c.since < w.saves[k])
           && (c.Leaving? ==> w.saves[k] < c.locked)
  }

  ghost predicate CallsFine(w: World) {
    && (forall p {:trigger w.calls[p]} :: p in w.calls ==> Fine(w.tables, w.calls[p]) && Missed(w, w.calls[p]))
    && forall p, q {:trigger w.calls[p], w.calls[q]} :: p in w.calls && q in w.calls && p != q ==>
       !Clash(w.calls[p], w.calls[q])
  }

  ghost predicate SavesKnown(w: World) {
    && w.saves.Keys == w.tables.rules.Keys
    && forall k {:trigger w.saves[k]} :: k in w.saves ==> w.saves[k] < w.count
  }

  ghost predicate TablesFine(w: World) {
    RangesFit(w.tables) && ScopesAreGrantable(w.tables) && SavesKnown(w)
  }

  ghost predicate Inv(w: World) {
    TablesFine(w) && CallsFine(w)
  }

  lemma {:induction false} GrantedAreAsked(scopes: seq<string>, n: nat)
    requires n <= |scopes|
    ensures forall x :: x in Granted(scopes, n) <==> x in scopes[..n]
    ensures NoDup(Granted(scopes, n))
  {
    if n > 0 {
      GrantedAreAsked(scopes, n - 1);
      assert scopes[..n] == scopes[..n - 1] + [scopes[n - 1]];
    }
  }

  // ---- Tables: one connection, or some ranges, change ----

  /** Only the connection id may have changed, keeping its person and tenant. */
  ghost predicate OnlyConnection(s: State, t: State, id: Id) {
    && t.tenants == s.tenants && t.rules == s.rules && s.connections.Keys <= t.connections.Keys
    && (forall c {:trigger t.connections[c]} :: c in s.connections ==>
          && t.connections[c].actor == s.connections[c].actor && t.connections[c].tenant == s.connections[c].tenant
          && (c != id ==> t.connections[c] == s.connections[c]))
  }

  lemma {:induction false} GrantedAreGrantable(scopes: seq<string>)
    requires AllGrantable(scopes)
    ensures AllGrantable(Granted(scopes, |scopes|))
  {
    var granted := Granted(scopes, |scopes|);
    GrantedAreAsked(scopes, |scopes|);
    forall k | 0 <= k < |granted| ensures granted[k] in GRANTABLE_SCOPES { assert granted[k] in scopes[..|scopes|]; }
  }

  lemma {:induction false} ConsentTouches(s: State, a: Actor, id: Id, scopes: seq<string>)
    requires ScopesAreGrantable(s)
    ensures OnlyConnection(s, Settled(s, Consented(s, a, id, scopes)), id)
    ensures ScopesAreGrantable(Settled(s, Consented(s, a, id, scopes)))
  {
    if Consented(s, a, id, scopes).Done? { GrantedAreGrantable(scopes); }
  }

  lemma {:induction false} FirstContactTouches(s: State, a: Actor, client: Id, newId: Id)
    requires ScopesAreGrantable(s)
    ensures OnlyConnection(s, Settled(s, PendingEnsured(s, a, client, newId)), newId)
    ensures ScopesAreGrantable(Settled(s, PendingEnsured(s, a, client, newId)))
    ensures newId in s.connections ==> Settled(s, PendingEnsured(s, a, client, newId)) == s
  {
  }

  lemma {:induction false} StaysFineOnConnection(s: State, t: State, id: Id, c: Call)
    requires OnlyConnection(s, t, id) && Fine(s, c) && (id in s.connections ==> HeldConnection(c) != Some(id))
    ensures Fine(t, c)
  {
  }

  lemma {:induction false} ConnectionKeeps(w: World, e: Event, id: Id)
    requires Inv(w) && Enabled(w, e) && e.Single? && OnlyConnection(w.tables, After(w, e).tables, id)
    requires ScopesAreGrantable(After(w, e).tables)
    requires After(w, e).tables == w.tables || id !in w.tables.connections ||
             forall q {:trigger w.calls[q]} :: q in w.calls ==> HeldConnection(w.calls[q]) != Some(id)
    ensures Inv(After(w, e))
  {
    var v := After(w, e);
    forall p | p in v.calls ensures Fine(v.tables, v.calls[p]) && Missed(v, v.calls[p]) {
      if v.tables != w.tables { StaysFineOnConnection(w.tables, v.tables, id, w.calls[p]); }
      assert Missed(w, w.calls[p]);
    }
  }

  /** Rules may only have closed, and none that is held. */
  ghost predicate OnlyCloses(s: State, t: State, held: set<RangeKey>) {
    && t.tenants == s.tenants && t.connections == s.connections && t.rules.Keys == s.rules.Keys
    && forall k {:trigger t.rules[k]} :: k in s.rules ==>
         && t.rules[k].id == s.rules[k].id && (t.rules[k].revokedAt == None ==> t.rules[k] == s.rules[k])
         && (k in held ==> t.rules[k] == s.rules[k])
  }

  lemma {:induction false} TurnOffTouches(w: World, a: Actor, id: Id, now: int, p: nat)
    requires Free(w, TurnOff(id)) && p in w.calls
    ensures OnlyCloses(w.tables, Settled(w.tables, TurnedOff(w.tables, a, id, now)), HeldRanges(w.calls[p]))
  {
  }

  lemma {:induction false} StaysFineWhenClosing(s: State, t: State, c: Call)
    requires OnlyCloses(s, t, HeldRanges(c)) && Fine(s, c)
    ensures Fine(t, c)
  {
    if c.Placed? {
      assert KeyOf(c.actor, c.choice) in HeldRanges(c);
      assert IdTaken(t, c.choice.newId) ==> IdTaken(s, c.choice.newId) by {
        if IdTaken(t, c.choice.newId) {
          var k :| k in t.rules && t.rules[k].id == c.choice.newId;
          assert s.rules[k].id == c.choice.newId;
        }
      }
    }
  }

  lemma {:induction false} TurnOffKeeps(w: World, e: Event)
    requires Inv(w) && Enabled(w, e) && e.Single? && e.command.TurnOff?
    ensures Inv(After(w, e))
  {
    var v := After(w, e);
    forall p | p in v.calls ensures Fine(v.tables, v.calls[p]) && Missed(v, v.calls[p]) {
      TurnOffTouches(w, e.actor, e.command.id, e.now, p);
      StaysFineWhenClosing(w.tables, v.tables, w.calls[p]);
      assert Missed(w, w.calls[p]);
    }
  }

  // ---- A call moves on or commits ----

  lemma {:induction false} NextIsFine(w: World, c: Call, now: int)
    requires Inv(w) && Fine(w.tables, c) && Missed(w, c)
    ensures Fine(w.tables, Next(w.tables, c, w.count, now))
    ensures Missed(w.(count := w.count + 1), Next(w.tables, c, w.count, now))
  {
  }

  /** Everything but one call stays as it was. */
  lemma {:induction false} OthersKeep(w: World, v: World, p: nat)
    requires Inv(w) && v.tables == w.tables && v.saves == w.saves && v.count == w.count + 1
    requires v.calls == w.calls - {p} || (p in v.calls && v.calls == w.calls[p := v.calls[p]]
      && Fine(v.tables, v.calls[p]) && Missed(v, v.calls[p])
      && forall q {:trigger w.calls[q]} :: q in w.calls && q != p ==> !Clash(v.calls[p], w.calls[q]))
    ensures Inv(v)
  {
    forall q | q in v.calls && q != p ensures Fine(v.tables, v.calls[q]) && Missed(v, v.calls[q]) {
      assert v.calls[q] == w.calls[q] && Missed(w, w.calls[q]);
    }
  }

  lemma {:induction false} StepKeeps(w: World, e: Event)
    requires Inv(w) && Enabled(w, e) && e.Step?
    ensures Inv(After(w, e))
  {
    NextIsFine(w, w.calls[e.p], e.now);
    assert Missed(After(w, e), Next(w.tables, w.calls[e.p], w.count, e.now));
    OthersKeep(w, After(w, e), e.p);
  }

  /** A disconnection that commits leaves what every other call has found as it was. */
  lemma {:induction false} LeavingSpares(s: State, d: Call, c: Call)
    requires d.Leaving? && Fine(s, d) && Fine(s, c) && !Clash(d, c)
    ensures Fine(Merged(s, d), c)
  {
    var t := Merged(s, d);
    var mid := s.(rules := t.rules);
    assert OnlyCloses(s, mid, HeldRanges(c));
    StaysFineWhenClosing(s, mid, c);
    StaysFineOnConnection(mid, t, d.connection, c);
  }

  lemma {:induction false} MissedWhenLeaving(w: World, e: Event, p: nat)
    requires Inv(w) && Enabled(w, e) && e.Commit? && w.calls[e.p].Leaving? && p in w.calls && p != e.p
    ensures Missed(After(w, e), w.calls[p])
  {
    assert Missed(w, w.calls[p]);
  }

  lemma {:induction false} LeavingFits(s: State, d: Call)
    requires RangesFit(s) && ScopesAreGrantable(s) && d.Leaving? && Fine(s, d)
    ensures RangesFit(Merged(s, d)) && ScopesAreGrantable(Merged(s, d))
  {
  }

  lemma {:induction false} LeavingKeeps(w: World, e: Event)
    requires Inv(w) && Enabled(w, e) && e.Commit? && w.calls[e.p].Leaving?
    ensures Inv(After(w, e))
  {
    var v, d := After(w, e), w.calls[e.p];
    LeavingFits(w.tables, d);
    forall p | p in v.calls ensures Fine(v.tables, v.calls[p]) && Missed(v, v.calls[p]) {
      LeavingSpares(w.tables, d, w.calls[p]);
      MissedWhenLeaving(w, e, p);
    }
  }

  /** So does a range that commits. */
  lemma {:induction false} PlacedSpares(s: State, d: Call, c: Call)
    requires d.Placed? && Fine(s, d) && Fine(s, c) && !Clash(d, c)
    ensures Fine(Merged(s, d), c)
  {
    var t, key := Merged(s, d), KeyOf(d.actor, d.choice);
    assert key in HeldRanges(d);
    if c.Placed? {
      assert KeyOf(c.actor, c.choice) in HeldRanges(c);
      assert IdTaken(t, c.choice.newId) ==> d.rule.id == c.choice.newId || IdTaken(s, c.choice.newId) by {
        if IdTaken(t, c.choice.newId) {
          var k :| k in t.rules && t.rules[k].id == c.choice.newId;
          assert k == key || s.rules[k].id == c.choice.newId;
        }
      }
    }
  }

  lemma {:induction false} PlacedFits(s: State, d: Call)
    requires RangesFit(s) && d.Placed? && Fine(s, d)
    ensures RangesFit(Merged(s, d))
  {
    var t, key := Merged(s, d), KeyOf(d.actor, d.choice);
    forall j, k | j in t.rules && k in t.rules && t.rules[j].id == t.rules[k].id ensures j == k {
      if j != key && k != key { assert s.rules[j].id == s.rules[k].id; }
    }
  }

  lemma {:induction false} MissedWhenPlaced(w: World, e: Event, p: nat)
    requires Inv(w) && Enabled(w, e) && e.Commit? && w.calls[e.p].Placed? && p in w.calls && p != e.p
    ensures Missed(After(w, e), w.calls[p])
  {
    assert Missed(w, w.calls[p]) && !Clash(w.calls[e.p], w.calls[p]);
  }

  lemma {:induction false} PlacedKeeps(w: World, e: Event)
    requires Inv(w) && Enabled(w, e) && e.Commit? && w.calls[e.p].Placed?
    ensures Inv(After(w, e))
  {
    var v, d := After(w, e), w.calls[e.p];
    PlacedFits(w.tables, d);
    forall p | p in v.calls ensures Fine(v.tables, v.calls[p]) && Missed(v, v.calls[p]) {
      PlacedSpares(w.tables, d, w.calls[p]);
      MissedWhenPlaced(w, e, p);
    }
  }

  lemma {:induction false} SingleKeeps(w: World, e: Event)
    requires Inv(w) && Enabled(w, e) && e.Single?
    ensures Inv(After(w, e))
  {
    match e.command
    case EnsurePending(client, newId) =>
      FirstContactTouches(w.tables, e.actor, client, newId);
      ConnectionKeeps(w, e, newId);
    case Consent(id, scopes) =>
      ConsentTouches(w.tables, e.actor, id, scopes);
      ConnectionKeeps(w, e, id);
    case Approve(id, scopes, _) =>
      ConsentTouches(w.tables, e.actor, id, scopes);
      ConnectionKeeps(w, e, id);
    case TurnOff(_) => TurnOffKeeps(w, e);
  }

  lemma {:induction false} EventKeeps(w: World, e: Event)
    requires Inv(w) && Enabled(w, e)
    ensures Inv(After(w, e))
  {
    match e
    case Single(_, _, _) => SingleKeeps(w, e);
    case Arrive(p, _) => OthersKeep(w, After(w, e), p);
    case Step(_, _) => StepKeeps(w, e);
    case Commit(p) => if w.calls[p].Leaving? { LeavingKeeps(w, e); } else { PlacedKeeps(w, e); }
    case Drop(p) => OthersKeep(w, After(w, e), p);
  }
}
