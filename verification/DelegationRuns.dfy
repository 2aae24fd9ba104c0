// What every run of grants, choices and disconnections keeps, and the one thing
// that can go wrong: a range saved while its connection is being disconnected.
module DelegationRuns {
  import opened Basics
  import opened Delegation
  import opened DelegationSteps

  ghost predicate Follows(worlds: seq<World>, events: seq<Event>, n: nat)
    requires n < |events| < |worlds|
  {
    Enabled(worlds[n], events[n]) && worlds[n + 1] == After(worlds[n], events[n])
  }

  /** Each event is one the row locks let through. */
  ghost predicate Chain(worlds: seq<World>, events: seq<Event>) {
    |worlds| == |events| + 1 && forall n: nat :: n < |events| ==> Follows(worlds, events, n)
  }

  /** A run from empty tables. */
  ghost predicate Run(worlds: seq<World>, events: seq<Event>) {
    Chain(worlds, events) && exists tenants :: worlds[0] == World(State(tenants, map[], map[]), map[], 0, map[])
  }

  lemma {:induction false} EveryRunIsSound(worlds: seq<World>, events: seq<Event>, n: nat)
    requires Run(worlds, events) && n <= |events|
    ensures Inv(worlds[n]) && worlds[n].count == n
  {
    if n > 0 {
      EveryRunIsSound(worlds, events, n - 1);
      assert Follows(worlds, events, n - 1);
      EventKeeps(worlds[n - 1], events[n - 1]);
    }
  }

  // ---- What happened at an event ----

  predicate IsOpen(w: World, key: RangeKey) {
    key in w.tables.rules && w.tables.rules[key].revokedAt == None
  }

  /** The event commits a save of the range at key. */
  predicate Saves(w: World, e: Event, key: RangeKey) {
    e.Commit? && e.p in w.calls && w.calls[e.p].Placed? && KeyOf(w.calls[e.p].actor, w.calls[e.p].choice) == key
  }

  /** The event commits a disconnection of the connection. */
  predicate Disconnects(w: World, e: Event, connection: Id) {
    e.Commit? && e.p in w.calls && w.calls[e.p].Leaving? && w.calls[e.p].connection == connection
  }

  predicate TurnsOff(w: World, e: Event, id: Id) {
    e.Single? && e.command == TurnOff(id) && Result(w.tables, e).Done?
  }

  /** The event makes the connection active by consent or approval. */
  predicate Reconnects(w: World, e: Event, connection: Id) {
    e.Single? && (e.command.Consent? || e.command.Approve?) && e.command.id == connection && Result(w.tables, e).Done?
  }

  /** The disconnection committed by the event had run its range statement before event k, and locked its connection
      after it. */
  predicate Crosses(w: World, e: Event, k: nat) {
    e.Commit? && e.p in w.calls && w.calls[e.p].Leaving? && w.calls[e.p].since < k < w.calls[e.p].locked
  }

  /** Call c of process p ran its range statement at event c.since. */
  ghost predicate EndedRangesThen(worlds: seq<World>, events: seq<Event>, p: nat, c: Call)
    requires |worlds| == |events| + 1 && (c.RangesEnded? || c.Leaving?)
  {
    && c.since < |events| && events[c.since].Step? && events[c.since].p == p
    && p in worlds[c.since].calls && worlds[c.since].calls[p] == Ending(c.actor, c.connection)
    && c.keys == OpenKeys(worlds[c.since].tables.rules, c.actor.id, c.connection)
  }

  /** It took hold of its connection at event c.locked. */
  ghost predicate LockedThen(worlds: seq<World>, events: seq<Event>, p: nat, c: Call)
    requires |worlds| == |events| + 1 && c.Leaving?
  {
    && c.locked < |events| && events[c.locked].Step? && events[c.locked].p == p && p in worlds[c.locked].calls
    && worlds[c.locked].calls[p] == RangesEnded(c.actor, c.connection, c.keys, c.now, c.since)
  }

  lemma {:induction false} CallMoves(w: World, e: Event, p: nat)
    requires Enabled(w, e) && p in After(w, e).calls
    ensures var c := After(w, e).calls[p];
            || Fresh(c) || (p in w.calls && c == w.calls[p])
            || (e.Step? && e.p == p && p in w.calls && c == Next(w.tables, w.calls[p], w.count, e.now))
  {
  }

  ghost predicate Numbered(worlds: seq<World>, events: seq<Event>, p: nat, c: Call)
    requires |worlds| == |events| + 1
  {
    && (c.RangesEnded? || c.Leaving? ==> EndedRangesThen(worlds, events, p, c))
    && (c.Leaving? ==> LockedThen(worlds, events, p, c))
  }

  lemma {:induction false} NumberedMoves(worlds: seq<World>, events: seq<Event>, n: nat, p: nat)
    requires |worlds| == |events| + 1 && n < |events| && Follows(worlds, events, n) && worlds[n].count == n
    requires p in worlds[n].calls ==> Numbered(worlds, events, p, worlds[n].calls[p])
    requires p in worlds[n + 1].calls
    ensures Numbered(worlds, events, p, worlds[n + 1].calls[p])
  {
    CallMoves(worlds[n], events[n], p);
  }

  /** `since` and `locked` number the statements they are named after, of the very same call. */
  lemma {:induction false} StatementsAreNumbered(worlds: seq<World>, events: seq<Event>, n: nat, p: nat)
    requires Run(worlds, events) && n <= |events| && p in worlds[n].calls
    ensures Numbered(worlds, events, p, worlds[n].calls[p])
  {
    if n > 0 {
      EveryRunIsSound(worlds, events, n - 1);
      if p in worlds[n - 1].calls { StatementsAreNumbered(worlds, events, n - 1, p); }
      NumberedMoves(worlds, events, n - 1, p);
    }
  }

  // ---- An open range ----

  /** The event does not turn the range off; if it disconnects, that call ran across event k. */
  predicate Spares(w: World, e: Event, key: RangeKey, k: nat) {
    key in w.tables.rules && !TurnsOff(w, e, w.tables.rules[key].id) &&
      (Disconnects(w, e, key.connection) ==> Crosses(w, e, k))
  }

  /** A range still open after a disconnection of its connection was saved between its two statements. */
  lemma {:induction false} RangeThroughLeaving(w: World, e: Event, key: RangeKey)
    requires RangesFit(w.tables) && SavesKnown(w) && Enabled(w, e) && e.Commit? && w.calls[e.p].Leaving?
    requires Fine(w.tables, w.calls[e.p]) && Missed(w, w.calls[e.p]) && IsOpen(After(w, e), key)
    ensures IsOpen(w, key) && After(w, e).tables.rules[key] == w.tables.rules[key]
    ensures Disconnects(w, e, key.connection) ==> Crosses(w, e, w.saves[key])
  {
    assert key in w.tables.rules && w.tables.connections[key.connection].actor == key.actor;
  }

  lemma {:induction false} RangeThroughSingle(w: World, e: Event, key: RangeKey)
    requires RangesFit(w.tables) && Enabled(w, e) && e.Single? && IsOpen(After(w, e), key)
    ensures IsOpen(w, key) && After(w, e).tables.rules[key] == w.tables.rules[key]
    ensures !TurnsOff(w, e, w.tables.rules[key].id)
  {
    if e.command.TurnOff? && Result(w.tables, e).Done? {
      var j :| j in w.tables.rules && w.tables.rules[j].id == e.command.id && j.actor == e.actor.id;
      assert w.tables.rules[key].id == After(w, e).tables.rules[key].id;
    }
  }

  /** What one event does to an open range: saves it afresh, or leaves it alone. */
  lemma {:induction false} RangeMoves(w: World, e: Event, key: RangeKey)
    requires Inv(w) && Enabled(w, e) && IsOpen(After(w, e), key)
    ensures key in After(w, e).saves
    ensures if Saves(w, e, key)
            then After(w, e).saves[key] == w.count && After(w, e).tables.rules[key] == w.calls[e.p].rule
            else
              && IsOpen(w, key) && key in w.saves && After(w, e).saves[key] == w.saves[key]
              && After(w, e).tables.rules[key] == w.tables.rules[key] && Spares(w, e, key, w.saves[key])
  {
    if e.Commit? {
      assert Fine(w.tables, w.calls[e.p]) && Missed(w, w.calls[e.p]);
      if w.calls[e.p].Leaving? { RangeThroughLeaving(w, e, key); }
    } else if e.Single? {
      RangeThroughSingle(w, e, key);
    }
  }

  lemma {:induction false} RangeMovesAt(worlds: seq<World>, events: seq<Event>, n: nat, key: RangeKey)
    requires Run(worlds, events) && n < |events| && IsOpen(worlds[n + 1], key)
    ensures key in worlds[n + 1].saves
    ensures if Saves(worlds[n], events[n], key)
            then worlds[n + 1].saves[key] == n && worlds[n + 1].tables.rules[key] == worlds[n].calls[events[n].p].rule
            else
              && IsOpen(worlds[n], key) && key in worlds[n].saves && worlds[n + 1].saves[key] == worlds[n].saves[key]
              && worlds[n + 1].tables.rules[key] == worlds[n].tables.rules[key]
              && Spares(worlds[n], events[n], key, worlds[n].saves[key])
  {
    EveryRunIsSound(worlds, events, n);
    assert Follows(worlds, events, n);
    RangeMoves(worlds[n], events[n], key);
  }

  /** Events after k and before n leave the range open; those that disconnect it ran across event k. */
  ghost predicate SparedSince(worlds: seq<World>, events: seq<Event>, k: nat, n: nat, key: RangeKey)
    requires n <= |events| < |worlds|
  {
    forall m: nat :: k < m < n ==> Spares(worlds[m], events[m], key, k)
  }

  /** In every run an open range stands as the last save of it placed it. Since then it has not been turned off,
      and its connection was disconnected only by calls that had looked for ranges before that save and took
      hold of the connection after it. */
  lemma {:induction false} OpenRangeWasSaved(worlds: seq<World>, events: seq<Event>, n: nat, key: RangeKey)
    returns (k: nat)
    requires Run(worlds, events) && n <= |events| && IsOpen(worlds[n], key)
    ensures k < n && Saves(worlds[k], events[k], key) && key in worlds[n].saves && worlds[n].saves[key] == k
    ensures worlds[n].tables.rules[key] == worlds[k].calls[events[k].p].rule
    ensures SparedSince(worlds, events, k, n, key)
  {
    assert n > 0;
    RangeMovesAt(worlds, events, n - 1, key);
    if Saves(worlds[n - 1], events[n - 1], key) {
      k := n - 1;
    } else {
      k := OpenRangeWasSaved(worlds, events, n - 1, key);
    }
  }

  /** A placed range is what the person chose, for at most ninety days, over a connection that may apply. */
  predicate AsChosen(s: State, c: Call)
    requires c.Placed?
  {
    && c.rule.expiresAt <= c.rule.updatedAt + MAX_DAYS * DAY && c.rule.revokedAt == None
    && c.rule.allowCreate == c.choice.create && c.rule.allowUpdate == c.choice.update &&
       c.rule.allowGuarded == c.choice.guarded
    && Visible(s, c.actor, c.choice.connection) && s.connections[c.choice.connection].Allows(SCOPE_APPLY)
  }

  lemma {:induction false} FineIsAsChosen(s: State, c: Call)
    requires c.Placed? && Fine(s, c)
    ensures AsChosen(s, c)
  {
  }

  lemma {:induction false} PlacedAsChosen(worlds: seq<World>, events: seq<Event>, k: nat, key: RangeKey)
    requires Run(worlds, events) && k < |events| && Saves(worlds[k], events[k], key)
    ensures AsChosen(worlds[k].tables, worlds[k].calls[events[k].p])
  {
    EveryRunIsSound(worlds, events, k);
    FineIsAsChosen(worlds[k].tables, worlds[k].calls[events[k].p]);
  }

  /** A range in force was saved less than 90 days ago by the person it acts for, its connection may apply, and
      neither it nor the connection was revoked since, but for disconnections that ran across that save. */
  lemma {:induction false} InForceMeansRecentlySaved(worlds: seq<World>, events: seq<Event>, n: nat, a: Actor, w: Id,
      now: int)
    returns (k: nat)
    requires Run(worlds, events) && n <= |events| && InForce(worlds[n].tables, a, w, now).Some?
    ensures var key := RangeKey(a.id, w, a.connection.value);
            && k < n && Saves(worlds[k], events[k], key)
            && InForce(worlds[n].tables, a, w, now) == Some(worlds[k].calls[events[k].p].rule)
            && now - worlds[k].calls[events[k].p].rule.updatedAt < MAX_DAYS * DAY
            && SparedSince(worlds, events, k, n, key)
    ensures worlds[n].tables.connections[a.connection.value].Allows(SCOPE_APPLY)
  {
    var key := RangeKey(a.id, w, a.connection.value);
    k := OpenRangeWasSaved(worlds, events, n, key);
    PlacedAsChosen(worlds, events, k, key);
  }

  // ---- Open under a connection that is not active ----

  /** Event m disconnected the connection and nothing before n made it active again. */
  ghost predicate LastDisconnect(worlds: seq<World>, events: seq<Event>, m: nat, n: nat, connection: Id)
    requires n <= |events| < |worlds|
  {
    && m < n && Disconnects(worlds[m], events[m], connection)
    && forall j {:trigger events[j]} :: m < j < n ==> !Reconnects(worlds[j], events[j], connection)
  }

  predicate IsActive(w: World, connection: Id) {
    connection in w.tables.connections && w.tables.connections[connection].status == Active
  }

  lemma {:induction false} StatusMoves(w: World, e: Event, connection: Id)
    requires Enabled(w, e) && (e.Commit? ==> Fine(w.tables, w.calls[e.p])) && connection in w.tables.connections
    ensures connection in After(w, e).tables.connections
    ensures IsActive(After(w, e), connection) <==>
            Reconnects(w, e, connection) || (IsActive(w, connection) && !Disconnects(w, e, connection))
  {
  }

  lemma {:induction false} StatusMovesAt(worlds: seq<World>, events: seq<Event>, n: nat, connection: Id)
    requires Run(worlds, events) && n < |events| && connection in worlds[n].tables.connections
    ensures connection in worlds[n + 1].tables.connections
    ensures IsActive(worlds[n + 1], connection) <==>
            Reconnects(worlds[n], events[n], connection)
            || (IsActive(worlds[n], connection) && !Disconnects(worlds[n], events[n], connection))
  {
    EveryRunIsSound(worlds, events, n);
    assert Follows(worlds, events, n);
    StatusMoves(worlds[n], events[n], connection);
  }

  /** It was disconnected after event k and not made active again before n. */
  ghost predicate Cut(worlds: seq<World>, events: seq<Event>, k: nat, n: nat, connection: Id)
    requires n <= |events| < |worlds|
  {
    exists m: nat :: k < m && LastDisconnect(worlds, events, m, n, connection)
  }

  lemma {:induction false} CutMoves(worlds: seq<World>, events: seq<Event>, k: nat, n: nat, connection: Id)
    requires k < n < |events| < |worlds|
    ensures Cut(worlds, events, k, n + 1, connection) <==>
            Disconnects(worlds[n], events[n], connection) ||
            (!Reconnects(worlds[n], events[n], connection) && Cut(worlds, events, k, n, connection))
  {
    if Disconnects(worlds[n], events[n], connection) {
      assert LastDisconnect(worlds, events, n, n + 1, connection);
    } else if Cut(worlds, events, k, n + 1, connection) {
      var m: nat :| k < m && LastDisconnect(worlds, events, m, n + 1, connection);
      assert m < n && events[n] == events[n] && LastDisconnect(worlds, events, m, n, connection);
    } else if Cut(worlds, events, k, n, connection) {
      var m: nat :| k < m && LastDisconnect(worlds, events, m, n, connection);
      assert !LastDisconnect(worlds, events, m, n + 1, connection);
    }
  }

  /** From an event that left it active, a connection is inactive exactly when it was disconnected since
      and not reconnected after that. */
  lemma {:induction false} InactiveSince(worlds: seq<World>, events: seq<Event>, k: nat, n: nat, connection: Id)
    requires Run(worlds, events) && k < n <= |events| && IsActive(worlds[k + 1], connection)
    ensures connection in worlds[n].tables.connections
    ensures !IsActive(worlds[n], connection) <==> Cut(worlds, events, k, n, connection)
    decreases n
  {
    if n > k + 1 {
      InactiveSince(worlds, events, k, n - 1, connection);
      StatusMovesAt(worlds, events, n - 1, connection);
      CutMoves(worlds, events, k, n - 1, connection);
    }
  }

  /** An open range is left under an inactive connection exactly when a disconnection that looked for ranges
      before the range was saved took hold of the connection after it, and nobody has reconnected it yet. */
  lemma {:induction false} OpenUnderInactiveExactlyWhenCrossed(worlds: seq<World>, events: seq<Event>, n: nat,
      key: RangeKey)
    requires Run(worlds, events) && n <= |events| && IsOpen(worlds[n], key)
    ensures key in worlds[n].saves
    ensures !IsActive(worlds[n], key.connection) <==>
            exists m: nat :: worlds[n].saves[key] < m && LastDisconnect(worlds, events, m, n, key.connection)
              && Crosses(worlds[m], events[m], worlds[n].saves[key])
  {
    var k := OpenRangeWasSaved(worlds, events, n, key);
    ActiveWhenSaved(worlds, events, k, key);
    InactiveSince(worlds, events, k, n, key.connection);
    forall m: nat | k < m && LastDisconnect(worlds, events, m, n, key.connection)
      ensures Crosses(worlds[m], events[m], k)
    {
      assert Spares(worlds[m], events[m], key, k);
    }
  }

  lemma {:induction false} ActiveWhenSaved(worlds: seq<World>, events: seq<Event>, k: nat, key: RangeKey)
    requires Run(worlds, events) && k < |events| && Saves(worlds[k], events[k], key)
    ensures IsActive(worlds[k + 1], key.connection)
  {
    PlacedAsChosen(worlds, events, k, key);
    assert Follows(worlds, events, k);
  }

  /** Event m commits a disconnection across which a range of its connection was saved. */
  ghost predicate Crossed(worlds: seq<World>, events: seq<Event>, m: nat)
    requires m < |events| < |worlds|
  {
    exists k: nat, key: RangeKey {:trigger Saves(worlds[k], events[k], key)} ::
      k < m && Disconnects(worlds[m], events[m], key.connection) && Crosses(worlds[m], events[m], k) &&
        Saves(worlds[k], events[k], key)
  }

  /** Where no range was saved across a disconnection, an open range always belongs to an active connection,
      which has not been disconnected since the range was saved: reconnecting revives nothing. */
  lemma {:induction false} UncrossedRunsReviveNothing(worlds: seq<World>, events: seq<Event>, n: nat, key: RangeKey)
    requires Run(worlds, events) && n <= |events| && IsOpen(worlds[n], key)
    requires forall m {:trigger events[m]} :: 0 <= m < n ==> !Crossed(worlds, events, m)
    ensures IsActive(worlds[n], key.connection) && key in worlds[n].saves
    ensures forall m {:trigger events[m]} :: worlds[n].saves[key] < m < n ==>
              !Disconnects(worlds[m], events[m], key.connection)
  {
    var k := OpenRangeWasSaved(worlds, events, n, key);
    OpenUnderInactiveExactlyWhenCrossed(worlds, events, n, key);
    forall m | k < m < n ensures !Disconnects(worlds[m], events[m], key.connection) {
      assert !Crossed(worlds, events, m) && Spares(worlds[m], events[m], key, k) && Saves(worlds[k], events[k], key);
    }
  }

  lemma {:induction false} ChainJoin(ws: seq<World>, es: seq<Event>, vs: seq<World>, fs: seq<Event>)
    returns (us: seq<World>, gs: seq<Event>)
    requires Chain(ws, es) && Chain(vs, fs) && ws[|es|] == vs[0]
    ensures Chain(us, gs) && |gs| == |es| + |fs| && us[0] == ws[0] && us[|es|] == vs[0] && us[|gs|] == vs[|fs|]
  {
    us, gs := ws + vs[1..], es + fs;
    forall n: nat | n < |gs| ensures Follows(us, gs, n) {
      if n < |es| { assert Follows(ws, es, n); } else { assert Follows(vs, fs, n - |es|) && us[n] == vs[n - |es|]; }
    }
  }

  /** The world with one call under way. */
  function With(w: World, tables: State, calls: map<nat, Call>, n: nat, saves: map<RangeKey, nat>): World {
    World(tables, calls, w.count + n, saves)
  }

  lemma {:induction false} LooksForRanges(w: World, a: Actor, id: Id, now: int) returns (ws: seq<World>, es: seq<Event>)
    requires w.calls == map[] && !a.agent
    ensures Chain(ws, es) && |es| == 2 && ws[0] == w
    ensures var c := RangesEnded(a, id, OpenKeys(w.tables.rules, a.id, id), now, w.count + 1);
            ws[2] == With(w, w.tables, map[0 := c], 2, w.saves)
  {
    es := [Arrive(0, Ending(a, id)), Step(0, now)];
    var w1 := After(w, es[0]);
    ws := [w, w1, After(w1, es[1])];
    assert Follows(ws, es, 0) && Follows(ws, es, 1);
  }

  lemma {:induction false} ChecksBeside(w: World, c: Call, a: Actor, choice: Choice, now: int)
    returns (ws: seq<World>, es: seq<Event>)
    requires w.calls == map[0 := c] && c.RangesEnded? && !a.agent && Refusal(w.tables, a, choice) == None
    ensures Chain(ws, es) && |es| == 2 && ws[0] == w
    ensures ws[2] == With(w, w.tables, map[0 := c, 1 := Checked(a, choice)], 2, w.saves)
  {
    es := [Arrive(1, Saving(a, choice)), Step(1, now)];
    var w1 := With(w, w.tables, map[0 := c, 1 := Saving(a, choice)], 1, w.saves);
    ws := [w, w1, With(w, w.tables, map[0 := c, 1 := Checked(a, choice)], 2, w.saves)];
    assert Follows(ws, es, 0);
    assert Follows(ws, es, 1);
  }

  lemma {:induction false} PlacesBeside(w: World, c: Call, a: Actor, choice: Choice, now: int)
    returns (ws: seq<World>, es: seq<Event>)
    requires w.calls == map[0 := c, 1 := Checked(a, choice)] && c.RangesEnded? && KeyOf(a, choice) !in c.keys
    requires KeyOf(a, choice) in w.tables.rules || !IdTaken(w.tables, choice.newId)
    ensures Chain(ws, es) && |es| == 2 && ws[0] == w && ws[2].calls == map[0 := c]
    ensures ws[2].tables == w.tables.(rules := w.tables.rules[KeyOf(a, choice) := Chosen(w.tables, a, choice, now)])
  {
    es := [Step(1, now), Commit(1)];
    var w1 := With(w, w.tables, map[0 := c, 1 := Placed(a, choice, Chosen(w.tables, a, choice, now))], 1, w.saves);
    ws := [w, w1, After(w1, es[1])];
    assert Follows(ws, es, 0);
    assert Follows(ws, es, 1);
    assert w1.calls - {1} == map[0 := c];
  }

  lemma {:induction false} ThenDisconnects(w: World, c: Call, now: int) returns (ws: seq<World>, es: seq<Event>)
    requires w.calls == map[0 := c] && c.RangesEnded? && Visible(w.tables, c.actor, c.connection)
    ensures Chain(ws, es) && |es| == 2 && ws[0] == w
    ensures ws[2].tables == w.tables.(rules := Closed(w.tables.rules, c.keys, c.now),
                                      connections := Left(w.tables.connections, c.connection))
    ensures ws[2].calls == map[]
  {
    es := [Step(0, now), Commit(0)];
    var w1 := After(w, es[0]);
    ws := [w, w1, After(w1, es[1])];
    assert Follows(ws, es, 0) && Follows(ws, es, 1);
  }

  lemma {:induction false} ConsentsAnew(w: World, a: Actor, id: Id, scopes: seq<string>, now: int)
    returns (ws: seq<World>, es: seq<Event>)
    requires w.calls == map[] && Visible(w.tables, a, id) && AllGrantable(scopes) && SCOPE_APPLY in scopes
    ensures Chain(ws, es) && |es| == 1 && ws[0] == w
    ensures ws[1].tables.rules == w.tables.rules && Visible(ws[1].tables, a, id) &&
            ws[1].tables.connections[id].Allows(SCOPE_APPLY)
  {
    es := [Single(a, Consent(id, scopes), now)];
    ws := [w, After(w, es[0])];
    assert Follows(ws, es, 0);
    GrantedAreAsked(scopes, |scopes|);
    assert scopes[..|scopes|] == scopes;
  }

  lemma {:induction false} SavesBetween(w: World, a: Actor, choice: Choice, now: int)
    returns (worlds: seq<World>, events: seq<Event>, c: Call)
    requires w.calls == map[] && !a.agent && Saved(w.tables, a, choice, now).Done? && !IsOpen(w, KeyOf(a, choice))
    ensures Chain(worlds, events) && |events| == 6 && worlds[0] == w
    ensures worlds[6].tables == Saved(w.tables, a, choice, now).state && worlds[6].calls == map[0 := c]
    ensures c.RangesEnded? && c.actor == a && c.connection == choice.connection && KeyOf(a, choice) !in c.keys
  {
    worlds, events := LooksForRanges(w, a, choice.connection, now);
    c := worlds[2].calls[0];
    var ws, es := ChecksBeside(worlds[2], c, a, choice, now);
    worlds, events := ChainJoin(worlds, events, ws, es);
    ws, es := PlacesBeside(worlds[4], c, a, choice, now);
    worlds, events := ChainJoin(worlds, events, ws, es);
  }

  /** Any choice that would be accepted can slip past a disconnection: saved while the disconnection is between its
      two statements, it stays open under the disconnected connection, and consenting anew puts it in force. */
  lemma {:induction false} SavedAcrossADisconnection(w: World, a: Actor, choice: Choice, scopes: seq<string>, now: int)
    returns (worlds: seq<World>, events: seq<Event>)
    requires w.calls == map[] && !a.agent && choice.connection != "" && a.connection == Some(choice.connection)
    requires Saved(w.tables, a, choice, now).Done? && !IsOpen(w, KeyOf(a, choice))
    requires AllGrantable(scopes) && SCOPE_APPLY in scopes
    ensures Chain(worlds, events) && |events| == 9 && worlds[0] == w
    ensures IsOpen(worlds[8], KeyOf(a, choice)) && choice.connection in worlds[8].tables.connections
    ensures worlds[8].tables.connections[choice.connection].status == RevokedConnection
    ensures InForce(worlds[9].tables, a, choice.workspace, now) == Some(Chosen(w.tables, a, choice, now))
  {
    var c;
    worlds, events, c := SavesBetween(w, a, choice, now);
    var ws, es := ThenDisconnects(worlds[6], c, now);
    worlds, events := ChainJoin(worlds, events, ws, es);
    ws, es := ConsentsAnew(worlds[8], a, choice.connection, scopes, now);
    worlds, events := ChainJoin(worlds, events, ws, es);
  }

  // ---- What is applied without asking ----

  /** An operation does no more than the person chose to let through. */
  ghost predicate Within(c: Choice, op: Operation, change: Change) {
    && ((EffectOf(change) == WasCreated && c.create) || (EffectOf(change) == WasUpdated && c.update))
    && (c.guarded || forall g :: 0 <= g < |GUARDED| ==> !Touches(op, GUARDED[g]))
  }

  lemma {:induction false} FitsAsChosen(s: State, c: Call, op: Operation, change: Change)
    requires c.Placed? && AsChosen(s, c) && Fits(c.rule, op, change)
    ensures Within(c.choice, op, change)
  {
  }

  /** Whatever a range lets through, the same person chose to let through less than ninety days ago: work is added
      only where adding was chosen, changed only where changing was, commitments are touched only where that was
      chosen, and nothing is ever removed, archived, or applied undescribed. */
  lemma {:induction false} AppliedAsChosen(worlds: seq<World>, events: seq<Event>, n: nat, a: Actor, w: Id,
      cs: Changeset, now: int)
    returns (k: nat)
    requires Run(worlds, events) && n <= |events| && InForce(worlds[n].tables, a, w, now).Some?
    requires Covered(InForce(worlds[n].tables, a, w, now).value, cs, now)
    ensures k < n && Saves(worlds[k], events[k], RangeKey(a.id, w, a.connection.value))
    ensures now - worlds[k].calls[events[k].p].rule.updatedAt < MAX_DAYS * DAY
    ensures |cs.operations.value| == |cs.changes.value|
    ensures forall i: nat :: i < |cs.changes.value| ==>
              Within(worlds[k].calls[events[k].p].choice, cs.operations.value[i], cs.changes.value[i])
  {
    k := InForceMeansRecentlySaved(worlds, events, n, a, w, now);
    PlacedAsChosen(worlds, events, k, RangeKey(a.id, w, a.connection.value));
    forall i: nat | i < |cs.changes.value|
      ensures Within(worlds[k].calls[events[k].p].choice, cs.operations.value[i], cs.changes.value[i])
    {
      FitsAsChosen(worlds[k].tables, worlds[k].calls[events[k].p], cs.operations.value[i], cs.changes.value[i]);
    }
  }

  // ---- Granting ----

  /** A disconnected client becomes active again only by the person consenting anew, in the same tenant. */
  lemma {:induction false} OnlyConsentReconnects(worlds: seq<World>, events: seq<Event>, n: nat, id: Id)
    requires Run(worlds, events) && n < |events|
    requires id in worlds[n].tables.connections && worlds[n].tables.connections[id].status == RevokedConnection
    requires IsActive(worlds[n + 1], id)
    ensures events[n].Single? && events[n].command.Consent? && events[n].command.id == id
    ensures Visible(worlds[n].tables, events[n].actor, id)
  {
    StatusMovesAt(worlds, events, n, id);
  }

  /** Consent and approval grant exactly the scopes asked for, each once; an approval made from an old version fails. */
  lemma {:induction false} GrantsWhatWasAsked(w: World, e: Event, id: Id, scopes: seq<string>)
    requires e.Single?
    requires e.command == Consent(id, scopes) ||
             (e.command.Approve? && e.command.id == id && e.command.scopes == scopes)
    requires Result(w.tables, e).Done?
    ensures var c := After(w, e).tables.connections[id];
            NoDup(c.scopes) && (forall x :: x in c.scopes <==> x in scopes) && c.status == Active
    ensures e.command.Approve? ==> Result(After(w, e).tables, e).Failed?
  {
    GrantedAreAsked(scopes, |scopes|);
    assert scopes[..|scopes|] == scopes;
  }
}
