// In which tenant a request is accepted, what becomes of a tenant switch beside
// other requests, and how a request alone ends.
module SessionOutcomes {
  import opened Basics
  import opened Sessions
  import opened SessionRuns

  // ---- The envelope a request loaded ----

  /** The envelope a cookie stands for: that of its row, or the one it carries. */
  ghost predicate StandsFor(s: Store, c: Cookie, e: Envelope) {
    match c
    case Stored(id) => s.hasDb && id in s.rows && s.rows[id] == e
    case Sealed(f) => f in s.handedOut && e == f
  }

  /** Event l is the statement by which request p loads its session, finding e. */
  ghost predicate LoadsAt(states: seq<State>, events: seq<Event>, l: nat, p: nat, e: Envelope) {
    && l < |events| < |states| && events[l].Step? && events[l].p == p && p in states[l].requests
    && states[l].requests[p].at.Begin? && StandsFor(states[l].store, states[l].requests[p].cookie, e)
  }

  /** Event m is the statement by which request p asks who its person is, and learns of these tenants. */
  ghost predicate VerifiesAt(states: seq<State>, events: seq<Event>, m: nat, p: nat, tenants: set<Id>) {
    && m < |events| < |states| && events[m].Step? && events[m].p == p && p in states[m].requests
    && states[m].requests[p].at.Verify? && events[m].w.identity == Some(tenants)
  }

  /** The envelope a request holds that has loaded its session and not yet verified it. */
  function Held(r: Request): Option<Envelope> {
    match r.at
    case Loaded(_, e) => Some(e)
    case Renew(_, e) => Some(e)
    case Save(_, e) => Some(e)
    case Verify(e) => Some(e)
    case _ => None
  }

  lemma {:induction false} HoldsOn(s: State, e: Event, p: nat)
    requires Enabled(s, e) && p in After(s, e).requests && Held(After(s, e).requests[p]).Some?
    ensures p in s.requests && After(s, e).requests[p].kind == s.requests[p].kind
    ensures var f := Held(After(s, e).requests[p]).value;
            if Held(s.requests[p]).Some? then f.tenant == Held(s.requests[p]).value.tenant
            else e.Step? && e.p == p && s.requests[p].at.Begin? && StandsFor(s.store, s.requests[p].cookie, f)
  {
  }

  /** Until it is verified, a request holds the tenant of the envelope it loaded. */
  lemma {:induction false} HoldsWhatItLoaded(hasDb: bool, states: seq<State>, events: seq<Event>, n: nat, p: nat)
    returns (l: nat, e: Envelope)
    requires Run(hasDb, states, events) && n <= |events| && p in states[n].requests
    requires Held(states[n].requests[p]).Some?
    ensures l < n && LoadsAt(states, events, l, p, e) && Held(states[n].requests[p]).value.tenant == e.tenant
  {
    assert n > 0;
    assert Follows(states, events, n - 1);
    HoldsOn(states[n - 1], events[n - 1], p);
    if Held(states[n - 1].requests[p]).Some? {
      l, e := HoldsWhatItLoaded(hasDb, states, events, n - 1, p);
    } else {
      l, e := n - 1, Held(states[n].requests[p]).value;
    }
  }

  /** The tenant a loaded envelope leads to: its own where the person has it. */
  ghost predicate ActsIn(e: Envelope, tenants: set<Id>, f: Envelope) {
    forall t :: f.tenant == Some(t) <==> e.tenant == Some(t) && t in tenants
  }

  lemma {:induction false} CheckVerifies(s: State, e: Event, p: nat)
    requires Enabled(s, e) && p in s.requests && s.requests[p].kind.Check?
    requires !s.requests[p].at.Reload? && !s.requests[p].at.SaveTenant?
    ensures p in After(s, e).requests && After(s, e).requests[p].kind.Check?
    ensures var q := After(s, e).requests[p];
            && !q.at.Reload? && !q.at.SaveTenant?
            && (q.at.Accepted? && !s.requests[p].at.Accepted? ==>
                  && e.Step? && e.p == p && s.requests[p].at.Verify? && e.w.identity.Some?
                  && ActsIn(s.requests[p].at.envelope, e.w.identity.value, q.at.envelope))
            && (s.requests[p].at.Accepted? ==> q == s.requests[p])
  {
  }

  lemma {:induction false} ChecksNeverSwitch(hasDb: bool, states: seq<State>, events: seq<Event>, n: nat, p: nat)
    requires Run(hasDb, states, events) && n <= |events| && p in states[n].requests && states[n].requests[p].kind.Check?
    ensures !states[n].requests[p].at.Reload? && !states[n].requests[p].at.SaveTenant?
  {
    assert n > 0;
    assert Follows(states, events, n - 1);
    if p in states[n - 1].requests {
      ChecksNeverSwitch(hasDb, states, events, n - 1, p);
      CheckVerifies(states[n - 1], events[n - 1], p);
    }
  }

  /** A check that is accepted loaded its session, then asked who its person is, and acts in the tenant of the
      envelope it loaded exactly when the identity service listed that tenant, and in none otherwise. */
  lemma {:induction false} CheckActsInItsTenant(hasDb: bool, states: seq<State>, events: seq<Event>, n: nat, p: nat)
    returns (l: nat, e: Envelope, m: nat, tenants: set<Id>)
    requires Run(hasDb, states, events) && n <= |events| && p in states[n].requests
    requires states[n].requests[p].kind.Check? && states[n].requests[p].at.Accepted?
    ensures l < m < n && LoadsAt(states, events, l, p, e) && VerifiesAt(states, events, m, p, tenants)
    ensures forall t :: states[n].requests[p].at.envelope.tenant == Some(t) <==> e.tenant == Some(t) && t in tenants
  {
    assert n > 0;
    assert Follows(states, events, n - 1);
    assert p in states[n - 1].requests;
    ChecksNeverSwitch(hasDb, states, events, n - 1, p);
    CheckVerifies(states[n - 1], events[n - 1], p);
    if states[n - 1].requests[p].at.Accepted? {
      l, e, m, tenants := CheckActsInItsTenant(hasDb, states, events, n - 1, p);
    } else {
      m, tenants := n - 1, events[n - 1].w.identity.value;
      l, e := HoldsWhatItLoaded(hasDb, states, events, m, p);
    }
  }

  // ---- What becomes of a tenant switch ----

  /** What event j writes to the row id, if it writes there. */
  ghost function Writes(s: State, e: Event, id: Id): Option<Envelope> {
    match e
    case SignIn(k, now, token, expiresIn, hosted, refresh) =>
      if s.store.hasDb && k == id then Some(SignedIn(now, token, expiresIn, hosted, refresh)) else None
    case Step(p, _) =>
      if p !in s.requests || !s.store.hasDb || id !in s.store.rows then None
      else
        (match s.requests[p].at
         case Save(k, e) => if k == id then Some(e) else None
         case SaveTenant(k, e) => if k == id then Some(e) else None
         case _ => None)
    case _ => None
  }

  lemma {:induction false} RowAfter(s: State, e: Event, id: Id)
    requires Enabled(s, e) && id in After(s, e).store.rows
    ensures match Writes(s, e, id)
            case Some(f) => After(s, e).store.rows[id] == f
            case None => id in s.store.rows && After(s, e).store.rows[id] == s.store.rows[id]
  {
  }

  /** A renewal begun before event s and written after it, or another switch: what can undo a switch made at s. */
  ghost predicate Overtakes(states: seq<State>, events: seq<Event>, s: nat, j: nat, id: Id, t: Id)
    requires j < |events| < |states|
  {
    && events[j].Step? && events[j].p in states[j].requests
    && var r := states[j].requests[events[j].p];
       || (r.at.SaveTenant? && r.at.row == id && r.at.envelope.tenant != Some(t))
       || (r.at.Save? && r.at.row == id && exists l: nat, e :: l < s && LoadsAt(states, events, l, events[j].p, e))
  }

  /** Event s is the last statement of a switch to tenant t on the row id, which is still there. */
  ghost predicate SwitchesAt(states: seq<State>, events: seq<Event>, s: nat, id: Id, t: Id) {
    && s < |events| < |states| && events[s].Step? && events[s].p in states[s].requests
    && id in states[s].store.rows && states[s].requests[events[s].p].kind == SelectTenant(t)
    && states[s].requests[events[s].p].at.SaveTenant? && states[s].requests[events[s].p].at.row == id
  }

  /** A request about to switch carries the tenant it asked for, and writes the row its cookie names. */
  lemma {:induction false} SwitchCarriesItsTenant(hasDb: bool, states: seq<State>, events: seq<Event>, n: nat, p: nat)
    requires Run(hasDb, states, events) && n <= |events| && p in states[n].requests
    requires states[n].requests[p].at.Reload? || states[n].requests[p].at.SaveTenant?
    ensures states[n].requests[p].kind.SelectTenant?
    ensures states[n].requests[p].at.envelope.tenant == Some(states[n].requests[p].kind.tenant)
  {
    assert n > 0;
    assert Follows(states, events, n - 1);
    var r := states[n - 1].requests[p];
    if r.at.Reload? || r.at.SaveTenant? { SwitchCarriesItsTenant(hasDb, states, events, n - 1, p); }
  }

  /** A request saves only the row its cookie names. */
  lemma {:induction false} SavesItsOwnRow(hasDb: bool, states: seq<State>, events: seq<Event>, n: nat, p: nat)
    requires Run(hasDb, states, events) && n <= |events| && p in states[n].requests && states[n].requests[p].at.Save?
    ensures states[n].requests[p].cookie == Stored(states[n].requests[p].at.row)
  {
    EveryRunIsSound(hasDb, states, events, n);
    assert Fine(states[n].born, states[n].requests[p]);
  }

  lemma {:induction false} CookieStays(hasDb: bool, states: seq<State>, events: seq<Event>, m: nat, n: nat, p: nat)
    requires Run(hasDb, states, events) && m <= n <= |events| && p in states[m].requests
    ensures p in states[n].requests && states[n].requests[p].cookie == states[m].requests[p].cookie
    decreases n
  {
    if m < n {
      CookieStays(hasDb, states, events, m, n - 1, p);
      assert Follows(states, events, n - 1);
      var s, e := states[n - 1], events[n - 1];
      if e.Step? && e.p == p {
        EveryRunIsSound(hasDb, states, events, n - 1);
        NextKeeps(s, s.requests[p], e.w);
      }
    }
  }

  /** A switch stays until another switch, or until the renewal of a request that had loaded the row before it. */
  lemma {:induction false} SwitchHolds(hasDb: bool, states: seq<State>, events: seq<Event>, s: nat, n: nat, id: Id,
      t: Id)
    requires Run(hasDb, states, events) && s < n <= |events| && SwitchesAt(states, events, s, id, t)
    requires id in states[n].store.rows
    requires forall j :: s < j < n ==> !Overtakes(states, events, s, j, id, t)
    ensures states[n].store.rows[id].tenant == Some(t)
    decreases n
  {
    var j := n - 1;
    assert Follows(states, events, j);
    RowAfter(states[j], events[j], id);
    EveryRunIsSound(hasDb, states, events, j);
    if j == s {
      RowsOnlyWithDb(hasDb, states, events, s);
      SwitchCarriesItsTenant(hasDb, states, events, s, events[s].p);
    } else if Writes(states[j], events[j], id) == None {
      SwitchHolds(hasDb, states, events, s, j, id, t);
    } else {
      RowWasThere(hasDb, states, events, s, j, id);
      assert !Overtakes(states, events, s, j, id, t);
      LaterSaveKeepsTenant(hasDb, states, events, s, j, id, t);
    }
  }

  lemma {:induction false} RowWasThere(hasDb: bool, states: seq<State>, events: seq<Event>, s: nat, j: nat, id: Id)
    requires Run(hasDb, states, events) && s < j < |events| && id in states[s].store.rows
    requires id in states[j + 1].store.rows
    ensures id in states[j].store.rows && id in states[j].born
  {
    EveryRunIsSound(hasDb, states, events, s);
    EveryRunIsSound(hasDb, states, events, j);
    BirthsStay(hasDb, states, events, s, j, id);
    BirthsStay(hasDb, states, events, j, j + 1, id);
  }

  lemma {:induction false} LaterSaveKeepsTenant(hasDb: bool, states: seq<State>, events: seq<Event>, s: nat, j: nat,
      id: Id, t: Id)
    requires Run(hasDb, states, events) && s < j < |events| && SwitchesAt(states, events, s, id, t)
    requires id in states[j].store.rows && id in states[j].born && Enabled(states[j], events[j])
    requires Writes(states[j], events[j], id).Some?
    requires forall i :: s < i <= j ==> !Overtakes(states, events, s, i, id, t)
    ensures Writes(states[j], events[j], id).value.tenant == Some(t)
    decreases j, 0
  {
    var p := events[j].p;
    assert !Overtakes(states, events, s, j, id, t);
    if states[j].requests[p].at.Save? {
      var l, e := HoldsWhatItLoaded(hasDb, states, events, j, p);
      SavesItsOwnRow(hasDb, states, events, j, p);
      CookieStays(hasDb, states, events, l, j, p);
      assert l >= s;
      assert l != s;
      SwitchHolds(hasDb, states, events, s, l, id, t);
    }
  }

  /** After a switch to t, a check that loads the row and is accepted acts in t exactly when the identity service
      lists t, unless another switch or an older renewal came between. */
  lemma {:induction false} SwitchIsActedIn(hasDb: bool, states: seq<State>, events: seq<Event>, s: nat, l: nat, n: nat,
      p: nat, id: Id, t: Id, e: Envelope) returns (m: nat, tenants: set<Id>)
    requires Run(hasDb, states, events) && s < l < n <= |events| && SwitchesAt(states, events, s, id, t)
    requires LoadsAt(states, events, l, p, e) && states[l].requests[p].cookie == Stored(id)
    requires forall j :: s < j < l ==> !Overtakes(states, events, s, j, id, t)
    requires p in states[n].requests && states[n].requests[p].kind.Check? && states[n].requests[p].at.Accepted?
    ensures l < m < n && VerifiesAt(states, events, m, p, tenants)
    ensures states[n].requests[p].at.envelope.tenant == if t in tenants then Some(t) else None
  {
    SwitchHolds(hasDb, states, events, s, l, id, t);
    var l', e';
    l', e', m, tenants := CheckActsInItsTenant(hasDb, states, events, n, p);
    LoadsOnce(hasDb, states, events, l, l', p, e, e');
    var f := states[n].requests[p].at.envelope;
    assert f.tenant == Some(t) <==> t in tenants;
    if f.tenant.Some? { assert f.tenant == Some(f.tenant.value); }
  }

  lemma {:induction false} NeverBack(hasDb: bool, states: seq<State>, events: seq<Event>, m: nat, n: nat, p: nat)
    requires Run(hasDb, states, events) && m <= n <= |events| && p in states[m].requests
    requires !states[m].requests[p].at.Begin?
    ensures p in states[n].requests && !states[n].requests[p].at.Begin?
    decreases n
  {
    if m < n {
      NeverBack(hasDb, states, events, m, n - 1, p);
      assert Follows(states, events, n - 1);
    }
  }

  lemma {:induction false} LoadsOnce(hasDb: bool, states: seq<State>, events: seq<Event>, l: nat, k: nat, p: nat,
      e: Envelope, f: Envelope)
    requires Run(hasDb, states, events) && LoadsAt(states, events, l, p, e) && LoadsAt(states, events, k, p, f)
    ensures l == k && e == f
  {
    assert Follows(states, events, l) && Follows(states, events, k);
    if l < k { NeverBack(hasDb, states, events, l + 1, k, p); }
    if k < l { NeverBack(hasDb, states, events, k + 1, l, p); }
  }

  /** One event more. */
  lemma {:induction false} Then(states: seq<State>, events: seq<Event>, e: Event)
    returns (states': seq<State>, events': seq<Event>)
    requires Run(true, states, events) && Enabled(states[|events|], e)
    ensures Run(true, states', events') && states <= states' && events' == events + [e]
    ensures states'[|events'|] == After(states[|events|], e)
  {
    states', events' := states + [After(states[|events|], e)], events + [e];
    forall n: nat | n < |events'| ensures Follows(states', events', n) {
      if n < |events| { assert Follows(states, events, n); }
    }
  }

  /** Request p is at `at`, with the row id holding e. */
  ghost predicate StandsAt(s: State, p: nat, kind: Kind, id: Id, at: Pc, e: Envelope) {
    && p in s.requests && s.requests[p].cookie == Stored(id) && s.requests[p].kind == kind && s.requests[p].at == at
    && s.store.hasDb && id in s.store.rows && s.store.rows[id] == e && s.clock == 0
  }

  /** Only request p has moved. */
  ghost predicate OnlyMoves(s: State, t: State, p: nat) {
    t.requests.Keys == s.requests.Keys &&
      forall q {:trigger t.requests[q]} :: q in s.requests && q != p ==> t.requests[q] == s.requests[q]
  }

  /** One statement more: request p gets from `at` to `next` and leaves the row as f. */
  lemma {:induction false} ThenStep(states: seq<State>, events: seq<Event>, p: nat, kind: Kind, w: World, id: Id,
      at: Pc, next: Pc, e: Envelope, f: Envelope) returns (states': seq<State>, events': seq<Event>)
    requires Run(true, states, events) && StandsAt(states[|events|], p, kind, id, at, e) && w.now == 0
    requires LeadsTo(states[|events|].store, states[|events|].requests[p], w, id, next, f)
    ensures Run(true, states', events') && states <= states' && events' == events + [Step(p, w)]
    ensures StandsAt(states'[|events'|], p, kind, id, next, f)
    ensures OnlyMoves(states[|events|], states'[|events'|], p)
  {
    states', events' := Then(states, events, Step(p, w));
  }

  ghost predicate LeadsTo(s: Store, r: Request, w: World, id: Id, next: Pc, f: Envelope) {
    var (t, q) := Next(s, r, w);
    q.cookie == r.cookie && q.kind == r.kind && q.at == next && t.hasDb && id in t.rows && t.rows[id] == f
  }

  lemma {:induction false} OnlyOneMoves(s: State, t: State, u: State, p: nat)
    requires OnlyMoves(s, t, p) && OnlyMoves(t, u, p)
    ensures OnlyMoves(s, u, p)
  {
  }

  /** An envelope whose token is nearly spent, and as it is once renewed. */
  predicate Renews(e: Envelope, w: World, f: Envelope) {
    && w.now == 0 < e.sessionEnd && e.expiresAt <= 120 && e.refresh.Some? && w.upstream == Renewed("b", None, None)
    && f == e.(token := "b", expiresAt := 3600)
  }

  /** A request loads the row, finds its token nearly spent, and renews it. */
  lemma {:induction false} ThenRenews(states: seq<State>, events: seq<Event>, p: nat, kind: Kind, w: World, id: Id,
      e: Envelope, f: Envelope) returns (states': seq<State>, events': seq<Event>)
    requires Run(true, states, events) && StandsAt(states[|events|], p, kind, id, Begin, e) && !kind.Logout?
    requires Renews(e, w, f)
    ensures Run(true, states', events') && states <= states' && events <= events' && |events'| == |events| + 3
    ensures StandsAt(states'[|events'|], p, kind, id, Save(id, f), e)
    ensures OnlyMoves(states[|events|], states'[|events'|], p)
  {
    var s1, e1 := ThenStep(states, events, p, kind, w, id, Begin, Loaded(Some(id), e), e, e);
    var s2, e2 := ThenStep(s1, e1, p, kind, w, id, Loaded(Some(id), e), Renew(Some(id), e), e, e);
    states', events' := ThenStep(s2, e2, p, kind, w, id, Renew(Some(id), e), Save(id, f), e, e);
    OnlyOneMoves(states[|events|], s1[|e1|], s2[|e2|], p);
    OnlyOneMoves(states[|events|], s2[|e2|], states'[|events'|], p);
  }

  /** A switch that has renewed goes through. */
  lemma {:induction false} ThenSwitches(states: seq<State>, events: seq<Event>, p: nat, t: Id, w: World, id: Id,
      e: Envelope, f: Envelope) returns (states': seq<State>, events': seq<Event>)
    requires Run(true, states, events) && StandsAt(states[|events|], p, SelectTenant(t), id, Save(id, f), e)
    requires w.now == 0 && w.identity == Some({t}) && f.tenant == None
    ensures Run(true, states', events') && states <= states' && events <= events' && |events'| == |events| + 4
    ensures SwitchesAt(states', events', |events| + 3, id, t)
    ensures StandsAt(states'[|events'|], p, SelectTenant(t), id, Accepted(f.(tenant := Some(t))), f.(tenant := Some(t)))
    ensures OnlyMoves(states[|events|], states'[|events'|], p)
  {
    var g, kind := f.(tenant := Some(t)), SelectTenant(t);
    var s1, e1 := ThenStep(states, events, p, kind, w, id, Save(id, f), Verify(f), e, f);
    var s2, e2 := ThenStep(s1, e1, p, kind, w, id, Verify(f), Reload(g), f, f);
    var s3, e3 := ThenStep(s2, e2, p, kind, w, id, Reload(g), SaveTenant(id, g), f, f);
    states', events' := ThenStep(s3, e3, p, kind, w, id, SaveTenant(id, g), Accepted(g), f, g);
    OnlyOneMoves(states[|events|], s1[|e1|], s2[|e2|], p);
    OnlyOneMoves(states[|events|], s2[|e2|], s3[|e3|], p);
    OnlyOneMoves(states[|events|], s3[|e3|], states'[|events'|], p);
  }

  /** A new check goes through in no tenant when it loads none. */
  lemma {:induction false} ThenChecks(states: seq<State>, events: seq<Event>, p: nat, w: World, id: Id, e: Envelope,
      tenants: set<Id>) returns (states': seq<State>, events': seq<Event>)
    requires Run(true, states, events) && StandsAt(states[|events|], p, Check, id, Begin, e)
    requires w.now == 0 < e.sessionEnd && e.expiresAt > 120 && e.tenant == None && w.identity == Some(tenants)
    ensures Run(true, states', events') && states <= states' && events <= events' && |events'| == |events| + 3
    ensures LoadsAt(states', events', |events|, p, e) && VerifiesAt(states', events', |events| + 2, p, tenants)
    ensures StandsAt(states'[|events'|], p, Check, id, Accepted(e), e)
  {
    var s1, e1 := ThenStep(states, events, p, Check, w, id, Begin, Loaded(Some(id), e), e, e);
    var s2, e2 := ThenStep(s1, e1, p, Check, w, id, Loaded(Some(id), e), Verify(e), e, e);
    states', events' := ThenStep(s2, e2, p, Check, w, id, Verify(e), Accepted(e), e, e);
  }

  /** A check and a switch start on a session whose token is nearly spent. */
  lemma {:induction false} CheckAndSwitchStart(id: Id, t: Id, e: Envelope)
    returns (states: seq<State>, events: seq<Event>)
    requires e == Envelope("a", None, 60, 43200, Some("r"), 0)
    ensures Run(true, states, events) && |events| == 3 && states[3].requests.Keys == {1, 2}
    ensures StandsAt(states[3], 1, Check, id, Begin, e) && StandsAt(states[3], 2, SelectTenant(t), id, Begin, e)
  {
    states, events := [State(Store(true, map[], {}), map[], map[], 0)], [];
    states, events := Then(states, events, SignIn(id, 0, "a", Some(60), false, Some("r")));
    states, events := Then(states, events, Arrive(1, Stored(id), Check));
    states, events := Then(states, events, Arrive(2, Stored(id), SelectTenant(t)));
  }

  /** The switch goes through between the renewal of the check and its saving. */
  lemma {:induction false} SwitchBesideARenewal(id: Id, t: Id, w: World, e: Envelope, f: Envelope)
    returns (states: seq<State>, events: seq<Event>)
    requires e == Envelope("a", None, 60, 43200, Some("r"), 0) && Renews(e, w, f) && w.identity == Some({t})
    ensures Run(true, states, events) && |events| == 13 && SwitchesAt(states, events, 12, id, t)
    ensures states[13].requests.Keys == {1, 2} && states[13].requests[2].at.Accepted?
    ensures StandsAt(states[13], 1, Check, id, Save(id, f), f.(tenant := Some(t)))
  {
    var s1, e1 := CheckAndSwitchStart(id, t, e);
    var s2, e2 := ThenRenews(s1, e1, 1, Check, w, id, e, f);
    var s3, e3 := ThenRenews(s2, e2, 2, SelectTenant(t), w, id, e, f);
    states, events := ThenSwitches(s3, e3, 2, t, w, id, e, f);
  }

  lemma {:induction false} SwitchStaysSeen(states: seq<State>, events: seq<Event>, states': seq<State>,
      events': seq<Event>, s: nat, id: Id, t: Id)
    requires SwitchesAt(states, events, s, id, t) && states <= states' && events <= events' && |events'| < |states'|
    ensures SwitchesAt(states', events', s, id, t)
  {
  }

  /** A switch can be undone without anybody asking for it: a check that loaded the row before the switch and saves
      its renewed token after it puts the old envelope back, and the next check, which loads the row after both,
      is accepted in no tenant although t is listed. */
  lemma {:induction false} SwitchUndone(id: Id, t: Id) returns (states: seq<State>, events: seq<Event>, e: Envelope)
    ensures Run(true, states, events) && |events| == 18 && SwitchesAt(states, events, 12, id, t)
    ensures LoadsAt(states, events, 15, 3, e) && VerifiesAt(states, events, 17, 3, {t})
    ensures StandsAt(states[18], 3, Check, id, Accepted(e), e) && e.tenant == None
  {
    var w := World(0, Renewed("b", None, None), Some({t}));
    var stale, f := Envelope("a", None, 60, 43200, Some("r"), 0), Envelope("b", None, 3600, 43200, Some("r"), 0);
    var s1, e1 := SwitchBesideARenewal(id, t, w, stale, f);
    var s2, e2 := ThenStep(s1, e1, 1, Check, w, id, Save(id, f), Verify(f), f.(tenant := Some(t)), f);
    var s3, e3 := Then(s2, e2, Arrive(3, Stored(id), Check));
    states, events := ThenChecks(s3, e3, 3, w, id, f, {t});
    SwitchStaysSeen(s1, e1, states, events, 12, id, t);
    e := f;
  }

  // ---- One request alone ----

  predicate NearlySpent(e: Envelope, w: World) {
    e.expiresAt <= w.now + 120
  }

  function LifeOf(expiresIn: Option<int>): int {
    match expiresIn case None => 3600 case Some(v) => if v < 60 then 60 else if v > 28800 then 28800 else v
  }

  /** The session goes on: in time, and its token good or renewed. */
  predicate GoesThrough(e: Envelope, stored: bool, w: World) {
    w.now < e.sessionEnd && (NearlySpent(e, w) ==> stored && e.refresh.Some? && w.upstream.Renewed?)
  }

  /** The session is over: its time is up, or its token is nearly spent and cannot be renewed. */
  predicate IsOver(e: Envelope, stored: bool, w: World) {
    || e.sessionEnd <= w.now
    || (NearlySpent(e, w) && (e.refresh == None || w.upstream.Declined? || (w.upstream.Renewed? && !stored)))
  }

  function LookedAfter(e: Envelope, w: World): Envelope
    requires NearlySpent(e, w) ==> w.upstream.Renewed?
  {
    if !NearlySpent(e, w) then e
    else Envelope(w.upstream.token, e.tenant, w.now + LifeOf(w.upstream.expiresIn), e.sessionEnd,
                  if w.upstream.refresh.Some? then w.upstream.refresh else e.refresh, e.signedIn)
  }

  /** What a request other than signing out does to the row before it is verified. */
  ghost predicate RowLookedAfter(s: Store, t: Store, c: Cookie, e: Envelope, w: World) {
    && t.hasDb == s.hasDb && t.handedOut == s.handedOut
    && (c.Sealed? ==> t.rows == s.rows)
    && (c.Stored? ==>
         t.rows == if IsOver(e, true, w) then s.rows - {c.id}
                   else if GoesThrough(e, true, w) then s.rows[c.id := LookedAfter(e, w)] else s.rows)
  }

  /** A cookie that stands for nothing is refused, and nothing changes. */
  lemma {:induction false} NothingStandsBehind(s: Store, c: Cookie, kind: Kind, w: World)
    requires !kind.Logout? && forall e :: !StandsFor(s, c, e)
    ensures Alone(s, NewRequest(c, kind), w) == (s, NewRequest(c, kind).(at := Refused))
  {
    AloneStep(s, NewRequest(c, kind), w);
    if c.Stored? && s.hasDb && c.id in s.rows { assert StandsFor(s, c, s.rows[c.id]); }
    if c.Sealed? { assert StandsFor(s, c, c.envelope) <==> c.envelope in s.handedOut; }
  }

  function NameOf(c: Cookie): Option<Id> {
    if c.Stored? then Some(c.id) else None
  }

  /** The first half of a request alone: refused, its session ended if it is over, or ready to be verified. */
  lemma {:induction false} LookingAfter(s: Store, c: Cookie, kind: Kind, w: World, e: Envelope)
    returns (t: Store, r: Request)
    requires !kind.Logout? && StandsFor(s, c, e)
    ensures Alone(s, NewRequest(c, kind), w) == Alone(t, r, w) && r.kind == kind && r.cookie == c
    ensures RowLookedAfter(s, t, c, e, w)
    ensures if GoesThrough(e, c.Stored?, w) then r.at == Verify(LookedAfter(e, w)) else r.at == Refused
  {
    t, r := s, NewRequest(c, kind);
    AloneStep(t, r, w);
    r := Next(t, r, w).1;
    assert r.at == Loaded(NameOf(c), e);
    AloneStep(t, r, w);
    r := Next(t, r, w).1;
    if r.at.Renew? {
      AloneStep(t, r, w);
      r := Next(t, r, w).1;
    }
    if r.at.Save? || r.at.Ending? {
      AloneStep(t, r, w);
      var n := Next(t, r, w);
      t, r := n.0, n.1;
    }
  }

  /** A check with nobody beside it is accepted exactly when its session is in time, its token is good or renewed,
      and the identity service answers; it then acts as the row says, in its tenant exactly when that is listed. A
      session that is over is removed, and a renewed one rewritten. */
  lemma {:induction false} CheckAloneIs(s: Store, c: Cookie, w: World, e: Envelope)
    requires StandsFor(s, c, e)
    ensures var (t, r) := Alone(s, NewRequest(c, Check), w);
            && RowLookedAfter(s, t, c, e, w)
            && (if GoesThrough(e, c.Stored?, w) && w.identity.Some? then
                  r.at.Accepted? && ActsIn(e, w.identity.value, r.at.envelope) &&
                  r.at.envelope == LookedAfter(e, w).(tenant := r.at.envelope.tenant)
                else r.at == Refused)
  {
    var t, r := LookingAfter(s, c, Check, w, e);
    AloneStep(t, r, w);
  }

  /** So is a switch, when the tenant asked for is listed too; it is then accepted in that tenant, which the row
      or the cookie handed back keeps. */
  lemma {:induction false} SwitchAloneIs(s: Store, c: Cookie, tenant: Id, w: World, e: Envelope)
    requires StandsFor(s, c, e)
    ensures var (t, r) := Alone(s, NewRequest(c, SelectTenant(tenant)), w);
            if GoesThrough(e, c.Stored?, w) && w.identity.Some? && tenant in w.identity.value then
              var f := LookedAfter(e, w).(tenant := Some(tenant));
              && r.at == Accepted(f) && t.hasDb == s.hasDb
              && (c.Stored? ==> t.rows == s.rows[c.id := f] && t.handedOut == s.handedOut)
              && (c.Sealed? ==> t.rows == s.rows && t.handedOut == s.handedOut + {f})
            else r.at == Refused && RowLookedAfter(s, t, c, e, w)
  {
    var t, r := LookingAfter(s, c, SelectTenant(tenant), w, e);
    AloneStep(t, r, w);
    var n := Next(t, r, w);
    t, r := n.0, n.1;
    AloneStep(t, r, w);
    if r.at.Reload? {
      n := Next(t, r, w);
      t, r := n.0, n.1;
      AloneStep(t, r, w);
    }
  }

  /** A sign-in acts in no tenant. Its token lives as long as it says, one hour if it says nothing, and at most
      eight; the session twelve hours if it can be renewed, and otherwise as long as its token. */
  lemma {:induction false} SignInIs(now: int, token: Id, expiresIn: Option<int>, hosted: bool, refresh: Option<Id>)
    ensures var e := SignedIn(now, token, expiresIn, hosted, refresh);
            var life := match expiresIn case None => 3600 case Some(v) => if v > 28800 then 28800 else v;
            && e.token == token && e.refresh == refresh && e.tenant == None && e.signedIn == now
            && (hosted || life >= 60 ==> e.expiresAt == now + life)
            && (!hosted && life < 60 ==> e.expiresAt == now + 60)
            && e.sessionEnd == if refresh.Some? then now + 43200 else e.expiresAt
  {
  }
}
