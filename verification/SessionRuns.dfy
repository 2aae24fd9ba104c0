// More about every run of sessions: which tenant a request acts in, how long a
// token lives, and exactly which cookies still work after signing out.
module SessionRuns {
  import opened Basics
  import opened Sessions

  // ---- The tenant a request acts in ----

  /** The envelope a request will be accepted with, once the identity service has answered. */
  function Verified(r: Request): Option<Envelope> {
    match r.at
    case Reload(e) => Some(e)
    case SaveTenant(_, e) => Some(e)
    case Accepted(e) => Some(e)
    case _ => None
  }

  /** At event m the identity service told request p that the person has the tenant. */
  ghost predicate ToldAt(events: seq<Event>, m: nat, p: nat, tenant: Id) {
    m < |events| && events[m].Step? && events[m].p == p && events[m].w.identity.Some? &&
      tenant in events[m].w.identity.value
  }

  lemma {:induction false} VerifiedMoves(s: State, e: Event, p: nat)
    requires Enabled(s, e) && p in After(s, e).requests && Verified(After(s, e).requests[p]).Some?
    ensures p in s.requests
    ensures var f := Verified(After(s, e).requests[p]).value;
            || Verified(s.requests[p]) == Some(f)
            || (e.Step? && e.p == p && e.w.identity.Some? && (f.tenant.Some? ==> f.tenant.value in e.w.identity.value))
  {
  }

  /** A request is accepted only in a tenant the identity service listed for the person while that request ran. */
  lemma {:induction false} TenantIsHeld(hasDb: bool, states: seq<State>, events: seq<Event>, n: nat, p: nat)
    returns (m: nat)
    requires Run(hasDb, states, events) && n <= |events| && p in states[n].requests
    requires Verified(states[n].requests[p]).Some? && Verified(states[n].requests[p]).value.tenant.Some?
    ensures m < n && ToldAt(events, m, p, Verified(states[n].requests[p]).value.tenant.value)
  {
    assert n > 0;
    assert Follows(states, events, n - 1);
    VerifiedMoves(states[n - 1], events[n - 1], p);
    if Verified(states[n - 1].requests[p]) == Verified(states[n].requests[p]) {
      m := TenantIsHeld(hasDb, states, events, n - 1, p);
    } else {
      m := n - 1;
    }
  }

  // ---- How long a token lives ----

  /** The envelope a request carries, if it carries one. */
  function Carried(r: Request): Option<Envelope> {
    match r.at
    case Loaded(_, e) => Some(e)
    case Renew(_, e) => Some(e)
    case Save(_, e) => Some(e)
    case Verify(e) => Some(e)
    case Reload(e) => Some(e)
    case SaveTenant(_, e) => Some(e)
    case Accepted(e) => Some(e)
    case _ => None
  }

  /** The token ends within eight hours of the clock, and can be renewed exactly when it could at sign-in. */
  predicate Short(e: Envelope, b: Envelope, clock: int) {
    e.expiresAt <= clock + LONGEST_TOKEN && (e.refresh.Some? <==> b.refresh.Some?)
  }

  predicate RowShort(s: State, id: Id) {
    id in s.store.rows && id in s.born ==> Short(s.store.rows[id], s.born[id], s.clock)
  }

  predicate RequestShort(r: Request, born: map<Id, Envelope>, clock: int) {
    r.cookie.Stored? && r.cookie.id in born && Carried(r).Some? ==> Short(Carried(r).value, born[r.cookie.id], clock)
  }

  ghost predicate AllShort(s: State) {
    && (forall id {:trigger s.store.rows[id]} :: id in s.store.rows ==> RowShort(s, id))
    && forall p {:trigger s.requests[p]} :: p in s.requests ==> RequestShort(s.requests[p], s.born, s.clock)
  }

  /** A statement touches only the row its cookie names. */
  lemma {:induction false} StepTouchesOwn(s: Store, r: Request, w: World, born: map<Id, Envelope>, id: Id)
    requires Fine(born, r) && id in Next(s, r, w).0.rows && r.cookie != Stored(id)
    ensures id in s.rows && Next(s, r, w).0.rows[id] == s.rows[id]
  {
  }

  lemma {:induction false} StepStaysShort(s: Store, r: Request, w: World, born: map<Id, Envelope>, clock: int)
    requires r.cookie.Stored? && r.cookie.id in born && clock <= w.now && Fine(born, r)
    requires r.cookie.id in s.rows ==> Short(s.rows[r.cookie.id], born[r.cookie.id], clock)
    requires RequestShort(r, born, clock)
    ensures var (t, q) := Next(s, r, w);
            && (r.cookie.id in t.rows ==> Short(t.rows[r.cookie.id], born[r.cookie.id], w.now))
            && RequestShort(q, born, w.now)
  {
  }

  lemma {:induction false} StepKeepsShort(s: State, p: nat, w: World)
    requires Inv(s) && AllShort(s) && Enabled(s, Step(p, w))
    ensures AllShort(After(s, Step(p, w)))
  {
    var t, r := After(s, Step(p, w)), s.requests[p];
    NextKeeps(s, r, w);
    if r.cookie.Stored? && r.cookie.id in s.born { StepStaysShort(s.store, r, w, s.born, s.clock); }
    forall id | id in t.store.rows ensures RowShort(t, id) {
      if r.cookie != Stored(id) { StepTouchesOwn(s.store, r, w, s.born, id); }
      assert RowShort(s, id);
    }
    forall q | q in t.requests ensures RequestShort(t.requests[q], t.born, t.clock) {
      assert RequestShort(s.requests[q], s.born, s.clock);
    }
  }

  lemma {:induction false} SignInKeepsShort(s: State, e: Event)
    requires Inv(s) && AllShort(s) && Enabled(s, e) && e.SignIn?
    ensures AllShort(After(s, e))
  {
    var t := After(s, e);
    forall q | q in t.requests ensures RequestShort(t.requests[q], t.born, t.clock) {
      assert RequestShort(s.requests[q], s.born, s.clock) && Fine(s.born, s.requests[q]);
    }
  }

  lemma {:induction false} ArriveKeepsShort(s: State, e: Event)
    requires Inv(s) && AllShort(s) && Enabled(s, e) && e.Arrive?
    ensures AllShort(After(s, e))
  {
    var t := After(s, e);
    forall id | id in t.store.rows ensures RowShort(t, id) { assert RowShort(s, id); }
    forall q | q in t.requests ensures RequestShort(t.requests[q], t.born, t.clock) {
      if q != e.p { assert RequestShort(s.requests[q], s.born, s.clock); }
    }
  }

  lemma {:induction false} EventKeepsShort(s: State, e: Event)
    requires Inv(s) && AllShort(s) && Enabled(s, e)
    ensures AllShort(After(s, e))
  {
    match e
    case SignIn(_, _, _, _, _, _) => SignInKeepsShort(s, e);
    case Arrive(_, _, _) => ArriveKeepsShort(s, e);
    case Step(p, w) => StepKeepsShort(s, p, w);
  }

  /** However often it was renewed, a stored session's token ends within eight hours of the latest clock reading, and
      the session can be renewed exactly when it could at its sign-in: no renewal loses its refresh token or grants
      one. */
  lemma {:induction false} TokensStayShort(hasDb: bool, states: seq<State>, events: seq<Event>, n: nat)
    requires Run(hasDb, states, events) && n <= |events|
    ensures AllShort(states[n])
    ensures forall id :: id in states[n].store.rows ==>
              id in states[n].born && Short(states[n].store.rows[id], states[n].born[id], states[n].clock)
  {
    EveryRunIsSound(hasDb, states, events, n);
    if n > 0 {
      TokensStayShort(hasDb, states, events, n - 1);
      EveryRunIsSound(hasDb, states, events, n - 1);
      assert Follows(states, events, n - 1);
      EventKeepsShort(states[n - 1], events[n - 1]);
    }
  }

  // ---- Which cookies still work after signing out ----

  /** The cookie was handed out by a sign-in or a tenant switch. */
  predicate Issued(s: State, c: Cookie) {
    match c
    case Stored(id) => id in s.born
    case Sealed(e) => e in s.store.handedOut
  }

  /** Event d signed out with the cookie. */
  ghost predicate SignsOut(states: seq<State>, events: seq<Event>, d: nat, c: Cookie)
    requires d < |events| < |states|
  {
    && events[d].Step? && events[d].p in states[d].requests
    && states[d].requests[events[d].p] == NewRequest(c, Logout) && Issued(states[d], c)
  }

  /** In some continuation of the run a request with the cookie, made from now on, is accepted. */
  ghost predicate CanBeAccepted(hasDb: bool, states: seq<State>, events: seq<Event>, c: Cookie) {
    exists states': seq<State>, events': seq<Event>, a: nat, n: nat, p: nat
      {:trigger AcceptedIn(hasDb, states', events', c, a, n, p)} ::
      states <= states' && events <= events' && |events| <= a && AcceptedIn(hasDb, states', events', c, a, n, p)
  }

  ghost predicate AcceptedIn(hasDb: bool, states: seq<State>, events: seq<Event>, c: Cookie, a: nat, n: nat, p: nat) {
    && Run(hasDb, states, events) && a < n <= |events| && events[a].Arrive? && events[a].p == p && events[a].cookie == c
    && p in states[n].requests && states[n].requests[p].at.Accepted?
  }

  /** A sealed envelope whose session is not over and whose token is not nearly spent. */
  predicate Usable(c: Cookie, now: int) {
    c.Sealed? && now < c.envelope.sessionEnd && now + REFRESH_WINDOW < c.envelope.expiresAt
  }

  lemma {:induction false} ClockRises(hasDb: bool, states: seq<State>, events: seq<Event>, m: nat, n: nat)
    requires Run(hasDb, states, events) && m <= n <= |events|
    ensures states[m].clock <= states[n].clock
    decreases n
  {
    if m < n {
      ClockRises(hasDb, states, events, m, n - 1);
      assert Follows(states, events, n - 1);
    }
  }

  /** Where a request with a sealed cookie can be that starts at t or later. */
  predicate Going(r: Request, e: Envelope, t: int) {
    && r.cookie == Sealed(e)
    && match r.at
       case Loaded(id, f) => id == None && f == e
       case Renew(id, _) => id == None
       case Save(_, _) => false
       case Verify(_) => Usable(r.cookie, t)
       case Reload(_) => Usable(r.cookie, t)
       case SaveTenant(_, _) => false
       case Accepted(_) => Usable(r.cookie, t)
       case _ => true
  }

  lemma {:induction false} GoesOn(s: State, e: Event, p: nat, c: Envelope, t: int)
    requires Enabled(s, e) && p in s.requests && Going(s.requests[p], c, t) && t <= s.clock
    ensures p in After(s, e).requests && Going(After(s, e).requests[p], c, t)
  {
  }

  lemma {:induction false} AllAlongGoing(hasDb: bool, states: seq<State>, events: seq<Event>, t: nat, a: nat, n: nat,
      p: nat, c: Envelope)
    requires Run(hasDb, states, events) && t <= a < n <= |events|
    requires events[a].Arrive? && events[a].p == p && events[a].cookie == Sealed(c)
    ensures p in states[n].requests && Going(states[n].requests[p], c, states[t].clock)
    decreases n
  {
    assert Follows(states, events, n - 1);
    if n > a + 1 {
      AllAlongGoing(hasDb, states, events, t, a, n - 1, p, c);
      ClockRises(hasDb, states, events, t, n - 1);
      GoesOn(states[n - 1], events[n - 1], p, c, states[t].clock);
    }
  }

  lemma {:induction false} FreshAbove(names: set<nat>, low: nat) returns (p: nat)
    ensures p >= low && p !in names
    decreases |names|
  {
    if low !in names { return low; }
    p := FreshAbove(names - {low}, low + 1);
  }

  /** With a usable sealed cookie a check goes through: it is loaded, in time, and verified. */
  lemma {:induction false} CheckGoesThrough(hasDb: bool, states: seq<State>, events: seq<Event>, e: Envelope)
    requires Run(hasDb, states, events) && e in states[|events|].store.handedOut &&
             Usable(Sealed(e), states[|events|].clock)
    ensures CanBeAccepted(hasDb, states, events, Sealed(e))
  {
    var n, s := |events|, states[|events|];
    var p := FreshAbove(s.requests.Keys, 0);
    var w := World(s.clock, Unavailable, Some({}));
    var more := [Arrive(p, Sealed(e), Check), Step(p, w), Step(p, w), Step(p, w)];
    var s1 := After(s, more[0]);
    var s2 := After(s1, more[1]);
    var s3 := After(s2, more[2]);
    var s4 := After(s3, more[3]);
    var states', events' := states + [s1, s2, s3, s4], events + more;
    forall m: nat | m < |events'| ensures Follows(states', events', m) {
      if m < n { assert Follows(states, events, m); }
    }
    assert AcceptedIn(hasDb, states', events', Sealed(e), n, n + 4, p);
  }

  /** After signing out with a cookie, a later request with it can still be accepted exactly when the cookie is a
      sealed one whose session is not over and whose token is not nearly spent; a stored one is never accepted again. */
  lemma {:induction false} SignOutEndsExactlyStoredCookies(hasDb: bool, states: seq<State>, events: seq<Event>,
      d: nat, c: Cookie)
    requires Run(hasDb, states, events) && d < |events| && SignsOut(states, events, d, c)
    ensures CanBeAccepted(hasDb, states, events, c) <==> Usable(c, states[|events|].clock)
  {
    if CanBeAccepted(hasDb, states, events, c) {
      var states': seq<State>, events': seq<Event>, a: nat, n: nat, p: nat :|
        states <= states' && events <= events' && |events| <= a
        && AcceptedIn(hasDb, states', events', c, a, n, p);
      match c
      case Stored(id) =>
        assert events'[d] == events[d] && states'[d] == states[d];
        SignOutIsFinal(hasDb, states', events', d, a, n, events[d].p, p, events[d].w, id, events'[a].kind);
        assert false;
      case Sealed(e) =>
        AllAlongGoing(hasDb, states', events', |events|, a, n, p, e);
    }
    if Usable(c, states[|events|].clock) {
      HandedOutStays(hasDb, states, events, d, |events|, c.envelope);
      CheckGoesThrough(hasDb, states, events, c.envelope);
    }
  }

  lemma {:induction false} HandedOutStays(hasDb: bool, states: seq<State>, events: seq<Event>, m: nat, n: nat,
      e: Envelope)
    requires Run(hasDb, states, events) && m <= n <= |events| && e in states[m].store.handedOut
    ensures e in states[n].store.handedOut
    decreases n
  {
    if m < n {
      HandedOutStays(hasDb, states, events, m, n - 1, e);
      assert Follows(states, events, n - 1);
    }
  }
}
