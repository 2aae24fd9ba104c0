// Browser sessions: rows that can be renewed and, above all, ended, while
// requests, renewals, tenant switches and sign-outs run beside one another.
module Sessions {
  import opened Basics

  /** `signedIn` is when the person signed in; it is kept for the proofs and no code reads it. */
  datatype Envelope = Envelope(token: Id, tenant: Option<Id>, expiresAt: int, sessionEnd: int, refresh: Option<Id>,
    signedIn: int)

  /** A cookie names a stored row, or, without a database, carries the sealed envelope itself. */
  datatype Cookie = Stored(id: Id) | Sealed(envelope: Envelope)

  const SESSION_LIFETIME: int := 12 * 3600
  const REFRESH_WINDOW: int := 120
  const LONGEST_TOKEN: int := 8 * 3600
  const DEFAULT_TOKEN: int := 3600
  const SHORTEST_TOKEN: int := 60

  function AtMost(x: int, high: int): int { if x > high then high else x }

  function AtLeast(x: int, low: int): int { if x < low then low else x }

  // ---- Signing in ----

  /** `hosted` sign-in keeps whatever life the token has, up to the longest; the direct one clamps it. */
  function TokenLife(expiresIn: Option<int>, hosted: bool): int {
    var life := AtMost(if expiresIn.Some? then expiresIn.value else DEFAULT_TOKEN, LONGEST_TOKEN);
    if hosted then life else AtLeast(life, SHORTEST_TOKEN)
  }

  function SignedIn(now: int, token: Id, expiresIn: Option<int>, hosted: bool, refresh: Option<Id>): Envelope {
    var expiresAt := now + TokenLife(expiresIn, hosted);
    Envelope(token, None, expiresAt, if refresh.Some? then now + SESSION_LIFETIME else expiresAt, refresh, now)
  }

  // ---- What the outside answers ----

  datatype Upstream = Unavailable | Declined | Renewed(token: Id, expiresIn: Option<int>, refresh: Option<Id>)

  /** The clock, the token service and the identity service, as one statement finds them. */
  datatype World = World(now: int, upstream: Upstream, identity: Option<set<Id>>)

  datatype Renewal = RenewalFailed | NoRenewal | RenewedTo(envelope: Envelope)

  function RefreshAccessToken(e: Envelope, w: World): Renewal {
    if e.refresh == None then NoRenewal
    else
      match w.upstream
      case Unavailable => RenewalFailed
      case Declined => NoRenewal
      case Renewed(token, expiresIn, refresh) =>
        RenewedTo(e.(token := token,
                     expiresAt := w.now + TokenLife(expiresIn, false),
                     refresh := if refresh.Some? then refresh else e.refresh))
  }

  /** One renewal: a token for one minute to eight hours; end, sign-in and tenant stay, and the refresh token is not
      lost. */
  lemma {:induction false} RenewalIs(e: Envelope, w: World)
    requires RefreshAccessToken(e, w).RenewedTo?
    ensures var f := RefreshAccessToken(e, w).envelope;
            && f.sessionEnd == e.sessionEnd && f.signedIn == e.signedIn && f.tenant == e.tenant
            && w.now + SHORTEST_TOKEN <= f.expiresAt <= w.now + LONGEST_TOKEN && f.refresh.Some?
  {
  }

  // ---- One request, statement by statement ----

  datatype Kind = Check | SelectTenant(tenant: Id) | Logout

  datatype Pc =
    | Begin
    | Loaded(id: Option<Id>, envelope: Envelope)
    | Renew(id: Option<Id>, envelope: Envelope)
    | Save(row: Id, envelope: Envelope)
    | Ending(id: Option<Id>)
    | Verify(envelope: Envelope)
    | Reload(envelope: Envelope)
    | SaveTenant(row: Id, envelope: Envelope)
    | Accepted(envelope: Envelope)
    | SignedOut
    | Refused

  /** `checkedAt` is the clock reading the session was accepted against. */
  datatype Request = Request(cookie: Cookie, kind: Kind, at: Pc, checkedAt: Option<int>)

  function NewRequest(cookie: Cookie, kind: Kind): Request {
    Request(cookie, kind, Begin, None)
  }

  /** The tables: rows by id when there is a database, and every sealed cookie ever handed out. */
  datatype Store = Store(hasDb: bool, rows: map<Id, Envelope>, handedOut: set<Envelope>)

  function Load(s: Store, c: Cookie): Option<(Option<Id>, Envelope)> {
    match c
    case Stored(id) => if s.hasDb && id in s.rows then Some((Some(id), s.rows[id])) else None
    case Sealed(e) => if e in s.handedOut then Some((None, e)) else None
  }

  function Deleted(s: Store, id: Option<Id>): Store {
    if s.hasDb && id.Some? then s.(rows := s.rows - {id.value}) else s
  }

  /** UPDATE ... WHERE id: a row that is gone stays gone. */
  function Updated(s: Store, id: Id, e: Envelope): Store {
    if s.hasDb && id in s.rows then s.(rows := s.rows[id := e]) else s
  }

  /** The envelope handed on after a check: a tenant the person no longer has is dropped. */
  function Revalidated(e: Envelope, tenants: set<Id>): Envelope {
    if e.tenant.Some? && e.tenant.value !in tenants then e.(tenant := None) else e
  }

  /** The next statement of a request, and the tables after it. */
  function Next(s: Store, r: Request, w: World): (Store, Request) {
    match r.at
    case Begin =>
      if r.kind.Logout? then (if r.cookie.Stored? then Deleted(s, Some(r.cookie.id)) else s, r.(at := SignedOut))
      else
        (match Load(s, r.cookie)
         case None => (s, r.(at := Refused))
         case Some(found) => (s, r.(at := Loaded(found.0, found.1))))
    case Loaded(id, e) =>
      if e.sessionEnd <= w.now then (s, r.(at := Ending(id)))
      else if e.expiresAt <= w.now + REFRESH_WINDOW then (s, r.(at := Renew(id, e), checkedAt := Some(w.now)))
      else (s, r.(at := Verify(e), checkedAt := Some(w.now)))
    case Renew(id, e) =>
      (match RefreshAccessToken(e, w)
       case RenewalFailed => (s, r.(at := Refused))
       case NoRenewal => (s, r.(at := Ending(id)))
       case RenewedTo(f) => if id.Some? then (s, r.(at := Save(id.value, f))) else (s, r.(at := Ending(id))))
    case Save(id, e) => (Updated(s, id, e), r.(at := Verify(e)))
    case Ending(id) => (Deleted(s, id), r.(at := Refused))
    case Verify(e) =>
      (match w.identity
       case None => (s, r.(at := Refused))
       case Some(tenants) =>
         var session := Revalidated(e, tenants);
         if !r.kind.SelectTenant? then (s, r.(at := Accepted(session)))
         else if r.kind.tenant !in tenants then (s, r.(at := Refused))
         else (s, r.(at := Reload(session.(tenant := Some(r.kind.tenant))))))
    case Reload(e) =>
      (match Load(s, r.cookie)
       case None => (s, r.(at := Refused))
       case Some((Some(id), _)) => (s, r.(at := SaveTenant(id, e)))
       case Some((None, _)) => (s.(handedOut := s.handedOut + {e}), r.(at := Accepted(e))))
    case SaveTenant(id, e) => (Updated(s, id, e), r.(at := Accepted(e)))
    case _ => (s, r)
  }

  // ---- Everything at once ----

  /** `born` remembers each stored session as it was signed in; `clock` is the latest time seen. */
  datatype State = State(store: Store, requests: map<nat, Request>, born: map<Id, Envelope>, clock: int)

  datatype Event =
    | SignIn(id: Id, now: int, token: Id, expiresIn: Option<int>, hosted: bool, refresh: Option<Id>)
    | Arrive(p: nat, cookie: Cookie, kind: Kind)
    | Step(p: nat, w: World)

  /** Row ids are drawn at random and never drawn twice; clocks do not run backwards. */
  predicate Enabled(s: State, e: Event) {
    match e
    case SignIn(id, now, _, _, _, _) => id !in s.born && s.clock <= now
    case Arrive(p, _, _) => p !in s.requests
    case Step(p, w) => p in s.requests && s.clock <= w.now
  }

  function WithSession(s: State, id: Id, e: Envelope): State {
    if s.store.hasDb
    then s.(store := s.store.(rows := s.store.rows[id := e]), born := s.born[id := e], clock := e.signedIn)
    else s.(store := s.store.(handedOut := s.store.handedOut + {e.(refresh := None)}), clock := e.signedIn)
  }

  function After(s: State, e: Event): State {
    match e
    case SignIn(id, now, token, expiresIn, hosted, refresh) =>
      WithSession(s, id, SignedIn(now, token, expiresIn, hosted, refresh))
    case Arrive(p, cookie, kind) => s.(requests := s.requests[p := NewRequest(cookie, kind)])
    case Step(p, w) =>
      if p in s.requests then
        var (store, r) := Next(s.store, s.requests[p], w);
        s.(store := store, requests := s.requests[p := r], clock := w.now)
      else s
  }

  // ---- What every run keeps ----

  predicate Bounded(e: Envelope) {
    e.sessionEnd <= e.signedIn + SESSION_LIFETIME
  }

  /** Same session: neither its end nor its sign-in moved. */
  predicate SameSession(e: Envelope, f: Envelope) {
    e.sessionEnd == f.sessionEnd && e.signedIn == f.signedIn
  }

  ghost predicate RowsKept(s: State) {
    && (forall id {:trigger s.store.rows[id]} :: id in s.store.rows ==>
       id in s.born && SameSession(s.store.rows[id], s.born[id]))
    && (forall id {:trigger s.born[id]} :: id in s.born ==> Bounded(s.born[id]))
    && (forall e :: e in s.store.handedOut ==> Bounded(e))
  }

  /** The envelope a request carries belongs to the session its cookie names. */
  predicate Carries(born: map<Id, Envelope>, c: Cookie, id: Option<Id>, e: Envelope) {
    match c
    case Stored(k) => id == Some(k) && k in born && SameSession(e, born[k])
    case Sealed(f) => id == None && Bounded(e)
  }

  predicate CheckedIn(r: Request, e: Envelope) {
    r.checkedAt.Some? && r.checkedAt.value < e.sessionEnd
  }

  predicate Fine(born: map<Id, Envelope>, r: Request) {
    var own := if r.cookie.Stored? then Some(r.cookie.id) else None;
    match r.at
    case Loaded(id, e) => Carries(born, r.cookie, id, e)
    case Renew(id, e) => Carries(born, r.cookie, id, e) && CheckedIn(r, e)
    case Save(id, e) => Carries(born, r.cookie, Some(id), e) && CheckedIn(r, e)
    case Ending(id) => id == own
    case Verify(e) => Carries(born, r.cookie, own, e) && CheckedIn(r, e)
    case Reload(e) => Carries(born, r.cookie, own, e) && CheckedIn(r, e)
    case SaveTenant(id, e) => Carries(born, r.cookie, Some(id), e) && CheckedIn(r, e)
    case Accepted(e) => Carries(born, r.cookie, own, e) && CheckedIn(r, e)
    case _ => true
  }

  ghost predicate Inv(s: State) {
    RowsKept(s) && forall p {:trigger s.requests[p]} :: p in s.requests ==> Fine(s.born, s.requests[p])
  }

  lemma {:induction false} SignInIsBounded(now: int, token: Id, expiresIn: Option<int>, hosted: bool,
      refresh: Option<Id>)
    ensures Bounded(SignedIn(now, token, expiresIn, hosted, refresh)) &&
            SignedIn(now, token, expiresIn, hosted, refresh).signedIn == now
  {
  }

  lemma {:induction false} ReadingKeeps(s: State, r: Request, w: World)
    requires RowsKept(s) && Fine(s.born, r) && (r.at.Begin? || r.at.Loaded? || r.at.Renew? || r.at.Ending?)
    ensures var (store, r') := Next(s.store, r, w);
            && RowsKept(s.(store := store)) && Fine(s.born, r') && r'.cookie == r.cookie
            && store.hasDb == s.store.hasDb && store.rows.Keys <= s.store.rows.Keys
  {
  }

  /** Every statement keeps rows on their session, and requests on the session their cookie names. */
  lemma {:induction false} NextKeeps(s: State, r: Request, w: World)
    requires RowsKept(s) && Fine(s.born, r)
    ensures var (store, r') := Next(s.store, r, w);
            && RowsKept(s.(store := store)) && Fine(s.born, r') && r'.cookie == r.cookie
            && store.hasDb == s.store.hasDb && store.rows.Keys <= s.store.rows.Keys
  {
    if r.at.Begin? || r.at.Loaded? || r.at.Renew? || r.at.Ending? { ReadingKeeps(s, r, w); }
  }

  lemma {:induction false} SignInKeeps(s: State, id: Id, e: Envelope)
    requires Inv(s) && id !in s.born && Bounded(e)
    ensures Inv(WithSession(s, id, e))
  {
  }

  lemma {:induction false} StepKeeps(s: State, p: nat, w: World)
    requires Inv(s) && p in s.requests
    ensures Inv(After(s, Step(p, w)))
  {
    NextKeeps(s, s.requests[p], w);
    var t := After(s, Step(p, w));
    forall q | q in t.requests ensures Fine(t.born, t.requests[q]) {
      if q != p { assert Fine(s.born, s.requests[q]); }
    }
  }

  lemma {:induction false} EventKeeps(s: State, e: Event)
    requires Inv(s) && Enabled(s, e)
    ensures Inv(After(s, e))
  {
    match e
    case SignIn(id, now, token, expiresIn, hosted, refresh) =>
      SignInIsBounded(now, token, expiresIn, hosted, refresh);
      SignInKeeps(s, id, SignedIn(now, token, expiresIn, hosted, refresh));
    case Arrive(p, cookie, kind) =>
      var t := After(s, e);
      assert RowsKept(t) by {
        forall id | id in t.store.rows ensures id in t.born && SameSession(t.store.rows[id], t.born[id]) {
          assert SameSession(s.store.rows[id], s.born[id]);
        }
      }
      forall q | q in t.requests ensures Fine(t.born, t.requests[q]) {
        if q != p { assert Fine(s.born, s.requests[q]); }
      }
    case Step(p, w) => StepKeeps(s, p, w);
  }

  // ---- Runs ----

  ghost predicate Follows(states: seq<State>, events: seq<Event>, n: nat)
    requires n < |events| < |states|
  {
    Enabled(states[n], events[n]) && states[n + 1] == After(states[n], events[n])
  }

  ghost predicate Run(hasDb: bool, states: seq<State>, events: seq<Event>) {
    && |states| == |events| + 1
    && states[0].store == Store(hasDb, map[], {}) && states[0].requests == map[] && states[0].born == map[]
    && forall n: nat :: n < |events| ==> Follows(states, events, n)
  }

  lemma {:induction false} EveryRunIsSound(hasDb: bool, states: seq<State>, events: seq<Event>, n: nat)
    requires Run(hasDb, states, events) && n <= |events|
    ensures Inv(states[n]) && states[n].store.hasDb == hasDb
  {
    if n > 0 {
      EveryRunIsSound(hasDb, states, events, n - 1);
      assert Follows(states, events, n - 1);
      EventKeeps(states[n - 1], events[n - 1]);
      var s := states[n - 1];
      if events[n - 1].Step? { NextKeeps(s, s.requests[events[n - 1].p], events[n - 1].w); }
    }
  }

  /** One event: births are kept, and rows only go away, except the one just signed in. */
  lemma {:induction false} EventMoves(s: State, e: Event)
    requires Inv(s) && Enabled(s, e)
    ensures forall id {:trigger id in s.born} :: id in s.born ==>
              id in After(s, e).born && After(s, e).born[id] == s.born[id]
    ensures forall id {:trigger id in s.born} :: id in s.born && id !in s.store.rows ==> id !in After(s, e).store.rows
  {
  }

  lemma {:induction false} BirthsStay(hasDb: bool, states: seq<State>, events: seq<Event>, m: nat, n: nat, id: Id)
    requires Run(hasDb, states, events) && m <= n <= |events| && id in states[m].born
    ensures id in states[n].born && states[n].born[id] == states[m].born[id]
    ensures id !in states[m].store.rows ==> id !in states[n].store.rows
    decreases n
  {
    if m < n {
      BirthsStay(hasDb, states, events, m, n - 1, id);
      EveryRunIsSound(hasDb, states, events, n - 1);
      assert Follows(states, events, n - 1);
      EventMoves(states[n - 1], events[n - 1]);
    }
  }

  /** A stored session's end never moves, whatever is renewed, switched or ended beside it. */
  lemma {:induction false} SessionEndNeverMoves(hasDb: bool, states: seq<State>, events: seq<Event>, m: nat, n: nat,
      id: Id)
    requires Run(hasDb, states, events) && m <= n <= |events| && id in states[m].store.rows &&
             id in states[n].store.rows
    ensures SameSession(states[m].store.rows[id], states[n].store.rows[id])
  {
    EveryRunIsSound(hasDb, states, events, m);
    EveryRunIsSound(hasDb, states, events, n);
    BirthsStay(hasDb, states, events, m, n, id);
  }

  /** A row that was deleted never comes back. */
  lemma {:induction false} DeletedStaysDeleted(hasDb: bool, states: seq<State>, events: seq<Event>, l: nat, m: nat,
      n: nat, id: Id)
    requires Run(hasDb, states, events) && l <= m <= n <= |events|
    requires id in states[l].store.rows && id !in states[m].store.rows
    ensures id !in states[n].store.rows
  {
    EveryRunIsSound(hasDb, states, events, l);
    BirthsStay(hasDb, states, events, l, m, id);
    BirthsStay(hasDb, states, events, m, n, id);
  }

  /** No request is accepted 12 hours or more after its session was signed in, however often the token was renewed. */
  lemma {:induction false} AcceptedWithinTwelveHours(hasDb: bool, states: seq<State>, events: seq<Event>, n: nat,
      p: nat)
    requires Run(hasDb, states, events) && n <= |events| && p in states[n].requests &&
             states[n].requests[p].at.Accepted?
    ensures var r := states[n].requests[p];
            r.checkedAt.Some? && r.checkedAt.value < r.at.envelope.signedIn + SESSION_LIFETIME
    ensures var r := states[n].requests[p];
            r.cookie.Stored? ==>
              r.cookie.id in states[n].born && r.at.envelope.signedIn == states[n].born[r.cookie.id].signedIn
  {
    EveryRunIsSound(hasDb, states, events, n);
    assert Fine(states[n].born, states[n].requests[p]);
  }

  // ---- After signing out ----

  /** Where a request on a row that is gone can be. */
  predicate Shut(r: Request, id: Id) {
    r.cookie == Stored(id) && (r.at.Begin? || r.at.Refused? || r.at.SignedOut?)
  }

  lemma {:induction false} ShutOnce(s: State, e: Event, p: nat, id: Id)
    requires Enabled(s, e) && id !in s.store.rows && p in s.requests && Shut(s.requests[p], id)
    ensures p in After(s, e).requests && Shut(After(s, e).requests[p], id)
  {
  }

  lemma {:induction false} ShutStaysShut(hasDb: bool, states: seq<State>, events: seq<Event>, m: nat, n: nat, p: nat,
      id: Id)
    requires Run(hasDb, states, events) && m <= n <= |events|
    requires id in states[m].born && id !in states[m].store.rows
    requires p in states[m].requests && Shut(states[m].requests[p], id)
    ensures p in states[n].requests && Shut(states[n].requests[p], id)
    decreases n
  {
    if m < n {
      ShutStaysShut(hasDb, states, events, m, n - 1, p, id);
      BirthsStay(hasDb, states, events, m, n - 1, id);
      assert Follows(states, events, n - 1);
      ShutOnce(states[n - 1], events[n - 1], p, id);
    }
  }

  /** Signing out, whether or not the row is still there, leaves no row under the cookie's id. */
  lemma {:induction false} SignOutDeletes(hasDb: bool, states: seq<State>, events: seq<Event>, d: nat, q: nat,
      w: World, id: Id)
    requires Run(hasDb, states, events) && d < |events| && events[d] == Step(q, w) && id in states[d].born
    requires q in states[d].requests && states[d].requests[q] == NewRequest(Stored(id), Logout)
    ensures id in states[d + 1].born && id !in states[d + 1].store.rows
  {
    assert Follows(states, events, d);
    RowsOnlyWithDb(hasDb, states, events, d);
  }

  /** Signing out deletes the row; no request that starts afterwards is ever accepted. */
  lemma {:induction false} SignOutIsFinal(hasDb: bool, states: seq<State>, events: seq<Event>, d: nat, a: nat,
      n: nat, q: nat, p: nat, w: World, id: Id, kind: Kind)
    requires Run(hasDb, states, events) && d < a < n <= |events|
    requires events[d] == Step(q, w) && id in states[d].born
    requires q in states[d].requests && states[d].requests[q] == NewRequest(Stored(id), Logout)
    requires events[a] == Arrive(p, Stored(id), kind)
    ensures p in states[n].requests && !states[n].requests[p].at.Accepted?
  {
    SignOutDeletes(hasDb, states, events, d, q, w, id);
    BirthsStay(hasDb, states, events, d + 1, a + 1, id);
    assert Follows(states, events, a);
    ShutStaysShut(hasDb, states, events, a + 1, n, p, id);
  }

  lemma {:induction false} RowsOnlyWithDb(hasDb: bool, states: seq<State>, events: seq<Event>, n: nat)
    requires Run(hasDb, states, events) && n <= |events|
    ensures states[n].store.hasDb == hasDb && (!hasDb ==> states[n].store.rows == map[])
  {
    if n > 0 {
      RowsOnlyWithDb(hasDb, states, events, n - 1);
      EveryRunIsSound(hasDb, states, events, n - 1);
      assert Follows(states, events, n - 1);
      var s := states[n - 1];
      if events[n - 1].Step? { NextKeeps(s, s.requests[events[n - 1].p], events[n - 1].w); }
    }
  }

  // ---- One request at a time, on the table itself ----

  function Rank(at: Pc): nat {
    match at
    case Begin => 7
    case Loaded(_, _) => 6
    case Renew(_, _) => 5
    case Save(_, _) => 4
    case Verify(_) => 3
    case Reload(_) => 2
    case SaveTenant(_, _) => 1
    case Ending(_) => 1
    case _ => 0
  }

  lemma {:induction false} NextRanks(s: Store, r: Request, w: World)
    ensures Rank(r.at) > 0 ==> Rank(Next(s, r, w).1.at) < Rank(r.at)
  {
  }

  /** A request run to its end while nothing else runs and the world answers the same throughout. */
  function Alone(s: Store, r: Request, w: World): (Store, Request)
    decreases Rank(r.at)
  {
    if Rank(r.at) == 0 then (s, r) else
      NextRanks(s, r, w);
      var (t, q) := Next(s, r, w);
      Alone(t, q, w)
  }

  lemma {:induction false} AloneStep(s: Store, r: Request, w: World)
    ensures Rank(r.at) > 0 ==> Alone(s, r, w) == Alone(Next(s, r, w).0, Next(s, r, w).1, w)
  {
  }

  class SessionTable {
    const hasDb: bool
    var rows: map<Id, Envelope>
    var handedOut: set<Envelope>

    constructor (hasDb: bool)
      ensures Now() == Store(hasDb, map[], {})
    {
      this.hasDb, rows, handedOut := hasDb, map[], {};
    }

    function Now(): Store
      reads this
    {
      Store(hasDb, rows, handedOut)
    }

    /** The cookie handed back loads the session just stored, without its refresh token where it is sealed, and every
        other cookie loads what it did. */
    method StoreSession(id: Id, e: Envelope) returns (c: Cookie)
      modifies this
      ensures Load(Now(), c) == Some(if hasDb then (Some(id), e) else (None, e.(refresh := None)))
      ensures forall d :: d != c ==> Load(Now(), d) == old(Load(Now(), d))
      ensures hasDb ==> c == Stored(id) && handedOut == old(handedOut)
      ensures !hasDb ==> rows == old(rows)
    {
      if !hasDb {
        var sealed := e.(refresh := None);
        handedOut := handedOut + {sealed};
        return Sealed(sealed);
      }
      rows := rows[id := e];
      return Stored(id);
    }

    method LoadSession(c: Cookie) returns (r: Option<(Option<Id>, Envelope)>)
      ensures r == Load(Now(), c)
    {
      match c
      case Stored(id) => if hasDb && id in rows { return Some((Some(id), rows[id])); } else { return None; }
      case Sealed(e) => if e in handedOut { return Some((None, e)); } else { return None; }
    }

    method DeleteSession(id: Option<Id>)
      modifies this
      ensures Now() == Deleted(old(Now()), id)
    {
      if hasDb && id.Some? { rows := rows - {id.value}; }
    }

    method UpdateSession(id: Id, e: Envelope)
      modifies this
      ensures Now() == Updated(old(Now()), id, e)
    {
      if hasDb && id in rows { rows := rows[id := e]; }
    }

    /** The end of a request that is refused after its session was ended. */
    method EndSession(id: Option<Id>, w: World, ghost r: Request) returns (s: Option<Envelope>)
      requires r.at == Ending(id)
      modifies this
      ensures s == None && (Now(), r.(at := Refused)) == Alone(old(Now()), r, w)
    {
      DeleteSession(id);
      s := None;
    }

    /** The session a cookie stands for: renewed when its token is nearly spent, ended when it is over. */
    method Session(c: Cookie, kind: Kind, w: World) returns (s: Option<Envelope>, ghost r: Request)
      requires !kind.Logout?
      modifies this
      ensures Alone(old(Now()), NewRequest(c, kind), w) == Alone(Now(), r, w)
      ensures match s
              case None => r.at == Refused
              case Some(e) => r.at == Verify(e) && r.kind == kind && r.cookie == c && w.identity.Some?
    {
      r := NewRequest(c, kind);
      var found := LoadSession(c);
      if found == None { r := Next(Now(), r, w).1; return None, r; }
      var (id, e) := found.value;
      r := Next(Now(), r, w).1;
      if e.sessionEnd <= w.now {
        r := Next(Now(), r, w).1;
        s := EndSession(id, w, r);
        r := r.(at := Refused);
        return;
      }
      if e.expiresAt <= w.now + REFRESH_WINDOW {
        AloneStep(Now(), r, w);
        r := Next(Now(), r, w).1;
        var renewal := RefreshAccessToken(e, w);
        AloneStep(Now(), r, w);
        r := Next(Now(), r, w).1;
        if renewal.RenewalFailed? { return None, r; }
        if id == None || renewal.NoRenewal? {
          s := EndSession(id, w, r);
          r := r.(at := Refused);
          return;
        }
        r := Next(Now(), r, w).1;
        UpdateSession(id.value, renewal.envelope);
        e := renewal.envelope;
      } else {
        r := Next(Now(), r, w).1;
      }
      if w.identity == None {
        AloneStep(Now(), r, w);
        r := Next(Now(), r, w).1;
        return None, r;
      }
      s := Some(e);
    }

    /** A protected request: the session, with a tenant the person no longer has dropped. */
    method Check(c: Cookie, w: World) returns (s: Option<Envelope>)
      modifies this
      ensures var (t, r) := Alone(old(Now()), NewRequest(c, Kind.Check), w);
              Now() == t && s == if r.at.Accepted? then Some(r.at.envelope) else None
    {
      ghost var r;
      s, r := Session(c, Kind.Check, w);
      if s.Some? { s := Some(Revalidated(s.value, w.identity.value)); }
    }

    /** Switching tenant rewrites the stored envelope and keeps the cookie. */
    method SelectTenant(c: Cookie, tenant: Id, w: World) returns (s: Option<Envelope>)
      modifies this
      ensures var (t, r) := Alone(old(Now()), NewRequest(c, Kind.SelectTenant(tenant)), w);
              Now() == t && s == if r.at.Accepted? then Some(r.at.envelope) else None
    {
      ghost var r;
      s, r := Session(c, Kind.SelectTenant(tenant), w);
      if s == None { return; }
      AloneStep(Now(), r, w);
      if tenant !in w.identity.value { return None; }
      var e := Revalidated(s.value, w.identity.value).(tenant := Some(tenant));
      r := Next(Now(), r, w).1;
      AloneStep(Now(), r, w);
      var found := LoadSession(c);
      if found == None { return None; }
      if found.value.0.Some? { UpdateSession(found.value.0.value, e); } else { handedOut := handedOut + {e}; }
      s := Some(e);
    }

    method Logout(c: Cookie)
      modifies this
      ensures Now() == if c.Stored? then Deleted(old(Now()), Some(c.id)) else old(Now())
    {
      if c.Stored? { DeleteSession(Some(c.id)); }
    }
  }
}
