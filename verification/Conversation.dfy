// Linking an AI conversation to a place in a workspace, while several servers
// answer the same person at once. Each call is a transaction of separate
// statements; the store refuses a second row under a unique key and makes a
// writer wait while another transaction holds that key.
module Conversation {
  import opened Basics

  datatype Scope = Scope(actor: Id, tenant: Id, connection: Id)

  /** What a link is unique by. */
  datatype LinkKey = LinkKey(scope: Scope, conversation: string)

  /** What an idempotency key is unique by. */
  datatype KeyId = KeyId(scope: Scope, key: string)

  datatype Link = Link(workspace: Id, item: Option<Id>, screen: Option<Id>, active: bool, key: string, touched: int)

  /** Key rows name the link they belong to by its unique key. */
  datatype Db = Db(links: map<LinkKey, Link>, keys: map<KeyId, LinkKey>)

  datatype Input = Input(scope: Scope, conversation: string, workspace: Id, item: Option<Id>, screen: Option<Id>,
    key: string)

  datatype Error = Invalid | Conflict | StorageConflict

  const MAX_CONVERSATION_ID_LENGTH := 191
  const MAX_IDEMPOTENCY_KEY_BYTES := 200

  predicate ValidInput(i: Input) {
    && 0 < |i.conversation| <= MAX_CONVERSATION_ID_LENGTH
    && 0 < |i.key| <= MAX_IDEMPOTENCY_KEY_BYTES && forall k :: 0 <= k < |i.key| ==> i.key[k] < 128 as char
  }

  function Own(i: Input): LinkKey {
    LinkKey(i.scope, i.conversation)
  }

  function Kid(i: Input): KeyId {
    KeyId(i.scope, i.key)
  }

  predicate SameTarget(l: Link, i: Input) {
    l.workspace == i.workspace && l.item == i.item && l.screen == i.screen
  }

  // ---- One call, statement by statement ----

  /** A link as it was read, with the unique key of its row. */
  datatype Found = Found(key: LinkKey, link: Link)

  /** Where a call stands; `shown` is the link it has read and will return, `stopped` whether to wake it first. */
  datatype Pc =
    | Begin | FindLink | InsertLink | FindWinner | FindKeyWinner(winner: Option<Found>)
    | ClaimRead(shown: Found, stopped: bool) | ClaimInsert(shown: Found, stopped: bool)
    | ClaimLost(shown: Found, stopped: bool)
    | Wake(shown: Found) | Finished(shown: Found) | Failed(error: Error)

  /** What a call has written and not yet committed: a new link, its key, a stopped link woken. */
  datatype Write = Write(link: Option<Link>, key: bool, wake: bool)

  datatype Call = Call(input: Input, now: int, at: Pc, write: Write)

  function NewCall(i: Input, now: int): Call {
    Call(i, now, Begin, Write(None, false, false))
  }

  function Woken(l: Link, c: Call): Link {
    l.(screen := c.input.screen, active := true, key := c.input.key, touched := c.now)
  }

  /** A call sees what is committed and what it has written itself. */
  function SeenLink(db: Db, c: Call): Option<Found> {
    var own := Own(c.input);
    if c.write.link.Some? then Some(Found(own, c.write.link.value))
    else if own in db.links then Some(Found(own, if c.write.wake then Woken(db.links[own], c) else db.links[own]))
    else None
  }

  function SeenKey(db: Db, c: Call): Option<LinkKey> {
    if c.write.key then Some(Own(c.input))
    else if Kid(c.input) in db.keys then Some(db.keys[Kid(c.input)]) else None
  }

  /** Another link of the scope already carries this key in its own row. */
  predicate KeyColumnTaken(db: Db, i: Input) {
    exists k :: k in db.links && k.scope == i.scope && k != Own(i) && db.links[k].key == i.key
  }

  function NewLink(c: Call): Link {
    Link(c.input.workspace, c.input.item, c.input.screen, true, c.input.key, c.now)
  }

  function Return(c: Call): Pc
    requires c.at.ClaimRead? || c.at.ClaimInsert? || c.at.ClaimLost?
  {
    if c.at.stopped then Wake(c.at.shown) else Finished(c.at.shown)
  }

  /** The next statement of a call; writes stay with the call until it commits. */
  function Next(db: Db, c: Call): Call {
    var i := c.input;
    match c.at
    case Begin =>
      if !ValidInput(i) then c.(at := Failed(Invalid))
      else if SeenKey(db, c).Some? && SeenKey(db, c).value.conversation != i.conversation
        then c.(at := Failed(Conflict))
      else c.(at := FindLink)
    case FindLink =>
      (match SeenLink(db, c)
       case Some(f) => if SameTarget(f.link, i) then c.(at := ClaimRead(f, !f.link.active))
         else c.(at := Failed(Conflict))
       case None => c.(at := InsertLink))
    case InsertLink =>
      if Own(i) in db.links || KeyColumnTaken(db, i) then c.(at := FindWinner)
      else c.(at := ClaimRead(Found(Own(i), NewLink(c)), false), write := c.write.(link := Some(NewLink(c))))
    case FindWinner => c.(at := FindKeyWinner(SeenLink(db, c)))
    case FindKeyWinner(Some(f)) =>
      if !SameTarget(f.link, i) then c.(at := Failed(Conflict))
      else if SeenKey(db, c).Some? && SeenKey(db, c).value.conversation != i.conversation
        then c.(at := Failed(Conflict))
      else c.(at := ClaimRead(f, false))
    case FindKeyWinner(None) =>
      (match SeenKey(db, c)
       case Some(k) =>
         if k.conversation == i.conversation && k in db.links && SameTarget(db.links[k], i)
         then c.(at := Finished(Found(k, db.links[k])))
         else c.(at := Failed(Conflict))
       case None => c.(at := Failed(StorageConflict)))
    case ClaimRead(f, stopped) =>
      (match SeenKey(db, c)
       case Some(k) => if k.conversation == i.conversation then c.(at := Return(c)) else c.(at := Failed(Conflict))
       case None => c.(at := ClaimInsert(f, stopped)))
    case ClaimInsert(f, stopped) =>
      if Kid(i) in db.keys then c.(at := ClaimLost(f, stopped)) else c.(at := Return(c), write := c.write.(key := true))
    case ClaimLost(_, _) =>
      if SeenKey(db, c).Some? && SeenKey(db, c).value.conversation == i.conversation then c.(at := Return(c))
        else c.(at := Failed(Conflict))
    case Wake(f) =>
      if f.key !in db.links || KeyColumnTaken(db, i) then c.(at := Failed(StorageConflict))
      else c.(at := Finished(Found(f.key, Woken(db.links[f.key], c))), write := c.write.(wake := true))
    case Finished(_) => c
    case Failed(_) => c
  }

  // ---- Many calls at once ----

  datatype State = State(db: Db, calls: map<nat, Call>)

  /** Two calls writing under the same unique key. */
  predicate Clash(c: Call, d: Call) {
    || (c.write.link.Some? && d.write.link.Some? && Own(c.input) == Own(d.input))
    || (c.write.key && d.write.key && Kid(c.input) == Kid(d.input))
    || (c.write.wake && d.write.wake && Own(c.input) == Own(d.input))
    || ((c.write.link.Some? || c.write.wake) && (d.write.link.Some? || d.write.wake) && Kid(c.input) == Kid(d.input))
  }

  /** The store lets a write through only when nobody else holds its unique keys. */
  ghost predicate Allowed(s: State, p: nat, d: Call) {
    forall q {:trigger s.calls[q]} :: q in s.calls && q != p ==> !Clash(d, s.calls[q])
  }

  /** The tables with a call's writes in them. */
  function Merged(db: Db, c: Call): Db {
    var own := Own(c.input);
    Db(if c.write.link.Some? then db.links[own := c.write.link.value]
       else if c.write.wake && own in db.links then db.links[own := Woken(db.links[own], c)]
       else db.links,
       if c.write.key then db.keys[Kid(c.input) := own] else db.keys)
  }

  /** stop_for_connection, a transaction of one statement. */
  function Stopped(db: Db, connection: Id, now: int): Db {
    db.(links := map k | k in db.links ::
          if k.scope.connection == connection && db.links[k].active
          then db.links[k].(active := false, touched := now) else db.links[k])
  }

  datatype Event =
    | Arrive(p: nat, input: Input, now: int)
    | Step(p: nat)
    | Commit(p: nat)
    | Drop(p: nat)          // rolled back after an error, or the server died
    | Stop(connection: Id, now: int)

  ghost predicate Enabled(s: State, e: Event) {
    match e
    case Arrive(p, _, _) => p !in s.calls
    case Step(p) => p in s.calls && Allowed(s, p, Next(s.db, s.calls[p]))
    case Commit(p) => p in s.calls && s.calls[p].at.Finished?
    case Drop(p) => p in s.calls
    case Stop(_, _) => true
  }

  function After(s: State, e: Event): State {
    match e
    case Arrive(p, i, now) => s.(calls := s.calls[p := NewCall(i, now)])
    case Step(p) => if p in s.calls then s.(calls := s.calls[p := Next(s.db, s.calls[p])]) else s
    case Commit(p) => if p in s.calls then State(Merged(s.db, s.calls[p]), s.calls - {p}) else s
    case Drop(p) => s.(calls := s.calls - {p})
    case Stop(connection, now) => s.(db := Stopped(s.db, connection, now))
  }

  // ---- What every interleaving keeps ----

  /** Every key leads to a link of its own scope. */
  ghost predicate KeysLead(db: Db) {
    forall k {:trigger db.keys[k]} :: k in db.keys ==> db.keys[k].scope == k.scope && db.keys[k] in db.links
  }

  /** The call's own link is there, or about to be, and leads where the call asked. */
  predicate HasLink(db: Db, c: Call) {
    if c.write.link.Some? then SameTarget(c.write.link.value, c.input)
    else Own(c.input) in db.links && SameTarget(db.links[Own(c.input)], c.input)
  }

  predicate HasKey(db: Db, c: Call) {
    c.write.key || (Kid(c.input) in db.keys && db.keys[Kid(c.input)].conversation == c.input.conversation)
  }

  /** The link read is the call's own conversation's, and leads where the call asked. */
  predicate IsOwn(f: Found, c: Call) {
    f.key == Own(c.input) && SameTarget(f.link, c.input)
  }

  predicate SamePlace(l: Link, m: Link) {
    l.workspace == m.workspace && l.item == m.item && l.screen == m.screen
  }

  /** What has been read so far and still holds. */
  predicate Knows(db: Db, c: Call) {
    match c.at
    case FindKeyWinner(Some(f)) =>
      f.key == Own(c.input) && SeenLink(db, c).Some? && SamePlace(SeenLink(db, c).value.link, f.link)
    case ClaimRead(f, _) => HasLink(db, c) && IsOwn(f, c)
    case ClaimInsert(f, _) => HasLink(db, c) && IsOwn(f, c)
    case ClaimLost(f, _) => HasLink(db, c) && IsOwn(f, c)
    case Wake(f) => HasLink(db, c) && IsOwn(f, c) && HasKey(db, c)
    case Finished(f) => HasLink(db, c) && IsOwn(f, c) && HasKey(db, c)
    case _ => true
  }

  /** Pending rows are not in the tables yet; a pending key has its link; a woken link is there. */
  predicate Writes(db: Db, c: Call) {
    && (c.write.link.Some? ==> Own(c.input) !in db.links && SameTarget(c.write.link.value, c.input))
    && (c.write.key ==> Kid(c.input) !in db.keys && HasLink(db, c))
    && (c.write.wake ==> c.write.link.None? && HasLink(db, c))
  }

  predicate Fine(db: Db, c: Call) {
    Writes(db, c) && Knows(db, c)
  }

  ghost predicate AllFine(s: State) {
    forall p {:trigger s.calls[p]} :: p in s.calls ==> Fine(s.db, s.calls[p])
  }

  ghost predicate NoClash(s: State) {
    forall p, q {:trigger s.calls[p], s.calls[q]} :: p in s.calls && q in s.calls && p != q ==>
      !Clash(s.calls[p], s.calls[q])
  }

  ghost predicate Inv(s: State) {
    KeysLead(s.db) && AllFine(s) && NoClash(s)
  }

  /** Links keep their target, keys their owner, and none disappears. */
  ghost predicate Grows(a: Db, b: Db) {
    && (forall k {:trigger b.links[k]} {:trigger k in b.links} :: k in a.links ==>
          k in b.links && SamePlace(b.links[k], a.links[k]))
    && (forall k {:trigger b.keys[k]} {:trigger k in b.keys} :: k in a.keys ==> k in b.keys && b.keys[k] == a.keys[k])
  }

  lemma {:induction false} LookingIsFine(db: Db, c: Call)
    requires KeysLead(db) && Fine(db, c) && (c.at.Begin? || c.at.FindLink? || c.at.InsertLink? || c.at.FindWinner?)
    ensures Fine(db, Next(db, c))
  {
  }

  lemma {:induction false} LosingIsFine(db: Db, c: Call)
    requires KeysLead(db) && Fine(db, c) && c.at.FindKeyWinner?
    ensures Fine(db, Next(db, c))
  {
  }

  lemma {:induction false} ClaimingIsFine(db: Db, c: Call)
    requires KeysLead(db) && Fine(db, c) && (c.at.ClaimRead? || c.at.ClaimInsert? || c.at.ClaimLost? || c.at.Wake?)
    ensures Fine(db, Next(db, c))
  {
  }

  lemma {:induction false} NextIsFine(db: Db, c: Call)
    requires KeysLead(db) && Fine(db, c)
    ensures Fine(db, Next(db, c)) && Next(db, c).input == c.input
  {
    match c.at
    case FindKeyWinner(_) => LosingIsFine(db, c);
    case Finished(_) =>
    case Failed(_) =>
    case Begin => LookingIsFine(db, c);
    case FindLink => LookingIsFine(db, c);
    case InsertLink => LookingIsFine(db, c);
    case FindWinner => LookingIsFine(db, c);
    case _ => ClaimingIsFine(db, c);
  }

  /** What a call knows stays true while others commit, as long as they do not write its pending rows. */
  lemma {:induction false} StaysFine(a: Db, b: Db, c: Call)
    requires Fine(a, c) && Grows(a, b)
    requires c.write.link.Some? ==> Own(c.input) !in b.links
    requires c.write.key ==> Kid(c.input) !in b.keys
    ensures Fine(b, c)
  {
  }

  lemma {:induction false} MergeGrows(db: Db, c: Call)
    requires KeysLead(db) && Fine(db, c)
    ensures Grows(db, Merged(db, c)) && KeysLead(Merged(db, c))
  {
  }

  lemma {:induction false} StopGrows(db: Db, connection: Id, now: int)
    requires KeysLead(db)
    ensures Grows(db, Stopped(db, connection, now)) && KeysLead(Stopped(db, connection, now))
    ensures Stopped(db, connection, now).links.Keys == db.links.Keys
    ensures forall k :: k in db.links && k.scope.connection == connection ==>
              !Stopped(db, connection, now).links[k].active
  {
  }

  lemma {:induction false} CommitKeeps(s: State, p: nat)
    requires Inv(s) && p in s.calls && s.calls[p].at.Finished?
    ensures Inv(After(s, Commit(p)))
  {
    var c := s.calls[p];
    MergeGrows(s.db, c);
    forall q | q in s.calls && q != p ensures Fine(Merged(s.db, c), s.calls[q]) {
      assert !Clash(s.calls[q], c);
      StaysFine(s.db, Merged(s.db, c), s.calls[q]);
    }
  }

  lemma {:induction false} StopKeeps(s: State, connection: Id, now: int)
    requires Inv(s)
    ensures Inv(After(s, Stop(connection, now)))
  {
    StopGrows(s.db, connection, now);
    forall q | q in s.calls ensures Fine(Stopped(s.db, connection, now), s.calls[q]) {
      StaysFine(s.db, Stopped(s.db, connection, now), s.calls[q]);
    }
  }

  lemma {:induction false} StepKeeps(s: State, p: nat)
    requires Inv(s) && Enabled(s, Step(p))
    ensures Inv(After(s, Step(p)))
  {
    NextIsFine(s.db, s.calls[p]);
    var t := After(s, Step(p));
    forall q, r | q in t.calls && r in t.calls && q != r ensures !Clash(t.calls[q], t.calls[r]) {
      if q == p { assert t.calls[r] == s.calls[r]; } else if r == p { assert t.calls[q] == s.calls[q]; }
    }
  }

  lemma {:induction false} EventKeeps(s: State, e: Event)
    requires Inv(s) && Enabled(s, e)
    ensures Inv(After(s, e))
  {
    match e
    case Arrive(_, _, _) =>
    case Step(p) => StepKeeps(s, p);
    case Commit(p) => CommitKeeps(s, p);
    case Drop(p) =>
    case Stop(connection, now) => StopKeeps(s, connection, now);
  }

  lemma {:induction false} EventGrows(s: State, e: Event)
    requires Inv(s) && Enabled(s, e)
    ensures Grows(s.db, After(s, e).db)
  {
  }

  // ---- Runs ----

  ghost predicate Follows(states: seq<State>, events: seq<Event>, n: nat)
    requires n < |events| < |states|
  {
    Enabled(states[n], events[n]) && states[n + 1] == After(states[n], events[n])
  }

  /** A run from empty tables: every event is one the store lets through. */
  ghost predicate Run(states: seq<State>, events: seq<Event>) {
    && |states| == |events| + 1 && states[0] == State(Db(map[], map[]), map[])
    && forall n: nat :: n < |events| ==> Follows(states, events, n)
  }

  lemma {:induction false} EveryRunIsSound(states: seq<State>, events: seq<Event>, n: nat)
    requires Run(states, events) && n <= |events|
    ensures Inv(states[n])
  {
    if n > 0 {
      EveryRunIsSound(states, events, n - 1);
      assert Follows(states, events, n - 1);
      EventKeeps(states[n - 1], events[n - 1]);
    }
  }

  lemma {:induction false} GrowsTrans(a: Db, b: Db, c: Db)
    requires Grows(a, b) && Grows(b, c)
    ensures Grows(a, c)
  {
  }

  /** A link's workspace, item and screen never change, and an idempotency key belongs to
      one conversation forever, however the calls interleave. */
  lemma {:induction false} LinksAndKeysAreForever(states: seq<State>, events: seq<Event>, m: nat, n: nat)
    requires Run(states, events) && m <= n <= |events|
    ensures Grows(states[m].db, states[n].db)
    decreases n
  {
    if m < n {
      LinksAndKeysAreForever(states, events, m, n - 1);
      EveryRunIsSound(states, events, n - 1);
      assert Follows(states, events, n - 1);
      EventGrows(states[n - 1], events[n - 1]);
      GrowsTrans(states[m].db, states[n - 1].db, states[n].db);
    }
  }

  /** A call that succeeds returns its own conversation's link, to the place it asked for, and from then
      on that conversation is linked there and the call's key belongs to it. */
  lemma {:induction false} SuccessIsKept(states: seq<State>, events: seq<Event>, m: nat, n: nat, p: nat)
    requires Run(states, events) && m < n <= |events| && events[m] == Commit(p)
    ensures p in states[m].calls && states[m].calls[p].at.Finished?
    ensures var c, db := states[m].calls[p], states[n].db;
            && c.at.shown.key == Own(c.input) && SameTarget(c.at.shown.link, c.input)
            && Own(c.input) in db.links && SameTarget(db.links[Own(c.input)], c.input)
            && Kid(c.input) in db.keys && db.keys[Kid(c.input)] == Own(c.input)
  {
    EveryRunIsSound(states, events, m);
    assert Follows(states, events, m);
    var s := states[m];
    var c := s.calls[p];
    assert Fine(s.db, c);
    LinksAndKeysAreForever(states, events, m + 1, n);
    var db := Merged(s.db, c);
    assert states[m + 1].db == db;
    assert Own(c.input) in db.links && Kid(c.input) in db.keys;
  }

  // ---- Retrying ----

  /** The call's conversation is linked where it asks, and its key is that conversation's already. */
  predicate Established(db: Db, i: Input) {
    && Own(i) in db.links && SameTarget(db.links[Own(i)], i)
    && Kid(i) in db.keys && db.keys[Kid(i)] == Own(i)
  }

  /** Where a retry can be: nothing inserted, and nothing woken unless it read a stopped link. */
  predicate Retrying(c: Call, readStopped: bool) {
    && c.write.link.None? && !c.write.key
    && match c.at
       case Begin => !c.write.wake
       case FindLink => !c.write.wake
       case ClaimRead(f, stopped) => !c.write.wake && IsOwn(f, c) && stopped == !f.link.active &&
         (stopped ==> readStopped)
       case Wake(f) => !c.write.wake && IsOwn(f, c) && readStopped
       case Finished(f) => IsOwn(f, c) && (if c.write.wake then readStopped else f.link.active)
       case Failed(_) => !c.write.wake && readStopped
       case _ => false
  }

  /** The next statement reads the call's link, and finds it stopped. */
  predicate ReadsStopped(db: Db, c: Call) {
    c.at.FindLink? && Own(c.input) in db.links && !db.links[Own(c.input)].active
  }

  lemma {:induction false} RetryStep(db: Db, c: Call, readStopped: bool)
    requires ValidInput(c.input) && Established(db, c.input) && Retrying(c, readStopped)
    ensures Retrying(Next(db, c), readStopped || ReadsStopped(db, c))
  {
  }

  /** Between a and n process p runs one call, which arrived at event a. */
  ghost predicate Stays(states: seq<State>, events: seq<Event>, a: nat, n: nat, p: nat, i: Input)
    requires a < n <= |events| < |states|
  {
    && events[a].Arrive? && events[a].p == p && events[a].input == i
    && forall m {:trigger states[m]} :: a < m <= n ==> p in states[m].calls
  }

  /** Some statement of the call between a and n read a stopped link. */
  ghost predicate HasReadStopped(states: seq<State>, events: seq<Event>, a: nat, n: nat, p: nat)
    requires n <= |events| < |states|
  {
    exists m {:trigger states[m]} :: a < m < n && events[m] == Step(p) && p in states[m].calls &&
      ReadsStopped(states[m].db, states[m].calls[p])
  }

  lemma {:induction false} OnlyStepsMove(s: State, e: Event, p: nat)
    requires Enabled(s, e) && p in s.calls && p in After(s, e).calls
    ensures After(s, e).calls[p] == if e == Step(p) then Next(s.db, s.calls[p]) else s.calls[p]
  {
  }

  lemma {:induction false} StaysEstablished(states: seq<State>, events: seq<Event>, a: nat, n: nat, i: Input)
    requires Run(states, events) && a <= n <= |events| && Established(states[a].db, i)
    ensures Established(states[n].db, i)
  {
    LinksAndKeysAreForever(states, events, a, n);
  }

  lemma {:induction false} RetryMoves(states: seq<State>, events: seq<Event>, a: nat, n: nat, p: nat)
    requires a + 1 < n <= |events| < |states| && p in states[n - 1].calls
    ensures HasReadStopped(states, events, a, n, p) <==>
            HasReadStopped(states, events, a, n - 1, p) ||
              (events[n - 1] == Step(p) && ReadsStopped(states[n - 1].db, states[n - 1].calls[p]))
  {
  }

  lemma {:induction false} RetryEvent(s: State, e: Event, p: nat, readStopped: bool)
    requires Enabled(s, e) && p in s.calls && p in After(s, e).calls
    requires ValidInput(s.calls[p].input) && Established(s.db, s.calls[p].input) && Retrying(s.calls[p], readStopped)
    ensures After(s, e).calls[p].input == s.calls[p].input
    ensures Retrying(After(s, e).calls[p], readStopped || (e == Step(p) && ReadsStopped(s.db, s.calls[p])))
  {
    OnlyStepsMove(s, e, p);
    RetryStep(s.db, s.calls[p], readStopped);
  }

  lemma {:induction false} RetryGoesOn(states: seq<State>, events: seq<Event>, a: nat, n: nat, p: nat, i: Input)
    requires Run(states, events) && a < n <= |events| && Stays(states, events, a, n, p, i)
    requires ValidInput(i) && Established(states[a].db, i)
    ensures states[n].calls[p].input == i && Retrying(states[n].calls[p], HasReadStopped(states, events, a, n, p))
    decreases n
  {
    assert Follows(states, events, n - 1);
    assert p in states[n].calls;
    if n > a + 1 {
      assert p in states[n - 1].calls;
      RetryGoesOn(states, events, a, n - 1, p, i);
      StaysEstablished(states, events, a, n - 1, i);
      RetryEvent(states[n - 1], events[n - 1], p, HasReadStopped(states, events, a, n - 1, p));
      RetryMoves(states, events, a, n, p);
    }
  }

  /** Under any interleaving, a call that arrives when its conversation is linked where it asks and its key is its own
      never inserts anything and never fails, and committing it changes nothing, unless it read its link stopped. */
  lemma {:induction false} RetryWritesNothing(states: seq<State>, events: seq<Event>, a: nat, n: nat, p: nat, i: Input)
    requires Run(states, events) && a < n <= |events| && Stays(states, events, a, n, p, i)
    requires ValidInput(i) && Established(states[a].db, i)
    ensures var c := states[n].calls[p];
            && c.write.link.None? && !c.write.key
            && (c.at.Finished? ==> c.at.shown.key == Own(i) && SameTarget(c.at.shown.link, i))
            && (!HasReadStopped(states, events, a, n, p) ==>
                  && !c.at.Failed? && Merged(states[n].db, c) == states[n].db
                  && (c.at.Finished? ==> c.at.shown.link.active))
  {
    RetryGoesOn(states, events, a, n, p, i);
  }

  // ---- One call alone, on tables changed in place ----

  function Rank(at: Pc): nat {
    match at
    case Begin => 9
    case FindLink => 8
    case InsertLink => 7
    case FindWinner => 6
    case FindKeyWinner(_) => 5
    case ClaimRead(_, _) => 4
    case ClaimInsert(_, _) => 3
    case ClaimLost(_, _) => 2
    case Wake(_) => 1
    case _ => 0
  }

  /** The call when nobody else writes, run to its end. */
  function Alone(db: Db, c: Call): Call
    decreases Rank(c.at)
  {
    if Rank(c.at) == 0 then c else Alone(db, Next(db, c))
  }

  lemma {:induction false} AloneStep(db: Db, c: Call)
    ensures Alone(db, c) == Alone(db, Next(db, c))
    ensures Rank(Next(db, c).at) == 0 ==> Alone(db, c) == Next(db, c)
  {
  }

  /** Claiming alone ends with the key in hand, or in failure. */
  lemma {:induction false} ClaimingAlone(db: Db, c: Call) returns (d: Call)
    requires c.at.ClaimRead? && !c.write.key && !c.write.wake
    ensures Alone(db, c) == Alone(db, d) && d.input == c.input && d.now == c.now && d.write.link == c.write.link &&
            !d.write.wake
    ensures d.at.Failed? || d.at == (if c.at.stopped then Wake(c.at.shown) else Finished(c.at.shown))
  {
    AloneStep(db, c);
    d := Next(db, c);
    if d.at.ClaimInsert? {
      AloneStep(db, d);
      d := Next(db, d);
    }
  }

  lemma {:induction false} RelinkLeavesActive(db: Db, c: Call)
    requires c.at.FindLink? && c.write == Write(None, false, false)
    requires Own(c.input) in db.links && Alone(db, c).at.Finished?
    ensures var d := Alone(db, c);
            Own(c.input) in Merged(db, d).links &&
              d.at.shown == Found(Own(c.input), Merged(db, d).links[Own(c.input)]) && d.at.shown.link.active
  {
    AloneStep(db, c);
    var d := ClaimingAlone(db, Next(db, c));
    AloneStep(db, d);
  }

  lemma {:induction false} InsertLeavesActive(db: Db, c: Call)
    requires KeysLead(db) && c.at.InsertLink? && c.write == Write(None, false, false)
    requires Own(c.input) !in db.links && Alone(db, c).at.Finished?
    ensures var d := Alone(db, c);
            Own(c.input) in Merged(db, d).links &&
              d.at.shown == Found(Own(c.input), Merged(db, d).links[Own(c.input)]) && d.at.shown.link.active
  {
    AloneStep(db, c);
    var c1 := Next(db, c);
    if c1.at.ClaimRead? {
      var d := ClaimingAlone(db, c1);
    } else {
      AloneStep(db, c1);
      AloneStep(db, Next(db, c1));
    }
  }

  /** A call that succeeds with nobody beside it leaves its conversation linked and active, woken
      if it had been stopped, and returns the link as it then stands. */
  lemma {:induction false} SuccessLeavesActive(db: Db, i: Input, now: int)
    requires KeysLead(db) && Alone(db, NewCall(i, now)).at.Finished?
    ensures var d := Alone(db, NewCall(i, now));
            Own(i) in Merged(db, d).links && d.at.shown == Found(Own(i), Merged(db, d).links[Own(i)]) &&
              d.at.shown.link.active
  {
    var c := NewCall(i, now);
    AloneStep(db, c);
    AloneKeepsInput(db, c);
    var c1 := Next(db, c);
    if Own(i) in db.links {
      RelinkLeavesActive(db, c1);
    } else {
      AloneStep(db, c1);
      InsertLeavesActive(db, Next(db, c1));
    }
  }

  lemma {:induction false} AloneKeepsInput(db: Db, c: Call)
    ensures Alone(db, c).input == c.input
    decreases Rank(c.at)
  {
    if Rank(c.at) > 0 { AloneKeepsInput(db, Next(db, c)); }
  }

  datatype Result = Ok(found: Found) | Err(error: Error)

  class Tables {
    var links: map<LinkKey, Link>
    var keys: map<KeyId, LinkKey>

    constructor ()
      ensures Now() == Db(map[], map[])
    {
      links, keys := map[], map[];
    }

    function Now(): Db
      reads this
    {
      Db(links, keys)
    }

    /** The tables hold what call c has written on top of db. */
    ghost predicate Holds(db: Db, c: Call)
      reads this
    {
      Now() == Merged(db, c)
    }

    /** Makes sure the call's key belongs to its conversation. */
    method ClaimKey(i: Input, ghost db: Db, ghost c: Call) returns (e: Option<Error>, ghost d: Call)
      requires c.input == i && c.at.ClaimRead? && !c.write.key && !c.write.wake && Holds(db, c)
      modifies this
      ensures Alone(db, c) == Alone(db, d) && Holds(db, d) && d.input == i && d.now == c.now &&
              d.write.link == c.write.link && !d.write.wake
      ensures links == old(links)
      ensures match e
              case Some(x) => d.at == Failed(x)
              case None => d.at == (if c.at.stopped then Wake(c.at.shown) else Finished(c.at.shown))
    {
      d := Next(db, c);
      AloneStep(db, c);
      if Kid(i) in keys {
        if keys[Kid(i)].conversation != i.conversation { return Some(Conflict), d; }
        return None, d;
      }
      AloneStep(db, d);
      d := Next(db, d);
      keys := keys[Kid(i) := Own(i)];
      return None, d;
    }

    /** The insert of a new link was refused: whoever holds the key in its own row decides. */
    method LostInsert(i: Input, ghost db: Db, ghost c: Call) returns (r: Result)
      requires c.input == i && c.at.FindWinner? && c.write == Write(None, false, false) && Now() == db &&
               Own(i) !in links
      ensures match Alone(db, c).at
              case Finished(f) => r == Ok(f) && Merged(db, Alone(db, c)) == db
              case Failed(e) => r == Err(e)
              case _ => false
    {
      AloneStep(db, c);
      AloneStep(db, Next(db, c));
      if Kid(i) !in keys { return Err(StorageConflict); }
      var other := keys[Kid(i)];
      if other.conversation != i.conversation || other !in links || !SameTarget(links[other], i) {
        return Err(Conflict);
      }
      return Ok(Found(other, links[other]));
    }

    /** The conversation is linked already: the same place is needed, and a stopped link is woken. */
    method Relink(i: Input, now: int, ghost db: Db, ghost c: Call) returns (r: Result)
      requires c == Call(i, now, FindLink, Write(None, false, false)) && Now() == db && Own(i) in links
      modifies this
      ensures match Alone(db, c).at
              case Finished(f) => r == Ok(f) && Now() == Merged(db, Alone(db, c))
              case Failed(e) => r == Err(e)
              case _ => false
    {
      AloneStep(db, c);
      var link := links[Own(i)];
      if !SameTarget(link, i) { return Err(Conflict); }
      var e: Option<Error>;
      ghost var d := Next(db, c);
      e, d := ClaimKey(i, db, d);
      if e.Some? { return Err(e.value); }
      if link.active { return Ok(Found(Own(i), link)); }
      AloneStep(db, d);
      if KeyColumnTaken(Now(), i) { return Err(StorageConflict); }
      links := links[Own(i) := links[Own(i)].(screen := i.screen, active := true, key := i.key, touched := now)];
      return Ok(Found(Own(i), links[Own(i)]));
    }

    method Upsert(i: Input, now: int) returns (r: Result)
      modifies this
      ensures var d := Alone(old(Now()), NewCall(i, now));
              match d.at
              case Finished(f) => r == Ok(f) && Now() == Merged(old(Now()), d)
              case Failed(e) => r == Err(e)
              case _ => false
    {
      ghost var db, c := Now(), NewCall(i, now);
      AloneStep(db, c);
      if !ValidInput(i) { return Err(Invalid); }
      if Kid(i) in keys && keys[Kid(i)].conversation != i.conversation { return Err(Conflict); }
      c := Next(db, c);
      AloneStep(db, c);
      var e: Option<Error>;
      if Own(i) in links {
        r := Relink(i, now, db, c);
        return;
      }
      c := Next(db, c);
      AloneStep(db, c);
      c := Next(db, c);
      if KeyColumnTaken(Now(), i) {
        r := LostInsert(i, db, c);
        return;
      }
      links := links[Own(i) := Link(i.workspace, i.item, i.screen, true, i.key, now)];
      e, c := ClaimKey(i, db, c);
      if e.Some? { return Err(e.value); }
      r := Ok(Found(Own(i), links[Own(i)]));
    }

    /** A request: committed when the call succeeds, rolled back when it fails. */
    method Request(i: Input, now: int) returns (r: Result)
      modifies this
      ensures var d := Alone(old(Now()), NewCall(i, now));
              match d.at
              case Finished(f) => r == Ok(f) && Now() == Merged(old(Now()), d)
              case Failed(e) => r == Err(e) && Now() == old(Now())
              case _ => false
    {
      var links0, keys0 := links, keys;
      r := Upsert(i, now);
      if r.Err? { links, keys := links0, keys0; }
    }

    method Get(scope: Scope, conversation: string) returns (r: Option<Link>)
      ensures r == if LinkKey(scope, conversation) in links then Some(links[LinkKey(scope, conversation)]) else None
    {
      if LinkKey(scope, conversation) in links { return Some(links[LinkKey(scope, conversation)]); }
      return None;
    }

    method StopForConnection(connection: Id, now: int)
      modifies this
      ensures Now() == Stopped(old(Now()), connection, now)
    {
      links := map k | k in links ::
        if k.scope.connection == connection && links[k].active
        then links[k].(active := false, touched := now) else links[k];
    }
  }
}
