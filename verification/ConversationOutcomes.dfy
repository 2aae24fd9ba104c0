// When linking a conversation succeeds, told from the tables and the request alone, and what the tables hold then.
module ConversationOutcomes {
  import opened Basics
  import opened Conversation

  // ---- Conditions on the tables ----

  ghost predicate WellFormed(i: Input) {
    1 <= |i.conversation| <= 191 && 1 <= |i.key| <= 200 && forall k :: 0 <= k < |i.key| ==> i.key[k] as int < 128
  }

  /** The key is promised to another conversation of the scope. */
  ghost predicate KeyIsAnothers(db: Db, i: Input) {
    KeyId(i.scope, i.key) in db.keys && db.keys[KeyId(i.scope, i.key)].conversation != i.conversation
  }

  ghost predicate LeadsElsewhere(l: Link, i: Input) {
    l.workspace != i.workspace || l.item != i.item || l.screen != i.screen
  }

  ghost predicate LinkedElsewhere(db: Db, i: Input) {
    LinkKey(i.scope, i.conversation) in db.links && LeadsElsewhere(db.links[LinkKey(i.scope, i.conversation)], i)
  }

  ghost predicate LinkedAndActive(db: Db, i: Input) {
    LinkKey(i.scope, i.conversation) in db.links && db.links[LinkKey(i.scope, i.conversation)].active
  }

  /** The link of another conversation of the scope was made or woken with this key. */
  ghost predicate MadeWithKey(db: Db, i: Input, k: LinkKey) {
    k in db.links && k.scope == i.scope && k.conversation != i.conversation && db.links[k].key == i.key
  }

  ghost predicate ColumnTaken(db: Db, i: Input) {
    exists k :: MadeWithKey(db, i, k)
  }

  lemma {:induction false} ColumnTakenIs(db: Db, i: Input)
    ensures KeyColumnTaken(db, i) <==> ColumnTaken(db, i)
  {
    if k :| k in db.links && k.scope == i.scope && k != Own(i) && db.links[k].key == i.key {
      assert k.conversation != i.conversation by { assert k == LinkKey(k.scope, k.conversation); }
      assert MadeWithKey(db, i, k);
    }
    if k :| MadeWithKey(db, i, k) { assert k != Own(i); }
  }

  // ---- One call alone ----

  /** What a link looks like once the call succeeded: an active one as it was, any other made or woken by it. */
  ghost predicate LinkAfter(db: Db, i: Input, now: int, l: Link) {
    && l.active && !LeadsElsewhere(l, i)
    && if LinkedAndActive(db, i) then l == db.links[LinkKey(i.scope, i.conversation)]
       else l.key == i.key && l.touched == now
  }

  /** The tables after a successful call differ only in its own link and key. */
  ghost predicate TablesAfter(db: Db, i: Input, now: int, t: Db) {
    var own := LinkKey(i.scope, i.conversation);
    && t.links.Keys == db.links.Keys + {own} && LinkAfter(db, i, now, t.links[own])
    && (forall k {:trigger t.links[k]} :: k in db.links && k != own ==> t.links[k] == db.links[k])
    && t.keys == db.keys[KeyId(i.scope, i.key) := own]
  }

  /** How a call alone ends, refusals in the order they are made. */
  ghost predicate EndsAs(db: Db, i: Input, now: int, d: Call) {
    if !WellFormed(i) then d.at == Failed(Invalid)
    else if KeyIsAnothers(db, i) || LinkedElsewhere(db, i) then d.at == Failed(Conflict)
    else if !LinkedAndActive(db, i) && ColumnTaken(db, i) then d.at == Failed(StorageConflict)
    else
      && d.at.Finished? && TablesAfter(db, i, now, Merged(db, d))
      && d.at.shown == Found(LinkKey(i.scope, i.conversation), Merged(db, d).links[LinkKey(i.scope, i.conversation)])
  }

  lemma {:induction false} KeyLeadsHome(db: Db, i: Input)
    requires KeysLead(db) && Kid(i) in db.keys && db.keys[Kid(i)].conversation == i.conversation
    ensures db.keys[Kid(i)] == Own(i) && Own(i) in db.links
    ensures db.keys == db.keys[Kid(i) := Own(i)]
  {
    var k := db.keys[Kid(i)];
    assert k == LinkKey(k.scope, k.conversation);
  }

  /** Claiming the key: nobody else holds it. */
  lemma {:induction false} ClaimGoesThrough(db: Db, c: Call) returns (d: Call)
    requires KeysLead(db) && c.at.ClaimRead? && !c.write.key && !c.write.wake && !KeyIsAnothers(db, c.input)
    ensures Alone(db, c) == Alone(db, d) && d == c.(at := Return(c), write := d.write)
    ensures d.write == c.write.(key := Kid(c.input) !in db.keys)
    ensures Kid(c.input) in db.keys ==> db.keys == db.keys[Kid(c.input) := Own(c.input)]
  {
    AloneStep(db, c);
    d := Next(db, c);
    if Kid(c.input) in db.keys {
      KeyLeadsHome(db, c.input);
    } else {
      AloneStep(db, d);
      d := Next(db, d);
    }
  }

  lemma {:induction false} RelinkEnds(db: Db, i: Input, now: int)
    requires KeysLead(db) && WellFormed(i) && !KeyIsAnothers(db, i) && Own(i) in db.links && !LinkedElsewhere(db, i)
    ensures EndsAs(db, i, now, Alone(db, Call(i, now, FindLink, Write(None, false, false))))
  {
    var c := Call(i, now, FindLink, Write(None, false, false));
    ColumnTakenIs(db, i);
    AloneStep(db, c);
    var d := ClaimGoesThrough(db, Next(db, c));
    AloneStep(db, d);
  }

  lemma {:induction false} FirstLinkEnds(db: Db, i: Input, now: int)
    requires KeysLead(db) && WellFormed(i) && !KeyIsAnothers(db, i) && Own(i) !in db.links
    ensures EndsAs(db, i, now, Alone(db, Call(i, now, InsertLink, Write(None, false, false))))
  {
    var c := Call(i, now, InsertLink, Write(None, false, false));
    ColumnTakenIs(db, i);
    AloneStep(db, c);
    if Kid(i) in db.keys {
      KeyLeadsHome(db, i);
      assert false;
    }
    var c1 := Next(db, c);
    if ColumnTaken(db, i) {
      AloneStep(db, c1);
      AloneStep(db, Next(db, c1));
    } else {
      var d := ClaimGoesThrough(db, c1);
      AloneStep(db, d);
    }
  }

  /** A call with nobody beside it succeeds exactly when it is well formed, its key is not another conversation's,
      its conversation is linked nowhere else, and, unless its link is active, no other link was made with its key;
      each refusal is the one EndsAs names, and success leaves exactly its link and its key. */
  lemma {:induction false} AloneEnds(db: Db, i: Input, now: int)
    requires KeysLead(db)
    ensures EndsAs(db, i, now, Alone(db, NewCall(i, now)))
  {
    var c := NewCall(i, now);
    AloneStep(db, c);
    assert ValidInput(i) <==> WellFormed(i);
    if WellFormed(i) && !KeyIsAnothers(db, i) {
      var c1 := Next(db, c);
      if Own(i) !in db.links {
        AloneStep(db, c1);
        FirstLinkEnds(db, i, now);
      } else if LinkedElsewhere(db, i) {
        AloneStep(db, c1);
      } else {
        RelinkEnds(db, i, now);
      }
    }
  }

  // ---- A call that lost a race ----

  /** The insert was refused because another call's link for the conversation was committed meanwhile: that link is
      returned as it stands and the key becomes the conversation's, exactly when it leads where this call asked and
      the key is not another conversation's; otherwise the call is refused as a conflict. */
  lemma {:induction false} LostInsertEnds(db: Db, i: Input, now: int)
    requires KeysLead(db) && Own(i) in db.links
    ensures var d := Alone(db, Call(i, now, FindWinner, Write(None, false, false)));
            if LinkedElsewhere(db, i) || KeyIsAnothers(db, i) then d.at == Failed(Conflict)
            else
              && d.at == Finished(Found(LinkKey(i.scope, i.conversation), db.links[Own(i)]))
              && Merged(db, d).links == db.links
              && Merged(db, d).keys == db.keys[KeyId(i.scope, i.key) := LinkKey(i.scope, i.conversation)]
  {
    var c := Call(i, now, FindWinner, Write(None, false, false));
    AloneStep(db, c);
    var c1 := Next(db, c);
    AloneStep(db, c1);
    if !LinkedElsewhere(db, i) && !KeyIsAnothers(db, i) {
      var d := ClaimGoesThrough(db, Next(db, c1));
      AloneStep(db, d);
    }
  }

  /** The key was written by another call between the reading and the writing of it: this call goes on, writing
      nothing for it, exactly when that was for the same conversation. */
  lemma {:induction false} LostKeyEnds(db: Db, c: Call)
    requires c.at.ClaimInsert? && !c.write.key && Kid(c.input) in db.keys
    ensures var d := Next(db, Next(db, c));
            && d.write == c.write
            && d.at == if KeyIsAnothers(db, c.input) then Failed(Conflict)
                       else if c.at.stopped then Wake(c.at.shown) else Finished(c.at.shown)
  {
  }

  // ---- Every reachable state ----

  /** A link's own key is promised to its conversation. */
  ghost predicate ColumnsLead(db: Db) {
    forall k {:trigger db.links[k]} :: k in db.links ==>
      KeyId(k.scope, db.links[k].key) in db.keys && db.keys[KeyId(k.scope, db.links[k].key)] == k
  }

  /** A link about to be made carries its call's key. */
  predicate PendingCarriesKey(c: Call) {
    c.write.link.Some? ==> c.write.link.value.key == c.input.key
  }

  ghost predicate PendingCarryKeys(s: State) {
    forall p {:trigger s.calls[p]} :: p in s.calls ==> PendingCarriesKey(s.calls[p])
  }

  lemma {:induction false} MergeKeepsColumns(db: Db, c: Call)
    requires KeysLead(db) && Fine(db, c) && c.at.Finished? && ColumnsLead(db) && PendingCarriesKey(c)
    ensures ColumnsLead(Merged(db, c))
  {
    if !c.write.key { KeyLeadsHome(db, c.input); }
    var t, own := Merged(db, c), Own(c.input);
    forall k | k in t.links
      ensures KeyId(k.scope, t.links[k].key) in t.keys && t.keys[KeyId(k.scope, t.links[k].key)] == k
    {
      if k in db.links && t.links[k] == db.links[k] {
        assert db.keys[KeyId(k.scope, db.links[k].key)] == k;
      } else {
        assert k == own;
      }
    }
  }

  lemma {:induction false} EventKeepsColumns(s: State, e: Event)
    requires Inv(s) && Enabled(s, e) && ColumnsLead(s.db) && PendingCarryKeys(s)
    ensures ColumnsLead(After(s, e).db) && PendingCarryKeys(After(s, e))
  {
    if e.Commit? {
      assert Fine(s.db, s.calls[e.p]);
      MergeKeepsColumns(s.db, s.calls[e.p]);
    }
  }

  lemma {:induction false} ColumnsLeadInEveryRun(states: seq<State>, events: seq<Event>, n: nat)
    requires Run(states, events) && n <= |events|
    ensures ColumnsLead(states[n].db) && PendingCarryKeys(states[n])
  {
    if n > 0 {
      ColumnsLeadInEveryRun(states, events, n - 1);
      EveryRunIsSound(states, events, n - 1);
      assert Follows(states, events, n - 1);
      EventKeepsColumns(states[n - 1], events[n - 1]);
    }
  }

  /** In every reachable state a call alone is refused for exactly three reasons, and never by the store. */
  lemma {:induction false} RefusedExactlyWhen(states: seq<State>, events: seq<Event>, n: nat, i: Input, now: int)
    requires Run(states, events) && n <= |events|
    ensures var db := states[n].db;
            var d := Alone(db, NewCall(i, now));
            && (d.at.Finished? <==> WellFormed(i) && !KeyIsAnothers(db, i) && !LinkedElsewhere(db, i))
            && d.at != Failed(StorageConflict)
            && (d.at.Finished? ==> TablesAfter(db, i, now, Merged(db, d)))
  {
    var db := states[n].db;
    EveryRunIsSound(states, events, n);
    ColumnsLeadInEveryRun(states, events, n);
    AloneEnds(db, i, now);
    if k :| MadeWithKey(db, i, k) { assert KeyId(k.scope, db.links[k].key) == KeyId(i.scope, i.key); }
  }

  /** Repeating an established call wakes its link when the connection was stopped: it succeeds, and returns the
      link active and leading where it did. */
  lemma {:induction false} RetryWakes(states: seq<State>, events: seq<Event>, n: nat, i: Input, now: int)
    requires Run(states, events) && n <= |events| && WellFormed(i) && Established(states[n].db, i)
    ensures var db := states[n].db;
            var d := Alone(db, NewCall(i, now));
            && d.at.Finished? && d.at.shown.key == Own(i) && d.at.shown.link.active
            && SamePlace(d.at.shown.link, db.links[Own(i)]) && Merged(db, d).keys == db.keys
            && (!db.links[Own(i)].active ==> d.at.shown.link.key == i.key && d.at.shown.link.touched == now)
  {
    var db := states[n].db;
    RefusedExactlyWhen(states, events, n, i, now);
    EveryRunIsSound(states, events, n);
    AloneEnds(db, i, now);
  }

  /** Stopping a connection: its active links stop now, keeping their key and place; everything else stays. */
  lemma {:induction false} StoppingIs(db: Db, connection: Id, now: int, k: LinkKey)
    ensures var t := Stopped(db, connection, now);
            && t.keys == db.keys && (k in t.links <==> k in db.links)
            && (k in db.links ==>
                 if k.scope.connection == connection && db.links[k].active then
                   !t.links[k].active && t.links[k].touched == now && t.links[k].key == db.links[k].key &&
                   SamePlace(t.links[k], db.links[k])
                 else t.links[k] == db.links[k])
  {
  }
}
