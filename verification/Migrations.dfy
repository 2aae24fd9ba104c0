// Bringing a database up to the schema a build expects, while several
// processes start, crash and retry, and giving it to one deployment.
module Migrations {
  import opened Basics

  /** One migration: its version and how many statements its script holds. */
  datatype Migration = Migration(version: nat, statements: nat)

  /** A build's migrations, in order. */
  ghost predicate InOrder(build: seq<Migration>) {
    && (forall i :: 0 <= i < |build| ==> build[i].version >= 1)
    && forall i, j {:trigger build[i], build[j]} :: 0 <= i < j < |build| ==> build[i].version < build[j].version
  }

  const UNLABELLED := "local-preview"

  /** executed: (version, statement) pairs that ran to the end at least once. */
  datatype Db = Db(applied: set<nat>, executed: set<(nat, nat)>, environment: Option<string>)

  // ---- Readiness ----

  datatype SchemaStatus = SchemaStatus(schemaVersion: nat, expectedVersion: nat, environment: string,
    databaseEnvironment: Option<string>)
  {
    /** Two labelled deployments disagree. */
    predicate EnvironmentConflicts() {
      databaseEnvironment.Some? && databaseEnvironment.value != environment
      && databaseEnvironment.value != UNLABELLED && environment != UNLABELLED
    }

    predicate IsReady() {
      schemaVersion == expectedVersion && databaseEnvironment.Some? && !EnvironmentConflicts()
    }

    predicate NeedsClaim() {
      databaseEnvironment == None || (databaseEnvironment.value != environment && environment != UNLABELLED)
    }
  }

  lemma {:induction false} MaxExists(s: set<nat>)
    requires s != {}
    ensures exists m :: m in s && forall x :: x in s ==> x <= m
  {
    var x :| x in s;
    var rest := s - {x};
    if rest != {} {
      MaxExists(rest);
      var m :| m in rest && forall y :: y in rest ==> y <= m;
      var best := if m < x then x else m;
      forall y | y in s ensures y <= best { if y != x { assert y in rest; } }
      assert best in s;
    } else {
      assert s == rest + {x};
      assert forall y :: y in s ==> y <= x;
    }
  }

  /** SELECT MAX(version), 0 when there is none. */
  ghost function MaxVersion(s: set<nat>): (m: nat)
    ensures s == {} ==> m == 0
    ensures s != {} ==> m in s && forall x :: x in s ==> x <= m
  {
    if s == {} then 0 else
      MaxExists(s);
      var m :| m in s && forall x :: x in s ==> x <= m;
      m
  }

  function Versions(build: seq<Migration>, n: nat): set<nat>
    requires n <= |build|
  {
    set i | 0 <= i < n :: build[i].version
  }

  /** What the readiness probe reads; the version a build expects is its highest. */
  ghost function Status(build: seq<Migration>, db: Db, environment: string): SchemaStatus {
    SchemaStatus(MaxVersion(db.applied), MaxVersion(Versions(build, |build|)), environment, db.environment)
  }

  /** The applied versions are a beginning of the list. */
  ghost predicate PrefixApplied(build: seq<Migration>, applied: set<nat>) {
    exists n :: 0 <= n <= |build| && applied == Versions(build, n)
  }

  lemma {:induction false} VersionAmong(build: seq<Migration>, n: nat, m: nat)
    requires InOrder(build) && n <= |build| && m < |build|
    ensures build[m].version in Versions(build, n) <==> m < n
  {
  }

  lemma {:induction false} MaxOfPrefix(build: seq<Migration>, n: nat)
    requires InOrder(build) && n <= |build|
    ensures MaxVersion(Versions(build, n)) == if n == 0 then 0 else build[n - 1].version
  {
    var s := Versions(build, n);
    if n > 0 {
      assert build[n - 1].version in s;
      assert forall i :: 0 <= i < n ==> build[i].version <= build[n - 1].version;
    } else {
      assert s == {};
    }
  }

  /** When the applied versions are a beginning of the list, comparing the highest one with
      the build's last one tells exactly whether every migration is applied. */
  lemma {:induction false} MaxTellsAll(build: seq<Migration>, db: Db, environment: string)
    requires InOrder(build) && PrefixApplied(build, db.applied)
    ensures Status(build, db, environment).schemaVersion == Status(build, db, environment).expectedVersion <==>
            db.applied == Versions(build, |build|)
  {
  }

  /** While the applied versions are a beginning of the list, a deployment finds the database ready exactly when every
      migration is applied and some label is recorded that is its own or stands against none; and it has nothing to
      claim exactly when a label is recorded and it is that one, or carries none itself. */
  lemma {:induction false} ReadyIs(build: seq<Migration>, db: Db, mine: string)
    requires InOrder(build) && PrefixApplied(build, db.applied)
    ensures var status := Status(build, db, mine);
            && (status.IsReady() <==>
                 && (forall i :: 0 <= i < |build| ==> build[i].version in db.applied) && db.environment.Some?
                 && (db.environment.value == mine || db.environment.value == "local-preview" ||
                     mine == "local-preview"))
            && (!status.NeedsClaim() <==>
                 db.environment.Some? && (db.environment.value == mine || mine == "local-preview"))
  {
    MaxTellsAll(build, db, mine);
    AllReached(build, db);
  }

  // ---- Claiming ----

  /** The label after a claim; None where the claim is refused. */
  function Claimed(recorded: Option<string>, environment: string): Option<string> {
    match recorded
    case None => Some(environment)
    case Some(x) =>
      if x != environment && x != UNLABELLED && environment != UNLABELLED then None
      else if x == UNLABELLED && x != environment then Some(environment)
      else Some(x)
  }

  /** The database and this deployment's label go together, and nothing is left to claim. */
  predicate Settled(recorded: Option<string>, environment: string) {
    recorded.Some? && (recorded.value == environment || environment == UNLABELLED)
  }

  lemma {:induction false} ClaimSettles(recorded: Option<string>, environment: string)
    ensures Claimed(recorded, environment).Some? ==> Settled(Claimed(recorded, environment), environment)
    ensures Claimed(recorded, environment).Some? && recorded.Some? && recorded.value != UNLABELLED ==>
            Claimed(recorded, environment) == recorded
    ensures recorded == None || recorded == Some(UNLABELLED) ==> Claimed(recorded, environment) == Some(environment)
    ensures Claimed(recorded, environment) == None <==>
            recorded.Some? && recorded.value != environment && recorded.value != UNLABELLED && environment != UNLABELLED
  {
  }

  // ---- One process, statement by statement ----

  datatype Pc =
    | Probe | CheckVersion(i: nat) | RunStatement(i: nat, j: nat) | Record(i: nat) | Claim | ClaimInsert
    | Succeeded | Refused

  /** `lost` is another deployment's label that an ignored insert gave way to; it is kept for the proofs and no code
      reads it. */
  datatype Process = Process(environment: string, at: Pc, lost: Option<string>)

  /** The next statement of a process. Reading a stored label for the claim locks its row, so the claim over it is one
      step; where none is stored there is nothing to lock, and the insert that follows ignores a row it finds. */
  ghost function Next(build: seq<Migration>, db: Db, p: Process): (Db, Process) {
    match p.at
    case Probe =>
      var status := Status(build, db, p.environment);
      (db, p.(at := if status.IsReady() && !status.NeedsClaim() then Succeeded else CheckVersion(0)))
    case CheckVersion(i) =>
      if i >= |build| then (db, p.(at := Claim))
      else if build[i].version in db.applied then (db, p.(at := CheckVersion(i + 1)))
      else (db, p.(at := RunStatement(i, 0)))
    case RunStatement(i, j) =>
      if i < |build| && j < build[i].statements then
        (db.(executed := db.executed + {(build[i].version, j)}), p.(at := RunStatement(i, j + 1)))
      else (db, p.(at := Record(i)))
    case Record(i) =>
      if i < |build| then (db.(applied := db.applied + {build[i].version}), p.(at := CheckVersion(i + 1)))
      else (db, p.(at := Refused))
    case Claim =>
      if db.environment == None then (db, p.(at := ClaimInsert))
      else
        (match Claimed(db.environment, p.environment)
         case None => (db, p.(at := Refused))
         case Some(x) => (db.(environment := Some(x)), p.(at := Succeeded)))
    case ClaimInsert =>
      if db.environment == None then (db.(environment := Some(p.environment)), p.(at := Succeeded))
      else (db, p.(at := Succeeded, lost := if Settled(db.environment, p.environment) then None else db.environment))
    case Succeeded => (db, p)
    case Refused => (db, p)
  }

  // ---- Many processes ----

  datatype State = State(db: Db, processes: map<nat, Process>)

  /** Stop: a crash, a refused statement, a lock that timed out. */
  datatype Event = Start(p: nat, environment: string) | Step(p: nat) | Stop(p: nat)

  predicate Enabled(s: State, e: Event) {
    match e
    case Start(p, _) => p !in s.processes
    case Step(p) => p in s.processes
    case Stop(p) => p in s.processes
  }

  ghost function After(build: seq<Migration>, s: State, e: Event): State {
    match e
    case Start(p, environment) => s.(processes := s.processes[p := Process(environment, Probe, None)])
    case Step(p) =>
      if p in s.processes then
        var (db, q) := Next(build, s.db, s.processes[p]);
        State(db, s.processes[p := q])
      else s
    case Stop(p) => s.(processes := s.processes - {p})
  }

  // ---- What every run keeps ----

  /** All statements of the first n scripts have run. */
  ghost predicate Ran(build: seq<Migration>, executed: set<(nat, nat)>, i: nat, n: nat) {
    i < |build| && forall j :: 0 <= j < n ==> (build[i].version, j) in executed
  }

  ghost predicate Reached(build: seq<Migration>, db: Db, n: nat) {
    n <= |build| && forall i {:trigger build[i]} :: 0 <= i < n ==> build[i].version in db.applied
  }

  /** What a process has made sure of. */
  ghost predicate Fine(build: seq<Migration>, db: Db, p: Process) {
    match p.at
    case Probe => true
    case CheckVersion(i) => Reached(build, db, i)
    case RunStatement(i, j) =>
      Reached(build, db, i) && i < |build| && j <= build[i].statements && Ran(build, db.executed, i, j)
    case Record(i) => Reached(build, db, i) && i < |build| && Ran(build, db.executed, i, build[i].statements)
    case Claim => Reached(build, db, |build|)
    case ClaimInsert => Reached(build, db, |build|)
    case Succeeded => Reached(build, db, |build|) && Outcome(db.environment, p)
    case Refused => true
  }

  /** The label goes with the deployment, unless its insert gave way to another's label, which then stays if it is
      one. */
  predicate Outcome(recorded: Option<string>, p: Process) {
    match p.lost
    case None => Settled(recorded, p.environment)
    case Some(x) => x != p.environment && p.environment != UNLABELLED && (x != UNLABELLED ==> recorded == p.lost)
  }

  /** Only a process that has succeeded can have lost its insert. */
  predicate LostAtTheEnd(p: Process) {
    p.lost.Some? ==> p.at.Succeeded?
  }

  ghost predicate AppliedRan(build: seq<Migration>, db: Db) {
    forall i {:trigger build[i]} :: 0 <= i < |build| && build[i].version in db.applied ==>
      Ran(build, db.executed, i, build[i].statements)
  }

  ghost predicate Inv(build: seq<Migration>, s: State) {
    && PrefixApplied(build, s.db.applied) && AppliedRan(build, s.db)
    && forall p {:trigger s.processes[p]} :: p in s.processes ==>
       Fine(build, s.db, s.processes[p]) && LostAtTheEnd(s.processes[p])
  }

  /** Versions and statements are never taken back, and a label stays once it is one. */
  ghost predicate Grows(a: Db, b: Db) {
    && a.applied <= b.applied && a.executed <= b.executed
    && (a.environment.Some? ==> b.environment.Some?)
    && (a.environment.Some? && a.environment.value != UNLABELLED ==> b.environment == a.environment)
  }

  lemma {:induction false} StaysFine(build: seq<Migration>, a: Db, b: Db, p: Process)
    requires Fine(build, a, p) && Grows(a, b)
    ensures Fine(build, b, p)
  {
  }

  lemma {:induction false} NextGrows(build: seq<Migration>, db: Db, p: Process)
    ensures Grows(db, Next(build, db, p).0) && Next(build, db, p).1.environment == p.environment
  {
  }

  lemma {:induction false} ReachedIsPrefix(build: seq<Migration>, db: Db, n: nat)
    requires InOrder(build) && PrefixApplied(build, db.applied) && n < |build| && Reached(build, db, n)
    ensures PrefixApplied(build, db.applied + {build[n].version})
  {
    var k :| 0 <= k <= |build| && db.applied == Versions(build, k);
    if k < |build| { VersionAmong(build, k, k); }
    VersionAmong(build, k, n);
    if n < k {
      assert db.applied + {build[n].version} == Versions(build, k);
    } else {
      assert db.applied + {build[n].version} == Versions(build, n + 1);
    }
  }

  lemma {:induction false} AllReached(build: seq<Migration>, db: Db)
    requires PrefixApplied(build, db.applied)
    ensures Reached(build, db, |build|) <==> db.applied == Versions(build, |build|)
  {
  }

  lemma {:induction false} ProbeIsFine(build: seq<Migration>, db: Db, p: Process)
    requires InOrder(build) && PrefixApplied(build, db.applied) && p.at.Probe? && LostAtTheEnd(p)
    ensures Fine(build, Next(build, db, p).0, Next(build, db, p).1)
  {
    MaxTellsAll(build, db, p.environment);
    AllReached(build, db);
  }

  lemma {:induction false} RecordIsFine(build: seq<Migration>, db: Db, p: Process)
    requires InOrder(build) && PrefixApplied(build, db.applied) && AppliedRan(build, db) && Fine(build, db, p) &&
             p.at.Record?
    ensures var (db', q) := Next(build, db, p);
            PrefixApplied(build, db'.applied) && AppliedRan(build, db') && Fine(build, db', q)
  {
    var i, db' := p.at.i, Next(build, db, p).0;
    ReachedIsPrefix(build, db, i);
    forall k | 0 <= k < |build| && build[k].version in db'.applied
      ensures Ran(build, db'.executed, k, build[k].statements)
    {
      if k < i { assert build[k].version < build[i].version; }
      if i < k { assert build[i].version < build[k].version; }
    }
  }

  lemma {:induction false} RunningIsFine(build: seq<Migration>, db: Db, p: Process)
    requires AppliedRan(build, db) && Fine(build, db, p) && (p.at.CheckVersion? || p.at.RunStatement?)
    ensures var (db', q) := Next(build, db, p);
            db'.applied == db.applied && AppliedRan(build, db') && Fine(build, db', q)
  {
  }

  lemma {:induction false} ClaimIsFine(build: seq<Migration>, db: Db, p: Process)
    requires Fine(build, db, p) && LostAtTheEnd(p) && (p.at.Claim? || p.at.ClaimInsert?)
    ensures var (db', q) := Next(build, db, p);
            db'.applied == db.applied && db'.executed == db.executed && Fine(build, db', q)
  {
    ClaimSettles(db.environment, p.environment);
  }

  lemma {:induction false} NextIsFine(build: seq<Migration>, db: Db, p: Process)
    requires InOrder(build) && PrefixApplied(build, db.applied) && AppliedRan(build, db) && Fine(build, db, p) &&
             LostAtTheEnd(p)
    ensures var (db', q) := Next(build, db, p);
            PrefixApplied(build, db'.applied) && AppliedRan(build, db') && Fine(build, db', q) && LostAtTheEnd(q)
  {
    match p.at
    case Probe => ProbeIsFine(build, db, p);
    case CheckVersion(i) => RunningIsFine(build, db, p);
    case RunStatement(i, j) => RunningIsFine(build, db, p);
    case Record(i) => RecordIsFine(build, db, p);
    case Claim => ClaimIsFine(build, db, p);
    case ClaimInsert => ClaimIsFine(build, db, p);
    case Succeeded =>
    case Refused =>
  }

  lemma {:induction false} EventKeeps(build: seq<Migration>, s: State, e: Event)
    requires InOrder(build) && Inv(build, s) && Enabled(s, e)
    ensures Inv(build, After(build, s, e)) && Grows(s.db, After(build, s, e).db)
  {
    var t := After(build, s, e);
    match e
    case Start(p, _) =>
    case Stop(p) =>
    case Step(p) =>
      NextGrows(build, s.db, s.processes[p]);
      NextIsFine(build, s.db, s.processes[p]);
      forall q | q in t.processes ensures Fine(build, t.db, t.processes[q]) {
        if q != p { StaysFine(build, s.db, t.db, s.processes[q]); }
      }
  }

  // ---- Runs ----

  ghost predicate Follows(build: seq<Migration>, states: seq<State>, events: seq<Event>, n: nat)
    requires n < |events| < |states|
  {
    Enabled(states[n], events[n]) && states[n + 1] == After(build, states[n], events[n])
  }

  ghost predicate Run(build: seq<Migration>, states: seq<State>, events: seq<Event>) {
    && |states| == |events| + 1 && states[0] == State(Db({}, {}, None), map[])
    && forall n: nat :: n < |events| ==> Follows(build, states, events, n)
  }

  /** Through crashes, retries and racing starters the applied versions are a beginning of the
      list, and a recorded version means its whole script has run. */
  lemma {:induction false} EveryRunIsSound(build: seq<Migration>, states: seq<State>, events: seq<Event>, n: nat)
    requires InOrder(build) && Run(build, states, events) && n <= |events|
    ensures Inv(build, states[n])
  {
    if n == 0 {
      assert Versions(build, 0) == {};
    } else {
      EveryRunIsSound(build, states, events, n - 1);
      assert Follows(build, states, events, n - 1);
      EventKeeps(build, states[n - 1], events[n - 1]);
    }
  }

  lemma {:induction false} NothingIsTakenBack(build: seq<Migration>, states: seq<State>, events: seq<Event>, m: nat,
      n: nat)
    requires InOrder(build) && Run(build, states, events) && m <= n <= |events|
    ensures Grows(states[m].db, states[n].db)
    decreases n
  {
    if m < n {
      NothingIsTakenBack(build, states, events, m, n - 1);
      EveryRunIsSound(build, states, events, n - 1);
      assert Follows(build, states, events, n - 1);
      EventKeeps(build, states[n - 1], events[n - 1]);
    }
  }

  /** A database that carries a deployment's label never changes it. */
  lemma {:induction false} LabelNeverChanges(build: seq<Migration>, states: seq<State>, events: seq<Event>, m: nat,
      n: nat)
    requires InOrder(build) && Run(build, states, events) && m <= n <= |events|
    requires states[m].db.environment.Some? && states[m].db.environment.value != UNLABELLED
    ensures states[n].db.environment == states[m].db.environment
  {
    NothingIsTakenBack(build, states, events, m, n);
  }

  lemma {:induction false} StatusAfterSuccess(build: seq<Migration>, states: seq<State>, events: seq<Event>, m: nat,
      n: nat, p: nat)
    requires InOrder(build) && Run(build, states, events) && m <= n <= |events|
    requires p in states[m].processes && states[m].processes[p].at.Succeeded?
    ensures Outcome(states[n].db.environment, states[m].processes[p]) &&
            states[n].db.applied == Versions(build, |build|)
    ensures var status := Status(build, states[n].db, states[m].processes[p].environment);
            status.schemaVersion == status.expectedVersion
  {
    EveryRunIsSound(build, states, events, m);
    EveryRunIsSound(build, states, events, n);
    NothingIsTakenBack(build, states, events, m, n);
    assert Fine(build, states[m].db, states[m].processes[p]);
    StaysFine(build, states[m].db, states[n].db, states[m].processes[p]);
    AllReached(build, states[n].db);
    MaxTellsAll(build, states[n].db, states[m].processes[p].environment);
  }

  /** A process whose migrate succeeded finds every migration applied. It is ready and has nothing to claim, then and
      ever after, unless its insert gave way to another deployment's label: to a real one, and it is never ready. */
  lemma {:induction false} SuccessIsReady(build: seq<Migration>, states: seq<State>, events: seq<Event>, m: nat,
      n: nat, p: nat)
    requires InOrder(build) && Run(build, states, events) && m <= n <= |events|
    requires p in states[m].processes && states[m].processes[p].at.Succeeded?
    ensures states[n].db.applied == Versions(build, |build|)
    ensures var q := states[m].processes[p];
            var status := Status(build, states[n].db, q.environment);
            && (q.lost == None ==> status.IsReady() && !status.NeedsClaim())
            && (q.lost.Some? && q.lost.value != UNLABELLED ==> !status.IsReady())
  {
    StatusAfterSuccess(build, states, events, m, n, p);
  }

  /** Right after its last statement a process that succeeds is ready with nothing to claim exactly when it did not
      lose its insert. */
  lemma {:induction false} ReadyExactlyUnlessOvertaken(build: seq<Migration>, states: seq<State>, events: seq<Event>,
      n: nat, p: nat)
    requires InOrder(build) && Run(build, states, events) && n < |events| && events[n] == Step(p)
    requires p in states[n].processes && !states[n].processes[p].at.Succeeded?
    requires p in states[n + 1].processes && states[n + 1].processes[p].at.Succeeded?
    ensures var q := states[n + 1].processes[p];
            var status := Status(build, states[n + 1].db, q.environment);
            status.IsReady() && !status.NeedsClaim() <==> q.lost == None
  {
    StatusAfterSuccess(build, states, events, n + 1, n + 1, p);
    assert Follows(build, states, events, n);
    EveryRunIsSound(build, states, events, n);
    assert LostAtTheEnd(states[n].processes[p]);
  }

  /** It happens: two labelled deployments that both read no label both succeed, and one of them is never ready. */
  lemma {:induction false} BothInsert(build: seq<Migration>, db: Db, p: Process, q: Process)
    requires db.environment == None && p.at.ClaimInsert? && q.at.ClaimInsert? && p.lost == None
    requires p.environment != q.environment && p.environment != UNLABELLED && q.environment != UNLABELLED
    ensures var (db1, p1) := Next(build, db, p);
            var (db2, q2) := Next(build, db1, q);
            && p1.at.Succeeded? && p1.lost == None && q2.at.Succeeded? && q2.lost == Some(p.environment)
            && Status(build, db2, q.environment).EnvironmentConflicts()
  {
  }

  // ---- Under the lock ----

  /** Between taking the migration lock and letting go of it. */
  predicate Inside(p: Process) {
    p.at.CheckVersion? || p.at.RunStatement? || p.at.Record? || p.at.Claim? || p.at.ClaimInsert?
  }

  ghost predicate OneInside(s: State) {
    forall p, q {:trigger s.processes[p], s.processes[q]} ::
      p in s.processes && q in s.processes && Inside(s.processes[p]) && Inside(s.processes[q]) ==> p == q
  }

  /** Nobody has lost an insert, and who is about to insert finds no label. */
  ghost predicate NoneLost(s: State) {
    forall p {:trigger s.processes[p]} :: p in s.processes ==>
      s.processes[p].lost == None && (s.processes[p].at.ClaimInsert? ==> s.db.environment == None)
  }

  lemma {:induction false} NoneLostNext(build: seq<Migration>, s: State, e: Event)
    requires NoneLost(s) && OneInside(s) && Enabled(s, e)
    ensures NoneLost(After(build, s, e))
  {
  }

  /** With the advisory lock held from the first version check to the claim, no insert is ever lost: success means
      ready, with nothing to claim, then and ever after. */
  lemma {:induction false} LockedSuccessIsReady(build: seq<Migration>, states: seq<State>, events: seq<Event>,
      m: nat, n: nat, p: nat)
    requires InOrder(build) && Run(build, states, events) && m <= n <= |events|
    requires forall k {:trigger states[k]} :: 0 <= k <= m ==> OneInside(states[k])
    requires p in states[m].processes && states[m].processes[p].at.Succeeded?
    ensures var status := Status(build, states[n].db, states[m].processes[p].environment);
            status.IsReady() && !status.NeedsClaim()
  {
    LockedRunsLoseNone(build, states, events, m);
    SuccessIsReady(build, states, events, m, n, p);
  }

  lemma {:induction false} LockedRunsLoseNone(build: seq<Migration>, states: seq<State>, events: seq<Event>, n: nat)
    requires Run(build, states, events) && n <= |events|
    requires forall k {:trigger states[k]} :: 0 <= k <= n ==> OneInside(states[k])
    ensures NoneLost(states[n])
  {
    if n > 0 {
      LockedRunsLoseNone(build, states, events, n - 1);
      assert Follows(build, states, events, n - 1) && OneInside(states[n - 1]);
      NoneLostNext(build, states[n - 1], events[n - 1]);
    }
  }

  // ---- One process alone, on the tables themselves ----

  /** Every statement of the scripts from the first n migrations that were not applied before. */
  ghost function ScriptsOf(build: seq<Migration>, n: nat, applied: set<nat>): set<(nat, nat)>
    requires n <= |build|
  {
    set i, j | 0 <= i < n && 0 <= j < build[i].statements && build[i].version !in applied :: (build[i].version, j)
  }

  class Database {
    var applied: set<nat>
    var executed: set<(nat, nat)>
    var environment: Option<string>

    constructor ()
      ensures Now() == Db({}, {}, None)
    {
      applied, executed, environment := {}, {}, None;
    }

    function Now(): Db
      reads this
    {
      Db(applied, executed, environment)
    }

    method ReadStatus(build: seq<Migration>, mine: string) returns (s: SchemaStatus)
      requires InOrder(build)
      ensures s == Status(build, Now(), mine)
    {
      var highest: nat := 0;
      var todo := applied;
      while todo != {}
        invariant todo <= applied
        invariant if applied == todo then highest == 0 else highest in applied
        invariant forall v :: v in applied - todo ==> v <= highest
        decreases todo
      {
        var v :| v in todo;
        assert applied - (todo - {v}) == (applied - todo) + {v};
        if applied == todo || v > highest { highest := v; }
        todo := todo - {v};
      }
      assert applied - todo == applied;
      MaxOfPrefix(build, |build|);
      s := SchemaStatus(highest, if build == [] then 0 else build[|build| - 1].version, mine, environment);
    }

    /** Records the deployment, or refuses when another one has. */
    method ClaimEnvironment(mine: string) returns (ok: bool)
      modifies this`environment
      ensures ok <==> Claimed(old(environment), mine).Some?
      ensures environment == if ok then Claimed(old(environment), mine) else old(environment)
    {
      if environment.Some? && environment.value != mine && environment.value != UNLABELLED && mine != UNLABELLED {
        return false;
      }
      if environment.Some? && environment.value == UNLABELLED && environment.value != mine {
        environment := Some(mine);
      } else if environment == None {
        environment := Some(mine);
      }
      return true;
    }

    /** Runs the scripts that are not recorded, one statement at a time, each recorded after its last. */
    method MigrateLocked(build: seq<Migration>, mine: string) returns (ok: bool)
      requires InOrder(build)
      modifies this
      ensures applied == old(applied) + Versions(build, |build|)
      ensures executed == old(executed) + ScriptsOf(build, |build|, old(applied))
      ensures ok <==> Claimed(old(environment), mine).Some?
      ensures environment == if ok then Claimed(old(environment), mine) else old(environment)
    {
      for i := 0 to |build|
        invariant applied == old(applied) + Versions(build, i)
        invariant executed == old(executed) + ScriptsOf(build, i, old(applied))
        invariant environment == old(environment)
      {
        var m := build[i];
        VersionAmong(build, i, i);
        if m.version in applied { continue; }
        ghost var before := executed;
        for j := 0 to m.statements
          invariant executed == before + set k | 0 <= k < j :: (m.version, k)
          invariant applied == old(applied) + Versions(build, i) && environment == old(environment)
        {
          executed := executed + {(m.version, j)};
        }
        applied := applied + {m.version};
      }
      ok := ClaimEnvironment(mine);
    }

    /** A run that succeeds leaves this process ready, with nothing to claim. */
    method Migrate(build: seq<Migration>, mine: string) returns (ok: bool)
      requires InOrder(build) && PrefixApplied(build, applied)
      modifies this
      ensures ok ==> Status(build, Now(), mine).IsReady() && !Status(build, Now(), mine).NeedsClaim()
      ensures !ok <==> (old(environment).Some? && old(environment).value != mine
                        && old(environment).value != UNLABELLED && mine != UNLABELLED)
      ensures environment == if old(environment).Some? && old(environment).value != UNLABELLED then old(environment)
                             else Some(mine)
      ensures applied == Versions(build, |build|)
      ensures executed == old(executed) + ScriptsOf(build, |build|, old(applied))
    {
      MaxTellsAll(build, Now(), mine);
      var status := ReadStatus(build, mine);
      if status.IsReady() && !status.NeedsClaim() {
        forall i | 0 <= i < |build|
          ensures build[i].version in applied
        {
          assert build[i].version in Versions(build, |build|);
        }
        assert ScriptsOf(build, |build|, applied) == {};
        return true;
      }
      ghost var n :| 0 <= n <= |build| && applied == Versions(build, n);
      ok := MigrateLocked(build, mine);
      assert applied == Versions(build, |build|);
      assert PrefixApplied(build, applied);
      MaxTellsAll(build, Now(), mine);
      ClaimSettles(old(environment), mine);
    }
  }
}
