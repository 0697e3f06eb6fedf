/** Workers over the queue. Each transaction is one step; so is each launch of
    a child, which no transaction covers. Steps of any number of workers and of
    the operator interleave freely, and a worker may stop anywhere. */
module QueueRuns {
  import opened Wrappers
  import opened QueueTables

  /** Where a worker stands in `run`, between one atomic action and the next. */
  datatype Pc = Claiming | Fetching | Dispatching | Checking | Launching | Collecting | Indexing | Done | Stopped

  /** `token` is 0 until a claim succeeds. */
  datatype Worker = Worker(scope: Scope, execution: Id, token: nat, cases: seq<Case>, cells: seq<Outcome>, pc: Pc)

  /** `launched` lists, for each execution, the cases whose child was started. */
  datatype World = World(db: Db, workers: map<nat, Worker>, launched: map<Id, seq<Case>>)

  datatype Step =
    | AddProject(scope: Scope, allowance: int)
    | Revoke(scope: Scope)
    | Submit(scope: Scope, slot: string, definition: Definition, drawn: Id)
    | Recover(scope: Scope, id: Id)
    | Start(worker: nat, scope: Scope, id: Id)
    | Advance(worker: nat, outcome: Outcome)
    | Stop(worker: nat)

  const EMPTY := World(Db(map[], [], map[]), map[], map[])

  function Launched(launched: map<Id, seq<Case>>, id: Id): seq<Case> {
    if id in launched then launched[id] else []
  }

  /** How `run` labels a finished export. */
  function Verdict(cells: seq<Outcome>): State {
    if forall i | 0 <= i < |cells| :: cells[i] == Retrieved then Completed else Partial
  }

  function ExportOf(k: Worker, version: Digest<Definition>): Export {
    Export(k.execution, version, Verdict(k.cells), k.cells)
  }

  /** The next atomic action of a worker on the tables: the tables after it, the
      worker after it, and the case whose child it started, if it did.
      `outcome` is what its child reports. */
  function Act(db: Db, k: Worker, outcome: Outcome): (Db, Worker, seq<Case>)
    requires WellKeyed(db)
  {
    var stopped := (db, k.(pc := Stopped), []);
    match k.pc
    case Claiming =>
      (match Claim(db, k.scope, k.execution)
       case Ok((after, token)) => (after, k.(token := token, pc := Fetching), [])
       case Err(_) => stopped)
    case Fetching =>
      (match Fetched(db, k.scope, k.execution)
       case Ok(row) =>
         if row.version != Sha256(row.definition) then stopped
         else (db, k.(cases := row.definition.cases, pc := Dispatching), [])
       case Err(_) => stopped)
    case Dispatching => Moved(db, k, Reserved, Dispatched, None, Checking)
    case Checking =>
      if |k.cells| >= |k.cases| then (db, k.(pc := Indexing), [])
      else
        (match Fetched(db, k.scope, k.execution)
         case Ok(row) =>
           if row.token != k.token || row.state != Dispatched then stopped else (db, k.(pc := Launching), [])
         case Err(_) => stopped)
    case Launching =>
      if |k.cells| >= |k.cases| then stopped else (db, k.(pc := Collecting), [k.cases[|k.cells|]])
    case Collecting => (db, k.(cells := k.cells + [outcome], pc := Checking), [])
    case Indexing =>
      if OtherStatus in k.cells || k.execution !in db.rows then stopped
      else
        var published := ExportOf(k, db.rows[k.execution].version);
        Moved(db, k, Dispatched, published.state, Some(Sha256(published)), Done)
    case Done => (db, k, [])
    case Stopped => (db, k, [])
  }

  /** A worker's transition: on to `pc` if it was made, and stopped if it was refused. */
  function Moved(db: Db, k: Worker, previous: State, next: State, hash: Option<Digest<Export>>, pc: Pc): (Db, Worker, seq<Case>) {
    match Transition(db, k.scope, k.execution, k.token, previous, next, hash)
    case Ok(after) => (after, k.(pc := pc), [])
    case Err(_) => (db, k.(pc := Stopped), [])
  }

  function Started(launched: map<Id, seq<Case>>, id: Id, cases: seq<Case>): map<Id, seq<Case>> {
    if cases == [] then launched else launched[id := Launched(launched, id) + cases]
  }

  function AdvanceWorker(w: World, n: nat, outcome: Outcome): World
    requires n in w.workers && WellKeyed(w.db)
  {
    var (db, k, started) := Act(w.db, w.workers[n], outcome);
    World(db, w.workers[n := k], Started(w.launched, k.execution, started))
  }

  /** An action keeps to its own execution's row. */
  lemma ActKeeps(db: Db, k: Worker, outcome: Outcome)
    requires WellKeyed(db)
    ensures var (after, k', started) := Act(db, k, outcome);
            && k'.execution == k.execution && k'.scope == k.scope
            && (after == db || (k.execution in db.rows && k.execution in after.rows
                                && after == db.(rows := db.rows[k.execution := after.rows[k.execution]])))
  {
  }

  function Kept(w: World, r: Result<Db, Error>): World {
    if r.Ok? then w.(db := r.value) else w
  }

  lemma SubmitWellKeyed(db: Db, scope: Scope, slot: string, d: Definition, drawn: Id)
    requires WellKeyed(db)
    ensures var r := QueueTables.Submit(db, scope, slot, d, drawn);
            r.Ok? ==> WellKeyed(r.value.0)
  {
    var r := QueueTables.Submit(db, scope, slot, d, drawn);
    assert r.Ok? && r.value.0 != db ==> r.value.0.order == db.order + [drawn];
  }

  lemma AdvanceWellKeyed(w: World, n: nat, outcome: Outcome)
    requires n in w.workers && WellKeyed(w.db)
    ensures WellKeyed(AdvanceWorker(w, n, outcome).db)
  {
    ActKeeps(w.db, w.workers[n], outcome);
  }

  function Next(w: World, s: Step): (r: World)
    requires WellKeyed(w.db)
    ensures WellKeyed(r.db)
  {
    match s
    case AddProject(scope, allowance) => Kept(w, QueueTables.AddProject(w.db, scope, allowance))
    case Revoke(scope) => w.(db := QueueTables.Revoke(w.db, scope))
    case Submit(scope, slot, d, drawn) =>
      SubmitWellKeyed(w.db, scope, slot, d, drawn);
      var r := QueueTables.Submit(w.db, scope, slot, d, drawn);
      if r.Ok? then w.(db := r.value.0) else w
    case Recover(scope, id) =>
      var r := QueueTables.Recover(w.db, scope, id);
      if r.Ok? then w.(db := r.value.0) else w
    case Start(n, scope, id) =>
      if n in w.workers then w else w.(workers := w.workers[n := Worker(scope, id, 0, [], [], Claiming)])
    case Advance(n, outcome) =>
      if n in w.workers then AdvanceWellKeyed(w, n, outcome); AdvanceWorker(w, n, outcome) else w
    case Stop(n) => if n in w.workers then w.(workers := w.workers[n := w.workers[n].(pc := Stopped)]) else w
  }

  /** The world after a whole run. */
  function Run(w: World, steps: seq<Step>): (r: World)
    requires WellKeyed(w.db)
    ensures WellKeyed(r.db)
    decreases |steps|
  {
    if steps == [] then w else Run(Next(w, steps[0]), steps[1..])
  }

  // ----- What every reachable world satisfies -----

  /** The fencing token and the held units follow from the state alone. */
  predicate RowSound(row: Row) {
    && row.definition.cases != []
    && row.version == Sha256(row.definition)
    && row.token == (match row.state case Queued => 0 case NotSent => 2 case OutcomeUnknown => 2 case _ => 1)
    && row.held == (if row.state.Queued? || row.state.NotSent? then 0 else |row.definition.cases|)
  }

  ghost predicate AllowancesKept(db: Db)
    requires WellKeyed(db)
  {
    forall scope | scope in db.projects :: HeldBy(db.order, db.rows, scope) <= db.projects[scope].allowance
  }

  /** No child before dispatch, each case at most once and in order, and a
      child for every case of an indexed execution. */
  predicate LaunchesSound(row: Row, launched: seq<Case>) {
    && launched <= row.definition.cases
    && ((row.state.Queued? || row.state.Reserved? || row.state.NotSent?) ==> launched == [])
    && ((row.state.Completed? || row.state.Partial?) ==> launched == row.definition.cases)
  }

  predicate ExportSound(id: Id, row: Row) {
    if (row.state.Completed? || row.state.Partial?) then
      && row.exportHash.Some?
      && var e := row.exportHash.value.body;
      && e.execution == id && e.version == row.version && e.state == row.state
      && |e.cells| == |row.definition.cases| && e.state == Verdict(e.cells)
    else row.exportHash == None
  }

  predicate HasClaimed(k: Worker) {
    k.token != 0
  }

  /** What a worker's position says of its execution's row and launches. */
  predicate WorkerSound(k: Worker, row: Row, launched: seq<Case>) {
    && k.token == 1 && k.scope == row.scope && row.state != Queued
    && !k.pc.Claiming?
    && ((k.pc.Fetching? || k.pc.Dispatching?) ==> (row.state.Reserved? || row.state.NotSent?) && k.cells == [])
    && ((k.pc.Dispatching? || k.pc.Checking? || k.pc.Launching? || k.pc.Collecting? || k.pc.Indexing?) ==> k.cases == row.definition.cases)
    && ((k.pc.Checking? || k.pc.Launching? || k.pc.Collecting? || k.pc.Indexing?) ==>
          (row.state.Dispatched? || row.state.OutcomeUnknown?) && |k.cells| <= |k.cases|)
    && ((k.pc.Checking? || k.pc.Launching?) ==> launched == k.cases[..|k.cells|])
    && (k.pc == Launching ==> |k.cells| < |k.cases|)
    && (k.pc == Collecting ==> |k.cells| < |k.cases| && launched == k.cases[..|k.cells| + 1])
    && (k.pc == Indexing ==> launched == k.cases && |k.cells| == |k.cases|)
  }

  predicate RowHolds(id: Id, row: Row, launched: seq<Case>) {
    RowSound(row) && LaunchesSound(row, launched) && ExportSound(id, row)
  }

  predicate RowOk(id: Id, row: Row, launched: map<Id, seq<Case>>) {
    RowHolds(id, row, Launched(launched, id))
  }

  ghost predicate RowsOk(rows: map<Id, Row>, launched: map<Id, seq<Case>>) {
    launched.Keys <= rows.Keys && forall id | id in rows :: RowOk(id, rows[id], launched)
  }

  predicate WorkerHolds(k: Worker, rows: map<Id, Row>, launched: seq<Case>) {
    if HasClaimed(k) then k.execution in rows && WorkerSound(k, rows[k.execution], launched)
    else (k.pc.Claiming? || k.pc.Stopped?) && k.cells == []
  }

  predicate WorkerOk(k: Worker, rows: map<Id, Row>, launched: map<Id, seq<Case>>) {
    WorkerHolds(k, rows, Launched(launched, k.execution))
  }

  /** No two workers have ever claimed the same execution. */
  ghost predicate ClaimsAlone(workers: map<nat, Worker>) {
    forall m, n | m in workers && n in workers && HasClaimed(workers[m]) && HasClaimed(workers[n])
                  && workers[m].execution == workers[n].execution :: m == n
  }

  ghost predicate WorkersOk(workers: map<nat, Worker>, rows: map<Id, Row>, launched: map<Id, seq<Case>>) {
    && (forall n | n in workers :: WorkerOk(workers[n], rows, launched))
    && ClaimsAlone(workers)
  }

  ghost predicate Inv(w: World) {
    && WellKeyed(w.db)
    && (forall id | id in w.db.rows :: w.db.rows[id].scope in w.db.projects)
    && AllowancesKept(w.db)
    && RowsOk(w.db.rows, w.launched)
    && WorkersOk(w.workers, w.db.rows, w.launched)
  }

  // ----- The invariant is kept by every step -----

  lemma InvKeyed(w: World)
    requires Inv(w)
    ensures WellKeyed(w.db)
  {
  }

  /** Replacing one row moves the project's sum by that row's difference. */
  lemma {:induction false} HeldAfterUpdate(order: seq<Id>, rows: map<Id, Row>, id: Id, row: Row, scope: Scope)
    requires forall i | i in order :: i in rows
    requires forall i, j | 0 <= i < j < |order| :: order[i] != order[j]
    requires id in rows && row.scope == rows[id].scope
    ensures HeldBy(order, rows[id := row], scope)
         == HeldBy(order, rows, scope)
          + if id in order && row.scope == scope then row.held - rows[id].held else 0
  {
    if order != [] {
      HeldAfterUpdate(order[1..], rows, id, row, scope);
      assert id == order[0] ==> id !in order[1..];
    }
  }

  lemma {:induction false} HeldAfterInsert(order: seq<Id>, rows: map<Id, Row>, id: Id, row: Row, scope: Scope)
    requires forall i | i in order :: i in rows
    requires id !in rows && row.held == 0
    ensures HeldBy(order + [id], rows[id := row], scope) == HeldBy(order, rows, scope)
  {
    if order == [] {
      assert order + [id] == [id];
    } else {
      HeldAfterInsert(order[1..], rows, id, row, scope);
      assert (order + [id])[1..] == order[1..] + [id];
    }
  }

  lemma AllowancesAfterUpdate(db: Db, id: Id, row: Row)
    requires WellKeyed(db) && AllowancesKept(db) && id in db.rows && row.scope in db.projects
    requires row.scope == db.rows[id].scope
    requires HeldBy(db.order, db.rows, row.scope) + row.held - db.rows[id].held <= db.projects[row.scope].allowance
    ensures WellKeyed(db.(rows := db.rows[id := row])) && AllowancesKept(db.(rows := db.rows[id := row]))
  {
    forall scope | scope in db.projects
      ensures HeldBy(db.order, db.rows[id := row], scope) <= db.projects[scope].allowance
    {
      HeldAfterUpdate(db.order, db.rows, id, row, scope);
    }
  }

  lemma InvAddProject(w: World, scope: Scope, allowance: int)
    requires Inv(w)
    ensures Inv(Kept(w, QueueTables.AddProject(w.db, scope, allowance)))
  {
    if allowance >= 0 && scope !in w.db.projects {
      NothingHeld(w.db.order, w.db.rows, scope);
    }
  }

  function Inserted(db: Db, id: Id, row: Row): Db {
    db.(order := db.order + [id], rows := db.rows[id := row])
  }

  lemma AllowancesAfterInsert(db: Db, id: Id, row: Row)
    requires WellKeyed(db) && AllowancesKept(db) && id !in db.rows && row.held == 0
    ensures WellKeyed(Inserted(db, id, row)) && AllowancesKept(Inserted(db, id, row))
  {
    forall scope | scope in db.projects
      ensures HeldBy(db.order + [id], db.rows[id := row], scope) <= db.projects[scope].allowance
    {
      HeldAfterInsert(db.order, db.rows, id, row, scope);
    }
  }

  lemma SubmitInserts(db: Db, scope: Scope, slot: string, d: Definition, drawn: Id)
    requires WellKeyed(db)
    ensures var r := QueueTables.Submit(db, scope, slot, d, drawn);
            r.Err? || r.value.0 == db
            || (var row := Row(scope, slot, d, Sha256(d), Queued, 0, 0, None);
                && r.value.0 == Inserted(db, drawn, row) && drawn !in db.rows && RowSound(row) && scope in db.projects)
  {
  }

  lemma InvInsert(w: World, id: Id, row: Row)
    requires Inv(w)
    requires id !in w.db.rows && RowSound(row) && row.state == Queued && row.exportHash == None
    requires row.scope in w.db.projects
    ensures Inv(w.(db := Inserted(w.db, id, row)))
  {
    AllowancesAfterInsert(w.db, id, row);
    var rows := w.db.rows[id := row];
    forall n | n in w.workers ensures WorkerOk(w.workers[n], rows, w.launched) {
      assert WorkerOk(w.workers[n], w.db.rows, w.launched);
    }
    forall i | i in rows ensures RowOk(i, rows[i], w.launched) {
      assert i != id ==> RowOk(i, w.db.rows[i], w.launched);
    }
  }

  lemma {:induction false} NothingHeld(order: seq<Id>, rows: map<Id, Row>, scope: Scope)
    requires forall id | id in order :: id in rows && rows[id].scope != scope
    ensures HeldBy(order, rows, scope) == 0
  {
    if order != [] {
      NothingHeld(order[1..], rows, scope);
    }
  }

  /** Only `id`'s row and launches may differ between `w` and `after`. */
  ghost predicate OnlyAt(w: World, after: World, id: Id, row: Row) {
    && id in w.db.rows
    && after.db == w.db.(rows := w.db.rows[id := row])
    && after.launched.Keys <= w.db.rows.Keys
    && (forall i | i != id :: Launched(after.launched, i) == Launched(w.launched, i))
  }

  lemma RowsAfterUpdate(w: World, after: World, id: Id, row: Row)
    requires RowsOk(w.db.rows, w.launched) && OnlyAt(w, after, id, row) && RowOk(id, row, after.launched)
    ensures RowsOk(after.db.rows, after.launched)
  {
    forall i | i in after.db.rows ensures RowOk(i, after.db.rows[i], after.launched) {
      assert RowOk(i, w.db.rows[i], w.launched);
    }
  }

  /** A step of the one worker that holds, or now claims, `id`. */
  lemma WorkersAfterHolderStep(w: World, after: World, n: nat, id: Id, row: Row)
    requires WorkersOk(w.workers, w.db.rows, w.launched) && OnlyAt(w, after, id, row)
    requires n in w.workers && n in after.workers && after.workers == w.workers[n := after.workers[n]]
    requires w.workers[n].execution == id == after.workers[n].execution
    requires HasClaimed(w.workers[n]) || w.db.rows[id].state.Queued?
    requires HasClaimed(after.workers[n]) && WorkerOk(after.workers[n], after.db.rows, after.launched)
    ensures WorkersOk(after.workers, after.db.rows, after.launched)
  {
    forall m | m in w.workers && m != n && HasClaimed(w.workers[m])
      ensures w.workers[m].execution != id
    {
      assert WorkerOk(w.workers[m], w.db.rows, w.launched);
    }
    forall m | m in after.workers ensures WorkerOk(after.workers[m], after.db.rows, after.launched) {
      if m != n {
        assert WorkerOk(w.workers[m], w.db.rows, w.launched);
      }
    }
  }

  /** A step of the operator on a row, kept sound for every position a worker can be in. */
  lemma WorkersAfterRecovery(w: World, after: World, id: Id, row: Row)
    requires WorkersOk(w.workers, w.db.rows, w.launched) && OnlyAt(w, after, id, row)
    requires after.workers == w.workers && after.launched == w.launched
    requires forall k: Worker | WorkerSound(k, w.db.rows[id], Launched(w.launched, id)) ::
               WorkerSound(k, row, Launched(w.launched, id))
    ensures WorkersOk(after.workers, after.db.rows, after.launched)
  {
    forall m | m in after.workers ensures WorkerOk(after.workers[m], after.db.rows, after.launched) {
      assert WorkerOk(w.workers[m], w.db.rows, w.launched);
    }
  }

  lemma RecoveredRowOk(id: Id, row: Row, launched: map<Id, seq<Case>>)
    requires RowOk(id, row, launched)
    ensures RowOk(id, RecoveredRow(row), launched) && RecoveredRow(row).held <= row.held
    ensures forall k: Worker | WorkerSound(k, row, Launched(launched, id)) ::
              WorkerSound(k, RecoveredRow(row), Launched(launched, id))
  {
  }

  lemma InvRecovered(w: World, id: Id)
    requires Inv(w) && id in w.db.rows
    ensures Inv(w.(db := w.db.(rows := w.db.rows[id := RecoveredRow(w.db.rows[id])])))
  {
    var row := RecoveredRow(w.db.rows[id]);
    var after := w.(db := w.db.(rows := w.db.rows[id := row]));
    assert RowOk(id, w.db.rows[id], w.launched);
    RecoveredRowOk(id, w.db.rows[id], w.launched);
    AllowancesAfterUpdate(w.db, id, row);
    RowsAfterUpdate(w, after, id, row);
    WorkersAfterRecovery(w, after, id, row);
  }

  lemma RecoverReplaces(w: World, scope: Scope, id: Id)
    requires WellKeyed(w.db)
    ensures Next(w, Recover(scope, id))
         == if Fetched(w.db, scope, id).Ok? then w.(db := w.db.(rows := w.db.rows[id := RecoveredRow(w.db.rows[id])])) else w
  {
  }

  lemma InvRecover(w: World, scope: Scope, id: Id)
    requires Inv(w)
    ensures Inv(Next(w, Recover(scope, id)))
  {
    RecoverReplaces(w, scope, id);
    if Fetched(w.db, scope, id).Ok? {
      InvRecovered(w, id);
    }
  }

  /** A worker stops or starts, or one that holds its execution moves on without touching the tables. */
  lemma InvWorkerOnly(w: World, n: nat, k: Worker)
    requires Inv(w) && WorkerOk(k, w.db.rows, w.launched)
    requires HasClaimed(k) ==> n in w.workers && HasClaimed(w.workers[n]) && w.workers[n].execution == k.execution
    ensures Inv(w.(workers := w.workers[n := k]))
  {
    var workers := w.workers[n := k];
    forall m | m in workers ensures WorkerOk(workers[m], w.db.rows, w.launched) {
      if m != n { assert WorkerOk(w.workers[m], w.db.rows, w.launched); }
    }
  }

  lemma InvStopped(w: World, n: nat)
    requires Inv(w) && n in w.workers
    ensures Inv(w.(workers := w.workers[n := w.workers[n].(pc := Stopped)]))
  {
    assert WorkerOk(w.workers[n], w.db.rows, w.launched);
    InvWorkerOnly(w, n, w.workers[n].(pc := Stopped));
  }

  // ----- One action, seen by its own row and worker -----

  predicate Terminal(state: State) {
    state.NotSent? || state.OutcomeUnknown? || state.Completed? || state.Partial?
  }

  /** How a row may differ from itself earlier. */
  predicate RowHistory(before: Row, after: Row) {
    && before.scope == after.scope && before.slot == after.slot
    && before.definition == after.definition && before.version == after.version
    && before.token <= after.token
    && (Terminal(before.state) ==> after == before)
    && (after.held < before.held ==> after.state == NotSent)
  }

  /** All that one action looks at: `launched` are the children of its execution. */
  ghost predicate Before(db: Db, k: Worker, launched: seq<Case>) {
    && WellKeyed(db) && WorkerHolds(k, db.rows, launched)
    && (k.execution in db.rows ==>
          var row := db.rows[k.execution];
          && RowHolds(k.execution, row, launched) && row.scope in db.projects
          && HeldBy(db.order, db.rows, row.scope) <= db.projects[row.scope].allowance)
  }

  /** One action of a worker on its execution's row: a child starts only from
      `Launching`, and that is reached only with the row's own token and the project enabled. */
  predicate Acted(row: Row, next: Row, k: Worker, k': Worker, started: seq<Case>, enabled: bool) {
    && RowHistory(row, next) && (!enabled ==> next == row)
    && (HasClaimed(k) || row.state.Queued?) && (HasClaimed(k) ==> k'.token == k.token)
    && |started| == (if HasClaimed(k) && k.pc == Launching then 1 else 0)
    && (k'.pc == Launching ==> row.token == k'.token && enabled)
  }

  /** The action was its own: a worker that has or takes the claim has replaced
      its row by one as sound, within the allowance, and any other changed nothing. */
  ghost predicate After(db: Db, k: Worker, launched: seq<Case>, acted: (Db, Worker, seq<Case>))
    requires WellKeyed(db)
  {
    var (after, k', started) := acted;
    && k'.execution == k.execution
    && if !HasClaimed(k') then !HasClaimed(k) && after == db && started == [] && WorkerHolds(k', db.rows, launched)
       else
         && k.execution in db.rows && k.execution in after.rows
         && var row, next := db.rows[k.execution], after.rows[k.execution];
         && after == db.(rows := db.rows[k.execution := next])
         && row.scope in db.projects && Acted(row, next, k, k', started, db.projects[row.scope].enabled)
         && HeldBy(db.order, db.rows, row.scope) + next.held - row.held <= db.projects[row.scope].allowance
         && RowHolds(k.execution, next, launched + started) && WorkerSound(k', next, launched + started)
  }

  /** A worker that moves without a transaction or a child. */
  lemma ActAlone(db: Db, k: Worker, launched: seq<Case>, k': Worker)
    requires Before(db, k, launched) && k'.execution == k.execution && WorkerHolds(k', db.rows, launched)
    requires k'.token == k.token && k.pc != Launching
    requires k'.pc == Launching ==> Fetched(db, k.scope, k.execution).Ok? && db.rows[k.execution].token == k.token
    ensures After(db, k, launched, (db, k', []))
  {
    assert launched + [] == launched;
    if HasClaimed(k) {
      assert db.rows == db.rows[k.execution := db.rows[k.execution]];
    }
  }

  lemma ActStops(db: Db, k: Worker, launched: seq<Case>)
    requires Before(db, k, launched) && k.pc != Launching
    ensures After(db, k, launched, (db, k.(pc := Stopped), []))
  {
    ActAlone(db, k, launched, k.(pc := Stopped));
  }

  lemma ActClaims(db: Db, k: Worker, launched: seq<Case>, outcome: Outcome)
    requires Before(db, k, launched) && k.pc == Claiming
    ensures After(db, k, launched, Act(db, k, outcome))
  {
    ActStops(db, k, launched);
    assert launched + [] == launched;
  }

  lemma ActFetches(db: Db, k: Worker, launched: seq<Case>, outcome: Outcome)
    requires Before(db, k, launched) && k.pc == Fetching
    ensures After(db, k, launched, Act(db, k, outcome))
  {
    ActStops(db, k, launched);
    ActAlone(db, k, launched, k.(cases := db.rows[k.execution].definition.cases, pc := Dispatching));
  }

  lemma ActMoves(db: Db, k: Worker, launched: seq<Case>, previous: State, next: State, hash: Option<Digest<Export>>, pc: Pc)
    requires Before(db, k, launched) && HasClaimed(k) && k.pc != Launching && pc != Launching
    requires previous.Reserved? || previous.Dispatched?
    requires var row := db.rows[k.execution];
             row.state == previous ==>
               var row' := row.(state := next, exportHash := hash);
               RowHolds(k.execution, row', launched) && WorkerSound(k.(pc := pc), row', launched)
    ensures After(db, k, launched, Moved(db, k, previous, next, hash, pc))
  {
    ActStops(db, k, launched);
    assert launched + [] == launched;
  }

  lemma ActDispatches(db: Db, k: Worker, launched: seq<Case>, outcome: Outcome)
    requires Before(db, k, launched) && k.pc == Dispatching
    ensures After(db, k, launched, Act(db, k, outcome))
  {
    ActMoves(db, k, launched, Reserved, Dispatched, None, Checking);
  }

  lemma ActChecks(db: Db, k: Worker, launched: seq<Case>, outcome: Outcome)
    requires Before(db, k, launched) && k.pc == Checking
    ensures After(db, k, launched, Act(db, k, outcome))
  {
    ActStops(db, k, launched);
    if |k.cells| >= |k.cases| {
      ActAlone(db, k, launched, k.(pc := Indexing));
    } else if Fetched(db, k.scope, k.execution).Ok? && db.rows[k.execution].token == k.token {
      ActAlone(db, k, launched, k.(pc := Launching));
    }
  }

  /** Starting the child of the next case. */
  lemma ActLaunches(db: Db, k: Worker, launched: seq<Case>, outcome: Outcome)
    requires Before(db, k, launched) && k.pc == Launching
    ensures After(db, k, launched, Act(db, k, outcome))
  {
    assert launched + [k.cases[|k.cells|]] == k.cases[..|k.cells| + 1];
    assert db.rows == db.rows[k.execution := db.rows[k.execution]];
  }

  lemma ActCollects(db: Db, k: Worker, launched: seq<Case>, outcome: Outcome)
    requires Before(db, k, launched) && k.pc == Collecting
    ensures After(db, k, launched, Act(db, k, outcome))
  {
    ActAlone(db, k, launched, k.(cells := k.cells + [outcome], pc := Checking));
  }

  lemma ActIndexes(db: Db, k: Worker, launched: seq<Case>, outcome: Outcome)
    requires Before(db, k, launched) && k.pc == Indexing
    ensures After(db, k, launched, Act(db, k, outcome))
  {
    var published := ExportOf(k, db.rows[k.execution].version);
    ActStops(db, k, launched);
    ActMoves(db, k, launched, Dispatched, published.state, Some(Sha256(published)), Done);
  }

  lemma ActRests(db: Db, k: Worker, launched: seq<Case>, outcome: Outcome)
    requires Before(db, k, launched) && (k.pc.Done? || k.pc.Stopped?)
    ensures After(db, k, launched, Act(db, k, outcome))
  {
    ActAlone(db, k, launched, k);
  }

  lemma ActSound(db: Db, k: Worker, launched: seq<Case>, outcome: Outcome)
    requires Before(db, k, launched)
    ensures After(db, k, launched, Act(db, k, outcome))
  {
    match k.pc
    case Claiming => ActClaims(db, k, launched, outcome);
    case Fetching => ActFetches(db, k, launched, outcome);
    case Dispatching => ActDispatches(db, k, launched, outcome);
    case Checking => ActChecks(db, k, launched, outcome);
    case Launching => ActLaunches(db, k, launched, outcome);
    case Collecting => ActCollects(db, k, launched, outcome);
    case Indexing => ActIndexes(db, k, launched, outcome);
    case _ => ActRests(db, k, launched, outcome);
  }

  lemma BeforeAction(w: World, n: nat)
    requires Inv(w) && n in w.workers
    ensures Before(w.db, w.workers[n], Launched(w.launched, w.workers[n].execution))
  {
    var k := w.workers[n];
    assert WorkerOk(k, w.db.rows, w.launched);
    if k.execution in w.db.rows {
      assert RowOk(k.execution, w.db.rows[k.execution], w.launched);
    }
  }

  lemma StartedChildren(launched: map<Id, seq<Case>>, id: Id, cases: seq<Case>)
    ensures var after := Started(launched, id, cases);
            && Launched(after, id) == Launched(launched, id) + cases && after.Keys <= launched.Keys + {id}
            && forall i | i != id :: Launched(after, i) == Launched(launched, i)
  {
  }

  /** An action that was its own leaves the whole world sound. */
  lemma InvActed(w: World, n: nat, acted: (Db, Worker, seq<Case>))
    requires Inv(w) && n in w.workers
    requires After(w.db, w.workers[n], Launched(w.launched, w.workers[n].execution), acted)
    ensures Inv(World(acted.0, w.workers[n := acted.1], Started(w.launched, acted.1.execution, acted.2)))
  {
    hide AllowancesKept, WorkersOk;
    var (db, k, started) := acted;
    var id := k.execution;
    var after := World(db, w.workers[n := k], Started(w.launched, id, started));
    StartedChildren(w.launched, id, started);
    if HasClaimed(k) {
      AllowancesAfterUpdate(w.db, id, db.rows[id]);
      RowsAfterUpdate(w, after, id, db.rows[id]);
      WorkersAfterHolderStep(w, after, n, id, db.rows[id]);
    } else {
      InvWorkerOnly(w, n, k);
    }
  }

  lemma InvAdvance(w: World, n: nat, outcome: Outcome)
    requires Inv(w) && n in w.workers
    ensures Inv(AdvanceWorker(w, n, outcome))
  {
    BeforeAction(w, n);
    ActSound(w.db, w.workers[n], Launched(w.launched, w.workers[n].execution), outcome);
    InvActed(w, n, Act(w.db, w.workers[n], outcome));
  }

  lemma InvSubmit(w: World, scope: Scope, slot: string, d: Definition, drawn: Id)
    requires Inv(w)
    ensures Inv(Next(w, Submit(scope, slot, d, drawn)))
  {
    SubmitInserts(w.db, scope, slot, d, drawn);
    var r := QueueTables.Submit(w.db, scope, slot, d, drawn);
    if r.Ok? && r.value.0 != w.db {
      InvInsert(w, drawn, Row(scope, slot, d, Sha256(d), Queued, 0, 0, None));
    }
  }

  lemma InvStart(w: World, n: nat, scope: Scope, id: Id)
    requires Inv(w)
    ensures Inv(Next(w, Start(n, scope, id)))
  {
    if n !in w.workers {
      InvWorkerOnly(w, n, Worker(scope, id, 0, [], [], Claiming));
    }
  }

  lemma InvRevoke(w: World, scope: Scope)
    requires Inv(w)
    ensures Inv(Next(w, Revoke(scope)))
  {
    assert WellKeyed(Next(w, Revoke(scope)).db);
  }

  lemma InvAdded(w: World, scope: Scope, allowance: int)
    requires Inv(w)
    ensures Inv(Next(w, AddProject(scope, allowance)))
  {
    InvAddProject(w, scope, allowance);
  }

  lemma NextAdvances(w: World, s: Step)
    requires WellKeyed(w.db) && s.Advance? && s.worker in w.workers
    ensures Next(w, s) == AdvanceWorker(w, s.worker, s.outcome)
  {
    hide Act;
  }

  lemma InvAdvanced(w: World, n: nat, outcome: Outcome)
    requires Inv(w)
    ensures Inv(Next(w, Advance(n, outcome)))
  {
    InvKeyed(w);
    hide Act, Inv;
    if n in w.workers {
      InvAdvance(w, n, outcome);
    }
  }

  lemma InvStop(w: World, n: nat)
    requires Inv(w)
    ensures Inv(Next(w, Stop(n)))
  {
    if n in w.workers {
      InvStopped(w, n);
    }
  }

  lemma InvNext(w: World, s: Step)
    requires Inv(w)
    ensures Inv(Next(w, s))
  {
    InvKeyed(w);
    hide Act, Inv;
    match s
    case AddProject(scope, allowance) => InvAdded(w, scope, allowance);
    case Revoke(scope) => InvRevoke(w, scope);
    case Submit(scope, slot, d, drawn) => InvSubmit(w, scope, slot, d, drawn);
    case Recover(scope, id) => InvRecover(w, scope, id);
    case Start(n, scope, id) => InvStart(w, n, scope, id);
    case Advance(n, outcome) => InvAdvanced(w, n, outcome);
    case Stop(n) => InvStop(w, n);
  }

  lemma {:induction false} InvRun(w: World, steps: seq<Step>)
    requires Inv(w)
    ensures Inv(Run(w, steps))
    decreases |steps|
  {
    InvKeyed(w);
    hide Next, Inv;
    if steps != [] {
      InvNext(w, steps[0]);
      InvRun(Next(w, steps[0]), steps[1..]);
    }
  }
}
