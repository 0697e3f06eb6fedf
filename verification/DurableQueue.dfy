/** The durable call queue: two tables, and the transactions that read and
    write them. Each function takes the tables before a transaction to its
    answer and the tables after it; an `Err` is a transaction rolled back. */
module QueueTables {
  import opened Wrappers

  type Id = string

  datatype Scope = Scope(org: string, project: string)

  datatype Case = Case(id: string, question: string)

  /** A submitted configuration. `controls` stands for the fields the queue
      stores and hashes but never reads. */
  datatype Definition = Definition(
    mode: string, moneyCeiling: Option<int>, providers: seq<string>, cases: seq<Case>, controls: string)

  /** SHA-256 of a canonical body, taken to be injective. */
  datatype Digest<T> = Sha256(body: T)

  datatype State = Queued | Reserved | Dispatched | NotSent | OutcomeUnknown | Completed | Partial

  datatype Outcome = Retrieved | Refused | Unavailable | OtherStatus

  datatype Export = Export(execution: Id, version: Digest<Definition>, state: State, cells: seq<Outcome>)

  datatype Row = Row(
    scope: Scope, slot: string, definition: Definition, version: Digest<Definition>,
    state: State, token: nat, held: nat, exportHash: Option<Digest<Export>>)

  datatype Project = Project(allowance: nat, enabled: bool)

  /** `order` lists the execution ids as they were inserted. */
  datatype Db = Db(projects: map<Scope, Project>, order: seq<Id>, rows: map<Id, Row>)

  datatype Error =
    | BadAllowance | ProjectExists | ProjectUnavailable | OutsideProject
    | Unsupported | BadCases | SlotSealed | IdTaken | NotQueued | Exhausted | Stale

  function Authorised(db: Db, scope: Scope): Result<Project, Error> {
    if scope in db.projects && db.projects[scope].enabled then Ok(db.projects[scope]) else Err(ProjectUnavailable)
  }

  function Fetched(db: Db, scope: Scope, id: Id): Result<Row, Error> {
    match Authorised(db, scope)
    case Err(e) => Err(e)
    case Ok(_) =>
      if id in db.rows && db.rows[id].scope == scope then Ok(db.rows[id]) else Err(OutsideProject)
  }

  /** `SELECT COALESCE(SUM(held),0)` over one project's executions. */
  function HeldBy(order: seq<Id>, rows: map<Id, Row>, scope: Scope): nat
    requires forall id | id in order :: id in rows
  {
    if order == [] then 0
    else
      HeldBy(order[1..], rows, scope) + if rows[order[0]].scope == scope then rows[order[0]].held else 0
  }

  /** The execution that sealed `slot`, if any. */
  function Sealed(order: seq<Id>, rows: map<Id, Row>, scope: Scope, slot: string): (r: Option<Id>)
    requires forall id | id in order :: id in rows
    ensures r.Some? ==> r.value in order && rows[r.value].scope == scope && rows[r.value].slot == slot
    ensures r.None? ==> forall id | id in order :: rows[id].scope != scope || rows[id].slot != slot
  {
    if order == [] then None
    else if rows[order[0]].scope == scope && rows[order[0]].slot == slot then Some(order[0])
    else Sealed(order[1..], rows, scope, slot)
  }

  predicate Supported(d: Definition) {
    d.mode == "retrieval-replay" && d.moneyCeiling == None && d.cases != [] && d.providers == ["exa"]
  }

  predicate CasesNamed(cases: seq<Case>) {
    && (forall i, j | 0 <= i < j < |cases| :: cases[i].id != cases[j].id)
    && (forall i | 0 <= i < |cases| :: cases[i].id != "")
  }

  ghost predicate WellKeyed(db: Db) {
    && (forall id | id in db.order :: id in db.rows)
    && (forall id | id in db.rows :: id in db.order)
    && (forall i, j | 0 <= i < j < |db.order| :: db.order[i] != db.order[j])
  }

  function AddProject(db: Db, scope: Scope, allowance: int): Result<Db, Error> {
    if allowance < 0 then Err(BadAllowance)
    else if scope in db.projects then Err(ProjectExists)
    else Ok(db.(projects := db.projects[scope := Project(allowance, true)]))
  }

  function Revoke(db: Db, scope: Scope): Db {
    if scope in db.projects then
      db.(projects := db.projects[scope := db.projects[scope].(enabled := false)])
    else db
  }

  /** `drawn` is the identifier drawn for a new execution. */
  function Submit(db: Db, scope: Scope, slot: string, d: Definition, drawn: Id): Result<(Db, Id), Error>
    requires WellKeyed(db)
  {
    if !Supported(d) then Err(Unsupported)
    else if !CasesNamed(d.cases) then Err(BadCases)
    else
      match Authorised(db, scope)
      case Err(e) => Err(e)
      case Ok(_) =>
        match Sealed(db.order, db.rows, scope, slot)
        case Some(prior) =>
          if db.rows[prior].version == Sha256(d) then Ok((db, prior)) else Err(SlotSealed)
        case None =>
          if drawn in db.rows then Err(IdTaken)
          else
            var row := Row(scope, slot, d, Sha256(d), Queued, 0, 0, None);
            Ok((db.(order := db.order + [drawn], rows := db.rows[drawn := row]), drawn))
  }

  function ClaimedRow(row: Row): Row {
    row.(state := Reserved, token := row.token + 1, held := |row.definition.cases|)
  }

  function Claim(db: Db, scope: Scope, id: Id): Result<(Db, nat), Error>
    requires WellKeyed(db)
  {
    match Fetched(db, scope, id)
    case Err(e) => Err(e)
    case Ok(row) =>
      var count := |row.definition.cases|;
      if row.state != Queued then Err(NotQueued)
      else if HeldBy(db.order, db.rows, scope) + count > db.projects[scope].allowance then Err(Exhausted)
      else Ok((db.(rows := db.rows[id := ClaimedRow(row)]), row.token + 1))
  }

  function Transition(db: Db, scope: Scope, id: Id, token: nat, previous: State, next: State,
                      exportHash: Option<Digest<Export>>): Result<Db, Error>
  {
    match Fetched(db, scope, id)
    case Err(e) => Err(e)
    case Ok(row) =>
      if row.token != token || row.state != previous then Err(Stale)
      else Ok(db.(rows := db.rows[id := row.(state := next, exportHash := exportHash)]))
  }

  function RecoveredRow(row: Row): Row {
    if row.state == Reserved then row.(state := NotSent, held := 0, token := row.token + 1)
    else if row.state == Dispatched then row.(state := OutcomeUnknown, token := row.token + 1)
    else row
  }

  function Recover(db: Db, scope: Scope, id: Id): Result<(Db, State), Error> {
    match Fetched(db, scope, id)
    case Err(e) => Err(e)
    case Ok(row) =>
      Ok((db.(rows := db.rows[id := RecoveredRow(row)]), RecoveredRow(row).state))
  }
}

/** The queue object: the same tables as fields its methods update in place.
    Every refusal leaves them as they were, as a rollback does. */
module DurableQueue {
  import opened Wrappers
  import opened QueueTables

  class Queue {
    var projects: map<Scope, Project>
    var order: seq<Id>
    var rows: map<Id, Row>

    ghost predicate Valid()
      reads this
    {
      WellKeyed(Tables())
    }

    function Tables(): Db
      reads this
    {
      Db(projects, order, rows)
    }

    constructor ()
      ensures Valid() && Tables() == Db(map[], [], map[])
    {
      projects, order, rows := map[], [], map[];
    }

    method AddProject(scope: Scope, allowance: int) returns (r: Result<(), Error>)
      requires Valid()
      modifies this`projects
      ensures Valid()
      ensures match QueueTables.AddProject(old(Tables()), scope, allowance)
              case Ok(db) => r == Ok(()) && Tables() == db
              case Err(e) => r == Err(e) && Tables() == old(Tables())
    {
      if allowance < 0 {
        return Err(BadAllowance);
      }
      if scope in projects {
        return Err(ProjectExists);
      }
      projects := projects[scope := Project(allowance, true)];
      return Ok(());
    }

    method Revoke(scope: Scope)
      requires Valid()
      modifies this`projects
      ensures Valid() && Tables() == QueueTables.Revoke(old(Tables()), scope)
    {
      if scope in projects {
        projects := projects[scope := projects[scope].(enabled := false)];
      }
    }

    method Get(scope: Scope, id: Id) returns (r: Result<Row, Error>)
      ensures r == Fetched(Tables(), scope, id)
    {
      if scope !in projects || !projects[scope].enabled {
        return Err(ProjectUnavailable);
      }
      if id !in rows || rows[id].scope != scope {
        return Err(OutsideProject);
      }
      return Ok(rows[id]);
    }

    method Submit(scope: Scope, slot: string, d: Definition, drawn: Id) returns (r: Result<Id, Error>)
      requires Valid()
      modifies this`order, this`rows
      ensures Valid()
      ensures match QueueTables.Submit(old(Tables()), scope, slot, d, drawn)
              case Ok((db, id)) => r == Ok(id) && Tables() == db
              case Err(e) => r == Err(e) && Tables() == old(Tables())
    {
      if !Supported(d) {
        return Err(Unsupported);
      }
      if !CasesNamed(d.cases) {
        return Err(BadCases);
      }
      var project := Authorised(Tables(), scope);
      if project.Err? {
        return Err(project.error);
      }
      var prior := Sealed(order, rows, scope, slot);
      if prior.Some? {
        if rows[prior.value].version == Sha256(d) {
          return Ok(prior.value);
        }
        return Err(SlotSealed);
      }
      if drawn in rows {
        return Err(IdTaken);
      }
      order := order + [drawn];
      rows := rows[drawn := Row(scope, slot, d, Sha256(d), Queued, 0, 0, None)];
      return Ok(drawn);
    }

    method Claim(scope: Scope, id: Id) returns (r: Result<nat, Error>)
      requires Valid()
      modifies this`rows
      ensures Valid()
      ensures match QueueTables.Claim(old(Tables()), scope, id)
              case Ok((db, token)) => r == Ok(token) && Tables() == db
              case Err(e) => r == Err(e) && Tables() == old(Tables())
    {
      var got := Get(scope, id);
      if got.Err? {
        return Err(got.error);
      }
      var row := got.value;
      if row.state != Queued {
        return Err(NotQueued);
      }
      var count, held := |row.definition.cases|, HeldBy(order, rows, scope);
      if held + count > projects[scope].allowance {
        return Err(Exhausted);
      }
      var token := row.token + 1;
      rows := rows[id := row.(state := Reserved, token := token, held := count)];
      return Ok(token);
    }

    method Transition(scope: Scope, id: Id, token: nat, previous: State, next: State,
                      exportHash: Option<Digest<Export>>) returns (r: Result<(), Error>)
      requires Valid()
      modifies this`rows
      ensures Valid()
      ensures match QueueTables.Transition(old(Tables()), scope, id, token, previous, next, exportHash)
              case Ok(db) => r == Ok(()) && Tables() == db
              case Err(e) => r == Err(e) && Tables() == old(Tables())
    {
      var got := Get(scope, id);
      if got.Err? {
        return Err(got.error);
      }
      if got.value.token != token || got.value.state != previous {
        return Err(Stale);
      }
      rows := rows[id := got.value.(state := next, exportHash := exportHash)];
      return Ok(());
    }

    method Recover(scope: Scope, id: Id) returns (r: Result<State, Error>)
      requires Valid()
      modifies this`rows
      ensures Valid()
      ensures match QueueTables.Recover(old(Tables()), scope, id)
              case Ok((db, state)) => r == Ok(state) && Tables() == db
              case Err(e) => r == Err(e) && Tables() == old(Tables())
    {
      var got := Get(scope, id);
      if got.Err? {
        return Err(got.error);
      }
      var row := got.value;
      if row.state == Reserved {
        // No child has been launched at this boundary, so the units go back.
        rows := rows[id := row.(state := NotSent, held := 0, token := row.token + 1)];
      } else if row.state == Dispatched {
        rows := rows[id := row.(state := OutcomeUnknown, token := row.token + 1)];
      }
      return Ok(rows[id].state);
    }
  }
}
