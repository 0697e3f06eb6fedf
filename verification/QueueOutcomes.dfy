/** What each operation on the queue comes to: what it asks of the rows it
    finds, what it leaves in them, and what that means in every later world. */
module QueueOutcomes {
  import opened Wrappers
  import opened QueueTables
  import opened QueueRuns
  import opened QueueGuarantees

  /** The project is there and enabled. */
  predicate Open(db: Db, scope: Scope) {
    scope in db.projects && db.projects[scope].enabled
  }

  /** The execution is there, and the project's own. */
  predicate Owns(db: Db, scope: Scope, id: Id) {
    id in db.rows && db.rows[id].scope == scope
  }

  /** A row is read through its own project while that is open, and never otherwise. */
  lemma FetchedExactly(db: Db, scope: Scope, id: Id)
    ensures Fetched(db, scope, id)
         == if !Open(db, scope) then Err(ProjectUnavailable)
            else if !Owns(db, scope, id) then Err(OutsideProject) else Ok(db.rows[id])
  {
  }

  // ----- Recovery -----

  /** What a recovery makes of a row: one reserved is not sent and gives back
      its units, one dispatched has an unknown outcome and keeps them, and
      either is fenced by a higher token; any other is left. */
  predicate RecoveredFrom(before: Row, after: Row) {
    && after.scope == before.scope && after.slot == before.slot && after.exportHash == before.exportHash
    && after.definition == before.definition && after.version == before.version
    && after.state == (match before.state case Reserved => NotSent case Dispatched => OutcomeUnknown case other => other)
    && after.held == (if before.state.Reserved? then 0 else before.held)
    && after.token == before.token + (if before.state.Reserved? || before.state.Dispatched? then 1 else 0)
  }

  /** A recovery that finds its row does that to it alone and answers the state
      it leaves; one that does not changes nothing. */
  lemma RecoveryExactly(w: World, scope: Scope, id: Id)
    requires WellKeyed(w.db)
    ensures var after := Next(w, Recover(scope, id));
            if Open(w.db, scope) && Owns(w.db, scope, id) then
              && id in after.db.rows && RecoveredFrom(w.db.rows[id], after.db.rows[id])
              && after == w.(db := w.db.(rows := w.db.rows[id := after.db.rows[id]]))
              && QueueTables.Recover(w.db, scope, id) == Ok((after.db, after.db.rows[id].state))
            else after == w && QueueTables.Recover(w.db, scope, id).Err?
  {
    FetchedExactly(w.db, scope, id);
  }

  /** An execution recovered from a reservation or a dispatch is fenced. */
  lemma RecoveryFences(w: World, scope: Scope, id: Id)
    requires Inv(w) && Open(w.db, scope) && Owns(w.db, scope, id)
    requires w.db.rows[id].state.Reserved? || w.db.rows[id].state.Dispatched?
    ensures var after := Next(w, Recover(scope, id));
            && Inv(after) && Fenced(after, id) && after.db.rows[id].token == 2
            && after.launched == w.launched && LaunchPending(after, id) == LaunchPending(w, id)
  {
    InvRecover(w, scope, id);
    InvRow(w, id);
    hide Inv, Next;
    RecoveryExactly(w, scope, id);
    PendingSame(w, Next(w, Recover(scope, id)), id);
  }

  lemma PendingSame(w: World, v: World, id: Id)
    requires v.workers == w.workers
    ensures LaunchPending(v, id) == LaunchPending(w, id)
  {
  }

  lemma NotSentLaunchesNothing(w: World, steps: seq<Step>, id: Id)
    requires Inv(w) && id in w.db.rows && w.db.rows[id].state.NotSent?
    ensures Launched(Run(w, steps).launched, id) == []
  {
    ExecutionRun(w, steps, id);
    InvRun(w, steps);
    InvRow(Run(w, steps), id);
  }

  /** After the recovery of a dispatched execution at most one more child
      starts, and none unless a worker stood past its check; after that of a
      reserved one none ever does. */
  lemma RecoveryBoundsChildren(w: World, scope: Scope, id: Id, steps: seq<Step>)
    requires Inv(w) && Open(w.db, scope) && Owns(w.db, scope, id)
    requires w.db.rows[id].state.Reserved? || w.db.rows[id].state.Dispatched?
    ensures var later := Run(Next(w, Recover(scope, id)), steps);
            && |Launched(later.launched, id)| <= |Launched(w.launched, id)| + (if LaunchPending(w, id) then 1 else 0)
            && (w.db.rows[id].state.Reserved? ==> Launched(later.launched, id) == [])
  {
    InvKeyed(w);
    hide Inv, Next, Fenced, LaunchPending, Launched;
    var after := Next(w, Recover(scope, id));
    RecoveryExactly(w, scope, id);
    RecoveryFences(w, scope, id);
    AtMostOneMoreChild(after, steps, id);
    if w.db.rows[id].state.Reserved? {
      NotSentLaunchesNothing(after, steps, id);
    }
  }

  /** And every worker that had claimed it leaves the tables as they are, whatever it does. */
  lemma RecoveryStopsWorkers(w: World, scope: Scope, id: Id, steps: seq<Step>, n: nat, outcome: Outcome)
    requires Inv(w) && Open(w.db, scope) && Owns(w.db, scope, id)
    requires w.db.rows[id].state.Reserved? || w.db.rows[id].state.Dispatched?
    requires n in w.workers && HasClaimed(w.workers[n]) && w.workers[n].execution == id
    ensures var later := Run(Next(w, Recover(scope, id)), steps);
            && WellKeyed(later.db) && n in later.workers && AdvanceWorker(later, n, outcome).db == later.db
  {
    var after := Next(w, Recover(scope, id));
    assert WorkerOk(w.workers[n], w.db.rows, w.launched);
    RecoveryExactly(w, scope, id);
    RecoveryFences(w, scope, id);
    hide Inv, Next, Fenced, LaunchPending, AdvanceWorker;
    StaleWorkerIsInert(after, steps, n, outcome);
  }

  // ----- Projects -----

  /** A revocation closes its project, and touches nothing else. */
  lemma RevocationExactly(w: World, scope: Scope)
    requires WellKeyed(w.db)
    ensures var after := Next(w, Revoke(scope));
            && after == w.(db := w.db.(projects := after.db.projects)) && after.db.projects.Keys == w.db.projects.Keys
            && !Open(after.db, scope)
            && forall other | other in w.db.projects ::
                 && after.db.projects[other].allowance == w.db.projects[other].allowance
                 && (other != scope ==> after.db.projects[other] == w.db.projects[other])
  {
  }

  /** No execution of a project changes once it is revoked. */
  lemma RevocationIsForEver(w: World, scope: Scope, id: Id, steps: seq<Step>)
    requires Inv(w) && Owns(w.db, scope, id)
    ensures var later := Run(Next(w, Revoke(scope)), steps);
            id in later.db.rows && later.db.rows[id] == w.db.rows[id]
  {
    var after := Next(w, Revoke(scope));
    InvRevoke(w, scope);
    RevocationExactly(w, scope);
    assert scope in w.db.projects by { assert w.db.rows[id].scope in w.db.projects; }
    hide Inv, Next;
    RevocationFreezes(after, steps, id);
  }

  /** A project is added with the allowance asked for, open, beside those there were. */
  lemma ProjectAdded(w: World, scope: Scope, allowance: int)
    requires WellKeyed(w.db)
    ensures var after := Next(w, AddProject(scope, allowance));
            if allowance >= 0 && scope !in w.db.projects then
              after == w.(db := w.db.(projects := w.db.projects[scope := Project(allowance, true)]))
            else after == w
  {
  }

  /** A project stays, its allowance is never changed, and once closed it is not opened again. */
  predicate ProjectHistory(before: Db, after: Db, scope: Scope) {
    && scope in before.projects && scope in after.projects
    && after.projects[scope].allowance == before.projects[scope].allowance
    && (after.projects[scope].enabled ==> before.projects[scope].enabled)
  }

  lemma ProjectNext(w: World, s: Step, scope: Scope)
    requires WellKeyed(w.db) && scope in w.db.projects
    ensures ProjectHistory(w.db, Next(w, s).db, scope)
  {
    if s.Advance? && s.worker in w.workers {
      NextAdvances(w, s);
      ActKeeps(w.db, w.workers[s.worker], s.outcome);
      hide Next, Act;
    } else {
      hide Act, AdvanceWorker;
    }
  }

  lemma {:induction false} ProjectRun(w: World, steps: seq<Step>, scope: Scope)
    requires WellKeyed(w.db) && scope in w.db.projects
    ensures ProjectHistory(w.db, Run(w, steps).db, scope)
    decreases |steps|
  {
    hide Next;
    if steps != [] {
      ProjectNext(w, steps[0], scope);
      ProjectRun(Next(w, steps[0]), steps[1..], scope);
    }
  }

  /** No project's children ever exceed the allowance it was added with. */
  lemma ChildrenWithinGiven(before: seq<Step>, scope: Scope, allowance: nat, after: seq<Step>)
    requires scope !in Reached(before).db.projects
    ensures var w := Reached(before + [AddProject(scope, allowance)] + after);
            && WellKeyed(w.db) && LaunchedBy(w.db.order, w.db.rows, w.launched, scope) <= allowance
  {
    hide Next;
    var w := Reached(before);
    var add := AddProject(scope, allowance);
    RunOn(EMPTY, before, [add]);
    RunNext(w, add, []);
    assert [add] == [add] + [];
    RunOn(EMPTY, before + [add], after);
    ProjectAdded(w, scope, allowance);
    ProjectRun(Next(w, add), after, scope);
    ChildrenWithinAllowance(before + [add] + after, scope);
  }

  // ----- Submission -----

  /** A definition the queue can run, field by field. */
  predicate Runnable(d: Definition) {
    && d.mode == "retrieval-replay" && d.moneyCeiling == None && d.providers == ["exa"] && |d.cases| > 0
    && (forall i | 0 <= i < |d.cases| :: |d.cases[i].id| > 0)
    && (forall i, j | 0 <= i < j < |d.cases| :: d.cases[i].id != d.cases[j].id)
  }

  predicate Unsealed(db: Db, scope: Scope, slot: string) {
    forall id | id in db.rows :: db.rows[id].scope != scope || db.rows[id].slot != slot
  }

  /** A new submission is one queued row that holds nothing; only what can be run is taken. */
  lemma SubmissionExactly(w: World, scope: Scope, slot: string, d: Definition, drawn: Id)
    requires WellKeyed(w.db) && drawn !in w.db.rows && Unsealed(w.db, scope, slot)
    ensures var after := Next(w, Submit(scope, slot, d, drawn));
            if Runnable(d) && Open(w.db, scope) then
              && QueueTables.Submit(w.db, scope, slot, d, drawn) == Ok((after.db, drawn))
              && after == w.(db := w.db.(order := w.db.order + [drawn],
                                         rows := w.db.rows[drawn := Row(scope, slot, d, Sha256(d), Queued, 0, 0, None)]))
            else after == w && QueueTables.Submit(w.db, scope, slot, d, drawn).Err?
  {
    assert Sealed(w.db.order, w.db.rows, scope, slot) == None;
    assert Runnable(d) <==> Supported(d) && CasesNamed(d.cases) by { RunnableIs(d); }
  }

  lemma RunnableIs(d: Definition)
    ensures Runnable(d) <==> Supported(d) && CasesNamed(d.cases)
  {
  }

  predicate Indexed(row: Row) {
    row.state.Completed? || row.state.Partial?
  }

  /** A submission may add a queued row, and changes none there. */
  lemma SubmitLeaves(w: World, s: Step, id: Id)
    requires WellKeyed(w.db) && s.Submit?
    ensures var after := Next(w, s);
            && after == w.(db := after.db) && after.db.projects == w.db.projects
            && (id in w.db.rows ==> id in after.db.rows && after.db.rows[id] == w.db.rows[id])
            && (id in after.db.rows && id !in w.db.rows ==> after.db.rows[id].state.Queued?)
  {
    hide Act, AdvanceWorker, QueueTables.Recover;
    SubmitInserts(w.db, s.scope, s.slot, s.definition, s.drawn);
    hide QueueTables.Submit;
  }

  /** An operator's other commands, a start and a stop: only a recovery of the row itself changes it. */
  lemma OperatorLeaves(w: World, s: Step, id: Id)
    requires WellKeyed(w.db) && !s.Submit? && (s.Advance? ==> s.worker !in w.workers)
    ensures var after := Next(w, s);
            && after.launched == w.launched && after.db.rows.Keys == w.db.rows.Keys
            && (id in w.db.rows && !(s.Recover? && s.id == id && s.scope == w.db.rows[id].scope) ==>
                  after.db.rows[id] == w.db.rows[id])
            && (id in w.db.rows && Indexed(after.db.rows[id]) ==> Indexed(w.db.rows[id]))
  {
    hide Act, AdvanceWorker, QueueTables.Submit;
    match s
    case Recover(scope, recovered) => RecoverReplaces(w, scope, recovered);
    case _ =>
  }

  lemma SubmitAdds(w: World, s: Step, id: Id)
    requires WellKeyed(w.db) && s.Submit? && id in Next(w, s).db.rows && id !in w.db.rows
    ensures Runnable(Next(w, s).db.rows[id].definition)
  {
    hide Act, AdvanceWorker;
    SubmitInserts(w.db, s.scope, s.slot, s.definition, s.drawn);
    RunnableIs(s.definition);
    hide Runnable;
  }

  /** Every execution is there by a submission of its definition. */
  lemma RowsNext(w: World, s: Step, id: Id)
    requires WellKeyed(w.db) && id in Next(w, s).db.rows && id !in w.db.rows
    ensures s.Submit? && Runnable(Next(w, s).db.rows[id].definition)
  {
    hide Next, Act, AdvanceWorker, Runnable;
    if s.Advance? && s.worker in w.workers {
      NextAdvances(w, s);
      AdvanceKeepsRows(w, s.worker, s.outcome);
    } else if s.Submit? {
      SubmitAdds(w, s, id);
    } else {
      OperatorLeaves(w, s, id);
    }
  }

  lemma AdvanceKeepsRows(w: World, n: nat, outcome: Outcome)
    requires WellKeyed(w.db) && n in w.workers
    ensures AdvanceWorker(w, n, outcome).db.rows.Keys == w.db.rows.Keys
  {
    hide Act;
    ActKeeps(w.db, w.workers[n], outcome);
  }

  /** Whatever the queue holds in any world reached can be run, and its cases have names of their own. */
  lemma {:induction false} OnlyRunnable(w: World, steps: seq<Step>)
    requires Inv(w) && forall id | id in w.db.rows :: Runnable(w.db.rows[id].definition)
    ensures forall id | id in Run(w, steps).db.rows :: Runnable(Run(w, steps).db.rows[id].definition)
    decreases |steps|
  {
    if steps != [] {
      var next := Next(w, steps[0]);
      InvNext(w, steps[0]);
      forall id | id in next.db.rows ensures Runnable(next.db.rows[id].definition) {
        if id in w.db.rows {
          ExecutionNext(w, steps[0], id);
        } else {
          RowsNext(w, steps[0], id);
        }
      }
      OnlyRunnable(next, steps[1..]);
    }
  }

  // ----- A worker's transactions -----

  predicate Claimed(before: Row, after: Row) {
    && before.state.Queued? && after.state.Reserved?
    && after.token == before.token + 1 && after.held == |before.definition.cases|
    && after.scope == before.scope && after.slot == before.slot && after.exportHash == before.exportHash
    && after.definition == before.definition && after.version == before.version
  }

  /** A claim takes a queued execution of an open project just when its cases
      fit what the project's executions leave of its allowance, and stops its
      worker otherwise. */
  lemma ClaimExactly(w: World, n: nat, outcome: Outcome)
    requires Inv(w) && n in w.workers && w.workers[n].pc == Claiming
    ensures var k, after := w.workers[n], Next(w, Advance(n, outcome));
            && n in after.workers
            && if && Open(w.db, k.scope) && Owns(w.db, k.scope, k.execution) && w.db.rows[k.execution].state.Queued?
                  && HeldBy(w.db.order, w.db.rows, k.scope) + |w.db.rows[k.execution].definition.cases|
                     <= w.db.projects[k.scope].allowance
               then
                 && k.execution in after.db.rows && Claimed(w.db.rows[k.execution], after.db.rows[k.execution])
                 && after.db == w.db.(rows := w.db.rows[k.execution := after.db.rows[k.execution]])
                 && after.workers[n].pc == Fetching && after.workers[n].token == after.db.rows[k.execution].token
               else after.db == w.db && after.workers[n].pc == Stopped
  {
    FetchedExactly(w.db, w.workers[n].scope, w.workers[n].execution);
  }

  /** A transition moves a row, and sets its export, exactly under the token and
      from the state its worker holds it in; nothing else of it changes. */
  lemma TransitionExactly(db: Db, scope: Scope, id: Id, token: nat, previous: State, next: State,
                          hash: Option<Digest<Export>>)
    ensures var r := Transition(db, scope, id, token, previous, next, hash);
            if Open(db, scope) && Owns(db, scope, id) && db.rows[id].token == token && db.rows[id].state == previous then
              r == Ok(db.(rows := db.rows[id := db.rows[id].(state := next, exportHash := hash)]))
            else r.Err?
  {
    FetchedExactly(db, scope, id);
  }

  /** A worker that stops leaves everything as it is, and does nothing more. */
  lemma StoppedIsOver(w: World, n: nat, outcome: Outcome)
    requires WellKeyed(w.db) && n in w.workers
    ensures var stopped := Next(w, Stop(n));
            && stopped.db == w.db && stopped.launched == w.launched && n in stopped.workers
            && stopped.workers[n].pc == Stopped && stopped.workers.Keys == w.workers.Keys
            && Next(stopped, Advance(n, outcome)) == stopped
  {
    hide Claim, Fetched, Transition;
    var stopped := Next(w, Stop(n));
    NextAdvances(stopped, Advance(n, outcome));
    assert stopped.workers[n := stopped.workers[n]] == stopped.workers;
  }

  // ----- What a worker reports -----

  /** What the child of worker `n` reports in a step, if one does. */
  function Report(w: World, s: Step, n: nat): seq<Outcome> {
    if s.Advance? && s.worker == n && n in w.workers && w.workers[n].pc == Collecting then [s.outcome] else []
  }

  function Reports(w: World, steps: seq<Step>, n: nat): seq<Outcome>
    requires WellKeyed(w.db)
    decreases |steps|
  {
    if steps == [] then [] else Report(w, steps[0], n) + Reports(Next(w, steps[0]), steps[1..], n)
  }

  function Cells(w: World, n: nat): seq<Outcome> {
    if n in w.workers then w.workers[n].cells else []
  }

  lemma CellsActed(db: Db, k: Worker, outcome: Outcome)
    requires WellKeyed(db)
    ensures Act(db, k, outcome).1.cells == k.cells + if k.pc == Collecting then [outcome] else []
  {
    assert k.cells + [] == k.cells;
  }

  lemma CellsNext(w: World, s: Step, n: nat)
    requires WellKeyed(w.db)
    ensures Cells(Next(w, s), n) == Cells(w, n) + Report(w, s, n)
  {
    assert Cells(w, n) + [] == Cells(w, n);
    if s.Advance? && s.worker in w.workers {
      NextAdvances(w, s);
      OthersStay(w, s.worker, s.outcome);
      CellsActed(w.db, w.workers[s.worker], s.outcome);
      hide Next, Act;
    } else {
      hide Act, AdvanceWorker;
    }
  }

  /** The cells of a worker are what its children reported, in order. */
  lemma {:induction false} CellsReported(w: World, steps: seq<Step>, n: nat)
    requires WellKeyed(w.db)
    ensures Cells(Run(w, steps), n) == Cells(w, n) + Reports(w, steps, n)
    decreases |steps|
  {
    hide Next, Cells, Report;
    if steps == [] {
      assert Cells(w, n) + [] == Cells(w, n);
    } else {
      CellsNext(w, steps[0], n);
      CellsReported(Next(w, steps[0]), steps[1..], n);
      assert Cells(w, n) + (Report(w, steps[0], n) + Reports(Next(w, steps[0]), steps[1..], n))
          == Cells(w, n) + Report(w, steps[0], n) + Reports(Next(w, steps[0]), steps[1..], n);
    }
  }

  /** Worker `n` has published `cells` for `id`, and is over. */
  predicate Publishes(w: World, n: nat, id: Id, cells: seq<Outcome>) {
    && n in w.workers && w.workers[n].execution == id && (w.workers[n].pc.Done? || w.workers[n].pc.Stopped?)
    && w.workers[n].cells == cells && OtherStatus !in cells
  }

  ghost predicate Published(w: World, id: Id) {
    id in w.db.rows && Indexed(w.db.rows[id]) ==>
      && w.db.rows[id].exportHash.Some?
      && exists n :: Publishes(w, n, id, w.db.rows[id].exportHash.value.body.cells)
  }

  /** Only a worker that indexes makes its execution indexed, by what it holds. */
  lemma ActPublishes(db: Db, k: Worker, outcome: Outcome)
    requires WellKeyed(db) && k.execution in db.rows && !Indexed(db.rows[k.execution])
    ensures var (after, k', _) := Act(db, k, outcome);
            k.execution in after.rows && Indexed(after.rows[k.execution]) ==>
              && k'.pc.Done? && k'.cells == k.cells && OtherStatus !in k.cells
              && after.rows[k.execution].exportHash.Some? && after.rows[k.execution].exportHash.value.body.cells == k.cells
  {
  }

  lemma PublishesOn(w: World, s: Step, n: nat, id: Id, cells: seq<Outcome>)
    requires WellKeyed(w.db) && Publishes(w, n, id, cells)
    ensures Publishes(Next(w, s), n, id, cells)
  {
    if s.Advance? && s.worker in w.workers {
      NextAdvances(w, s);
      OthersStay(w, s.worker, s.outcome);
      if s.worker == n {
        assert Act(w.db, w.workers[n], s.outcome).1 == w.workers[n];
      }
      hide Next, Act;
    } else {
      hide Act, AdvanceWorker;
    }
  }

  lemma IndexedNext(w: World, s: Step, id: Id)
    requires Inv(w) && (s.Advance? ==> s.worker !in w.workers || w.workers[s.worker].execution != id)
    requires id in Next(w, s).db.rows && Indexed(Next(w, s).db.rows[id])
    ensures id in w.db.rows && Indexed(w.db.rows[id])
  {
    InvKeyed(w);
    hide Next, Act, Inv, AdvanceWorker;
    if s.Advance? && s.worker in w.workers {
      NextAdvances(w, s);
      RowsElsewhere(w, s.worker, s.outcome, id);
    } else if s.Submit? {
      SubmitLeaves(w, s, id);
    } else {
      OperatorLeaves(w, s, id);
    }
  }

  lemma RowsElsewhere(w: World, n: nat, outcome: Outcome, id: Id)
    requires WellKeyed(w.db) && n in w.workers && w.workers[n].execution != id
    ensures var after := AdvanceWorker(w, n, outcome).db;
            (id in after.rows <==> id in w.db.rows) && (id in w.db.rows ==> after.rows[id] == w.db.rows[id])
  {
    hide Act;
    ActKeeps(w.db, w.workers[n], outcome);
  }

  lemma PublishedHere(w: World, n: nat, outcome: Outcome)
    requires WellKeyed(w.db) && n in w.workers && w.workers[n].execution in w.db.rows
    requires !Indexed(w.db.rows[w.workers[n].execution])
    ensures Published(AdvanceWorker(w, n, outcome), w.workers[n].execution)
  {
    var id, after := w.workers[n].execution, AdvanceWorker(w, n, outcome);
    ActKeeps(w.db, w.workers[n], outcome);
    ActPublishes(w.db, w.workers[n], outcome);
    hide Act;
    if id in after.db.rows && Indexed(after.db.rows[id]) {
      assert Publishes(after, n, id, w.workers[n].cells);
    }
  }

  lemma PublishedStays(w: World, s: Step, id: Id)
    requires Inv(w) && Published(w, id) && id in w.db.rows && Indexed(w.db.rows[id])
    ensures Published(Next(w, s), id)
  {
    InvKeyed(w);
    var cells := w.db.rows[id].exportHash.value.body.cells;
    var n :| Publishes(w, n, id, cells);
    hide Next, Inv, Publishes;
    PublishesOn(w, s, n, id, cells);
    IndexedStays(w, s, id);
  }

  lemma IndexedStays(w: World, s: Step, id: Id)
    requires Inv(w) && id in w.db.rows && Indexed(w.db.rows[id])
    ensures WellKeyed(w.db) && id in Next(w, s).db.rows && Next(w, s).db.rows[id] == w.db.rows[id]
  {
    InvKeyed(w);
    hide Next, Inv, Frozen, Launched;
    ExecutionNext(w, s, id);
  }

  lemma PublishedNext(w: World, s: Step, id: Id)
    requires Inv(w) && Published(w, id)
    ensures Published(Next(w, s), id)
  {
    InvKeyed(w);
    hide Next, Inv, AdvanceWorker;
    if id in w.db.rows && Indexed(w.db.rows[id]) {
      PublishedStays(w, s, id);
    } else if s.Advance? && s.worker in w.workers && w.workers[s.worker].execution == id {
      NextAdvances(w, s);
      if id in w.db.rows {
        PublishedHere(w, s.worker, s.outcome);
      } else {
        NoRowActed(w, s.worker, s.outcome);
      }
    } else if id in Next(w, s).db.rows && Indexed(Next(w, s).db.rows[id]) {
      IndexedNext(w, s, id);
    }
  }

  lemma NoRowActed(w: World, n: nat, outcome: Outcome)
    requires WellKeyed(w.db) && n in w.workers && w.workers[n].execution !in w.db.rows
    ensures AdvanceWorker(w, n, outcome).db == w.db
  {
    ActKeeps(w.db, w.workers[n], outcome);
  }

  lemma {:induction false} PublishedRun(w: World, steps: seq<Step>, id: Id)
    requires Inv(w) && Published(w, id)
    ensures Published(Run(w, steps), id)
    decreases |steps|
  {
    InvKeyed(w);
    hide Next, Inv, Published;
    if steps != [] {
      InvNext(w, steps[0]);
      PublishedNext(w, steps[0], id);
      PublishedRun(Next(w, steps[0]), steps[1..], id);
    }
  }

  /** The cells of an indexed execution are what the children of one worker of
      it reported, in order, and none of another status. */
  lemma ExportIsReported(steps: seq<Step>, id: Id) returns (n: nat)
    requires id in Reached(steps).db.rows && Indexed(Reached(steps).db.rows[id])
    ensures var w := Reached(steps);
            && n in w.workers && w.workers[n].execution == id
            && w.db.rows[id].exportHash.Some?
            && w.db.rows[id].exportHash.value.body.cells == Reports(EMPTY, steps, n)
            && OtherStatus !in Reports(EMPTY, steps, n)
  {
    var w := Reached(steps);
    PublishedRun(EMPTY, steps, id);
    n :| Publishes(w, n, id, w.db.rows[id].exportHash.value.body.cells);
    CellsReported(EMPTY, steps, n);
    assert Cells(EMPTY, n) + Reports(EMPTY, steps, n) == Reports(EMPTY, steps, n);
  }

  // ----- Projects apart -----

  /** Whose project a step acts in. */
  function Acting(w: World, s: Step): Option<Scope> {
    match s
    case AddProject(scope, _) => Some(scope)
    case Revoke(scope) => Some(scope)
    case Submit(scope, _, _, _) => Some(scope)
    case Recover(scope, _) => Some(scope)
    case Start(_, scope, _) => Some(scope)
    case Advance(n, _) => if n in w.workers then Some(w.workers[n].scope) else None
    case Stop(n) => if n in w.workers then Some(w.workers[n].scope) else None
  }

  /** What is done in one project changes no row of another, launches none of
      its children and leaves its allowance and whether it is open. */
  lemma OtherProjectsUntouched(w: World, s: Step, id: Id)
    requires Inv(w) && id in w.db.rows && Acting(w, s) != Some(w.db.rows[id].scope)
    ensures var after := Next(w, s);
            && id in after.db.rows && after.db.rows[id] == w.db.rows[id]
            && Launched(after.launched, id) == Launched(w.launched, id)
            && w.db.rows[id].scope in w.db.projects && w.db.rows[id].scope in after.db.projects
            && after.db.projects[w.db.rows[id].scope] == w.db.projects[w.db.rows[id].scope]
  {
    InvKeyed(w);
    assert w.db.rows[id].scope in w.db.projects;
    ProjectsApart(w, s, w.db.rows[id].scope);
    hide Next, Act, Inv, AdvanceWorker;
    if s.Advance? && s.worker in w.workers {
      NextAdvances(w, s);
      if w.workers[s.worker].execution == id {
        ApartActs(w, s.worker, s.outcome, id);
      } else {
        AdvanceElsewhere(w, s.worker, s.outcome, id);
      }
    } else if s.Submit? {
      SubmitLeaves(w, s, id);
    } else {
      OperatorLeaves(w, s, id);
    }
  }

  lemma ProjectsApart(w: World, s: Step, scope: Scope)
    requires WellKeyed(w.db) && scope in w.db.projects && Acting(w, s) != Some(scope)
    ensures scope in Next(w, s).db.projects && Next(w, s).db.projects[scope] == w.db.projects[scope]
  {
    if s.Advance? && s.worker in w.workers {
      NextAdvances(w, s);
      ActKeeps(w.db, w.workers[s.worker], s.outcome);
      hide Next, Act;
    } else {
      hide Act, AdvanceWorker;
    }
  }

  /** A worker of another project has claimed nothing here, and can do nothing but stop. */
  lemma ApartAct(db: Db, k: Worker, launched: seq<Case>, outcome: Outcome)
    requires WellKeyed(db) && WorkerHolds(k, db.rows, launched)
    requires k.execution in db.rows && db.rows[k.execution].scope != k.scope
    ensures Act(db, k, outcome) == (db, k.(pc := Stopped), [])
  {
    assert k.pc.Claiming? || k.pc.Stopped?;
  }

  lemma ApartActs(w: World, n: nat, outcome: Outcome, id: Id)
    requires Inv(w) && n in w.workers && w.workers[n].execution == id && id in w.db.rows
    requires w.workers[n].scope != w.db.rows[id].scope
    ensures var after := AdvanceWorker(w, n, outcome);
            after.db == w.db && Launched(after.launched, id) == Launched(w.launched, id)
  {
    BeforeAction(w, n);
    ApartAct(w.db, w.workers[n], Launched(w.launched, id), outcome);
    hide Act, Inv;
  }

  // ----- A worker alone -----

  /** One execution under way: `i` children started, `cells` reported. */
  function Going(scope: Scope, slot: string, d: Definition, id: Id, allowance: nat, n: nat, i: nat, cells: seq<Outcome>, pc: Pc): World
    requires i <= |d.cases|
  {
    var row := Row(scope, slot, d, Sha256(d), Dispatched, 1, |d.cases|, None);
    World(Db(map[scope := Project(allowance, true)], [id], map[id := row]),
          map[n := Worker(scope, id, 1, d.cases, cells, pc)], if i == 0 then map[] else map[id := d.cases[..i]])
  }

  lemma GoingLaunches(scope: Scope, slot: string, d: Definition, id: Id, allowance: nat, n: nat, cells: seq<Outcome>, outcome: Outcome)
    requires |cells| < |d.cases|
    ensures WellKeyed(Going(scope, slot, d, id, allowance, n, |cells|, cells, Launching).db)
    ensures Next(Going(scope, slot, d, id, allowance, n, |cells|, cells, Launching), Advance(n, outcome))
         == Going(scope, slot, d, id, allowance, n, |cells| + 1, cells, Collecting)
  {
    var i := |cells|;
    assert d.cases[..i] + [d.cases[i]] == d.cases[..i + 1];
    assert [] + [d.cases[i]] == [d.cases[i]];
  }

  lemma GoingCollects(scope: Scope, slot: string, d: Definition, id: Id, allowance: nat, n: nat, cells: seq<Outcome>, outcome: Outcome)
    requires |cells| < |d.cases|
    ensures WellKeyed(Going(scope, slot, d, id, allowance, n, |cells| + 1, cells, Collecting).db)
    ensures Next(Going(scope, slot, d, id, allowance, n, |cells| + 1, cells, Collecting), Advance(n, outcome))
         == Going(scope, slot, d, id, allowance, n, |cells| + 1, cells + [outcome], Checking)
  {
  }

  lemma GoingChecks(scope: Scope, slot: string, d: Definition, id: Id, allowance: nat, n: nat, cells: seq<Outcome>, outcome: Outcome)
    requires |cells| <= |d.cases|
    ensures WellKeyed(Going(scope, slot, d, id, allowance, n, |cells|, cells, Checking).db)
    ensures Next(Going(scope, slot, d, id, allowance, n, |cells|, cells, Checking), Advance(n, outcome))
         == Going(scope, slot, d, id, allowance, n, |cells|, cells, if |cells| < |d.cases| then Launching else Indexing)
  {
  }

  /** From `i` cells on, the rest are launched and collected one by one. */
  lemma {:induction false} GoesOn(
    scope: Scope, slot: string, d: Definition, id: Id, allowance: nat, n: nat, outcomes: seq<Outcome>, i: nat)
    returns (steps: seq<Step>)
    requires i < |outcomes| == |d.cases|
    ensures WellKeyed(Going(scope, slot, d, id, allowance, n, i, outcomes[..i], Launching).db)
    ensures Run(Going(scope, slot, d, id, allowance, n, i, outcomes[..i], Launching), steps)
         == Going(scope, slot, d, id, allowance, n, |outcomes|, outcomes, Indexing)
    decreases |outcomes| - i
  {
    hide Next, Going, WellKeyed;
    var go, told := Advance(n, Retrieved), Advance(n, outcomes[i]);
    var cells := outcomes[..i];
    GoingLaunches(scope, slot, d, id, allowance, n, cells, Retrieved);
    GoingCollects(scope, slot, d, id, allowance, n, cells, outcomes[i]);
    assert cells + [outcomes[i]] == outcomes[..i + 1];
    GoingChecks(scope, slot, d, id, allowance, n, outcomes[..i + 1], Retrieved);
    var w := Going(scope, slot, d, id, allowance, n, i, cells, Launching);
    var checked := Next(Next(Next(w, go), told), go);
    RunTwo(w, go, told);
    RunNext(Next(Next(w, go), told), go, []);
    assert [go] == [go] + [];
    RunOn(w, [go, told], [go]);
    if i + 1 < |outcomes| {
      var rest := GoesOn(scope, slot, d, id, allowance, n, outcomes, i + 1);
      RunOn(w, [go, told] + [go], rest);
      steps := [go, told] + [go] + rest;
    } else {
      assert outcomes[..i + 1] == outcomes;
      steps := [go, told] + [go];
    }
  }

  lemma GoingIndexes(scope: Scope, slot: string, d: Definition, id: Id, allowance: nat, n: nat, cells: seq<Outcome>, outcome: Outcome)
    requires |cells| == |d.cases| && OtherStatus !in cells
    ensures WellKeyed(Going(scope, slot, d, id, allowance, n, |cells|, cells, Indexing).db)
    ensures var after := Next(Going(scope, slot, d, id, allowance, n, |cells|, cells, Indexing), Advance(n, outcome));
            && id in after.db.rows
            && after.db.rows[id].state == (if forall j | 0 <= j < |cells| :: cells[j] == Retrieved then Completed else Partial)
            && after.db.rows[id].exportHash.Some? && after.db.rows[id].exportHash.value.body.cells == cells
  {
  }

  /** From the empty store, any execution that can be claimed can be run to its
      end: whatever its children report, none of another status, is indexed. */
  lemma IndexedReached(
    scope: Scope, slot: string, d: Definition, id: Id, allowance: nat, n: nat, outcomes: seq<Outcome>) returns (steps: seq<Step>)
    requires Runnable(d) && |d.cases| <= allowance && |outcomes| == |d.cases| && OtherStatus !in outcomes
    ensures var rows := Reached(steps).db.rows;
            && id in rows
            && rows[id].state == (if forall j | 0 <= j < |outcomes| :: outcomes[j] == Retrieved then Completed else Partial)
            && rows[id].exportHash.Some? && rows[id].exportHash.value.body.cells == outcomes
  {
    RunnableIs(d);
    var first := PastCheckReached(scope, slot, d, id, allowance, n, Retrieved);
    assert outcomes[..0] == [];
    assert One(scope, slot, d, id, allowance, Dispatched, n, 1, d.cases, Launching)
        == Going(scope, slot, d, id, allowance, n, 0, [], Launching);
    hide Next, Going, One, Runnable, WellKeyed;
    var rest := GoesOn(scope, slot, d, id, allowance, n, outcomes, 0);
    GoingIndexes(scope, slot, d, id, allowance, n, outcomes, Retrieved);
    var w, go := Run(EMPTY, first), Advance(n, Retrieved);
    assert WellKeyed(EMPTY.db) by { EmptyKeyed(); }
    RunOn(EMPTY, first, rest);
    RunOn(EMPTY, first + rest, [go]);
    RunNext(Run(w, rest), go, []);
    assert [go] == [go] + [];
    steps := first + rest + [go];
  }

  lemma EmptyKeyed()
    ensures WellKeyed(EMPTY.db)
  {
  }
}
