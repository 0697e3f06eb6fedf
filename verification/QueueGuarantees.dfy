/** What the queue promises of every run: from the empty store, through any
    interleaving of workers, operator commands and stops. */
module QueueGuarantees {
  import opened Wrappers
  import opened QueueTables
  import opened QueueRuns

  function Reached(steps: seq<Step>): World {
    Run(EMPTY, steps)
  }

  lemma ReachedInv(steps: seq<Step>)
    ensures Inv(Reached(steps))
  {
    InvRun(EMPTY, steps);
  }

  // ----- Allowances -----

  /** How many children were ever launched for a project's executions. */
  function LaunchedBy(order: seq<Id>, rows: map<Id, Row>, launched: map<Id, seq<Case>>, scope: Scope): nat
    requires forall id | id in order :: id in rows
  {
    if order == [] then 0
    else
      LaunchedBy(order[1..], rows, launched, scope)
      + if rows[order[0]].scope == scope then |Launched(launched, order[0])| else 0
  }

  lemma {:induction false} LaunchedWithinHeld(order: seq<Id>, rows: map<Id, Row>, launched: map<Id, seq<Case>>, scope: Scope)
    requires forall id | id in order :: id in rows
    requires RowsOk(rows, launched)
    ensures LaunchedBy(order, rows, launched, scope) <= HeldBy(order, rows, scope)
  {
    if order != [] {
      assert RowOk(order[0], rows[order[0]], launched);
      LaunchedWithinHeld(order[1..], rows, launched, scope);
    }
  }

  lemma ChildrenWithinAllowance(steps: seq<Step>, scope: Scope)
    ensures var w := Reached(steps);
            && WellKeyed(w.db)
            && (scope in w.db.projects ==>
                  LaunchedBy(w.db.order, w.db.rows, w.launched, scope) <= HeldBy(w.db.order, w.db.rows, scope)
                                                                       <= w.db.projects[scope].allowance)
  {
    ReachedInv(steps);
    var w := Reached(steps);
    LaunchedWithinHeld(w.db.order, w.db.rows, w.launched, scope);
  }

  // ----- Histories -----

  predicate Frozen(w: World, id: Id) {
    id in w.db.rows && w.db.rows[id].scope in w.db.projects && !w.db.projects[w.db.rows[id].scope].enabled
  }

  /** What one step, and so any run, does to one execution. */
  predicate ExecutionHistory(before: World, after: World, id: Id) {
    && id in before.db.rows && id in after.db.rows
    && RowHistory(before.db.rows[id], after.db.rows[id])
    && Launched(before.launched, id) <= Launched(after.launched, id)
    && (Frozen(before, id) ==> Frozen(after, id) && after.db.rows[id] == before.db.rows[id])
  }

  lemma AdvanceElsewhere(w: World, n: nat, outcome: Outcome, id: Id)
    requires WellKeyed(w.db) && n in w.workers && id in w.db.rows && w.workers[n].execution != id
    ensures var after := AdvanceWorker(w, n, outcome);
            && id in after.db.rows && after.db.rows[id] == w.db.rows[id]
            && after.db.projects == w.db.projects && Launched(after.launched, id) == Launched(w.launched, id)
  {
    ActKeeps(w.db, w.workers[n], outcome);
  }

  /** What an action of worker `n` does, by its own row. */
  lemma ActionHere(w: World, n: nat, outcome: Outcome)
    requires Inv(w) && n in w.workers
    ensures var k := w.workers[n];
            After(w.db, k, Launched(w.launched, k.execution), Act(w.db, k, outcome))
    ensures var k := w.workers[n];
            Launched(AdvanceWorker(w, n, outcome).launched, k.execution)
            == Launched(w.launched, k.execution) + Act(w.db, k, outcome).2
  {
    var k := w.workers[n];
    BeforeAction(w, n);
    ActSound(w.db, k, Launched(w.launched, k.execution), outcome);
    StartedChildren(w.launched, k.execution, Act(w.db, k, outcome).2);
  }

  lemma ExecutionAdvance(w: World, n: nat, outcome: Outcome, id: Id)
    requires Inv(w) && n in w.workers && id in w.db.rows
    ensures ExecutionHistory(w, AdvanceWorker(w, n, outcome), id)
  {
    ActKeeps(w.db, w.workers[n], outcome);
    if w.workers[n].execution == id {
      ActionHere(w, n, outcome);
    } else {
      AdvanceElsewhere(w, n, outcome, id);
    }
  }

  lemma ExecutionOperated(w: World, s: Step, id: Id)
    requires WellKeyed(w.db) && id in w.db.rows && RowSound(w.db.rows[id]) && (s.Advance? ==> s.worker !in w.workers)
    ensures ExecutionHistory(w, Next(w, s), id)
  {
    match s
    case Submit(scope, slot, definition, drawn) => ExecutionSubmitted(w, s, id);
    case Recover(scope, recovered) => ExecutionRecovered(w, s, id);
    case _ =>
  }

  lemma ExecutionRecovered(w: World, s: Step, id: Id)
    requires WellKeyed(w.db) && id in w.db.rows && RowSound(w.db.rows[id]) && s.Recover?
    ensures ExecutionHistory(w, Next(w, s), id)
  {
  }

  lemma ExecutionSubmitted(w: World, s: Step, id: Id)
    requires WellKeyed(w.db) && id in w.db.rows && RowSound(w.db.rows[id]) && s.Submit?
    ensures ExecutionHistory(w, Next(w, s), id)
  {
    SubmitInserts(w.db, s.scope, s.slot, s.definition, s.drawn);
  }

  lemma InvRow(w: World, id: Id)
    requires Inv(w) && id in w.db.rows
    ensures WellKeyed(w.db) && RowOk(id, w.db.rows[id], w.launched)
  {
  }

  lemma ExecutionNext(w: World, s: Step, id: Id)
    requires Inv(w) && id in w.db.rows
    ensures ExecutionHistory(w, Next(w, s), id)
  {
    InvRow(w, id);
    hide Next, AdvanceWorker, Inv;
    if !s.Advance? {
      ExecutionOperated(w, s, id);
    } else if s.worker in w.workers {
      NextAdvances(w, s);
      ExecutionAdvance(w, s.worker, s.outcome, id);
    } else {
      ExecutionOperated(w, s, id);
    }
  }

  lemma HistoryComposes(w: World, mid: World, last: World, id: Id)
    requires ExecutionHistory(w, mid, id) && ExecutionHistory(mid, last, id)
    ensures ExecutionHistory(w, last, id)
  {
  }

  lemma HistoryBegins(w: World, id: Id)
    requires id in w.db.rows
    ensures ExecutionHistory(w, w, id)
  {
  }

  lemma {:induction false} ExecutionRun(w: World, steps: seq<Step>, id: Id)
    requires Inv(w) && id in w.db.rows
    ensures ExecutionHistory(w, Run(w, steps), id)
    decreases |steps|
  {
    if steps == [] {
      HistoryBegins(w, id);
    } else {
      var next := Next(w, steps[0]);
      InvNext(w, steps[0]);
      ExecutionNext(w, steps[0], id);
      ExecutionRun(next, steps[1..], id);
      HistoryComposes(w, next, Run(next, steps[1..]), id);
    }
  }

  /** Units are given back only by an execution that has launched no child and never will. */
  lemma ReleasedUnitsStayUnspent(w: World, during: seq<Step>, after: seq<Step>, id: Id)
    requires Inv(w) && id in w.db.rows
    ensures var mid := Run(w, during);
            var last := Run(mid, after);
            && id in mid.db.rows && id in last.db.rows
            && (mid.db.rows[id].held < w.db.rows[id].held ==>
                  last.db.rows[id].state == NotSent && Launched(last.launched, id) == [])
  {
    ExecutionRun(w, during, id);
    InvRun(w, during);
    var mid := Run(w, during);
    ExecutionRun(mid, after, id);
    InvRun(mid, after);
    assert RowOk(id, Run(mid, after).db.rows[id], Run(mid, after).launched);
  }

  /** A project once revoked: none of its rows ever changes again. */
  lemma RevocationFreezes(w: World, steps: seq<Step>, id: Id)
    requires Inv(w) && Frozen(w, id)
    ensures Frozen(Run(w, steps), id) && Run(w, steps).db.rows[id] == w.db.rows[id]
  {
    ExecutionRun(w, steps, id);
  }

  // ----- One claim -----

  predicate ClaimsNow(w: World, s: Step, id: Id)
    requires WellKeyed(w.db)
  {
    && s.Advance? && s.worker in w.workers
    && var k := w.workers[s.worker];
       k.pc == Claiming && k.execution == id && Claim(w.db, k.scope, id).Ok?
  }

  /** How many claims of `id` succeed in a run. */
  function Claims(w: World, steps: seq<Step>, id: Id): nat
    requires WellKeyed(w.db)
    decreases |steps|
  {
    if steps == [] then 0
    else
      (if ClaimsNow(w, steps[0], id) then 1 else 0) + Claims(Next(w, steps[0]), steps[1..], id)
  }

  predicate Claimable(w: World, id: Id) {
    id in w.db.rows ==> w.db.rows[id].token == 0
  }

  lemma ClaimRaisesToken(w: World, s: Step, id: Id)
    requires WellKeyed(w.db) && ClaimsNow(w, s, id)
    ensures id in w.db.rows && w.db.rows[id].state.Queued? && id in Next(w, s).db.rows && Next(w, s).db.rows[id].token > 0
  {
  }

  lemma ClaimUsesUp(w: World, s: Step, id: Id)
    requires Inv(w)
    ensures ClaimsNow(w, s, id) ==> Claimable(w, id) && !Claimable(Next(w, s), id)
    ensures !Claimable(w, id) ==> !Claimable(Next(w, s), id)
  {
    if ClaimsNow(w, s, id) {
      ClaimRaisesToken(w, s, id);
      assert RowOk(id, w.db.rows[id], w.launched);
    } else if id in w.db.rows {
      ExecutionNext(w, s, id);
    }
  }

  lemma {:induction false} AtMostOneClaim(w: World, steps: seq<Step>, id: Id)
    requires Inv(w)
    ensures Claims(w, steps, id) <= if Claimable(w, id) then 1 else 0
    decreases |steps|
  {
    if steps != [] {
      InvNext(w, steps[0]);
      ClaimUsesUp(w, steps[0], id);
      AtMostOneClaim(Next(w, steps[0]), steps[1..], id);
    }
  }

  // ----- Fencing -----

  /** Recovered, or its project revoked. */
  predicate Fenced(w: World, id: Id) {
    id in w.db.rows && (w.db.rows[id].token > 1 || Frozen(w, id))
  }

  /** A worker stands between its check and the launch that check allowed. */
  predicate PastCheck(k: Worker, id: Id) {
    HasClaimed(k) && k.execution == id && k.pc == Launching
  }

  ghost predicate LaunchPending(w: World, id: Id) {
    exists n :: n in w.workers && PastCheck(w.workers[n], id)
  }

  ghost function Exposure(w: World, id: Id): nat {
    |Launched(w.launched, id)| + if LaunchPending(w, id) then 1 else 0
  }

  /** An action on a fenced execution by its own worker: no check passes any more. */
  lemma FencedHere(w: World, n: nat, outcome: Outcome)
    requires Inv(w) && n in w.workers && Fenced(w, w.workers[n].execution)
    ensures var id, k := w.workers[n].execution, Act(w.db, w.workers[n], outcome).1;
            && !PastCheck(k, id)
            && |Launched(AdvanceWorker(w, n, outcome).launched, id)|
               == |Launched(w.launched, id)| + if PastCheck(w.workers[n], id) then 1 else 0
  {
    ActionHere(w, n, outcome);
  }

  lemma OthersStay(w: World, n: nat, outcome: Outcome)
    requires WellKeyed(w.db) && n in w.workers
    ensures var after := AdvanceWorker(w, n, outcome);
            && n in after.workers && after.workers == w.workers[n := after.workers[n]]
            && after.workers[n].execution == w.workers[n].execution
  {
    ActKeeps(w.db, w.workers[n], outcome);
  }

  /** A worker moved to where no launch is pending takes its own pending launch away, and adds none. */
  lemma PendingMoves(w: World, after: World, n: nat, id: Id)
    requires Inv(w) && n in w.workers && n in after.workers && after.workers == w.workers[n := after.workers[n]]
    requires !PastCheck(after.workers[n], id)
    ensures LaunchPending(after, id) ==> LaunchPending(w, id) && !PastCheck(w.workers[n], id)
  {
    if LaunchPending(after, id) {
      var m :| m in after.workers && PastCheck(after.workers[m], id);
      assert m != n && PastCheck(w.workers[m], id);
    }
  }

  lemma ExposureAction(w: World, n: nat, outcome: Outcome, id: Id)
    requires Inv(w) && n in w.workers && Fenced(w, id)
    ensures Exposure(AdvanceWorker(w, n, outcome), id) <= Exposure(w, id)
  {
    OthersStay(w, n, outcome);
    if w.workers[n].execution == id {
      FencedHere(w, n, outcome);
    } else {
      AdvanceElsewhere(w, n, outcome, id);
    }
    PendingMoves(w, AdvanceWorker(w, n, outcome), n, id);
  }

  lemma ExposureOperated(w: World, s: Step, id: Id)
    requires WellKeyed(w.db) && (s.Advance? ==> s.worker !in w.workers)
    ensures Exposure(Next(w, s), id) <= Exposure(w, id)
  {
    var after := Next(w, s);
    if LaunchPending(after, id) {
      var m :| m in after.workers && PastCheck(after.workers[m], id);
      assert m in w.workers && PastCheck(w.workers[m], id);
    }
  }

  lemma FenceStays(before: World, after: World, id: Id)
    requires Fenced(before, id) && ExecutionHistory(before, after, id)
    ensures Fenced(after, id)
  {
  }

  lemma ExposureNext(w: World, s: Step, id: Id)
    requires Inv(w) && Fenced(w, id)
    ensures Exposure(Next(w, s), id) <= Exposure(w, id)
  {
    InvKeyed(w);
    hide Next, AdvanceWorker, Inv;
    if s.Advance? && s.worker in w.workers {
      NextAdvances(w, s);
      ExposureAction(w, s.worker, s.outcome, id);
    } else {
      ExposureOperated(w, s, id);
    }
  }

  /** After a recovery or a revocation at most one more child starts, and none
      unless a worker had already passed its check. */
  lemma {:induction false} AtMostOneMoreChild(w: World, steps: seq<Step>, id: Id)
    requires Inv(w) && Fenced(w, id)
    ensures Fenced(Run(w, steps), id)
    ensures |Launched(Run(w, steps).launched, id)|
            <= |Launched(w.launched, id)| + if LaunchPending(w, id) then 1 else 0
    decreases |steps|
  {
    if steps != [] {
      InvNext(w, steps[0]);
      ExecutionNext(w, steps[0], id);
      FenceStays(w, Next(w, steps[0]), id);
      ExposureNext(w, steps[0], id);
      AtMostOneMoreChild(Next(w, steps[0]), steps[1..], id);
    }
  }

  /** The bound is met: a revocation after a check does not stop the launch that check allowed. */
  lemma LaunchAfterRevocation(w: World, n: nat, outcome: Outcome)
    requires Inv(w) && n in w.workers && PastCheck(w.workers[n], w.workers[n].execution)
    ensures var id := w.workers[n].execution;
            var revoked := Next(w, Revoke(w.workers[n].scope));
            && Fenced(revoked, id)
            && |Launched(Next(revoked, Advance(n, outcome)).launched, id)| == |Launched(w.launched, id)| + 1
  {
    assert WorkerOk(w.workers[n], w.db.rows, w.launched);
    assert RowOk(w.workers[n].execution, w.db.rows[w.workers[n].execution], w.launched);
    InvNext(w, Revoke(w.workers[n].scope));
    FencedHere(Next(w, Revoke(w.workers[n].scope)), n, outcome);
  }

  /** The world of one execution: a project, its row, and one worker. */
  function One(
    scope: Scope, slot: string, d: Definition, id: Id, allowance: nat, state: State, n: nat, token: nat, cases: seq<Case>,
    pc: Pc): World
  {
    var row := Row(scope, slot, d, Sha256(d), state, token, if state.Queued? then 0 else |d.cases|, None);
    World(Db(map[scope := Project(allowance, true)], [id], map[id := row]),
          map[n := Worker(scope, id, token, cases, [], pc)], map[])
  }

  lemma OneSubmitted(scope: Scope, slot: string, d: Definition, id: Id, allowance: nat)
    requires Supported(d) && CasesNamed(d.cases)
    ensures var db := Db(map[scope := Project(allowance, true)], [], map[]);
            WellKeyed(db) && QueueTables.Submit(db, scope, slot, d, id)
            == Ok((Db(db.projects, [id], map[id := Row(scope, slot, d, Sha256(d), Queued, 0, 0, None)]), id))
  {
    var db, row := Db(map[scope := Project(allowance, true)], [], map[]), Row(scope, slot, d, Sha256(d), Queued, 0, 0, None);
    assert Sealed(db.order, db.rows, scope, slot) == None;
    assert db.order + [id] == [id] && db.rows[id := row] == map[id := row];
  }

  lemma OneStarted(scope: Scope, slot: string, d: Definition, id: Id, allowance: nat, n: nat)
    requires Supported(d) && CasesNamed(d.cases)
    ensures Next(Next(Next(EMPTY, AddProject(scope, allowance)), Submit(scope, slot, d, id)), Start(n, scope, id))
         == One(scope, slot, d, id, allowance, Queued, n, 0, [], Claiming)
  {
    hide QueueTables.Submit, Act;
    assert Next(EMPTY, AddProject(scope, allowance)) == World(Db(map[scope := Project(allowance, true)], [], map[]), map[], map[]);
    OneSubmitted(scope, slot, d, id, allowance);
  }

  lemma OneClaims(scope: Scope, slot: string, d: Definition, id: Id, allowance: nat, n: nat, outcome: Outcome)
    requires |d.cases| <= allowance
    ensures WellKeyed(One(scope, slot, d, id, allowance, Queued, n, 0, [], Claiming).db)
    ensures Next(One(scope, slot, d, id, allowance, Queued, n, 0, [], Claiming), Advance(n, outcome))
         == One(scope, slot, d, id, allowance, Reserved, n, 1, [], Fetching)
  {
    var w := One(scope, slot, d, id, allowance, Queued, n, 0, [], Claiming);
    assert HeldBy(w.db.order, w.db.rows, scope) == 0 by { assert w.db.order[1..] == []; }
  }

  lemma OneFetches(scope: Scope, slot: string, d: Definition, id: Id, allowance: nat, n: nat, outcome: Outcome)
    ensures WellKeyed(One(scope, slot, d, id, allowance, Reserved, n, 1, [], Fetching).db)
    ensures Next(One(scope, slot, d, id, allowance, Reserved, n, 1, [], Fetching), Advance(n, outcome))
         == One(scope, slot, d, id, allowance, Reserved, n, 1, d.cases, Dispatching)
  {
  }

  lemma OneDispatches(scope: Scope, slot: string, d: Definition, id: Id, allowance: nat, n: nat, outcome: Outcome)
    ensures WellKeyed(One(scope, slot, d, id, allowance, Reserved, n, 1, d.cases, Dispatching).db)
    ensures Next(One(scope, slot, d, id, allowance, Reserved, n, 1, d.cases, Dispatching), Advance(n, outcome))
         == One(scope, slot, d, id, allowance, Dispatched, n, 1, d.cases, Checking)
  {
  }

  lemma OneChecks(scope: Scope, slot: string, d: Definition, id: Id, allowance: nat, n: nat, outcome: Outcome)
    requires d.cases != []
    ensures WellKeyed(One(scope, slot, d, id, allowance, Dispatched, n, 1, d.cases, Checking).db)
    ensures Next(One(scope, slot, d, id, allowance, Dispatched, n, 1, d.cases, Checking), Advance(n, outcome))
         == One(scope, slot, d, id, allowance, Dispatched, n, 1, d.cases, Launching)
  {
  }

  lemma OneLaunches(scope: Scope, slot: string, d: Definition, id: Id, allowance: nat, n: nat, outcome: Outcome)
    requires d.cases != []
    ensures WellKeyed(One(scope, slot, d, id, allowance, Dispatched, n, 1, d.cases, Launching).db)
    ensures var revoked := Next(One(scope, slot, d, id, allowance, Dispatched, n, 1, d.cases, Launching), Revoke(scope));
            && Frozen(revoked, id) && Launched(revoked.launched, id) == []
            && Launched(Next(revoked, Advance(n, outcome)).launched, id) == [d.cases[0]]
  {
  }

  lemma RunNext(w: World, s: Step, steps: seq<Step>)
    requires WellKeyed(w.db)
    ensures Run(w, [s] + steps) == Run(Next(w, s), steps)
  {
    assert ([s] + steps)[1..] == steps;
  }

  lemma {:induction false} RunOn(w: World, steps: seq<Step>, more: seq<Step>)
    requires WellKeyed(w.db)
    ensures Run(w, steps + more) == Run(Run(w, steps), more)
    decreases |steps|
  {
    if steps == [] {
      assert [] + more == more;
    } else {
      RunOn(Next(w, steps[0]), steps[1..], more);
      RunNext(w, steps[0], steps[1..] + more);
      assert steps + more == [steps[0]] + (steps[1..] + more);
    }
  }

  lemma RunTwo(w: World, s: Step, t: Step)
    requires WellKeyed(w.db)
    ensures Run(w, [s, t]) == Next(Next(w, s), t)
  {
    RunNext(w, s, [t]);
    RunNext(Next(w, s), t, []);
    assert [s, t] == [s] + [t] && [t] == [t] + [];
  }

  /** From the empty store any execution that can be claimed comes to stand between a check and its launch. */
  lemma PastCheckReached(scope: Scope, slot: string, d: Definition, id: Id, allowance: nat, n: nat, outcome: Outcome)
    returns (steps: seq<Step>)
    requires Supported(d) && CasesNamed(d.cases) && |d.cases| <= allowance
    ensures Run(EMPTY, steps) == One(scope, slot, d, id, allowance, Dispatched, n, 1, d.cases, Launching)
  {
    hide Next, One;
    var go := Advance(n, outcome);
    OneStarted(scope, slot, d, id, allowance, n);
    OneClaims(scope, slot, d, id, allowance, n, outcome);
    OneFetches(scope, slot, d, id, allowance, n, outcome);
    OneDispatches(scope, slot, d, id, allowance, n, outcome);
    OneChecks(scope, slot, d, id, allowance, n, outcome);
    var added := Next(EMPTY, AddProject(scope, allowance));
    var submitted := Next(added, Submit(scope, slot, d, id));
    var started := Next(submitted, Start(n, scope, id));
    var fetching := Next(started, go);
    RunTwo(EMPTY, AddProject(scope, allowance), Submit(scope, slot, d, id));
    RunTwo(submitted, Start(n, scope, id), go);
    RunTwo(fetching, go, go);
    RunNext(Next(Next(fetching, go), go), go, []);
    assert [go] == [go] + [];
    var first := [AddProject(scope, allowance), Submit(scope, slot, d, id)];
    RunOn(EMPTY, first, [Start(n, scope, id), go]);
    RunOn(EMPTY, first + [Start(n, scope, id), go], [go, go]);
    RunOn(EMPTY, first + [Start(n, scope, id), go] + [go, go], [go]);
    steps := first + [Start(n, scope, id), go] + [go, go] + [go];
  }

  /** So the bound is met by a run from the empty store, for any such execution:
      a revocation, and then its one child. */
  lemma LaunchAfterRevocationReached(
    scope: Scope, slot: string, d: Definition, id: Id, allowance: nat, n: nat, outcome: Outcome) returns (steps: seq<Step>)
    requires Supported(d) && CasesNamed(d.cases) && |d.cases| <= allowance
    ensures var revoked, after := Run(EMPTY, steps + [Revoke(scope)]), Run(EMPTY, steps + [Revoke(scope), Advance(n, outcome)]);
            && Frozen(revoked, id) && Launched(revoked.launched, id) == []
            && Launched(after.launched, id) == [d.cases[0]]
  {
    hide Next, One, Frozen;
    OneLaunches(scope, slot, d, id, allowance, n, outcome);
    steps := PastCheckReached(scope, slot, d, id, allowance, n, outcome);
    var w := Run(EMPTY, steps);
    RunOn(EMPTY, steps, [Revoke(scope)]);
    RunNext(w, Revoke(scope), []);
    assert [Revoke(scope)] == [Revoke(scope)] + [];
    RunOn(EMPTY, steps, [Revoke(scope), Advance(n, outcome)]);
    RunTwo(w, Revoke(scope), Advance(n, outcome));
  }

  /** A worker whose token is no longer its row's: whatever it does, and
      whenever, the tables stay as they are. */
  lemma StaleWorkerIsInert(w: World, steps: seq<Step>, n: nat, outcome: Outcome)
    requires Inv(w) && n in w.workers && HasClaimed(w.workers[n])
    requires w.workers[n].execution in w.db.rows && w.workers[n].token < w.db.rows[w.workers[n].execution].token
    ensures var later := Run(w, steps);
            && WellKeyed(later.db) && n in later.workers && AdvanceWorker(later, n, outcome).db == later.db
  {
    WorkerRun(w, steps, n);
    ExecutionRun(w, steps, w.workers[n].execution);
    InvRun(w, steps);
    StaleAction(Run(w, steps), n, outcome);
  }

  lemma StaleAction(w: World, n: nat, outcome: Outcome)
    requires Inv(w) && n in w.workers && HasClaimed(w.workers[n]) && w.workers[n].execution in w.db.rows
    requires w.workers[n].token < w.db.rows[w.workers[n].execution].token
    ensures AdvanceWorker(w, n, outcome).db == w.db
  {
    var id := w.workers[n].execution;
    assert RowOk(id, w.db.rows[id], w.launched) && WorkerOk(w.workers[n], w.db.rows, w.launched);
    ActionHere(w, n, outcome);
    assert w.db.rows[id := w.db.rows[id]] == w.db.rows;
  }

  lemma WorkerActs(w: World, n: nat, outcome: Outcome)
    requires Inv(w) && n in w.workers && HasClaimed(w.workers[n])
    ensures Act(w.db, w.workers[n], outcome).1.token == w.workers[n].token
  {
    ActionHere(w, n, outcome);
  }

  /** The same worker, under the same token. */
  predicate SameClaim(before: World, after: World, n: nat) {
    && n in before.workers && n in after.workers
    && after.workers[n].execution == before.workers[n].execution && after.workers[n].token == before.workers[n].token
  }

  lemma ClaimAdvanced(w: World, m: nat, outcome: Outcome, n: nat)
    requires Inv(w) && m in w.workers && n in w.workers && HasClaimed(w.workers[n])
    ensures SameClaim(w, AdvanceWorker(w, m, outcome), n)
  {
    OthersStay(w, m, outcome);
    if m == n {
      WorkerActs(w, n, outcome);
    }
  }

  lemma ClaimOperated(w: World, s: Step, n: nat)
    requires WellKeyed(w.db) && n in w.workers && (s.Advance? ==> s.worker !in w.workers)
    ensures SameClaim(w, Next(w, s), n)
  {
  }

  lemma ClaimNext(w: World, s: Step, n: nat)
    requires Inv(w) && n in w.workers && HasClaimed(w.workers[n])
    ensures SameClaim(w, Next(w, s), n)
  {
    InvKeyed(w);
    hide Next, AdvanceWorker, Inv;
    if s.Advance? && s.worker in w.workers {
      NextAdvances(w, s);
      ClaimAdvanced(w, s.worker, s.outcome, n);
    } else {
      ClaimOperated(w, s, n);
    }
  }

  lemma {:induction false} WorkerRun(w: World, steps: seq<Step>, n: nat)
    requires Inv(w) && n in w.workers && HasClaimed(w.workers[n])
    ensures SameClaim(w, Run(w, steps), n)
    decreases |steps|
  {
    if steps != [] {
      ClaimNext(w, steps[0], n);
      InvNext(w, steps[0]);
      WorkerRun(Next(w, steps[0]), steps[1..], n);
    }
  }

  // ----- What an indexed execution shows -----

  /** Each case is launched at most once and in order; an indexed execution
      launched every case, and is `Completed` just when every cell was retrieved. */
  lemma IndexedExecutions(steps: seq<Step>, id: Id)
    requires id in Reached(steps).db.rows
    ensures var row, launched := Reached(steps).db.rows[id], Launched(Reached(steps).launched, id);
            && launched <= row.definition.cases
            && ((row.state.Completed? || row.state.Partial?) ==>
                  && launched == row.definition.cases && row.exportHash.Some?
                  && var cells := row.exportHash.value.body.cells;
                  && |cells| == |launched|
                  && (row.state.Completed? <==> forall i | 0 <= i < |cells| :: cells[i] == Retrieved))
  {
    ReachedInv(steps);
    assert RowOk(id, Reached(steps).db.rows[id], Reached(steps).launched);
  }

  // ----- Sealed slots -----

  /** Once a slot is sealed, the same definition gives the same execution
      back in every later world, and any other definition is refused. */
  lemma SlotStaysSealed(w: World, scope: Scope, slot: string, d: Definition, drawn: Id,
                        steps: seq<Step>, d': Definition, drawn': Id)
    requires Inv(w) && QueueTables.Submit(w.db, scope, slot, d, drawn).Ok?
    requires Authorised(Run(Next(w, Submit(scope, slot, d, drawn)), steps).db, scope).Ok?
    requires Supported(d') && CasesNamed(d'.cases)
    ensures var id := QueueTables.Submit(w.db, scope, slot, d, drawn).value.1;
            var later := Run(Next(w, Submit(scope, slot, d, drawn)), steps);
            QueueTables.Submit(later.db, scope, slot, d', drawn')
            == if d' == d then Ok((later.db, id)) else Err(SlotSealed)
  {
    var id := QueueTables.Submit(w.db, scope, slot, d, drawn).value.1;
    var sealed := Next(w, Submit(scope, slot, d, drawn));
    InvNext(w, Submit(scope, slot, d, drawn));
    SubmitSeals(w.db, scope, slot, d, drawn);
    SealedRun(sealed, steps, scope, slot);
    ExecutionRun(sealed, steps, id);
  }

  lemma SubmitSeals(db: Db, scope: Scope, slot: string, d: Definition, drawn: Id)
    requires WellKeyed(db) && QueueTables.Submit(db, scope, slot, d, drawn).Ok?
    ensures var (after, id) := QueueTables.Submit(db, scope, slot, d, drawn).value;
            && WellKeyed(after) && id in after.rows && after.rows[id].version == Sha256(d)
            && Sealed(after.order, after.rows, scope, slot) == Some(id)
  {
    var (after, id) := QueueTables.Submit(db, scope, slot, d, drawn).value;
    if after != db {
      SealedAppend(db.order, db.rows, drawn, after.rows[drawn], scope, slot);
    }
  }

  lemma {:induction false} SealedAppend(order: seq<Id>, rows: map<Id, Row>, id: Id, row: Row, scope: Scope, slot: string)
    requires (forall i | i in order :: i in rows) && id !in rows
    ensures Sealed(order + [id], rows[id := row], scope, slot)
         == match Sealed(order, rows, scope, slot)
            case Some(prior) => Some(prior)
            case None => if row.scope == scope && row.slot == slot then Some(id) else None
  {
    if order == [] {
      assert order + [id] == [id];
    } else {
      assert (order + [id])[1..] == order[1..] + [id];
      SealedAppend(order[1..], rows, id, row, scope, slot);
    }
  }

  /** Updating a row without moving it to another slot leaves every slot's owner. */
  lemma {:induction false} SealedUpdate(order: seq<Id>, rows: map<Id, Row>, rows': map<Id, Row>, scope: Scope, slot: string)
    requires forall i | i in order :: i in rows && i in rows'
                                      && rows'[i].scope == rows[i].scope && rows'[i].slot == rows[i].slot
    ensures Sealed(order, rows', scope, slot) == Sealed(order, rows, scope, slot)
  {
    if order != [] {
      SealedUpdate(order[1..], rows, rows', scope, slot);
    }
  }

  lemma SealedNext(w: World, s: Step, scope: Scope, slot: string)
    requires Inv(w) && Sealed(w.db.order, w.db.rows, scope, slot).Some?
    ensures Sealed(Next(w, s).db.order, Next(w, s).db.rows, scope, slot) == Sealed(w.db.order, w.db.rows, scope, slot)
  {
    OrderNext(w, s);
    var after := Next(w, s).db;
    if after.order == w.db.order {
      forall i | i in w.db.order
        ensures i in after.rows && after.rows[i].scope == w.db.rows[i].scope && after.rows[i].slot == w.db.rows[i].slot
      {
        ExecutionNext(w, s, i);
      }
      SealedUpdate(w.db.order, w.db.rows, after.rows, scope, slot);
    } else {
      SealedAppend(w.db.order, w.db.rows, s.drawn, after.rows[s.drawn], scope, slot);
    }
  }

  lemma OrderNext(w: World, s: Step)
    requires WellKeyed(w.db)
    ensures var after := Next(w, s).db;
            || after.order == w.db.order
            || (s.Submit? && s.drawn !in w.db.rows && s.drawn in after.rows
                && after.order == w.db.order + [s.drawn] && after.rows == w.db.rows[s.drawn := after.rows[s.drawn]])
  {
    if s.Submit? {
      SubmitInserts(w.db, s.scope, s.slot, s.definition, s.drawn);
    }
  }

  lemma {:induction false} SealedRun(w: World, steps: seq<Step>, scope: Scope, slot: string)
    requires Inv(w) && Sealed(w.db.order, w.db.rows, scope, slot).Some?
    ensures Sealed(Run(w, steps).db.order, Run(w, steps).db.rows, scope, slot)
         == Sealed(w.db.order, w.db.rows, scope, slot)
    decreases |steps|
  {
    if steps != [] {
      SealedNext(w, steps[0], scope, slot);
      InvNext(w, steps[0]);
      SealedRun(Next(w, steps[0]), steps[1..], scope, slot);
    }
  }
}
