/** Every run of the router, its hooks interleaved at each wait. */
module RouterRuns {
  import opened Wrappers
  import opened Router

  /** A call: the edge known when it began, where its hook waits and what it has been told. */
  datatype Call = Call(tool: Tool, known: Option<string>, pc: Pc, heard: seq<Reply>)

  /** `found` is whether the edge was ever found; `late` the fetches that went
      native after that; `posted` the calls whose hook after the tool has run,
      `recorded` those it passed on. */
  datatype World = World(
    state: State, calls: map<Id, Call>, found: bool, late: set<Id>, posted: set<Id>, recorded: set<Id>)

  datatype Step = Begin(id: Id, tool: Tool) | Hear(id: Id, reply: Reply) | Post(id: Id)

  const EMPTY: World := World(State(None, {}, []), map[], false, {}, {}, {})

  predicate NativeFetch(call: Call) {
    call.tool.Fetch? && call.pc == Done(Native)
  }

  /** A call with an id not seen before begins; one that waits hears; a tool that
      ran, or was answered for, has the hook after it run once. */
  function Next(w: World, step: Step): World {
    match step
    case Begin(id, tool) =>
      if id in w.calls then w
      else w.(calls := w.calls[id := Call(tool, w.state.edge, Began(w.state, tool), [])])
    case Hear(id, reply) =>
      if id !in w.calls || w.calls[id].pc.Done? then w
      else
        var call := w.calls[id];
        var (state, pc) := Advance(w.state, call.tool, id, call.pc, reply);
        var after := Call(call.tool, call.known, pc, call.heard + [reply]);
        w.(state := state, calls := w.calls[id := after], found := w.found || state.edge.Some?,
           late := if w.found && NativeFetch(after) then w.late + {id} else w.late)
    case Post(id) =>
      if id !in w.calls || id in w.posted || w.calls[id].pc !in {Done(Native), Done(Answered)} then w
      else w.(state := w.state.(answered := w.state.answered - {id}),
              posted := w.posted + {id},
              recorded := if id in w.state.answered then w.recorded else w.recorded + {id})
  }

  function Run(w: World, steps: seq<Step>): World
    decreases |steps|
  {
    if steps == [] then w else Next(Run(w, steps[..|steps| - 1]), steps[|steps| - 1])
  }

  // ----- What a call was told -----

  /** No edge was listed, and the policy permits or the person allowed. */
  predicate Permitted(heard: seq<Reply>) {
    && |heard| >= 2 && heard[0].Tools? && Chosen(EDGE_SERVERS, heard[0].listed).None?
    && heard[1].Policy? && heard[1].mode.Some?
    && if heard[1].mode.value.Strict? then |heard| == 3 && heard[2] == Chose(Allow) else |heard| == 2
  }

  /** The edge a call went on with: known when it began, or shown by its own listing. */
  function EdgeOf(known: Option<string>, heard: seq<Reply>): Option<string> {
    if known.Some? then known
    else if heard != [] && heard[0].Tools? then Chosen(EDGE_SERVERS, heard[0].listed)
    else None
  }

  /** A search's own listing showed no edge, or the edge has no provider to ask. */
  predicate Unprovided(known: Option<string>, heard: seq<Reply>) {
    || (known.None? && |heard| == 1 && heard[0].Tools? && EdgeOf(known, heard).None?)
    || (EdgeOf(known, heard).Some? && |heard| == (if known.Some? then 1 else 2) && heard[|heard| - 1] == Provider(None))
  }

  /** A call's replies, by where it waits, and the server it waits on. */
  predicate CallOk(call: Call) {
    && (call.known.Some? ==> call.known.value in EDGE_SERVERS)
    && if call.tool.Fetch? then FetchOk(call.known, call.pc, call.heard) else SearchOk(call.known, call.pc, call.heard)
  }

  predicate FetchOk(known: Option<string>, pc: Pc, heard: seq<Reply>) {
    match pc
    case Listing => heard == [] && known.None?
    case Policing => |heard| == 1 && known.None? && heard[0].Tools? && EdgeOf(known, heard).None?
    case Holding =>
      && |heard| == 2 && known.None? && heard[0].Tools? && EdgeOf(known, heard).None?
      && heard[1] == Policy(Some(Strict))
    case Connecting => |heard| == 3 && known.None?
    case Choosing(_) => false
    case Calling(server) =>
      if |heard| == 4 then known.None? && heard[3] == Connected(Some(server))
      else |heard| == (if known.Some? then 0 else 1) && EdgeOf(known, heard) == Some(server)
    case Done(outcome) => (known.Some? ==> |heard| == 1) && (outcome.Native? <==> Permitted(heard))
  }

  predicate SearchOk(known: Option<string>, pc: Pc, heard: seq<Reply>) {
    var asked := if known.Some? then 0 else 1;
    match pc
    case Listing => heard == [] && known.None?
    case Choosing(server) => |heard| == asked && EdgeOf(known, heard) == Some(server)
    case Calling(server) =>
      && |heard| == asked + 1 && EdgeOf(known, heard) == Some(server)
      && heard[asked].Provider? && heard[asked].provider.Some?
    case Done(outcome) => outcome.Native? <==> Unprovided(known, heard)
    case _ => false
  }

  lemma ChosenIsEdge(servers: seq<string>, listed: set<string>)
    ensures Chosen(servers, listed).Some? ==> Chosen(servers, listed).value in servers
  {
  }

  predicate EdgeOk(s: State) {
    s.edge.Some? ==> s.edge.value in EDGE_SERVERS
  }

  lemma AdvanceKeepsEdge(s: State, tool: Tool, id: Id, pc: Pc, reply: Reply)
    requires EdgeOk(s)
    ensures EdgeOk(Advance(s, tool, id, pc, reply).0)
  {
    if reply.Tools? {
      ChosenIsEdge(EDGE_SERVERS, reply.listed);
    }
    hide Chosen;
  }

  lemma AdvanceKeepsCall(s: State, id: Id, call: Call, reply: Reply)
    requires CallOk(call) && !call.pc.Done?
    ensures CallOk(Call(call.tool, call.known, Advance(s, call.tool, id, call.pc, reply).1, call.heard + [reply]))
  {
    hide Chosen;
    if call.tool.Fetch? { AdvanceKeepsFetch(s, id, call, reply); } else { AdvanceKeepsSearch(s, id, call, reply); }
  }

  lemma AdvanceKeepsFetch(s: State, id: Id, call: Call, reply: Reply)
    requires call.tool.Fetch? && FetchOk(call.known, call.pc, call.heard) && !call.pc.Done?
    ensures FetchOk(call.known, Advance(s, Fetch, id, call.pc, reply).1, call.heard + [reply])
  {
    hide Chosen;
  }

  lemma AdvanceKeepsSearch(s: State, id: Id, call: Call, reply: Reply)
    requires call.tool.Search? && SearchOk(call.known, call.pc, call.heard) && !call.pc.Done?
    ensures SearchOk(call.known, Advance(s, Search, id, call.pc, reply).1, call.heard + [reply])
  {
    hide Chosen;
  }

  /** What the invariant says of one call. */
  predicate Settled(w: World, id: Id) {
    && EdgeOk(w.state)
    && (id in w.calls ==>
          && CallOk(w.calls[id])
          && (id in w.state.answered <==> w.calls[id].pc == Done(Answered) && id !in w.posted))
    && (id !in w.calls ==> id !in w.posted && id !in w.state.answered && id !in w.recorded)
    && (id in w.recorded <==> id in w.posted && id in w.calls && w.calls[id].pc == Done(Native))
    && (id in w.posted ==> id in w.calls && w.calls[id].pc.Done?)
  }

  ghost predicate Inv(w: World) {
    (w.state.edge.Some? ==> w.found) && forall id :: Settled(w, id)
  }

  lemma SettledBegin(w: World, step: Step, id: Id)
    requires step.Begin? && Settled(w, id)
    ensures Settled(Next(w, step), id)
  {
  }

  lemma SettledPost(w: World, step: Step, id: Id)
    requires step.Post? && Settled(w, id)
    ensures Settled(Next(w, step), id)
  {
  }

  lemma AdvanceAnswers(s: State, tool: Tool, id: Id, pc: Pc, reply: Reply)
    requires !pc.Done?
    ensures var (after, next) := Advance(s, tool, id, pc, reply);
            after.answered == if next == Done(Answered) then s.answered + {id} else s.answered
  {
  }

  lemma SettledHear(w: World, step: Step, id: Id)
    requires step.Hear? && Settled(w, id)
    ensures Settled(Next(w, step), id)
  {
    if step.id in w.calls && !w.calls[step.id].pc.Done? {
      var call := w.calls[step.id];
      AdvanceAnswers(w.state, call.tool, step.id, call.pc, step.reply);
      AdvanceKeepsEdge(w.state, call.tool, step.id, call.pc, step.reply);
      if step.id == id {
        AdvanceKeepsCall(w.state, id, call, step.reply);
      }
      HeardSettled(w, step, id);
    }
  }

  lemma HeardSettled(w: World, step: Step, id: Id)
    requires step.Hear? && step.id in w.calls && !w.calls[step.id].pc.Done? && Settled(w, id)
    requires var (call, after) := (w.calls[step.id], Advance(w.state, w.calls[step.id].tool, step.id, w.calls[step.id].pc, step.reply));
             && after.0.answered == (if after.1 == Done(Answered) then w.state.answered + {step.id} else w.state.answered)
             && (step.id == id ==> CallOk(Call(call.tool, call.known, after.1, call.heard + [step.reply])))
             && EdgeOk(after.0)
    ensures Settled(Next(w, step), id)
  {
    hide Advance, CallOk;
  }

  lemma InvNext(w: World, step: Step)
    requires Inv(w)
    ensures Inv(Next(w, step))
  {
    hide Settled;
    forall id ensures Settled(Next(w, step), id) {
      match step
      case Begin(_, _) => SettledBegin(w, step, id);
      case Hear(_, _) => SettledHear(w, step, id);
      case Post(_) => SettledPost(w, step, id);
    }
  }

  lemma {:induction false} InvRun(w: World, steps: seq<Step>)
    requires Inv(w)
    ensures Inv(Run(w, steps))
    decreases |steps|
  {
    if steps != [] {
      InvRun(w, steps[..|steps| - 1]);
      InvNext(Run(w, steps[..|steps| - 1]), steps[|steps| - 1]);
    }
  }

  /** In every run, a fetch that has ended ran natively exactly when its own
      listing showed no edge and the policy permits it, or is strict and the
      person allowed it. */
  lemma NativeExactlyWhenPermitted(steps: seq<Step>, id: Id)
    requires id in Run(EMPTY, steps).calls
    ensures var call := Run(EMPTY, steps).calls[id];
            call.tool.Fetch? && call.pc.Done? ==> (call.pc == Done(Native) <==> Permitted(call.heard))
  {
    InvRun(EMPTY, steps);
    assert Settled(Run(EMPTY, steps), id);
  }

  /** In every run, a search that has ended ran natively exactly when its own
      listing showed no edge, or the edge, kept from before or shown by it, has
      no provider to ask. */
  lemma SearchNativeExactly(steps: seq<Step>, id: Id)
    requires id in Run(EMPTY, steps).calls
    ensures var call := Run(EMPTY, steps).calls[id];
            call.tool.Search? && call.pc.Done? ==> (call.pc == Done(Native) <==> Unprovided(call.known, call.heard))
  {
    InvRun(EMPTY, steps);
    assert Settled(Run(EMPTY, steps), id);
  }

  /** In every run, a call is carried by the edge: the server known when it
      began, the one its own listing showed, or, held in strict mode, the one
      connected for it. */
  lemma CarriedByEdge(steps: seq<Step>, id: Id)
    requires id in Run(EMPTY, steps).calls && Run(EMPTY, steps).calls[id].pc.Calling?
    ensures var call := Run(EMPTY, steps).calls[id];
            || EdgeOf(call.known, call.heard) == Some(call.pc.server)
            || (call.tool.Fetch? && |call.heard| == 4 && call.heard[3] == Connected(Some(call.pc.server)))
    ensures var known := Run(EMPTY, steps).calls[id].known;
            known in {None, Some("plugin_commonmeasure_commonmeasure"), Some("commonmeasure")}
  {
    InvRun(EMPTY, steps);
    assert Settled(Run(EMPTY, steps), id);
  }

  /** In every run, what is recorded after the fact is exactly what ran
      natively, of the calls the hook has run for: no call is both answered by
      the module and recorded. */
  lemma RecordedExactlyWhenNative(steps: seq<Step>, id: Id)
    ensures var w := Run(EMPTY, steps);
            id in w.recorded <==> id in w.posted && id in w.calls && w.calls[id].pc == Done(Native)
  {
    InvRun(EMPTY, steps);
    assert Settled(Run(EMPTY, steps), id);
  }

  // ----- The edge, once found -----

  predicate AwaitsListing(w: World) {
    exists id | id in w.calls :: w.calls[id].pc.Listing?
  }

  /** The edge stays, and no listing is awaited again. */
  ghost predicate Held(w: World, v: World) {
    v.state.edge == w.state.edge && !AwaitsListing(v)
  }

  lemma HeldNext(w: World, v: World, step: Step)
    requires w.state.edge.Some? && Held(w, v)
    ensures Held(w, Next(v, step))
  {
    var n := Next(v, step);
    forall id | id in n.calls ensures !n.calls[id].pc.Listing? {
      if id in v.calls {
        assert !v.calls[id].pc.Listing?;
      }
    }
  }

  lemma {:induction false} HeldRun(w: World, steps: seq<Step>)
    requires w.state.edge.Some? && !AwaitsListing(w)
    ensures Held(w, Run(w, steps))
    decreases |steps|
  {
    if steps != [] {
      HeldRun(w, steps[..|steps| - 1]);
      HeldNext(w, Run(w, steps[..|steps| - 1]), steps[|steps| - 1]);
    }
  }

  lemma RunOne(w: World, step: Step)
    ensures Run(w, [step]) == Next(w, step)
  {
    assert [step][..0] == [];
    assert Run(w, []) == w;
  }

  lemma RunMore(w: World, steps: seq<Step>, step: Step)
    ensures Run(w, steps + [step]) == Next(Run(w, steps), step)
  {
    assert (steps + [step])[..|steps|] == steps;
  }

  lemma {:induction false} RunOn(w: World, steps: seq<Step>, more: seq<Step>)
    ensures Run(w, steps + more) == Run(Run(w, steps), more)
  {
    if more == [] {
      assert steps + more == steps;
    } else {
      var front, last := more[..|more| - 1], more[|more| - 1];
      RunOn(w, steps, front);
      RunMore(w, steps + front, last);
      assert steps + more == steps + front + [last];
    }
  }

  lemma ChosenOfNothing(servers: seq<string>)
    ensures Chosen(servers, {}) == None
  {
  }

  /** A found edge is kept in every run from here exactly when no hook still
      waits for a listing it asked for before: such a hook assigns what its
      own listing shows, and that may be nothing. */
  lemma EdgeKeptExactly(before: seq<Step>)
    requires Run(EMPTY, before).state.edge.Some?
    ensures var w := Run(EMPTY, before);
            (forall steps :: Run(w, steps).state.edge == w.state.edge) <==> !AwaitsListing(w)
  {
    var w := Run(EMPTY, before);
    if AwaitsListing(w) {
      var id :| id in w.calls && w.calls[id].pc.Listing?;
      ChosenOfNothing(EDGE_SERVERS);
      RunOne(w, Hear(id, Tools({})));
      assert Run(w, [Hear(id, Tools({}))]).state.edge == None;
    } else {
      forall steps ensures Run(w, steps).state.edge == w.state.edge {
        HeldRun(w, steps);
      }
    }
  }

  /** Whether some run from here ends with this fetch run natively. */
  ghost predicate MayRunNatively(w: World, id: Id) {
    exists steps :: id in Run(w, steps).calls && NativeFetch(Run(w, steps).calls[id])
  }

  /** A fetch under way that has gone native, or that waits for what may still send it so. */
  predicate Undecided(call: Call) {
    call.tool.Fetch? && (call.pc.Listing? || call.pc.Policing? || call.pc.Holding? || call.pc == Done(Native))
  }

  /** A fetch not begun needs an edge not found, or one that may yet be lost. */
  predicate MayTurnNative(w: World, id: Id) {
    if id in w.calls then Undecided(w.calls[id]) else w.state.edge.None? || AwaitsListing(w)
  }

  lemma AwaitedBefore(w: World, step: Step)
    requires Next(w, step).state.edge.None? || AwaitsListing(Next(w, step))
    ensures w.state.edge.None? || AwaitsListing(w)
  {
    if w.state.edge.Some? && !AwaitsListing(w) {
      HeldNext(w, w, step);
    }
  }

  lemma UndecidedBefore(w: World, step: Step, id: Id)
    requires Inv(w) && id in w.calls && id in Next(w, step).calls && Undecided(Next(w, step).calls[id])
    ensures Undecided(w.calls[id])
  {
    assert Settled(w, id);
  }

  lemma MayTurnBefore(w: World, step: Step, id: Id)
    requires Inv(w) && MayTurnNative(Next(w, step), id)
    ensures MayTurnNative(w, id)
  {
    if id in w.calls {
      UndecidedBefore(w, step, id);
    } else if id !in Next(w, step).calls {
      AwaitedBefore(w, step);
    }
  }

  lemma {:induction false} MayTurnBeforeRun(w: World, steps: seq<Step>, id: Id)
    requires Inv(w) && MayTurnNative(Run(w, steps), id)
    ensures MayTurnNative(w, id)
    decreases |steps|
  {
    if steps != [] {
      var front := steps[..|steps| - 1];
      InvRun(w, front);
      MayTurnBefore(Run(w, front), steps[|front|], id);
      MayTurnBeforeRun(w, front, id);
    }
  }

  /** The replies that send a fetch that waits native. */
  lemma TurnsNative(w: World, id: Id) returns (steps: seq<Step>)
    requires id in w.calls && Undecided(w.calls[id])
    ensures id in Run(w, steps).calls && NativeFetch(Run(w, steps).calls[id])
  {
    var none, permit, allow := Hear(id, Tools({})), Hear(id, Policy(Some(Observe))), Hear(id, Chose(Allow));
    ChosenOfNothing(EDGE_SERVERS);
    match w.calls[id].pc
    case Listing =>
      RunOne(w, none);
      RunMore(w, [none], permit);
      steps := [none] + [permit];
    case Policing =>
      RunOne(w, permit);
      steps := [permit];
    case Holding =>
      RunOne(w, allow);
      steps := [allow];
    case Done(_) =>
      assert Run(w, []) == w;
      steps := [];
  }

  /** An edge not found stays so, and a hook that still waits may lose it. */
  lemma LosesEdge(w: World) returns (steps: seq<Step>)
    requires w.state.edge.None? || AwaitsListing(w)
    ensures Run(w, steps).state.edge.None? && Run(w, steps).calls.Keys == w.calls.Keys
  {
    if w.state.edge.None? {
      assert Run(w, []) == w;
      steps := [];
    } else {
      var other :| other in w.calls && w.calls[other].pc.Listing?;
      ChosenOfNothing(EDGE_SERVERS);
      RunOne(w, Hear(other, Tools({})));
      steps := [Hear(other, Tools({}))];
    }
  }

  /** A fetch that begins once the edge is lost, and hears of none. */
  lemma BeginsNative(w: World, id: Id) returns (steps: seq<Step>)
    requires id !in w.calls && MayTurnNative(w, id)
    ensures id in Run(w, steps).calls && NativeFetch(Run(w, steps).calls[id])
  {
    var lost := LosesEdge(w);
    var begun := lost + [Begin(id, Fetch)];
    RunMore(w, lost, Begin(id, Fetch));
    assert Run(w, begun).calls[id].pc == Listing;
    var more := TurnsNative(Run(w, begun), id);
    RunOn(w, begun, more);
    steps := begun + more;
  }

  /** In every world reached, a fetch may yet run natively exactly when it is
      under way and undecided, or not begun and the edge is not found or may be
      lost: a hook still waits for a listing asked for before. */
  lemma NativeAfterExactly(before: seq<Step>, id: Id)
    ensures MayRunNatively(Run(EMPTY, before), id) <==> MayTurnNative(Run(EMPTY, before), id)
  {
    var w := Run(EMPTY, before);
    InvRun(EMPTY, before);
    if MayRunNatively(w, id) {
      var steps :| id in Run(w, steps).calls && NativeFetch(Run(w, steps).calls[id]);
      MayTurnBeforeRun(w, steps, id);
    }
    if MayTurnNative(w, id) {
      if id in w.calls {
        var steps := TurnsNative(w, id);
      } else {
        var steps := BeginsNative(w, id);
      }
    }
  }

  // ----- One call at a time -----

  /** No two hooks wait at once. */
  ghost predicate OneAtATime(w: World) {
    forall i, j | i in w.calls && j in w.calls && !w.calls[i].pc.Done? && !w.calls[j].pc.Done? :: i == j
  }

  ghost predicate Serial(steps: seq<Step>) {
    forall k | 0 <= k <= |steps| :: OneAtATime(Run(EMPTY, steps[..k]))
  }

  predicate Unfound(pc: Pc) {
    pc.Listing? || pc.Policing? || pc.Holding? || pc.Connecting?
  }

  ghost predicate SerialInv(w: World) {
    && (w.found <==> w.state.edge.Some?) && w.late == {}
    && forall id | id in w.calls && Unfound(w.calls[id].pc) :: !w.found
  }

  lemma SerialNext(w: World, step: Step)
    requires SerialInv(w) && Inv(w) && OneAtATime(w) && OneAtATime(Next(w, step))
    ensures SerialInv(Next(w, step))
  {
    assert Settled(w, step.id);
  }

  /** With one call at a time, no fetch ever runs natively once the edge was
      found, and a found edge is never lost. */
  lemma {:induction false} SerialRun(steps: seq<Step>)
    requires Serial(steps)
    ensures SerialInv(Run(EMPTY, steps))
    decreases |steps|
  {
    if steps != [] {
      var front := steps[..|steps| - 1];
      assert forall k | 0 <= k <= |front| :: front[..k] == steps[..k];
      assert steps[..|steps|] == steps;
      SerialRun(front);
      InvRun(EMPTY, front);
      assert OneAtATime(Run(EMPTY, steps[..|front|])) && OneAtATime(Run(EMPTY, steps[..|steps|]));
      SerialNext(Run(EMPTY, front), steps[|front|]);
    }
  }

  /** With hooks interleaved it is otherwise: two fetches ask for the list, the
      second's shows the edge, the first's older one does not, and a third
      fetch runs natively after the edge was found. */
  lemma FoundEdgeLost(listed: set<string>) returns (steps: seq<Step>)
    requires Chosen(EDGE_SERVERS, listed).Some?
    ensures "c" in Run(EMPTY, steps).late
  {
    ChosenOfNothing(EDGE_SERVERS);
    var none := Tools({});
    var begun := [Begin("a", Fetch), Begin("b", Fetch)];
    RunOne(EMPTY, begun[0]);
    RunMore(EMPTY, [begun[0]], begun[1]);
    assert begun == [begun[0]] + [begun[1]];
    var found := begun + [Hear("b", Tools(listed))];
    RunMore(EMPTY, begun, Hear("b", Tools(listed)));
    var lost := found + [Hear("a", none)];
    RunMore(EMPTY, found, Hear("a", none));
    RunMore(EMPTY, lost, Begin("c", Fetch));
    var asked := lost + [Begin("c", Fetch)];
    RunMore(EMPTY, asked, Hear("c", none));
    RunMore(EMPTY, asked + [Hear("c", none)], Hear("c", Policy(Some(Observe))));
    steps := asked + [Hear("c", none)] + [Hear("c", Policy(Some(Observe)))];
  }
}
