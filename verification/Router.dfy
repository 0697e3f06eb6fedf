/** The router: a fetch or search answered through the edge's mediated tools,
    held, refused, or left to the native tool. */
module Router {
  import opened Wrappers

  type Id = string

  const EDGE_SERVERS: seq<string> := ["plugin_commonmeasure_commonmeasure", "commonmeasure"]
  const ROWS_KEPT: nat := 500

  function ToolOf(server: string): string {
    "mcp__" + server + "__context_fetch"
  }

  /** The first server, in order of preference, whose tool is listed. */
  function Chosen(servers: seq<string>, listed: set<string>): Option<string> {
    if servers == [] then None
    else if ToolOf(servers[0]) in listed then Some(servers[0])
    else Chosen(servers[1..], listed)
  }

  lemma ChosenOfTwo(x: string, y: string, listed: set<string>)
    ensures Chosen([x, y], listed)
         == if "mcp__" + x + "__context_fetch" in listed then Some(x)
            else if "mcp__" + y + "__context_fetch" in listed then Some(y) else None
  {
    assert [x, y][1..] == [y] && [y][1..] == [];
    assert Chosen([y], listed) == if ToolOf(y) in listed then Some(y) else Chosen([], listed);
  }

  /** The plugin's own server is preferred, when its tool is listed, to one the person set up. */
  lemma ChosenExactly(listed: set<string>)
    ensures var own, other := "plugin_commonmeasure_commonmeasure", "commonmeasure";
            Chosen(EDGE_SERVERS, listed)
            == if "mcp__" + own + "__context_fetch" in listed then Some(own)
               else if "mcp__" + other + "__context_fetch" in listed then Some(other) else None
  {
    ChosenOfTwo("plugin_commonmeasure_commonmeasure", "commonmeasure", listed);
    hide Chosen;
    assert EDGE_SERVERS == ["plugin_commonmeasure_commonmeasure", "commonmeasure"];
  }

  datatype Tool = Fetch | Search
  datatype Mode = Observe | Prefer | Strict
  datatype Choice = Route | Allow | Refuse
  /** Native: the native tool runs. Answered: the edge replied, and the module answers from that, by a result or a refusal. */
  datatype Outcome = Native | Denied | Answered

  /** What the host answers while a hook waits. A search asks for a provider, None when none is configured. */
  datatype Reply =
    | Tools(listed: set<string>)
    | Policy(mode: Option<Mode>)
    | Chose(choice: Choice)
    | Connected(server: Option<string>)
    | Provider(provider: Option<string>)
    | Carried(lines: seq<string>)
    | Threw

  /** Where a call's hook waits. */
  datatype Pc =
    | Listing
    | Policing
    | Holding
    | Connecting
    | Choosing(server: string)
    | Calling(server: string)
    | Done(outcome: Outcome)

  datatype Row = Row(id: Id, facts: seq<string>)

  datatype State = State(edge: Option<string>, answered: set<Id>, rows: seq<Row>)

  predicate HasRow(rows: seq<Row>, id: Id) {
    exists i | 0 <= i < |rows| :: rows[i].id == id
  }

  /** Set in a map that keeps the order of insertion. */
  function WithRow(rows: seq<Row>, row: Row): (r: seq<Row>)
    ensures |r| == |rows| + if HasRow(rows, row.id) then 0 else 1
  {
    if rows == [] then [row]
    else if rows[0].id == row.id then [row] + rows[1..]
    else
      assert HasRow(rows, row.id) == HasRow(rows[1..], row.id) by {
        assert forall i | 0 <= i < |rows[1..]| :: rows[1..][i] == rows[i + 1];
        assert forall i | 1 <= i < |rows| :: rows[i] == rows[1..][i - 1];
      }
      [rows[0]] + WithRow(rows[1..], row)
  }

  function Remembered(rows: seq<Row>, id: Id, lines: seq<string>): seq<Row> {
    if lines == [] then rows
    else
      var r := WithRow(rows, Row(id, lines));
      if |r| > ROWS_KEPT then r[1..] else r
  }

  lemma {:induction false} WithRowAround(before: seq<Row>, held: Row, after: seq<Row>, row: Row)
    requires !HasRow(before, row.id) && held.id == row.id
    ensures WithRow(before + [held] + after, row) == before + [row] + after
  {
    var rows := before + [held] + after;
    if before == [] {
      assert rows[1..] == after;
    } else {
      assert rows[0] == before[0] && rows[1..] == before[1..] + [held] + after;
      assert forall i | 0 <= i < |before| - 1 :: before[1..][i] == before[i + 1];
      WithRowAround(before[1..], held, after, row);
      assert [before[0]] + (before[1..] + [row] + after) == before + [row] + after;
    }
  }

  /** A call's later row replaces its earlier one, where that is. */
  lemma RowIsReplaced(before: seq<Row>, held: Row, after: seq<Row>, lines: seq<string>)
    requires !HasRow(before, held.id) && lines != [] && |before + [held] + after| <= ROWS_KEPT
    ensures Remembered(before + [held] + after, held.id, lines) == before + [Row(held.id, lines)] + after
  {
    WithRowAround(before, held, after, Row(held.id, lines));
  }

  /** Once the edge is found or not: a fetch goes through it, a search asks it for a provider first. */
  function Found(tool: Tool, edge: Option<string>): Pc {
    match edge
    case None => if tool.Fetch? then Policing else Done(Native)
    case Some(server) => if tool.Fetch? then Calling(server) else Choosing(server)
  }

  function Began(s: State, tool: Tool): Pc {
    if s.edge.Some? then Found(tool, s.edge) else Listing
  }

  /** One continuation of a hook, from the reply it waited for to its next wait. */
  function Advance(s: State, tool: Tool, id: Id, pc: Pc, reply: Reply): (State, Pc) {
    match (pc, reply)
    case (Done(_), _) => (s, pc)
    case (Listing, Tools(listed)) =>
      var edge := Chosen(EDGE_SERVERS, listed);
      (s.(edge := edge), Found(tool, edge))
    case (Policing, Policy(mode)) =>
      (s, if mode.None? then Done(Denied) else if mode.value.Strict? then Holding else Done(Native))
    case (Holding, Chose(choice)) =>
      (s, if choice.Route? then Connecting else if choice.Allow? then Done(Native) else Done(Denied))
    case (Connecting, Connected(server)) =>
      (s, if server.Some? then Calling(server.value) else Done(Denied))
    case (Choosing(server), Provider(provider)) =>
      (s, if provider.Some? then Calling(server) else Done(Native))
    case (Calling(_), Carried(lines)) =>
      (s.(answered := s.answered + {id}, rows := Remembered(s.rows, id, lines)), Done(Answered))
    case _ => (s, Done(Denied))
  }

  /** What the host would answer a call, whatever it comes to ask. */
  datatype Host = Host(
    listed: set<string>, mode: Option<Mode>, choice: Choice, connected: Option<string>,
    provider: Option<string>, carried: Option<seq<string>>)
  {
    function Reply(pc: Pc): Reply {
      match pc
      case Listing => Tools(listed)
      case Policing => Policy(mode)
      case Holding => Chose(choice)
      case Connecting => Connected(connected)
      case Choosing(_) => Provider(provider)
      case Calling(_) => if carried.Some? then Carried(carried.value) else Threw
      case Done(_) => Threw
    }
  }

  function Rank(pc: Pc): nat {
    match pc
    case Listing => 5
    case Policing => 4
    case Holding => 3
    case Connecting => 2
    case Choosing(_) => 2
    case Calling(_) => 1
    case Done(_) => 0
  }

  /** The continuations of one hook, one after another with nothing between them. */
  function Alone(s: State, tool: Tool, id: Id, pc: Pc, host: Host): (State, Pc)
    decreases Rank(pc)
  {
    if pc.Done? then (s, pc)
    else
      var (next, then_) := Advance(s, tool, id, pc, host.Reply(pc));
      Alone(next, tool, id, then_, host)
  }

  // ----- A whole call, by what the host would answer -----

  function ByEdge(host: Host): Outcome {
    if host.carried.Some? then Answered else Denied
  }

  /** How a fetch ends: through the edge when there is one, refused when that
      throws; without one natively in a mode that permits it, and in strict mode
      as the person decides, by connecting the edge first when they so choose. */
  function FetchEnds(edge: Option<string>, host: Host): Outcome {
    if edge.Some? then ByEdge(host)
    else if host.mode == None then Denied
    else if host.mode != Some(Strict) then Native
    else if host.choice == Allow then Native
    else if host.choice == Route && host.connected.Some? then ByEdge(host)
    else Denied
  }

  /** How a search ends: natively without an edge, or a provider for it to ask. */
  function SearchEnds(edge: Option<string>, host: Host): Outcome {
    if edge.None? || host.provider.None? then Native else ByEdge(host)
  }

  /** The module after a call that ends so. */
  function EndsIn(s: State, id: Id, host: Host, ends: Outcome): (State, Pc) {
    if ends == Answered && host.carried.Some? then
      (s.(answered := s.answered + {id}, rows := Remembered(s.rows, id, host.carried.value)), Done(Answered))
    else (s, Done(ends))
  }

  lemma CallingEnds(s: State, tool: Tool, id: Id, server: string, host: Host)
    ensures Alone(s, tool, id, Calling(server), host) == EndsIn(s, id, host, ByEdge(host))
  {
    hide Remembered;
  }

  lemma HeldEnds(s: State, id: Id, host: Host)
    ensures host.mode == Some(Strict) ==> Alone(s, Fetch, id, Holding, host) == EndsIn(s, id, host, FetchEnds(None, host))
  {
    hide Remembered;
    if host.connected.Some? {
      CallingEnds(s, Fetch, id, host.connected.value, host);
    }
  }

  lemma UnfoundEnds(s: State, id: Id, host: Host)
    ensures Alone(s, Fetch, id, Policing, host) == EndsIn(s, id, host, FetchEnds(None, host))
  {
    hide Remembered;
    HeldEnds(s, id, host);
  }

  lemma FoundEnds(s: State, tool: Tool, id: Id, edge: Option<string>, host: Host)
    ensures Alone(s, tool, id, Found(tool, edge), host)
         == EndsIn(s, id, host, if tool.Fetch? then FetchEnds(edge, host) else SearchEnds(edge, host))
  {
    hide Remembered;
    UnfoundEnds(s, id, host);
    if edge.Some? {
      CallingEnds(s, tool, id, edge.value, host);
    }
  }

  /** A call made alone ends so, keeps the edge it found, and is remembered, its
      id and its rows, exactly when the edge answered it. */
  lemma CallEnds(s: State, tool: Tool, id: Id, host: Host)
    ensures var edge := if s.edge.Some? then s.edge else Chosen(EDGE_SERVERS, host.listed);
            Alone(s, tool, id, Began(s, tool), host)
            == EndsIn(s.(edge := edge), id, host, if tool.Fetch? then FetchEnds(edge, host) else SearchEnds(edge, host))
  {
    hide Chosen, EndsIn, FetchEnds, SearchEnds;
    var edge := if s.edge.Some? then s.edge else Chosen(EDGE_SERVERS, host.listed);
    FoundEnds(s.(edge := edge), tool, id, edge, host);
    assert s.edge.Some? ==> s.(edge := edge) == s;
  }

  class Module {
    var edge: Option<string>
    var answered: set<Id>
    var rows: seq<Row>

    constructor ()
      ensures Current() == State(None, {}, [])
    {
      edge, answered, rows := None, {}, [];
    }

    function Current(): State
      reads this
    {
      State(edge, answered, rows)
    }

    method FindEdge(host: Host) returns (server: Option<string>)
      modifies this
      ensures server == edge == (if old(edge).Some? then old(edge) else Chosen(EDGE_SERVERS, host.listed))
      ensures answered == old(answered) && rows == old(rows)
    {
      if edge.None? {
        edge := Chosen(EDGE_SERVERS, host.listed);
      }
      return edge;
    }

    method Remember(id: Id, lines: seq<string>)
      modifies this
      ensures rows == Remembered(old(rows), id, lines) && edge == old(edge) && answered == old(answered)
    {
      if lines == [] {
        return;
      }
      rows := WithRow(rows, Row(id, lines));
      if |rows| > ROWS_KEPT {
        rows := rows[1..];
      }
    }

    /** Through `server`; refused when the call throws. */
    method Through(tool: Tool, id: Id, server: string, host: Host) returns (outcome: Outcome)
      modifies this
      ensures (Current(), Done(outcome)) == Alone(old(Current()), tool, id, Calling(server), host)
    {
      if host.carried.None? {
        return Denied;
      }
      answered := answered + {id};
      Remember(id, host.carried.value);
      return Answered;
    }

    method RouteFetch(id: Id, host: Host) returns (outcome: Outcome)
      modifies this
      ensures (Current(), Done(outcome)) == Alone(old(Current()), Fetch, id, Began(old(Current()), Fetch), host)
    {
      var server := FindEdge(host);
      if server.Some? {
        outcome := Through(Fetch, id, server.value, host);
        return;
      }
      if host.mode.None? {
        return Denied;
      }
      if host.mode.value.Strict? {
        outcome := HoldAndAsk(id, host);
        return;
      }
      return Native;
    }

    method HoldAndAsk(id: Id, host: Host) returns (outcome: Outcome)
      modifies this
      ensures (Current(), Done(outcome)) == Alone(old(Current()), Fetch, id, Holding, host)
    {
      if host.choice.Route? {
        if host.connected.None? {
          return Denied;
        }
        outcome := Through(Fetch, id, host.connected.value, host);
        return;
      }
      return if host.choice.Allow? then Native else Denied;
    }

    method RouteSearch(id: Id, host: Host) returns (outcome: Outcome)
      modifies this
      ensures (Current(), Done(outcome)) == Alone(old(Current()), Search, id, Began(old(Current()), Search), host)
    {
      var server := FindEdge(host);
      if server.None? || host.provider.None? {
        return Native;
      }
      outcome := Through(Search, id, server.value, host);
    }

    /** The hook after a tool: whether the crossing is passed on to be recorded. */
    method PostToolUse(id: Id) returns (passedOn: bool)
      modifies this
      ensures passedOn <==> id !in old(answered)
      ensures answered == old(answered) - {id} && edge == old(edge) && rows == old(rows)
    {
      passedOn := id !in answered;
      answered := answered - {id};
    }
  }

  // ----- Rows -----

  function AllRemembered(rows: seq<Row>, added: seq<Row>): seq<Row>
    decreases |added|
  {
    if added == [] then rows
    else AllRemembered(Remembered(rows, added[0].id, added[0].facts), added[1..])
  }

  /** The last rows of those added. */
  function Last(rows: seq<Row>): seq<Row> {
    if |rows| <= ROWS_KEPT then rows else rows[|rows| - ROWS_KEPT..]
  }

  lemma {:induction false} NewRowLast(rows: seq<Row>, row: Row)
    requires !HasRow(rows, row.id)
    ensures WithRow(rows, row) == rows + [row]
  {
    if rows != [] {
      assert !HasRow(rows[1..], row.id) by {
        assert forall i | 0 <= i < |rows[1..]| :: rows[1..][i] == rows[i + 1];
      }
      NewRowLast(rows[1..], row);
    }
  }

  lemma LastAmong(rows: seq<Row>, id: Id)
    requires !HasRow(rows, id)
    ensures !HasRow(Last(rows), id)
  {
    if |rows| > ROWS_KEPT {
      assert forall i | 0 <= i < |Last(rows)| :: Last(rows)[i] == rows[|rows| - ROWS_KEPT + i];
    }
  }

  /** A row not held yet is remembered last. */
  lemma RememberedLast(before: seq<Row>, row: Row)
    requires !HasRow(before, row.id) && row.facts != []
    ensures Remembered(Last(before), row.id, row.facts) == Last(before + [row])
  {
    var kept := Last(before);
    LastAmong(before, row.id);
    NewRowLast(kept, row);
    if |before| < ROWS_KEPT {
      assert kept == before;
    } else {
      assert kept == before[|before| - ROWS_KEPT..];
      assert (kept + [row])[1..] == (before + [row])[|before| + 1 - ROWS_KEPT..];
    }
  }

  /** Of calls with distinct ids that had facts, the last five hundred are held, in order. */
  lemma {:induction false} LastRowsHeld(before: seq<Row>, added: seq<Row>)
    requires forall i | 0 <= i < |added| :: added[i].facts != []
    requires forall i, j | 0 <= i < j < |before + added| :: (before + added)[i].id != (before + added)[j].id
    ensures AllRemembered(Last(before), added) == Last(before + added)
    decreases |added|
  {
    if added == [] {
      assert before + added == before;
    } else {
      assert before + [added[0]] + added[1..] == before + added;
      RowIsNew(before, added);
      RememberedLast(before, added[0]);
      LastRowsHeld(before + [added[0]], added[1..]);
    }
  }

  lemma RowIsNew(before: seq<Row>, added: seq<Row>)
    requires added != []
    requires forall i, j | 0 <= i < j < |before + added| :: (before + added)[i].id != (before + added)[j].id
    ensures !HasRow(before, added[0].id)
  {
    forall i | 0 <= i < |before| ensures before[i].id != added[0].id {
      assert (before + added)[i] == before[i] && (before + added)[|before|] == added[0];
    }
  }

  /** Never more rows than are kept, whatever ids recur. */
  lemma {:induction false} RowsBounded(rows: seq<Row>, added: seq<Row>)
    requires |rows| <= ROWS_KEPT
    ensures |AllRemembered(rows, added)| <= ROWS_KEPT
    decreases |added|
  {
    if added != [] {
      RowsBounded(Remembered(rows, added[0].id, added[0].facts), added[1..]);
    }
  }
}
