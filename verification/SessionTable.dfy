/** The hosted edge's sessions: minted by `initialize`, opened by the first
    request that is not lifecycle, answered only to who minted them. */
module SessionTable {
  import opened Wrappers

  type SessionId = string

  /** Seconds on a clock that never goes back. */
  type Time = real

  const IDLE_TIMEOUT: Time := 1800.0

  datatype Bearer = Subject(subject: string) | EdgeToken(issuedTo: string)

  /** A parsed JSON-RPC message: an object or not, its id if it has one, its method if that is text. */
  datatype Message = Message(isObject: bool, id: Option<int>, call: Option<string>)

  /** `heard` is every message the session's server was given, in order. */
  datatype SessionState = Pending(initialize: string) | Open(heard: seq<string>)

  datatype Session = Session(state: SessionState, host: string, bearer: Bearer, lastUsed: Time)

  datatype Answer =
    | ParseError
    | NothingOwed
    | Lifecycle(call: string)
    | NotOpened
    | FromServer

  /** The answer given without a server: none when the session must be opened
      for the message; the inner none is a notification, owed nothing. */
  function LifecycleAnswer(m: Message): Option<Option<string>> {
    if !m.isObject then None
    else if m.id.None? then Some(None)
    else if m.call.None? then None
    else if m.call.value == "initialize" || m.call.value == "ping" || m.call.value == "tools/list" then Some(m.call)
    else None
  }

  /** A request with `body` at a session it found; `opens` is whether the server could be opened. */
  function Handled(s: Session, body: string, message: Option<Message>, opens: bool, now: Time): (Session, Answer) {
    var used := s.(lastUsed := now);
    match message
    case None => (used, ParseError)
    case Some(m) =>
      match used.state
      case Pending(initialize) =>
        (match LifecycleAnswer(m)
         case Some(None) => (used, NothingOwed)
         case Some(Some(call)) => (used, Lifecycle(call))
         case None =>
           if !opens then (used, NotOpened) else (used.(state := Open([initialize, body])), FromServer))
      case Open(heard) => (used.(state := Open(heard + [body])), FromServer)
  }

  predicate OwnedBy(s: Session, host: string, bearer: Bearer) {
    s.host == host && s.bearer == bearer
  }

  predicate Mints(message: Option<Message>) {
    message.Some? && message.value.isObject && message.value.call == Some("initialize")
  }

  predicate Idle(s: Session, now: Time) {
    now - s.lastUsed >= IDLE_TIMEOUT
  }

  /** The sessions of a table by their identifiers. */
  type Table = map<SessionId, Session>

  /** The session of `id`, when this bearer opened it on this endpoint. */
  function Found(table: Table, id: SessionId, host: string, bearer: Bearer): Option<Session> {
    if id in table && OwnedBy(table[id], host, bearer) then Some(table[id]) else None
  }

  /** The table after a message without a session; `drawn` is the identifier drawn for a new one. */
  function WithMinted(
    table: Table, drawn: SessionId, body: string, message: Option<Message>, host: string, bearer: Bearer, now: Time): Table
  {
    if Mints(message) then table[drawn := Session(Pending(body), host, bearer, now)] else table
  }

  function WithHandled(
    table: Table, id: SessionId, host: string, bearer: Bearer, body: string, message: Option<Message>, opens: bool, now: Time):
    (Table, Option<Answer>)
  {
    match Found(table, id, host, bearer)
    case None => (table, None)
    case Some(s) =>
      var (after, answer) := Handled(s, body, message, opens, now);
      (table[id := after], Some(answer))
  }

  function WithEnded(table: Table, id: SessionId, host: string, bearer: Bearer): Table {
    if Found(table, id, host, bearer).Some? then table - {id} else table
  }

  /** The table a sweep leaves: a session whose lock it is refused (`busy`) stays,
      be it held or poisoned. */
  function Swept(table: Table, busy: set<SessionId>, now: Time): Table {
    map id | id in table && (id in busy || !Idle(table[id], now)) :: table[id]
  }

  class HostedSession {
    var state: SessionState
    const host: string
    const bearer: Bearer
    var lastUsed: Time

    function Value(): Session
      reads this
    {
      Session(state, host, bearer, lastUsed)
    }

    constructor (initialize: string, host: string, bearer: Bearer, now: Time)
      ensures Value() == Session(Pending(initialize), host, bearer, now)
    {
      this.state, this.host, this.bearer, this.lastUsed := Pending(initialize), host, bearer, now;
    }

    /** One request, the session's lock held. */
    method Handle(body: string, message: Option<Message>, opens: bool, now: Time) returns (answer: Answer)
      modifies this
      ensures (Value(), answer) == Handled(old(Value()), body, message, opens, now)
    {
      lastUsed := now;
      if message.None? {
        return ParseError;
      }
      if state.Pending? {
        var without := LifecycleAnswer(message.value);
        if without.Some? {
          return if without.value.None? then NothingOwed else Lifecycle(without.value.value);
        }
        if !opens {
          return NotOpened;
        }
        // The server is told what the client was told, and answers nobody.
        state := Open([state.initialize]);
        assert state.heard + [body] == [state.heard[0], body];
      }
      state := Open(state.heard + [body]);
      return FromServer;
    }
  }

  class HostedEdge {
    var sessions: map<SessionId, HostedSession>

    /** No two identifiers share a session. */
    ghost predicate Valid()
      reads this
    {
      forall a, b | a in sessions && b in sessions && a != b :: sessions[a] != sessions[b]
    }

    ghost function Values(): Table
      reads this, sessions.Values
    {
      map id | id in sessions :: sessions[id].Value()
    }

    constructor ()
      ensures Valid() && Values() == map[]
    {
      sessions := map[];
    }

    method Find(id: SessionId, host: string, bearer: Bearer) returns (r: Option<HostedSession>)
      ensures r.Some? <==> Found(Values(), id, host, bearer).Some?
      ensures r.Some? ==> id in sessions && r.value == sessions[id]
    {
      if id in sessions && sessions[id].host == host && sessions[id].bearer == bearer {
        return Some(sessions[id]);
      }
      return None;
    }

    /** A message without a session: only `initialize` mints. */
    method Mint(drawn: SessionId, body: string, message: Option<Message>, host: string, bearer: Bearer, now: Time)
      returns (minted: bool)
      requires Valid()
      modifies this
      ensures Valid() && minted == Mints(message)
      ensures Values() == WithMinted(old(Values()), drawn, body, message, host, bearer, now)
    {
      if !Mints(message) {
        return false;
      }
      var session := new HostedSession(body, host, bearer, now);
      sessions := sessions[drawn := session];
      return true;
    }

    /** A message to the session of `id`; none when it is told the session is unknown. */
    method Post(
      id: SessionId, host: string, bearer: Bearer, body: string, message: Option<Message>, opens: bool, now: Time)
      returns (answer: Option<Answer>)
      requires Valid()
      modifies sessions.Values
      ensures sessions == old(sessions)
      ensures (Values(), answer) == WithHandled(old(Values()), id, host, bearer, body, message, opens, now)
    {
      var found := Find(id, host, bearer);
      if found.None? {
        return None;
      }
      var handled := found.value.Handle(body, message, opens, now);
      assert Values() == old(Values())[id := found.value.Value()];
      return Some(handled);
    }

    method End(id: SessionId, host: string, bearer: Bearer) returns (ended: bool)
      requires Valid()
      modifies this
      ensures Valid() && ended == Found(old(Values()), id, host, bearer).Some?
      ensures Values() == WithEnded(old(Values()), id, host, bearer)
    {
      var found := Find(id, host, bearer);
      if found.None? {
        return false;
      }
      sessions := sessions - {id};
      return true;
    }

    method EndIdle(now: Time, busy: set<SessionId>)
      requires Valid()
      modifies this
      ensures Valid() && Values() == Swept(old(Values()), busy, now)
    {
      sessions := map id | id in sessions && (id in busy || now - sessions[id].lastUsed < IDLE_TIMEOUT) :: sessions[id];
    }
  }
}

/** Requests of any number of clients interleaved: each finds its session,
    takes its lock and is answered in steps of its own. */
module SessionRuns {
  import opened Wrappers
  import opened SessionTable

  datatype Purpose = Post(body: string, message: Option<Message>) | Delete

  /** A request that found its session; `locked` is when it took the session's lock. */
  datatype Call = Call(id: SessionId, host: string, bearer: Bearer, purpose: Purpose, locked: Option<Time>)

  /** A request that took its session's lock at `at`, and its answer, none when
      answering it panicked; `heard` is whether the session's server was given it. */
  datatype Entry = Entry(
    id: SessionId, host: string, bearer: Bearer, body: string, message: Option<Message>,
    answer: Option<Answer>, heard: bool, at: Time)

  datatype Minted = Minted(host: string, bearer: Bearer, initialize: string, at: Time)

  /** `sessions` are all ever minted, `table` the ids still in the table, `log` every request that ended. */
  datatype World = World(
    sessions: Table, table: set<SessionId>, minted: map<SessionId, Minted>, calls: map<nat, Call>, log: seq<Entry>)

  /** A sweep also leaves the sessions whose lock a lookup holds just then (`looked`). */
  datatype Step =
    | Mint(drawn: SessionId, body: string, message: Option<Message>, host: string, bearer: Bearer, now: Time)
    | Find(n: nat, id: SessionId, host: string, bearer: Bearer, purpose: Purpose)
    | Lock(n: nat, now: Time)
    | Reply(n: nat, opens: bool)
    | Panic(n: nat, heard: bool)
    | Remove(n: nat)
    | Sweep(now: Time, looked: set<SessionId>)

  const EMPTY := World(map[], {}, map[], map[], [])

  /** The sessions in the table, as the edge holds them. */
  function Tabled(w: World): Table {
    map id | id in w.table && id in w.sessions :: w.sessions[id]
  }

  /** The sessions whose lock a call holds. */
  function Busy(calls: map<nat, Call>): set<SessionId> {
    set n | n in calls && calls[n].locked.Some? :: calls[n].id
  }

  /** The sessions whose lock a panic poisoned: it is refused to every later sweep. */
  function Poisoned(log: seq<Entry>): set<SessionId> {
    set i | 0 <= i < |log| && log[i].answer.None? :: log[i].id
  }

  predicate Answered(w: World, id: SessionId, host: string, bearer: Bearer) {
    Found(Tabled(w), id, host, bearer).Some?
  }

  predicate Waits(w: World, n: nat) {
    n in w.calls && w.calls[n].purpose.Post? && w.calls[n].locked.None?
  }

  predicate Served(w: World, n: nat) {
    n in w.calls && w.calls[n].purpose.Post? && w.calls[n].locked.Some? && w.calls[n].id in w.sessions
  }

  /** What the call of a held session is answered, and the session after. */
  function Replied(w: World, n: nat, opens: bool): (Session, Entry)
    requires Served(w, n)
  {
    var c := w.calls[n];
    var (after, answer) := Handled(w.sessions[c.id], c.purpose.body, c.purpose.message, opens, c.locked.value);
    (after, Entry(c.id, c.host, c.bearer, c.purpose.body, c.purpose.message, Some(answer), answer == FromServer, c.locked.value))
  }

  /** The session a panic leaves: as if it had answered, when the panic was the
      server's own, over a message it was given; otherwise as it was but for its use. */
  function Broken(w: World, n: nat, heard: bool): (Session, Entry)
    requires Served(w, n)
  {
    var (after, e) := Replied(w, n, true);
    if heard && e.heard then (after, e.(answer := None))
    else (w.sessions[e.id].(lastUsed := e.at), e.(answer := None, heard := false))
  }

  /** The call of `n` is over, its session's lock free. */
  function Over(w: World, n: nat, after: Session, entry: Entry): World {
    w.(sessions := w.sessions[entry.id := after], calls := w.calls - {n}, log := w.log + [entry])
  }

  /** A step that cannot be taken changes nothing. */
  function Next(w: World, s: Step): World {
    match s
    case Mint(drawn, body, message, host, bearer, now) =>
      if !Mints(message) || drawn in w.sessions then w
      else
        var table := WithMinted(Tabled(w), drawn, body, message, host, bearer, now);
        w.(sessions := w.sessions + table, table := table.Keys,
           minted := w.minted[drawn := Minted(host, bearer, body, now)])
    case Find(n, id, host, bearer, purpose) =>
      if n in w.calls || !Answered(w, id, host, bearer) then w
      else w.(calls := w.calls[n := Call(id, host, bearer, purpose, None)])
    case Lock(n, now) =>
      if Waits(w, n) && w.calls[n].id !in Busy(w.calls) then
        w.(calls := w.calls[n := w.calls[n].(locked := Some(now))])
      else w
    case Reply(n, opens) =>
      if Served(w, n) then Over(w, n, Replied(w, n, opens).0, Replied(w, n, opens).1) else w
    case Panic(n, heard) =>
      if Served(w, n) then Over(w, n, Broken(w, n, heard).0, Broken(w, n, heard).1) else w
    case Remove(n) =>
      if n in w.calls && w.calls[n].purpose.Delete? then
        w.(table := (Tabled(w) - {w.calls[n].id}).Keys, calls := w.calls - {n})
      else w
    case Sweep(now, looked) =>
      w.(table := Swept(Tabled(w), Busy(w.calls) + Poisoned(w.log) + looked, now).Keys)
  }

  function Run(w: World, steps: seq<Step>): World
    decreases |steps|
  {
    if steps == [] then w else Run(Next(w, steps[0]), steps[1..])
  }

  /** The bodies the server of `id` was given, in order. */
  function Bodies(log: seq<Entry>, id: SessionId): seq<string> {
    if log == [] then []
    else
      var e := log[|log| - 1];
      Bodies(log[..|log| - 1], id) + if e.id == id && e.heard then [e.body] else []
  }

  /** What a session's state must be, by what its server was given. */
  function StateBy(log: seq<Entry>, id: SessionId, initialize: string): SessionState {
    if Bodies(log, id) == [] then Pending(initialize) else Open([initialize] + Bodies(log, id))
  }

  /** When `id` was last used: when the last request that ended took its lock, or when it was minted. */
  function LastUse(log: seq<Entry>, id: SessionId, minted: Time): Time {
    if log == [] then minted
    else if log[|log| - 1].id == id then log[|log| - 1].at
    else LastUse(log[..|log| - 1], id, minted)
  }

  /** A session as its minting and the log tell it. */
  function ByLog(log: seq<Entry>, id: SessionId, m: Minted): Session {
    Session(StateBy(log, id, m.initialize), m.host, m.bearer, LastUse(log, id, m.at))
  }

  predicate SessionOk(w: World, id: SessionId)
    requires id in w.sessions
  {
    id in w.minted && w.sessions[id] == ByLog(w.log, id, w.minted[id])
  }

  predicate CallOk(minted: map<SessionId, Minted>, c: Call) {
    c.id in minted && c.host == minted[c.id].host && c.bearer == minted[c.id].bearer
  }

  predicate EntryOk(minted: map<SessionId, Minted>, e: Entry) {
    e.id in minted && e.host == minted[e.id].host && e.bearer == minted[e.id].bearer
  }

  /** What a request is answered, by its message and whether its session is
      `pending`, its server not yet opened. A message that does not parse is an
      error; while pending, one without an id is owed nothing, and `initialize`,
      `ping` and `tools/list` are answered without the server. All else is for
      the server, unless it cannot be opened. */
  predicate Proper(pending: bool, e: Entry) {
    var parsed := e.message.Some?;
    var notice := pending && parsed && e.message.value.isObject && e.message.value.id.None?;
    var lifecycle := pending && parsed && e.message.value.isObject && e.message.value.id.Some?
                     && e.message.value.call in {Some("initialize"), Some("ping"), Some("tools/list")};
    && (e.heard ==> parsed && !notice && !lifecycle)
    && (e.answer.Some? ==>
          match e.answer.value
          case ParseError => !parsed && !e.heard
          case NothingOwed => notice && !e.heard
          case Lifecycle(call) => lifecycle && e.message.value.call == Some(call) && !e.heard
          case NotOpened => pending && parsed && !notice && !lifecycle && !e.heard
          case FromServer => e.heard)
  }

  predicate AnswerOk(log: seq<Entry>, i: nat)
    requires i < |log|
  {
    Proper(Bodies(log[..i], log[i].id) == [], log[i])
  }

  predicate LogOk(minted: map<SessionId, Minted>, log: seq<Entry>) {
    && (forall i | 0 <= i < |log| :: EntryOk(minted, log[i]))
    && (forall i | 0 <= i < |log| :: AnswerOk(log, i))
  }

  predicate SessionsOk(w: World) {
    && w.sessions.Keys == w.minted.Keys && w.table <= w.sessions.Keys
    && (forall id | id in w.sessions :: SessionOk(w, id))
  }

  predicate CallsOk(minted: map<SessionId, Minted>, calls: map<nat, Call>) {
    forall n | n in calls :: CallOk(minted, calls[n])
  }

  predicate Inv(w: World) {
    SessionsOk(w) && CallsOk(w.minted, w.calls) && LogOk(w.minted, w.log)
  }

  lemma LogExtended(minted: map<SessionId, Minted>, log: seq<Entry>, e: Entry)
    requires LogOk(minted, log) && EntryOk(minted, e) && AnswerOk(log + [e], |log|)
    ensures LogOk(minted, log + [e])
  {
    forall i | 0 <= i < |log| ensures AnswerOk(log + [e], i) {
      assert AnswerOk(log, i) && (log + [e])[..i] == log[..i];
    }
  }

  /** The session after a request, by whether its server was given it: first its
      `initialize`, when it was pending. */
  predicate Follows(s: Session, after: Session, e: Entry) {
    && after.host == s.host && after.bearer == s.bearer && after.lastUsed == e.at && Proper(s.state.Pending?, e)
    && if !e.heard then after.state == s.state
       else
         match s.state
         case Pending(initialize) => after.state == Open([initialize, e.body])
         case Open(heard) => after.state == Open(heard + [e.body])
  }

  lemma RepliedFollows(w: World, n: nat, opens: bool)
    requires Served(w, n) && CallOk(w.minted, w.calls[n])
    ensures var (after, e) := Replied(w, n, opens);
            && e.id == w.calls[n].id && Follows(w.sessions[e.id], after, e) && EntryOk(w.minted, e)
            && e.answer.Some? && (opens ==> e.answer != Some(NotOpened))
  {
  }

  lemma BrokenFollows(w: World, n: nat, heard: bool)
    requires Served(w, n) && CallOk(w.minted, w.calls[n])
    ensures var (after, e) := Broken(w, n, heard);
            e.id == w.calls[n].id && Follows(w.sessions[e.id], after, e) && EntryOk(w.minted, e)
  {
    RepliedFollows(w, n, true);
  }

  /** One more request of a session, in the state its log gives it. */
  lemma FollowsByLog(log: seq<Entry>, m: Minted, after: Session, e: Entry)
    requires Follows(ByLog(log, e.id, m), after, e)
    ensures after == ByLog(log + [e], e.id, m) && AnswerOk(log + [e], |log|)
  {
    var longer := log + [e];
    assert longer[..|log|] == log;
    assert Bodies(longer, e.id) == Bodies(log, e.id) + if e.heard then [e.body] else [];
    assert after.state == StateBy(longer, e.id, m.initialize);
    assert after.lastUsed == LastUse(longer, e.id, m.at);
  }

  lemma OthersByLog(log: seq<Entry>, e: Entry, id: SessionId, m: Minted)
    requires e.id != id
    ensures ByLog(log + [e], id, m) == ByLog(log, id, m)
  {
    assert (log + [e])[..|log|] == log;
    assert StateBy(log + [e], id, m.initialize) == StateBy(log, id, m.initialize);
    assert LastUse(log + [e], id, m.at) == LastUse(log, id, m.at);
  }

  lemma SessionsOver(w: World, n: nat, after: Session, e: Entry)
    requires SessionsOk(w) && e.id in w.sessions && Follows(w.sessions[e.id], after, e)
    ensures SessionsOk(Over(w, n, after, e)) && AnswerOk(w.log + [e], |w.log|)
  {
    var v := Over(w, n, after, e);
    assert SessionOk(w, e.id);
    FollowsByLog(w.log, w.minted[e.id], after, e);
    forall id | id in v.sessions ensures SessionOk(v, id) {
      assert SessionOk(w, id);
      if id != e.id { OthersByLog(w.log, e, id, w.minted[id]); }
    }
  }

  lemma InvOver(w: World, n: nat, after: Session, e: Entry)
    requires Inv(w) && e.id in w.sessions && Follows(w.sessions[e.id], after, e) && EntryOk(w.minted, e)
    ensures Inv(Over(w, n, after, e))
  {
    SessionsOver(w, n, after, e);
    LogExtended(w.minted, w.log, e);
    assert forall m | m in w.calls :: CallOk(w.minted, w.calls[m]);
  }

  lemma InvServed(w: World, s: Step)
    requires Inv(w) && (s.Reply? || s.Panic?)
    ensures Inv(Next(w, s))
  {
    hide Replied, Broken, Follows, EntryOk;
    if Served(w, s.n) {
      assert CallOk(w.minted, w.calls[s.n]);
      if s.Reply? {
        RepliedFollows(w, s.n, s.opens);
        InvOver(w, s.n, Replied(w, s.n, s.opens).0, Replied(w, s.n, s.opens).1);
      } else {
        BrokenFollows(w, s.n, s.heard);
        InvOver(w, s.n, Broken(w, s.n, s.heard).0, Broken(w, s.n, s.heard).1);
      }
    }
  }

  lemma {:induction false} NothingLogged(minted: map<SessionId, Minted>, log: seq<Entry>, id: SessionId, m: Minted)
    requires id !in minted && forall i | 0 <= i < |log| :: EntryOk(minted, log[i])
    ensures ByLog(log, id, m) == Session(Pending(m.initialize), m.host, m.bearer, m.at)
  {
    if log != [] {
      assert EntryOk(minted, log[|log| - 1]);
      NothingLogged(minted, log[..|log| - 1], id, m);
    }
  }

  /** Only an `initialize` mints; it adds its session, and leaves the others as they were. */
  lemma MintedAlone(w: World, s: Step)
    requires s.Mint? && s.drawn !in w.sessions && w.table <= w.sessions.Keys
    ensures var after := Next(w, s);
            if s.message == None || !s.message.value.isObject || s.message.value.call != Some("initialize") then after == w
            else
            && after.sessions == w.sessions[s.drawn := Session(Pending(s.body), s.host, s.bearer, s.now)]
            && after.table == w.table + {s.drawn} && after.calls == w.calls && after.log == w.log
            && after.minted == w.minted[s.drawn := Minted(s.host, s.bearer, s.body, s.now)]
  {
  }

  lemma SessionsMinted(w: World, s: Step)
    requires Inv(w) && s.Mint? && Mints(s.message) && s.drawn !in w.sessions
    ensures SessionsOk(Next(w, s))
  {
    hide Next, AnswerOk, StateBy, LastUse;
    var after := Next(w, s);
    MintedAlone(w, s);
    forall id | id in after.sessions ensures SessionOk(after, id) {
      if id in w.sessions { assert SessionOk(w, id); } else { NothingLogged(w.minted, w.log, id, after.minted[id]); }
    }
  }

  /** Minting one more owner leaves what the calls and the log say of the others. */
  lemma OwnersKept(w: World, id: SessionId, m: Minted)
    requires CallsOk(w.minted, w.calls) && LogOk(w.minted, w.log) && id !in w.minted
    ensures CallsOk(w.minted[id := m], w.calls) && LogOk(w.minted[id := m], w.log)
  {
    hide AnswerOk;
    assert forall i | 0 <= i < |w.log| :: EntryOk(w.minted, w.log[i]);
    assert forall n | n in w.calls :: CallOk(w.minted, w.calls[n]);
  }

  lemma InvMint(w: World, s: Step)
    requires Inv(w) && s.Mint? && Mints(s.message) && s.drawn !in w.sessions
    ensures Inv(Next(w, s))
  {
    hide Next, SessionOk, CallsOk, LogOk;
    MintedAlone(w, s);
    SessionsMinted(w, s);
    OwnersKept(w, s.drawn, Minted(s.host, s.bearer, s.body, s.now));
  }

  /** The step takes `id` out of the table: its owner's DELETE, or a sweep that
      finds its lock free, poisoned by no panic, and its last use the whole timeout ago. */
  predicate Drops(w: World, s: Step, id: SessionId)
    requires id in w.minted
  {
    match s
    case Remove(n) =>
      n in w.calls && w.calls[n] == Call(id, w.minted[id].host, w.minted[id].bearer, Delete, w.calls[n].locked)
    case Sweep(now, looked) =>
      && (forall n | n in w.calls && w.calls[n].id == id :: w.calls[n].locked.None?)
      && (forall i | 0 <= i < |w.log| && w.log[i].id == id :: w.log[i].answer.Some?)
      && id !in looked && now - LastUse(w.log, id, w.minted[id].at) >= IDLE_TIMEOUT
    case _ => false
  }

  lemma SweepKeeps(w: World, now: Time, looked: set<SessionId>, id: SessionId)
    requires SessionsOk(w) && id in w.table
    ensures id in Next(w, Sweep(now, looked)).table <==> !Drops(w, Sweep(now, looked), id)
  {
    hide StateBy, LastUse, Replied, Broken, WithMinted;
    assert SessionOk(w, id);
    if forall n | n in w.calls && w.calls[n].id == id :: w.calls[n].locked.None? {
      assert id !in Busy(w.calls);
    }
    if forall i | 0 <= i < |w.log| && w.log[i].id == id :: w.log[i].answer.Some? {
      assert id !in Poisoned(w.log);
    }
  }

  /** Whatever the step, the table keeps what it had but what is dropped. */
  lemma TableKept(w: World, s: Step, id: SessionId)
    requires Inv(w) && id in w.table
    ensures id in Next(w, s).table <==> !Drops(w, s, id)
  {
    hide Replied, Broken, WithMinted, Swept;
    match s
    case Mint(_, _, message, _, _, _) => if Mints(message) && s.drawn !in w.sessions { MintedAlone(w, s); }
    case Remove(n) => assert n in w.calls ==> CallOk(w.minted, w.calls[n]);
    case Sweep(now, looked) => SweepKeeps(w, now, looked, id);
    case _ =>
  }

  /** The one call a step changes: found for its owner, or locked. */
  predicate CallMoved(w: World, n: nat, c: Call) {
    if n in w.calls then c == w.calls[n].(locked := c.locked)
    else c.id in w.table && c.id in w.sessions && OwnedBy(w.sessions[c.id], c.host, c.bearer)
  }

  /** A step that neither mints nor answers leaves every session as it was. */
  lemma QuietStep(w: World, s: Step)
    requires !s.Reply? && !s.Panic? && !s.Mint?
    ensures var after := Next(w, s);
            && after.sessions == w.sessions && after.minted == w.minted && after.log == w.log && after.table <= w.table
            && forall n | n in after.calls && (n !in w.calls || after.calls[n] != w.calls[n]) :: CallMoved(w, n, after.calls[n])
  {
  }

  lemma CallsKept(w: World, s: Step)
    requires SessionsOk(w) && CallsOk(w.minted, w.calls) && !s.Reply? && !s.Panic? && !s.Mint?
    ensures CallsOk(w.minted, Next(w, s).calls)
  {
    hide Next;
    QuietStep(w, s);
    var calls := Next(w, s).calls;
    forall n | n in calls ensures CallOk(w.minted, calls[n]) {
      if n in w.calls { assert CallOk(w.minted, w.calls[n]); } else { assert SessionOk(w, calls[n].id); }
    }
  }

  lemma InvSame(w: World, after: World)
    requires SessionsOk(w) && after.sessions == w.sessions && after.minted == w.minted && after.log == w.log
    requires after.table <= w.table
    ensures SessionsOk(after)
  {
    forall id | id in after.sessions ensures SessionOk(after, id) { assert SessionOk(w, id); }
  }

  lemma InvNext(w: World, s: Step)
    requires Inv(w)
    ensures Inv(Next(w, s))
  {
    if s.Reply? || s.Panic? {
      InvServed(w, s);
    } else if s.Mint? {
      if Mints(s.message) && s.drawn !in w.sessions { InvMint(w, s); }
    } else {
      QuietStep(w, s);
      CallsKept(w, s);
      InvSame(w, Next(w, s));
    }
  }

  lemma {:induction false} InvRun(w: World, steps: seq<Step>)
    requires Inv(w)
    ensures Inv(Run(w, steps))
    decreases |steps|
  {
    if steps != [] {
      InvNext(w, steps[0]);
      InvRun(Next(w, steps[0]), steps[1..]);
    }
  }

  lemma MintedNext(w: World, s: Step, id: SessionId)
    requires w.sessions.Keys == w.minted.Keys && id in w.minted
    ensures Next(w, s).sessions.Keys == Next(w, s).minted.Keys
    ensures id in Next(w, s).minted && Next(w, s).minted[id] == w.minted[id]
  {
  }

  lemma {:induction false} MintedStays(w: World, steps: seq<Step>, id: SessionId)
    requires w.sessions.Keys == w.minted.Keys && id in w.minted
    ensures id in Run(w, steps).minted && Run(w, steps).minted[id] == w.minted[id]
    decreases |steps|
  {
    if steps != [] {
      MintedNext(w, steps[0], id);
      MintedStays(Next(w, steps[0]), steps[1..], id);
    }
  }

  // ----- What every run of the table keeps -----

  /** Every answer of a session went to the endpoint and bearer it was minted for. */
  lemma AnsweredOnlyToOwner(steps: seq<Step>, i: nat)
    requires i < |Run(EMPTY, steps).log|
    ensures var w := Run(EMPTY, steps); EntryOk(w.minted, w.log[i])
  {
    InvRun(EMPTY, steps);
  }

  /** A session's server was given its `initialize` once, first, and then what
      it answered or panicked over, in order; nothing opened it but a message that is not lifecycle. */
  lemma OpenedOnce(steps: seq<Step>, id: SessionId)
    requires id in Run(EMPTY, steps).sessions
    ensures var w := Run(EMPTY, steps);
            && id in w.minted
            && w.sessions[id].state == StateBy(w.log, id, w.minted[id].initialize)
            && forall i | 0 <= i < |w.log| :: AnswerOk(w.log, i)
  {
    InvRun(EMPTY, steps);
    assert SessionOk(Run(EMPTY, steps), id);
  }

  lemma DroppedStays(w: World, s: Step, id: SessionId)
    requires w.table <= w.sessions.Keys && id in w.sessions && id !in w.table
    ensures id !in Next(w, s).table
  {
    if s.Mint? && Mints(s.message) && s.drawn !in w.sessions { MintedAlone(w, s); }
  }

  /** Once out of the table a session is found by no one again, whatever is minted since. */
  lemma {:induction false} RemovedStaysRemoved(w: World, steps: seq<Step>, id: SessionId, host: string, bearer: Bearer)
    requires Inv(w) && id in w.minted && id !in w.table
    ensures id !in Run(w, steps).table && !Answered(Run(w, steps), id, host, bearer)
    decreases |steps|
  {
    if steps != [] {
      InvNext(w, steps[0]);
      MintedNext(w, steps[0], id);
      DroppedStays(w, steps[0], id);
      RemovedStaysRemoved(Next(w, steps[0]), steps[1..], id, host, bearer);
    }
  }

  /** What is minted for one owner is found by that owner alone. */
  lemma FoundOnlyByOwner(w: World, steps: seq<Step>, id: SessionId, host: string, bearer: Bearer)
    requires Inv(w) && id in w.minted && Answered(Run(w, steps), id, host, bearer)
    ensures host == w.minted[id].host && bearer == w.minted[id].bearer
  {
    MintedStays(w, steps, id);
    InvRun(w, steps);
    assert SessionOk(Run(w, steps), id);
  }

  /** Some step of the run takes `id` out of the table. */
  predicate DroppedIn(w: World, steps: seq<Step>, id: SessionId)
    decreases |steps|
  {
    steps != [] && ((id in w.minted && Drops(w, steps[0], id)) || DroppedIn(Next(w, steps[0]), steps[1..], id))
  }

  /** A session stays, and is found by its owner, exactly until its owner
      deletes it or a sweep finds it free and unused for the whole timeout; once a
      panic poisoned its lock, only until its owner deletes it. */
  lemma {:induction false} SurvivesExactly(w: World, steps: seq<Step>, id: SessionId)
    requires Inv(w) && id in w.table
    ensures id in w.minted
    ensures Answered(Run(w, steps), id, w.minted[id].host, w.minted[id].bearer) <==> !DroppedIn(w, steps, id)
    decreases |steps|
  {
    assert SessionOk(w, id);
    if steps != [] {
      var next := Next(w, steps[0]);
      InvNext(w, steps[0]);
      TableKept(w, steps[0], id);
      MintedNext(w, steps[0], id);
      if id in next.table {
        SurvivesExactly(next, steps[1..], id);
      } else {
        RemovedStaysRemoved(next, steps[1..], id, w.minted[id].host, w.minted[id].bearer);
      }
    }
  }

  // ----- One request at a time is the edge's own methods -----

  /** A message answered alone: found, locked and replied to. */
  lemma PostAlone(
    w: World, n: nat, id: SessionId, host: string, bearer: Bearer, body: string, message: Option<Message>, opens: bool, now: Time)
    requires w.table <= w.sessions.Keys && n !in w.calls && id !in Busy(w.calls)
    ensures var found := Next(w, Find(n, id, host, bearer, Post(body, message)));
            var after := Next(Next(found, Lock(n, now)), Reply(n, opens));
            var (table, answer) := WithHandled(Tabled(w), id, host, bearer, body, message, opens, now);
            && Tabled(after) == table
            && if answer.None? then after == w
               else |after.log| == |w.log| + 1 && after.log[|w.log|].answer == answer
  {
    var found := Next(w, Find(n, id, host, bearer, Post(body, message)));
    if Answered(w, id, host, bearer) {
      assert id !in Busy(found.calls) by {
        assert forall m | m in found.calls && found.calls[m].locked.Some? :: m in w.calls && w.calls[m].id in Busy(w.calls);
      }
      var locked := Next(found, Lock(n, now));
      assert locked == found.(calls := found.calls[n := found.calls[n].(locked := Some(now))]);
      assert Served(locked, n);
      var (s, entry) := Replied(locked, n, opens);
      assert Tabled(Next(locked, Reply(n, opens))) == Tabled(w)[id := s];
    }
  }

  /** A DELETE alone: found and removed. */
  lemma DeleteAlone(w: World, n: nat, id: SessionId, host: string, bearer: Bearer)
    requires w.table <= w.sessions.Keys && n !in w.calls
    ensures var after := Next(Next(w, Find(n, id, host, bearer, Delete)), Remove(n));
            Tabled(after) == WithEnded(Tabled(w), id, host, bearer)
  {
    var found := Next(w, Find(n, id, host, bearer, Delete));
    if Answered(w, id, host, bearer) {
      assert Tabled(found) == Tabled(w);
      var after := Next(found, Remove(n));
      assert Tabled(after) == Tabled(w) - {id};
    }
  }
}
