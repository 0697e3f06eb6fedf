/** The issuer's keys as one process holds them, and how often it asks for them. */
module KeyCache {
  import opened Wrappers

  type Key = int

  type Keys = map<string, Key>

  /** Seconds on a clock that never goes back. */
  type Time = real

  const KEY_REFETCH_INTERVAL: Time := 60.0

  datatype Cache = Cache(keys: Keys, lastFetch: Option<Time>)

  datatype Error = AskedRecently | NotPublished | FetchFailed

  /** Whether a lookup of `kid` at `now` asks the issuer. */
  predicate Asks(c: Cache, kid: string, now: Time) {
    kid !in c.keys && (c.lastFetch.Some? ==> now - c.lastFetch.value >= KEY_REFETCH_INTERVAL)
  }

  /** The cache after a lookup; `answer` is what the issuer says if it is asked. */
  function Looked(c: Cache, kid: string, now: Time, answer: Option<Keys>): Cache {
    if Asks(c, kid, now) then Cache(if answer.Some? then answer.value else c.keys, Some(now)) else c
  }

  function Found(c: Cache, kid: string, now: Time, answer: Option<Keys>): Result<Key, Error> {
    if kid in c.keys then Ok(c.keys[kid])
    else if !Asks(c, kid, now) then Err(AskedRecently)
    else if answer.None? then Err(FetchFailed)
    else if kid in answer.value then Ok(answer.value[kid])
    else Err(NotPublished)
  }

  /** The cache after a refresh whose fetch ended at `end`. */
  function Refreshed(c: Cache, end: Time, answer: Option<Keys>): Cache {
    if answer.Some? then Cache(answer.value, Some(end)) else c
  }

  /** The verifier's cache; its lock is held for the whole of each method. */
  class Verifier {
    var keys: Keys
    var lastFetch: Option<Time>

    function Contents(): Cache
      reads this
    {
      Cache(keys, lastFetch)
    }

    /** With what the disk cache held, and no fetch made. */
    constructor (stored: Keys)
      ensures Contents() == Cache(stored, None)
    {
      keys, lastFetch := stored, None;
    }

    method LookUp(kid: string, now: Time, answer: Option<Keys>) returns (r: Result<Key, Error>)
      modifies this
      ensures Contents() == Looked(old(Contents()), kid, now, answer)
      ensures r == Found(old(Contents()), kid, now, answer)
    {
      if kid in keys {
        return Ok(keys[kid]);
      }
      if lastFetch.Some? && now - lastFetch.value < KEY_REFETCH_INTERVAL {
        return Err(AskedRecently);
      }
      // Set before the fetch, so a fetch that fails is also waited out.
      lastFetch := Some(now);
      if answer.None? {
        return Err(FetchFailed);
      }
      keys := answer.value;
      if kid in keys {
        return Ok(keys[kid]);
      }
      return Err(NotPublished);
    }

    method Refresh(end: Time, answer: Option<Keys>) returns (r: Result<nat, Error>)
      modifies this
      ensures Contents() == Refreshed(old(Contents()), end, answer)
      ensures r == if answer.Some? then Ok(|answer.value|) else Err(FetchFailed)
    {
      if answer.None? {
        return Err(FetchFailed);
      }
      lastFetch := Some(end);
      keys := answer.value;
      return Ok(|keys|);
    }
  }

  // ----- Runs -----

  /** What holds the cache's lock from `start` to `end`. */
  datatype Event =
    | LookUp(start: Time, end: Time, kid: string, answer: Option<Keys>)
    | Refresh(start: Time, end: Time, answer: Option<Keys>)

  /** One after another, as the lock admits them. */
  predicate Ordered(events: seq<Event>, from: Time) {
    events == [] || (from <= events[0].start <= events[0].end && Ordered(events[1..], events[0].end))
  }

  function After(c: Cache, e: Event): Cache {
    match e
    case LookUp(start, _, kid, answer) => Looked(c, kid, start, answer)
    case Refresh(_, end, answer) => Refreshed(c, end, answer)
  }

  function Run(c: Cache, events: seq<Event>): Cache
    decreases |events|
  {
    if events == [] then c else Run(After(c, events[0]), events[1..])
  }

  /** When the issuer was asked because of a key id the cache did not hold. */
  function Asked(c: Cache, events: seq<Event>): seq<Time>
    decreases |events|
  {
    if events == [] then []
    else
      var e := events[0];
      (if e.LookUp? && Asks(c, e.kid, e.start) then [e.start] else []) + Asked(After(c, e), events[1..])
  }

  predicate Spaced(times: seq<Time>) {
    forall i, j | 0 <= i < j < |times| :: times[j] - times[i] >= KEY_REFETCH_INTERVAL * ((j - i) as real)
  }

  /** Fetches for unknown key ids start at least an interval apart, failed ones
      included, whatever refreshes come between. */
  lemma {:induction false} AskedSpaced(c: Cache, events: seq<Event>, from: Time)
    requires Ordered(events, from) && (c.lastFetch.Some? ==> c.lastFetch.value <= from)
    ensures Spaced(Asked(c, events))
    ensures forall i | 0 <= i < |Asked(c, events)| ::
              c.lastFetch.Some? ==>
                Asked(c, events)[i] - c.lastFetch.value >= KEY_REFETCH_INTERVAL * ((i + 1) as real)
    decreases |events|
  {
    if events != [] {
      var e, c' := events[0], After(c, events[0]);
      AskedSpaced(c', events[1..], e.end);
      var later := Asked(c', events[1..]);
      if e.LookUp? && Asks(c, e.kid, e.start) {
        assert c'.lastFetch == Some(e.start);
        var times := [e.start] + later;
        forall i, j | 0 <= i < j < |times|
          ensures times[j] - times[i] >= KEY_REFETCH_INTERVAL * ((j - i) as real)
        {
          if i == 0 {
            assert times[j] == later[j - 1];
          } else {
            assert times[j] == later[j - 1] && times[i] == later[i - 1];
          }
        }
      }
    }
  }

  /** In any `T` seconds, at most `T / 60` of them and one more. */
  lemma AskedInWindow(c: Cache, events: seq<Event>, from: Time, lo: nat, hi: nat, length: Time)
    requires Ordered(events, from) && (c.lastFetch.Some? ==> c.lastFetch.value <= from)
    requires lo < hi <= |Asked(c, events)|
    requires Asked(c, events)[hi - 1] - Asked(c, events)[lo] <= length
    ensures hi - lo <= (length / KEY_REFETCH_INTERVAL).Floor + 1
  {
    AskedSpaced(c, events, from);
    if hi - lo > 1 {
      assert KEY_REFETCH_INTERVAL * ((hi - 1 - lo) as real) <= length;
      assert ((hi - 1 - lo) as real) <= length / KEY_REFETCH_INTERVAL;
    } else {
      assert length / KEY_REFETCH_INTERVAL >= 0.0;
    }
  }

  /** Every answer to a lookup of `kid` in a run. */
  function Answers(c: Cache, events: seq<Event>, kid: string): seq<Result<Key, Error>>
    decreases |events|
  {
    if events == [] then []
    else
      var e := events[0];
      (if e.LookUp? && e.kid == kid then [Found(c, kid, e.start, e.answer)] else [])
      + Answers(After(c, e), events[1..], kid)
  }

  predicate Fetches(c: Cache, e: Event) {
    e.Refresh? || Asks(c, e.kid, e.start)
  }

  /** No fetch made in a run publishes `kid`. */
  predicate NonePublishes(c: Cache, events: seq<Event>, kid: string)
    decreases |events|
  {
    events == []
    || (&& (Fetches(c, events[0]) && events[0].answer.Some? ==> kid !in events[0].answer.value)
        && NonePublishes(After(c, events[0]), events[1..], kid))
  }

  /** While no fetch publishes a key id the cache does not hold, nothing verifies under it. */
  lemma {:induction false} OmittedStaysRefused(c: Cache, events: seq<Event>, kid: string)
    requires kid !in c.keys && NonePublishes(c, events, kid)
    ensures kid !in Run(c, events).keys
    ensures forall i | 0 <= i < |Answers(c, events, kid)| :: Answers(c, events, kid)[i].Err?
    decreases |events|
  {
    if events != [] {
      OmittedStaysRefused(After(c, events[0]), events[1..], kid);
    }
  }

  /** A fetch that answers, made by a lookup or a refresh, replaces the cache
      whole: a key id it leaves out is refused until a later fetch publishes it. */
  lemma FetchWithdraws(c: Cache, e: Event, events: seq<Event>, kid: string)
    requires Fetches(c, e) && e.answer.Some? && kid !in e.answer.value
    requires NonePublishes(After(c, e), events, kid)
    ensures forall i | 0 <= i < |Answers(After(c, e), events, kid)| :: Answers(After(c, e), events, kid)[i].Err?
  {
    OmittedStaysRefused(After(c, e), events, kid);
  }

  /** Every fetch of a run that answers publishes `kid` with this key. */
  predicate AllPublish(c: Cache, events: seq<Event>, kid: string, key: Key)
    decreases |events|
  {
    events == []
    || (&& (Fetches(c, events[0]) && events[0].answer.Some? ==>
              kid in events[0].answer.value && events[0].answer.value[kid] == key)
        && AllPublish(After(c, events[0]), events[1..], kid, key))
  }

  /** A key that is held answers every lookup of its id, whatever is looked up
      besides and whichever fetches fail, until a fetch publishes otherwise. */
  lemma {:induction false} HeldIsFound(c: Cache, events: seq<Event>, kid: string, key: Key)
    requires kid in c.keys && c.keys[kid] == key && AllPublish(c, events, kid, key)
    ensures kid in Run(c, events).keys && Run(c, events).keys[kid] == key
    ensures forall i | 0 <= i < |Answers(c, events, kid)| :: Answers(c, events, kid)[i] == Ok(key)
    decreases |events|
  {
    if events != [] {
      HeldIsFound(After(c, events[0]), events[1..], kid, key);
    }
  }

  /** So does a key once a fetch published it. */
  lemma PublishedIsFound(c: Cache, e: Event, events: seq<Event>, kid: string, key: Key)
    requires Fetches(c, e) && e.answer.Some? && kid in e.answer.value && e.answer.value[kid] == key
    requires AllPublish(After(c, e), events, kid, key)
    ensures forall i | 0 <= i < |Answers(After(c, e), events, kid)| :: Answers(After(c, e), events, kid)[i] == Ok(key)
    ensures e.LookUp? && e.kid == kid ==> Found(c, kid, e.start, e.answer) == Ok(key)
  {
    HeldIsFound(After(c, e), events, kid, key);
  }

  /** A key id not held is asked for when the issuer was not asked in the last
      minute, and then its key is the one published; otherwise it is refused
      and nothing changes. */
  lemma UnknownIsAsked(c: Cache, kid: string, now: Time, answer: Option<Keys>)
    requires kid !in c.keys
    ensures if c.lastFetch == None || now - c.lastFetch.value >= 60.0 then
              && Looked(c, kid, now, answer).lastFetch == Some(now)
              && Looked(c, kid, now, answer).keys == (if answer.Some? then answer.value else c.keys)
              && Found(c, kid, now, answer)
                 == (if answer == None then Err(FetchFailed)
                     else if kid in answer.value then Ok(answer.value[kid]) else Err(NotPublished))
            else Looked(c, kid, now, answer) == c && Found(c, kid, now, answer) == Err(AskedRecently)
  {
  }

  /** A key id that is held is answered without asking. */
  lemma HeldIsNotAsked(c: Cache, kid: string, now: Time, answer: Option<Keys>)
    requires kid in c.keys
    ensures Looked(c, kid, now, answer) == c && Found(c, kid, now, answer) == Ok(c.keys[kid])
  {
  }

  /** A refresh that answers holds what it published, and its end begins the
      minute in which no unknown key id is asked for; one that fails does neither. */
  lemma RefreshIsAwaited(c: Cache, end: Time, answer: Option<Keys>, kid: string, now: Time, next: Option<Keys>)
    ensures answer == None ==> Refreshed(c, end, answer) == c
    ensures answer.Some? ==> Refreshed(c, end, answer).keys == answer.value
    ensures answer.Some? && kid !in answer.value && now - end < 60.0 ==>
              Found(Refreshed(c, end, answer), kid, now, next) == Err(AskedRecently)
    ensures answer.Some? && kid !in answer.value && now - end >= 60.0 ==>
              Looked(Refreshed(c, end, answer), kid, now, next).lastFetch == Some(now)
  {
  }
}
