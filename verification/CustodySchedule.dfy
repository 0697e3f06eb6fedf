/** When the custody thread fetches the supplier credentials the hub releases. */
module CustodySchedule {

  type Time = real

  /** One turn of the loop: how late the sleep wakes, and how long the fetch takes. */
  datatype Turn = Turn(late: Time, fetch: Time)

  function Max(x: Time, y: Time): Time {
    if x < y then y else x
  }

  /** The starts of the turns, from a wake due at `next` and a thread free at `now`. */
  function Starts(interval: Time, next: Time, now: Time, turns: seq<Turn>): (r: seq<Time>)
    ensures |r| == |turns|
    decreases |turns|
  {
    if turns == [] then []
    else
      var start := Max(next, now) + turns[0].late;
      var free := start + turns[0].fetch;
      [start] + Starts(interval, Max(next + interval, free), free, turns[1..])
  }

  /** The first fetch at `t0` and the loop after it; `first` is how long the
      first fetch and what follows it take before the loop begins. */
  function AllStarts(interval: Time, t0: Time, first: Time, turns: seq<Turn>): seq<Time> {
    [t0] + Starts(interval, t0 + interval, t0 + first, turns)
  }

  method Fetches(interval: Time, t0: Time, first: Time, turns: seq<Turn>) returns (starts: seq<Time>)
    ensures starts == AllStarts(interval, t0, first, turns)
  {
    starts := [t0];
    var next, now := t0 + interval, t0 + first;
    for i := 0 to |turns|
      invariant starts + Starts(interval, next, now, turns[i..]) == AllStarts(interval, t0, first, turns)
    {
      assert turns[i..][0] == turns[i] && turns[i..][1..] == turns[i + 1..];
      now := Max(next, now) + turns[i].late;
      starts := starts + [now];
      now := now + turns[i].fetch;
      next := Max(next + interval, now);
    }
    assert turns[|turns|..] == [];
  }

  /** No fetch is longer than `budget`, no wake later than `late`. */
  predicate Within(turns: seq<Turn>, budget: Time, late: Time) {
    forall i | 0 <= i < |turns| :: 0.0 <= turns[i].fetch <= budget && 0.0 <= turns[i].late <= late
  }

  /** Between one start and the next: at most the longer of the interval and a
      fetch, and at least the interval when the one before was on time. */
  lemma {:induction false} LoopGaps(interval: Time, next: Time, now: Time, turns: seq<Turn>, budget: Time, late: Time, k: nat)
    requires 0.0 < interval && Within(turns, budget, late) && k + 1 < |turns|
    ensures var s := Starts(interval, next, now, turns);
            && s[k + 1] - s[k] <= Max(interval, budget) + late
            && (now <= next || k > 0 ==> s[k + 1] - s[k] >= interval - turns[k].late)
    decreases k
  {
    var start := Max(next, now) + turns[0].late;
    var free := start + turns[0].fetch;
    assert turns[0].fetch <= budget && turns[1].late <= late && turns[1] == turns[1..][0];
    if k > 0 {
      LoopGaps(interval, Max(next + interval, free), free, turns[1..], budget, late, k - 1);
    }
  }

  /** Every two starts in a row, the first fetch of the process among them. */
  lemma StartsBounded(interval: Time, t0: Time, first: Time, turns: seq<Turn>, budget: Time, late: Time, k: nat)
    requires 0.0 < interval && Within(turns, budget, late) && 0.0 <= first <= budget && k < |turns|
    ensures var s := AllStarts(interval, t0, first, turns);
            0.0 <= s[k + 1] - s[k] <= Max(interval, budget) + late
  {
    if k == 0 {
      assert turns[0].late <= late;
    } else {
      LoopGaps(interval, t0 + interval, t0 + first, turns, budget, late, k - 1);
      StartsAscend(interval, t0 + interval, t0 + first, turns, budget, late, k - 1);
    }
  }

  lemma {:induction false} StartsAscend(interval: Time, next: Time, now: Time, turns: seq<Turn>, budget: Time, late: Time, k: nat)
    requires 0.0 < interval && Within(turns, budget, late) && k + 1 < |turns|
    ensures var s := Starts(interval, next, now, turns); s[k] + turns[k].fetch <= s[k + 1]
    decreases k
  {
    var start := Max(next, now) + turns[0].late;
    var free := start + turns[0].fetch;
    assert turns[1] == turns[1..][0] && 0.0 <= turns[1].late;
    if k > 0 {
      StartsAscend(interval, Max(next + interval, free), free, turns[1..], budget, late, k - 1);
    }
  }

  /** A change the hub makes once a fetch has begun, and before the next begins,
      is held when that next fetch ends: within this bound of the first one's start. */
  lemma ChangeHeldWithin(interval: Time, t0: Time, first: Time, turns: seq<Turn>, budget: Time, late: Time, k: nat, change: Time)
    requires 0.0 < interval && Within(turns, budget, late) && 0.0 <= first <= budget && k < |turns|
    requires var s := AllStarts(interval, t0, first, turns); s[k] <= change < s[k + 1]
    ensures var s := AllStarts(interval, t0, first, turns);
            var held := s[k + 1] + turns[k].fetch;
            held <= s[k] + Max(interval, budget) + late + budget
            && change < held && held - change <= Max(interval, budget) + late + budget
  {
    StartsBounded(interval, t0, first, turns, budget, late, k);
    assert turns[k].fetch <= budget && 0.0 <= turns[k].fetch;
  }

  /** While every turn is over before the next is due, start `k` is `k` whole
      intervals after the first, and late by its own wake alone: nothing adds up. */
  lemma {:induction false} NoDrift(interval: Time, next: Time, now: Time, turns: seq<Turn>, k: nat)
    requires now <= next && k < |turns|
    requires forall i | 0 <= i < |turns| :: turns[i].late + turns[i].fetch <= interval
    ensures Starts(interval, next, now, turns)[k] == next + (k as real) * interval + turns[k].late
    decreases k
  {
    if k > 0 {
      var free := next + turns[0].late + turns[0].fetch;
      assert turns[0].late + turns[0].fetch <= interval;
      NoDrift(interval, next + interval, free, turns[1..], k - 1);
      assert (k as real) * interval == ((k - 1) as real) * interval + interval;
    }
  }

  lemma StartsOnTheGrid(interval: Time, t0: Time, first: Time, turns: seq<Turn>, k: nat)
    requires first <= interval && k < |turns|
    requires forall i | 0 <= i < |turns| :: turns[i].late + turns[i].fetch <= interval
    ensures AllStarts(interval, t0, first, turns)[k + 1] == t0 + ((k + 1) as real) * interval + turns[k].late
  {
    NoDrift(interval, t0 + interval, t0 + first, turns, k);
    assert ((k + 1) as real) * interval == (k as real) * interval + interval;
  }

  /** `n` whole intervals. */
  function Intervals(n: nat, interval: Time): Time {
    if n == 0 then 0.0 else Intervals(n - 1, interval) + interval
  }

  /** No start comes before its place on the grid. */
  lemma {:induction false} LoopNotAhead(interval: Time, next: Time, now: Time, turns: seq<Turn>, budget: Time, late: Time, k: nat)
    requires 0.0 < interval && Within(turns, budget, late) && k < |turns|
    ensures Starts(interval, next, now, turns)[k] >= next + Intervals(k, interval)
    decreases k
  {
    var start := Max(next, now) + turns[0].late;
    var free := start + turns[0].fetch;
    assert 0.0 <= turns[0].late;
    if k > 0 {
      LoopNotAhead(interval, Max(next + interval, free), free, turns[1..], budget, late, k - 1);
    }
  }

  lemma StartsHead(interval: Time, next: Time, now: Time, turns: seq<Turn>, k: nat)
    requires k < |turns|
    ensures var (s, free) := (Starts(interval, next, now, turns), Max(next, now) + turns[0].late + turns[0].fetch);
            s[k] == if k == 0 then Max(next, now) + turns[0].late
                    else Starts(interval, Max(next + interval, free), free, turns[1..])[k - 1]
  {
  }

  lemma FirstSpaced(interval: Time, next: Time, now: Time, turns: seq<Turn>, budget: Time, late: Time, k: nat)
    requires 0.0 < interval && Within(turns, budget, late) && k < |turns| && now <= next
    ensures var s := Starts(interval, next, now, turns); s[k] - s[0] >= Intervals(k, interval) - turns[0].late
  {
    hide Starts;
    assert 0.0 <= turns[0].late;
    StartsHead(interval, next, now, turns, 0);
    StartsHead(interval, next, now, turns, k);
    if k > 0 {
      var free := next + turns[0].late + turns[0].fetch;
      LoopNotAhead(interval, Max(next + interval, free), free, turns[1..], budget, late, k - 1);
    }
  }

  /** From any turn but a first one begun late, start `k` is as many whole
      intervals later as there are turns between, but for one wake. */
  lemma {:induction false} LoopSpaced(interval: Time, next: Time, now: Time, turns: seq<Turn>, budget: Time, late: Time, j: nat, k: nat)
    requires 0.0 < interval && Within(turns, budget, late) && j <= k < |turns| && (now <= next || j > 0)
    ensures var s := Starts(interval, next, now, turns); s[k] - s[j] >= Intervals(k - j, interval) - turns[j].late
    decreases k
  {
    if j == 0 {
      FirstSpaced(interval, next, now, turns, budget, late, k);
    } else {
      var free := Max(next, now) + turns[0].late + turns[0].fetch;
      LoopSpaced(interval, Max(next + interval, free), free, turns[1..], budget, late, j - 1, k - 1);
    }
  }

  /** However long a turn of the loop overran, the turns after it are whole
      intervals apart but for one wake: a missed start is dropped, not owed.
      From the loop's own first start this asks for a first fetch within the interval. */
  lemma NoBacklog(interval: Time, t0: Time, first: Time, turns: seq<Turn>, budget: Time, late: Time, j: nat, k: nat)
    requires 0.0 < interval && Within(turns, budget, late) && 0 < j <= k <= |turns| && (first <= interval || j > 1)
    ensures var s := AllStarts(interval, t0, first, turns);
            s[k] - s[j] >= Intervals(k - j, interval) - turns[j - 1].late
  {
    LoopSpaced(interval, t0 + interval, t0 + first, turns, budget, late, j - 1, k - 1);
  }

  /** The start after the loop's first: a whole interval later, but for the wake,
      exactly when the first fetch did not overrun or the turn itself fills the
      interval. The loop takes its first wake from the interval and not from
      when the first fetch ended, so that fetch's overrun is owed once. */
  lemma SecondGapExactly(interval: Time, t0: Time, first: Time, turns: seq<Turn>, budget: Time, late: Time)
    requires 0.0 < interval && Within(turns, budget, late) && 1 < |turns|
    ensures var s := AllStarts(interval, t0, first, turns);
            s[2] - s[1] >= interval - turns[0].late
            <==> first <= interval + turns[1].late || turns[0].late + turns[0].fetch + turns[1].late >= interval
  {
    var start := Max(t0 + interval, t0 + first) + turns[0].late;
    var free := start + turns[0].fetch;
    assert 0.0 <= turns[1].late && turns[1] == turns[1..][0];
    assert Starts(interval, Max(t0 + interval + interval, free), free, turns[1..])[0]
        == Max(t0 + interval + interval, free) + turns[1].late;
  }

  /** Every gap after the loop's first start, whatever the turns. */
  ghost predicate Spaced(interval: Time, t0: Time, first: Time, turns: seq<Turn>) {
    var s := AllStarts(interval, t0, first, turns);
    forall k | 0 < k < |turns| :: s[k + 1] - s[k] >= interval - turns[k - 1].late
  }

  /** No turn ever makes up for a start that was missed, exactly when the first
      fetch is over within the interval. */
  lemma NoBacklogExactly(interval: Time, t0: Time, first: Time, budget: Time, late: Time)
    requires 0.0 < interval && 0.0 <= budget && 0.0 <= late
    ensures (forall turns: seq<Turn> | Within(turns, budget, late) :: Spaced(interval, t0, first, turns)) <==> first <= interval
  {
    if first <= interval {
      forall turns: seq<Turn> | Within(turns, budget, late) ensures Spaced(interval, t0, first, turns) {
        forall k | 0 < k < |turns|
          ensures var s := AllStarts(interval, t0, first, turns); s[k + 1] - s[k] >= interval - turns[k - 1].late
        {
          NoBacklog(interval, t0, first, turns, budget, late, k, k + 1);
        }
      }
    } else {
      var turns := [Turn(0.0, 0.0), Turn(0.0, 0.0)];
      SecondGapExactly(interval, t0, first, turns, budget, late);
      assert Within(turns, budget, late) && !Spaced(interval, t0, first, turns);
    }
  }

  /** An interval of ten seconds and a first fetch that takes its whole budget
      of thirty: the fetch that follows it ends, and the next begins at once. */
  lemma OverrunIsOwedOnce()
    ensures AllStarts(10.0, 0.0, 30.0, [Turn(0.0, 1.0), Turn(0.0, 1.0), Turn(0.0, 1.0)]) == [0.0, 30.0, 31.0, 41.0]
  {
    var turn := Turn(0.0, 1.0);
    assert [turn, turn, turn][1..] == [turn, turn] && [turn, turn][1..] == [turn] && [turn][1..] == [];
  }
}
