/**
 * The magic-link limiter (services/auth): one counter row per address, reset by the first request a full window after
 * its start. Times are in milliseconds.
 */
module RateLimit {
  import opened Common

  /** `rateLimits.magicLinkPerEmail` (packages/config/src/limits.ts): five an hour. */
  const MAX: nat := 5
  const WINDOW: nat := 3_600_000

  /** The row: how many requests since `start`, the column `last_request`. */
  datatype Counter = Counter(count: nat, start: int)

  class RateLimitTable<Key(==)> {
    var rows: map<Key, Counter>

    constructor ()
      ensures rows == map[]
    {
      rows := map[];
    }

    /** One upsert; whether the request is within the limit. */
    method Consume(key: Key, now: int) returns (within: bool)
      modifies this
      ensures key in rows && rows == old(rows)[key := Next(if key in old(rows) then Some(old(rows)[key]) else None, now)]
      ensures within <==> rows[key].count <= 5
    {
      if key !in rows {
        rows := rows[key := Counter(1, now)];
      } else if rows[key].start <= now - WINDOW {
        rows := rows[key := Counter(1, now)];
      } else {
        rows := rows[key := Counter(rows[key].count + 1, rows[key].start)];
      }
      within := rows[key].count <= MAX;
    }
  }

  function Next(row: Option<Counter>, now: int): Counter {
    if row.None? || row.value.start <= now - WINDOW then Counter(1, now)
    else Counter(row.value.count + 1, row.value.start)
  }

  // ------------------------------------------------------------------------------------------
  // One address's requests
  // ------------------------------------------------------------------------------------------

  /** The row after these requests. */
  function After(times: seq<int>): (row: Option<Counter>)
    ensures row.None? <==> times == []
  {
    if times == [] then None else Some(Next(After(times[..|times| - 1]), times[|times| - 1]))
  }

  /** Whether the last of these requests was let through. */
  predicate LastAccepted(times: seq<int>)
    requires times != []
  {
    After(times).value.count <= MAX
  }

  /** Requests let through between `from` and `to`, both included. */
  function AcceptedIn(times: seq<int>, from: int, to: int): nat {
    if times == [] then 0 else
      var last := times[|times| - 1];
      AcceptedIn(times[..|times| - 1], from, to) + if LastAccepted(times) && from <= last <= to then 1 else 0
  }

  ghost predicate Clock(times: seq<int>) {
    forall i, j | 0 <= i < j < |times| :: times[i] <= times[j]
  }

  function Capped(n: nat): nat {
    if n < MAX then n else MAX
  }

  lemma {:induction false} NoneBefore(times: seq<int>, from: int, to: int)
    requires Clock(times) && (times == [] || times[|times| - 1] < from)
    ensures AcceptedIn(times, from, to) == 0
  {
    if times != [] { NoneBefore(times[..|times| - 1], from, to); }
  }

  lemma {:induction false} LastIsInTheWindow(times: seq<int>)
    requires Clock(times) && times != []
    ensures var row := After(times).value;
      row.count >= 1 && row.start <= times[|times| - 1] < row.start + WINDOW
  {
    var init := times[..|times| - 1];
    if init != [] { LastIsInTheWindow(init); }
  }

  /**
   * How many of the requests since `from` have been let through, by where the current window began: before `from`, at
   * it, inside the interval, or exactly at its end.
   */
  lemma {:induction false} AcceptedByWindow(times: seq<int>, from: int)
    requires Clock(times) && times != [] && times[|times| - 1] <= from + WINDOW
    ensures var row, n := After(times).value, AcceptedIn(times, from, from + WINDOW);
      && (row.start < from ==> n <= Capped(row.count) - 1)
      && (row.start == from ==> n <= Capped(row.count))
      && (from < row.start < from + WINDOW ==> n <= MAX - 1 + Capped(row.count))
      && (row.start == from + WINDOW ==> n <= MAX + Capped(row.count))
  {
    var init, last := times[..|times| - 1], times[|times| - 1];
    if init != [] {
      AcceptedByWindow(init, from);
      LastIsInTheWindow(init);
      if init[|init| - 1] < from { NoneBefore(init, from, from + WINDOW); }
    }
  }

  /** At most `max` requests get through while one counter window lasts. */
  lemma {:induction false} AtMostMaxPerWindow(times: seq<int>)
    requires Clock(times) && times != []
    ensures var row := After(times).value; AcceptedIn(times, row.start, times[|times| - 1]) <= Capped(row.count) <= MAX
  {
    var row, last := After(times).value, times[|times| - 1];
    LastIsInTheWindow(times);
    AcceptedByWindow(times, row.start);
    WiderCountsMore(times, row.start, last, row.start + WINDOW);
  }

  lemma {:induction false} WiderCountsMore(times: seq<int>, from: int, to: int, to': int)
    requires to <= to'
    ensures AcceptedIn(times, from, to) <= AcceptedIn(times, from, to')
  {
    if times != [] { WiderCountsMore(times[..|times| - 1], from, to, to'); }
  }

  /** In any closed interval of one window length, at most twice `max`. */
  lemma {:induction false} AtMostTwiceMax(times: seq<int>, from: int)
    requires Clock(times)
    ensures AcceptedIn(times, from, from + 3_600_000) <= 10
  {
    if times != [] {
      if times[|times| - 1] > from + WINDOW {
        AtMostTwiceMax(times[..|times| - 1], from);
      } else if times[|times| - 1] < from {
        NoneBefore(times, from, from + WINDOW);
      } else {
        LastIsInTheWindow(times);
        AcceptedByWindow(times, from);
      }
    }
  }

  /** In any half-open one, one fewer: the first window's opening request is always outside it. */
  lemma {:induction false} HalfOpenIsOneFewer(times: seq<int>, from: int)
    requires Clock(times)
    ensures AcceptedIn(times, from, from + 3_600_000 - 1) <= 9
  {
    if times != [] {
      if times[|times| - 1] > from + WINDOW - 1 {
        HalfOpenIsOneFewer(times[..|times| - 1], from);
      } else if times[|times| - 1] < from {
        NoneBefore(times, from, from + WINDOW - 1);
      } else {
        LastIsInTheWindow(times);
        AcceptedByWindow(times, from);
        WiderCountsMore(times, from, from + WINDOW - 1, from + WINDOW);
      }
    }
  }

  /** `n` requests at once. */
  function Burst(at: int, n: nat): seq<int> {
    seq(n, (_: nat) => at)
  }

  lemma {:induction false} BurstAfter(before: seq<int>, at: int, n: nat, from: int, to: int)
    requires n <= MAX && from <= at <= to
    requires before == [] || After(before).value.start <= at - WINDOW
    ensures AcceptedIn(before + Burst(at, n), from, to) == AcceptedIn(before, from, to) + n
    ensures n > 0 ==> After(before + Burst(at, n)) == Some(Counter(n, at))
  {
    if n == 0 {
      assert before + Burst(at, 0) == before;
    } else {
      BurstAfter(before, at, n - 1, from, to);
      var times := before + Burst(at, n);
      assert times[..|times| - 1] == before + Burst(at, n - 1);
    }
  }

  /** The closed bound is met: a burst, and another exactly one window later. */
  lemma TwiceMaxHappens(from: int)
    ensures exists times :: Clock(times) && AcceptedIn(times, from, from + 3_600_000) == 10
  {
    BurstAfter([], from, MAX, from, from + WINDOW);
    assert [] + Burst(from, MAX) == Burst(from, MAX);
    BurstAfter(Burst(from, MAX), from + WINDOW, MAX, from, from + WINDOW);
    var times := Burst(from, MAX) + Burst(from + WINDOW, MAX);
    assert Clock(times) && AcceptedIn(times, from, from + WINDOW) == 2 * MAX;
  }

  /**
   * A window never moves while requests keep coming, let through or refused: the first request a full window after its
   * start is let through and starts the next.
   */
  lemma {:induction false} WindowNeverMoves(opening: seq<int>, more: seq<int>)
    requires opening != [] && forall t | t in more :: t < After(opening).value.start + WINDOW
    ensures After(opening + more).value.start == After(opening).value.start
    ensures After(opening + more).value.count == After(opening).value.count + |more|
  {
    if more == [] {
      assert opening + more == opening;
    } else {
      var times, init := opening + more, more[..|more| - 1];
      forall t | t in init ensures t < After(opening).value.start + WINDOW {
        assert t in more;
      }
      WindowNeverMoves(opening, init);
      assert times[..|times| - 1] == opening + init;
      assert more[|more| - 1] in more;
    }
  }

  lemma FullWindowLaterIsAccepted(opening: seq<int>, more: seq<int>, now: int)
    requires opening != [] && forall t | t in more :: t < After(opening).value.start + WINDOW
    requires now >= After(opening).value.start + WINDOW
    ensures LastAccepted(opening + more + [now])
  {
    WindowNeverMoves(opening, more);
    var times := opening + more + [now];
    assert times[..|times| - 1] == opening + more;
  }
}
