/**
 * The per-client fixed-window rate limiter `rate_limit_check` over the
 * process-wide table `user_requests`, which maps a client address to the
 * number of requests admitted in its current window and the time the window
 * ends.
 *
 * The table is a `defaultdict`: reading a client that is not in it inserts
 * an entry with count 0 and a reset time equal to the clock reading at that
 * moment, not one hour later. So a client's first request never opens a
 * fresh window, and its second request at any later time does.
 */
module RateLimit {

  /** Length of a window in seconds. */
  const WINDOW: real := 3600.0

  datatype Entry = Entry(count: nat, resetTime: real)

  type Table = map<string, Entry>

  /** The defaultdict read: the stored entry, or a new one stamped with the
      current time. */
  function Lookup(table: Table, client: string, now: real): Entry {
    if client in table then table[client] else Entry(0, now)
  }

  /** The reset test: strictly after the reset time the window restarts. */
  function Refresh(e: Entry, now: real): Entry {
    if now > e.resetTime then Entry(0, now + WINDOW) else e
  }

  /** Requests already admitted in the window that is live at `now`. */
  function LiveCount(table: Table, client: string, now: real): nat {
    if client in table && now <= table[client].resetTime then table[client].count else 0
  }

  /** When the window that is live at `now` ends. */
  function LiveReset(table: Table, client: string, now: real): real {
    if client !in table then now
    else if now > table[client].resetTime then now + WINDOW
    else table[client].resetTime
  }

  datatype Decision = Decision(allowed: bool, table: Table)

  /** One call of the limiter for `client` at time `now`. The request is
      admitted exactly when fewer than `limit` requests were admitted in the
      live window; an admitted request adds exactly one to the count and a
      denied one adds nothing. The client's entry always exists afterwards
      (a denied request may still have created or reset it), and no other
      client's entry changes. */
  function Step(table: Table, client: string, now: real, limit: int): (d: Decision)
    ensures d.table.Keys == table.Keys + {client}
    ensures forall k | k in table && k != client :: d.table[k] == table[k]
    ensures d.allowed <==> LiveCount(table, client, now) < limit
    ensures d.table[client].count == LiveCount(table, client, now) + (if d.allowed then 1 else 0)
    ensures d.table[client].resetTime == LiveReset(table, client, now)
  {
    var e := Refresh(Lookup(table, client, now), now);
    if e.count >= limit then Decision(false, table[client := e])
    else Decision(true, table[client := e.(count := e.count + 1)])
  }

  /** No entry holds more than `limit` requests, except that an untouched
      count of 0 is always allowed (the limit may be 0 or negative). */
  ghost predicate Bounded(table: Table, limit: int) {
    forall k | k in table :: table[k].count <= limit || table[k].count == 0
  }

  lemma StepKeepsBounded(table: Table, client: string, now: real, limit: int)
    requires Bounded(table, limit)
    ensures Bounded(Step(table, client, now, limit).table, limit)
  {
  }

  datatype Run = Run(admitted: nat, table: Table)

  /** Requests from one client at the given times, one after another. */
  function RunClient(table: Table, client: string, times: seq<real>, limit: int): (r: Run)
    ensures r.admitted <= |times|
    decreases |times|
  {
    if times == [] then Run(0, table)
    else
      var d := Step(table, client, times[0], limit);
      var rest := RunClient(d.table, client, times[1..], limit);
      Run(rest.admitted + (if d.allowed then 1 else 0), rest.table)
  }

  function Min(a: int, b: int): int {
    if a <= b then a else b
  }

  /** Slots left in a window that already holds `count` requests. */
  function Room(count: nat, limit: int): nat {
    if limit > count then limit - count else 0
  }

  /** Within one window (no request after its reset time), a client that has
      `count` admissions is admitted exactly `min(n, limit - count)` more
      times out of `n` requests: never more than the limit in all, and every
      request is admitted while a slot is left. The window itself does not
      move. */
  lemma {:induction false} AdmissionsWithinWindow(table: Table, client: string, times: seq<real>, limit: int)
    requires client in table
    requires forall i | 0 <= i < |times| :: times[i] <= table[client].resetTime
    ensures var r := RunClient(table, client, times, limit);
      && r.admitted == Min(|times|, Room(table[client].count, limit))
      && client in r.table
      && r.table[client] == Entry(table[client].count + r.admitted, table[client].resetTime)
  {
    if times != [] {
      var d := Step(table, client, times[0], limit);
      assert forall i | 0 <= i < |times[1..]| :: times[1..][i] <= d.table[client].resetTime by {
        forall i | 0 <= i < |times[1..]| ensures times[1..][i] <= d.table[client].resetTime {
          assert times[1..][i] == times[i + 1];
        }
      }
      AdmissionsWithinWindow(d.table, client, times[1..], limit);
    }
  }

  /** A client's first request creates its entry and is never treated as
      expired, even though its reset time is the current time; it is admitted
      exactly when the limit is positive. */
  lemma FirstRequestKeepsCreationTime(table: Table, client: string, now: real, limit: int)
    requires client !in table
    ensures var d := Step(table, client, now, limit);
      && (d.allowed <==> limit > 0)
      && d.table[client] == Entry(if limit > 0 then 1 else 0, now)
  {
  }

  /** A request exactly at the reset time keeps the old window. */
  lemma ResetTimeItselfKeepsWindow(table: Table, client: string, limit: int)
    requires client in table
    ensures var now := table[client].resetTime;
      Step(table, client, now, limit).table[client].resetTime == now
  {
  }

  function Repeat(t: real, n: nat): (s: seq<real>)
    ensures |s| == n && forall i | 0 <= i < n :: s[i] == t
  {
    seq(n, _ => t)
  }

  /** Because a new entry's reset time is its creation time, a new client
      can be admitted `limit + 1` times between `t0` and any later `t1`, however
      close: the first request, then a second one that resets the window and
      discards the first count, then `limit - 1` more in the new window. */
  lemma {:induction false} LimitPlusOneBurst(table: Table, client: string, t0: real, t1: real, limit: int)
    requires client !in table
    requires limit >= 1 && t0 < t1
    ensures RunClient(table, client, [t0, t1] + Repeat(t1, limit - 1), limit).admitted == limit + 1
  {
    var times := [t0, t1] + Repeat(t1, limit - 1);
    var d0 := Step(table, client, t0, limit);
    assert d0.allowed && d0.table[client] == Entry(1, t0);
    var d1 := Step(d0.table, client, t1, limit);
    assert d1.allowed && d1.table[client] == Entry(1, t1 + WINDOW);
    assert times[1..][1..] == Repeat(t1, limit - 1);
    AdmissionsWithinWindow(d1.table, client, Repeat(t1, limit - 1), limit);
    assert RunClient(d0.table, client, times[1..], limit).admitted == 1 + (limit - 1);
  }

  /** Once the window has expired, the next request opens a new one that
      holds just this request. */
  lemma ExpiredWindowRestarts(table: Table, client: string, now: real, limit: int)
    requires client in table && now > table[client].resetTime && limit >= 1
    ensures var d := Step(table, client, now, limit);
      d.allowed && d.table[client] == Entry(1, now + WINDOW)
  {
  }

  /** The module-level `user_requests` table and the check that updates it. */
  class RateLimiter {
    var requests: Table

    constructor ()
      ensures requests == map[]
    {
      requests := map[];
    }

    /** `rate_limit_check` for `client` at time `now`; `allowed` is false
        where the source answers 429. */
    method Check(client: string, now: real, limit: int) returns (allowed: bool)
      modifies this
      ensures var d := Step(old(requests), client, now, limit);
        allowed == d.allowed && requests == d.table
      ensures Bounded(old(requests), limit) ==> Bounded(requests, limit)
      ensures forall k | k in old(requests) && k != client :: k in requests && requests[k] == old(requests)[k]
    {
      var entry: Entry;
      if client in requests {
        entry := requests[client];
      } else {
        entry := Entry(0, now);
        requests := requests[client := entry];
      }
      if now > entry.resetTime {
        entry := Entry(0, now + WINDOW);
        requests := requests[client := entry];
      }
      if entry.count >= limit {
        allowed := false;
      } else {
        requests := requests[client := entry.(count := entry.count + 1)];
        allowed := true;
      }
      if Bounded(old(requests), limit) {
        StepKeepsBounded(old(requests), client, now, limit);
      }
    }
  }
}
