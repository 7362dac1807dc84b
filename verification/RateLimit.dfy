/** The in-process request limiter: fixed windows of 60 seconds in a table of bounded size. */
module RateLimit {

  const WINDOW := 60.0

  datatype Client = Client(ip: string, login: bool)

  datatype Bucket = Bucket(start: real, count: nat)

  type Buckets = map<Client, Bucket>

  datatype Verdict = Admitted | OverLimit(retryAfter: int) | TableFull(retryAfter: int)

  datatype Request = Request(client: Client, time: real)

  function Limit(c: Client): nat {
    if c.login then 10 else 240
  }

  function Ceil(x: real): (r: int)
    ensures r as real >= x > r as real - 1.0
  {
    -((-x).Floor)
  }

  function RetryHeader(seconds: int): int {
    if seconds < 1 then 1 else seconds
  }

  predicate Expired(b: Bucket, now: real) {
    now - b.start >= WINDOW
  }

  /** The window a request falls into: the running one, or a new one from now. */
  function WindowOf(buckets: Buckets, c: Client, now: real): Bucket {
    if c in buckets && !Expired(buckets[c], now) then buckets[c] else Bucket(now, 0)
  }

  function Purged(buckets: Buckets, now: real): Buckets {
    map c | c in buckets && !Expired(buckets[c], now) :: buckets[c]
  }

  function MakeRoom(capacity: nat, buckets: Buckets, c: Client, now: real): Buckets {
    if c !in buckets && |buckets| >= capacity then Purged(buckets, now) else buckets
  }

  /** What one request does to the table, and its verdict. */
  function Step(capacity: nat, buckets: Buckets, c: Client, now: real): (Buckets, Verdict) {
    var window := WindowOf(buckets, c, now);
    var room := MakeRoom(capacity, buckets, c, now);
    if c !in buckets && |room| >= capacity then (room, TableFull(RetryHeader(60)))
    else if window.count >= Limit(c) then
      (room, OverLimit(RetryHeader(Ceil(WINDOW - (now - window.start)))))
    else (room[c := Bucket(window.start, window.count + 1)], Admitted)
  }

  class Limiter {
    const capacity: nat
    var buckets: Buckets

    constructor (capacity: nat)
      ensures this.capacity == capacity && buckets == map[]
    {
      this.capacity, buckets := capacity, map[];
    }

    method Dispatch(c: Client, now: real) returns (verdict: Verdict)
      modifies this
      ensures (buckets, verdict) == Step(capacity, old(buckets), c, now)
      ensures |old(buckets)| <= capacity ==> |buckets| <= capacity
    {
      ghost var before := buckets;
      PurgeShrinks(before, now);
      var start, count := now, 0;
      if c in buckets {
        start, count := buckets[c].start, buckets[c].count;
      }
      if now - start >= WINDOW {
        start, count := now, 0;
      }
      if c !in buckets && |buckets| >= capacity {
        buckets := map k | k in buckets && now - buckets[k].start < WINDOW :: buckets[k];
        assert buckets == Purged(before, now);
        if |buckets| >= capacity {
          return TableFull(RetryHeader(60));
        }
      }
      if count >= Limit(c) {
        return OverLimit(RetryHeader(Ceil(WINDOW - (now - start))));
      }
      buckets := buckets[c := Bucket(start, count + 1)];
      return Admitted;
    }
  }

  lemma PurgeShrinks(buckets: Buckets, now: real)
    ensures |Purged(buckets, now)| <= |buckets|
  {
    var kept := Purged(buckets, now);
    assert buckets.Keys == kept.Keys + (buckets.Keys - kept.Keys);
    assert |buckets.Keys| == |kept.Keys| + |buckets.Keys - kept.Keys|;
  }

  // What one request gets.

  /** Whose windows are still running. */
  function Running(buckets: Buckets, now: real): set<Client> {
    set c | c in buckets && now - buckets[c].start < 60.0
  }

  lemma RunningStay(buckets: Buckets, now: real)
    ensures Purged(buckets, now).Keys == Running(buckets, now)
  {
  }

  /** A newcomer is turned away exactly when the table is full of running windows; otherwise it is
      admitted and its window starts now. */
  lemma NewcomerIsTurnedAwayExactlyWhen(capacity: nat, buckets: Buckets, c: Client, now: real)
    requires c !in buckets
    ensures Step(capacity, buckets, c, now).1
         == if |buckets| >= capacity && |Running(buckets, now)| >= capacity then TableFull(60) else Admitted
    ensures Step(capacity, buckets, c, now).1.Admitted? ==>
              c in Step(capacity, buckets, c, now).0 && Step(capacity, buckets, c, now).0[c] == Bucket(now, 1)
  {
    RunningStay(buckets, now);
    assert |Purged(buckets, now)| == |Purged(buckets, now).Keys|;
  }

  /** A known client is admitted as long as its window has room, and begins a new one after 60 seconds;
      nobody else is affected. */
  lemma KnownClientIsAdmittedExactlyWhen(capacity: nat, buckets: Buckets, c: Client, now: real)
    requires c in buckets
    ensures
      var (next, verdict) := Step(capacity, buckets, c, now);
      && (verdict.Admitted? <==> now - buckets[c].start >= 60.0 || buckets[c].count < (if c.login then 10 else 240))
      && next == (if now - buckets[c].start >= 60.0 then buckets[c := Bucket(now, 1)]
                  else if buckets[c].count < (if c.login then 10 else 240)
                  then buckets[c := Bucket(buckets[c].start, buckets[c].count + 1)] else buckets)
  {
  }

  /** Whoever has a running window keeps it as it is, whatever another client asks for. */
  lemma RunningWindowsAreKept(capacity: nat, buckets: Buckets, c: Client, now: real, other: Client)
    requires other in Running(buckets, now) && other != c
    ensures
      var next := Step(capacity, buckets, c, now).0;
      other in next && next[other] == buckets[other]
  {
  }

  // Runs.

  ghost predicate Monotone(requests: seq<Request>, from: real)
    decreases |requests|
  {
    requests == [] || (requests[0].time >= from && Monotone(requests[1..], requests[0].time))
  }

  function Table(capacity: nat, buckets: Buckets, requests: seq<Request>): Buckets
    decreases |requests|
  {
    if requests == [] then buckets
    else Table(capacity, Step(capacity, buckets, requests[0].client, requests[0].time).0, requests[1..])
  }

  /** The table never outgrows its capacity. */
  lemma {:induction false} TableIsBounded(capacity: nat, buckets: Buckets, requests: seq<Request>)
    requires |buckets| <= capacity
    ensures |Table(capacity, buckets, requests)| <= capacity
    decreases |requests|
  {
    if requests != [] {
      PurgeShrinks(buckets, requests[0].time);
      TableIsBounded(capacity, Step(capacity, buckets, requests[0].client, requests[0].time).0,
                     requests[1..]);
    }
  }

  // The bound on admissions.

  /** Requests of client c admitted at a time in [a, a + 60). */
  function Admissions(capacity: nat, buckets: Buckets, requests: seq<Request>, c: Client, a: real): nat
    decreases |requests|
  {
    if requests == [] then 0
    else
      var (next, verdict) := Step(capacity, buckets, requests[0].client, requests[0].time);
      (if requests[0].client == c && verdict == Admitted && a <= requests[0].time < a + WINDOW
       then 1 else 0)
      + Admissions(capacity, next, requests[1..], c, a)
  }

  /** How many admissions in [a, a + 60) the table allows for, when `last` is the latest time. */
  ghost predicate Accounted(buckets: Buckets, c: Client, last: real, a: real, n: nat) {
    && n <= 2 * Limit(c) - 1
    && (last < a ==> n == 0)
    && (c in buckets ==>
          var b := buckets[c];
          && 1 <= b.count <= Limit(c) && b.start <= last
          && (b.start < a ==> n <= b.count - 1)
          && (a <= b.start < a + WINDOW ==> n <= Limit(c) - 1 + b.count))
    && (c !in buckets ==> last >= a + WINDOW || n <= Limit(c) - 1)
  }

  lemma AccountStep(capacity: nat, buckets: Buckets, r: Request, c: Client, last: real, a: real, n: nat)
    requires Accounted(buckets, c, last, a, n) && r.time >= last
    ensures
      var (next, verdict) := Step(capacity, buckets, r.client, r.time);
      Accounted(next, c, r.time, a,
                if r.client == c && verdict == Admitted && a <= r.time < a + WINDOW then n + 1 else n)
  {
  }

  lemma {:induction false} AccountRun(capacity: nat, buckets: Buckets, requests: seq<Request>, c: Client,
                                      last: real, a: real, n: nat)
    requires Accounted(buckets, c, last, a, n) && Monotone(requests, last)
    ensures n + Admissions(capacity, buckets, requests, c, a) <= 2 * Limit(c) - 1
    decreases |requests|
  {
    if requests != [] {
      var r := requests[0];
      AccountStep(capacity, buckets, r, c, last, a, n);
      var (next, verdict) := Step(capacity, buckets, r.client, r.time);
      var m := if r.client == c && verdict == Admitted && a <= r.time < a + WINDOW then n + 1 else n;
      AccountRun(capacity, next, requests[1..], c, r.time, a, m);
    }
  }

  /** Under a monotone clock, any half-open interval of 60 seconds admits fewer than twice the
      limit, whoever else calls and whatever is evicted. */
  lemma AtMostTwiceTheLimit(capacity: nat, requests: seq<Request>, from: real, c: Client, a: real)
    requires Monotone(requests, from)
    ensures Admissions(capacity, map[], requests, c, a) <= if c.login then 19 else 479
  {
    AccountRun(capacity, map[], requests, c, from, a, 0);
  }

  function Repeat(c: Client, time: real, n: nat): seq<Request> {
    if n == 0 then [] else [Request(c, time)] + Repeat(c, time, n - 1)
  }

  lemma OneIsAdmitted(capacity: nat, buckets: Buckets, c: Client, time: real)
    requires c in buckets && !Expired(buckets[c], time) && buckets[c].count < Limit(c)
    ensures Step(capacity, buckets, c, time) == (buckets[c := Bucket(buckets[c].start, buckets[c].count + 1)], Admitted)
  {
  }

  /** A request admitted in the interval counts once. */
  lemma FirstCounts(capacity: nat, buckets: Buckets, r: Request, rest: seq<Request>, a: real)
    requires Step(capacity, buckets, r.client, r.time).1 == Admitted && a <= r.time < a + WINDOW
    ensures Admissions(capacity, buckets, [r] + rest, r.client, a)
         == 1 + Admissions(capacity, Step(capacity, buckets, r.client, r.time).0, rest, r.client, a)
  {
    assert ([r] + rest)[1..] == rest;
  }

  /** n requests at one moment inside a window with room are all admitted. */
  lemma {:induction false} BurstIsAdmitted(capacity: nat, buckets: Buckets, c: Client, time: real, n: nat,
                                           rest: seq<Request>, a: real)
    requires c in buckets && !Expired(buckets[c], time) && buckets[c].count + n <= Limit(c)
    requires a <= time < a + WINDOW
    ensures
      var after := buckets[c := Bucket(buckets[c].start, buckets[c].count + n)];
      Admissions(capacity, buckets, Repeat(c, time, n) + rest, c, a)
      == n + Admissions(capacity, after, rest, c, a)
    decreases n
  {
    if n == 0 {
      assert Repeat(c, time, n) + rest == rest && buckets[c := buckets[c]] == buckets;
    } else {
      var next := buckets[c := Bucket(buckets[c].start, buckets[c].count + 1)];
      var r, more := Request(c, time), Repeat(c, time, n - 1) + rest;
      assert Repeat(c, time, n) + rest == [r] + more;
      OneIsAdmitted(capacity, buckets, c, time);
      FirstCounts(capacity, buckets, r, more, a);
      BurstIsAdmitted(capacity, next, c, time, n - 1, rest, a);
      assert next[c := Bucket(next[c].start, next[c].count + (n - 1))]
          == buckets[c := Bucket(buckets[c].start, buckets[c].count + n)];
    }
  }

  /** One request at 0, the rest of its window at 59, a full new window at 60. */
  function WorstCase(c: Client): seq<Request> {
    [Request(c, 0.0)] + (Repeat(c, 59.0, Limit(c) - 1) + ([Request(c, 60.0)] + Repeat(c, 60.0, Limit(c) - 1)))
  }

  lemma {:induction false} RepeatIsMonotone(c: Client, time: real, n: nat, rest: seq<Request>, from: real)
    requires from <= time && Monotone(rest, time)
    ensures Monotone(Repeat(c, time, n) + rest, from)
    decreases n
  {
    var all := Repeat(c, time, n) + rest;
    if n == 0 {
      assert all == rest;
    } else {
      assert all[0] == Request(c, time) && all[1..] == Repeat(c, time, n - 1) + rest;
      RepeatIsMonotone(c, time, n - 1, rest, time);
    }
  }

  /** The bound is reached: the interval starting at 59 admits 2 * limit - 1. */
  lemma TheBoundIsTight(capacity: nat, c: Client)
    requires capacity > 0
    ensures Monotone(WorstCase(c), 0.0)
    ensures Admissions(capacity, map[], WorstCase(c), c, 59.0) == if c.login then 19 else 479
  {
    var burst := Repeat(c, 60.0, Limit(c) - 1);
    var late := [Request(c, 60.0)] + burst;
    var all := WorstCase(c);
    assert burst == burst + [];
    assert late[1..] == burst;
    RepeatIsMonotone(c, 60.0, Limit(c) - 1, [], 60.0);
    RepeatIsMonotone(c, 59.0, Limit(c) - 1, late, 0.0);
    assert all[0] == Request(c, 0.0) && all[1..] == Repeat(c, 59.0, Limit(c) - 1) + late;
    var first: Buckets := map[c := Bucket(0.0, 1)];
    assert Step(capacity, map[], c, 0.0) == (first, Admitted);
    BurstIsAdmitted(capacity, first, c, 59.0, Limit(c) - 1, late, 59.0);
    var full := first[c := Bucket(0.0, Limit(c))];
    assert first[c := Bucket(0.0, 1 + (Limit(c) - 1))] == full;
    var renewed := full[c := Bucket(60.0, 1)];
    assert Step(capacity, full, c, 60.0) == (renewed, Admitted);
    BurstIsAdmitted(capacity, renewed, c, 60.0, Limit(c) - 1, [], 59.0);
  }

  // Eviction.

  /** The limiter without a table bound: it never evicts and is never full. */
  function Unbounded(buckets: Buckets, c: Client, now: real): (Buckets, Verdict) {
    var window := WindowOf(buckets, c, now);
    if window.count >= Limit(c) then
      (buckets, OverLimit(RetryHeader(Ceil(WINDOW - (now - window.start)))))
    else (buckets[c := Bucket(window.start, window.count + 1)], Admitted)
  }

  /** The bounded table lacks only windows that are over. */
  ghost predicate Agrees(bounded: Buckets, unbounded: Buckets, now: real) {
    && (forall c :: c in bounded ==> c in unbounded && unbounded[c] == bounded[c])
    && (forall c :: c in unbounded && c !in bounded ==> Expired(unbounded[c], now))
  }

  /** The requests that were not turned away for want of room, and their verdicts. */
  function Seated(capacity: nat, buckets: Buckets, requests: seq<Request>): (seq<Request>, seq<Verdict>)
    decreases |requests|
  {
    if requests == [] then ([], [])
    else
      var (next, verdict) := Step(capacity, buckets, requests[0].client, requests[0].time);
      var (kept, verdicts) := Seated(capacity, next, requests[1..]);
      if verdict.TableFull? then (kept, verdicts) else ([requests[0]] + kept, [verdict] + verdicts)
  }

  function UnboundedVerdicts(buckets: Buckets, requests: seq<Request>): seq<Verdict>
    decreases |requests|
  {
    if requests == [] then []
    else
      var (next, verdict) := Unbounded(buckets, requests[0].client, requests[0].time);
      [verdict] + UnboundedVerdicts(next, requests[1..])
  }

  /** Eviction decides nothing: every seated request gets the verdict of the unbounded limiter. */
  lemma {:induction false} EvictionIsHarmless(capacity: nat, bounded: Buckets, unbounded: Buckets,
                                              requests: seq<Request>, last: real)
    requires Agrees(bounded, unbounded, last) && Monotone(requests, last)
    ensures UnboundedVerdicts(unbounded, Seated(capacity, bounded, requests).0)
         == Seated(capacity, bounded, requests).1
    decreases |requests|
  {
    if requests != [] {
      var r := requests[0];
      var (next, verdict) := Step(capacity, bounded, r.client, r.time);
      var kept := Seated(capacity, next, requests[1..]).0;
      if verdict.TableFull? {
        EvictionIsHarmless(capacity, next, unbounded, requests[1..], r.time);
      } else {
        var other := Unbounded(unbounded, r.client, r.time);
        assert other.1 == verdict;
        EvictionIsHarmless(capacity, next, other.0, requests[1..], r.time);
        assert ([r] + kept)[0] == r && ([r] + kept)[1..] == kept;
      }
    }
  }

  // Retry-After.

  ghost predicate Others(requests: seq<Request>, c: Client, until: real) {
    forall i :: 0 <= i < |requests| ==> requests[i].client != c && requests[i].time <= until
  }

  /** Other clients leave c's window alone, or evict it once it is over. */
  lemma {:induction false} OthersLeaveWindow(capacity: nat, buckets: Buckets, requests: seq<Request>, c: Client,
                                             last: real, until: real, b: Bucket)
    requires Monotone(requests, last) && Others(requests, c, until) && last <= until
    requires if c in buckets then buckets[c] == b else Expired(b, last)
    ensures
      var after := Table(capacity, buckets, requests);
      if c in after then after[c] == b else Expired(b, until)
    decreases |requests|
  {
    if requests != [] {
      var r := requests[0];
      assert r.client != c && r.time <= until;
      OthersLeaveWindow(capacity, Step(capacity, buckets, r.client, r.time).0, requests[1..], c, r.time,
                        until, b);
    }
  }

  /** The returned Retry-After is exact: between 1 and 60 seconds, enough for the client's own count
      not to reject it again, and one second less is not enough, whatever others do meanwhile. */
  lemma RetryAfterIsExact(capacity: nat, buckets: Buckets, c: Client, now: real, others: seq<Request>,
                          later: real)
    requires Step(capacity, buckets, c, now).1.OverLimit?
    requires c in buckets ==> buckets[c].start <= now
    requires Monotone(others, now) && Others(others, c, later) && now <= later
    ensures
      var wait := Step(capacity, buckets, c, now).1.retryAfter;
      var after := Table(capacity, Step(capacity, buckets, c, now).0, others);
      && 1 <= wait <= 60
      && (later >= now + wait as real ==> !Step(capacity, after, c, later).1.OverLimit?)
      && (later <= now + (wait - 1) as real ==> Step(capacity, after, c, later).1.OverLimit?)
  {
    var b := buckets[c];
    OthersLeaveWindow(capacity, Step(capacity, buckets, c, now).0, others, c, now, later, b);
  }
}
