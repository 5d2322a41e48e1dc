/**
 The sliding-window rate limiter: one list of admission times per client, trimmed at each
 request, and a purge of all lists every five minutes. Clock values are reals; requests are
 served one at a time, in the order of their clock values (no await stands between reading the
 clock and leaving the lock).
 */
module RateLimit {
  import opened Sequences

  const WINDOW: real := 60.0
  const CLEANUP_INTERVAL: real := 300.0

  datatype Outcome =
    | Passed                       // the limiter is switched off
    | Admitted
    | Rejected(retryAfter: int)
    | IndexError                   // a limit of zero or less meets an empty list

  // ---- the limiter's state as a value ----

  datatype Limiter = Limiter(requests: map<string, seq<real>>, lastCleanup: real)

  /** [t for t in timestamps if t > cutoff] */
  function Recent(ts: seq<real>, cutoff: real): seq<real> {
    if ts == [] then []
    else if Last(ts) > cutoff then Recent(Front(ts), cutoff) + [Last(ts)]
    else Recent(Front(ts), cutoff)
  }

  function Times(requests: map<string, seq<real>>, ip: string): seq<real> {
    if ip in requests then requests[ip] else []
  }

  function Purged(requests: map<string, seq<real>>, cutoff: real): map<string, seq<real>> {
    map ip | ip in requests && Recent(requests[ip], cutoff) != [] :: Recent(requests[ip], cutoff)
  }

  /** The sweep so far: every list but those to do is trimmed, and the empty ones are noted. */
  ghost predicate Swept(before: map<string, seq<real>>, requests: map<string, seq<real>>, todo: set<string>,
                  stale: set<string>, cutoff: real) {
    && requests.Keys == before.Keys
    && (forall ip | ip in before :: requests[ip] == if ip in todo then before[ip] else Recent(before[ip], cutoff))
    && (forall ip :: ip in stale <==> ip in before && ip !in todo && Recent(before[ip], cutoff) == [])
  }

  lemma SweptIsPurged(before: map<string, seq<real>>, requests: map<string, seq<real>>, stale: set<string>, cutoff: real)
    requires Swept(before, requests, {}, stale, cutoff)
    ensures requests - stale == Purged(before, cutoff)
  {
  }

  lemma {:induction false} RecentSome(ts: seq<real>, cutoff: real)
    ensures Recent(ts, cutoff) != [] <==> exists i :: 0 <= i < |ts| && ts[i] > cutoff
  {
    if ts != [] {
      var f := Front(ts);
      RecentSome(f, cutoff);
      assert forall i | 0 <= i < |f| :: f[i] == ts[i];
      assert Last(ts) == ts[|ts| - 1];
    }
  }

  function Cleanup(l: Limiter, now: real): Limiter {
    if now - l.lastCleanup < CLEANUP_INTERVAL then l
    else Limiter(Purged(l.requests, now - WINDOW), now)
  }

  /** A sweep is due every three hundred seconds; it keeps exactly the clients with an admission less than
      sixty seconds old, with those admissions. */
  lemma CleanupMeans(l: Limiter, now: real, ip: string)
    ensures now - l.lastCleanup < 300.0 ==> Cleanup(l, now) == l
    ensures now - l.lastCleanup >= 300.0 ==>
              && Cleanup(l, now).lastCleanup == now
              && (ip in Cleanup(l, now).requests <==>
                    ip in l.requests && exists i :: 0 <= i < |l.requests[ip]| && l.requests[ip][i] > now - 60.0)
              && (ip in Cleanup(l, now).requests ==> Cleanup(l, now).requests[ip] == Recent(l.requests[ip], now - 60.0))
  {
    if ip in l.requests {
      RecentSome(l.requests[ip], now - 60.0);
    }
  }

  /** What the trimmed list of a client decides. */
  function Decide(limit: int, recent: seq<real>, now: real): Outcome {
    if |recent| < limit then Admitted
    else if recent == [] then IndexError
    else Rejected((recent[0] + WINDOW - now).Floor + 1)
  }

  function Serve(limit: int, l: Limiter, ip: string, now: real): (Limiter, Outcome) {
    var c := Cleanup(l, now);
    var recent := Recent(Times(c.requests, ip), now - WINDOW);
    var o := Decide(limit, recent, now);
    (c.(requests := c.requests[ip := if o.Admitted? then recent + [now] else recent]), o)
  }

  // ---- the middleware ----

  class RateLimitMiddleware {
    const requestsPerMinute: int
    const enabled: bool
    var requests: map<string, seq<real>>
    var lastCleanup: real

    function State(): Limiter
      reads this
    {
      Limiter(requests, lastCleanup)
    }

    constructor (limit: int, enabled: bool, now: real)
      ensures requestsPerMinute == limit && this.enabled == enabled && State() == Limiter(map[], now)
    {
      requestsPerMinute, this.enabled := limit, enabled;
      requests, lastCleanup := map[], now;
    }

    method Trim(ts: seq<real>, cutoff: real) returns (recent: seq<real>)
      ensures recent == Recent(ts, cutoff)
    {
      recent := [];
      var i := 0;
      while i < |ts|
        invariant i <= |ts| && recent == Recent(ts[..i], cutoff)
      {
        assert Front(ts[..i + 1]) == ts[..i];
        if ts[i] > cutoff {
          recent := recent + [ts[i]];
        }
        i := i + 1;
      }
      assert ts[..i] == ts;
    }

    /** Trims every list, collects the clients left without entries, then deletes those. */
    method CleanupExpired(now: real)
      modifies this
      ensures State() == Cleanup(old(State()), now)
    {
      if now - lastCleanup < CLEANUP_INTERVAL {
        return;
      }
      lastCleanup := now;
      var cutoff := now - WINDOW;
      var todo, stale: set<string> := requests.Keys, {};
      ghost var before := requests;
      while todo != {}
        invariant todo <= before.Keys && lastCleanup == now && Swept(before, requests, todo, stale, cutoff)
        decreases todo
      {
        var ip :| ip in todo;
        var recent := Trim(requests[ip], cutoff);
        requests := requests[ip := recent];
        if recent == [] {
          stale := stale + {ip};
        }
        todo := todo - {ip};
      }
      SweptIsPurged(before, requests, stale, cutoff);
      requests := requests - stale;
    }

    method Dispatch(ip: string, now: real) returns (o: Outcome)
      modifies this
      ensures !enabled ==> o == Passed && State() == old(State())
      ensures enabled ==> (State(), o) == Serve(requestsPerMinute, old(State()), ip, now)
    {
      if !enabled {
        return Passed;
      }
      CleanupExpired(now);
      ghost var trimmed := requests;
      var times := if ip in requests then requests[ip] else [];
      var recent := Trim(times, now - WINDOW);
      requests := requests[ip := recent];
      if |recent| >= requestsPerMinute {
        if recent == [] {
          return IndexError;
        }
        return Rejected((recent[0] + WINDOW - now).Floor + 1);
      }
      requests := requests[ip := recent + [now]];
      assert requests == trimmed[ip := recent + [now]];
      o := Admitted;
    }
  }

  // ---- histories ----

  datatype Call = Call(ip: string, now: real)

  predicate Ordered(calls: seq<Call>) {
    forall i, j | 0 <= i < j < |calls| :: calls[i].now <= calls[j].now
  }

  /** The limiter after `calls`, and its answer to the last of them. */
  function After(limit: int, start: real, calls: seq<Call>): Limiter {
    if calls == [] then Limiter(map[], start)
    else Serve(limit, After(limit, start, Front(calls)), Last(calls).ip, Last(calls).now).0
  }

  function Answer(limit: int, start: real, calls: seq<Call>): Outcome
    requires calls != []
  {
    Serve(limit, After(limit, start, Front(calls)), Last(calls).ip, Last(calls).now).1
  }

  /** The times at which `ip` was admitted. */
  function Admissions(limit: int, start: real, calls: seq<Call>, ip: string): seq<real> {
    if calls == [] then []
    else if Last(calls).ip == ip && Answer(limit, start, calls).Admitted? then
      Admissions(limit, start, Front(calls), ip) + [Last(calls).now]
    else Admissions(limit, start, Front(calls), ip)
  }

  // ---- a reference that never forgets ----

  /** Decisions made on the full admission history: no trimming, no purge, no stored state. */
  function RefAdmissions(limit: int, calls: seq<Call>, ip: string): seq<real>
    decreases |calls|, 1
  {
    if calls == [] then []
    else if Last(calls).ip == ip && RefAnswer(limit, calls).Admitted? then
      RefAdmissions(limit, Front(calls), ip) + [Last(calls).now]
    else RefAdmissions(limit, Front(calls), ip)
  }

  function RefAnswer(limit: int, calls: seq<Call>): Outcome
    requires calls != []
    decreases |calls|, 0
  {
    Decide(limit, Recent(RefAdmissions(limit, Front(calls), Last(calls).ip), Last(calls).now - WINDOW), Last(calls).now)
  }

  lemma {:induction false} RecentTwice(ts: seq<real>, c: real, d: real)
    requires c <= d
    ensures Recent(Recent(ts, c), d) == Recent(ts, d)
  {
    if ts != [] {
      RecentTwice(Front(ts), c, d);
    }
  }

  function Appended(ts: seq<real>, x: real, counts: bool): seq<real> { if counts then ts + [x] else ts }

  /** A purge or a trim at `now` is invisible to every later cutoff. */
  lemma ServeSees(limit: int, l: Limiter, ip: string, now: real, who: string, cutoff: real)
    requires now - WINDOW <= cutoff
    ensures var (l', o) := Serve(limit, l, ip, now);
            Recent(Times(l'.requests, who), cutoff)
            == Appended(Recent(Times(l.requests, who), cutoff), now, who == ip && o.Admitted? && now > cutoff)
    ensures Serve(limit, l, ip, now).1 == Decide(limit, Recent(Times(l.requests, ip), now - WINDOW), now)
  {
    var c := Cleanup(l, now);
    RecentTwice(Times(l.requests, who), now - WINDOW, cutoff);
    RecentTwice(Times(l.requests, ip), now - WINDOW, now - WINDOW);
    assert Recent(Times(c.requests, who), cutoff) == Recent(Times(l.requests, who), cutoff);
    assert Recent(Times(c.requests, ip), now - WINDOW) == Recent(Times(l.requests, ip), now - WINDOW);
    RecentTwice(Times(c.requests, who), now - WINDOW, cutoff);
  }

  /** The stored lists hold, of the full history, all that later requests can look at. */
  lemma {:induction false} StateMatchesHistory(limit: int, start: real, calls: seq<Call>, who: string, cutoff: real)
    requires Ordered(calls) && (calls != [] ==> Last(calls).now - WINDOW <= cutoff)
    ensures Recent(Times(After(limit, start, calls).requests, who), cutoff)
            == Recent(RefAdmissions(limit, calls, who), cutoff)
    decreases |calls|, 1
  {
    if calls != [] {
      var f, ip, now := Front(calls), Last(calls).ip, Last(calls).now;
      StateMatchesHistory(limit, start, f, who, cutoff);
      AnswerMatches(limit, start, calls);
      ServeSees(limit, After(limit, start, f), ip, now, who, cutoff);
    }
  }

  lemma {:induction false} AnswerMatches(limit: int, start: real, calls: seq<Call>)
    requires Ordered(calls) && calls != []
    ensures Answer(limit, start, calls) == RefAnswer(limit, calls)
    decreases |calls|, 0
  {
    var f, ip, now := Front(calls), Last(calls).ip, Last(calls).now;
    StateMatchesHistory(limit, start, f, ip, now - WINDOW);
    ServeSees(limit, After(limit, start, f), ip, now, ip, now - WINDOW);
  }

  /** The purge is invisible: every answer is the one a limiter with unlimited memory gives. */
  lemma PurgeInvisible(limit: int, start: real, calls: seq<Call>)
    requires Ordered(calls) && calls != []
    ensures Answer(limit, start, calls) == RefAnswer(limit, calls)
  {
    AnswerMatches(limit, start, calls);
  }

  lemma {:induction false} SameAdmissions(limit: int, start: real, calls: seq<Call>, ip: string)
    requires Ordered(calls)
    ensures Admissions(limit, start, calls, ip) == RefAdmissions(limit, calls, ip)
    decreases |calls|
  {
    if calls != [] {
      SameAdmissions(limit, start, Front(calls), ip);
      PurgeInvisible(limit, start, calls);
    }
  }

  // ---- the window ----

  /** How many of `ts` lie in (t - 60, t]. */
  function InWindow(ts: seq<real>, t: real): nat {
    if ts == [] then 0
    else InWindow(Front(ts), t) + if t - 60.0 < Last(ts) <= t then 1 else 0
  }

  function Max0(limit: int): nat { if limit < 0 then 0 else limit }

  lemma {:induction false} WindowAtMostRecent(ts: seq<real>, t: real, c: real)
    requires c <= t - WINDOW
    ensures InWindow(ts, t) <= |Recent(ts, c)|
  {
    if ts != [] {
      WindowAtMostRecent(Front(ts), t, c);
    }
  }

  /** All of `ts` is at or before `t`. */
  predicate UpTo(ts: seq<real>, t: real) {
    forall i | 0 <= i < |ts| :: ts[i] <= t
  }

  lemma {:induction false} AdmissionsUpTo(limit: int, calls: seq<Call>, ip: string, t: real)
    requires Ordered(calls) && (calls != [] ==> Last(calls).now <= t)
    ensures UpTo(RefAdmissions(limit, calls, ip), t)
  {
    if calls != [] {
      AdmissionsUpTo(limit, Front(calls), ip, t);
    }
  }

  lemma {:induction false} RefWindow(limit: int, calls: seq<Call>, ip: string, t: real)
    requires Ordered(calls)
    ensures InWindow(RefAdmissions(limit, calls, ip), t) <= Max0(limit)
    decreases |calls|
  {
    if calls != [] {
      var f, now := Front(calls), Last(calls).now;
      RefWindow(limit, f, ip, t);
      if Last(calls).ip == ip && RefAnswer(limit, calls).Admitted? {
        if now <= t {
          WindowAtMostRecent(RefAdmissions(limit, f, ip), t, now - WINDOW);
        }
      }
    }
  }

  /** Never more than the limit: for every ordered sequence of requests, every client and every
      instant, the admissions in the sixty seconds up to it are at most the limit. */
  lemma WindowLimit(limit: int, start: real, calls: seq<Call>, ip: string, t: real)
    requires Ordered(calls)
    ensures InWindow(Admissions(limit, start, calls, ip), t) <= Max0(limit)
  {
    SameAdmissions(limit, start, calls, ip);
    RefWindow(limit, calls, ip, t);
  }

  // ---- Retry-After ----

  /** All of `ts` is after c. */
  predicate Above(ts: seq<real>, c: real) {
    forall i | 0 <= i < |ts| :: ts[i] > c
  }

  lemma AboveFront(ts: seq<real>, c: real)
    requires ts != []
    ensures Above(ts, c) <==> Above(Front(ts), c) && Last(ts) > c
  {
    var f := Front(ts);
    assert forall i | 0 <= i < |f| :: f[i] == ts[i];
    assert forall i | 0 <= i < |ts| :: i < |f| || ts[i] == Last(ts);
  }

  lemma {:induction false} RecentShrinks(ts: seq<real>, c: real)
    ensures |Recent(ts, c)| <= |ts|
    ensures |Recent(ts, c)| == |ts| <==> Above(ts, c)
    ensures Above(ts, c) ==> Recent(ts, c) == ts
  {
    if ts != [] {
      RecentShrinks(Front(ts), c);
      AboveFront(ts, c);
      FrontAndLast(ts);
    }
  }

  predicate Sorted(ts: seq<real>) {
    forall i, j | 0 <= i < j < |ts| :: ts[i] <= ts[j]
  }

  lemma {:induction false} AdmissionsSorted(limit: int, calls: seq<Call>, ip: string)
    requires Ordered(calls)
    ensures Sorted(RefAdmissions(limit, calls, ip))
  {
    if calls != [] {
      AdmissionsSorted(limit, Front(calls), ip);
      AdmissionsUpTo(limit, Front(calls), ip, Last(calls).now);
    }
  }

  lemma {:induction false} RecentSorted(ts: seq<real>, c: real, t: real)
    requires Sorted(ts) && UpTo(ts, t)
    ensures Sorted(Recent(ts, c)) && UpTo(Recent(ts, c), t)
  {
    if ts != [] {
      var x := Last(ts);
      assert UpTo(Front(ts), x);
      RecentSorted(Front(ts), c, x);
    }
  }

  lemma {:induction false} WindowIsRecent(ts: seq<real>, t: real)
    requires UpTo(ts, t)
    ensures InWindow(ts, t) == |Recent(ts, t - WINDOW)|
  {
    if ts != [] {
      WindowIsRecent(Front(ts), t);
    }
  }

  /** Requests of other clients leave a client's admissions alone. */
  lemma {:induction false} OthersDoNotCount(limit: int, calls: seq<Call>, others: seq<Call>, ip: string)
    requires forall c | c in others :: c.ip != ip
    ensures RefAdmissions(limit, calls + others, ip) == RefAdmissions(limit, calls, ip)
  {
    if others == [] {
      assert calls + others == calls;
    } else {
      assert Front(calls + others) == calls + Front(others) && Last(calls + others) == Last(others);
      OthersDoNotCount(limit, calls, Front(others), ip);
    }
  }

  /** A full window at `now` is still full at `later` exactly until its oldest entry leaves it. */
  lemma FullUntilOldestLeaves(limit: int, ts: seq<real>, now: real, later: real)
    requires limit >= 1 && now <= later && Sorted(ts) && UpTo(ts, now)
    requires |Recent(ts, now - WINDOW)| == limit
    ensures Decide(limit, Recent(ts, later - WINDOW), later) == Admitted
            <==> Recent(ts, now - WINDOW)[0] + WINDOW <= later
  {
    var full := Recent(ts, now - WINDOW);
    RecentSorted(ts, now - WINDOW, now);
    RecentTwice(ts, now - WINDOW, later - WINDOW);
    RecentShrinks(full, later - WINDOW);
  }

  lemma {:induction false} NoneAdmitted(limit: int, calls: seq<Call>, ip: string)
    requires limit <= 0
    ensures RefAdmissions(limit, calls, ip) == []
  {
    if calls != [] {
      NoneAdmitted(limit, Front(calls), ip);
    }
  }

  /** The limiter raises exactly when its limit is zero or less, and then at every request. */
  lemma RaisesIff(limit: int, start: real, calls: seq<Call>)
    requires Ordered(calls) && calls != []
    ensures Answer(limit, start, calls) == IndexError <==> limit <= 0
  {
    AnswerMatches(limit, start, calls);
    if limit <= 0 {
      NoneAdmitted(limit, Front(calls), Last(calls).ip);
    }
  }

  /** What a rejection says about the history behind it. */
  lemma RejectionMeansFull(limit: int, f: seq<Call>, ip: string, now: real)
    requires Ordered(f) && (f != [] ==> Last(f).now <= now)
    requires Decide(limit, Recent(RefAdmissions(limit, f, ip), now - WINDOW), now).Rejected?
    ensures var ts := RefAdmissions(limit, f, ip);
            && limit >= 1 && Sorted(ts) && UpTo(ts, now) && |Recent(ts, now - WINDOW)| == limit
            && now - WINDOW < Recent(ts, now - WINDOW)[0] <= now
  {
    var ts := RefAdmissions(limit, f, ip);
    if limit <= 0 {
      NoneAdmitted(limit, f, ip);
      assert false;
    }
    AdmissionsSorted(limit, f, ip);
    AdmissionsUpTo(limit, f, ip, now);
    WindowIsRecent(ts, now);
    RefWindow(limit, f, ip, now);
    RecentSorted(ts, now - WINDOW, now);
    RecentAbove(ts, now - WINDOW);
  }

  lemma {:induction false} RecentAbove(ts: seq<real>, c: real)
    ensures forall i | 0 <= i < |Recent(ts, c)| :: Recent(ts, c)[i] > c
  {
    if ts != [] {
      RecentAbove(Front(ts), c);
    }
  }

  /** What the client's next request is decided on. */
  lemma NextAnswer(limit: int, start: real, calls: seq<Call>, others: seq<Call>, later: real)
    requires calls != [] && Answer(limit, start, calls).Rejected?
    requires Ordered(calls) && Ordered(calls + others + [Call(Last(calls).ip, later)])
    requires forall c | c in others :: c.ip != Last(calls).ip
    ensures var ip, all := Last(calls).ip, calls + others + [Call(Last(calls).ip, later)];
            Answer(limit, start, all)
            == Decide(limit, Recent(RefAdmissions(limit, Front(calls), ip), later - WINDOW), later)
  {
    var ip := Last(calls).ip;
    var all := calls + others + [Call(ip, later)];
    AnswerMatches(limit, start, all);
    assert Front(all) == calls + others && Last(all) == Call(ip, later);
    OthersDoNotCount(limit, calls, others, ip);
    AnswerMatches(limit, start, calls);
  }

  /** A sorted list loses its oldest entries, and keeps the others. */
  lemma {:induction false} RecentIsSuffix(ts: seq<real>, c: real)
    requires Sorted(ts)
    ensures |Recent(ts, c)| <= |ts| && Recent(ts, c) == ts[|ts| - |Recent(ts, c)|..]
  {
    if ts != [] {
      var f := Front(ts);
      assert Sorted(f);
      RecentIsSuffix(f, c);
      if Last(ts) <= c {
        assert forall i | 0 <= i < |f| :: f[i] <= c;
        NoneRecent(f, c);
      } else {
        assert ts == f + [Last(ts)];
      }
    }
  }

  lemma {:induction false} NoneRecent(ts: seq<real>, c: real)
    requires UpTo(ts, c)
    ensures Recent(ts, c) == []
  {
    if ts != [] {
      assert UpTo(Front(ts), c);
      NoneRecent(Front(ts), c);
    }
  }

  lemma RefRejectedIff(limit: int, f: seq<Call>, ip: string, now: real)
    requires limit >= 1 && Ordered(f) && (f != [] ==> Last(f).now <= now)
    ensures var o := Decide(limit, Recent(RefAdmissions(limit, f, ip), now - WINDOW), now);
            && (o.Rejected? <==> InWindow(RefAdmissions(limit, f, ip), now) == limit)
            && (!o.Rejected? ==> o == Admitted)
  {
    var ts := RefAdmissions(limit, f, ip);
    AdmissionsUpTo(limit, f, ip, now);
    WindowIsRecent(ts, now);
    RefWindow(limit, f, ip, now);
  }

  /** With a limit of at least one, a request is rejected exactly when its client was admitted as often as
      the limit allows in the sixty seconds up to it. */
  lemma RejectedIff(limit: int, start: real, calls: seq<Call>)
    requires Ordered(calls) && calls != [] && limit >= 1
    ensures Answer(limit, start, calls).Rejected? <==>
              InWindow(Admissions(limit, start, Front(calls), Last(calls).ip), Last(calls).now) == limit
    ensures !Answer(limit, start, calls).Rejected? ==> Answer(limit, start, calls) == Admitted
  {
    AnswerMatches(limit, start, calls);
    SameAdmissions(limit, start, Front(calls), Last(calls).ip);
    RefRejectedIff(limit, Front(calls), Last(calls).ip, Last(calls).now);
  }

  /** The limit-th last of the times. */
  function Counted(limit: int, times: seq<real>): real {
    if 1 <= limit <= |times| then times[|times| - limit] else 0.0
  }

  /** The entry that a rejected client's next admission waits for: its limit-th last admission. */
  function OldestCounted(limit: int, start: real, calls: seq<Call>): real
    requires calls != []
  {
    Counted(limit, Admissions(limit, start, Front(calls), Last(calls).ip))
  }

  lemma OldestOf(limit: int, f: seq<Call>, ip: string, now: real)
    requires Ordered(f) && (f != [] ==> Last(f).now <= now)
    requires Decide(limit, Recent(RefAdmissions(limit, f, ip), now - WINDOW), now).Rejected?
    ensures var ts := RefAdmissions(limit, f, ip);
            && |Recent(ts, now - WINDOW)| == limit && 1 <= limit <= |ts| && Sorted(ts) && UpTo(ts, now)
            && Recent(ts, now - WINDOW)[0] == ts[|ts| - limit]
            && now - 60.0 < ts[|ts| - limit] <= now
  {
    RejectionMeansFull(limit, f, ip, now);
    RecentIsSuffix(RefAdmissions(limit, f, ip), now - WINDOW);
  }

  /** The answer `o` at `now` announces the least whole number of seconds after which the entry at
      `oldest` is more than sixty seconds old; `next` is an admission exactly from the moment it is sixty
      seconds old. */
  predicate Announces(o: Outcome, next: Outcome, now: real, later: real, oldest: real) {
    && now - 60.0 < oldest <= now
    && o.Rejected? && 1 <= o.retryAfter <= 61
    && (o.retryAfter - 1) as real <= oldest + 60.0 - now < o.retryAfter as real
    && (next == Admitted <==> oldest + 60.0 <= later)
    && (now + o.retryAfter as real <= later ==> next == Admitted)
  }

  lemma WaitIs(limit: int, ts: seq<real>, now: real, later: real, oldest: real)
    requires |Recent(ts, now - WINDOW)| == limit >= 1 && Sorted(ts) && UpTo(ts, now) && now <= later
    requires oldest == Recent(ts, now - WINDOW)[0] && now - 60.0 < oldest <= now
    ensures Announces(Decide(limit, Recent(ts, now - WINDOW), now), Decide(limit, Recent(ts, later - WINDOW), later),
                      now, later, oldest)
  {
    FullUntilOldestLeaves(limit, ts, now, later);
  }

  lemma OldestIs(limit: int, start: real, calls: seq<Call>)
    requires Ordered(calls) && calls != []
    ensures OldestCounted(limit, start, calls) == Counted(limit, RefAdmissions(limit, Front(calls), Last(calls).ip))
  {
    SameAdmissions(limit, start, Front(calls), Last(calls).ip);
  }

  lemma AnswerIs(limit: int, start: real, calls: seq<Call>)
    requires Ordered(calls) && calls != []
    ensures Answer(limit, start, calls)
            == Decide(limit, Recent(RefAdmissions(limit, Front(calls), Last(calls).ip), Last(calls).now - WINDOW), Last(calls).now)
  {
    AnswerMatches(limit, start, calls);
  }

  lemma FrontOrdered(calls: seq<Call>)
    requires Ordered(calls) && calls != []
    ensures Ordered(Front(calls)) && (Front(calls) != [] ==> Last(Front(calls)).now <= Last(calls).now)
  {
  }

  lemma DecisionAnnounces(limit: int, f: seq<Call>, ip: string, now: real, later: real)
    requires Ordered(f) && (f != [] ==> Last(f).now <= now) && now <= later
    requires Decide(limit, Recent(RefAdmissions(limit, f, ip), now - WINDOW), now).Rejected?
    ensures var ts := RefAdmissions(limit, f, ip);
            limit >= 1 && Announces(Decide(limit, Recent(ts, now - WINDOW), now), Decide(limit, Recent(ts, later - WINDOW), later),
                                    now, later, Counted(limit, ts))
  {
    OldestOf(limit, f, ip, now);
    WaitIs(limit, RefAdmissions(limit, f, ip), now, later, Counted(limit, RefAdmissions(limit, f, ip)));
  }

  /** What is known of the answer `o` to the last of the calls. */
  predicate AnswersBy(limit: int, calls: seq<Call>, o: Outcome, oldest: real)
    requires calls != []
  {
    var ts, now := RefAdmissions(limit, Front(calls), Last(calls).ip), Last(calls).now;
    o == Decide(limit, Recent(ts, now - WINDOW), now) && oldest == Counted(limit, ts)
  }

  lemma AnswerBy(limit: int, start: real, calls: seq<Call>)
    requires Ordered(calls) && calls != []
    ensures AnswersBy(limit, calls, Answer(limit, start, calls), OldestCounted(limit, start, calls))
  {
    AnswerIs(limit, start, calls);
    OldestIs(limit, start, calls);
  }

  lemma WaitAnnounced(limit: int, calls: seq<Call>, o: Outcome, oldest: real, later: real)
    requires Ordered(calls) && calls != [] && o.Rejected? && Last(calls).now <= later && AnswersBy(limit, calls, o, oldest)
    ensures limit >= 1
    ensures Announces(o, Decide(limit, Recent(RefAdmissions(limit, Front(calls), Last(calls).ip), later - WINDOW), later),
                      Last(calls).now, later, oldest)
  {
    FrontOrdered(calls);
    DecisionAnnounces(limit, Front(calls), Last(calls).ip, Last(calls).now, later);
  }

  /** A rejected client is told how long to wait: a value in 1..61, the least whole number of seconds
      after which its limit-th last admission is more than sixty seconds old. With no other request of its
      own in between, its next request is admitted exactly from the moment that entry is sixty seconds
      old, which waiting the announced seconds always reaches. */
  lemma RetryAfter(limit: int, start: real, calls: seq<Call>, others: seq<Call>, later: real)
    requires Ordered(calls) && calls != [] && Answer(limit, start, calls).Rejected?
    requires Ordered(calls + others + [Call(Last(calls).ip, later)]) && Last(calls).now <= later
    requires forall c | c in others :: c.ip != Last(calls).ip
    ensures limit >= 1
    ensures Announces(Answer(limit, start, calls), Answer(limit, start, calls + others + [Call(Last(calls).ip, later)]),
                      Last(calls).now, later, OldestCounted(limit, start, calls))
  {
    AnswerBy(limit, start, calls);
    WaitAnnounced(limit, calls, Answer(limit, start, calls), OldestCounted(limit, start, calls), later);
    NextAnswer(limit, start, calls, others, later);
  }
}
