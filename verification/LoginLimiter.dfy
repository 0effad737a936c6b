/** The sign-in attempt limiter (packages/dsh-luban-auth/src/auth-manager.ts, consumeLoginAttempt). */
module LoginLimiter {
  import opened Wrappers

  const RATE_WINDOW_MS := 60000

  /** The timestamps that still count at `now`, in order. */
  function Recent(timestamps: seq<int>, now: int): (r: seq<int>)
    ensures |r| <= |timestamps|
  {
    if timestamps == [] then []
    else (if timestamps[0] > now - RATE_WINDOW_MS then [timestamps[0]] else []) + Recent(timestamps[1..], now)
  }

  /** Seconds from `now` until `oldest` leaves the window, rounded up, at least one. */
  function RetryAfter(oldest: int, now: int): int {
    var seconds := -((-(oldest + RATE_WINDOW_MS - now)) / 1000);
    if seconds < 1 then 1 else seconds
  }

  /** One attempt: the timestamps kept for the source, and how long to wait when it is refused. */
  function Consume(stored: seq<int>, now: int, limit: int): (seq<int>, Option<int>)
  {
    var recent := Recent(stored, now);
    if |recent| >= limit then (recent, Some(RetryAfter(if recent != [] then recent[0] else now, now)))
    else (recent + [now], None)
  }

  /** The filter over the remembered timestamps. */
  method FilterRecent(all: seq<int>, now: int) returns (recent: seq<int>)
    ensures recent == Recent(all, now)
  {
    recent := [];
    for i := 0 to |all|
      invariant recent + Recent(all[i..], now) == Recent(all, now)
    {
      assert all[i..][1..] == all[i + 1..];
      if all[i] > now - RATE_WINDOW_MS {
        recent := recent + [all[i]];
      }
    }
  }

  function SourceKey(sourceIp: string): string {
    if sourceIp == "" then "unknown" else sourceIp
  }

  class AuthManager {
    const loginRateLimit: int
    var attemptsByIp: map<string, seq<int>>

    /** The constructor refuses a limit below one. */
    constructor (loginRateLimit: int)
      requires loginRateLimit >= 1
      ensures this.loginRateLimit == loginRateLimit && attemptsByIp == map[]
    {
      this.loginRateLimit, attemptsByIp := loginRateLimit, map[];
    }

    function Stored(key: string): seq<int>
      reads this
    {
      if key in attemptsByIp then attemptsByIp[key] else []
    }

    method ConsumeLoginAttempt(sourceIp: string, now: int) returns (retryAfterSec: Option<int>)
      modifies this
      ensures (Stored(SourceKey(sourceIp)), retryAfterSec)
           == Consume(old(Stored(SourceKey(sourceIp))), now, loginRateLimit)
      ensures forall key :: key != SourceKey(sourceIp) ==> Stored(key) == old(Stored(key))
    {
      var key := SourceKey(sourceIp);
      var recent := FilterRecent(if key in attemptsByIp then attemptsByIp[key] else [], now);
      if |recent| >= loginRateLimit {
        attemptsByIp := attemptsByIp[key := recent];
        var oldest := if recent != [] then recent[0] else now;
        return Some(RetryAfter(oldest, now));
      }
      attemptsByIp := attemptsByIp[key := recent + [now]];
      return None;
    }
  }

  // ----- One source over time -----

  /** The limiter's memory for a source, and every attempt it ever admitted. */
  datatype Source = Source(stored: seq<int>, admitted: seq<int>)

  function Attempt(s: Source, now: int, limit: int): Source {
    var (stored, refused) := Consume(s.stored, now, limit);
    Source(stored, if refused.None? then s.admitted + [now] else s.admitted)
  }

  function Attempts(s: Source, times: seq<int>, limit: int): Source
    decreases times
  {
    if times == [] then s else Attempts(Attempt(s, times[0], limit), times[1..], limit)
  }

  ghost predicate Ascending(times: seq<int>) {
    forall i, j :: 0 <= i < j < |times| ==> times[i] <= times[j]
  }

  /** What is remembered is the end of what was admitted; the rest is too old to count at any time from `now` on. */
  ghost predicate Remembers(s: Source, now: int) {
    var dropped := |s.admitted| - |s.stored|;
    dropped >= 0 && s.stored == s.admitted[dropped..]
    && forall i :: 0 <= i < dropped ==> s.admitted[i] <= now - RATE_WINDOW_MS
  }

  /** `limit` admissions apart means at least a window apart. */
  ghost predicate WellSpaced(admitted: seq<int>, limit: int)
    requires limit >= 1
  {
    forall i :: 0 <= i < |admitted| - limit ==> admitted[i] + RATE_WINDOW_MS <= admitted[i + limit]
  }

  ghost predicate Inv(s: Source, now: int, limit: int) {
    limit >= 1 && |s.stored| <= limit && Remembers(s, now) && WellSpaced(s.admitted, limit)
    && Ascending(s.admitted) && forall t :: t in s.admitted ==> t <= now
  }

  /** On ascending timestamps the recent ones are a suffix. */
  lemma {:induction false} RecentIsSuffix(timestamps: seq<int>, now: int) returns (k: nat)
    requires Ascending(timestamps)
    ensures k <= |timestamps| && Recent(timestamps, now) == timestamps[k..]
    ensures forall i :: 0 <= i < |timestamps| ==> (timestamps[i] > now - RATE_WINDOW_MS <==> i >= k)
  {
    if timestamps == [] {
      k := 0;
    } else {
      var rest := timestamps[1..];
      assert timestamps == [timestamps[0]] + rest;
      assert forall i :: 0 < i < |timestamps| ==> timestamps[i] == rest[i - 1];
      var j := RecentIsSuffix(rest, now);
      k := if timestamps[0] > now - RATE_WINDOW_MS then 0 else j + 1;
      assert k == 0 ==> rest[j..] == rest;
      assert k > 0 ==> timestamps[k..] == rest[j..];
    }
  }

  /** What still counts at `now`, as a suffix of all admissions. */
  lemma RecentAdmissions(s: Source, earlier: int, now: int, limit: int) returns (from: nat)
    requires Inv(s, earlier, limit) && earlier <= now
    ensures from <= |s.admitted| && |s.admitted| - from <= |s.stored| && Recent(s.stored, now) == s.admitted[from..]
    ensures forall i :: 0 <= i < |s.admitted| ==> (s.admitted[i] > now - RATE_WINDOW_MS <==> i >= from)
  {
    var dropped := |s.admitted| - |s.stored|;
    SuffixAscends(s.admitted, dropped);
    var k := RecentIsSuffix(s.stored, now);
    from := dropped + k;
    forall i | dropped <= i < |s.admitted| ensures s.admitted[i] > now - RATE_WINDOW_MS <==> i >= from {
      assert s.admitted[i] == s.stored[i - dropped];
    }
  }

  lemma SuffixAscends(times: seq<int>, k: nat)
    requires Ascending(times) && k <= |times|
    ensures Ascending(times[k..])
  {
  }

  lemma AttemptKeepsInv(s: Source, earlier: int, now: int, limit: int)
    requires Inv(s, earlier, limit) && earlier <= now
    ensures Inv(Attempt(s, now, limit), now, limit)
  {
    var from := RecentAdmissions(s, earlier, now, limit);
    var recent := s.admitted[from..];
    assert |recent| == |s.admitted| - from;
    if |recent| < limit {
      AdmissionKeepsInv(s.admitted, from, now, limit);
      assert Attempt(s, now, limit) == Source(recent + [now], s.admitted + [now]);
    } else {
      assert Attempt(s, now, limit) == Source(recent, s.admitted);
      RefusalKeepsInv(s, earlier, from, now, limit);
    }
  }

  lemma RefusalKeepsInv(s: Source, earlier: int, from: nat, now: int, limit: int)
    requires Inv(s, earlier, limit) && earlier <= now && from <= |s.admitted| && |s.admitted| - from <= limit
    requires forall i :: 0 <= i < from ==> s.admitted[i] <= now - RATE_WINDOW_MS
    ensures Inv(Source(s.admitted[from..], s.admitted), now, limit)
  {
  }

  /** Admitting while fewer than `limit` admissions are recent keeps them a window apart. */
  lemma AdmissionKeepsInv(admitted: seq<int>, from: nat, now: int, limit: int)
    requires limit >= 1 && WellSpaced(admitted, limit) && Ascending(admitted) && forall t :: t in admitted ==> t <= now
    requires |admitted| - limit < from <= |admitted|
    requires forall i :: 0 <= i < from ==> admitted[i] <= now - RATE_WINDOW_MS
    ensures Inv(Source(admitted[from..] + [now], admitted + [now]), now, limit)
  {
    AppendAscends(admitted, now);
    AppendSpaced(admitted, from, now, limit);
    AppendDropped(admitted, from, now);
  }

  lemma AppendAscends(admitted: seq<int>, now: int)
    requires Ascending(admitted) && forall t :: t in admitted ==> t <= now
    ensures Ascending(admitted + [now]) && forall t :: t in admitted + [now] ==> t <= now
  {
    assert forall i :: 0 <= i < |admitted| ==> admitted[i] in admitted;
  }

  lemma AppendSpaced(admitted: seq<int>, from: nat, now: int, limit: int)
    requires limit >= 1 && WellSpaced(admitted, limit) && |admitted| - limit < from <= |admitted|
    requires forall i :: 0 <= i < from ==> admitted[i] <= now - RATE_WINDOW_MS
    ensures WellSpaced(admitted + [now], limit)
  {
    var more := admitted + [now];
    forall i | 0 <= i < |more| - limit ensures more[i] + RATE_WINDOW_MS <= more[i + limit] {
      if i + limit < |admitted| {
        assert admitted[i] + RATE_WINDOW_MS <= admitted[i + limit];
      }
    }
  }

  lemma AppendDropped(admitted: seq<int>, from: nat, now: int)
    requires from <= |admitted| && forall i :: 0 <= i < from ==> admitted[i] <= now - RATE_WINDOW_MS
    ensures Remembers(Source(admitted[from..] + [now], admitted + [now]), now)
  {
    assert (admitted + [now])[from..] == admitted[from..] + [now];
  }

  lemma {:induction false} AttemptsKeepInv(s: Source, earlier: int, times: seq<int>, limit: int) returns (end: int)
    requires Inv(s, earlier, limit) && Ascending(times) && (times != [] ==> earlier <= times[0])
    ensures Inv(Attempts(s, times, limit), end, limit)
    ensures end == if times == [] then earlier else times[|times| - 1]
    decreases |times|
  {
    if times == [] {
      end := earlier;
    } else {
      AttemptKeepsInv(s, earlier, times[0], limit);
      end := AttemptsKeepInv(Attempt(s, times[0], limit), times[0], times[1..], limit);
    }
  }

  const NEW_SOURCE := Source([], [])

  lemma SpacedBound(admitted: seq<int>, limit: int, from: nat, to: nat, end: int)
    requires limit >= 1 && WellSpaced(admitted, limit) && from <= to <= |admitted|
    requires forall i :: from <= i < to ==> end - RATE_WINDOW_MS < admitted[i] <= end
    ensures to - from <= limit
  {
    assert 0 <= from < |admitted| - limit ==> admitted[from] + RATE_WINDOW_MS <= admitted[from + limit];
  }

  /** Any `limit + 1` admissions span at least a window: no window of 60 seconds holds more than `limit`. */
  lemma NoWindowHoldsMore(times: seq<int>, limit: int, from: nat, to: nat, end: int)
    requires limit >= 1 && Ascending(times)
    requires var admitted := Attempts(NEW_SOURCE, times, limit).admitted;
             from <= to <= |admitted| && forall i :: from <= i < to ==> end - RATE_WINDOW_MS < admitted[i] <= end
    ensures to - from <= limit
  {
    var start := if times == [] then 0 else times[0];
    var last := AttemptsKeepInv(NEW_SOURCE, start, times, limit);
    SpacedBound(Attempts(NEW_SOURCE, times, limit).admitted, limit, from, to, end);
  }

  /** An attempt is admitted exactly when fewer than `limit` earlier admissions lie in the window before it. */
  lemma AdmittedIffRoom(s: Source, earlier: int, now: int, limit: int)
    requires Inv(s, earlier, limit) && earlier <= now
    ensures Consume(s.stored, now, limit).1.None? <==> |Recent(s.admitted, now)| < limit
  {
    var from := RecentAdmissions(s, earlier, now, limit);
    var k := RecentIsSuffix(s.admitted, now);
    assert from == k by {
      assert k < |s.admitted| ==> s.admitted[k] > now - RATE_WINDOW_MS;
      assert from < |s.admitted| ==> s.admitted[from] > now - RATE_WINDOW_MS;
    }
  }

  lemma CeilingBounds(x: int)
    ensures var c := -((-x) / 1000); x <= 1000 * c < x + 1000
  {
  }

  /** The wait is honest and tight: whoever waits it out is admitted, whoever comes back a second sooner is refused. */
  lemma RetryAfterIsExact(s: Source, earlier: int, now: int, limit: int, later: int)
    requires Inv(s, earlier, limit) && earlier <= now <= later
    requires Consume(s.stored, now, limit).1.Some?
    ensures var wait := Consume(s.stored, now, limit).1.value;
            var next := Consume(Attempt(s, now, limit).stored, later, limit).1;
            (later >= now + 1000 * wait ==> next.None?) && (later <= now + 1000 * (wait - 1) ==> next.Some?)
  {
    var t := Attempt(s, now, limit);
    var oldest := t.stored[0];
    RefusedStays(s, earlier, now, limit);
    LaterIsDecided(t, now, later, limit);
    CeilingBounds(oldest + RATE_WINDOW_MS - now);
  }

  /** A refusal leaves exactly `limit` timestamps, and the wait is counted from the oldest of them. */
  lemma RefusedStays(s: Source, earlier: int, now: int, limit: int)
    requires Inv(s, earlier, limit) && earlier <= now && Consume(s.stored, now, limit).1.Some?
    ensures var t := Attempt(s, now, limit);
            Inv(t, now, limit) && |t.stored| == limit && t.stored == Recent(s.stored, now)
            && now - RATE_WINDOW_MS < t.stored[0] <= now
            && Consume(s.stored, now, limit).1 == Some(RetryAfter(t.stored[0], now))
  {
    AttemptKeepsInv(s, earlier, now, limit);
    var from := RecentAdmissions(s, earlier, now, limit);
    assert s.admitted[from] in s.admitted && Attempt(s, now, limit).stored[0] == s.admitted[from];
  }

  /** With a full memory, a later attempt is admitted exactly when the oldest timestamp has left the window. */
  lemma LaterIsDecided(t: Source, now: int, later: int, limit: int)
    requires Inv(t, now, limit) && |t.stored| == limit && now <= later
    ensures Consume(t.stored, later, limit).1.None? <==> t.stored[0] <= later - RATE_WINDOW_MS
  {
    SuffixAscends(t.admitted, |t.admitted| - |t.stored|);
    var k := RecentIsSuffix(t.stored, later);
    assert t.stored[0] > later - RATE_WINDOW_MS <==> k == 0;
  }
}
