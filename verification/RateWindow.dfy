/** The sliding rate window of the HUD (packages/dsh-luban-hud/src/rate-window.ts). */
module RateWindow {
  import opened Wrappers

  const ONE_MINUTE_MS := 60000.0
  const FIVE_MINUTES_MS := 300000.0

  /** A number of the source: finite or not. */
  datatype Number = Finite(value: real) | NotFinite

  datatype Tokens = Known(count: Number) | Unknown

  /** A recorded sample; only checked amounts get this far. */
  datatype Amount = Counted(tokens: real) | Uncounted

  datatype Sample = Sample(at: real, amount: Amount, requests: real)

  datatype Rate = Rate(value: real) | UnknownRate

  datatype Rates = Rates(tpm1m: Rate, tpm5m: Rate, rpm1m: real, rpm5m: real)

  predicate NonNegative(n: Number) {
    n.Finite? && n.value >= 0.0
  }

  // ----- The reference: the whole history, never pruned -----

  function Age(s: Sample, now: real): real {
    if now - s.at >= 0.0 then now - s.at else 0.0
  }

  /** The samples younger than `width`, in order. */
  function Within(samples: seq<Sample>, now: real, width: real): seq<Sample> {
    if samples == [] then []
    else (if Age(samples[0], now) < width then [samples[0]] else []) + Within(samples[1..], now, width)
  }

  function SumTokens(samples: seq<Sample>): real {
    if samples == [] then 0.0
    else (match samples[0].amount case Counted(t) => t case Uncounted => 0.0) + SumTokens(samples[1..])
  }

  function SumRequests(samples: seq<Sample>): real {
    if samples == [] then 0.0 else samples[0].requests + SumRequests(samples[1..])
  }

  /** Tokens over a window: unknown as soon as one sample in it is. */
  function TokenRate(samples: seq<Sample>, divisor: real): Rate
    requires divisor > 0.0
  {
    if HasUnknown(samples) then UnknownRate
    else Rate(SumTokens(samples) / divisor)
  }

  function RatesAt(history: seq<Sample>, now: real): Rates {
    var (minute, five) := (Within(history, now, ONE_MINUTE_MS), Within(history, now, FIVE_MINUTES_MS));
    Rates(TokenRate(minute, 1.0), TokenRate(five, 5.0), SumRequests(minute), SumRequests(five) / 5.0)
  }

  // ----- Pruning -----

  /** What pruning at `now` leaves. */
  function Pruned(samples: seq<Sample>, now: real): seq<Sample> {
    if samples == [] then []
    else (if now - samples[0].at < FIVE_MINUTES_MS then [samples[0]] else []) + Pruned(samples[1..], now)
  }

  lemma {:induction false} PrunedAppend(a: seq<Sample>, b: seq<Sample>, now: real)
    ensures Pruned(a + b, now) == Pruned(a, now) + Pruned(b, now)
  {
    if a == [] {
      assert a + b == b;
    } else {
      assert (a + b)[1..] == a[1..] + b;
      PrunedAppend(a[1..], b, now);
    }
  }

  /** Pruning twice is pruning once, later. */
  lemma {:induction false} PrunedAgain(samples: seq<Sample>, earlier: real, now: real)
    requires earlier <= now
    ensures Pruned(Pruned(samples, earlier), now) == Pruned(samples, now)
  {
    if samples != [] {
      PrunedAgain(samples[1..], earlier, now);
      if earlier - samples[0].at < FIVE_MINUTES_MS {
        assert Pruned(samples, earlier)[1..] == Pruned(samples[1..], earlier);
      } else {
        assert Pruned(samples, earlier) == Pruned(samples[1..], earlier);
      }
    }
  }

  /** Nothing that a window can still see is ever pruned. */
  lemma {:induction false} WithinPruned(samples: seq<Sample>, earlier: real, now: real, width: real)
    requires earlier <= now && 0.0 < width <= FIVE_MINUTES_MS
    ensures Within(Pruned(samples, earlier), now, width) == Within(samples, now, width)
  {
    if samples != [] {
      WithinPruned(samples[1..], earlier, now, width);
      if earlier - samples[0].at < FIVE_MINUTES_MS {
        assert Pruned(samples, earlier)[1..] == Pruned(samples[1..], earlier);
      } else {
        assert Pruned(samples, earlier) == Pruned(samples[1..], earlier);
      }
    }
  }

  // ----- The window -----

  datatype Failure = InvalidTokens | InvalidRequests | InvalidTimestamp

  class SlidingRateWindow {
    var samples: seq<Sample>
    var cursor: real
    /** Every sample ever recorded, and the time of the last pruning. */
    ghost var history: seq<Sample>
    ghost var prunedAt: real

    ghost predicate Valid()
      reads this
    {
      0.0 <= prunedAt <= cursor && samples == Pruned(history, prunedAt)
    }

    constructor ()
      ensures Valid() && history == [] && cursor == 0.0
    {
      samples, cursor, history, prunedAt := [], 0.0, [], 0.0;
    }

    method Advance(at: real) returns (now: real)
      modifies this`cursor
      ensures now == cursor && cursor == if at > old(cursor) then at else old(cursor)
    {
      if at > cursor {
        cursor := at;
      }
      return cursor;
    }

    /** Walks the samples from the newest to the oldest and splices out the old ones. */
    method Prune(at: real)
      requires 0.0 <= cursor == at && Pruned(samples, at) == Pruned(history, at)
      modifies this`samples, this`prunedAt
      ensures Valid() && prunedAt == at
    {
      var index := |samples| - 1;
      ghost var before := samples;
      while index >= 0
        invariant -1 <= index < |before|
        invariant samples == before[..index + 1] + Pruned(before[index + 1..], at)
        decreases index
      {
        var sample := samples[index];
        assert before[index..] == [sample] + before[index + 1..];
        assert before[..index + 1] == before[..index] + [sample];
        if at - sample.at >= FIVE_MINUTES_MS {
          samples := samples[..index] + samples[index + 1..];
        }
        index := index - 1;
      }
      assert before[0..] == before;
      prunedAt := at;
    }

    method Record(tokens: Tokens, requests: Number, clock: real, at: Option<Number>) returns (failure: Option<Failure>)
      requires Valid()
      modifies this
      ensures Valid()
      ensures failure == if tokens.Known? && !NonNegative(tokens.count) then Some(InvalidTokens)
                         else if !NonNegative(requests) then Some(InvalidRequests)
                         else if at == Some(NotFinite) then Some(InvalidTimestamp)
                         else None
      ensures cursor == if failure == Some(InvalidTokens) || failure == Some(InvalidRequests) || clock <= old(cursor)
                        then old(cursor) else clock
      ensures var time := if at.Some? && at.value.Finite? then at.value.value else cursor;
              history == if failure.Some? then old(history)
                         else old(history) + [NewSample(tokens, requests, time, cursor)]
    {
      if tokens.Known? && !NonNegative(tokens.count) {
        return Some(InvalidTokens);
      }
      if !NonNegative(requests) {
        return Some(InvalidRequests);
      }
      var now := Advance(clock);
      var sampleAt := if at.Some? then at.value else Finite(now);
      if sampleAt == NotFinite {
        return Some(InvalidTimestamp);
      }
      var sample := NewSample(tokens, requests, sampleAt.value, now);
      PrunedAgain(history, prunedAt, now);
      PrunedAppend(history, [sample], now);
      PrunedAppend(samples, [sample], now);
      samples := samples + [sample];
      history := history + [sample];
      Prune(now);
      return None;
    }

    /** Sums over the pruned samples; the answer is the one the whole history gives at the monotone cursor. */
    method Snapshot(at: Number) returns (r: Result<Rates, Failure>)
      requires Valid()
      modifies this
      ensures Valid() && history == old(history)
      ensures !NonNegative(at) ==> r == Err(InvalidTimestamp) && cursor == old(cursor)
      ensures NonNegative(at) ==> cursor == (if at.value > old(cursor) then at.value else old(cursor))
                                  && r == Ok(RatesAt(history, cursor))
    {
      if !NonNegative(at) {
        return Err(InvalidTimestamp);
      }
      var safeAt := Advance(at.value);
      PrunedAgain(history, prunedAt, safeAt);
      Prune(safeAt);
      var minute, five := SumSamples(samples, safeAt);
      RatesOfPruned(history, safeAt, minute, five);
      r := Ok(Rates(RateOf(minute, 1.0), RateOf(five, 5.0), minute.requests, five.requests / 5.0));
    }
  }

  /** One pass over the samples for both windows. */
  method SumSamples(samples: seq<Sample>, safeAt: real) returns (minute: Totals, five: Totals)
    ensures AreTotals(minute, samples, safeAt, ONE_MINUTE_MS)
    ensures AreTotals(five, samples, safeAt, FIVE_MINUTES_MS)
  {
    minute, five := NO_TOTALS, NO_TOTALS;
    for i := 0 to |samples|
      invariant AreTotals(minute, samples[..i], safeAt, ONE_MINUTE_MS)
      invariant AreTotals(five, samples[..i], safeAt, FIVE_MINUTES_MS)
    {
      AddedTotals(minute, samples, i, safeAt, ONE_MINUTE_MS);
      AddedTotals(five, samples, i, safeAt, FIVE_MINUTES_MS);
      var age := Age(samples[i], safeAt);
      if age < FIVE_MINUTES_MS {
        five := Added(five, samples[i]);
      }
      if age < ONE_MINUTE_MS {
        minute := Added(minute, samples[i]);
      }
    }
    assert samples[..|samples|] == samples;
  }

  /** Running totals: tokens and requests counted, and whether an unknown amount was met. */
  datatype Totals = Totals(tokens: real, requests: real, unknown: bool)

  const NO_TOTALS := Totals(0.0, 0.0, false)

  function Added(t: Totals, s: Sample): Totals {
    if s.amount.Uncounted? then Totals(t.tokens, t.requests + s.requests, true)
    else Totals(t.tokens + s.amount.tokens, t.requests + s.requests, t.unknown)
  }

  function RateOf(t: Totals, divisor: real): Rate
    requires divisor > 0.0
  {
    if t.unknown then UnknownRate else Rate(t.tokens / divisor)
  }

  /** A sample may be back-dated but never lies ahead of the cursor. */
  function NewSample(tokens: Tokens, requests: Number, at: real, now: real): Sample
    requires NonNegative(requests) && (tokens.Known? ==> NonNegative(tokens.count))
  {
    Sample(if at < now then at else now,
           if tokens.Known? then Counted(tokens.count.value) else Uncounted,
           requests.value)
  }

  predicate HasUnknown(samples: seq<Sample>) {
    exists s :: s in samples && s.amount.Uncounted?
  }

  /** The totals of the samples of `seen` that are young enough. */
  ghost predicate AreTotals(t: Totals, seen: seq<Sample>, now: real, width: real) {
    var live := Within(seen, now, width);
    t == Totals(SumTokens(live), SumRequests(live), HasUnknown(live))
  }

  lemma {:induction false} WithinAppend(a: seq<Sample>, b: seq<Sample>, now: real, width: real)
    ensures Within(a + b, now, width) == Within(a, now, width) + Within(b, now, width)
  {
    if a == [] {
      assert a + b == b;
    } else {
      assert (a + b)[1..] == a[1..] + b;
      WithinAppend(a[1..], b, now, width);
    }
  }

  lemma {:induction false} SumsAppend(a: seq<Sample>, s: Sample)
    ensures Totals(SumTokens(a + [s]), SumRequests(a + [s]), HasUnknown(a + [s]))
      == Added(Totals(SumTokens(a), SumRequests(a), HasUnknown(a)), s)
  {
    if a == [] {
      assert a + [s] == [s];
    } else {
      assert (a + [s])[1..] == a[1..] + [s];
      SumsAppend(a[1..], s);
    }
    assert s in a + [s] && forall t :: t in a + [s] <==> t in a || t == s;
  }

  /** The totals over the pruned samples are those over the whole history. */
  lemma RatesOfPruned(history: seq<Sample>, now: real, minute: Totals, five: Totals)
    requires AreTotals(minute, Pruned(history, now), now, ONE_MINUTE_MS)
    requires AreTotals(five, Pruned(history, now), now, FIVE_MINUTES_MS)
    ensures Rates(RateOf(minute, 1.0), RateOf(five, 5.0), minute.requests, five.requests / 5.0) == RatesAt(history, now)
  {
    WithinPruned(history, now, now, ONE_MINUTE_MS);
    WithinPruned(history, now, now, FIVE_MINUTES_MS);
  }

  /** One more sample changes the totals exactly when it is young enough. */
  lemma AddedTotals(t: Totals, samples: seq<Sample>, i: nat, now: real, width: real)
    requires i < |samples| && AreTotals(t, samples[..i], now, width)
    ensures AreTotals(if Age(samples[i], now) < width then Added(t, samples[i]) else t, samples[..i + 1], now, width)
  {
    var s, live := samples[i], Within(samples[..i], now, width);
    assert samples[..i + 1] == samples[..i] + [s];
    WithinAppend(samples[..i], [s], now, width);
    assert Within([s], now, width) == if Age(s, now) < width then [s] else [];
    assert live + [] == live;
    SumsAppend(live, s);
  }
}
