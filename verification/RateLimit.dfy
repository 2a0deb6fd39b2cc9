/**
 `InMemoryRateLimiter` of `core/rate_limit.py`: several sliding windows counted over one log
 that is trimmed to the longest of them.
 */
module RateLimit {
  import Collections

  type Time = real

  /** At most `count` requests in any `period` seconds. */
  datatype Limit = Limit(count: int, period: Time)

  // The entries of `log` later than `cutoff`.
  function CountAfter(log: seq<Time>, cutoff: Time): nat {
    if log == [] then 0
    else CountAfter(log[..|log| - 1], cutoff) + (if log[|log| - 1] > cutoff then 1 else 0)
  }

  function KeepAfter(log: seq<Time>, cutoff: Time): seq<Time> {
    if log == [] then []
    else
      var init := KeepAfter(log[..|log| - 1], cutoff);
      if log[|log| - 1] > cutoff then init + [log[|log| - 1]] else init
  }

  predicate AnyReached(limits: seq<Limit>, log: seq<Time>, now: Time) {
    exists i :: 0 <= i < |limits| && CountAfter(log, now - limits[i].period) >= limits[i].count
  }

  function MaxPeriod(limits: seq<Limit>): (r: Time)
    requires limits != []
    ensures forall i :: 0 <= i < |limits| ==> limits[i].period <= r
  {
    if |limits| == 1 then limits[0].period
    else
      var r := MaxPeriod(limits[..|limits| - 1]);
      if limits[|limits| - 1].period > r then limits[|limits| - 1].period else r
  }

  lemma {:induction false} CountAppend(log: seq<Time>, t: Time, cutoff: Time)
    ensures CountAfter(log + [t], cutoff) == CountAfter(log, cutoff) + (if t > cutoff then 1 else 0)
  {
    assert (log + [t])[..|log|] == log;
  }

  // Entries trimmed at `trim` do not count after any later cutoff.
  lemma {:induction false} CountTrimmed(log: seq<Time>, trim: Time, cutoff: Time)
    requires trim <= cutoff
    ensures CountAfter(KeepAfter(log, trim), cutoff) == CountAfter(log, cutoff)
  {
    if log != [] {
      CountTrimmed(log[..|log| - 1], trim, cutoff);
      CountAppend(KeepAfter(log[..|log| - 1], trim), log[|log| - 1], cutoff);
    }
  }

  lemma {:induction false} CountNone(log: seq<Time>, cutoff: Time)
    requires forall i :: 0 <= i < |log| ==> log[i] <= cutoff
    ensures CountAfter(log, cutoff) == 0
  {
    if log != [] { CountNone(log[..|log| - 1], cutoff); }
  }

  lemma {:induction false} CountAll(log: seq<Time>, cutoff: Time)
    requires forall i :: 0 <= i < |log| ==> log[i] > cutoff
    ensures CountAfter(log, cutoff) == |log|
  {
    if log != [] { CountAll(log[..|log| - 1], cutoff); }
  }

  lemma {:induction false} CountMonotone(log: seq<Time>, a: Time, b: Time)
    requires a <= b
    ensures CountAfter(log, b) <= CountAfter(log, a)
  {
    if log != [] { CountMonotone(log[..|log| - 1], a, b); }
  }

  // `n` requests at one moment.
  function Zeros(n: nat): seq<Time> { seq(n, _ => 0.0) }

  lemma {:induction false} CountConcat(a: seq<Time>, b: seq<Time>, cutoff: Time)
    ensures CountAfter(a + b, cutoff) == CountAfter(a, cutoff) + CountAfter(b, cutoff)
  {
    if b == [] {
      assert a + b == a;
    } else {
      assert (a + b)[..|a + b| - 1] == a + b[..|b| - 1];
      CountConcat(a, b[..|b| - 1], cutoff);
    }
  }

  // The places of the entries later than `cutoff`.
  ghost function Later(log: seq<Time>, cutoff: Time): set<nat> { set i: nat | i < |log| && log[i] > cutoff }

  lemma {:induction false} CountIsSize(log: seq<Time>, cutoff: Time)
    ensures CountAfter(log, cutoff) == |Later(log, cutoff)|
  {
    if log != [] {
      var init, last := log[..|log| - 1], |log| - 1;
      CountIsSize(init, cutoff);
      if log[last] > cutoff {
        assert Later(log, cutoff) == Later(init, cutoff) + {last};
      } else {
        assert Later(log, cutoff) == Later(init, cutoff);
      }
    }
  }

  function After(cutoff: Time): Time -> bool { (t: Time) => t > cutoff }

  lemma {:induction false} KeepFilters(log: seq<Time>, cutoff: Time)
    ensures Collections.Filters(KeepAfter(log, cutoff), log, After(cutoff))
  {
    hide Collections.Filters;
    if log == [] {
      Collections.FilterEmpty(After(cutoff));
    } else {
      var init, last := log[..|log| - 1], log[|log| - 1];
      KeepFilters(init, cutoff);
      Collections.FilterNext(KeepAfter(init, cutoff), init, After(cutoff), last);
      assert log == init + [last];
    }
  }

  // Some window holds as many entries as its limit allows.
  ghost predicate WindowFull(limits: seq<Limit>, log: seq<Time>, now: Time) {
    exists i :: 0 <= i < |limits| && |Later(log, now - limits[i].period)| >= limits[i].count
  }

  lemma ReachedMeans(limits: seq<Limit>, log: seq<Time>, now: Time)
    ensures AnyReached(limits, log, now) <==> WindowFull(limits, log, now)
  {
    hide CountAfter, Later;
    forall i | 0 <= i < |limits|
      ensures CountAfter(log, now - limits[i].period) == |Later(log, now - limits[i].period)|
    {
      CountIsSize(log, now - limits[i].period);
    }
  }

  predicate Longest(limits: seq<Limit>, i: nat) {
    i < |limits| && forall j :: 0 <= j < |limits| ==> limits[j].period <= limits[i].period
  }

  lemma {:induction false} MaxPeriodIsLongest(limits: seq<Limit>) returns (i: nat)
    requires limits != []
    ensures Longest(limits, i) && limits[i].period == MaxPeriod(limits)
  {
    i := |limits| - 1;
    if |limits| > 1 && limits[i].period < MaxPeriod(limits) {
      i := MaxPeriodIsLongest(limits[..|limits| - 1]);
    }
  }

  // What the longest window holds stays, and `now` comes behind it.
  ghost predicate TrimmedTo(log: seq<Time>, log': seq<Time>, limits: seq<Limit>, now: Time) {
    exists i: nat, kept :: Longest(limits, i) && log' == kept + [now]
      && Collections.Filters(kept, log, After(now - limits[i].period))
  }

  // ---------- the log after a sequence of calls ----------

  datatype Verdict = Accepted | Limited | Failed

  datatype Call = Call(now: Time, limits: seq<Limit>)

  // A limiter that keeps every accepted request. No limits at all is the source's `max()` of an
  // empty sequence, which raises.
  function FullVerdict(history: seq<Time>, call: Call): Verdict {
    if AnyReached(call.limits, history, call.now) then Limited
    else if call.limits == [] then Failed
    else Accepted
  }

  function History(calls: seq<Call>): seq<Time> {
    if calls == [] then []
    else
      var before, call := History(calls[..|calls| - 1]), calls[|calls| - 1];
      if FullVerdict(before, call).Accepted? then before + [call.now] else before
  }

  // The program's log: trimmed to the longest window of each accepted call.
  function Log(calls: seq<Call>): seq<Time> {
    if calls == [] then []
    else
      var before, call := Log(calls[..|calls| - 1]), calls[|calls| - 1];
      if FullVerdict(before, call).Accepted? then KeepAfter(before, call.now - MaxPeriod(call.limits)) + [call.now]
      else before
  }

  ghost predicate ClockRuns(calls: seq<Call>) {
    forall i, j :: 0 <= i < j < |calls| ==> calls[i].now <= calls[j].now
  }

  // No later call asks for a longer window than an earlier one did.
  ghost predicate WindowsNeverGrow(calls: seq<Call>) {
    forall i, j, k :: 0 <= i < j < |calls| && 0 <= k < |calls[j].limits| && calls[i].limits != [] ==>
      calls[j].limits[k].period <= MaxPeriod(calls[i].limits)
  }

  lemma Earlier(calls: seq<Call>)
    requires calls != [] && ClockRuns(calls) && WindowsNeverGrow(calls)
    ensures ClockRuns(calls[..|calls| - 1]) && WindowsNeverGrow(calls[..|calls| - 1])
  {
  }

  lemma AcceptedHasLimits(log: seq<Time>, call: Call)
    ensures FullVerdict(log, call).Accepted? ==> call.limits != []
  {
  }

  lemma AcceptedCounts(log: seq<Time>, history: seq<Time>, now: Time, trim: Time, cutoff: Time)
    requires CountAfter(log, cutoff) == CountAfter(history, cutoff) && trim <= cutoff
    ensures CountAfter(KeepAfter(log, trim) + [now], cutoff) == CountAfter(history + [now], cutoff)
  {
    hide CountAfter, KeepAfter;
    CountTrimmed(log, trim, cutoff);
    CountAppend(KeepAfter(log, trim), now, cutoff);
    CountAppend(history, now, cutoff);
  }

  // Everything any call up to now could ask for again: cutoffs from `now - period` on.
  lemma {:induction false} LogCountsLikeHistory(calls: seq<Call>, cutoff: Time)
    requires forall i :: 0 <= i < |calls| && calls[i].limits != [] ==>
      calls[i].now - MaxPeriod(calls[i].limits) <= cutoff
    requires ClockRuns(calls) && WindowsNeverGrow(calls)
    ensures CountAfter(Log(calls), cutoff) == CountAfter(History(calls), cutoff)
    decreases |calls|, 0
  {
    hide FullVerdict, ClockRuns, WindowsNeverGrow, MaxPeriod, KeepAfter, CountAfter;
    if calls != [] {
      var init, call := calls[..|calls| - 1], calls[|calls| - 1];
      assert init + [call] == calls;
      Earlier(calls);
      LogCountsLikeHistory(init, cutoff);
      TrimmedVerdict(init, call);
      AcceptedHasLimits(Log(init), call);
      if FullVerdict(Log(init), call).Accepted? {
        AcceptedCounts(Log(init), History(init), call.now, call.now - MaxPeriod(call.limits), cutoff);
      }
    }
  }

  lemma {:induction false} TrimmedVerdict(init: seq<Call>, call: Call)
    requires ClockRuns(init + [call]) && WindowsNeverGrow(init + [call])
    ensures FullVerdict(Log(init), call) == FullVerdict(History(init), call)
    decreases |init|, 1
  {
    var calls := init + [call];
    forall k | 0 <= k < |call.limits|
      ensures CountAfter(Log(init), call.now - call.limits[k].period) ==
        CountAfter(History(init), call.now - call.limits[k].period)
    {
      var cutoff := call.now - call.limits[k].period;
      forall i | 0 <= i < |init| && init[i].limits != []
        ensures init[i].now - MaxPeriod(init[i].limits) <= cutoff
      {
        assert calls[i] == init[i] && calls[|init|] == call;
      }
      assert calls[..|calls| - 1] == init;
      Earlier(calls);
      LogCountsLikeHistory(init, cutoff);
    }
  }

  /** Under a clock that does not run backwards, while no call asks for a longer window than an
      earlier one did, the trimmed log decides every call as the full history does. */
  lemma TrimmingIsInvisible(calls: seq<Call>, n: nat)
    requires n < |calls| && ClockRuns(calls) && WindowsNeverGrow(calls)
    ensures FullVerdict(Log(calls[..n]), calls[n]) == FullVerdict(History(calls[..n]), calls[n])
  {
    TrimmedVerdict(calls[..n], calls[n]);
  }

  // Only an accepted call changes the logs: it adds itself.
  lemma NextLog(calls: seq<Call>, call: Call)
    ensures Log([]) == [] && History([]) == []
    ensures History(calls + [call]) ==
      if FullVerdict(History(calls), call).Accepted? then History(calls) + [call.now] else History(calls)
    ensures !FullVerdict(Log(calls), call).Accepted? ==> Log(calls + [call]) == Log(calls)
    ensures call.limits != [] && FullVerdict(Log(calls), call).Accepted? ==>
      Log(calls + [call]) == KeepAfter(Log(calls), call.now - MaxPeriod(call.limits)) + [call.now]
  {
    hide FullVerdict, KeepAfter, MaxPeriod;
    AcceptedHasLimits(Log(calls), call);
    assert (calls + [call])[..|calls|] == calls;
  }

  // ---------- window safety ----------

  function InWindow(log: seq<Time>, from: Time, to: Time): nat {
    if log == [] then 0
    else InWindow(log[..|log| - 1], from, to) + (if from < log[|log| - 1] <= to then 1 else 0)
  }

  lemma {:induction false} InWindowBound(log: seq<Time>, from: Time, to: Time)
    ensures InWindow(log, from, to) <= CountAfter(log, from)
  {
    if log != [] { InWindowBound(log[..|log| - 1], from, to); }
  }

  // The log is sorted and each entry found fewer than `count` others in its own window.
  predicate Spaced(log: seq<Time>, limit: Limit) {
    log == [] ||
    var init, last := log[..|log| - 1], log[|log| - 1];
    && Spaced(init, limit)
    && (init != [] ==> init[|init| - 1] <= last)
    && CountAfter(init, last - limit.period) < limit.count
  }

  lemma SpacedAppend(log: seq<Time>, t: Time, limit: Limit)
    requires Spaced(log, limit) && (log != [] ==> log[|log| - 1] <= t)
    requires CountAfter(log, t - limit.period) < limit.count
    ensures Spaced(log + [t], limit)
  {
    hide CountAfter;
    assert (log + [t])[..|log|] == log;
  }

  /** No half-open window of the limit's period holds more than `count` entries. */
  lemma {:induction false} SpacedWindows(log: seq<Time>, limit: Limit, to: Time)
    requires Spaced(log, limit)
    ensures InWindow(log, to - limit.period, to) <= Max0(limit.count)
  {
    if log != [] {
      var init, last := log[..|log| - 1], log[|log| - 1];
      SpacedWindows(init, limit, to);
      if last <= to {
        InWindowBound(init, to - limit.period, to);
        CountMonotone(init, last - limit.period, to - limit.period);
      }
    }
  }

  lemma {:induction false} HistorySpaced(calls: seq<Call>, limits: seq<Limit>, k: nat)
    requires ClockRuns(calls) && k < |limits|
    requires forall i :: 0 <= i < |calls| ==> calls[i].limits == limits
    ensures Spaced(History(calls), limits[k])
    ensures var log := History(calls); log != [] ==> calls != [] && log[|log| - 1] <= calls[|calls| - 1].now
  {
    if calls != [] {
      var init, call := calls[..|calls| - 1], calls[|calls| - 1];
      HistorySpaced(init, limits, k);
      if FullVerdict(History(init), call).Accepted? {
        assert CountAfter(History(init), call.now - limits[k].period) < limits[k].count;
        SpacedAppend(History(init), call.now, limits[k]);
      }
    }
  }

  lemma {:induction false} LogAcceptsHistory(calls: seq<Call>)
    requires ClockRuns(calls) && WindowsNeverGrow(calls)
    ensures History(calls) == AcceptedTimes(calls)
  {
    if calls != [] {
      assert calls == calls[..|calls| - 1] + [calls[|calls| - 1]];
      LogAcceptsHistory(calls[..|calls| - 1]);
      TrimmedVerdict(calls[..|calls| - 1], calls[|calls| - 1]);
    }
  }

  // The times the program itself accepted, by its trimmed log.
  function AcceptedTimes(calls: seq<Call>): seq<Time> {
    if calls == [] then []
    else
      var init, call := calls[..|calls| - 1], calls[|calls| - 1];
      if FullVerdict(Log(init), call).Accepted? then AcceptedTimes(init) + [call.now] else AcceptedTimes(init)
  }

  /** With fixed limits under a clock that does not run backwards, no window of any listed
      period ever contains more accepted requests than its limit. */
  lemma WindowsRespected(calls: seq<Call>, limits: seq<Limit>, k: nat, to: Time)
    requires ClockRuns(calls) && k < |limits|
    requires forall i :: 0 <= i < |calls| ==> calls[i].limits == limits
    ensures InWindow(AcceptedTimes(calls), to - limits[k].period, to) <= Max0(limits[k].count)
  {
    hide Spaced, History, AcceptedTimes, InWindow;
    assert forall i :: 0 <= i < |calls| && calls[i].limits != [] ==> calls[i].limits == limits;
    LogAcceptsHistory(calls);
    HistorySpaced(calls, limits, k);
    SpacedWindows(History(calls), limits[k], to);
  }

  function Max0(n: int): nat { if n > 0 then n else 0 }

  // ---------- the class ----------

  class InMemoryRateLimiter {
    var requests: map<string, seq<Time>>

    constructor ()
      ensures requests == map[]
    {
      requests := map[];
    }

    function LogOf(key: string): seq<Time>
      reads this
    {
      if key in requests then requests[key] else []
    }

    /** `calls` are the earlier calls for this key; the log they left is `Log(calls)`. */
    method IsRateLimited(key: string, limits: seq<Limit>, now: Time, ghost calls: seq<Call>)
      returns (verdict: Verdict)
      requires LogOf(key) == Log(calls)
      modifies this
      ensures verdict.Limited? <==> WindowFull(limits, old(LogOf(key)), now)
      ensures verdict.Failed? <==> limits == []
      ensures verdict.Accepted? ==> TrimmedTo(old(LogOf(key)), LogOf(key), limits, now)
      ensures !verdict.Accepted? ==> requests == old(requests)
      ensures verdict == FullVerdict(Log(calls), Call(now, limits))
      ensures LogOf(key) == Log(calls + [Call(now, limits)])
      ensures forall other :: other != key ==> LogOf(other) == old(LogOf(other))
    {
      hide Collections.Filters, WindowFull, MaxPeriod, KeepAfter, CountAfter;
      assert (calls + [Call(now, limits)])[..|calls|] == calls;
      var log := LogOf(key);
      ReachedMeans(limits, log, now);
      for i := 0 to |limits|
        invariant forall j :: 0 <= j < i ==> CountAfter(log, now - limits[j].period) < limits[j].count
        invariant requests == old(requests)
      {
        if CountAfter(log, now - limits[i].period) >= limits[i].count {
          return Limited;
        }
      }
      if limits == [] {
        return Failed;
      }
      ghost var longest := MaxPeriodIsLongest(limits);
      KeepFilters(log, now - MaxPeriod(limits));
      requests := requests[key := KeepAfter(log, now - MaxPeriod(limits)) + [now]];
      return Accepted;
    }
  }
}
