/**
 When the trimmed log of `core/rate_limit.py` decides like the full history although the limits
 asked for change from call to call: exactly which limits may be mixed.
 */
module GrowingWindows {
  import opened RateLimit

  // Every call asks for one of these lists of limits.
  ghost predicate UsesLists(calls: seq<Call>, lists: set<seq<Limit>>) {
    forall i :: 0 <= i < |calls| ==> calls[i].limits in lists
  }

  // Every call asks for one limit out of `limits`.
  ghost predicate UsesLimits(calls: seq<Call>, limits: set<Limit>) {
    forall i :: 0 <= i < |calls| ==> |calls[i].limits| == 1 && calls[i].limits[0] in limits
  }

  // Trimmed log and full history decide every call alike.
  ghost predicate DecidesAlike(calls: seq<Call>) {
    forall n :: 0 <= n < |calls| ==>
      FullVerdict(Log(calls[..n]), calls[n]) == FullVerdict(History(calls[..n]), calls[n])
  }

  // Some request can be admitted under this list.
  predicate Admits(limits: seq<Limit>) {
    limits != [] && forall k :: 0 <= k < |limits| ==> limits[k].count >= 1
  }

  // The limit has to tell two requests of a window longer than `trim` from one.
  predicate Needs(limit: Limit, trim: Time) {
    limit.count >= 2 && limit.period > 0.0 && limit.period > trim
  }

  // A request admitted under `a` trims away what a limit of `b` would have to count.
  predicate ListForgets(a: seq<Limit>, b: seq<Limit>) {
    Admits(a) && Admits(b) && exists k :: 0 <= k < |b| && Needs(b[k], MaxPeriod(a))
  }

  ghost predicate NoListForgets(lists: set<seq<Limit>>) {
    forall a, b :: a in lists && b in lists ==> !ListForgets(a, b)
  }

  // The same for two single limits.
  predicate Forgets(a: Limit, b: Limit) {
    a.period < b.period && b.period > 0.0 && a.count >= 1 && b.count >= 2
  }

  ghost predicate NoneForgets(limits: set<Limit>) {
    forall a, b :: a in limits && b in limits ==> !Forgets(a, b)
  }

  // ---------- without such a pair ----------

  // The entries are no later than the last one.
  predicate EndsLatest(log: seq<Time>) {
    forall i :: 0 <= i < |log| ==> log[i] <= log[|log| - 1]
  }

  // Log and history end with the same, latest entry.
  predicate SameEnd(log: seq<Time>, history: seq<Time>, now: Time) {
    && (log == [] <==> history == []) && EndsLatest(log) && EndsLatest(history)
    && (log != [] ==> log[|log| - 1] == history[|history| - 1] <= now)
  }

  // From `cutoff` on no admitted request has trimmed anything.
  predicate Untrimmed(calls: seq<Call>, cutoff: Time) {
    forall i :: 0 <= i < |calls| && Admits(calls[i].limits) ==> calls[i].now - MaxPeriod(calls[i].limits) <= cutoff
  }

  // One entry after the cutoff is there exactly if the last one is.
  lemma CountsLast(log: seq<Time>, cutoff: Time)
    requires EndsLatest(log)
    ensures CountAfter(log, cutoff) >= 1 <==> log != [] && log[|log| - 1] > cutoff
  {
    if log != [] && log[|log| - 1] <= cutoff { CountNone(log, cutoff); }
  }

  lemma OneLimit(log: seq<Time>, call: Call)
    requires |call.limits| == 1
    ensures MaxPeriod(call.limits) == call.limits[0].period
    ensures FullVerdict(log, call) ==
      if CountAfter(log, call.now - call.limits[0].period) >= call.limits[0].count then Limited else Accepted
  {
    var i := 0;
    assert AnyReached(call.limits, log, call.now) <==>
      CountAfter(log, call.now - call.limits[i].period) >= call.limits[i].count;
  }

  // One limit of a list that admits requests counts to the same answer on both logs.
  lemma SameAnswer(init: seq<Call>, call: Call, lists: set<seq<Limit>>, k: nat)
    requires ClockRuns(init + [call]) && UsesLists(init + [call], lists) && NoListForgets(lists)
    requires Admits(call.limits) && k < |call.limits| && SameEnd(Log(init), History(init), call.now)
    requires forall cutoff :: Untrimmed(init, cutoff) ==>
      CountAfter(Log(init), cutoff) == CountAfter(History(init), cutoff)
    ensures var b := call.limits[k];
      CountAfter(Log(init), call.now - b.period) >= b.count <==>
        CountAfter(History(init), call.now - b.period) >= b.count
  {
    hide Log, History, CountAfter, ClockRuns, MaxPeriod;
    var calls, b := init + [call], call.limits[k];
    assert calls[|init|] == call;
    var cutoff := call.now - b.period;
    if b.period <= 0.0 {
      CountNone(Log(init), cutoff);
      CountNone(History(init), cutoff);
    } else if b.count <= 1 {
      CountsLast(Log(init), cutoff);
      CountsLast(History(init), cutoff);
    } else {
      forall i | 0 <= i < |init| && Admits(init[i].limits)
        ensures init[i].now - MaxPeriod(init[i].limits) <= cutoff
      {
        assert calls[i] == init[i];
        Later(calls, i);
        assert !ListForgets(init[i].limits, call.limits);
        assert !Needs(b, MaxPeriod(init[i].limits));
      }
    }
  }

  lemma SameVerdict(init: seq<Call>, call: Call, lists: set<seq<Limit>>)
    requires ClockRuns(init + [call]) && UsesLists(init + [call], lists) && NoListForgets(lists)
    requires SameEnd(Log(init), History(init), call.now)
    requires forall cutoff :: Untrimmed(init, cutoff) ==>
      CountAfter(Log(init), cutoff) == CountAfter(History(init), cutoff)
    ensures FullVerdict(Log(init), call) == FullVerdict(History(init), call)
  {
    hide Log, History, CountAfter, ClockRuns, NoListForgets, UsesLists, SameEnd, Untrimmed;
    if Admits(call.limits) {
      forall k | 0 <= k < |call.limits|
        ensures CountAfter(Log(init), call.now - call.limits[k].period) >= call.limits[k].count
          <==> CountAfter(History(init), call.now - call.limits[k].period) >= call.limits[k].count
      {
        SameAnswer(init, call, lists, k);
      }
    } else if call.limits != [] {
      var k :| 0 <= k < |call.limits| && call.limits[k].count < 1;
      assert CountAfter(Log(init), call.now - call.limits[k].period) >= call.limits[k].count;
      assert CountAfter(History(init), call.now - call.limits[k].period) >= call.limits[k].count;
    }
  }

  lemma AcceptedAdmits(log: seq<Time>, call: Call)
    ensures FullVerdict(log, call).Accepted? ==> Admits(call.limits)
  {
  }

  lemma Later(calls: seq<Call>, i: nat)
    requires ClockRuns(calls) && i < |calls|
    ensures calls[i].now <= calls[|calls| - 1].now
  {
  }

  lemma {:induction false} KeptEnds(log: seq<Time>, cutoff: Time)
    ensures forall x :: x in KeepAfter(log, cutoff) ==> x in log
  {
    if log != [] { KeptEnds(log[..|log| - 1], cutoff); }
  }

  // An admitted request becomes the common last entry.
  lemma EndsNext(log: seq<Time>, history: seq<Time>, trim: Time, now: Time)
    requires SameEnd(log, history, now)
    ensures SameEnd(KeepAfter(log, trim) + [now], history + [now], now)
  {
    hide KeepAfter;
    KeptEnds(log, trim);
    var kept := KeepAfter(log, trim) + [now];
    forall i | 0 <= i < |kept|
      ensures kept[i] <= now
    {
      if i < |kept| - 1 { assert kept[i] in KeepAfter(log, trim); }
    }
  }

  /** While no list of limits makes another one forget, log and history decide alike, end alike
      and count alike from every cutoff that nothing admitted has trimmed. */
  lemma {:induction false} StaysAlike(calls: seq<Call>, lists: set<seq<Limit>>)
    requires ClockRuns(calls) && UsesLists(calls, lists) && NoListForgets(lists)
    ensures DecidesAlike(calls)
    ensures calls != [] ==> SameEnd(Log(calls), History(calls), calls[|calls| - 1].now)
    ensures calls == [] ==> Log(calls) == History(calls) == []
    ensures forall cutoff :: Untrimmed(calls, cutoff) ==>
      CountAfter(Log(calls), cutoff) == CountAfter(History(calls), cutoff)
  {
    hide CountAfter, FullVerdict, KeepAfter, MaxPeriod, Log, History, ClockRuns, Untrimmed, NoListForgets;
    if calls == [] {
      NextLog([], Call(0.0, []));
    } else {
      var init, call := calls[..|calls| - 1], calls[|calls| - 1];
      assert init + [call] == calls;
      Shorter(calls);
      StaysAlike(init, lists);
      if init != [] { Later(calls, |init| - 1); }
      SameVerdict(init, call, lists);
      AlikeNext(init, call);
    }
  }

  lemma Shorter(calls: seq<Call>)
    requires ClockRuns(calls) && calls != []
    ensures ClockRuns(calls[..|calls| - 1])
  {
  }

  lemma AlikeNext(init: seq<Call>, call: Call)
    requires DecidesAlike(init) && FullVerdict(Log(init), call) == FullVerdict(History(init), call)
    requires SameEnd(Log(init), History(init), call.now)
    requires forall cutoff :: Untrimmed(init, cutoff) ==>
      CountAfter(Log(init), cutoff) == CountAfter(History(init), cutoff)
    ensures DecidesAlike(init + [call])
    ensures SameEnd(Log(init + [call]), History(init + [call]), call.now)
    ensures forall cutoff :: Untrimmed(init + [call], cutoff) ==>
      CountAfter(Log(init + [call]), cutoff) == CountAfter(History(init + [call]), cutoff)
  {
    hide CountAfter, FullVerdict, KeepAfter, MaxPeriod, Log, History, SameEnd, Untrimmed;
    var calls := init + [call];
    forall n | 0 <= n < |calls|
      ensures FullVerdict(Log(calls[..n]), calls[n]) == FullVerdict(History(calls[..n]), calls[n])
    {
      if n < |init| { assert calls[..n] == init[..n]; } else { assert calls[..n] == init; }
    }
    NextLog(init, call);
    AcceptedAdmits(Log(init), call);
    if FullVerdict(Log(init), call).Accepted? {
      EndsNext(Log(init), History(init), call.now - MaxPeriod(call.limits), call.now);
    }
    forall cutoff | Untrimmed(calls, cutoff)
      ensures CountAfter(Log(calls), cutoff) == CountAfter(History(calls), cutoff)
    {
      UntrimmedBefore(init, call, cutoff);
      if FullVerdict(Log(init), call).Accepted? {
        AcceptedCounts(Log(init), History(init), call.now, call.now - MaxPeriod(call.limits), cutoff);
      }
    }
  }

  lemma UntrimmedBefore(init: seq<Call>, call: Call, cutoff: Time)
    requires Untrimmed(init + [call], cutoff)
    ensures Untrimmed(init, cutoff)
    ensures Admits(call.limits) ==> call.now - MaxPeriod(call.limits) <= cutoff
  {
    var calls := init + [call];
    assert calls[|init|] == call;
    forall i | 0 <= i < |init| && Admits(init[i].limits)
      ensures init[i].now - MaxPeriod(init[i].limits) <= cutoff
    {
      assert calls[i] == init[i];
    }
  }

  // ---------- with such a pair ----------

  // `n` requests under `b` at one moment.
  function Filling(b: Limit, n: nat): seq<Call> {
    seq(n, _ => Call(0.0, [b]))
  }

  lemma {:induction false} FillingFacts(b: Limit, n: nat)
    requires b.period > 0.0 && n <= b.count
    ensures History(Filling(b, n)) == Log(Filling(b, n)) == Zeros(n)
  {
    hide FullVerdict, KeepAfter, CountAfter, MaxPeriod, Log, History;
    if n == 0 {
      assert Filling(b, 0) == [] && Zeros(0) == [];
      NextLog([], Call(0.0, [b]));
    } else {
      var call := Call(0.0, [b]);
      FillingFacts(b, n - 1);
      assert Filling(b, n) == Filling(b, n - 1) + [call];
      NextLog(Filling(b, n - 1), call);
      OneLimit(Zeros(n - 1), call);
      CountAll(Zeros(n - 1), 0.0 - b.period);
      KeepAll(Zeros(n - 1), 0.0 - b.period);
      assert Zeros(n - 1) + [0.0] == Zeros(n);
    }
  }

  lemma {:induction false} KeepAll(log: seq<Time>, cutoff: Time)
    requires forall i :: 0 <= i < |log| ==> log[i] > cutoff
    ensures KeepAfter(log, cutoff) == log
  {
    if log != [] { KeepAll(log[..|log| - 1], cutoff); }
  }

  lemma {:induction false} KeepNone(log: seq<Time>, cutoff: Time)
    requires forall i :: 0 <= i < |log| ==> log[i] <= cutoff
    ensures KeepAfter(log, cutoff) == []
  {
    if log != [] { KeepNone(log[..|log| - 1], cutoff); }
  }

  /** For every such pair a run in which trimmed log and full history differ: all but one of the
      requests `b` admits, then one under `a` once they are out of its window, then `b` again. */
  lemma GrowingWindowForgets(a: Limit, b: Limit) returns (calls: seq<Call>)
    requires Forgets(a, b)
    ensures ClockRuns(calls) && UsesLimits(calls, {a, b}) && !DecidesAlike(calls)
    ensures var n := |calls| - 1;
      n >= 0 && FullVerdict(History(calls[..n]), calls[n]).Limited? && FullVerdict(Log(calls[..n]), calls[n]).Accepted?
  {
    hide FullVerdict, KeepAfter, CountAfter, MaxPeriod, Log, History;
    var n := b.count - 1;
    var now := if a.period > 0.0 then a.period else 0.0;
    var filling, middle, last := Filling(b, n), Call(now, [a]), Call(now, [b]);
    FillingFacts(b, n);
    OneLimit(Zeros(n), middle);
    CountNone(Zeros(n), now - a.period);
    KeepNone(Zeros(n), now - a.period);
    NextLog(filling, middle);
    var before := filling + [middle];
    assert Log(before) == [now] && History(before) == Zeros(n) + [now];
    OneLimit([now], last);
    OneLimit(Zeros(n) + [now], last);
    CountAll([now], now - b.period);
    CountAll(Zeros(n) + [now], now - b.period);
    calls := before + [last];
    assert calls[..|calls| - 1] == before;
  }

  /** Exactly which limits may be mixed: in every run over them the trimmed log decides like the
      full history if and only if none that admits a request has a shorter window than another
      that counts to two or more. */
  lemma MixedLimitsExact(limits: set<Limit>)
    ensures (forall calls :: ClockRuns(calls) && UsesLimits(calls, limits) ==> DecidesAlike(calls)) <==>
      NoneForgets(limits)
  {
    hide ClockRuns, DecidesAlike;
    if NoneForgets(limits) {
      var lists := set l | l in limits :: [l];
      SingleLists(limits, lists);
      forall calls: seq<Call> | ClockRuns(calls) && UsesLimits(calls, limits)
        ensures DecidesAlike(calls)
      {
        forall i | 0 <= i < |calls|
          ensures calls[i].limits in lists
        {
          assert calls[i].limits == [calls[i].limits[0]];
        }
        StaysAlike(calls, lists);
      }
    } else {
      var a, b :| a in limits && b in limits && Forgets(a, b);
      var calls := GrowingWindowForgets(a, b);
      assert UsesLimits(calls, limits);
    }
  }

  lemma SingleLists(limits: set<Limit>, lists: set<seq<Limit>>)
    requires lists == (set l | l in limits :: [l]) && NoneForgets(limits)
    ensures NoListForgets(lists)
  {
    forall a, b | a in lists && b in lists
      ensures !ListForgets(a, b)
    {
      assert |a| == 1 && a[0] in limits && |b| == 1 && b[0] in limits;
      assert !Forgets(a[0], b[0]);
    }
  }
}
