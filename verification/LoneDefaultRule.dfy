/**
 When the default rule stands alone: exactly which model names let it bound a key's total.
 */
module LoneDefaultRule {
  import opened Collections
  import opened RateLimit
  import opened RequestRecords

  ghost predicate UsesModels(trace: seq<Event>, models: set<string>) {
    forall i :: 0 <= i < |trace| && !trace[i].Cleanup? ==> trace[i].model in models
  }

  // Every limit of the rule bounds the key's total in the window that ends at `to`.
  ghost predicate WindowTotals(trace: seq<Event>, key: string, limits: seq<Limit>, to: Time) {
    forall k :: 0 <= k < |limits| ==>
      InWindow(TimesOfKey(trace, key), to - limits[k].period, to) <= Max0(limits[k].count)
  }

  // In every run that asks only for these models, the limits bound every key's total.
  ghost predicate TotalBounded(limits: seq<Limit>, models: set<string>)
    requires limits != []
  {
    forall trace, key, to ::
      Legal(LoneDefault(limits), trace) && UsesModels(trace, models) ==> WindowTotals(trace, key, limits, to)
  }

  function LoneDefault(limits: seq<Limit>): (config: seq<NamedRule>)
    requires limits != []
    ensures Configured(config)
  {
    [NamedRule("default", limits)]
  }

  // Every limit has room for `n` requests.
  predicate RoomFor(limits: seq<Limit>, n: int) {
    forall k :: 0 <= k < |limits| ==> n <= limits[k].count
  }

  // A model named "default" matches the default rule by name, and is then counted on its own.
  lemma LoneDefaultRule(limits: seq<Limit>, model: string)
    requires limits != []
    ensures RuleFor(LoneDefault(limits), model) == Rule(limits, model != "default")
  {
    var config := LoneDefault(limits);
    assert config[1..] == [];
    assert ExactRule(config, model) == if model == "default" then Some(limits) else None;
    assert FuzzyRule(config, model) == None;
  }

  // Reserved names in use: "default" next to an ordinary model.
  predicate DefaultNameMixed(models: set<string>) {
    "default" in models && exists m :: m in models && m != "default" && m != ""
  }

  lemma {:induction false} OnlyDefaultKey(trace: seq<Event>, key: string)
    requires forall i :: 0 <= i < |trace| && !trace[i].Cleanup? ==> ModelKey(trace[i].model) == "default"
    ensures TimesOf(trace, key, "default") == TimesOfKey(trace, key)
  {
    if trace != [] { OnlyDefaultKey(trace[..|trace| - 1], key); }
  }

  /** Without the name "default" beside ordinary models the rule bounds every key's total. */
  lemma UnmixedBounded(limits: seq<Limit>, models: set<string>, trace: seq<Event>, key: string, to: Time)
    requires AllKeepable(limits) && !DefaultNameMixed(models)
    requires Legal(LoneDefault(limits), trace) && UsesModels(trace, models)
    ensures WindowTotals(trace, key, limits, to)
  {
    var config := LoneDefault(limits);
    hide RuleFor, LoneDefault, Legal, InWindow;
    forall m {
      LoneDefaultRule(limits, m);
    }
    forall k | 0 <= k < |limits|
      ensures InWindow(TimesOfKey(trace, key), to - limits[k].period, to) <= Max0(limits[k].count)
    {
      if "default" in models {
        OnlyDefaultKey(trace, key);
        ModelWindowsRespected(config, trace, key, "default", limits, k, to);
      } else {
        DefaultRuleRespected(config, trace, key, limits, k, to);
      }
    }
  }

  // ---------- a limit that admits nothing ----------

  lemma NothingFree(limits: seq<Limit>, byDefault: bool, book: Book, model: string, now: Time)
    requires !RoomFor(limits, 1)
    ensures Reached(book, Rule(limits, byDefault), model, now)
  {
    var rule := Rule(limits, byDefault);
    var k :| 0 <= k < |limits| && limits[k].count < 1;
    assert CountFor(book, rule, model, now - rule.limits[k].period) >= rule.limits[k].count;
  }

  // Then no key is ever handed out.
  lemma {:induction false} NothingGiven(limits: seq<Limit>, trace: seq<Event>, key: string)
    requires limits != [] && !RoomFor(limits, 1) && Legal(LoneDefault(limits), trace)
    ensures TimesOfKey(trace, key) == []
  {
    hide RuleFor, Reached, LoneDefault, BookOf, Requests;
    if trace != [] {
      var init, e := trace[..|trace| - 1], trace[|trace| - 1];
      NothingGiven(limits, init, key);
      if e.Give? {
        LoneDefaultRule(limits, e.model);
        NothingFree(limits, e.model != "default", BookOf(Requests(LoneDefault(limits), init), e.key),
          ModelKey(e.model), e.at);
      }
    }
  }

  lemma ClosedBounded(limits: seq<Limit>, trace: seq<Event>, key: string, to: Time)
    requires limits != [] && !RoomFor(limits, 1) && Legal(LoneDefault(limits), trace)
    ensures WindowTotals(trace, key, limits, to)
  {
    hide Legal, TimesOfKey;
    NothingGiven(limits, trace, key);
  }

  // ---------- a burst ----------

  // `n` requests for one model at one moment.
  function Burst(key: string, model: string, n: nat): seq<Event> {
    if n == 0 then [] else Burst(key, model, n - 1) + [Give(key, model, 0.0)]
  }

  function BurstRecords(model: string, n: nat): Book {
    if n == 0 then [] else [Entry(model, Zeros(n))]
  }

  lemma {:induction false} BurstFacts(limits: seq<Limit>, key: string, model: string, n: nat)
    requires AllKeepable(limits) && RoomFor(limits, n) && model != "default" && model != ""
    ensures var config := LoneDefault(limits);
      && Legal(config, Burst(key, model, n))
      && BookOf(Requests(config, Burst(key, model, n)), key) == BurstRecords(model, n)
      && TimesOfKey(Burst(key, model, n), key) == Zeros(n)
      && (n > 0 ==> Burst(key, model, n) != [] && LastTime(Burst(key, model, n)) == 0.0)
      && (n == 0 ==> Burst(key, model, n) == [])
  {
    hide Legal, Requests, LoneDefault, Zeros, Burst, TimesOfKey, LastTime, BookOf, BurstRecords, Keepable;
    if n > 0 {
      BurstFacts(limits, key, model, n - 1);
      BurstNext(limits, key, model, n);
    } else {
      BurstNone(LoneDefault(limits), key, model);
    }
  }

  lemma BurstNone(config: seq<NamedRule>, key: string, model: string)
    requires Configured(config)
    ensures Burst(key, model, 0) == [] && Zeros(0) == [] && Legal(config, []) && TimesOfKey([], key) == []
    ensures BookOf(Requests(config, []), key) == BurstRecords(model, 0)
  {
  }

  lemma BurstNext(limits: seq<Limit>, key: string, model: string, n: nat)
    requires AllKeepable(limits) && 0 < n && RoomFor(limits, n) && model != "default" && model != ""
    requires var config, init := LoneDefault(limits), Burst(key, model, n - 1);
      && Legal(config, init)
      && BookOf(Requests(config, init), key) == BurstRecords(model, n - 1)
      && TimesOfKey(init, key) == Zeros(n - 1)
      && (n > 1 ==> init != [] && LastTime(init) == 0.0)
      && (n == 1 ==> init == [])
    ensures var config := LoneDefault(limits);
      && Legal(config, Burst(key, model, n))
      && BookOf(Requests(config, Burst(key, model, n)), key) == BurstRecords(model, n)
      && TimesOfKey(Burst(key, model, n), key) == Zeros(n)
      && Burst(key, model, n) != [] && LastTime(Burst(key, model, n)) == 0.0
  {
    hide RuleFor, Recorded, Reached, LoneDefault, Legal, Requests, Zeros, Configured, BurstRecords, Keepable;
    var config, init, e := LoneDefault(limits), Burst(key, model, n - 1), Give(key, model, 0.0);
    assert init + [e] == Burst(key, model, n) && (init + [e])[..|init|] == init;
    LoneDefaultRule(limits, model);
    BurstBook(limits, model, n);
    RecordedBurst(config, limits, model, e, n);
    TraceNext(config, init, e);
    ZerosNext(n - 1);
  }

  lemma ZerosNext(n: nat)
    ensures Zeros(n) + [0.0] == Zeros(n + 1)
  {
  }

  lemma TotalOfBurst(model: string, n: nat, cutoff: Time)
    requires cutoff < 0.0
    ensures TotalAfter(BurstRecords(model, n), cutoff) == n
  {
    CountAll(Zeros(n), cutoff);
    if n > 0 { assert BurstRecords(model, n)[1..] == []; }
  }

  // What a request finds after `n - 1` others at the same moment.
  lemma BurstBook(limits: seq<Limit>, model: string, n: nat)
    requires AllKeepable(limits) && 0 < n && RoomFor(limits, n)
    ensures !Reached(BurstRecords(model, n - 1), Rule(limits, true), model, 0.0)
  {
    hide BurstRecords, TotalAfter;
    forall k | 0 <= k < |limits|
      ensures TotalAfter(BurstRecords(model, n - 1), 0.0 - limits[k].period) < limits[k].count
    {
      TotalOfBurst(model, n - 1, 0.0 - limits[k].period);
    }
  }

  lemma RecordedBurst(config: seq<NamedRule>, limits: seq<Limit>, model: string, e: Event, n: nat)
    requires AllKeepable(limits) && 0 < n && RoomFor(limits, n) && model != ""
    requires e.Give? && e.model == model && e.at == 0.0 && RuleFor(config, model) == Rule(limits, true)
    ensures Recorded(config, BurstRecords(model, n - 1), e) == BurstRecords(model, n)
  {
    hide RuleFor, MaxPeriod;
    var book := BurstRecords(model, n - 1);
    assert LogIn(book, model) == Zeros(n - 1);
    assert limits[0].period <= MaxPeriod(limits) && Keepable(limits[0]);
    assert TrimmedLeft(Zeros(n - 1), 0.0 - MaxPeriod(limits)) == Zeros(n - 1);
    ZerosNext(n - 1);
    assert n > 1 ==> book[1..] == [];
  }

  lemma {:induction false} ZerosInWindow(n: nat, from: Time)
    requires from < 0.0
    ensures InWindow(Zeros(n), from, 0.0) == n
  {
    if n > 0 {
      assert Zeros(n)[..n - 1] == Zeros(n - 1);
      ZerosInWindow(n - 1, from);
    }
  }

  // The limit with the smallest count.
  lemma {:induction false} Tightest(limits: seq<Limit>) returns (k: nat)
    requires limits != []
    ensures k < |limits| && RoomFor(limits, limits[k].count)
  {
    k := 0;
    if |limits| > 1 {
      var j := Tightest(limits[..|limits| - 1]);
      k := if limits[|limits| - 1].count < limits[j].count then |limits| - 1 else j;
      forall i | 0 <= i < |limits|
        ensures limits[k].count <= limits[i].count
      {
        if i < |limits| - 1 { assert limits[..|limits| - 1][i] == limits[i]; }
      }
    }
  }

  /** With the literal name "default" beside another model the total is exceeded: as many
      requests as the tightest limit admits for the one, then one more under the other. */
  lemma DefaultNameExceeds(limits: seq<Limit>, model: string) returns (trace: seq<Event>, k: nat)
    requires AllKeepable(limits) && RoomFor(limits, 1) && model != "default" && model != ""
    ensures Legal(LoneDefault(limits), trace) && UsesModels(trace, {model, "default"})
    ensures k < |limits| && InWindow(TimesOfKey(trace, "key"), 0.0 - limits[k].period, 0.0) == limits[k].count + 1
  {
    hide RuleFor, Recorded, Requests, LoneDefault, Burst, Legal, Reached, Zeros, InWindow, BookOf, LastTime;
    hide Configured, BurstRecords;
    k := Tightest(limits);
    var n: nat := limits[k].count;
    var config, burst, e := LoneDefault(limits), Burst("key", model, n), Give("key", "default", 0.0);
    BurstFacts(limits, "key", model, n);
    LoneDefaultRule(limits, "default");
    DefaultUnseen(limits, model, n);
    TraceNext(config, burst, e);
    trace := burst + [e];
    assert trace[..|burst|] == burst;
    ZerosNext(n);
    ZerosInWindow(n + 1, 0.0 - limits[k].period);
    BurstModels("key", model, n);
  }

  lemma DefaultUnseen(limits: seq<Limit>, model: string, n: nat)
    requires RoomFor(limits, 1) && model != "default"
    ensures !Reached(BurstRecords(model, n), Rule(limits, false), "default", 0.0)
  {
    var book := BurstRecords(model, n);
    assert n > 0 ==> book[1..] == [];
    assert LogIn(book, "default") == [];
  }

  lemma {:induction false} BurstModels(key: string, model: string, n: nat)
    ensures UsesModels(Burst(key, model, n), {model})
  {
    if n > 0 { BurstModels(key, model, n - 1); }
  }

  /** Exactly when a lone default rule bounds the total by each of its limits: in all runs over a
      set of models unless the name "default" is asked for beside an ordinary model, or when one
      of the limits admits no request at all. */
  lemma LoneDefaultExact(limits: seq<Limit>, models: set<string>)
    requires AllKeepable(limits)
    ensures TotalBounded(limits, models) <==> !DefaultNameMixed(models) || !RoomFor(limits, 1)
  {
    hide Legal, InWindow, LoneDefault, TimesOfKey;
    if DefaultNameMixed(models) && RoomFor(limits, 1) {
      var m :| m in models && m != "default" && m != "";
      var trace, k := DefaultNameExceeds(limits, m);
      assert UsesModels(trace, models);
      assert !WindowTotals(trace, "key", limits, 0.0);
    } else {
      forall trace, key, to | Legal(LoneDefault(limits), trace) && UsesModels(trace, models)
        ensures WindowTotals(trace, key, limits, to)
      {
        if DefaultNameMixed(models) {
          ClosedBounded(limits, trace, key, to);
        } else {
          UnmixedBounded(limits, models, trace, key, to);
        }
      }
    }
  }

  // ---------- a check with an effect ----------

  /** A check is not without effect: one made when the key's last request is as old as the
      longest window takes that request off the log. */
  lemma CheckTrims(limits: seq<Limit>, key: string, model: string)
    requires AllKeepable(limits) && RoomFor(limits, 1) && model != "default" && model != ""
    ensures var config, before := LoneDefault(limits), [Give(key, model, 0.0)];
      var after := before + [Peek(key, model, MaxPeriod(limits))];
      && Legal(config, after)
      && BookOf(Requests(config, before), key) == [Entry(model, [0.0])]
      && BookOf(Requests(config, after), key) == [Entry(model, [])]
  {
    hide RuleFor, Legal, Requests, Burst, LoneDefault, MaxPeriod;
    var config, before, peek := LoneDefault(limits), [Give(key, model, 0.0)], Peek(key, model, MaxPeriod(limits));
    BurstFacts(limits, key, model, 1);
    OneGive(key, model);
    LoneDefaultRule(limits, model);
    OutOfWindow(limits, model);
    assert limits[0].period <= MaxPeriod(limits) && Keepable(limits[0]);
    TraceNext(config, before, peek);
    TrimmedToNothing(config, limits, model, peek);
  }

  lemma OneGive(key: string, model: string)
    ensures Burst(key, model, 1) == [Give(key, model, 0.0)] && BurstRecords(model, 1) == [Entry(model, [0.0])]
  {
    assert Burst(key, model, 0) == [] && Zeros(1) == [0.0];
  }

  lemma OutOfWindow(limits: seq<Limit>, model: string)
    requires limits != [] && RoomFor(limits, 1)
    ensures !Reached([Entry(model, [0.0])], Rule(limits, true), model, MaxPeriod(limits))
  {
    hide MaxPeriod;
    var book := [Entry(model, [0.0])];
    assert book[1..] == [];
    forall k | 0 <= k < |limits|
      ensures TotalAfter(book, MaxPeriod(limits) - limits[k].period) == 0
    {
      CountNone([0.0], MaxPeriod(limits) - limits[k].period);
    }
  }

  lemma TrimmedToNothing(config: seq<NamedRule>, limits: seq<Limit>, model: string, peek: Event)
    requires limits != [] && RuleFor(config, model) == Rule(limits, true)
    requires peek.Peek? && peek.model == model && model != "" && peek.at == MaxPeriod(limits)
    ensures Recorded(config, [Entry(model, [0.0])], peek) == [Entry(model, [])]
  {
    hide RuleFor, MaxPeriod;
    var book := [Entry(model, [0.0])];
    assert book[1..] == [] && [0.0][1..] == [];
    assert LogIn(book, model) == [0.0];
    assert TrimmedLeft([0.0], 0.0) == [];
  }
}
