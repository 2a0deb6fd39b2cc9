/**
 The request records of the key pool in `core/key_pool.py`: per-model logs that are bounded,
 trimmed and cleaned up, and the sliding windows counted over them.

 A run of the pool is a trace of the events that touch the records. `Requests` replays a trace
 the way the program keeps its records; the theorems say what every legal trace obeys. The
 class in KeyPool.dfy is proved to produce only legal traces.
 */
module RequestRecords {
  import opened Collections
  import opened RateLimit

  const LOG_LENGTH := 1000
  const STALE_SECONDS: Time := 3600.0

  // ---------- rules ----------

  datatype NamedRule = NamedRule(model: string, limits: seq<Limit>)

  /** The rule a model is under: its limits, and whether they bound the key's total. */
  datatype Rule = Rule(limits: seq<Limit>, byDefault: bool)

  // Rules as configured, in the dictionary's order; a parsed rule always has a limit.
  ghost predicate Configured(config: seq<NamedRule>) {
    && (forall i :: 0 <= i < |config| ==> config[i].limits != [])
    && forall i, j :: 0 <= i < j < |config| ==> config[i].model != config[j].model
  }

  function ExactRule(config: seq<NamedRule>, model: string): Option<seq<Limit>> {
    if config == [] then None
    else if config[0].model == model then Some(config[0].limits)
    else ExactRule(config[1..], model)
  }

  // The first rule, other than the default, whose name is a part of the model's.
  function FuzzyRule(config: seq<NamedRule>, model: string): Option<seq<Limit>> {
    if config == [] then None
    else if config[0].model != "default" && model != "" && Find(model, config[0].model) >= 0 then Some(config[0].limits)
    else FuzzyRule(config[1..], model)
  }

  function RuleFor(config: seq<NamedRule>, model: string): Rule {
    if model != "" && ExactRule(config, model).Some? then Rule(ExactRule(config, model).value, false)
    else if FuzzyRule(config, model).Some? then Rule(FuzzyRule(config, model).value, false)
    else Rule(ExactRule(config, "default").GetOr([Limit(999999, 60.0)]), true)
  }

  /** The rule at position `i` is the model's own: it bears the model's name, or no rule does and it
      is the first, other than the default, whose name is a part of the model's. */
  ghost predicate Governs(config: seq<NamedRule>, i: nat, model: string)
    requires i < |config|
  {
    model != "" &&
    (|| config[i].model == model
     || (&& (forall j :: 0 <= j < |config| ==> config[j].model != model)
         && FirstPart(config, i, model)))
  }

  ghost predicate FirstPart(config: seq<NamedRule>, i: nat, model: string)
    requires i < |config|
  {
    IsPart(config[i].model, model) && forall j :: 0 <= j < i ==> !IsPart(config[j].model, model)
  }

  ghost predicate IsPart(name: string, model: string) {
    name != "default" && Occurs(model, name)
  }

  lemma {:induction false} ExactMeans(config: seq<NamedRule>, model: string)
    requires Configured(config)
    ensures ExactRule(config, model).None? <==> forall i :: 0 <= i < |config| ==> config[i].model != model
    ensures forall i :: 0 <= i < |config| && config[i].model == model ==>
      ExactRule(config, model) == Some(config[i].limits)
  {
    if config != [] { ExactMeans(config[1..], model); }
  }

  lemma {:induction false} FuzzyMeans(config: seq<NamedRule>, model: string)
    requires model != ""
    ensures FuzzyRule(config, model).None? <==> forall i :: 0 <= i < |config| ==> !IsPart(config[i].model, model)
    ensures forall i: nat :: i < |config| && FirstPart(config, i, model) ==>
      FuzzyRule(config, model) == Some(config[i].limits)
  {
    hide Find, Occurs;
    if config != [] {
      var rest := config[1..];
      FuzzyMeans(rest, model);
      FoundIsPart(config[0].model, model);
      assert forall i :: 1 <= i < |config| ==> config[i] == rest[i - 1];
      forall i: nat | i < |config| && FirstPart(config, i, model)
        ensures FuzzyRule(config, model) == Some(config[i].limits)
      {
        if i > 0 {
          assert forall j :: 0 <= j < i - 1 ==> rest[j] == config[j + 1];
          assert FirstPart(rest, i - 1, model);
        }
      }
    }
  }

  lemma FoundIsPart(name: string, model: string)
    ensures IsPart(name, model) <==> name != "default" && Find(model, name) >= 0
  {
    hide Find;
    FindIsLeftmost(model, name);
    if Find(model, name) >= 0 { assert OccursAt(model, name, Find(model, name)); }
  }

  /** Which rule decides: the model's own, and then only the model's requests count; without one the
      rule named "default", or 999999 requests a minute, and then all of the key's requests do. */
  lemma RuleForMeans(config: seq<NamedRule>, model: string)
    requires Configured(config)
    ensures forall i: nat :: i < |config| && Governs(config, i, model) ==>
      RuleFor(config, model) == Rule(config[i].limits, false)
    ensures (forall i: nat :: i < |config| ==> !Governs(config, i, model)) ==>
      && RuleFor(config, model).byDefault
      && (forall i :: 0 <= i < |config| && config[i].model == "default" ==>
        RuleFor(config, model).limits == config[i].limits)
      && ((forall i :: 0 <= i < |config| ==> config[i].model != "default") ==>
        RuleFor(config, model).limits == [Limit(999999, 60.0)])
  {
    hide ExactRule, FuzzyRule, Occurs;
    ExactMeans(config, model);
    ExactMeans(config, "default");
    if model == "" {
      NoFuzzy(config);
    } else {
      FuzzyMeans(config, model);
      if forall i: nat :: i < |config| ==> !Governs(config, i, model) {
        NothingGoverns(config, model);
      }
    }
  }

  lemma {:induction false} NoFuzzy(config: seq<NamedRule>)
    ensures FuzzyRule(config, "").None?
  {
    if config != [] { NoFuzzy(config[1..]); }
  }

  lemma NothingGoverns(config: seq<NamedRule>, model: string)
    requires model != "" && forall i: nat :: i < |config| ==> !Governs(config, i, model)
    ensures forall i :: 0 <= i < |config| ==> config[i].model != model && !IsPart(config[i].model, model)
  {
    hide Occurs;
    forall i: nat | i < |config|
      ensures config[i].model != model
    {
      assert !Governs(config, i, model);
    }
    forall i: nat | i < |config|
      ensures !IsPart(config[i].model, model)
    {
      NotPart(config, i, model);
    }
  }

  lemma {:induction false} NotPart(config: seq<NamedRule>, i: nat, model: string)
    requires model != "" && i < |config| && forall i: nat :: i < |config| ==> !Governs(config, i, model)
    requires forall i :: 0 <= i < |config| ==> config[i].model != model
    ensures forall j :: 0 <= j <= i ==> !IsPart(config[j].model, model)
  {
    if i > 0 { NotPart(config, i - 1, model); }
    assert !Governs(config, i, model);
  }

  lemma {:induction false} RuleHasLimits(config: seq<NamedRule>, model: string)
    requires Configured(config)
    ensures RuleFor(config, model).limits != []
  {
    ExactHasLimits(config, model);
    ExactHasLimits(config, "default");
    FuzzyHasLimits(config, model);
  }

  lemma {:induction false} ExactHasLimits(config: seq<NamedRule>, model: string)
    requires forall i :: 0 <= i < |config| ==> config[i].limits != []
    ensures ExactRule(config, model).Some? ==> ExactRule(config, model).value != []
  {
    if config != [] { ExactHasLimits(config[1..], model); }
  }

  lemma {:induction false} FuzzyHasLimits(config: seq<NamedRule>, model: string)
    requires forall i :: 0 <= i < |config| ==> config[i].limits != []
    ensures FuzzyRule(config, model).Some? ==> FuzzyRule(config, model).value != []
  {
    if config != [] { FuzzyHasLimits(config[1..], model); }
  }

  // Requests without a model are recorded under the name "default".
  function ModelKey(model: string): string {
    if model == "" then "default" else model
  }

  // ---------- request records ----------

  /** One model's request times, and all the models of a key in the dictionary's order. */
  datatype Entry = Entry(model: string, log: seq<Time>)

  type Book = seq<Entry>

  function LogIn(book: Book, model: string): seq<Time> {
    if book == [] then [] else if book[0].model == model then book[0].log else LogIn(book[1..], model)
  }

  function Put(book: Book, model: string, log: seq<Time>): Book {
    if book == [] then [Entry(model, log)]
    else if book[0].model == model then [Entry(model, log)] + book[1..]
    else [book[0]] + Put(book[1..], model, log)
  }

  function TotalAfter(book: Book, cutoff: Time): nat {
    if book == [] then 0 else CountAfter(book[0].log, cutoff) + TotalAfter(book[1..], cutoff)
  }

  // `popleft` while the oldest entry is out of the window.
  function TrimmedLeft(log: seq<Time>, cutoff: Time): seq<Time> {
    if log != [] && log[0] <= cutoff then TrimmedLeft(log[1..], cutoff) else log
  }

  // `append` to a deque of at most 1000 entries.
  function Pushed(log: seq<Time>, t: Time): seq<Time> {
    if |log| >= LOG_LENGTH then log[1..] + [t] else log + [t]
  }

  function CountFor(book: Book, rule: Rule, model: string, cutoff: Time): nat {
    if rule.byDefault then TotalAfter(book, cutoff) else CountAfter(LogIn(book, model), cutoff)
  }

  predicate Reached(book: Book, rule: Rule, model: string, now: Time) {
    exists i :: 0 <= i < |rule.limits|
      && CountFor(book, rule, model, now - rule.limits[i].period) >= rule.limits[i].count
  }

  function BookOf(requests: map<string, Book>, key: string): Book {
    if key in requests then requests[key] else []
  }

  // `_cleanup_stale_request_keys` for one key.
  function Cleaned(book: Book, now: Time): Book {
    if book == [] then []
    else
      var rest := Cleaned(book[1..], now);
      if book[0].log == [] || book[0].log[|book[0].log| - 1] <= now - STALE_SECONDS then rest else [book[0]] + rest
  }

  // The log has an entry of the last hour.
  predicate Recent(e: Entry, now: Time) {
    e.log != [] && e.log[|e.log| - 1] > now - 3600.0
  }

  lemma {:induction false} CleanedMembers(book: Book, now: Time)
    ensures forall e :: e in Cleaned(book, now) <==> e in book && Recent(e, now)
  {
    if book != [] {
      CleanedMembers(book[1..], now);
      assert forall e :: e in book <==> e == book[0] || e in book[1..];
    }
  }

  // ---------- traces ----------

  /** What touches the records: a key handed out, a check that found it available, a cleanup. */
  datatype Event =
    | Give(key: string, model: string, at: Time)
    | Peek(key: string, model: string, at: Time)
    | Cleanup(at: Time)

  function Recorded(config: seq<NamedRule>, book: Book, e: Event): Book
    requires !e.Cleanup? && RuleFor(config, e.model).limits != []
  {
    var model := ModelKey(e.model);
    var trimmed := TrimmedLeft(LogIn(book, model), e.at - MaxPeriod(RuleFor(config, e.model).limits));
    Put(book, model, if e.Give? then Pushed(trimmed, e.at) else trimmed)
  }

  function Applied(config: seq<NamedRule>, requests: map<string, Book>, e: Event): map<string, Book>
    requires !e.Cleanup? ==> RuleFor(config, e.model).limits != []
  {
    if e.Cleanup? then map key | key in requests && Cleaned(requests[key], e.at) != [] :: Cleaned(requests[key], e.at)
    else requests[e.key := Recorded(config, BookOf(requests, e.key), e)]
  }

  ghost function Requests(config: seq<NamedRule>, trace: seq<Event>): map<string, Book>
    requires Configured(config)
  {
    if trace == [] then map[]
    else
      var e := trace[|trace| - 1];
      assert !e.Cleanup? ==> RuleFor(config, e.model).limits != [] by {
        if !e.Cleanup? { RuleHasLimits(config, e.model); }
      }
      Applied(config, Requests(config, trace[..|trace| - 1]), e)
  }

  // Events come in the order of a clock that does not run backwards, and a key is handed out or
  // found available only when none of its limits is reached.
  ghost predicate Legal(config: seq<NamedRule>, trace: seq<Event>)
    requires Configured(config)
  {
    trace == [] ||
    var init, e := trace[..|trace| - 1], trace[|trace| - 1];
    && Legal(config, init)
    && (init != [] ==> init[|init| - 1].at <= e.at)
    && (!e.Cleanup? ==>
      !Reached(BookOf(Requests(config, init), e.key), RuleFor(config, e.model), ModelKey(e.model), e.at))
  }

  // When `key` was handed out under model key `model`.
  function TimesOf(trace: seq<Event>, key: string, model: string): seq<Time> {
    if trace == [] then []
    else
      var init, e := TimesOf(trace[..|trace| - 1], key, model), trace[|trace| - 1];
      if e.Give? && e.key == key && ModelKey(e.model) == model then init + [e.at] else init
  }

  // When `key` was handed out at all.
  function TimesOfKey(trace: seq<Event>, key: string): seq<Time> {
    if trace == [] then []
    else
      var init, e := TimesOfKey(trace[..|trace| - 1], key), trace[|trace| - 1];
      if e.Give? && e.key == key then init + [e.at] else init
  }

  // ---------- one log ----------

  predicate SortedUpTo(log: seq<Time>, now: Time) {
    && (forall i :: 0 <= i < |log| ==> log[i] <= now)
    && forall i, j :: 0 <= i < j < |log| ==> log[i] <= log[j]
  }

  lemma {:induction false} CountHead(log: seq<Time>, cutoff: Time)
    requires log != []
    ensures CountAfter(log, cutoff) == (if log[0] > cutoff then 1 else 0) + CountAfter(log[1..], cutoff)
  {
    CountConcat([log[0]], log[1..], cutoff);
    assert [log[0]] + log[1..] == log;
    assert [log[0]][..0] == [];
  }

  lemma {:induction false} TrimFacts(log: seq<Time>, trim: Time, now: Time)
    requires SortedUpTo(log, now)
    ensures SortedUpTo(TrimmedLeft(log, trim), now) && |TrimmedLeft(log, trim)| <= |log|
    ensures forall cutoff :: cutoff >= trim ==> CountAfter(TrimmedLeft(log, trim), cutoff) == CountAfter(log, cutoff)
  {
    if log != [] && log[0] <= trim {
      TrimFacts(log[1..], trim, now);
      forall cutoff | cutoff >= trim
        ensures CountAfter(TrimmedLeft(log, trim), cutoff) == CountAfter(log, cutoff)
      {
        CountHead(log, cutoff);
      }
    }
  }

  // A log with fewer than 1000 entries after `cutoff` loses nothing from there on when it
  // overflows.
  lemma PushFacts(log: seq<Time>, from: Time, t: Time, now: Time)
    requires SortedUpTo(log, now) && now <= t && |log| <= LOG_LENGTH && CountAfter(log, from) < LOG_LENGTH
    ensures SortedUpTo(Pushed(log, t), t) && |Pushed(log, t)| <= LOG_LENGTH
    ensures forall cutoff :: cutoff >= from ==>
      CountAfter(Pushed(log, t), cutoff) == CountAfter(log, cutoff) + (if t > cutoff then 1 else 0)
  {
    hide CountAfter;
    if |log| == LOG_LENGTH && log[0] > from {
      CountAll(log, from);
    }
    forall cutoff | cutoff >= from
      ensures CountAfter(Pushed(log, t), cutoff) == CountAfter(log, cutoff) + (if t > cutoff then 1 else 0)
    {
      CountAppend(log, t, cutoff);
      if |log| == LOG_LENGTH {
        CountHead(log, cutoff);
        CountAppend(log[1..], t, cutoff);
      }
    }
  }

  // ---------- one book ----------

  predicate Orderly(book: Book, now: Time) {
    forall i :: 0 <= i < |book| ==> SortedUpTo(book[i].log, now) && |book[i].log| <= LOG_LENGTH
  }

  lemma {:induction false} LogInOrderly(book: Book, model: string, now: Time)
    requires Orderly(book, now)
    ensures SortedUpTo(LogIn(book, model), now) && |LogIn(book, model)| <= LOG_LENGTH
  {
    if book != [] && book[0].model != model { LogInOrderly(book[1..], model, now); }
  }

  lemma {:induction false} PutFacts(book: Book, model: string, log: seq<Time>, now: Time)
    ensures forall other :: LogIn(Put(book, model, log), other) == if other == model then log else LogIn(book, other)
    ensures forall cutoff ::
      TotalAfter(Put(book, model, log), cutoff)
      == TotalAfter(book, cutoff) - CountAfter(LogIn(book, model), cutoff) + CountAfter(log, cutoff)
    ensures Orderly(book, now) && SortedUpTo(log, now) && |log| <= LOG_LENGTH ==> Orderly(Put(book, model, log), now)
  {
    if book == [] {
      assert [Entry(model, log)][1..] == [];
      assert forall cutoff :: TotalAfter([], cutoff) == 0;
    } else if book[0].model == model {
      assert ([Entry(model, log)] + book[1..])[1..] == book[1..];
    } else {
      PutFacts(book[1..], model, log, now);
      assert ([book[0]] + Put(book[1..], model, log))[1..] == Put(book[1..], model, log);
    }
  }

  lemma {:induction false} LogWithinTotal(book: Book, model: string, cutoff: Time)
    ensures CountAfter(LogIn(book, model), cutoff) <= TotalAfter(book, cutoff)
  {
    if book != [] && book[0].model != model { LogWithinTotal(book[1..], model, cutoff); }
  }

  // What is cleaned up is out of every window of at most an hour.
  lemma {:induction false} CleanedFacts(book: Book, now: Time)
    requires Orderly(book, now)
    ensures Orderly(Cleaned(book, now), now)
    ensures forall cutoff :: cutoff >= now - STALE_SECONDS ==>
      TotalAfter(Cleaned(book, now), cutoff) == TotalAfter(book, cutoff)
  {
    if book != [] {
      CleanedFacts(book[1..], now);
      var rest, log := Cleaned(book[1..], now), book[0].log;
      assert ([book[0]] + rest)[1..] == rest;
      if log == [] || log[|log| - 1] <= now - STALE_SECONDS {
        forall cutoff | cutoff >= now - STALE_SECONDS
          ensures CountAfter(log, cutoff) == 0
        {
          CountNone(log, cutoff);
        }
      }
    }
  }

  ghost predicate OneEntryEach(book: Book) {
    forall i, j :: 0 <= i < j < |book| ==> book[i].model != book[j].model
  }

  lemma {:induction false} PutKeepsOneEach(book: Book, model: string, log: seq<Time>)
    requires OneEntryEach(book)
    ensures OneEntryEach(Put(book, model, log))
    ensures forall i :: 0 <= i < |Put(book, model, log)| ==>
      || Put(book, model, log)[i].model == model
      || exists j :: 0 <= j < |book| && book[j].model == Put(book, model, log)[i].model
  {
    if book != [] && book[0].model != model {
      PutKeepsOneEach(book[1..], model, log);
      var rest := Put(book[1..], model, log);
      assert forall i :: 0 <= i < |rest| ==> rest[i].model != book[0].model;
    }
  }

  lemma {:induction false} CleanedLog(book: Book, model: string, now: Time)
    requires Orderly(book, now) && OneEntryEach(book)
    ensures OneEntryEach(Cleaned(book, now))
    ensures forall e :: e in Cleaned(book, now) ==> e in book
    ensures forall cutoff :: cutoff >= now - STALE_SECONDS ==>
      CountAfter(LogIn(Cleaned(book, now), model), cutoff) == CountAfter(LogIn(book, model), cutoff)
  {
    if book != [] {
      CleanedLog(book[1..], model, now);
      var rest, log := Cleaned(book[1..], now), book[0].log;
      assert ([book[0]] + rest)[1..] == rest;
      if log == [] || log[|log| - 1] <= now - STALE_SECONDS {
        forall cutoff | cutoff >= now - STALE_SECONDS
          ensures CountAfter(log, cutoff) == 0
        {
          CountNone(log, cutoff);
        }
        if book[0].model == model {
          assert forall e :: e in rest ==> e in book[1..] && e.model != model;
          LogMissing(rest, model);
        }
      } else {
        assert forall e :: e in rest ==> e in book[1..] && e.model != book[0].model;
      }
    }
  }

  lemma {:induction false} LogMissing(book: Book, model: string)
    requires forall e :: e in book ==> e.model != model
    ensures LogIn(book, model) == []
  {
    if book != [] { LogMissing(book[1..], model); }
  }

  // ---------- all records ----------

  ghost predicate RecordsOk(requests: map<string, Book>, now: Time) {
    forall key :: key in requests ==> Orderly(requests[key], now) && OneEntryEach(requests[key])
  }

  ghost function LastTime(trace: seq<Event>): Time
    requires trace != []
  {
    trace[|trace| - 1].at
  }

  lemma OrderlyLater(book: Book, now: Time, later: Time)
    requires Orderly(book, now) && now <= later
    ensures Orderly(book, later)
  {
  }

  lemma RecordedOk(config: seq<NamedRule>, book: Book, e: Event, now: Time)
    requires !e.Cleanup? && RuleFor(config, e.model).limits != []
    requires Orderly(book, now) && OneEntryEach(book) && now <= e.at
    ensures Orderly(Recorded(config, book, e), e.at) && OneEntryEach(Recorded(config, book, e))
  {
    hide RuleFor, MaxPeriod, LogIn, Put, TrimmedLeft;
    var model := ModelKey(e.model);
    var log := LogIn(book, model);
    var trim := e.at - MaxPeriod(RuleFor(config, e.model).limits);
    LogInOrderly(book, model, now);
    TrimFacts(log, trim, now);
    OrderlyLater(book, now, e.at);
    var log' := if e.Give? then Pushed(TrimmedLeft(log, trim), e.at) else TrimmedLeft(log, trim);
    assert SortedUpTo(log', e.at) && |log'| <= LOG_LENGTH;
    PutFacts(book, model, log', e.at);
    PutKeepsOneEach(book, model, log');
  }

  // Every log of every reachable pool is in time order, ends by now and has at most 1000 entries.
  lemma {:induction false} RecordsKeep(config: seq<NamedRule>, trace: seq<Event>)
    requires Configured(config) && Legal(config, trace) && trace != []
    ensures RecordsOk(Requests(config, trace), LastTime(trace))
  {
    hide RuleFor, Recorded, Reached, Orderly, OneEntryEach, Cleaned;
    var init, e := trace[..|trace| - 1], trace[|trace| - 1];
    var before := Requests(config, init);
    if init != [] { RecordsKeep(config, init); }
    if e.Cleanup? {
      forall key | key in before
        ensures Orderly(Cleaned(before[key], e.at), e.at) && OneEntryEach(Cleaned(before[key], e.at))
      {
        OrderlyLater(before[key], LastTime(init), e.at);
        CleanedFacts(before[key], e.at);
        CleanedLog(before[key], "", e.at);
      }
    } else {
      RuleHasLimits(config, e.model);
      forall key | key in before
        ensures Orderly(before[key], e.at)
      {
        OrderlyLater(before[key], LastTime(init), e.at);
      }
      EmptyBook(e.at);
      RecordedOk(config, BookOf(before, e.key), e, e.at);
    }
  }

  lemma EmptyBook(now: Time)
    ensures Orderly([], now) && OneEntryEach([])
  {
  }

  // The records of one key are those after the last event that touched it.
  lemma BookAfter(config: seq<NamedRule>, trace: seq<Event>, key: string)
    requires Configured(config) && Legal(config, trace) && trace != []
    ensures var init, e := trace[..|trace| - 1], trace[|trace| - 1];
      var book, book' := BookOf(Requests(config, init), key), BookOf(Requests(config, trace), key);
      && Orderly(book, e.at) && OneEntryEach(book)
      && (e.Cleanup? ==> book' == Cleaned(book, e.at))
      && (!e.Cleanup? && e.key != key ==> book' == book)
      && (!e.Cleanup? ==>
        RuleFor(config, e.model).limits != [] && (e.key == key ==> book' == Recorded(config, book, e)))
  {
    hide RuleFor, Recorded, Reached, Orderly, OneEntryEach;
    var init, e := trace[..|trace| - 1], trace[|trace| - 1];
    EmptyBook(e.at);
    if init != [] {
      RecordsKeep(config, init);
      if key in Requests(config, init) {
        OrderlyLater(Requests(config, init)[key], LastTime(init), e.at);
      }
    }
    if !e.Cleanup? { RuleHasLimits(config, e.model); }
  }

  // ---------- one model key ----------

  // Every request for `key` under `model` was decided by the same limits.
  ghost predicate Governed(config: seq<NamedRule>, trace: seq<Event>, key: string, model: string, limits: seq<Limit>) {
    forall i :: 0 <= i < |trace| && !trace[i].Cleanup? && trace[i].key == key && ModelKey(trace[i].model) == model ==>
      RuleFor(config, trace[i].model).limits == limits
  }

  // A limit the bounded logs can keep: at most 1000 requests in at most an hour.
  predicate Keepable(limit: Limit) {
    limit.count <= LOG_LENGTH && 0.0 < limit.period <= STALE_SECONDS
  }

  // The log counts like the whole history as far back as the limit looks.
  ghost predicate LogTracks(book: Book, model: string, times: seq<Time>, from: Time) {
    forall cutoff :: cutoff >= from ==> CountAfter(LogIn(book, model), cutoff) == CountAfter(times, cutoff)
  }

  lemma TimesOfFacts(trace: seq<Event>, key: string, model: string)
    requires trace != [] && forall i, j :: 0 <= i < j < |trace| ==> trace[i].at <= trace[j].at
    ensures var times := TimesOf(trace, key, model); times != [] ==> times[|times| - 1] <= LastTime(trace)
  {
    if |trace| > 1 {
      TimesOfFacts(trace[..|trace| - 1], key, model);
    } else {
      assert trace[..0] == [];
    }
  }

  lemma {:induction false} ClockOrder(config: seq<NamedRule>, trace: seq<Event>)
    requires Configured(config) && Legal(config, trace)
    ensures forall i, j :: 0 <= i < j < |trace| ==> trace[i].at <= trace[j].at
  {
    hide Reached, BookOf, RuleFor, ModelKey, Requests;
    if trace != [] {
      ClockOrder(config, trace[..|trace| - 1]);
    }
  }

  // What is recorded for a request that its limits allow.
  lemma RecordedTracks(config: seq<NamedRule>, book: Book, e: Event, times: seq<Time>, limits: seq<Limit>, k: nat)
    requires !e.Cleanup? && RuleFor(config, e.model).limits == limits && k < |limits| && Keepable(limits[k])
    requires Orderly(book, e.at) && LogTracks(book, ModelKey(e.model), times, e.at - limits[k].period)
    requires !Reached(book, RuleFor(config, e.model), ModelKey(e.model), e.at)
    ensures LogTracks(Recorded(config, book, e), ModelKey(e.model), if e.Give? then times + [e.at] else times,
      e.at - limits[k].period)
    ensures CountAfter(times, e.at - limits[k].period) < limits[k].count
  {
    hide LogIn, Put, TrimmedLeft, CountAfter, TotalAfter, RuleFor, Pushed, Orderly;
    var model, from := ModelKey(e.model), e.at - limits[k].period;
    var log, trim := LogIn(book, model), e.at - MaxPeriod(limits);
    LogWithinTotal(book, model, from);
    assert CountAfter(log, from) < limits[k].count;
    LogInOrderly(book, model, e.at);
    TrimFacts(log, trim, e.at);
    var trimmed := TrimmedLeft(log, trim);
    PushFacts(trimmed, from, e.at, e.at);
    PutFacts(book, model, if e.Give? then Pushed(trimmed, e.at) else trimmed, e.at);
    forall cutoff | cutoff >= from
      ensures CountAfter(times + [e.at], cutoff) == CountAfter(times, cutoff) + (if e.at > cutoff then 1 else 0)
    {
      CountAppend(times, e.at, cutoff);
    }
  }

  /** One model key's records track its whole history, and each hand-out found the window open. */
  lemma {:induction false} OwnTracked(config: seq<NamedRule>, trace: seq<Event>, key: string, model: string,
      limits: seq<Limit>, k: nat)
    requires Configured(config) && Legal(config, trace) && trace != []
    requires Governed(config, trace, key, model, limits) && k < |limits| && Keepable(limits[k])
    ensures LogTracks(BookOf(Requests(config, trace), key), model, TimesOf(trace, key, model),
      LastTime(trace) - limits[k].period)
    ensures Spaced(TimesOf(trace, key, model), limits[k])
  {
    hide RuleFor, Reached, Orderly, OneEntryEach, Requests, Cleaned, Recorded, LogTracks, CountAfter;
    var init, e := trace[..|trace| - 1], trace[|trace| - 1];
    var book, times := BookOf(Requests(config, init), key), TimesOf(init, key, model);
    var from := e.at - limits[k].period;
    ClockOrder(config, trace);
    BookAfter(config, trace, key);
    if init == [] {
      NothingYet(config, key, model, from);
    } else {
      OwnTracked(config, init, key, model, limits, k);
      TimesOfFacts(init, key, model);
      TracksLater(book, model, times, LastTime(init) - limits[k].period, from);
    }
    assert LogTracks(book, model, times, from);
    if e.Cleanup? {
      CleanedTracks(book, model, times, e.at, from);
    } else if e.key == key && ModelKey(e.model) == model {
      RecordedTracks(config, book, e, times, limits, k);
      if e.Give? { SpacedAppend(times, e.at, limits[k]); }
    } else if e.key == key {
      OtherModelTracks(config, book, e, model, times, from);
    }
  }

  lemma NothingYet(config: seq<NamedRule>, key: string, model: string, from: Time)
    requires Configured(config)
    ensures BookOf(Requests(config, []), key) == []
    ensures LogTracks([], model, [], from) && TotalTracks([], [], from)
  {
  }

  lemma TracksLater(book: Book, model: string, times: seq<Time>, from: Time, later: Time)
    requires LogTracks(book, model, times, from) && from <= later
    ensures LogTracks(book, model, times, later)
  {
  }

  lemma CleanedTracks(book: Book, model: string, times: seq<Time>, now: Time, from: Time)
    requires Orderly(book, now) && OneEntryEach(book) && from >= now - STALE_SECONDS
    requires LogTracks(book, model, times, from)
    ensures LogTracks(Cleaned(book, now), model, times, from)
  {
    hide LogIn, CountAfter, Cleaned;
    CleanedLog(book, model, now);
  }

  lemma OtherModelTracks(config: seq<NamedRule>, book: Book, e: Event, model: string, times: seq<Time>, from: Time)
    requires !e.Cleanup? && RuleFor(config, e.model).limits != [] && ModelKey(e.model) != model
    requires LogTracks(book, model, times, from)
    ensures LogTracks(Recorded(config, book, e), model, times, from)
  {
    hide LogIn, Put, CountAfter, RuleFor, MaxPeriod, TrimmedLeft;
    var trimmed := TrimmedLeft(LogIn(book, ModelKey(e.model)), e.at - MaxPeriod(RuleFor(config, e.model).limits));
    PutFacts(book, ModelKey(e.model), if e.Give? then Pushed(trimmed, e.at) else trimmed, e.at);
  }

  /** Over every run, however requests, checks and cleanups follow each other: requests under
      one model key that are all decided by the same limits get a key at most `count` times in
      any window of `period` seconds. */
  lemma ModelWindowsRespected(config: seq<NamedRule>, trace: seq<Event>, key: string, model: string,
      limits: seq<Limit>, k: nat, to: Time)
    requires Configured(config) && Legal(config, trace)
    requires Governed(config, trace, key, model, limits) && k < |limits| && Keepable(limits[k])
    ensures InWindow(TimesOf(trace, key, model), to - limits[k].period, to) <= Max0(limits[k].count)
  {
    hide Spaced;
    if trace != [] {
      OwnTracked(config, trace, key, model, limits, k);
      SpacedWindows(TimesOf(trace, key, model), limits[k], to);
    }
  }

  // Limits the bounded logs can keep.
  predicate AllKeepable(limits: seq<Limit>) {
    limits != [] && forall k :: 0 <= k < |limits| ==> Keepable(limits[k])
  }

  // A model's own rule decides all requests recorded under its name. Requests without a model are
  // recorded under the name "default", and decided by the rule of that name if there is one.
  lemma OwnRuleGoverns(config: seq<NamedRule>, trace: seq<Event>, key: string, model: string, i: nat)
    requires Configured(config) && i < |config| && Governs(config, i, model)
    requires model == "default" ==> config[i].model == "default"
    ensures RuleFor(config, model) == Rule(config[i].limits, false)
    ensures Governed(config, trace, key, model, config[i].limits)
  {
    hide Occurs, ExactRule, FuzzyRule;
    RuleForMeans(config, model);
    if model == "default" {
      RuleForMeans(config, "");
      assert RuleFor(config, "").limits == config[i].limits;
    }
  }

  /** A model's own rule bounds its hand-outs of each key in every window. */
  lemma OwnRuleRespected(config: seq<NamedRule>, trace: seq<Event>, key: string, model: string, i: nat, k: nat,
      to: Time)
    requires Configured(config) && Legal(config, trace)
    requires i < |config| && Governs(config, i, model) && k < |config[i].limits| && Keepable(config[i].limits[k])
    requires model == "default" ==> config[i].model == "default"
    ensures var limit := config[i].limits[k];
      InWindow(TimesOf(trace, key, model), to - limit.period, to) <= Max0(limit.count)
  {
    hide RuleFor, Governs;
    OwnRuleGoverns(config, trace, key, model, i);
    ModelWindowsRespected(config, trace, key, model, config[i].limits, k, to);
  }

  /** What a model's own rule answers is what the whole history of the key under the model says: the
      key is limited exactly when some window of the rule is full. */
  lemma OwnVerdictExact(config: seq<NamedRule>, trace: seq<Event>, key: string, model: string, i: nat, now: Time)
    requires Configured(config) && Legal(config, trace) && (trace != [] ==> LastTime(trace) <= now)
    requires i < |config| && Governs(config, i, model) && AllKeepable(config[i].limits)
    requires model == "default" ==> config[i].model == "default"
    ensures Reached(BookOf(Requests(config, trace), key), RuleFor(config, model), ModelKey(model), now) <==>
      AnyReached(config[i].limits, TimesOf(trace, key, model), now)
  {
    hide RuleFor, Occurs, Requests, Legal, CountAfter, TimesOf, LogTracks, BookOf, LogIn, Configured;
    OwnRuleGoverns(config, trace, key, model, i);
    var limits, book, times := config[i].limits, BookOf(Requests(config, trace), key), TimesOf(trace, key, model);
    forall k | 0 <= k < |limits|
      ensures CountAfter(LogIn(book, model), now - limits[k].period) == CountAfter(times, now - limits[k].period)
    {
      if trace == [] {
        NothingYet(config, key, model, now - limits[k].period);
        NoTimes(key, model);
        CountsAlike(book, model, times, now - limits[k].period, now - limits[k].period);
      } else {
        OwnTracked(config, trace, key, model, limits, k);
        CountsAlike(book, model, times, LastTime(trace) - limits[k].period, now - limits[k].period);
      }
    }
    ReachedAlike(book, Rule(limits, false), model, times, now);
  }

  lemma ReachedAlike(book: Book, rule: Rule, model: string, times: seq<Time>, now: Time)
    requires forall k :: 0 <= k < |rule.limits| ==>
      CountFor(book, rule, model, now - rule.limits[k].period) == CountAfter(times, now - rule.limits[k].period)
    ensures Reached(book, rule, model, now) <==> AnyReached(rule.limits, times, now)
  {
    hide CountFor, CountAfter;
  }

  lemma NoTimes(key: string, model: string)
    ensures TimesOf([], key, model) == [] && TimesOfKey([], key) == []
  {
  }

  lemma CountsAlike(book: Book, model: string, times: seq<Time>, from: Time, cutoff: Time)
    requires LogTracks(book, model, times, from) && from <= cutoff
    ensures CountAfter(LogIn(book, model), cutoff) == CountAfter(times, cutoff)
  {
  }

  // ---------- the total of a key ----------

  // Every request for `key` was decided by the default rule.
  ghost predicate DefaultGoverned(config: seq<NamedRule>, trace: seq<Event>, key: string, limits: seq<Limit>) {
    forall i :: 0 <= i < |trace| && !trace[i].Cleanup? && trace[i].key == key ==>
      RuleFor(config, trace[i].model) == Rule(limits, true)
  }

  ghost predicate TotalTracks(book: Book, times: seq<Time>, from: Time) {
    forall cutoff :: cutoff >= from ==> TotalAfter(book, cutoff) == CountAfter(times, cutoff)
  }

  lemma RecordedTotal(config: seq<NamedRule>, book: Book, e: Event, times: seq<Time>, limits: seq<Limit>, k: nat)
    requires !e.Cleanup? && RuleFor(config, e.model) == Rule(limits, true) && k < |limits| && Keepable(limits[k])
    requires Orderly(book, e.at) && TotalTracks(book, times, e.at - limits[k].period)
    requires !Reached(book, RuleFor(config, e.model), ModelKey(e.model), e.at)
    ensures TotalTracks(Recorded(config, book, e), if e.Give? then times + [e.at] else times, e.at - limits[k].period)
    ensures CountAfter(times, e.at - limits[k].period) < limits[k].count
  {
    hide LogIn, Put, TrimmedLeft, CountAfter, TotalAfter, RuleFor, Pushed, Orderly;
    var model, from := ModelKey(e.model), e.at - limits[k].period;
    var log, trim := LogIn(book, model), e.at - MaxPeriod(limits);
    LogWithinTotal(book, model, from);
    assert TotalAfter(book, from) < limits[k].count;
    LogInOrderly(book, model, e.at);
    TrimFacts(log, trim, e.at);
    var trimmed := TrimmedLeft(log, trim);
    PushFacts(trimmed, from, e.at, e.at);
    PutFacts(book, model, if e.Give? then Pushed(trimmed, e.at) else trimmed, e.at);
    forall cutoff | cutoff >= from
      ensures CountAfter(times + [e.at], cutoff) == CountAfter(times, cutoff) + (if e.at > cutoff then 1 else 0)
    {
      CountAppend(times, e.at, cutoff);
    }
  }

  lemma {:induction false} TotalTracked(config: seq<NamedRule>, trace: seq<Event>, key: string,
      limits: seq<Limit>, k: nat)
    requires Configured(config) && Legal(config, trace) && trace != []
    requires DefaultGoverned(config, trace, key, limits) && k < |limits| && Keepable(limits[k])
    ensures TotalTracks(BookOf(Requests(config, trace), key), TimesOfKey(trace, key),
      LastTime(trace) - limits[k].period)
    ensures Spaced(TimesOfKey(trace, key), limits[k])
    ensures var times := TimesOfKey(trace, key); times != [] ==> times[|times| - 1] <= LastTime(trace)
  {
    hide RuleFor, Reached, Requests, BookOf, TotalTracks, Spaced, Keepable;
    var init, e := trace[..|trace| - 1], trace[|trace| - 1];
    var book, times := BookOf(Requests(config, init), key), TimesOfKey(init, key);
    var from := e.at - limits[k].period;
    if init == [] {
      NothingYet(config, key, "", from);
      NothingSpaced(limits[k]);
    } else {
      TotalTracked(config, init, key, limits, k);
      TotalTracksLater(book, times, LastTime(init) - limits[k].period, from);
    }
    TotalNext(config, trace, key, limits, k);
  }

  lemma NothingSpaced(limit: Limit)
    ensures Spaced([], limit)
  {
  }

  lemma TotalNext(config: seq<NamedRule>, trace: seq<Event>, key: string, limits: seq<Limit>, k: nat)
    requires Configured(config) && Legal(config, trace) && trace != []
    requires DefaultGoverned(config, trace, key, limits) && k < |limits| && Keepable(limits[k])
    requires var init, e := trace[..|trace| - 1], trace[|trace| - 1];
      var times := TimesOfKey(init, key);
      && TotalTracks(BookOf(Requests(config, init), key), times, e.at - limits[k].period)
      && Spaced(times, limits[k]) && (times != [] ==> times[|times| - 1] <= e.at)
    ensures TotalTracks(BookOf(Requests(config, trace), key), TimesOfKey(trace, key),
      LastTime(trace) - limits[k].period)
    ensures Spaced(TimesOfKey(trace, key), limits[k])
    ensures var times := TimesOfKey(trace, key); times != [] ==> times[|times| - 1] <= LastTime(trace)
  {
    hide RuleFor, Reached, Orderly, OneEntryEach, Requests, Cleaned, Recorded, TotalTracks, CountAfter;
    hide Spaced, Keepable;
    var init, e := trace[..|trace| - 1], trace[|trace| - 1];
    var book, times := BookOf(Requests(config, init), key), TimesOfKey(init, key);
    var from := e.at - limits[k].period;
    BookAfter(config, trace, key);
    if e.Cleanup? {
      KeepableWindow(limits[k]);
      CleanedTotal(book, times, e.at, from);
    } else if e.key == key {
      RecordedTotal(config, book, e, times, limits, k);
      if e.Give? { SpacedAppend(times, e.at, limits[k]); }
    }
  }

  lemma KeepableWindow(limit: Limit)
    requires Keepable(limit)
    ensures limit.period <= STALE_SECONDS
  {
  }

  lemma TotalTracksLater(book: Book, times: seq<Time>, from: Time, later: Time)
    requires TotalTracks(book, times, from) && from <= later
    ensures TotalTracks(book, times, later)
  {
  }

  lemma CleanedTotal(book: Book, times: seq<Time>, now: Time, from: Time)
    requires Orderly(book, now) && from >= now - STALE_SECONDS && TotalTracks(book, times, from)
    ensures TotalTracks(Cleaned(book, now), times, from)
  {
    hide TotalAfter, CountAfter, Cleaned;
    CleanedFacts(book, now);
  }

  lemma NothingInWindow(key: string, from: Time, to: Time)
    ensures InWindow(TimesOfKey([], key), from, to) == 0
  {
  }

  /** While all of a key's requests are decided by the default rule, it bounds the key's total
      over all models in every window. */
  lemma DefaultRuleRespected(config: seq<NamedRule>, trace: seq<Event>, key: string, limits: seq<Limit>,
      k: nat, to: Time)
    requires Configured(config) && Legal(config, trace)
    requires DefaultGoverned(config, trace, key, limits) && k < |limits| && Keepable(limits[k])
    ensures InWindow(TimesOfKey(trace, key), to - limits[k].period, to) <= Max0(limits[k].count)
  {
    hide Spaced, TimesOfKey, TotalTracks, InWindow, Requests, Legal, DefaultGoverned;
    if trace == [] {
      NothingInWindow(key, to - limits[k].period, to);
    } else {
      TotalTracked(config, trace, key, limits, k);
      SpacedWindows(TimesOfKey(trace, key), limits[k], to);
    }
  }

  /** What the default rule answers is what the whole history of the key says, while it decides all
      of the key's requests. */
  lemma DefaultVerdictExact(config: seq<NamedRule>, trace: seq<Event>, key: string, model: string, limits: seq<Limit>,
      now: Time)
    requires Configured(config) && Legal(config, trace) && (trace != [] ==> LastTime(trace) <= now)
    requires DefaultGoverned(config, trace, key, limits) && RuleFor(config, model) == Rule(limits, true)
    requires AllKeepable(limits)
    ensures Reached(BookOf(Requests(config, trace), key), RuleFor(config, model), ModelKey(model), now) <==>
      AnyReached(limits, TimesOfKey(trace, key), now)
  {
    hide RuleFor, Requests, Legal, CountAfter, TimesOfKey, TotalTracks, BookOf, TotalAfter, Configured;
    var book, times := BookOf(Requests(config, trace), key), TimesOfKey(trace, key);
    forall k | 0 <= k < |limits|
      ensures TotalAfter(book, now - limits[k].period) == CountAfter(times, now - limits[k].period)
    {
      if trace == [] {
        NothingYet(config, key, "", now - limits[k].period);
        NoTimes(key, "");
        TotalsAlike(book, times, now - limits[k].period, now - limits[k].period);
      } else {
        TotalTracked(config, trace, key, limits, k);
        TotalsAlike(book, times, LastTime(trace) - limits[k].period, now - limits[k].period);
      }
    }
    ReachedAlike(book, Rule(limits, true), ModelKey(model), times, now);
  }

  lemma TotalsAlike(book: Book, times: seq<Time>, from: Time, cutoff: Time)
    requires TotalTracks(book, times, from) && from <= cutoff
    ensures TotalAfter(book, cutoff) == CountAfter(times, cutoff)
  {
  }

  lemma TraceNext(config: seq<NamedRule>, trace: seq<Event>, e: Event)
    requires Configured(config) && Legal(config, trace) && (trace != [] ==> LastTime(trace) <= e.at)
    requires !e.Cleanup? ==> RuleFor(config, e.model).limits != []
    requires !e.Cleanup? ==>
      !Reached(BookOf(Requests(config, trace), e.key), RuleFor(config, e.model), ModelKey(e.model), e.at)
    ensures Legal(config, trace + [e]) && Requests(config, trace + [e]) == Applied(config, Requests(config, trace), e)
  {
    hide RuleFor, Recorded, Reached, Cleaned;
    assert (trace + [e])[..|trace|] == trace;
  }

  // ---------- what checks and cleanups leave alone ----------

  // A cleanup decides nothing: under windows of at most an hour every answer stays the same.
  lemma CleanupInvisible(config: seq<NamedRule>, trace: seq<Event>, now: Time, key: string, rule: Rule, model: string)
    requires Configured(config) && Legal(config, trace + [Cleanup(now)])
    requires forall i :: 0 <= i < |rule.limits| ==> rule.limits[i].period <= STALE_SECONDS
    ensures Legal(config, trace)
    ensures Reached(BookOf(Requests(config, trace + [Cleanup(now)]), key), rule, model, now)
      <==> Reached(BookOf(Requests(config, trace), key), rule, model, now)
  {
    hide RuleFor, Requests, Cleaned, CountAfter, LogIn, TotalAfter, Orderly, OneEntryEach;
    assert (trace + [Cleanup(now)])[..|trace|] == trace;
    BookAfter(config, trace + [Cleanup(now)], key);
    var book := BookOf(Requests(config, trace), key);
    CleanedFacts(book, now);
    CleanedLog(book, model, now);
    forall i | 0 <= i < |rule.limits|
      ensures CountFor(Cleaned(book, now), rule, model, now - rule.limits[i].period) ==
        CountFor(book, rule, model, now - rule.limits[i].period)
    {
    }
  }

  /** A check removes only what is out of the longest window of the rule it looked at: every
      count from there on is what it was, for all keys and models. */
  lemma PeekKeepsWindows(config: seq<NamedRule>, trace: seq<Event>, peek: Event, key: string, model: string,
      cutoff: Time)
    requires Configured(config) && peek.Peek? && Legal(config, trace + [peek])
    requires RuleFor(config, peek.model).limits != []
    requires cutoff >= peek.at - MaxPeriod(RuleFor(config, peek.model).limits)
    ensures var before, after := BookOf(Requests(config, trace), key), BookOf(Requests(config, trace + [peek]), key);
      && CountAfter(LogIn(after, model), cutoff) == CountAfter(LogIn(before, model), cutoff)
      && TotalAfter(after, cutoff) == TotalAfter(before, cutoff)
  {
    hide RuleFor, Requests, Legal, CountAfter, LogIn, TotalAfter, Orderly, OneEntryEach, Put, TrimmedLeft, MaxPeriod;
    assert (trace + [peek])[..|trace|] == trace;
    BookAfter(config, trace + [peek], key);
    var book := BookOf(Requests(config, trace), key);
    var log, trim := LogIn(book, ModelKey(peek.model)), peek.at - MaxPeriod(RuleFor(config, peek.model).limits);
    LogInOrderly(book, ModelKey(peek.model), peek.at);
    TrimFacts(log, trim, peek.at);
    PutFacts(book, ModelKey(peek.model), TrimmedLeft(log, trim), peek.at);
  }

  // ---------- when a check changes the records ----------

  predicate HasEntry(book: Book, model: string) {
    exists i :: 0 <= i < |book| && book[i].model == model
  }

  // Nothing of the log is out of the window that begins after `cutoff`.
  predicate NothingStale(log: seq<Time>, cutoff: Time) {
    log == [] || log[0] > cutoff
  }

  lemma {:induction false} TrimKeepsExact(log: seq<Time>, cutoff: Time)
    ensures TrimmedLeft(log, cutoff) == log <==> NothingStale(log, cutoff)
    ensures |TrimmedLeft(log, cutoff)| <= |log|
  {
    if log != [] && log[0] <= cutoff { TrimKeepsExact(log[1..], cutoff); }
  }

  lemma {:induction false} PutKeepsExact(book: Book, model: string, log: seq<Time>)
    ensures Put(book, model, log) == book <==> HasEntry(book, model) && LogIn(book, model) == log
  {
    if book != [] && book[0].model != model {
      var rest := book[1..];
      PutKeepsExact(rest, model, log);
      assert ([book[0]] + Put(rest, model, log))[1..] == Put(rest, model, log) && [book[0]] + rest == book;
      if HasEntry(book, model) {
        var i :| 0 <= i < |book| && book[i].model == model;
        assert rest[i - 1].model == model;
      }
      if HasEntry(rest, model) {
        var i :| 0 <= i < |rest| && rest[i].model == model;
        assert book[i + 1].model == model;
      }
    } else if book != [] {
      assert [book[0]] + book[1..] == book;
      assert ([Entry(model, log)] + book[1..])[0] == Entry(model, log);
    }
  }

  /** Exactly when a check leaves a key's records as they are: the model has an entry, and nothing
      in its log is out of the longest window of its rule. The logs themselves it leaves, entry or
      not, exactly if nothing is out of the window. */
  lemma CheckKeepsExact(config: seq<NamedRule>, book: Book, peek: Event)
    requires peek.Peek? && RuleFor(config, peek.model).limits != []
    ensures var model, cutoff := ModelKey(peek.model), peek.at - MaxPeriod(RuleFor(config, peek.model).limits);
      && (Recorded(config, book, peek) == book <==> HasEntry(book, model) && NothingStale(LogIn(book, model), cutoff))
      && ((forall m :: LogIn(Recorded(config, book, peek), m) == LogIn(book, m)) <==>
        NothingStale(LogIn(book, model), cutoff))
  {
    hide RuleFor, MaxPeriod, LogIn, Put, TrimmedLeft, HasEntry, NothingStale;
    var model, cutoff := ModelKey(peek.model), peek.at - MaxPeriod(RuleFor(config, peek.model).limits);
    var log := LogIn(book, model);
    var trimmed := TrimmedLeft(log, cutoff);
    TrimKeepsExact(log, cutoff);
    PutKeepsExact(book, model, trimmed);
    PutFacts(book, model, trimmed, peek.at);
    assert LogIn(Recorded(config, book, peek), model) == trimmed;
  }
}
