/**
 The key pool of `core/key_pool.py`: circular selection of upstream keys under the limits kept
 by the request records.
 */
module KeyPool {
  import opened Collections
  import opened RateLimit
  import opened RequestRecords

  datatype Until = At(t: Time) | Forever

  datatype Scheduling = RoundRobin | FixedPriority | StickyIp

  datatype Pick = Picked(key: string) | TooManyRequests | NoItems

  /** What the keys' limits depend on at one moment: the records, as the events that made them,
      and the keys switched off or cooling down. */
  datatype View = View(trace: seq<Event>, disabled: set<string>, cooling: map<string, Until>)

  /** What other tasks do to the pool while a loop over its keys yields. Switching keys and
      checks take no lock; the others wait for it. */
  datatype Action =
    | Switch(disabled: set<string>, at: Time)
    | Check(item: string, model: string, at: Time)
    | Take(item: string, model: string, at: Time)
    | CleanUp(at: Time)
    | Cool(item: string, until: Until, at: Time)

  predicate NeedsNoLock(actions: seq<Action>) {
    forall i :: 0 <= i < |actions| ==> actions[i].Switch? || actions[i].Check?
  }

  // The actions come in the order of the clock, from one moment to another.
  predicate Between(actions: seq<Action>, from: Time, to: Time) {
    && from <= to
    && (forall i :: 0 <= i < |actions| ==> from <= actions[i].at <= to)
    && forall i, j :: 0 <= i < j < |actions| ==> actions[i].at <= actions[j].at
  }

  // What the others do at the `k`-th yield they do between the examinations around it.
  ghost predicate InTurn(clock: nat -> Time, others: nat -> seq<Action>) {
    forall k: nat {:trigger others(k)} :: Between(others(k), clock(k), clock(k + 1))
  }

  ghost predicate LockRespected(others: nat -> seq<Action>) {
    forall k: nat :: NeedsNoLock(others(k))
  }

  ghost predicate Alone(others: nat -> seq<Action>) {
    forall k: nat :: others(k) == []
  }

  lemma AtYield(clock: nat -> Time, others: nat -> seq<Action>, k: nat)
    requires InTurn(clock, others)
    ensures Between(others(k), clock(k), clock(k + 1))
    ensures LockRespected(others) ==> NeedsNoLock(others(k))
    ensures Alone(others) ==> others(k) == []
  {
  }

  lemma ClockLater(clock: nat -> Time, k: nat)
    requires ClockRunsOn(clock)
    ensures clock(k) <= clock(k + 1)
  {
  }

  // The events of `trace` from position `from` on are checks.
  predicate OnlyPeeks(trace: seq<Event>, from: nat) {
    forall i :: from <= i < |trace| ==> trace[i].Peek?
  }

  // Views one after the other, from `first` on: only checks were recorded between them, and no
  // key started or stopped cooling.
  predicate Follow(first: View, views: seq<View>) {
    && (views != [] ==> views[0] == first)
    && forall j :: 0 <= j < |views| ==>
      first.trace <= views[j].trace && OnlyPeeks(views[j].trace, |first.trace|) && views[j].cooling == first.cooling
  }

  lemma FollowNext(first: View, views: seq<View>, next: View)
    requires Follow(first, views) && (views == [] ==> next == first)
    requires first.trace <= next.trace && OnlyPeeks(next.trace, |first.trace|) && next.cooling == first.cooling
    ensures Follow(first, views + [next])
  {
  }

  lemma NothingFollows(first: View)
    ensures Follow(first, []) && OnlyPeeks(first.trace, |first.trace|)
  {
  }

  lemma PeeksJoin(a: seq<Event>, b: seq<Event>, c: seq<Event>)
    requires a <= b <= c && OnlyPeeks(b, |a|) && OnlyPeeks(c, |b|)
    ensures a <= c && OnlyPeeks(c, |a|)
  {
  }

  predicate Resting(disabled: set<string>, cooling: map<string, Until>, item: string, now: Time) {
    item in disabled || (item in cooling && (cooling[item].Forever? || now < cooling[item].t))
  }

  ghost predicate ClockRunsOn(clock: nat -> Time) {
    forall i, j :: i <= j ==> clock(i) <= clock(j)
  }

  // The slot `k` steps after `start` around a ring of `n`.
  function Slot(start: nat, k: nat, n: nat): (r: nat)
    requires start < n && k <= n
    ensures r < n
  {
    if start + k < n then start + k else start + k - n
  }

  lemma SlotFacts(start: nat, k: nat, n: nat)
    requires start < n && k < n
    ensures Slot(start, 0, n) == start && Slot(start, n, n) == start
    ensures Slot(start, k, n) < n && Slot(start, k + 1, n) == (Slot(start, k, n) + 1) % n
    ensures Slot(start, k + 1, n) == start <==> k + 1 == n
  {
    if Slot(start, k, n) + 1 < n {
      assert (Slot(start, k, n) + 1) % n == Slot(start, k, n) + 1;
    } else {
      assert n % n == 0;
    }
  }

  class ThreadSafeCircularList {
    const config: seq<NamedRule>
    const scheduling: Scheduling
    var items: seq<string>
    var index: nat
    var disabled: set<string>
    var coolingUntil: map<string, Until>
    var requests: map<string, Book>
    var cleanupCounter: nat
    ghost var trace: seq<Event>

    ghost predicate Valid()
      reads this
    {
      && Configured(config)
      && (if items == [] then index == 0 else index < |items|)
      && Legal(config, trace) && requests == Requests(config, trace)
    }

    // `now` is no earlier than anything recorded.
    ghost predicate Now(now: Time)
      reads this
    {
      trace != [] ==> LastTime(trace) <= now
    }

    constructor (items: seq<string>, config: seq<NamedRule>, scheduling: Scheduling, disabled: set<string>)
      requires Configured(config)
      ensures Valid() && trace == [] && index == 0
      ensures this.items == items && this.config == config && this.scheduling == scheduling && this.disabled == disabled
    {
      this.items, this.config, this.scheduling, this.disabled := items, config, scheduling, disabled;
      index, coolingUntil, requests, cleanupCounter := 0, map[], map[], 0;
      trace := [];
    }

    predicate Unavailable(item: string, now: Time)
      reads `disabled, `coolingUntil
    {
      Resting(disabled, coolingUntil, item, now)
    }

    ghost function Here(): View
      reads this
    {
      View(trace, disabled, coolingUntil)
    }

    // What `is_rate_limited` answers when this is what it sees.
    ghost predicate LimitedOn(view: View, item: string, model: string, now: Time)
      requires Configured(config)
    {
      || Resting(view.disabled, view.cooling, item, now)
      || Reached(BookOf(Requests(config, view.trace), item), RuleFor(config, model), ModelKey(model), now)
    }

    lemma RestsLimited(view: View, item: string, model: string, now: Time)
      requires Configured(config) && item in view.disabled
      ensures LimitedOn(view, item, model, now)
    {
    }

    // The rule at position `i` is the model's own, with limits that the bounded logs can keep.
    ghost predicate OwnRule(i: nat, model: string)
      requires i < |config|
    {
      && Governs(config, i, model) && AllKeepable(config[i].limits)
      && (model == "default" ==> config[i].model == "default")
    }

    // The limits are tried in their order; the first one reached decides.
    static method AnyLimitReached(book: Book, rule: Rule, model: string, now: Time) returns (reached: bool)
      ensures reached <==> Reached(book, rule, model, now)
    {
      hide CountFor;
      for i := 0 to |rule.limits|
        invariant forall j :: 0 <= j < i ==>
          CountFor(book, rule, model, now - rule.limits[j].period) < rule.limits[j].count
      {
        if CountFor(book, rule, model, now - rule.limits[i].period) >= rule.limits[i].count {
          return true;
        }
      }
      return false;
    }

    /** `is_rate_limited`: an available key is recorded, or only has its log trimmed by a check. */
    method IsRateLimited(item: string, model: string, isCheck: bool, now: Time) returns (limited: bool)
      requires Valid() && Now(now)
      modifies `requests, `trace
      ensures Valid() && Now(now)
      ensures limited == LimitedOn(old(Here()), item, model, now)
      ensures limited ==> requests == old(requests) && trace == old(trace)
      ensures !limited ==> trace == old(trace) + [if isCheck then Peek(item, model, now) else Give(item, model, now)]
      ensures RuleFor(config, model).limits != []
      ensures !limited ==>
        requests == Applied(config, old(requests), if isCheck then Peek(item, model, now) else Give(item, model, now))
      ensures forall i: nat :: i < |config| && OwnRule(i, model) ==>
        (limited <==> Unavailable(item, now) || AnyReached(config[i].limits, TimesOf(old(trace), item, model), now))
    {
      hide RuleFor, Reached, TrimmedLeft, MaxPeriod, Put, LogIn, Pushed, Resting, Requests, Legal, Configured;
      hide BookOf, ModelKey;
      limited := false;
      RuleHasLimits(config, model);
      forall i: nat | i < |config| && OwnRule(i, model)
        ensures Reached(BookOf(Requests(config, trace), item), RuleFor(config, model), ModelKey(model), now) <==>
          AnyReached(config[i].limits, TimesOf(trace, item, model), now)
      {
        OwnVerdictExact(config, trace, item, model, i, now);
      }
      if Unavailable(item, now) {
        return true;
      }
      var rule, key := RuleFor(config, model), ModelKey(model);
      var book := BookOf(requests, item);
      var reached := AnyLimitReached(book, rule, key, now);
      if reached {
        return true;
      }
      var log := TrimmedLeft(LogIn(book, key), now - MaxPeriod(rule.limits));
      if !isCheck {
        log := Pushed(log, now);
      }
      requests := requests[item := Put(book, key, log)];
      ghost var e := if isCheck then Peek(item, model, now) else Give(item, model, now);
      TraceNext(config, trace, e);
      trace := trace + [e];
    }

    // `_cleanup_stale_request_keys`
    method CleanupStaleRequestKeys(now: Time)
      requires Valid() && Now(now)
      modifies `requests, `trace
      ensures Valid() && Now(now)
      ensures trace == old(trace) + [Cleanup(now)]
      ensures requests == Applied(config, old(requests), Cleanup(now))
      ensures forall key, e :: key in requests && e in requests[key] ==> Recent(e, now)
      ensures forall key, e :: key in old(requests) && e in old(requests)[key] && Recent(e, now) ==>
        key in requests && e in requests[key]
      ensures forall key :: key in requests ==> requests[key] != [] && key in old(requests)
      ensures forall key, e :: key in requests && e in requests[key] ==> e in old(requests)[key]
    {
      hide Cleaned;
      forall key | key in requests
        ensures forall e :: e in Cleaned(requests[key], now) <==> e in requests[key] && Recent(e, now)
      {
        CleanedMembers(requests[key], now);
      }
      requests := map key | key in requests && Cleaned(requests[key], now) != [] :: Cleaned(requests[key], now);
      TraceNext(config, trace, Cleanup(now));
      trace := trace + [Cleanup(now)];
    }

    // One action of another task.
    method Act(action: Action)
      requires Valid() && Now(action.at)
      modifies `disabled, `coolingUntil, `requests, `trace
      ensures Valid() && Now(action.at) && old(trace) <= trace
      ensures disabled == if action.Switch? then action.disabled else old(disabled)
      ensures coolingUntil == if action.Cool? then old(coolingUntil)[action.item := action.until] else old(coolingUntil)
      ensures trace == old(trace) + match action
        case Check(item, model, at) => if LimitedOn(old(Here()), item, model, at) then [] else [Peek(item, model, at)]
        case Take(item, model, at) => if LimitedOn(old(Here()), item, model, at) then [] else [Give(item, model, at)]
        case CleanUp(at) => [Cleanup(at)]
        case _ => []
      ensures action.Switch? || action.Check? ==> coolingUntil == old(coolingUntil) && OnlyPeeks(trace, |old(trace)|)
    {
      hide Requests, Legal, Configured;
      match action {
        case Switch(keys, _) => disabled := keys;
        case Check(item, model, at) => var limited := IsRateLimited(item, model, true, at);
        case Take(item, model, at) => var limited := IsRateLimited(item, model, false, at);
        case CleanUp(at) => CleanupStaleRequestKeys(at);
        case Cool(item, until, _) => coolingUntil := coolingUntil[item := until];
      }
    }

    // The yield of a loop over the keys: other tasks act.
    method Meanwhile(actions: seq<Action>, from: Time, to: Time)
      requires Valid() && Now(from) && Between(actions, from, to)
      modifies `disabled, `coolingUntil, `requests, `trace
      ensures Valid() && Now(to) && old(trace) <= trace
      ensures NeedsNoLock(actions) ==> coolingUntil == old(coolingUntil) && OnlyPeeks(trace, |old(trace)|)
      ensures actions == [] ==> Here() == old(Here()) && requests == old(requests)
    {
      hide Requests, Legal, Configured;
      for k := 0 to |actions|
        invariant Valid() && Now(if k == 0 then from else actions[k - 1].at) && old(trace) <= trace
        invariant NeedsNoLock(actions) ==> coolingUntil == old(coolingUntil) && OnlyPeeks(trace, |old(trace)|)
        invariant k == 0 ==> Here() == old(Here()) && requests == old(requests)
      {
        Act(actions[k]);
      }
    }

    // Where `next` begins: the first slot, a live session's slot, or where the last call stopped.
    function StartSlot(pinned: Option<nat>, current: nat): nat
      reads this
    {
      if scheduling.FixedPriority? then 0
      else if scheduling.StickyIp? && pinned.Some? && pinned.value < |items| then pinned.value
      else current
    }

    /** `next`: from the start slot once around. The key handed out is the first in circular
        order that is not limited when it is examined; no slot is examined twice; of its own the
        call records only the key handed out. `checks` counts the slots examined and `views` is
        what each examination saw: other tasks, which may act as `others(k)` says between the
        `k`-th examination and the next, can only switch keys and make checks. `clock(0)` is the
        time of the cleanup, `clock(k)` that of the `k`-th examination, `pinned` the slot of a
        live sticky session. */
    method Next(model: string, clock: nat -> Time, others: nat -> seq<Action>, pinned: Option<nat>)
      returns (pick: Pick, checks: nat, ghost start: nat, ghost views: seq<View>)
      requires Valid() && ClockRunsOn(clock) && Now(clock(0))
      requires InTurn(clock, others) && LockRespected(others)
      modifies `index, `cleanupCounter, `disabled, `coolingUntil, `requests, `trace
      ensures Valid() && Now(clock(checks)) && cleanupCounter == old(cleanupCounter) + 1
      ensures pick.NoItems? <==> items == []
      ensures items != [] && scheduling.FixedPriority? ==> start == 0
      ensures items != [] && scheduling.StickyIp? && pinned.Some? && pinned.value < |items| ==> start == pinned.value
      ensures var held := scheduling.StickyIp? && pinned.Some? && pinned.value < |items|;
        items != [] && !scheduling.FixedPriority? && !held ==> start == old(index)
      ensures items != [] ==> start < |items|
      ensures items != [] ==> Examined(start, model, clock, pick, checks, views)
      ensures items != [] ==> views[0] == old(View(
        if (cleanupCounter + 1) % 100 == 0 then trace + [Cleanup(clock(0))] else trace, disabled, coolingUntil))
      ensures items != [] ==> Follow(views[0], views) && coolingUntil == old(coolingUntil)
      ensures items != [] ==>
        trace == views[checks - 1].trace + if pick.Picked? then [Give(pick.key, model, clock(checks))] else []
      ensures items != [] && Alone(others) ==> forall j :: 0 <= j < |views| ==> views[j] == views[0]
    {
      hide Reached, RuleFor, Requests, Legal, Slot, LimitedOn, Between, NeedsNoLock, Follow, Configured;
      hide InTurn, LockRespected, Alone, ClockRunsOn, Examined;
      start, views := 0, [];
      cleanupCounter := cleanupCounter + 1;
      if cleanupCounter % 100 == 0 {
        CleanupStaleRequestKeys(clock(0));
      }
      if items == [] {
        return NoItems, 0, start, views;
      }
      index := StartSlot(pinned, index);
      start := index;
      pick, checks, views := Circle(model, clock, others);
    }

    // The first `n` examinations, one slot after the other from `start` on, each found its key
    // limited on what it saw.
    ghost predicate LimitedUpTo(start: nat, model: string, clock: nat -> Time, views: seq<View>, n: nat)
      reads `items
      requires Configured(config) && start < |items|
    {
      n <= |items| && n <= |views| &&
      forall j: nat :: j < n ==> LimitedOn(views[j], items[Slot(start, j, |items|)], model, clock(j + 1))
    }

    lemma NoneExamined(start: nat, model: string, clock: nat -> Time)
      requires Configured(config) && start < |items|
      ensures LimitedUpTo(start, model, clock, [], 0)
    {
    }

    lemma LimitedNext(start: nat, model: string, clock: nat -> Time, views: seq<View>, next: View)
      requires Configured(config) && start < |items| && |views| < |items|
      requires LimitedUpTo(start, model, clock, views, |views|)
      ensures LimitedUpTo(start, model, clock, views + [next], |views|)
      ensures LimitedOn(next, items[Slot(start, |views|, |items|)], model, clock(|views| + 1)) ==>
        LimitedUpTo(start, model, clock, views + [next], |views| + 1)
    {
      hide LimitedOn, Slot;
    }

    // What the examinations found: one slot after the other from `start` on, each key limited on
    // what was seen, up to the key picked or once around.
    ghost predicate Examined(start: nat, model: string, clock: nat -> Time, pick: Pick, checks: nat, views: seq<View>)
      reads `items, `index
      requires Configured(config) && start < |items|
    {
      && 1 <= checks <= |items| && |views| == checks && !pick.NoItems?
      && LimitedUpTo(start, model, clock, views, if pick.Picked? then checks - 1 else |items|)
      && (pick.Picked? ==>
        && pick.key == items[Slot(start, checks - 1, |items|)]
        && !LimitedOn(views[checks - 1], pick.key, model, clock(checks)) && index == Slot(start, checks, |items|))
      && (pick.TooManyRequests? ==> checks == |items| && index == start)
    }

    // One examination: the index moves on, and the key is recorded if it is free.
    method Examine(model: string, now: Time) returns (item: string, limited: bool)
      requires Valid() && Now(now) && items != []
      modifies `index, `requests, `trace
      ensures Valid() && Now(now) && item == items[old(index)] && index == (old(index) + 1) % |items|
      ensures limited == LimitedOn(old(Here()), item, model, now)
      ensures limited ==> trace == old(trace)
      ensures !limited ==> trace == old(trace) + [Give(item, model, now)]
    {
      hide LimitedOn, Requests, Legal, Configured;
      item := items[index];
      index := (index + 1) % |items|;
      limited := IsRateLimited(item, model, false, now);
    }

    // The loop of `next`, once around from the current index.
    method Circle(model: string, clock: nat -> Time, others: nat -> seq<Action>)
      returns (pick: Pick, checks: nat, ghost views: seq<View>)
      requires Valid() && ClockRunsOn(clock) && Now(clock(0)) && items != []
      requires InTurn(clock, others) && LockRespected(others)
      modifies `index, `disabled, `coolingUntil, `requests, `trace
      ensures Valid() && Now(clock(checks))
      ensures Examined(old(index), model, clock, pick, checks, views) && views[0] == old(Here())
      ensures !pick.NoItems? && Follow(old(Here()), views) && coolingUntil == old(coolingUntil)
      ensures trace == views[checks - 1].trace + if pick.Picked? then [Give(pick.key, model, clock(checks))] else []
      ensures Alone(others) ==> forall j :: 0 <= j < |views| ==> views[j] == views[0]
    {
      hide LimitedOn, Requests, Legal, Slot, Configured, Between, NeedsNoLock, Follow, OnlyPeeks, Resting;
      hide InTurn, LockRespected, Alone, ClockRunsOn, LimitedUpTo;
      assert Follow(old(Here()), []) && OnlyPeeks(trace, |trace|) by { NothingFollows(old(Here())); }
      checks, views := 0, [];
      var startIndex := index;
      SlotFacts(startIndex, 0, |items|);
      ClockLater(clock, 0);
      assert LimitedUpTo(startIndex, model, clock, views, 0) by { NoneExamined(startIndex, model, clock); }
      while true
        invariant Valid() && Now(clock(checks + 1)) && coolingUntil == old(coolingUntil)
        invariant checks < |items| && index == Slot(startIndex, checks, |items|) && |views| == checks
        invariant LimitedUpTo(startIndex, model, clock, views, checks)
        invariant old(trace) <= trace && OnlyPeeks(trace, |old(trace)|) && (checks == 0 ==> Here() == old(Here()))
        invariant Follow(old(Here()), views)
        invariant Alone(others) ==> Here() == old(Here()) && forall j :: 0 <= j < checks ==> views[j] == old(Here())
        decreases |items| - checks
      {
        SlotFacts(startIndex, checks, |items|);
        checks := checks + 1;
        FollowNext(old(Here()), views, Here());
        LimitedNext(startIndex, model, clock, views, Here());
        views := views + [Here()];
        var item, limited := Examine(model, clock(checks));
        if !limited {
          return Picked(item), checks, views;
        }
        if index == startIndex {
          return TooManyRequests, checks, views;
        }
        ghost var seen := trace;
        AtYield(clock, others, checks);
        Meanwhile(others(checks), clock(checks), clock(checks + 1));
        PeeksJoin(old(trace), seen, trace);
      }
    }

    /** With time standing still, nobody else acting and windows of at most an hour, `next` fails
        with 429 exactly when `is_all_rate_limited` would have said so. */
    method NextAtOnce(model: string, now: Time, pinned: Option<nat>) returns (pick: Pick)
      requires Valid() && Now(now) && items != []
      requires forall i :: 0 <= i < |RuleFor(config, model).limits| ==>
        RuleFor(config, model).limits[i].period <= STALE_SECONDS
      modifies `index, `cleanupCounter, `disabled, `coolingUntil, `requests, `trace
      ensures Valid()
      ensures pick.TooManyRequests? <==> old(AllLimited(Here(), model, now))
      ensures pick.Picked? ==> pick.key in items && !old(LimitedOn(Here(), pick.key, model, now))
    {
      hide Reached, RuleFor, Requests, Legal;
      var checks;
      ghost var start, views;
      ghost var was := Here();
      ghost var cleaned := View(was.trace + [Cleanup(now)], was.disabled, was.cooling);
      pick, checks, start, views := Next(model, _ => now, _ => [], pinned);
      forall item
        ensures LimitedOn(views[0], item, model, now) <==> LimitedOn(was, item, model, now)
      {
        if views[0] == cleaned {
          LegalPrefix(config, cleaned.trace, trace);
          CleanupInvisible(config, was.trace, now, item, RuleFor(config, model), ModelKey(model));
        }
      }
      if pick.TooManyRequests? {
        forall i | 0 <= i < |items|
          ensures LimitedOn(was, items[i], model, now)
        {
          var j := if i >= start then i - start else i + |items| - start;
          assert Slot(start, j, |items|) == i;
          assert LimitedOn(views[j], items[Slot(start, j, |items|)], model, now);
        }
      }
    }

    // Every key is limited at one moment.
    ghost predicate AllLimited(view: View, model: string, now: Time)
      requires Configured(config)
      reads `items
    {
      forall i :: 0 <= i < |items| ==> LimitedOn(view, items[i], model, now)
    }

    // A check of this key would leave the records as they are.
    ghost predicate CheckLeaves(records: map<string, Book>, item: string, model: string, now: Time)
      requires Configured(config)
    {
      RuleHasLimits(config, model);
      && item in records && HasEntry(records[item], ModelKey(model))
      && NothingStale(LogIn(records[item], ModelKey(model)), now - MaxPeriod(RuleFor(config, model).limits))
    }

    // What a check that finds the key free does to the records.
    lemma CheckLeavesExact(records: map<string, Book>, item: string, model: string, now: Time)
      requires Configured(config)
      ensures (RuleHasLimits(config, model);
        Applied(config, records, Peek(item, model, now)) == records <==> CheckLeaves(records, item, model, now))
    {
      hide RuleFor, Recorded, HasEntry, NothingStale;
      RuleHasLimits(config, model);
      var peek := Peek(item, model, now);
      CheckKeepsExact(config, BookOf(records, item), peek);
      var after := Applied(config, records, peek);
      assert item in after && after[item] == Recorded(config, BookOf(records, item), peek);
      if item in records && after[item] == records[item] {
        assert after == records;
      }
    }

    /** `is_all_rate_limited`: no index moves. It is true exactly when every key, in the order of
        the list, is limited on what its own examination sees; between two examinations, where
        no lock is held, other tasks may do anything. Its own trace is at most one check, of
        the first key that is not limited. */
    method IsAllRateLimited(model: string, clock: nat -> Time, others: nat -> seq<Action>)
      returns (all: bool, ghost views: seq<View>)
      requires Valid() && ClockRunsOn(clock) && Now(clock(0))
      requires InTurn(clock, others)
      modifies `disabled, `coolingUntil, `requests, `trace
      ensures Valid()
      ensures items == [] ==> !all && views == []
      ensures items != [] ==> 0 < |views| <= |items| && views[0] == old(Here()) && (all ==> |views| == |items|)
      ensures forall j :: 0 <= j < (if all then |views| else |views| - 1) ==>
        LimitedOn(views[j], items[j], model, clock(j))
      ensures !all && items != [] ==>
        var last := |views| - 1;
        && !LimitedOn(views[last], items[last], model, clock(last))
        && trace == views[last].trace + [Peek(items[last], model, clock(last))]
      ensures Alone(others) ==> forall j :: 0 <= j < |views| ==> views[j] == old(Here())
      ensures all && Alone(others) ==> trace == old(trace)
      ensures Alone(others) ==>
        (requests == old(requests) <==>
          all || items == [] || CheckLeaves(old(requests), items[|views| - 1], model, clock(|views| - 1)))
    {
      hide LimitedOn, Requests, Legal, Between, Configured, InTurn, Alone, ClockRunsOn;
      views := [];
      if items == [] {
        return false, views;
      }
      var snapshot := items;
      for i := 0 to |snapshot|
        invariant Valid() && Now(clock(i)) && |views| == i && (i == 0 ==> Here() == old(Here()))
        invariant i > 0 ==> views[0] == old(Here())
        invariant forall j :: 0 <= j < i ==> LimitedOn(views[j], snapshot[j], model, clock(j))
        invariant Alone(others) ==> Here() == old(Here()) && forall j :: 0 <= j < i ==> views[j] == old(Here())
        invariant Alone(others) ==> requests == old(requests)
      {
        views := views + [Here()];
        ClockLater(clock, i);
        if snapshot[i] in disabled {
          RestsLimited(Here(), snapshot[i], model, clock(i));
          continue;
        }
        var limited := IsRateLimited(snapshot[i], model, true, clock(i));
        if !limited {
          CheckLeavesExact(old(requests), snapshot[i], model, clock(i));
          return false, views;
        }
        AtYield(clock, others, i);
        Meanwhile(others(i), clock(i), clock(i + 1));
      }
      return true, views;
    }

    /** `set_auto_disabled`: until `duration` seconds from now, or for good, no examination can
        find the key free, and the other keys are as available as before. */
    method SetAutoDisabled(item: string, duration: Time, now: Time)
      requires Valid()
      modifies `coolingUntil
      ensures Valid()
      ensures forall t: Time :: Unavailable(item, t) <==> item in disabled || duration <= 0.0 || t < now + duration
      ensures forall other, t: Time :: other != item ==> Unavailable(other, t) == old(Unavailable(other, t))
      ensures forall model, t: Time :: (duration <= 0.0 || t < now + duration) ==> LimitedOn(Here(), item, model, t)
    {
      coolingUntil := coolingUntil[item := if duration > 0.0 then At(now + duration) else Forever];
    }

    // `reset_items`
    method ResetItems(newItems: seq<string>)
      requires Valid()
      modifies `items, `index
      ensures Valid() && items == newItems
      ensures index == if old(items) == newItems then old(index) else 0
    {
      if items != newItems {
        items := newItems;
        index := 0;
      }
    }
  }

  lemma {:induction false} LegalPrefix(config: seq<NamedRule>, prefix: seq<Event>, trace: seq<Event>)
    requires Configured(config) && Legal(config, trace) && prefix <= trace
    ensures Legal(config, prefix)
    decreases |trace|
  {
    if prefix != trace {
      assert prefix <= trace[..|trace| - 1];
      LegalPrefix(config, prefix, trace[..|trace| - 1]);
    }
  }
}
