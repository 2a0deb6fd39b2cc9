/**
 The retry and failover loop of `request_model` in `core/handler.py`, proved to write sound logs
 in any surroundings (see RetryLog.dfy).
 */
module RetryLoop {
  import opened Collections
  import opened Providers
  import opened Routing
  import opened AttemptProviders
  import opened RetryLog
  import opened RetrySteps

  class RetryRun {
    const env: Environment
    const handler: ModelRequestHandler
    const model: string
    const algorithm: Algorithm
    var tick: nat
    var providers: seq<Provider>
    var index: nat
    var attempts: nat
    var maxAttempts: nat
    var budgets: map<string, nat>
    var counts: map<string, nat>
    var isVirtual: bool
    var leftVirtual: bool
    ghost var log: seq<Event>

    constructor (env: Environment, handler: ModelRequestHandler, model: string, algorithm: Algorithm)
      ensures this.env == env && this.handler == handler && this.model == model
      ensures this.algorithm == algorithm
      ensures log == [] && tick == 0 && attempts == 0 && index == 0 && providers == []
      ensures budgets == map[] && counts == map[] && !isVirtual && !leftVirtual
    {
      this.env, this.handler, this.model := env, handler, model;
      this.algorithm := algorithm;
      tick, providers, index, attempts, maxAttempts := 0, [], 0, 0, 0;
      budgets, counts, isVirtual, leftVirtual := map[], map[], false, false;
      log := [];
    }

    ghost predicate Valid()
      reads this
    {
      Agrees(env, log, attempts, providers, counts, budgets, tick, isVirtual, leftVirtual)
    }

    // Nothing before the cursor has been passed over.
    ghost predicate NothingSkipped()
      reads `index, `providers, `log
    {
      CoveredBelow(log, providers, index)
    }

    function Here(): Cursor
      reads this
    {
      Cursor(providers, index, attempts, maxAttempts, isVirtual, leftVirtual)
    }

    function Count(name: string): nat
      reads `counts
    {
      CountIn(counts, name)
    }

    // The first sight of a provider's keys.
    method Freeze(name: string) returns (slots: nat)
      requires Valid() && name !in budgets
      modifies `tick, `budgets, `log
      ensures Valid() && SameGround(old(log), log) && tick == old(tick) + 1
      ensures budgets == old(budgets)[name := slots] && slots == Max(1, env.enabledKeys(name, old(tick)))
    {
      hide Sound, Visits, Exits, Failures, Calls, Budget, Current, Covered, StandingOf, Settled, VisitedLast;
      hide NoneVirtual, Ordered;
      slots := Max(1, env.enabledKeys(name, tick));
      assert slots == Max(1, env.enabledKeys(name, tick));
      Record(Froze(name, slots, tick));
      budgets := budgets[name := slots];
      tick := tick + 1;
    }

    // `_provider_key_slots`: the budget of a provider, frozen at first sight.
    method KeySlots(p: Provider) returns (slots: nat)
      requires Valid()
      modifies `tick, `budgets, `log
      ensures Valid() && SameGround(old(log), log) && tick >= old(tick)
      ensures slots >= 1 && (p.byok ==> slots == 1)
      ensures p.byok || p.name in old(budgets) ==> log == old(log) && budgets == old(budgets)
      ensures !p.byok ==> p.name in budgets && slots == budgets[p.name]
      ensures Keeps(old(budgets), budgets) && slots == SlotsOf(p, budgets)
      ensures LookAt(env, p, old(budgets), old(tick)) == Look(slots, budgets, tick)
    {
      hide Sound, Visits, Exits, Failures, Calls, Budget, Current, Covered, StandingOf, Settled, VisitedLast;
      hide NoneVirtual, Ordered;
      if p.byok { return 1; }
      if p.name in budgets { return budgets[p.name]; }
      slots := Freeze(p.name);
    }

    // `_calc_retry_count`
    method CalcRetryCount() returns (retries: nat)
      requires Valid()
      modifies `tick, `budgets, `log
      ensures Valid() && SameGround(old(log), log) && tick >= old(tick)
      ensures retries == RetryCount(providers, budgets) && Budgeted(providers, budgets)
      ensures Keeps(old(budgets), budgets) && (old(NothingSkipped()) ==> NothingSkipped())
      ensures Seen(old(budgets), budgets, providers, old(tick), tick)
    {
      hide Sound, Visits, Exits, Failures, Calls, Budget, Current, Covered, StandingOf, Settled, VisitedLast;
      hide NoneVirtual, Ordered, Agrees, SameGround, Keeps, Budgeted, TotalSlots, Seen, CoveredBelow;
      if providers == [] {
        SameGroundStart(log);
        NoneBudgeted(budgets);
        NobodySeen(budgets, providers, tick);
        return 0;
      }
      if |providers| == 1 {
        var slots := OnlySlots();
        return if slots > 1 then slots else 1;
      }
      var total := SumSlots();
      return total * 2;
    }

    // The slots of the only candidate.
    method OnlySlots() returns (slots: nat)
      requires Valid() && |providers| == 1
      modifies `tick, `budgets, `log
      ensures Valid() && SameGround(old(log), log) && tick >= old(tick)
      ensures slots == TotalSlots(providers, budgets) && Budgeted(providers, budgets) && Keeps(old(budgets), budgets)
      ensures Seen(old(budgets), budgets, providers, old(tick), tick) && (old(NothingSkipped()) ==> NothingSkipped())
    {
      hide Sound, Visits, Exits, Failures, Calls, Budget, Current, Covered, StandingOf, Settled, VisitedLast;
      hide NoneVirtual, Ordered, Agrees, SameGround, Keeps, TotalSlots, Seen, LookAt, CoveredBelow, SlotsOf;
      NobodySeen(budgets, providers, tick);
      slots := KeySlots(providers[0]);
      SeenNext(env, old(budgets), old(budgets), providers, 0, old(tick), old(tick));
      OneAsked(providers, budgets);
      SameGroundMeans(old(log), log, providers, index, 0, 0);
    }

    // The slots of all candidates together.
    method SumSlots() returns (total: nat)
      requires Valid()
      modifies `tick, `budgets, `log
      ensures Valid() && SameGround(old(log), log) && tick >= old(tick)
      ensures total == TotalSlots(providers, budgets) && Budgeted(providers, budgets) && Keeps(old(budgets), budgets)
      ensures Seen(old(budgets), budgets, providers, old(tick), tick) && (old(NothingSkipped()) ==> NothingSkipped())
    {
      hide Sound, Visits, Exits, Failures, Calls, Budget, Current, Covered, StandingOf, Settled, VisitedLast;
      hide NoneVirtual, Ordered, Agrees, SameGround, Keeps, Budgeted, TotalSlots, Seen, LookAt;
      total := 0;
      SameGroundStart(log);
      NoneBudgeted(budgets);
      NobodySeen(budgets, providers, tick);
      for i := 0 to |providers|
        invariant Valid() && SameGround(old(log), log) && tick >= old(tick) && Keeps(old(budgets), budgets)
        invariant Budgeted(providers[..i], budgets) && total == TotalSlots(providers[..i], budgets)
        invariant Seen(old(budgets), budgets, providers[..i], old(tick), tick)
      {
        ghost var before, known := log, budgets;
        ghost var asked := tick;
        var slots := KeySlots(providers[i]);
        SameGroundJoin(old(log), before, log);
        KeepsJoin(old(budgets), known, budgets);
        SlotsNext(providers, i, known, budgets);
        SeenNext(env, old(budgets), known, providers, i, old(tick), asked);
        total := total + slots;
      }
      assert providers[..|providers|] == providers;
      SameGroundMeans(old(log), log, providers, index, 0, 0);
    }

    // The order of the candidates found, and the attempt list made of them.
    method Arrange(ps: seq<Provider>, at: nat, advance: bool) returns (list: seq<Provider>)
      requires handler.Valid()
      modifies handler.cursors
      ensures handler.Valid() && FetchedList(ps, algorithm, list)
      ensures BuiltOf(old(handler.cursors.Contents()), handler.cursors.Contents(), model, ps, algorithm, advance, list)
      ensures !advance ==> Unmoved(old(handler.cursors.Contents()), handler.cursors.Contents())
    {
      hide FirstByName, ChainState, StartOf, CursorsAfter, HasName, Unmoved, Sampled, EarliestKept, Rotated;
      var sample := Sampled(env, at, ps, algorithm);
      SameMembers(sample, ps);
      var ordered := OrderCandidates(sample, algorithm, (group: nat) => env.draws(at, group));
      list := handler.BuildAttemptProviders(ordered, model, algorithm, advance);
      if !NoneVirtual(list) { HasVirtual(list, ordered); }
      if !algorithm.Lottery? { MembersNames(ordered, ps); }
      assert OrderOf(ps, ordered, algorithm);
      assert BuiltFrom(old(handler.cursors.Contents()), handler.cursors.Contents(), model, ordered, algorithm,
        advance, list);
      if Plain(ps, algorithm) {
        SampledFixed(env, at, ps, algorithm);
        FixedInOrder(old(handler.cursors.Contents()), model, ps, advance);
      }
    }

    // `get_right_order_providers` followed by `_build_attempt_providers`.
    method Fetch(skipVirtual: bool, advance: bool) returns (r: Fetched)
      requires handler.Valid()
      modifies `tick, handler.cursors
      ensures handler.Valid() && tick == old(tick) + 1
      ensures r.Listed? && skipVirtual ==> NoneVirtual(r.list)
      ensures r.Listed? ==> Ordered(env, r.list)
      ensures r.Listed? ==> DistinctNames(r.list)
      ensures FetchedFrom(env.world(old(tick)), skipVirtual, algorithm, r)
      ensures r.Listed? ==> BuiltOf(old(handler.cursors.Contents()), handler.cursors.Contents(), model,
        Available(env.world(old(tick)), skipVirtual).providers, algorithm, advance, r.list)
      ensures !advance ==> Unmoved(old(handler.cursors.Contents()), handler.cursors.Contents())
    {
      UnmovedSelf(handler.cursors.Contents());
      hide Available, HasName, Unmoved, BuiltOf;
      var found := Available(env.world(tick), skipVirtual);
      SkipsVirtual(env.world(tick));
      var at := tick;
      tick := tick + 1;
      match found {
        case NotFound => return Unavailable;
        case TooLong => return Raises;
        case Found(ps) =>
          var list := Arrange(ps, at, advance);
          return Listed(list);
      }
    }

    // Puts a list in force; the cursor goes to its head.
    method Install(list: seq<Provider>)
      requires Valid() && (Exits(log) > 0 ==> NoneVirtual(list)) && Ordered(env, list)
      modifies `providers, `index, `log
      ensures Valid() && NothingSkipped() && providers == list && index == 0
      ensures Exits(log) == old(Exits(log)) && !Unmarked(old(log), log)
      ensures log == old(log) + [Installed(list, tick)]
    {
      hide Sound, Visits, Exits, Failures, Calls, Budget, Current, Covered, StandingOf, Settled, VisitedLast;
      hide NoneVirtual, Ordered;
      providers, index := list, 0;
      Extend(env, log, Installed(list, tick));
      Readings(log, Installed(list, tick));
      log := log + [Installed(list, tick)];
    }

    // The one-way exit: a list without virtual candidates takes over.
    method InstallOutside(list: seq<Provider>)
      requires Valid() && Exits(log) == 0 && NoneVirtual(list)
      modifies `providers, `index, `log, `isVirtual, `leftVirtual
      ensures Valid() && NothingSkipped() && providers == list && index == 0 && leftVirtual && !isVirtual
      ensures !Unmarked(old(log), log)
      ensures log == old(log) + [LeftVirtual(tick)] + [Installed(list, tick)]
    {
      hide Sound, Visits, Exits, Failures, Calls, Budget, Current, Covered, StandingOf, Settled, VisitedLast;
      hide NoneVirtual, Ordered;
      isVirtual, leftVirtual := false, true;
      LeaveAndInstall(env, log, list, tick);
      log := log + [LeftVirtual(tick)] + [Installed(list, tick)];
      providers, index := list, 0;
    }

    // A fetched list comes into force, through `_accept_regular_route`: leaving the virtual
    // route sets the attempt limit anew, once.
    method AcceptRegularRoute(list: seq<Provider>)
      requires Valid() && (Exits(log) > 0 ==> NoneVirtual(list)) && Ordered(env, list)
      modifies `providers, `index, `log, `isVirtual, `leftVirtual, `maxAttempts, `tick, `budgets
      ensures Valid() && NothingSkipped() && providers == list && index == 0 && tick >= old(tick)
      ensures !Unmarked(old(log), log) && old(log) <= log && Rebuilt(old(log), log, list)
      ensures old(isVirtual) && NoneVirtual(list) ==>
        && Here() == old(Here()).(providers := list, index := 0, maxAttempts := maxAttempts,
          isVirtual := false, leftVirtual := true)
        && maxAttempts == AttemptLimit(attempts, list, budgets)
      ensures !(old(isVirtual) && NoneVirtual(list)) ==>
        Here() == old(Here()).(providers := list, index := 0) && tick == old(tick)
    {
      hide Sound, Visits, Exits, Failures, Calls, Budget, Current, Covered, StandingOf, Settled, VisitedLast;
      hide NoneVirtual, Ordered, Agrees, SameGround, Unmarked, NothingSkipped, RetryCount, Rebuilt;
      AgreesOnSound(env, log, attempts, providers, counts, budgets, tick, isVirtual, leftVirtual);
      if isVirtual && NoneVirtual(list) {
        InstallOutside(list);
        ghost var installed := log;
        var retries := CalcRetryCount();
        SameGroundUnmarked(installed, log);
        UnmarkedJoin(old(log), installed, log);
        SameGroundFroze(installed, log);
        InstalledOutside(old(log), list, old(tick), log);
        var limit := attempts + |providers| + retries;
        maxAttempts := if limit < MAX_ATTEMPTS then limit else MAX_ATTEMPTS;
      } else {
        Install(list);
        InstalledNext(old(log), list, tick);
      }
    }

    // There is no virtual route left to leave.
    predicate NoWayOut()
      reads this
    {
      !isVirtual || leftVirtual || env.override || attempts >= MAX_ATTEMPTS
    }

    // The loop may end without an answer: nothing is left to try, or no attempt is left, or all
    // keys of the only candidate have been found limited since the last event, or the last group
    // has just been certified exhausted;
    // and there is no virtual route left to leave.
    ghost predicate GivesUp()
      reads this
    {
      NoWayOut() &&
      (|| providers == [] || attempts >= maxAttempts || attempts >= MAX_ATTEMPTS
       || (|providers| == 1 && KeysLimited(providers[0].name))
       || LastGroupCertified())
    }

    // Asked since the last event, the pool had all its keys limited.
    ghost predicate KeysLimited(name: string)
      reads this
    {
      LimitedBetween(env, name, Clock(log), tick)
    }

    ghost predicate LastGroupCertified()
      reads this
    {
      exists start: nat :: start < |providers| && JustCertified(log, providers, start, |providers|, 0)
    }

    lemma OnlyOneLimited()
      requires NoWayOut() && (providers == [] || (|providers| == 1 && KeysLimited(providers[0].name)))
      ensures GivesUp()
    {
    }

    lemma LastGroupFound(start: nat, since: nat)
      requires NoWayOut()
      requires providers == [] || (start < |providers| && JustCertified(log, providers, start, |providers|, since))
      ensures GivesUp()
    {
      assert providers != [] ==> JustCertified(log, providers, start, |providers|, 0);
    }

    lemma NothingLeft(before: seq<Event>, was: Cursor)
      requires NoWayOut() && (was.attempts >= was.maxAttempts || was.providers == [])
      requires providers != [] ==> providers == was.providers && maxAttempts == was.maxAttempts
      requires attempts == was.attempts
      ensures GivesUp()
    {
    }

    // `_leave_virtual_route`: tried at most once a request.
    method LeaveVirtualRoute() returns (left: bool, raised: bool)
      requires Valid() && NothingSkipped() && handler.Valid()
      modifies `tick, `providers, `index, `log, `isVirtual, `leftVirtual, `maxAttempts, `budgets, handler.cursors
      ensures Valid() && NothingSkipped() && handler.Valid()
      ensures left ==> !old(leftVirtual) && leftVirtual && !raised && providers != []
      ensures (left ==> !Unmarked(old(log), log)) && old(log) <= log
      ensures left ==> index == 0 && NoneVirtual(providers) && !isVirtual
      ensures left ==> maxAttempts == AttemptLimit(attempts, providers, budgets)
      ensures old(!isVirtual || leftVirtual || env.override || attempts >= MAX_ATTEMPTS) ==>
        !left && !raised && log == old(log) && providers == old(providers) && index == old(index)
      ensures old(leftVirtual) ==> leftVirtual
      ensures tick >= old(tick) && (!left && !raised ==> NoWayOut())
      ensures !left && !raised && providers != [] ==>
        log == old(log) && providers == old(providers) && maxAttempts == old(maxAttempts)
      ensures LeftSo(env, algorithm, old(tick), old(log), old(Here()),
        if raised then Finish(RaisedOut) else if left then Continue else Stop, log, Here())
      ensures Unmoved(old(handler.cursors.Contents()), handler.cursors.Contents())
    {
      hide Unmoved;
      UnmovedSelf(handler.cursors.Contents());
      hide Available, FetchedList, Rebuilt, BuiltOf;
      left, raised := false, false;
      if !isVirtual || leftVirtual || env.override || attempts >= MAX_ATTEMPTS {
        return;
      }
      leftVirtual := true;
      var regular := Fetch(true, false);
      match regular {
        case Unavailable => return;
        case Raises => return false, true;
        case Listed(list) =>
          AcceptRegularRoute(list);
          return providers != [], false;
      }
    }

    // `_get_priority_group_range`
    method PriorityGroupRange(at: nat) returns (start: nat, end: nat)
      requires at < |providers|
      ensures start <= at < end <= |providers|
      ensures start == GroupStart(providers, at) && end == GroupEnd(providers, at)
    {
      var priority := providers[at].Priority();
      start, end := at, at + 1;
      while start > 0 && providers[start - 1].Priority() == priority
        invariant start <= at && GroupStart(providers, at) == GroupStart(providers, start)
        invariant providers[start].Priority() == priority
      {
        start := start - 1;
      }
      while end < |providers| && providers[end].Priority() == priority
        invariant at < end <= |providers| && GroupEnd(providers, at) == GroupEnd(providers, end - 1)
        invariant providers[end - 1].Priority() == priority
      {
        end := end + 1;
      }
    }

    // A candidate that a group check begun at `since` counts as available.
    ghost predicate HasKeysLeft(p: Provider, since: nat)
      reads this
    {
      p.byok ||
      (p.name in budgets && Count(p.name) < budgets[p.name]
       && exists at :: since <= at < tick && !(env.hasPool(p.name, at) && env.allLimited(p.name, at)))
    }

    // Whether one candidate of a group is spent or has all its keys limited.
    method CandidateExhausted(p: Provider) returns (reason: Option<Reason>)
      requires Valid() && !p.byok
      modifies `tick, `budgets, `log
      ensures Valid() && SameGround(old(log), log) && tick >= old(tick)
      ensures reason.Some? ==> Exhausted(env, log, p.name, reason.value) && AskedWithin([reason.value], old(tick), tick)
      ensures reason.None? ==> HasKeysLeft(p, old(tick))
      ensures var look := LookAt(env, p, old(budgets), old(tick));
        var spent := CountIn(counts, p.name) >= look.slots;
        && (reason.Some? <==> spent || LimitedAt(env, p.name, look.tick))
        && budgets == look.budgets && tick == look.tick + (if spent then 0 else 1)
      ensures p.name in old(budgets) ==> log == old(log) && budgets == old(budgets)
    {
      hide Sound, Visits, Exits, Failures, Calls, Budget, Current, Covered, StandingOf, Settled, VisitedLast;
      hide NoneVirtual, Ordered;
      var slots := KeySlots(p);
      if Count(p.name) >= slots {
        return Some(Spent);
      }
      var pool, limited := env.hasPool(p.name, tick), env.allLimited(p.name, tick);
      reason := if pool && limited then Some(AllLimited(tick)) else None;
      tick := tick + 1;
    }

    // The check of a priority group. A group that passes is certified; either answer rests on
    // questions asked by this check.
    method GroupExhausted(start: nat, end: nat) returns (exhausted: bool)
      requires Valid() && start <= end <= |providers| && GroupVisited(log, start, end)
      modifies `tick, `budgets, `log
      ensures Valid() && Exits(log) == old(Exits(log))
      ensures old(NothingSkipped()) && start <= index ==>
        NothingSkipped() && (exhausted ==> CoveredBelow(log, providers, end))
      ensures tick >= old(tick)
      ensures exhausted ==> JustCertified(log, providers, start, end, old(tick))
      ensures exhausted == CheckPasses(env, providers[start..end], counts, old(budgets), old(tick))
      ensures old(log) <= log && VisitedLast(log) == old(VisitedLast(log)) && (exhausted <==> !Unmarked(old(log), log))
      ensures OnlyChecked(old(log), log)
      ensures Budgeted(providers[start..end], old(budgets)) ==>
        budgets == old(budgets) && log == old(log) + (if exhausted then [log[|log| - 1]] else [])
      ensures !exhausted ==>
        SameGround(old(log), log) && exists k :: start <= k < end && HasKeysLeft(providers[k], old(tick))
    {
      hide Sound, Visits, Exits, Failures, Calls, Budget, Current, Covered, StandingOf, Settled, VisitedLast;
      hide NoneVirtual, Ordered, Agrees, CheckPasses, LookAt, LimitedAt, AllExhausted, AskedWithin;
      hide SameGround, CoveredBelow, OnlyChecked, Unmarked, Budgeted;
      ghost var reasons: seq<Reason> := [];
      SameGroundStart(log);
      NobodyExhausted(env, log, tick);
      AgreesOnSound(env, log, attempts, providers, counts, budgets, tick, isVirtual, leftVirtual);
      assert providers[start..start] == [];
      for k := start to end
        invariant Valid() && SameGround(old(log), log) && tick >= old(tick) && AskedWithin(reasons, old(tick), tick)
        invariant |reasons| == k - start && AllExhausted(env, log, providers[start..k], reasons)
        invariant CheckPasses(env, providers[start..end], counts, old(budgets), old(tick))
          == CheckPasses(env, providers[k..end], counts, budgets, tick)
        invariant Budgeted(providers[start..end], old(budgets)) ==> budgets == old(budgets) && log == old(log)
      {
        CheckStep(env, providers, k, end, counts, budgets, tick);
        BudgetedAt(providers, start, end, k, old(budgets));
        if providers[k].byok {
          SameGroundMeans(old(log), log, providers, index, start, end);
          CheckedSo(old(log), log, log);
          return false;
        }
        ghost var before, asked := log, tick;
        var reason := CandidateExhausted(providers[k]);
        SameGroundJoin(old(log), before, log);
        if reason.None? {
          SameGroundMeans(old(log), log, providers, index, start, end);
          CheckedSo(old(log), log, log);
          return false;
        }
        ExhaustedNext(env, before, log, providers[start..k], reasons, providers[k], reason.value, old(tick),
          asked, tick);
        SliceNext(providers, start, k);
        reasons := reasons + [reason.value];
      }
      CheckNobody(env, providers, end, counts, budgets, tick);
      SameGroundMeans(old(log), log, providers, index, start, end);
      ghost var checked := log;
      Certify(start, end, reasons, old(tick));
      CertifiedMarks(old(log), checked, log);
      CheckedSo(old(log), checked, log);
      if CoveredBelow(checked, providers, index) && start <= index {
        CoveredOn(checked, log, providers, index, start, end, true);
      }
      return true;
    }

    // ----- one turn of the loop -----

    // The current candidate is taken.
    method Visit() returns (current: nat)
      requires Valid() && NothingSkipped() && providers != [] && attempts < MAX_ATTEMPTS
      modifies `attempts, `index, `log
      ensures Valid() && NothingSkipped() && attempts == old(attempts) + 1
      ensures current < |providers| && current < index
      ensures current == old(index) % |providers| && index == old(index) + 1
      ensures log == old(log) + [Visited(current, tick)] && StandingOf(log) == Taken(providers[current])
      ensures VisitedLast(log) == Some(current)
    {
      hide Sound, Visits, Exits, Failures, Calls, Budget, Current, Covered, StandingOf, Settled, VisitedLast;
      hide NoneVirtual, Ordered, AllExhausted;
      Wraps(index, |providers|);
      current := index % |providers|;
      attempts := attempts + 1;
      index := index + 1;
      ghost var e := Visited(current, tick);
      Extend(env, log, e);
      Readings(log, e);
      log := log + [e];
    }

    // The virtual route is tried to be left; otherwise the loop ends.
    method LeaveOrStop() returns (flow: Flow)
      requires Valid() && NothingSkipped() && handler.Valid()
      modifies `tick, `providers, `index, `log, `isVirtual, `leftVirtual, `maxAttempts, `budgets, handler.cursors
      ensures Valid() && handler.Valid()
      ensures flow.Continue? ==> NothingSkipped() && !old(leftVirtual) && leftVirtual && !Unmarked(old(log), log)
      ensures old(log) <= log
      ensures flow.Finish? ==> flow.end.RaisedOut?
      ensures tick >= old(tick) && (flow.Stop? ==> NoWayOut())
      ensures flow.Stop? && providers != [] ==>
        log == old(log) && providers == old(providers) && maxAttempts == old(maxAttempts)
      ensures LeftSo(env, algorithm, old(tick), old(log), old(Here()), flow, log, Here())
    {
      hide LeftSo;
      var left, raised := LeaveVirtualRoute();
      return if raised then Finish(RaisedOut) else if left then Continue else Stop;
    }

    // What becomes of the candidate at this position if it is taken now.
    function FateNow(current: nat): Fate
      requires current < |providers|
      reads `tick, `budgets, `counts, `providers, `isVirtual
    {
      FateOf(env, providers, current, counts, budgets, tick, isVirtual)
    }

    // The list and what goes with it are as before.
    twostate predicate SameList()
      reads this
    {
      && providers == old(providers) && isVirtual == old(isVirtual) && leftVirtual == old(leftVirtual)
      && maxAttempts == old(maxAttempts) && counts == old(counts)
    }

    // The candidate is passed over and it is the last of its group, but not of the only one.
    predicate LeavesGroup(current: nat)
      requires current < |providers|
      reads `tick, `budgets, `counts, `providers, `isVirtual
    {
      var start, end := GroupStart(providers, current), GroupEnd(providers, current);
      FateNow(current).Passed? && current + 1 == end && end - start < |providers|
    }

    // The cursor stands in the group of position `current`.
    predicate InGroup(current: nat)
      requires current < |providers|
      reads `index, `providers
    {
      GroupStart(providers, current) <= index % |providers| < GroupEnd(providers, current)
    }

    // The cursor goes past a group only just found exhausted.
    ghost predicate JumpsPast(current: nat, since: nat)
      reads this
    {
      && current < |providers| && index == GroupEnd(providers, current)
      && JustCertified(log, providers, GroupStart(providers, current), index, since)
    }

    // All keys of a candidate of a virtual route with others are limited: its group is checked.
    method SkipGroup(current: nat) returns (flow: Flow)
      requires Valid() && NothingSkipped() && handler.Valid() && current < |providers| && current < index
      requires VisitedLast(log) == Some(current) && isVirtual && |providers| > 1
      modifies `tick, `providers, `index, `log, `isVirtual, `leftVirtual, `maxAttempts, `budgets, handler.cursors
      ensures Valid() && handler.Valid() && (flow.Continue? ==> NothingSkipped())
      ensures (flow.Stop? ==> GivesUp()) && (flow.Finish? ==> flow.end.RaisedOut?)
      ensures flow.Continue? && leftVirtual == old(leftVirtual) && index != old(index) ==> JumpsPast(current, old(tick))
      ensures old(log) <= log
      ensures match FateLimited(env, old(providers), current, counts, old(budgets), old(tick), old(isVirtual))
        case Passed =>
          flow.Continue? && index == old(index) && SameList() && Unmarked(old(log), log)
          && (Budgeted(GroupOf(old(providers), current), old(budgets)) ==> log == old(log) && budgets == old(budgets))
        case Jumped =>
          flow.Continue? && SameList() && JumpsPast(current, old(tick)) && !Unmarked(old(log), log)
          && (Budgeted(GroupOf(old(providers), current), old(budgets)) ==>
            log == old(log) + [log[|log| - 1]] && budgets == old(budgets))
        case Else =>
          && (flow.Continue? ==> !Unmarked(old(log), log))
          && LeftLater(env, algorithm, old(tick), old(log), old(Here()), flow, log, Here())
    {
      hide Sound, Visits, Exits, Failures, Calls, Budget, Current, Covered, StandingOf, Settled, VisitedLast;
      hide NoneVirtual, Ordered, Agrees, CheckPasses, LimitedBetween, GivesUp, CoveredBelow, Unmarked;
      hide Budgeted, GroupStart, GroupEnd, LeftSo, LeftLater, OnlyChecked, JustCertified;
      AgreesOnSound(env, log, attempts, providers, counts, budgets, tick, isVirtual, leftVirtual);
      var start, end := PriorityGroupRange(current);
      var exhausted := GroupExhausted(start, end);
      if !exhausted {
        return Continue;
      }
      if end < |providers| {
        index := end;
        return Continue;
      }
      AgreesOnSound(env, log, attempts, providers, counts, budgets, tick, isVirtual, leftVirtual);
      ghost var certified, since := log, tick;
      flow := LeaveOrStop();
      LeftThen(env, algorithm, old(tick), since, old(log), certified, old(Here()), flow, log, Here());
      if flow.Stop? { LastGroupFound(start, old(tick)); }
      UnmarkedJoin(old(log), certified, log);
    }

    // All keys of the current candidate are limited.
    method SkipLimited(current: nat) returns (flow: Flow)
      requires Valid() && NothingSkipped() && handler.Valid() && current < |providers| && current < index
      requires KeysLimited(providers[current].name) && VisitedLast(log) == Some(current)
      modifies `tick, `providers, `index, `log, `isVirtual, `leftVirtual, `maxAttempts, `budgets, handler.cursors
      ensures Valid() && handler.Valid() && (flow.Continue? ==> NothingSkipped())
      ensures (flow.Stop? ==> GivesUp()) && (flow.Finish? ==> flow.end.RaisedOut?)
      ensures flow.Continue? && leftVirtual == old(leftVirtual) && index != old(index) ==> JumpsPast(current, old(tick))
      ensures old(log) <= log
      ensures match FateLimited(env, old(providers), current, counts, old(budgets), old(tick), old(isVirtual))
        case Passed =>
          flow.Continue? && index == old(index) && SameList() && Unmarked(old(log), log)
          && (Budgeted(GroupOf(old(providers), current), old(budgets)) ==> log == old(log) && budgets == old(budgets))
        case Jumped =>
          flow.Continue? && SameList() && JumpsPast(current, old(tick)) && !Unmarked(old(log), log)
          && (Budgeted(GroupOf(old(providers), current), old(budgets)) ==>
            log == old(log) + [log[|log| - 1]] && budgets == old(budgets))
        case Else =>
          && (flow.Continue? ==> !Unmarked(old(log), log))
          && LeftLater(env, algorithm, old(tick), old(log), old(Here()), flow, log, Here())
    {
      hide Sound, Visits, Exits, Failures, Calls, Budget, Current, Covered, StandingOf, Settled, VisitedLast;
      hide NoneVirtual, Ordered, Agrees, CheckPasses, LimitedBetween, GivesUp, CoveredBelow, Unmarked;
      hide Budgeted, GroupStart, GroupEnd, LeftSo, LeftLater, OnlyChecked;
      NothingMarked(log);
      AgreesOnSound(env, log, attempts, providers, counts, budgets, tick, isVirtual, leftVirtual);
      if |providers| == 1 {
        flow := LeaveOrStop();
        LeftThen(env, algorithm, old(tick), old(tick), old(log), old(log), old(Here()), flow, log, Here());
        LimitedLater(env, old(providers)[0].name, old(Clock(log)), old(tick), tick);
        if flow.Stop? { OnlyOneLimited(); }
        return;
      }
      if isVirtual {
        flow := SkipGroup(current);
        return;
      }
      return Continue;
    }

    ghost method Record(e: Event)
      requires Sound(env, log) && Allowed(env, log, e) && (e.Called? || e.Failed? || e.Froze?)
      modifies `log
      ensures log == old(log) + [e] && Sound(env, log)
      ensures forall q: nat :: Covered(log, q) <==> old(Covered(log, q))
      ensures Visits(log) == old(Visits(log)) && Exits(log) == old(Exits(log)) && Current(log) == old(Current(log))
      ensures forall name ::
        Budget(log, name) == if e.Froze? && e.name == name then Some(e.budget) else old(Budget(log, name))
      ensures forall name :: Failures(log, name) == old(Failures(log, name)) + (if IsFailure(e, name) then 1 else 0)
      ensures forall name :: Calls(log, name) == old(Calls(log, name)) + (if IsCall(e, name) then 1 else 0)
      ensures StandingOf(log) == Stands(old(StandingOf(log)), Current(log), e)
      ensures Settled(log) == if e.Froze? then old(Settled(log)) else e.at
      ensures VisitedLast(log) == old(VisitedLast(log))
    {
      hide Sound, Visits, Exits, Failures, Calls, Budget, Current, Covered, StandingOf, Settled, VisitedLast;
      hide NoneVirtual, Ordered;
      Extend(env, log, e);
      Readings(log, e);
      log := log + [e];
    }

    // The request fails on the current candidate: count it, and record the call if there was one.
    method CountFailure(p: Provider, called: bool)
      requires Valid() && NothingSkipped() && StandingOf(log) == Taken(p)
      requires !p.byok ==> p.name in budgets && Count(p.name) < budgets[p.name]
      requires tick > 0 && env.attempt(tick - 1).Failing? && env.attempt(tick - 1).called == called
      modifies `counts, `log
      ensures Valid() && NothingSkipped()
      ensures counts == old(counts)[p.name := old(Count(p.name)) + 1] && VisitedLast(log) == old(VisitedLast(log))
      ensures log == old(log) + (if called then [Called(p.name, p.byok, tick)] else []) + [Failed(p.name, tick)]
      ensures old(log) <= log && Unmarked(old(log), log)
    {
      hide Sound, Visits, Exits, Failures, Calls, Budget, Current, Covered, StandingOf, Settled, VisitedLast;
      hide NoneVirtual, Ordered, Agrees, Over, CoveredBelow;
      log := FailureAgrees(env, log, attempts, providers, counts, budgets, tick, isVirtual, leftVirtual, p,
        called, index);
      counts := counts[p.name := Count(p.name) + 1];
    }

    // After a failure on a virtual route the cursor goes back to the head of the group it has
    // left, unless the group is exhausted.
    method StayInGroup(current: nat)
      requires Valid() && NothingSkipped() && current < |providers| && current < index
      requires VisitedLast(log) == Some(current)
      modifies `tick, `index, `log, `budgets
      ensures Valid() && NothingSkipped() && tick >= old(tick) && old(log) <= log && OnlyChecked(old(log), log)
      ensures Unmarked(old(log), log) ==> InGroup(current)
      ensures var start, end := GroupStart(providers, current), GroupEnd(providers, current);
        InGroup(current) || JustCertified(log, providers, start, end, old(tick))
    {
      hide Sound, Visits, Exits, Failures, Calls, Budget, Current, Covered, StandingOf, Settled, VisitedLast;
      hide NoneVirtual, Ordered, Agrees, CheckPasses, CoveredBelow, Unmarked, Budgeted, GroupStart, GroupEnd;
      NothingMarked(log);
      NothingChecked(log);
      AgreesOnSound(env, log, attempts, providers, counts, budgets, tick, isVirtual, leftVirtual);
      var start, end := PriorityGroupRange(current);
      var next := index % |providers|;
      if next >= end || next < start {
        var exhausted := GroupExhausted(start, end);
        if !exhausted {
          CoveredLess(log, providers, start, index);
          index := start;
          Wraps(start, |providers|);
        }
      }
    }

    // The channel was cooled down: the list is looked up anew.
    method Rebuild() returns (found: bool)
      requires Valid() && NothingSkipped() && handler.Valid()
      modifies `tick, `providers, `index, `log, `isVirtual, `leftVirtual, `maxAttempts, `budgets, handler.cursors
      ensures Valid() && NothingSkipped() && handler.Valid() && old(log) <= log
      ensures var lookup := Available(env.world(old(tick)), old(leftVirtual));
        if !found then !lookup.Found? && log == old(log) && Here() == old(Here())
        else lookup.Found? && FetchedList(lookup.providers, algorithm, providers) && Rebuilt(old(log), log, providers)
      ensures found && old(isVirtual) && NoneVirtual(providers) ==>
        Here() == old(Here()).(providers := providers, index := 0, maxAttempts := maxAttempts,
          isVirtual := false, leftVirtual := true)
      ensures found && !(old(isVirtual) && NoneVirtual(providers)) ==>
        Here() == old(Here()).(providers := providers, index := 0) && tick == old(tick) + 1
      ensures found ==> !Unmarked(old(log), log)
      ensures Unmoved(old(handler.cursors.Contents()), handler.cursors.Contents())
    {
      hide Unmoved;
      UnmovedSelf(handler.cursors.Contents());
      hide Sound, Visits, Exits, Failures, Calls, Budget, Current, Covered, StandingOf, Settled, VisitedLast;
      hide NoneVirtual, Ordered, Agrees, CoveredBelow, Unmarked, Available, FetchedList, Rebuilt;
      AgreesOnSound(env, log, attempts, providers, counts, budgets, tick, isVirtual, leftVirtual);
      ghost var before := tick;
      var fetched := Fetch(leftVirtual, false);
      AgreesLater(env, log, attempts, providers, counts, budgets, before, tick, isVirtual, leftVirtual);
      if !fetched.Listed? {
        return false;
      }
      AcceptRegularRoute(fetched.list);
      return true;
    }

    // After a failure: rebuild the list, or stay in the priority group, or give up.
    method AfterFailure(current: nat, retry: bool, rebuild: bool) returns (flow: Flow)
      requires Valid() && NothingSkipped() && handler.Valid() && current < |providers| && current < index
      requires VisitedLast(log) == Some(current)
      modifies `tick, `providers, `index, `log, `isVirtual, `leftVirtual, `maxAttempts, `budgets, handler.cursors
      ensures Valid() && handler.Valid() && (flow.Continue? ==> NothingSkipped())
      ensures flow.Finish? ==> flow.end.RaisedOut? || (flow.end.Refused? && !retry)
      ensures !retry ==> flow.Finish?
      ensures flow.Stop? ==> GivesUp()
      ensures old(log) <= log
      ensures flow.Continue? && old(isVirtual) && Unmarked(old(log), log) ==>
        providers == old(providers) && InGroup(current)
      ensures retry && attempts < old(maxAttempts) && !(rebuild && !env.override && old(|providers|) > 1) ==>
        flow.Continue? && providers == old(providers)
        && (isVirtual ==>
          var start, end := GroupStart(providers, current), GroupEnd(providers, current);
          InGroup(current) || JustCertified(log, providers, start, end, old(tick)))
      ensures Handled(env, algorithm, retry, rebuild, old(tick), old(log), old(Here()), flow, log, Here())
    {
      hide Sound, Visits, Exits, Failures, Calls, Budget, Current, Covered, StandingOf, Settled, VisitedLast;
      hide NoneVirtual, Ordered, Agrees, CoveredBelow, Unmarked, GroupStart, GroupEnd, InGroup, JustCertified;
      hide KeysLimited, GivesUp, FetchedList, Rebuilt, LeftSo, Available, OnlyChecked, Handled, HandledOn, NoWayOut;
      NothingMarked(log);
      NothingChecked(log);
      var rebuilds := rebuild && !env.override && |providers| > 1;
      ghost var list: seq<Provider> := [];
      if rebuilds {
        var found := Rebuild();
        if !found {
          HandledRaises(env, algorithm, retry, old(tick), log, Here());
          return Finish(RaisedOut);
        }
        list := providers;
      }
      ghost var before, was, since := log, Here(), tick;
      if retry && attempts < maxAttempts && providers != [] {
        if isVirtual && !rebuilds {
          StayInGroup(current);
        }
        flow := Continue;
      } else if retry {
        flow := LeaveOrStop();
        if flow.Stop? { NothingLeft(before, was); }
      } else {
        flow := Finish(Refused);
      }
      UnmarkedJoin(old(log), before, log);
      if rebuilds {
        HandledByList(env, algorithm, retry, old(tick), old(log), old(Here()), list, before, was, since, flow,
          log, Here());
      } else {
        HandledByOld(env, algorithm, retry, rebuild, old(tick), old(log), old(Here()), flow, log, Here());
      }
    }

    // Whether the provider has a key pool and every key in it is limited now.
    method PoolLimited(name: string) returns (limited: bool)
      requires Valid() && NothingSkipped()
      modifies `tick
      ensures Valid() && NothingSkipped() && tick == old(tick) + 1
      ensures limited <==> env.hasPool(name, old(tick)) && env.allLimited(name, old(tick))
      ensures limited ==> KeysLimited(name)
    {
      limited := env.hasPool(name, tick) && env.allLimited(name, tick);
      tick := tick + 1;
    }

    // A candidate that has used up its budget.
    predicate SpentNow(p: Provider)
      reads this
    {
      !p.byok && p.name in budgets && Count(p.name) >= budgets[p.name]
    }

    // One turn: at most one upstream call, and none to a spent candidate.
    method Turn() returns (flow: Flow)
      requires Valid() && NothingSkipped() && handler.Valid()
      requires providers != [] && attempts < maxAttempts && attempts < MAX_ATTEMPTS
      modifies this, handler.cursors
      ensures Sound(env, log) && Visits(log) == attempts == old(attempts) + 1
      ensures flow.Continue? ==> Valid() && NothingSkipped() && handler.Valid()
      ensures flow.Stop? ==> Valid()
      ensures flow.Stop? ==> GivesUp()
      ensures flow.Finish? ==> !flow.end.AllFailed? && (flow.end.Response? ==> Answers(log))
      ensures old(SpentNow(providers[index % |providers|])) ==>
        flow.Continue? && log == old(log) + [Visited(old(index % |providers|), old(tick))]
        && index == old(index) + 1 && providers == old(providers) && counts == old(counts) && budgets == old(budgets)
      ensures old(log) <= log
      ensures old(FateNow(index % |providers|)).Passed? ==>
        flow.Continue? && index == old(index) + 1 && SameList() && Unmarked(old(log), log)
        && (old(Budgeted(providers, budgets)) ==>
          log == old(log) + [Visited(old(index % |providers|), old(tick))] && budgets == old(budgets))
      ensures old(FateNow(index % |providers|)).Jumped? ==>
        flow.Continue? && SameList() && JumpsPast(old(index % |providers|), old(tick))
        && (old(Budgeted(providers, budgets)) ==>
          log == old(log) + [Visited(old(index % |providers|), old(tick))] + [log[|log| - 1]]
          && budgets == old(budgets))
      ensures old(isVirtual) ==>
        (flow.Continue? && Unmarked(old(log), log)
         && !(providers == old(providers) && InGroup(old(index % |providers|)))
        <==> old(LeavesGroup(index % |providers|)))
      ensures AttendedSo(env, algorithm, old(providers[index % |providers|]), old(tick), old(budgets),
        old(log) + [Visited(old(index % |providers|), old(tick))],
        old(Here()).(index := old(index) + 1, attempts := old(attempts) + 1),
        old(counts), old(FateNow(index % |providers|)).Else?, flow, log, Here(), counts)
      ensures flow.Finish? ==> EndJustified(env, log, flow.end)
    {
      hide Sound, Visits, Exits, Failures, Calls, Budget, Current, Covered, StandingOf, Settled, VisitedLast;
      hide NoneVirtual, Ordered, GivesUp, NothingSkipped, Agrees, Unmarked, JumpsPast, FateOf, Budgeted, Answers;
      hide AttendedSo, EndJustified, AttemptAt;
      ghost var leaves := LeavesGroup(index % |providers|);
      var current := Visit();
      ghost var visited, was := log, Here();
      flow := Attend(current);
      if flow.Finish? {
        AttendedEnds(env, algorithm, old(providers)[current], old(tick), old(budgets), visited, was, old(counts), true,
          flow, log, Here(), counts);
      }
      OneVisitUnmarked(old(log), visited);
      UnmarkedJoin(old(log), visited, log);
      NextPlace(old(providers), current, old(index));
    }

    /** A group edge is passed without a check behind a spent candidate: whatever the other
        members of its group have left, the next position is taken in the next turn. */
    method PassSpentEdge() returns (next: nat)
      requires Valid() && NothingSkipped() && handler.Valid() && index + 1 < |providers|
      requires attempts < maxAttempts && attempts + 1 < MAX_ATTEMPTS
      requires SpentNow(providers[index])
      modifies this, handler.cursors
      ensures next == old(index) + 1 && Sound(env, log)
      ensures log == old(log) + [Visited(old(index), old(tick))] + [Visited(next, tick)]
      ensures providers == old(providers) && counts == old(counts) && budgets == old(budgets)
    {
      hide Sound, Visits, Exits, Failures, Calls, Budget, Current, Covered, StandingOf, Settled, VisitedLast;
      hide GivesUp, NothingSkipped, Agrees;
      Wraps(index, |providers|);
      var flow := Turn();
      Wraps(index, |providers|);
      AgreesOnSound(env, log, attempts, providers, counts, budgets, tick, isVirtual, leftVirtual);
      next := Visit();
      AgreesOnSound(env, log, attempts, providers, counts, budgets, tick, isVirtual, leftVirtual);
    }

    // The candidate just taken is skipped or tried.
    method Attend(current: nat) returns (flow: Flow)
      requires Valid() && NothingSkipped() && handler.Valid() && current < |providers| && current < index
      requires StandingOf(log) == Taken(providers[current]) && VisitedLast(log) == Some(current)
      modifies this, handler.cursors
      ensures Sound(env, log) && Visits(log) == attempts == old(attempts)
      ensures flow.Continue? ==> Valid() && NothingSkipped() && handler.Valid()
      ensures flow.Stop? ==> Valid()
      ensures flow.Stop? ==> GivesUp()
      ensures flow.Finish? ==> !flow.end.AllFailed? && (flow.end.Response? ==> Answers(log))
      ensures old(SpentNow(providers[current])) ==>
        flow.Continue? && log == old(log)
        && index == old(index) && providers == old(providers) && counts == old(counts) && budgets == old(budgets)
      ensures old(log) <= log
      ensures old(FateNow(current)).Passed? ==>
        flow.Continue? && index == old(index) && SameList() && Unmarked(old(log), log)
        && (old(Budgeted(providers, budgets)) ==> log == old(log) && budgets == old(budgets))
      ensures old(FateNow(current)).Jumped? ==>
        flow.Continue? && SameList() && JumpsPast(current, old(tick))
        && (old(Budgeted(providers, budgets)) ==> log == old(log) + [log[|log| - 1]] && budgets == old(budgets))
      ensures !old(FateNow(current)).Passed? && flow.Continue? && old(isVirtual) && Unmarked(old(log), log) ==>
        providers == old(providers) && InGroup(current)
      ensures AttendedSo(env, algorithm, old(providers)[current], old(tick), old(budgets), old(log), old(Here()),
        old(counts), old(FateNow(current)).Else?, flow, log, Here(), counts)
    {
      hide Sound, Visits, Exits, Failures, Calls, Budget, Current, Covered, StandingOf, Settled, VisitedLast;
      hide NoneVirtual, Ordered, GivesUp, KeysLimited, JumpsPast, Agrees, CheckPasses, LimitedAt, NothingSkipped;
      hide Unmarked, FateOf, LookAt, SameGround, InGroup, GroupStart, GroupEnd, Answers, FateLimited;
      hide TriedSo, LeftLater, AttendedSo, AttemptAt, OnlyFroze, JustCertified;
      var p := providers[current];
      ghost var counted := counts;
      var gate := Free;
      if !p.byok {
        gate := AskKeys(p);
        FateAsked(env, providers, current, counts, old(budgets), old(tick), isVirtual, gate, tick);
        SameGroundUnmarked(old(log), log);
        SameGroundFroze(old(log), log);
      } else {
        FateByok(env, providers, current, counts, budgets, tick, isVirtual);
        NothingMarked(log);
        SameGroundStart(log);
        SameGroundFroze(log, log);
      }
      ghost var asked, since := log, tick;
      flow := Proceed(current, gate);
      UnmarkedJoin(old(log), asked, log);
      JumpedSince(current, old(tick), since);
      AttendedBy(env, algorithm, p, old(tick), old(budgets), old(log), asked, old(Here()), counted, gate,
        old(FateNow(current)).Else?, since, flow, log, Here(), counts);
    }

    // What follows the questions about the candidate's keys.
    method Proceed(current: nat, gate: Gate) returns (flow: Flow)
      requires Valid() && NothingSkipped() && handler.Valid() && current < |providers| && current < index
      requires StandingOf(log) == Taken(providers[current]) && VisitedLast(log) == Some(current)
      requires gate.Limited? ==> KeysLimited(providers[current].name)
      requires var p := providers[current];
        gate.Free? && !p.byok ==> p.name in budgets && Count(p.name) < budgets[p.name]
      modifies this, handler.cursors
      ensures Sound(env, log) && Visits(log) == attempts == old(attempts)
      ensures flow.Continue? ==> Valid() && NothingSkipped() && handler.Valid()
      ensures flow.Stop? ==> Valid()
      ensures flow.Stop? ==> GivesUp()
      ensures flow.Finish? ==> !flow.end.AllFailed? && (flow.end.Response? ==> Answers(log))
      ensures old(log) <= log
      ensures gate.Used? ==> log == old(log) && budgets == old(budgets)
      ensures old(FateAfter(current, gate)).Passed? ==>
        flow.Continue? && index == old(index) && SameList() && Unmarked(old(log), log)
        && (old(Budgeted(providers, budgets)) ==> log == old(log) && budgets == old(budgets))
      ensures old(FateAfter(current, gate)).Jumped? ==>
        flow.Continue? && SameList() && JumpsPast(current, old(tick))
        && (old(Budgeted(providers, budgets)) ==> log == old(log) + [log[|log| - 1]] && budgets == old(budgets))
      ensures !old(FateAfter(current, gate)).Passed? && flow.Continue? && old(isVirtual) && Unmarked(old(log), log) ==>
        providers == old(providers) && InGroup(current)
      ensures gate.Free? ==> TriedSo(env, algorithm, old(providers)[current], old(tick), old(log), old(Here()),
        old(counts), flow, log, Here(), counts)
      ensures !gate.Free? ==> counts == old(counts)
      ensures gate.Limited? && old(FateAfter(current, gate)).Else? ==>
        LeftLater(env, algorithm, old(tick), old(log), old(Here()), flow, log, Here())
    {
      hide Sound, Visits, Exits, Failures, Calls, Budget, Current, Covered, StandingOf, Settled, VisitedLast;
      hide NoneVirtual, Ordered, GivesUp, KeysLimited, JumpsPast, Agrees, CheckPasses, LimitedAt, NothingSkipped;
      hide InGroup, GroupStart, GroupEnd, FateLimited, TriedSo, LeftLater;
      AgreesOnSound(env, log, attempts, providers, counts, budgets, tick, isVirtual, leftVirtual);
      match gate {
        case Used =>
          return Continue;
        case Limited =>
          BudgetedPart(providers, budgets, GroupStart(providers, current), GroupEnd(providers, current));
          flow := SkipLimited(current);
          AgreesOnSound(env, log, attempts, providers, counts, budgets, tick, isVirtual, leftVirtual);
        case Free =>
          flow := Try(providers[current], current);
      }
    }

    // What becomes of a candidate after these answers.
    function FateAfter(current: nat, gate: Gate): Fate
      requires current < |providers|
      reads `tick, `budgets, `counts, `providers, `isVirtual
    {
      match gate
      case Used => Passed
      case Limited => FateLimited(env, providers, current, counts, budgets, tick, isVirtual)
      case Free => if env.attempt(tick).Skipped? then Passed else Else
    }

    lemma JumpedSince(current: nat, early: nat, late: nat)
      requires early <= late
      ensures JumpsPast(current, late) ==> JumpsPast(current, early)
    {
    }

    // What is asked about a candidate with keys of its own before it is tried.
    method AskKeys(p: Provider) returns (gate: Gate)
      requires Valid() && NothingSkipped() && !p.byok
      modifies `tick, `budgets, `log
      ensures Valid() && NothingSkipped() && SameGround(old(log), log) && tick >= old(tick)
      ensures p.name in budgets && (p.name in old(budgets) ==> log == old(log) && budgets == old(budgets))
      ensures gate.Limited? ==> KeysLimited(p.name)
      ensures var look := LookAt(env, p, old(budgets), old(tick));
        && budgets == look.budgets && budgets[p.name] == look.slots
        && (gate.Used? <==> CountIn(counts, p.name) >= look.slots)
        && (gate.Limited? <==> !gate.Used? && !env.override && LimitedAt(env, p.name, look.tick))
        && (!gate.Used? ==> tick == look.tick + 1)
    {
      hide Sound, Visits, Exits, Failures, Calls, Budget, Current, Covered, StandingOf, Settled, VisitedLast;
      hide NoneVirtual, Ordered, Agrees, KeysLimited;
      var slots := KeySlots(p);
      if Count(p.name) >= slots {
        return Used;
      }
      var limited := PoolLimited(p.name);
      return if !env.override && limited then Limited else Free;
    }

    // The attempt itself.
    method Try(p: Provider, current: nat) returns (flow: Flow)
      requires Valid() && NothingSkipped() && handler.Valid() && current < |providers| && current < index
      requires p == providers[current] && StandingOf(log) == Taken(p) && VisitedLast(log) == Some(current)
      requires !p.byok ==> p.name in budgets && Count(p.name) < budgets[p.name]
      modifies this, handler.cursors
      ensures Sound(env, log) && Visits(log) == attempts == old(attempts)
      ensures flow.Continue? ==> Valid() && NothingSkipped() && handler.Valid()
      ensures flow.Stop? ==> Valid()
      ensures env.attempt(old(tick)).Answered? ==>
        flow == Finish(Response) && log == old(log) + [Called(p.name, p.byok, old(tick) + 1)]
      ensures env.attempt(old(tick)).Skipped? ==>
        flow.Continue? && log == old(log) && index == old(index) && SameList() && budgets == old(budgets)
      ensures old(log) <= log
      ensures !env.attempt(old(tick)).Skipped? && flow.Continue? && old(isVirtual) && Unmarked(old(log), log) ==>
        providers == old(providers) && InGroup(current)
      ensures flow == Finish(Response) ==> env.attempt(old(tick)).Answered?
      ensures flow.Stop? ==> GivesUp()
      ensures flow.Finish? ==> !flow.end.AllFailed?
      ensures TriedSo(env, algorithm, p, old(tick), old(log), old(Here()), old(counts), flow, log, Here(), counts)
    {
      hide Sound, Visits, Exits, Failures, Calls, Budget, Current, Covered, StandingOf, Settled, VisitedLast;
      hide NoneVirtual, Ordered, Agrees, CoveredBelow, Unmarked, InGroup, GivesUp, MayCall, JustCertified, Handled;
      var attempt := env.attempt(tick);
      AgreesOnSound(env, log, attempts, providers, counts, budgets, tick, isVirtual, leftVirtual);
      AgreesLater(env, log, attempts, providers, counts, budgets, tick, tick + 1, isVirtual, leftVirtual);
      tick := tick + 1;
      match attempt {
        case Skipped => return Continue;
        case Answered =>
          Call(p);
          return Finish(Response);
        case Cancelled =>
          Call(p);
          return Finish(RaisedOut);
        case Failing(called, retry, rebuild) =>
          flow := Fail(p, current, called, retry, rebuild);
      }
    }

    // The candidate taken is asked, and the run ends with that.
    ghost method Call(p: Provider)
      requires Valid() && StandingOf(log) == Taken(p)
      requires !p.byok ==> p.name in budgets && Count(p.name) < budgets[p.name]
      requires Reaches(env, tick)
      modifies `log
      ensures log == old(log) + [Called(p.name, p.byok, tick)] && Sound(env, log) && Visits(log) == attempts
    {
      hide Sound, Visits, Exits, Failures, Calls, Budget, Current, Covered, StandingOf, Settled, VisitedLast;
      hide NoneVirtual, Ordered, Agrees, MayCall;
      AgreesOnCall(env, log, attempts, providers, counts, budgets, tick, isVirtual, leftVirtual, p);
      AgreesOnSound(env, log, attempts, providers, counts, budgets, tick, isVirtual, leftVirtual);
      Record(Called(p.name, p.byok, tick));
    }

    // The attempt failed.
    method Fail(p: Provider, current: nat, called: bool, retry: bool, rebuild: bool) returns (flow: Flow)
      requires Valid() && NothingSkipped() && handler.Valid() && current < |providers| && current < index
      requires p == providers[current] && StandingOf(log) == Taken(p) && VisitedLast(log) == Some(current)
      requires !p.byok ==> p.name in budgets && Count(p.name) < budgets[p.name]
      requires tick > 0 && env.attempt(tick - 1) == Failing(called, retry, rebuild)
      modifies this, handler.cursors
      ensures Sound(env, log) && Visits(log) == attempts == old(attempts) && old(log) <= log
      ensures counts == old(counts)[p.name := old(Count(p.name)) + 1]
      ensures var failed := old(log) + (if called then [Called(p.name, p.byok, old(tick))] else [])
          + [Failed(p.name, old(tick))];
        Handled(env, algorithm, retry, rebuild, old(tick), failed, old(Here()), flow, log, Here())
      ensures flow.Continue? ==> Valid() && NothingSkipped() && handler.Valid()
      ensures flow.Stop? ==> Valid()
      ensures flow.Continue? && old(isVirtual) && Unmarked(old(log), log) ==>
        providers == old(providers) && InGroup(current)
      ensures (flow.Stop? ==> GivesUp()) && (flow.Finish? ==> !flow.end.AllFailed? && !flow.end.Response?)
    {
      hide Sound, Visits, Exits, Failures, Calls, Budget, Current, Covered, StandingOf, Settled, VisitedLast;
      hide NoneVirtual, Ordered, Agrees, CoveredBelow, Unmarked, InGroup, GivesUp, JustCertified, GroupStart, GroupEnd;
      hide Handled;
      CountFailure(p, called);
      ghost var failed := log;
      flow := AfterFailure(current, retry, rebuild);
      UnmarkedJoin(old(log), failed, log);
      AgreesOnSound(env, log, attempts, providers, counts, budgets, tick, isVirtual, leftVirtual);
    }

    // ----- the whole run -----

    // The first list: the given candidates in override mode, otherwise those of a lookup.
    method Begin(given: seq<Provider>) returns (raised: bool)
      requires log == [] && attempts == 0 && budgets == map[] && counts == map[] && !isVirtual && !leftVirtual
      requires handler.Valid() && index == 0 && providers == []
      modifies this, handler.cursors
      ensures handler.Valid() && Valid() && NothingSkipped() && attempts == 0 && !leftVirtual
      ensures !raised ==> maxAttempts == AttemptLimit(0, providers, budgets) && (isVirtual <==> !NoneVirtual(providers))
      ensures env.override ==> !raised && providers == given
      ensures !raised ==> OnlyInstalled(log, providers) && counts == map[] && index == 0
      ensures !raised ==> budgets.Keys == AskedNames(providers)
      ensures !raised && !env.override ==> tick == old(tick) + 1 + |budgets|
      ensures !env.override ==> (raised <==> !Available(env.world(old(tick)), false).Found?)
      ensures !env.override && !raised ==>
        FetchedList(Available(env.world(old(tick)), false).providers, algorithm, providers)
      ensures !env.override && !raised ==>
        BuiltOf(old(handler.cursors.Contents()), handler.cursors.Contents(), model,
          Available(env.world(old(tick)), false).providers, algorithm, true, providers)
      ensures raised ==> log == []
    {
      hide Sound, Visits, Exits, Failures, Calls, Budget, Current, Covered, StandingOf, Settled, VisitedLast;
      hide NoneVirtual, CoveredBelow, AskedNames, FetchedList, Available, Seen, OnlyInstalled, AttemptLimit;
      hide Agrees, Unmarked, BuiltOf;
      NothingAgreed(env, tick);
      var list := given;
      if !env.override {
        ghost var before := tick;
        var fetched := Fetch(false, true);
        AgreesLater(env, [], 0, [], map[], map[], before, tick, false, false);
        if !fetched.Listed? {
          return true;
        }
        list := fetched.list;
      }
      OrderedOnRequest(env, list);
      ghost var fetchedAt := tick;
      Install(list);
      JustInstalled(list, tick);
      SetLimit();
      SeenFirst(budgets, providers, fetchedAt, tick);
      return false;
    }

    // The attempt limit and the kind of the first list.
    method SetLimit()
      requires Valid() && NothingSkipped() && attempts == 0 && Exits(log) == 0
      modifies `tick, `budgets, `log, `maxAttempts, `isVirtual
      ensures Valid() && NothingSkipped()
      ensures maxAttempts == AttemptLimit(0, providers, budgets) && (isVirtual <==> !NoneVirtual(providers))
      ensures OnlyInstalled(old(log), providers) ==> OnlyInstalled(log, providers)
      ensures Seen(old(budgets), budgets, providers, old(tick), tick)
    {
      hide Sound, Visits, Exits, Failures, Calls, Budget, Current, Covered, StandingOf, Settled, VisitedLast;
      hide NoneVirtual, Ordered, CoveredBelow, Seen, Keeps, Budgeted, RetryCount;
      ghost var before := log;
      AgreesOnSound(env, log, attempts, providers, counts, budgets, tick, isVirtual, leftVirtual);
      var retries := CalcRetryCount();
      StillOnlyInstalled(before, log, providers);
      var limit := |providers| + retries;
      maxAttempts := if limit < MAX_ATTEMPTS then limit else MAX_ATTEMPTS;
      isVirtual := !NoneVirtual(providers);
    }

    // One round: a turn, or without an attempt left the way out of the virtual route.
    method Round() returns (flow: Flow)
      requires Valid() && NothingSkipped() && handler.Valid() && attempts < MAX_ATTEMPTS
      modifies this, handler.cursors
      ensures Sound(env, log) && Visits(log) == attempts <= MAX_ATTEMPTS
      ensures flow.Continue? ==> Valid() && NothingSkipped() && handler.Valid()
      ensures flow.Continue? ==>
        attempts > old(attempts) || (attempts == old(attempts) && leftVirtual && !old(leftVirtual))
      ensures flow.Stop? ==> GivesUp() && !Over(env, log)
      ensures flow.Finish? ==> !flow.end.AllFailed? && (flow.end.Response? ==> Answers(log))
      ensures flow.Finish? ==> EndJustified(env, log, flow.end)
    {
      hide Sound, Visits, Exits, Failures, Calls, Budget, Current, Covered, StandingOf, Settled, VisitedLast;
      hide NoneVirtual, Ordered, CoveredBelow, Agrees, EndJustified, AttendedSo, LeftSo, Unmarked, FateOf;
      hide LimitedBetween, JustCertified, InGroup, JumpsPast, AttemptAt;
      AgreesOnSound(env, log, attempts, providers, counts, budgets, tick, isVirtual, leftVirtual);
      if providers == [] || attempts >= maxAttempts {
        ghost var before, was, now := log, Here(), tick;
        flow := LeaveOrStop();
        LeftEnds(env, algorithm, now, before, was, flow, log, Here());
        if flow.Stop? { NothingLeft(before, was); }
        AgreesOnSound(env, log, attempts, providers, counts, budgets, tick, isVirtual, leftVirtual);
      } else {
        flow := Turn();
        if flow.Stop? {
          AgreesOnSound(env, log, attempts, providers, counts, budgets, tick, isVirtual, leftVirtual);
        }
      }
    }

    /** A whole request, in any surroundings: it ends, and its log is sound. It ends with an answer only
        where an upstream has just given one, without a retry only after a failure that allows none,
        with an exception only when the client has left or a lookup yields no list, and otherwise
        when nothing is left to try. */
    method RequestModel(given: seq<Provider>) returns (end: RunEnd)
      requires log == [] && attempts == 0 && budgets == map[] && counts == map[] && !isVirtual && !leftVirtual
      requires handler.Valid() && index == 0 && providers == []
      modifies this, handler.cursors
      ensures Sound(env, log) && attempts == Visits(log) <= MAX_ATTEMPTS && UpstreamCalls(log) <= attempts
      ensures end.Response? ==> Answers(log)
      ensures end.AllFailed? ==> GivesUp()
      ensures EndJustified(env, log, end)
    {
      hide Sound, Visits, Exits, Failures, Calls, Budget, Current, Covered, StandingOf, Settled, VisitedLast;
      hide NoneVirtual, Ordered, UpstreamCalls, Agrees, EndJustified, FetchedList, Available, CoveredBelow;
      hide LimitedBetween, JustCertified;
      var raised := Begin(given);
      AgreesOnSound(env, log, attempts, providers, counts, budgets, tick, isVirtual, leftVirtual);
      RunBounded(env, log);
      if raised {
        LookupFailed(env, old(tick), false);
        RaisesUnanswered(env);
        return RaisedOut;
      }
      while attempts < MAX_ATTEMPTS
        invariant Valid() && NothingSkipped() && handler.Valid()
        decreases MAX_ATTEMPTS - attempts, if leftVirtual then 0 else 1
      {
        var flow := Round();
        RunBounded(env, log);
        match flow {
          case Continue =>
          case Stop =>
            StopsUnanswered(env, log);
            return AllFailed;
          case Finish(e) => return e;
        }
      }
      AgreesOnSound(env, log, attempts, providers, counts, budgets, tick, isVirtual, leftVirtual);
      RunBounded(env, log);
      StopsUnanswered(env, log);
      return AllFailed;
    }

    ghost method Certify(start: nat, end: nat, reasons: seq<Reason>, since: nat)
      requires Valid() && start <= end <= |providers| && |reasons| == end - start
      requires Settled(log) <= since <= tick && AskedWithin(reasons, since, tick) && GroupVisited(log, start, end)
      requires AllExhausted(env, log, providers[start..end], reasons)
      modifies `log
      ensures Valid() && Exits(log) == old(Exits(log)) && JustCertified(log, providers, start, end, since)
      ensures log == old(log) + [log[|log| - 1]] && VisitedLast(log) == old(VisitedLast(log))
      ensures forall q: nat :: Covered(log, q) <==> old(Covered(log, q)) || start <= q < end
    {
      hide Sound, Visits, Exits, Failures, Calls, Budget, Current, Covered, StandingOf, Settled, VisitedLast;
      hide NoneVirtual, Ordered;
      ghost var e := Certified(providers[start..end], start, reasons, since, tick);
      Extend(env, log, e);
      Readings(log, e);
      log := log + [e];
    }
  }
}
