/**
 Runs of the retry loop, from its start, that enter a later group of a virtual route while a
 member of an earlier one has its budget left and no check was made; and the lists for which there
 are any.
 */
module RetryRuns {
  import opened Collections
  import opened Providers
  import opened Routing
  import opened AttemptProviders
  import opened RetryLog
  import opened RetryLoop
  import opened RetrySteps
  import opened RetryGroups

  // ---------- a run under way ----------

  // The configuration holds this chain, every provider has a pool with one key, `limited` says
  // when it is limited, and every attempt ends alike.
  function Surroundings(list: seq<Provider>, limited: (string, nat) -> bool, attempt: Attempt): Environment {
    Environment(
      (name, at) => 1, (name, at) => true, limited, at => attempt, at => Chain(list), (at, group) => [],
      (at, ps) => ps, false)
  }

  function Chain(list: seq<Provider>): World {
    World(list, [], p => true, false, p => true)
  }

  lemma {:induction false} AllKept(ps: seq<Provider>)
    ensures Kept(ps, p => true) == ps
  {
    if ps != [] { AllKept(ps[..|ps| - 1]); }
  }

  lemma ChainFound(list: seq<Provider>)
    requires list != []
    ensures Available(Chain(list), false) == Found(list)
  {
    AllKept(list);
    assert Kept(list, Chain(list).fitsTokens) == Kept(list, p => true);
  }

  // Only `list` came into force, and nothing was called or failed.
  ghost predicate Quiet(log: seq<Event>, list: seq<Provider>) {
    forall i :: 0 <= i < |log| ==>
      (log[i].Installed? ==> log[i].list == list) && !log[i].Called? && !log[i].Failed? && !log[i].LeftVirtual?
  }

  // No check has certified anything at or behind `k`.
  ghost predicate CertifiedTo(log: seq<Event>, k: nat) {
    forall i :: 0 <= i < |log| && log[i].Certified? ==> log[i].from + |log[i].members| <= k
  }

  ghost predicate Uncertified(log: seq<Event>) {
    forall i :: 0 <= i < |log| ==> !log[i].Certified?
  }

  // Candidates were taken, and nothing else was done.
  ghost predicate OnlyVisits(before: seq<Event>, after: seq<Event>) {
    before <= after && forall i :: |before| <= i < |after| ==> after[i].Visited?
  }

  lemma VisitsKeep(before: seq<Event>, after: seq<Event>, list: seq<Provider>, k: nat)
    requires OnlyVisits(before, after)
    ensures Quiet(before, list) ==> Quiet(after, list)
    ensures CertifiedTo(before, k) ==> CertifiedTo(after, k)
    ensures Uncertified(before) ==> Uncertified(after)
  {
    assert forall i :: 0 <= i < |before| ==> after[i] == before[i];
  }

  lemma OneMoreVisit(before: seq<Event>, middle: seq<Event>, e: Event)
    requires OnlyVisits(before, middle) && e.Visited?
    ensures OnlyVisits(before, middle + [e])
  {
  }

  lemma QuietNext(log: seq<Event>, e: Event, list: seq<Provider>, k: nat)
    requires Quiet(log, list) && (e.Visited? || e.Certified?)
    ensures Quiet(log + [e], list)
    ensures CertifiedTo(log, k) && (e.Certified? ==> e.from + |e.members| <= k) ==> CertifiedTo(log + [e], k)
  {
  }

  ghost predicate OnList(run: RetryRun, list: seq<Provider>)
    reads run, run.handler, run.handler.cursors
  {
    && run.Valid() && run.NothingSkipped() && run.handler.Valid()
    && run.providers == list && run.isVirtual && run.counts == map[] && Budgeted(list, run.budgets)
    && (run.maxAttempts >= |list| || run.maxAttempts >= MAX_ATTEMPTS)
    && Quiet(run.log, list)
  }

  lemma LimitEnough(list: seq<Provider>, budgets: map<string, nat>)
    ensures AttemptLimit(0, list, budgets) >= |list| || AttemptLimit(0, list, budgets) >= MAX_ATTEMPTS
  {
  }

  lemma FirstLog(log: seq<Event>, list: seq<Provider>)
    requires OnlyInstalled(log, list)
    ensures Quiet(log, list) && CertifiedTo(log, 0) && Uncertified(log)
  {
  }

  lemma AskedBudgeted(list: seq<Provider>, budgets: map<string, nat>)
    requires budgets.Keys == AskedNames(list)
    ensures Budgeted(list, budgets)
  {
  }

  lemma RouteVirtual(list: seq<Provider>)
    requires OnVirtualRoute(list)
    ensures list != [] && !NoneVirtual(list)
  {
  }

  // A request whose first list is `list`.
  method StartOn(list: seq<Provider>, limited: (string, nat) -> bool, attempt: Attempt, model: string)
    returns (run: RetryRun)
    requires Plain(list, FixedPriority) && OnVirtualRoute(list)
    ensures fresh(run) && fresh(run.handler) && fresh(run.handler.cursors)
    ensures run.env == Surroundings(list, limited, attempt)
    ensures OnList(run, list) && run.index == 0 && run.attempts == 0 && CertifiedTo(run.log, 0) && Uncertified(run.log)
    ensures run.tick == 1 + |AskedNames(list)|
  {
    hide Plain, OnVirtualRoute, AskedNames, Available, OnlyInstalled, AttemptLimit, Agrees, CoveredBelow;
    hide Budgeted, NoneVirtual;
    RouteVirtual(list);
    ChainFound(list);
    var handler := new ModelRequestHandler();
    run := new RetryRun(Surroundings(list, limited, attempt), handler, model, FixedPriority);
    var raised := run.Begin([]);
    FirstLog(run.log, list);
    AskedBudgeted(list, run.budgets);
    LimitEnough(list, run.budgets);
    assert |run.budgets| == |run.budgets.Keys|;
  }

  lemma ClockTick(env: Environment, log: seq<Event>, e: Event, attempts: nat, providers: seq<Provider>,
      counts: map<string, nat>, budgets: map<string, nat>, tick: nat, isVirtual: bool, leftVirtual: bool)
    requires Agrees(env, log + [e], attempts, providers, counts, budgets, tick, isVirtual, leftVirtual)
    ensures e.at <= tick
  {
  }

  // A candidate is passed over.
  method PassOne(run: RetryRun, list: seq<Provider>)
    requires OnList(run, list) && run.index < |list| && run.attempts <= run.index && run.attempts < MAX_ATTEMPTS
    requires run.FateNow(run.index).Passed?
    modifies run, run.handler.cursors
    ensures OnList(run, list) && run.index == old(run.index) + 1 && run.attempts == old(run.attempts) + 1
    ensures run.budgets == old(run.budgets) && run.tick >= old(run.tick)
    ensures run.log == old(run.log) + [Visited(old(run.index), old(run.tick))]
  {
    hide Agrees, CoveredBelow, Budgeted, FateOf, Unmarked, Quiet, CertifiedTo;
    Wraps(run.index, |list|);
    ghost var before, e := run.log, Visited(run.index, run.tick);
    var flow := run.Turn();
    QuietNext(before, e, list, 0);
    ClockTick(run.env, before, e, run.attempts, list, run.counts, run.budgets, run.tick, run.isVirtual,
      run.leftVirtual);
  }

  // The cursor walks to `to` past candidates that are all passed over.
  method Walk(run: RetryRun, list: seq<Provider>, to: nat)
    requires OnList(run, list) && run.index <= to < |list|
    requires run.attempts <= run.index && run.attempts + (to - run.index) < MAX_ATTEMPTS
    requires forall k: nat, at: nat :: run.index <= k < to && at >= run.tick ==>
      FateOf(run.env, list, k, map[], run.budgets, at, true).Passed?
    modifies run, run.handler.cursors
    ensures OnList(run, list) && run.index == to && run.attempts == old(run.attempts) + (to - old(run.index))
    ensures OnlyVisits(old(run.log), run.log) && run.budgets == old(run.budgets)
  {
    hide Agrees, CoveredBelow, Budgeted, FateOf, Quiet;
    while run.index < to
      invariant OnList(run, list) && old(run.index) <= run.index <= to && run.budgets == old(run.budgets)
      invariant run.tick >= old(run.tick) && run.attempts == old(run.attempts) + (run.index - old(run.index))
      invariant OnlyVisits(old(run.log), run.log)
      decreases |list| - run.index
    {
      ghost var before, e := run.log, Visited(run.index, run.tick);
      PassOne(run, list);
      OneMoreVisit(old(run.log), before, e);
    }
  }

  // The next candidate is taken.
  method Enter(run: RetryRun, list: seq<Provider>)
    requires OnList(run, list) && run.index < |list| && run.attempts <= run.index && run.attempts < MAX_ATTEMPTS
    modifies run
    ensures run.Valid() && run.providers == list && run.counts == map[] && run.budgets == old(run.budgets)
    ensures run.log == old(run.log) + [Visited(old(run.index), old(run.tick))]
    ensures run.isVirtual && run.handler.Valid()
  {
    hide Agrees, CoveredBelow, Budgeted, Quiet;
    Wraps(run.index, |list|);
    var current := run.Visit();
  }

  // ---------- what becomes of candidates in such surroundings ----------

  // Every provider with keys of its own has some of its budget left.
  ghost predicate Fresh(ps: seq<Provider>, budgets: map<string, nat>) {
    forall i :: 0 <= i < |ps| && !ps[i].byok ==> ps[i].name in budgets && budgets[ps[i].name] >= 1
  }

  lemma {:induction false} CheckPassed(env: Environment, members: seq<Provider>, budgets: map<string, nat>, tick: nat)
    requires Fresh(members, budgets)
    requires forall i :: 0 <= i < |members| ==>
      !members[i].byok && forall at: nat :: LimitedAt(env, members[i].name, at)
    ensures CheckPasses(env, members, map[], budgets, tick)
    decreases |members|
  {
    hide LimitedAt;
    if members != [] {
      CheckPassed(env, members[1..], budgets, tick + 1);
      assert LimitedAt(env, members[0].name, tick);
    }
  }

  lemma CheckFails(env: Environment, members: seq<Provider>, budgets: map<string, nat>, tick: nat)
    requires Fresh(members, budgets) && members != []
    requires members[0].byok || !LimitedAt(env, members[0].name, tick)
    ensures !CheckPasses(env, members, map[], budgets, tick)
  {
  }

  // A limited group is jumped.
  lemma LimitedJumps(env: Environment, ps: seq<Provider>, at: nat, budgets: map<string, nat>, tick: nat)
    requires Fresh(ps, budgets) && !env.override && Begins(ps, at) && GroupEnd(ps, at) < |ps|
    requires forall i: nat :: at <= i < GroupEnd(ps, at) ==>
      !ps[i].byok && forall t: nat :: LimitedAt(env, ps[i].name, t)
    ensures FateOf(env, ps, at, map[], budgets, tick, true).Jumped?
  {
    hide LimitedAt, CheckPasses;
    var group := GroupOf(ps, at);
    assert forall i :: 0 <= i < |group| ==> group[i] == ps[at + i];
    CheckPassed(env, group, budgets, tick + 1);
    assert LimitedAt(env, ps[at].name, tick);
  }

  // A candidate whose keys are free is passed over if its attempt is skipped.
  lemma SkippedPasses(env: Environment, ps: seq<Provider>, at: nat, budgets: map<string, nat>, tick: nat)
    requires Fresh(ps, budgets) && at < |ps| && forall t: nat :: env.attempt(t).Skipped?
    requires ps[at].byok || !LimitedAt(env, ps[at].name, tick)
    ensures FateOf(env, ps, at, map[], budgets, tick, true).Passed?
  {
  }

  // A limited candidate is passed over if the head of its group has a key free just after.
  lemma LimitedPasses(env: Environment, ps: seq<Provider>, at: nat, budgets: map<string, nat>, tick: nat)
    requires Fresh(ps, budgets) && !env.override && at < |ps| && |ps| > 1 && !ps[at].byok
    requires LimitedAt(env, ps[at].name, tick)
    requires var head := ps[GroupStart(ps, at)]; head.byok || !LimitedAt(env, head.name, tick + 1)
    ensures FateOf(env, ps, at, map[], budgets, tick, true).Passed?
  {
    hide LimitedAt, CheckPasses;
    var group := GroupOf(ps, at);
    assert group[0] == ps[GroupStart(ps, at)];
    assert forall i :: 0 <= i < |group| ==> group[i] == ps[GroupStart(ps, at) + i];
    CheckFails(env, group, budgets, tick + 1);
  }

  lemma FreshBudgets(env: Environment, log: seq<Event>, attempts: nat, ps: seq<Provider>,
      counts: map<string, nat>, budgets: map<string, nat>, tick: nat, isVirtual: bool, leftVirtual: bool)
    requires Agrees(env, log, attempts, ps, counts, budgets, tick, isVirtual, leftVirtual) && Budgeted(ps, budgets)
    ensures Fresh(ps, budgets)
    ensures counts == map[] ==> forall i :: 0 <= i < |ps| ==> !SpentAt(log, ps[i])
  {
  }

  // ---------- the edge between two questions ----------

  // All keys are limited, except that those of `head` recover after moment `since`.
  function Recovers(head: string, since: nat): (string, nat) -> bool {
    (name, at) => !(name == head && at != since)
  }

  /** A limited candidate's check finds the head of its group free again, so the candidate is
      passed over; behind the last of the group the next group is entered. Nobody was called,
      counted or certified, although every attempt would have been answered. */
  method EdgeBetweenQuestions(list: seq<Provider>, model: string) returns (run: RetryRun)
    requires Plain(list, FixedPriority) && OnVirtualRoute(list)
    requires GroupEnd(list, 0) < |list| && GroupEnd(list, 0) < MAX_ATTEMPTS
    requires forall k: nat :: k < GroupEnd(list, 0) ==> !list[k].byok
    ensures fresh(run) && Sound(run.env, run.log) && forall t: nat :: run.env.attempt(t).Answered?
    ensures run.log != [] && run.log[|run.log| - 1].Visited? && run.log[|run.log| - 1].position == GroupEnd(list, 0)
    ensures Current(run.log) == list && Quiet(run.log, list)
    ensures Uncertified(run.log) && forall i :: 0 <= i < |list| ==> !SpentAt(run.log, list[i])
  {
    hide OnVirtualRoute, AskedNames, Agrees, CoveredBelow, Budgeted, Quiet, CertifiedTo, FateOf, Fresh, SpentAt;
    hide Sound, Visits, Exits, Failures, Calls, Budget, Current, Covered, StandingOf, Settled, VisitedLast;
    var since, end := 1 + |AskedNames(list)|, GroupEnd(list, 0);
    run := StartOn(list, Recovers(list[0].name, since), Answered, model);
    FreshBudgets(run.env, run.log, run.attempts, list, run.counts, run.budgets, run.tick, run.isVirtual,
      run.leftVirtual);
    EdgePasses(run.env, list, since, Answered, run.budgets, 0, since);
    ghost var begun := run.log;
    PassOne(run, list);
    OneMoreVisit(begun, begun, run.log[|begun|]);
    forall k: nat, at: nat | run.index <= k < end && at >= run.tick
      ensures FateOf(run.env, list, k, map[], run.budgets, at, true).Passed?
    {
      EdgePasses(run.env, list, since, Answered, run.budgets, k, at);
    }
    ghost var passed := run.log;
    Walk(run, list, end);
    ghost var walked := run.log;
    Enter(run, list);
    VisitsJoin(begun, passed, walked, run.log);
    VisitsKeep(begun, run.log, list, 0);
    AgreesOnSound(run.env, run.log, run.attempts, list, run.counts, run.budgets, run.tick, run.isVirtual,
      run.leftVirtual);
    FreshBudgets(run.env, run.log, run.attempts, list, run.counts, run.budgets, run.tick, run.isVirtual,
      run.leftVirtual);
  }

  lemma VisitsJoin(a: seq<Event>, b: seq<Event>, c: seq<Event>, d: seq<Event>)
    requires OnlyVisits(a, b) && OnlyVisits(b, c) && OnlyVisits(c, d)
    ensures OnlyVisits(a, d)
  {
    forall i | |a| <= i < |d|
      ensures d[i].Visited?
    {
      if i < |b| { assert d[i] == b[i]; } else if i < |c| { assert d[i] == c[i]; }
    }
  }

  // In a group of candidates with keys of their own each is passed over.
  lemma EdgePasses(env: Environment, list: seq<Provider>, since: nat, attempt: Attempt,
      budgets: map<string, nat>, k: nat, at: nat)
    requires list != [] && env == Surroundings(list, Recovers(list[0].name, since), attempt) && Fresh(list, budgets)
    requires DistinctNames(list) && k < GroupEnd(list, 0) < |list| && !list[k].byok && at >= since
    requires k == 0 ==> at == since
    ensures FateOf(env, list, k, map[], budgets, at, true).Passed?
  {
    hide FateOf, Fresh;
    SameBounds(list, 0, k);
    LimitedPasses(env, list, k, budgets, at);
  }

  // ---------- the lists on which groups are spent in order ----------

  // A whole group is jumped in one attempt.
  method JumpOne(run: RetryRun, list: seq<Provider>)
    requires OnList(run, list) && Begins(list, run.index) && run.attempts <= run.index && run.attempts < MAX_ATTEMPTS
    requires run.FateNow(run.index).Jumped?
    modifies run, run.handler.cursors
    ensures OnList(run, list) && run.index == GroupEnd(list, old(run.index)) && run.attempts == old(run.attempts) + 1
    ensures run.budgets == old(run.budgets)
    ensures CertifiedTo(old(run.log), old(run.index)) ==> CertifiedTo(run.log, run.index)
  {
    hide Agrees, CoveredBelow, Budgeted, FateOf, Unmarked, Quiet, CertifiedTo, GroupStart, GroupEnd;
    Wraps(run.index, |list|);
    ghost var before, e := run.log, Visited(run.index, run.tick);
    ghost var start := run.index;
    var flow := run.Turn();
    ghost var last := run.log[|run.log| - 1];
    QuietNext(before, e, list, run.index);
    QuietNext(before + [e], last, list, run.index);
    if CertifiedTo(before, start) { CertifiedFurther(before, start, run.index); }
  }

  lemma CertifiedFurther(log: seq<Event>, k: nat, more: nat)
    requires CertifiedTo(log, k) && k <= more
    ensures CertifiedTo(log, more)
  {
  }

  // All keys of the first `a` candidates are limited all the time.
  function LimitedFirst(list: seq<Provider>, a: nat): (string, nat) -> bool
    requires a <= |list|
  {
    var names := set i | 0 <= i < a :: list[i].name;
    (name, at) => name in names
  }

  lemma LimitedWhich(list: seq<Provider>, a: nat, k: nat, at: nat)
    requires DistinctNames(list) && a <= |list| && k < |list|
    ensures LimitedFirst(list, a)(list[k].name, at) <==> k < a
  {
  }

  // The groups before `a` are jumped one by one.
  method JumpTo(run: RetryRun, list: seq<Provider>, a: nat)
    requires OnList(run, list) && run.index == 0 && run.attempts == 0 && CertifiedTo(run.log, 0)
    requires Begins(list, a) && Cheapest(list, a) < MAX_ATTEMPTS && !HasByok(list, 0, a)
    requires DistinctNames(list) && Fresh(list, run.budgets)
    requires run.env == Surroundings(list, LimitedFirst(list, a), Skipped)
    modifies run, run.handler.cursors
    ensures OnList(run, list) && run.index == a && run.attempts == Cheapest(list, a) <= a
    ensures CertifiedTo(run.log, a) && run.budgets == old(run.budgets)
  {
    hide Agrees, CoveredBelow, Budgeted, FateOf, Quiet, CertifiedTo, GroupStart, GroupEnd, Fresh;
    while run.index < a
      invariant OnList(run, list) && run.index <= a && Begins(list, run.index) && run.budgets == old(run.budgets)
      invariant run.attempts == Cheapest(list, run.index) <= run.index && CertifiedTo(run.log, run.index)
      decreases a - run.index
    {
      GroupsApart(list, run.index, a);
      NextGroup(list, run.index);
      CheapestGrows(list, run.index, a);
      GroupLimited(list, a, run.index, run.budgets, run.tick);
      JumpOne(run, list);
    }
  }

  lemma GroupLimited(list: seq<Provider>, a: nat, at: nat, budgets: map<string, nat>, tick: nat)
    requires a <= |list| && !HasByok(list, 0, a) && DistinctNames(list) && Fresh(list, budgets)
    requires Begins(list, at) && GroupEnd(list, at) <= a < |list|
    ensures FateOf(Surroundings(list, LimitedFirst(list, a), Skipped), list, at, map[], budgets, tick, true).Jumped?
    ensures Passage(list, at, GroupEnd(list, at)) == 1
  {
    hide GroupStart, GroupEnd, Fresh, FateOf;
    var env := Surroundings(list, LimitedFirst(list, a), Skipped);
    forall i: nat | at <= i < GroupEnd(list, at)
      ensures !list[i].byok && forall t: nat :: LimitedAt(env, list[i].name, t)
    {
      forall t: nat
        ensures LimitedAt(env, list[i].name, t)
      {
        LimitedWhich(list, a, i, t);
      }
    }
    LimitedJumps(env, list, at, budgets, tick);
  }

  // A request of which a group that can be walked through is left unspent.
  method LeaveUnspent(list: seq<Provider>, model: string, a: nat) returns (run: RetryRun)
    requires Plain(list, FixedPriority) && OnVirtualRoute(list) && WalkableGroup(list, a) && !HasByok(list, 0, a)
    ensures LogOn(run.env, run.log, list) && Quiet(run.log, list) && !SpendsFirst(run.log)
  {
    hide OnVirtualRoute, AskedNames, Agrees, CoveredBelow, Budgeted, Quiet, CertifiedTo, FateOf, Fresh;
    hide SpentAt, SpendsFirst;
    hide Sound, Visits, Exits, Failures, Calls, Budget, Current, Covered, StandingOf, Settled, VisitedLast;
    hide GroupStart, GroupEnd, Cheapest, HasByok;
    var end := GroupEnd(list, a);
    run := StartOn(list, LimitedFirst(list, a), Skipped, model);
    FreshBudgets(run.env, run.log, run.attempts, list, run.counts, run.budgets, run.tick, run.isVirtual,
      run.leftVirtual);
    JumpTo(run, list, a);
    forall k: nat, at: nat | run.index <= k < end && at >= run.tick
      ensures FateOf(run.env, list, k, map[], run.budgets, at, true).Passed?
    {
      LimitedWhich(list, a, k, at);
      SkippedPasses(run.env, list, k, run.budgets, at);
    }
    ghost var jumped := run.log;
    Walk(run, list, end);
    ghost var walked := run.log;
    VisitsKeep(jumped, walked, list, a);
    FreshBudgets(run.env, walked, run.attempts, list, run.counts, run.budgets, run.tick, run.isVirtual,
      run.leftVirtual);
    AgreesOnSound(run.env, walked, run.attempts, list, run.counts, run.budgets, run.tick, run.isVirtual,
      run.leftVirtual);
    ghost var e := Visited(end, run.tick);
    Enter(run, list);
    QuietNext(walked, e, list, a);
    AgreesOnSound(run.env, run.log, run.attempts, list, run.counts, run.budgets, run.tick, run.isVirtual,
      run.leftVirtual);
    QuietLog(run.env, run.log, list);
    Unspent(walked, e, list, a);
  }

  lemma QuietLog(env: Environment, log: seq<Event>, list: seq<Provider>)
    requires Sound(env, log) && !env.override && Quiet(log, list)
    ensures LogOn(env, log, list)
  {
  }

  lemma {:induction false} NotCertified(log: seq<Event>, a: nat)
    requires CertifiedTo(log, a)
    ensures !CertifiedSince(log, a)
  {
    if log != [] { NotCertified(log[..|log| - 1], a); }
  }

  // The first candidate behind a group is taken, and the group's head is not finished.
  lemma Unspent(log: seq<Event>, e: Event, list: seq<Provider>, a: nat)
    requires Current(log) == list && ByPriority(list) && Begins(list, a) && GroupEnd(list, a) < |list|
    requires e.Visited? && e.position == GroupEnd(list, a) && CertifiedTo(log, a) && !SpentAt(log, list[a])
    ensures !SpendsFirst(log + [e])
  {
    hide GroupStart, GroupEnd, SpentAt, CertifiedTo, Current;
    NotCertified(log, a);
    EndBounds(list, a);
    var all, b := log + [e], GroupEnd(list, a);
    assert all[..|log|] == log && all[|log|] == e;
    assert list[a].Priority() <= list[b].Priority();
    assert !Finished(log, a) && !EarlierFinished(log, b);
  }

  /** Whether groups are spent in order on a list: they are in every log of a request on its own
      route, whatever its surroundings do, or else `run` is one that breaks it. They are exactly
      when no group but the last can be walked through in time; with at most 500 candidates,
      exactly when all of them share one priority. */
  method SpentFirstExact(list: seq<Provider>, model: string) returns (unspent: bool, run: RetryRun)
    requires Plain(list, FixedPriority) && OnVirtualRoute(list)
    ensures unspent <==> Walkable(list)
    ensures |list| <= MAX_ATTEMPTS ==> (unspent <==> !OneGroup(list))
    ensures !unspent ==> forall env: Environment, log: seq<Event> :: LogOn(env, log, list) ==> SpendsFirst(log)
    ensures unspent ==> LogOn(run.env, run.log, list) && Quiet(run.log, list) && !SpendsFirst(run.log)
  {
    hide Plain, LogOn, Quiet, SpendsFirst, WalkableGroup, OneGroup, HasByok, GroupStart;
    RouteVirtual(list);
    var first := FirstWalk(list, 0, 0);
    FirstWalkStart(list);
    if |list| <= MAX_ATTEMPTS { WalkableShort(list); }
    match first {
      case Some(a) =>
        run := LeaveUnspent(list, model, a);
        return true, run;
      case None =>
        forall env: Environment, log: seq<Event> | LogOn(env, log, list)
          ensures SpendsFirst(log)
        {
          SpentOn(env, log, list);
        }
        run := StartOn(list, (name, at) => false, Answered, model);
        return false, run;
    }
  }

  lemma FirstWalkStart(list: seq<Provider>)
    requires list != []
    ensures var first := FirstWalk(list, 0, 0);
      && (first.Some? ==> WalkableGroup(list, first.value) && !HasByok(list, 0, first.value))
      && (first.Some? <==> Walkable(list))
  {
    FirstWalkFacts(list, 0);
  }
}
