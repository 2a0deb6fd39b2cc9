/**
 What a run of the retry loop in `core/handler.py` writes down, and what every such log obeys.

 The surroundings are adversarial: whenever the program looks at a key pool, at the
 configuration or at the outcome of an attempt, `Environment` may answer anything, so keys cool
 down and recover and candidate lists shrink and change at any moment. `Sound` states what every
 log obeys; the loop in RetryLoop.dfy is proved to write sound logs.
 */
module RetryLog {
  import opened Collections
  import opened Providers
  import opened Routing

  const MAX_ATTEMPTS := 500

  /** How an attempt on a provider ends. `called` tells whether the upstream was reached,
      `retry` whether the failure may be retried, `rebuild` whether it cools the channel down. */
  datatype Attempt = Answered | Cancelled | Skipped | Failing(called: bool, retry: bool, rebuild: bool)

  /** Every answer may depend on the moment, the number of questions asked before. `override`
      says whether the request brings its own candidates. */
  datatype Environment = Environment(
    enabledKeys: (string, nat) -> nat,
    hasPool: (string, nat) -> bool,
    allLimited: (string, nat) -> bool,
    attempt: nat -> Attempt,
    world: nat -> World,
    draws: (nat, nat) -> seq<string>,
    sample: (nat, seq<Provider>) -> seq<Provider>,
    override: bool)

  /** A group check's finding on a candidate; `at` is the moment it was asked about. */
  datatype Reason = Spent | AllLimited(at: nat)

  /** `at` is the moment of the event, which is the number of questions asked before it. */
  datatype Event =
    | Installed(list: seq<Provider>, at: nat)              // a candidate list is in force
    | Visited(position: nat, at: nat)                      // taken as the current candidate
    | Froze(name: string, budget: nat, at: nat)            // first look at a provider's keys
    | Certified(members: seq<Provider>, from: nat, reasons: seq<Reason>, since: nat, at: nat)
                                                           // a group check begun at `since` found them exhausted
    | Called(name: string, byok: bool, at: nat)            // the upstream is asked
    | Failed(name: string, at: nat)
    | LeftVirtual(at: nat)

  // ---------- priority groups ----------

  // The run of equal priorities around a position.
  function GroupStart(ps: seq<Provider>, at: nat): (r: nat)
    requires at < |ps|
    ensures r <= at
  {
    if at > 0 && ps[at - 1].Priority() == ps[at].Priority() then GroupStart(ps, at - 1) else at
  }

  function GroupEnd(ps: seq<Provider>, at: nat): (r: nat)
    requires at < |ps|
    ensures at < r <= |ps|
    decreases |ps| - at
  {
    if at + 1 < |ps| && ps[at + 1].Priority() == ps[at].Priority() then GroupEnd(ps, at + 1) else at + 1
  }

  /** In a list in priority order that run is the whole priority group. */
  lemma GroupIsPriority(ps: seq<Provider>, at: nat, k: nat)
    requires ByPriority(ps) && at < |ps| && k < |ps|
    ensures GroupStart(ps, at) <= k < GroupEnd(ps, at) <==> ps[k].Priority() == ps[at].Priority()
  {
    StartIsFirst(ps, at, k);
    EndIsLast(ps, at, k);
  }

  lemma {:induction false} StartIsFirst(ps: seq<Provider>, at: nat, k: nat)
    requires ByPriority(ps) && at < |ps| && k < |ps|
    ensures k <= at ==> (GroupStart(ps, at) <= k <==> ps[k].Priority() == ps[at].Priority())
  {
    if at > 0 && ps[at - 1].Priority() == ps[at].Priority() {
      StartIsFirst(ps, at - 1, k);
    }
  }

  lemma {:induction false} EndIsLast(ps: seq<Provider>, at: nat, k: nat)
    requires ByPriority(ps) && at < |ps| && k < |ps|
    ensures k >= at ==> (k < GroupEnd(ps, at) <==> ps[k].Priority() == ps[at].Priority())
    decreases |ps| - at
  {
    if at + 1 < |ps| && ps[at + 1].Priority() == ps[at].Priority() {
      EndIsLast(ps, at + 1, k);
    }
  }

  // ---------- what a log says ----------

  function Visits(log: seq<Event>): nat {
    if log == [] then 0 else Visits(log[..|log| - 1]) + (if log[|log| - 1].Visited? then 1 else 0)
  }

  function Exits(log: seq<Event>): nat {
    if log == [] then 0 else Exits(log[..|log| - 1]) + (if log[|log| - 1].LeftVirtual? then 1 else 0)
  }

  predicate IsFailure(e: Event, name: string) {
    e.Failed? && e.name == name
  }

  function Failures(log: seq<Event>, name: string): nat {
    if log == [] then 0 else Failures(log[..|log| - 1], name) + (if IsFailure(log[|log| - 1], name) then 1 else 0)
  }

  predicate IsCall(e: Event, name: string) {
    e.Called? && e.name == name && !e.byok
  }

  // Upstream calls with the provider's own keys.
  function Calls(log: seq<Event>, name: string): nat {
    if log == [] then 0 else Calls(log[..|log| - 1], name) + (if IsCall(log[|log| - 1], name) then 1 else 0)
  }

  // The budget frozen for a provider, if it has been seen.
  function Budget(log: seq<Event>, name: string): Option<nat> {
    if log == [] then None
    else if log[|log| - 1].Froze? && log[|log| - 1].name == name then Some(log[|log| - 1].budget)
    else Budget(log[..|log| - 1], name)
  }

  function Current(log: seq<Event>): seq<Provider> {
    if log == [] then []
    else if log[|log| - 1].Installed? then log[|log| - 1].list
    else Current(log[..|log| - 1])
  }

  /** Whether a candidate has been taken, and its upstream asked, since the last visit. */
  datatype Standing = Idle | Taken(p: Provider) | Asked(p: Provider)

  function Stands(before: Standing, list: seq<Provider>, e: Event): Standing {
    match e
    case Visited(position, _) => if position < |list| then Taken(list[position]) else Idle
    case Called(_, _, _) => if before.Taken? then Asked(before.p) else before
    case Installed(_, _) => Idle
    case Failed(_, _) => Idle
    case _ => before
  }

  function StandingOf(log: seq<Event>): Standing {
    if log == [] then Idle
    else Stands(StandingOf(log[..|log| - 1]), Current(log[..|log| - 1]), log[|log| - 1])
  }

  // The position visited last, if any, since the list came into force.
  function VisitedLast(log: seq<Event>): Option<nat> {
    if log == [] || log[|log| - 1].Installed? then None
    else if log[|log| - 1].Visited? then Some(log[|log| - 1].position)
    else VisitedLast(log[..|log| - 1])
  }

  // All upstream calls, whoever's keys they use.
  function UpstreamCalls(log: seq<Event>): nat {
    if log == [] then 0 else UpstreamCalls(log[..|log| - 1]) + (if log[|log| - 1].Called? then 1 else 0)
  }

  // The moment of the last event.
  function Clock(log: seq<Event>): nat {
    if log == [] then 0 else log[|log| - 1].at
  }

  // The moment of the last event that is no first look at keys.
  function Settled(log: seq<Event>): nat {
    if log == [] then 0
    else if log[|log| - 1].Froze? then Settled(log[..|log| - 1])
    else log[|log| - 1].at
  }

  // The event examines position `q` of the list in force.
  predicate Examines(e: Event, q: nat) {
    (e.Visited? && e.position == q) || (e.Certified? && e.from <= q < e.from + |e.members|)
  }

  // Position `q` of the current list was visited, or certified by a group check.
  predicate Covered(log: seq<Event>, q: nat) {
    log != [] && !log[|log| - 1].Installed? && (Examines(log[|log| - 1], q) || Covered(log[..|log| - 1], q))
  }

  predicate NoneVirtual(ps: seq<Provider>) {
    forall i :: 0 <= i < |ps| ==> !ps[i].Virtual()
  }

  // A list of virtual candidates that the request did not bring itself is in chain order.
  ghost predicate Ordered(env: Environment, list: seq<Provider>) {
    env.override || NoneVirtual(list) || ByPriority(list)
  }

  // A group check's finding on one candidate.
  predicate Exhausted(env: Environment, log: seq<Event>, name: string, reason: Reason) {
    match reason
    case Spent => Budget(log, name).Some? && Failures(log, name) >= Budget(log, name).value
    case AllLimited(at) => env.hasPool(name, at) && env.allLimited(name, at)
  }

  // The candidates from `from` to `end` are the whole group of the one visited last.
  predicate GroupVisited(log: seq<Event>, from: nat, end: nat) {
    var at, list := VisitedLast(log), Current(log);
    at.Some? && at.value < |list| && from == GroupStart(list, at.value) && end == GroupEnd(list, at.value)
  }

  ghost predicate AllExhausted(env: Environment, log: seq<Event>, members: seq<Provider>, reasons: seq<Reason>) {
    && |members| == |reasons|
    && forall k :: 0 <= k < |members| ==> !members[k].byok && Exhausted(env, log, members[k].name, reasons[k])
  }

  // Every question behind these findings was asked in this stretch of time.
  predicate AskedWithin(reasons: seq<Reason>, since: nat, before: nat) {
    forall k :: 0 <= k < |reasons| && reasons[k].AllLimited? ==> since <= reasons[k].at < before
  }

  // The call goes to the candidate taken last, which has not been called since, and with keys
  // of its own only within its budget.
  predicate MayCall(log: seq<Event>, name: string, byok: bool) {
    var standing := StandingOf(log);
    && standing.Taken? && standing.p.name == name && standing.p.byok == byok
    && (!byok ==>
      && Budget(log, name).Some? && Failures(log, name) < Budget(log, name).value
      && Calls(log, name) <= Failures(log, name))
  }

  predicate MayFail(log: seq<Event>, name: string) {
    !StandingOf(log).Idle? && StandingOf(log).p.name == name
  }

  // The attempt behind a call or a failure was made just before it was logged.
  predicate Reaches(env: Environment, at: nat) {
    at > 0 &&
    var attempt := env.attempt(at - 1);
    attempt.Answered? || attempt.Cancelled? || (attempt.Failing? && attempt.called)
  }

  // The run is over: an attempt was answered or cancelled.
  predicate Over(env: Environment, log: seq<Event>) {
    log != [] && log[|log| - 1].Called? && log[|log| - 1].at > 0 && !env.attempt(log[|log| - 1].at - 1).Failing?
  }

  // What an event must obey, after the log `log`.
  ghost predicate Allowed(env: Environment, log: seq<Event>, e: Event) {
    Clock(log) <= e.at && !Over(env, log) &&
    match e
    case Installed(list, _) => (Exits(log) > 0 ==> NoneVirtual(list)) && Ordered(env, list)
    case Visited(position, _) =>
      && Visits(log) < MAX_ATTEMPTS
      && position < |Current(log)|
      && forall q: nat :: q < position ==> Covered(log, q)
    case Froze(name, budget, at) => Budget(log, name).None? && budget == Max(1, env.enabledKeys(name, at))
    case Certified(members, from, reasons, since, at) =>
      && from + |members| <= |Current(log)|
      && members == Current(log)[from..from + |members|]
      && AllExhausted(env, log, members, reasons)
      && Settled(log) <= since <= at && AskedWithin(reasons, since, at)
      && GroupVisited(log, from, from + |members|)
    case Called(name, byok, at) => MayCall(log, name, byok) && Reaches(env, at)
    case Failed(name, at) =>
      && MayFail(log, name) && at > 0 && env.attempt(at - 1).Failing?
      && (env.attempt(at - 1).called <==> StandingOf(log).Asked?)
    case LeftVirtual(_) => Exits(log) == 0
  }

  ghost predicate Sound(env: Environment, log: seq<Event>) {
    log == [] || (Sound(env, log[..|log| - 1]) && Allowed(env, log[..|log| - 1], log[|log| - 1]))
  }

  function Max(a: nat, b: nat): nat { if a < b then b else a }

  // ---------- what soundness means for whole runs ----------

  /** At most 500 attempts and one exit from the virtual route in a run, and never more upstream
      calls than attempts, calls with the user's own keys included. */
  lemma {:induction false} RunBounded(env: Environment, log: seq<Event>)
    requires Sound(env, log)
    ensures Visits(log) <= MAX_ATTEMPTS && Exits(log) <= 1
    ensures UpstreamCalls(log) + (if StandingOf(log).Taken? then 1 else 0) <= Visits(log)
  {
    hide Budget, Failures, Calls, Current, Covered, Settled, VisitedLast;
    if log != [] { RunBounded(env, log[..|log| - 1]); }
  }

  /** No provider is called with its own keys more often than its budget, even when keys recover
      meanwhile, and a budget once frozen never changes. */
  lemma {:induction false} CallsWithinBudget(env: Environment, log: seq<Event>, name: string)
    requires Sound(env, log)
    ensures Calls(log, name) <= Budget(log, name).GetOr(0)
    ensures forall k :: 0 <= k <= |log| && Budget(log[..k], name).Some? ==> Budget(log[..k], name) == Budget(log, name)
  {
    hide StandingOf, VisitedLast, Visits, Exits, Current, Covered, Settled;
    if log != [] {
      var init := log[..|log| - 1];
      CallsWithinBudget(env, init, name);
      forall k | 0 <= k <= |log| && Budget(log[..k], name).Some?
        ensures Budget(log[..k], name) == Budget(log, name)
      {
        if k < |log| {
          assert log[..k] == init[..k];
        } else {
          assert log[..k] == log;
        }
      }
    }
  }

  /** The budget is the number of keys enabled (at least one) at the one moment of the run at
      which the provider's keys were looked at for it, and that comes before any call with them. */
  lemma {:induction false} BudgetAtFirstSight(env: Environment, log: seq<Event>, name: string) returns (j: nat)
    requires Sound(env, log) && Budget(log, name).Some?
    ensures j < |log| && log[j].Froze? && log[j].name == name
    ensures Budget(log, name) == Some(Max(1, env.enabledKeys(name, log[j].at)))
    ensures forall m :: 0 <= m < |log| && log[m].Froze? && log[m].name == name ==> m == j
    ensures forall m :: 0 <= m < j ==> !IsCall(log[m], name)
  {
    hide StandingOf, VisitedLast, Visits, Exits, Current, Covered, Settled, Failures, Calls;
    var init, e := log[..|log| - 1], log[|log| - 1];
    if e.Froze? && e.name == name {
      j := |log| - 1;
      NeverFrozen(env, init, name);
    } else {
      j := BudgetAtFirstSight(env, init, name);
    }
  }

  lemma {:induction false} NeverFrozen(env: Environment, log: seq<Event>, name: string)
    requires Sound(env, log) && Budget(log, name).None?
    ensures forall m :: 0 <= m < |log| ==> !(log[m].Froze? && log[m].name == name) && !IsCall(log[m], name)
  {
    hide StandingOf, VisitedLast, Visits, Exits, Current, Covered, Settled, Failures, Calls;
    if log != [] { NeverFrozen(env, log[..|log| - 1], name); }
  }

  /** An upstream's answer, or the client's leaving, ends the run; a failure is one of a failing
      attempt. */
  lemma {:induction false} AnswerEndsRun(env: Environment, log: seq<Event>, j: nat)
    requires Sound(env, log) && j < |log|
    ensures log[j].Called? ==> Reaches(env, log[j].at) && (!env.attempt(log[j].at - 1).Failing? ==> j + 1 == |log|)
    ensures log[j].Failed? ==> log[j].at > 0 && env.attempt(log[j].at - 1).Failing?
  {
    hide StandingOf, VisitedLast, Visits, Exits, Current, Covered, Settled, Failures, Calls, Budget, Ordered;
    if j + 1 < |log| { AnswerEndsRun(env, log[..|log| - 1], j); }
  }

  /** Once the virtual route is left, no candidate list in force is virtual again. */
  lemma {:induction false} NeverVirtualAgain(env: Environment, log: seq<Event>, i: nat, j: nat)
    requires Sound(env, log) && i < j < |log| && log[i].LeftVirtual? && log[j].Installed?
    ensures NoneVirtual(log[j].list)
  {
    if j + 1 < |log| {
      NeverVirtualAgain(env, log[..|log| - 1], i, j);
    } else {
      ExitCounted(log[..|log| - 1], i);
    }
  }

  lemma {:induction false} ExitCounted(log: seq<Event>, i: nat)
    requires i < |log| && log[i].LeftVirtual?
    ensures Exits(log) > 0
  {
    if i < |log| - 1 { ExitCounted(log[..|log| - 1], i); }
  }

  /** A candidate is visited only after every earlier position of the list in force was visited
      or certified exhausted since that list was installed. The list is in chain order unless the
      request brought its own, so no later group is entered past an unexamined member of an
      earlier one. */
  lemma {:induction false} NoMemberPassedOver(env: Environment, log: seq<Event>, j: nat, q: nat)
    requires Sound(env, log) && j < |log| && log[j].Visited?
    ensures log[j].position < |Current(log[..j])|
    ensures q < log[j].position ==> Covered(log[..j], q)
    ensures Ordered(env, Current(log[..j]))
    ensures var list := Current(log[..j]);
      !env.override && q < |list| && list[q].Priority() < list[log[j].position].Priority() ==> Covered(log[..j], q)
  {
    SoundPrefix(env, log, j);
    CurrentOrdered(env, log[..j]);
    if j + 1 < |log| {
      var init := log[..|log| - 1];
      NoMemberPassedOver(env, init, j, q);
      assert init[..j] == log[..j];
    }
  }

  lemma {:induction false} CurrentOrdered(env: Environment, log: seq<Event>)
    requires Sound(env, log)
    ensures Ordered(env, Current(log))
  {
    if log != [] { CurrentOrdered(env, log[..|log| - 1]); }
  }

  lemma {:induction false} SoundPrefix(env: Environment, log: seq<Event>, k: nat)
    requires Sound(env, log) && k <= |log|
    ensures Sound(env, log[..k])
  {
    if k < |log| {
      SoundPrefix(env, log[..|log| - 1], k);
      assert log[..|log| - 1][..k] == log[..k];
    } else {
      assert log[..k] == log;
    }
  }

  // The list in force came into force at some event, and nothing settled since is older.
  lemma {:induction false} InForce(env: Environment, log: seq<Event>) returns (i: nat)
    requires Sound(env, log) && Current(log) != []
    ensures i < |log| && log[i].Installed? && log[i].list == Current(log) && log[i].at <= Settled(log) <= Clock(log)
    ensures forall m :: i < m < |log| ==> !log[m].Installed?
  {
    hide StandingOf, VisitedLast, Visits, Exits, Covered, Failures, Calls, Budget;
    if log[|log| - 1].Installed? {
      i := |log| - 1;
    } else {
      i := InForce(env, log[..|log| - 1]);
    }
  }

  /** What being covered means: since the list came into force at event `i`, the position was
      visited, or a group check found the candidate spent or all its keys limited; the check
      began after the list came into force and asked about the keys while it ran. */
  lemma {:induction false} CoveredMeans(env: Environment, log: seq<Event>, q: nat) returns (i: nat, k: nat)
    requires Sound(env, log) && Covered(log, q)
    ensures i < k < |log| && log[i].Installed? && log[i].list == Current(log)
    ensures forall m :: i < m < |log| ==> !log[m].Installed?
    ensures (log[k].Visited? && log[k].position == q) || CertifiedAt(env, log[..k], log[k], q)
    ensures log[k].Certified? ==> log[i].at <= log[k].since <= log[k].at
  {
    hide Over, Reaches, MayCall, MayFail, Ordered;
    hide StandingOf, VisitedLast, Visits, Exits, Failures, Calls, Budget;
    var init, e := log[..|log| - 1], log[|log| - 1];
    if Examines(e, q) {
      k := |log| - 1;
      i := InForce(env, init);
      if e.Certified? { assert e.members[q - e.from] == Current(init)[q]; }
    } else {
      i, k := CoveredMeans(env, init, q);
      assert init[..k] == log[..k];
    }
  }

  // The check `e` found the candidate at `q` spent, or all its keys limited when it asked.
  predicate CertifiedAt(env: Environment, log: seq<Event>, e: Event, q: nat) {
    && e.Certified? && e.from <= q < e.from + |e.reasons| && q < |Current(log)|
    && !Current(log)[q].byok && Exhausted(env, log, Current(log)[q].name, e.reasons[q - e.from])
    && AskedWithin(e.reasons, e.since, e.at)
  }

  // The visit behind a candidate taken.
  lemma {:induction false} TakenAt(env: Environment, log: seq<Event>) returns (k: nat)
    requires Sound(env, log) && !StandingOf(log).Idle?
    ensures k < |log| && log[k].Visited? && log[k].position < |Current(log[..k])|
    ensures Current(log[..k])[log[k].position] == StandingOf(log).p
    ensures forall m :: k < m < |log| ==> !log[m].Visited? && !log[m].Installed?
    ensures StandingOf(log).Taken? ==> forall m :: k < m < |log| ==> !log[m].Called?
  {
    hide Visits, Exits, Covered, Failures, Calls, Budget, Settled, VisitedLast;
    var init, e := log[..|log| - 1], log[|log| - 1];
    if e.Visited? {
      k := |log| - 1;
    } else {
      k := TakenAt(env, init);
      assert init[..k] == log[..k];
    }
  }

  /** Every upstream call belongs to a visit of its own, under the list then in force; so at the
      time of a call every earlier position, and on a virtual route every member of an earlier
      group, had been visited or certified exhausted. */
  lemma CallTakesTurn(env: Environment, log: seq<Event>, j: nat) returns (k: nat)
    requires Sound(env, log) && j < |log| && log[j].Called?
    ensures k < j && log[k].Visited? && log[k].position < |Current(log[..k])|
    ensures var p := Current(log[..k])[log[k].position];
      p.name == log[j].name && p.byok == log[j].byok
    ensures forall m :: k < m < j ==> !log[m].Visited? && !log[m].Installed? && !log[m].Called?
    ensures forall q: nat :: q < log[k].position ==> Covered(log[..k], q)
    ensures var list := Current(log[..k]);
      !env.override ==> forall q: nat :: q < |list| && list[q].Priority() < list[log[k].position].Priority() ==>
        Covered(log[..k], q)
  {
    hide Sound, StandingOf, Current, Covered, Ordered, Allowed;
    SoundPrefix(env, log, j + 1);
    var upTo := log[..j + 1];
    assert upTo[..|upTo| - 1] == log[..j] && upTo[|upTo| - 1] == log[j];
    CalledAllowed(env, upTo);
    k := TakenAt(env, log[..j]);
    assert log[..j][..k] == log[..k];
    forall q: nat
      ensures q < log[k].position ==> Covered(log[..k], q)
      ensures var list := Current(log[..k]);
        !env.override && q < |list| && list[q].Priority() < list[log[k].position].Priority() ==> Covered(log[..k], q)
    {
      NoMemberPassedOver(env, log, k, q);
    }
  }

  lemma CalledAllowed(env: Environment, log: seq<Event>)
    requires Sound(env, log) && log != [] && log[|log| - 1].Called?
    ensures var init, e := log[..|log| - 1], log[|log| - 1];
      && Sound(env, init) && StandingOf(init).Taken?
      && StandingOf(init).p.name == e.name && StandingOf(init).p.byok == e.byok
  {
  }

  lemma Extend(env: Environment, log: seq<Event>, e: Event)
    requires Sound(env, log) && Allowed(env, log, e)
    ensures Sound(env, log + [e])
  {
    assert (log + [e])[..|log|] == log;
  }

  // How each reading of the log changes with one more event.
  lemma Readings(log: seq<Event>, e: Event)
    ensures Visits(log + [e]) == Visits(log) + (if e.Visited? then 1 else 0)
    ensures Exits(log + [e]) == Exits(log) + (if e.LeftVirtual? then 1 else 0)
    ensures forall name :: Failures(log + [e], name) == Failures(log, name) + (if IsFailure(e, name) then 1 else 0)
    ensures forall name :: Calls(log + [e], name) == Calls(log, name) + (if IsCall(e, name) then 1 else 0)
    ensures forall name ::
      Budget(log + [e], name) == if e.Froze? && e.name == name then Some(e.budget) else Budget(log, name)
    ensures Current(log + [e]) == if e.Installed? then e.list else Current(log)
    ensures StandingOf(log + [e]) == Stands(StandingOf(log), Current(log), e)
    ensures VisitedLast(log + [e]) ==
      if e.Installed? then None else if e.Visited? then Some(e.position) else VisitedLast(log)
    ensures Clock(log + [e]) == e.at && Settled(log + [e]) == if e.Froze? then Settled(log) else e.at
    ensures forall q: nat :: Covered(log + [e], q) <==> !e.Installed? && (Examines(e, q) || Covered(log, q))
  {
    assert (log + [e])[..|log|] == log;
  }

  lemma NothingLogged(env: Environment)
    ensures Sound(env, []) && Visits([]) == 0 && Exits([]) == 0 && Current([]) == [] && StandingOf([]).Idle?
    ensures Settled([]) == 0
    ensures forall name :: Failures([], name) == 0 && Calls([], name) == 0 && Budget([], name).None?
  {
  }

  // The same candidates are in force, with the same ones examined.
  ghost predicate SameGround(before: seq<Event>, after: seq<Event>) {
    && Current(after) == Current(before) && Exits(after) == Exits(before)
    && StandingOf(after) == StandingOf(before) && Settled(after) == Settled(before)
    && VisitedLast(after) == VisitedLast(before)
    && before <= after && (forall i :: |before| <= i < |after| ==> after[i].Froze?)
    && (forall q: nat :: Covered(after, q) <==> Covered(before, q))
    && (forall name :: Failures(after, name) == Failures(before, name))
    && (forall name :: Budget(before, name).Some? ==> Budget(after, name) == Budget(before, name))
  }

  lemma SameGroundStart(log: seq<Event>)
    ensures SameGround(log, log)
  {
  }

  lemma SameGroundJoin(a: seq<Event>, b: seq<Event>, c: seq<Event>)
    requires SameGround(a, b) && SameGround(b, c)
    ensures SameGround(a, c)
  {
    forall i | |a| <= i < |c|
      ensures c[i].Froze?
    {
      if i < |b| { assert c[i] == b[i]; }
    }
  }

  lemma LeaveAndInstall(env: Environment, log: seq<Event>, list: seq<Provider>, at: nat)
    requires Sound(env, log) && Exits(log) == 0 && NoneVirtual(list) && Clock(log) <= at && !Over(env, log)
    ensures var log' := log + [LeftVirtual(at)] + [Installed(list, at)];
      && Sound(env, log') && Visits(log') == Visits(log) && Exits(log') == 1
      && Current(log') == list && (forall q: nat :: !Covered(log', q))
      && Clock(log') == Settled(log') == at
      && (forall name :: Failures(log', name) == Failures(log, name))
      && (forall name :: Calls(log', name) == Calls(log, name))
      && (forall name :: Budget(log', name) == Budget(log, name))
  {
    Extend(env, log, LeftVirtual(at));
    Readings(log, LeftVirtual(at));
    Extend(env, log + [LeftVirtual(at)], Installed(list, at));
    Readings(log + [LeftVirtual(at)], Installed(list, at));
  }

  // A failure on the candidate taken, with the call that led to it if there was one.
  lemma FailureLogged(env: Environment, log: seq<Event>, p: Provider, called: bool, at: nat) returns (log': seq<Event>)
    requires Sound(env, log) && StandingOf(log) == Taken(p) && Clock(log) <= at && !Over(env, log)
    requires at > 0 && env.attempt(at - 1).Failing? && env.attempt(at - 1).called == called
    requires called ==> MayCall(log, p.name, p.byok)
    ensures log' == log + (if called then [Called(p.name, p.byok, at)] else []) + [Failed(p.name, at)]
    ensures Sound(env, log') && Visits(log') == Visits(log) && Exits(log') == Exits(log)
    ensures Current(log') == Current(log)
    ensures Clock(log') == Settled(log') == at && VisitedLast(log') == VisitedLast(log)
    ensures forall q: nat :: Covered(log', q) <==> Covered(log, q)
    ensures forall name :: Failures(log', name) == Failures(log, name) + (if name == p.name then 1 else 0)
    ensures forall name ::
      Calls(log', name) == Calls(log, name) + (if called && name == p.name && !p.byok then 1 else 0)
    ensures forall name :: Budget(log', name) == Budget(log, name)
  {
    hide Sound, Visits, Exits, Failures, Calls, Budget, Current, Covered, StandingOf, Settled, VisitedLast, MayCall;
    var asked := log + (if called then [Called(p.name, p.byok, at)] else []);
    if called {
      Extend(env, log, Called(p.name, p.byok, at));
      Readings(log, Called(p.name, p.byok, at));
    } else {
      assert asked == log;
    }
    Extend(env, asked, Failed(p.name, at));
    Readings(asked, Failed(p.name, at));
    log' := asked + [Failed(p.name, at)];
  }

  // One more candidate found exhausted; freezing another budget leaves earlier findings in place.
  lemma ExhaustedNext(env: Environment, before: seq<Event>, after: seq<Event>, members: seq<Provider>,
      reasons: seq<Reason>,
      p: Provider, reason: Reason, since: nat, middle: nat, now: nat)
    requires SameGround(before, after) && AllExhausted(env, before, members, reasons)
    requires !p.byok && Exhausted(env, after, p.name, reason)
    requires AskedWithin(reasons, since, middle) && since <= middle <= now && AskedWithin([reason], middle, now)
    ensures AllExhausted(env, after, members + [p], reasons + [reason])
    ensures AskedWithin(reasons + [reason], since, now)
  {
    hide Failures, Budget, SameGround;
    forall k | 0 <= k < |members|
      ensures Exhausted(env, after, members[k].name, reasons[k])
    {
      StaysExhausted(env, before, after, members[k].name, reasons[k]);
    }
    assert [reason][0] == reason;
  }

  lemma StaysExhausted(env: Environment, before: seq<Event>, after: seq<Event>, name: string, reason: Reason)
    requires SameGround(before, after) && Exhausted(env, before, name, reason)
    ensures Exhausted(env, after, name, reason)
  {
  }

  lemma NobodyExhausted(env: Environment, log: seq<Event>, since: nat)
    ensures AllExhausted(env, log, [], []) && AskedWithin([], since, since)
  {
  }

  // ---------- questions about keys ----------

  /** What `_provider_key_slots` answers, and what it leaves behind. */
  datatype Look = Look(slots: nat, budgets: map<string, nat>, tick: nat)

  function LookAt(env: Environment, p: Provider, budgets: map<string, nat>, tick: nat): Look {
    if p.byok then Look(1, budgets, tick)
    else if p.name in budgets then Look(budgets[p.name], budgets, tick)
    else
      var slots := Max(1, env.enabledKeys(p.name, tick));
      Look(slots, budgets[p.name := slots], tick + 1)
  }

  predicate LimitedAt(env: Environment, name: string, tick: nat) {
    env.hasPool(name, tick) && env.allLimited(name, tick)
  }

  function CountIn(counts: map<string, nat>, name: string): nat {
    if name in counts then counts[name] else 0
  }

  // What a group check answers that begins at this moment.
  predicate CheckPasses(env: Environment, members: seq<Provider>, counts: map<string, nat>,
      budgets: map<string, nat>, tick: nat)
    decreases |members|
  {
    members == [] ||
    var p := members[0];
    var look := LookAt(env, p, budgets, tick);
    !p.byok &&
    if CountIn(counts, p.name) >= look.slots then CheckPasses(env, members[1..], counts, look.budgets, look.tick)
    else LimitedAt(env, p.name, look.tick) && CheckPasses(env, members[1..], counts, look.budgets, look.tick + 1)
  }

  lemma CheckStep(env: Environment, ps: seq<Provider>, k: nat, end: nat, counts: map<string, nat>,
      budgets: map<string, nat>, tick: nat)
    requires k < end <= |ps|
    ensures ps[k].byok ==> !CheckPasses(env, ps[k..end], counts, budgets, tick)
    ensures !ps[k].byok ==>
      var look := LookAt(env, ps[k], budgets, tick);
      var spent := CountIn(counts, ps[k].name) >= look.slots;
      CheckPasses(env, ps[k..end], counts, budgets, tick) ==
        ((spent || LimitedAt(env, ps[k].name, look.tick))
         && CheckPasses(env, ps[k + 1..end], counts, look.budgets, look.tick + if spent then 0 else 1))
  {
    assert ps[k..end][0] == ps[k] && ps[k..end][1..] == ps[k + 1..end];
  }

  lemma CheckNobody(env: Environment, ps: seq<Provider>, end: nat, counts: map<string, nat>,
      budgets: map<string, nat>, tick: nat)
    requires end <= |ps|
    ensures CheckPasses(env, ps[end..end], counts, budgets, tick)
  {
  }

  // No list came into force and no group was certified between the two.
  ghost predicate Unmarked(before: seq<Event>, after: seq<Event>) {
    before <= after && forall i :: |before| <= i < |after| ==> !after[i].Certified? && !after[i].Installed?
  }

  lemma SameGroundUnmarked(before: seq<Event>, after: seq<Event>)
    requires SameGround(before, after)
    ensures before <= after && Unmarked(before, after)
    ensures StandingOf(after) == StandingOf(before) && VisitedLast(after) == VisitedLast(before)
  {
  }

  lemma CertifiedMarks(a: seq<Event>, b: seq<Event>, c: seq<Event>)
    requires a <= b && |c| == |b| + 1 && b <= c && c[|b|].Certified?
    ensures a <= c && !Unmarked(a, c)
  {
  }

  lemma NothingMarked(log: seq<Event>)
    ensures Unmarked(log, log)
  {
  }

  lemma OneVisitUnmarked(before: seq<Event>, after: seq<Event>)
    requires |after| == |before| + 1 && before <= after && after[|before|].Visited?
    ensures Unmarked(before, after)
  {
  }

  lemma UnmarkedJoin(a: seq<Event>, b: seq<Event>, c: seq<Event>)
    requires a <= b <= c
    ensures Unmarked(a, c) <==> Unmarked(a, b) && Unmarked(b, c)
  {
    forall i | |a| <= i < |b|
      ensures b[i] == c[i]
    {
    }
    if Unmarked(a, b) && Unmarked(b, c) {
      forall i | |a| <= i < |c|
        ensures !c[i].Certified? && !c[i].Installed?
      {
        if i < |b| { assert c[i] == b[i]; }
      }
    }
  }

  // The place after `at` is in its group unless `at` is the last of it, or the group is the list.
  lemma NextPlace(ps: seq<Provider>, at: nat, index: nat)
    requires ps != [] && at == index % |ps|
    ensures var start, end, next := GroupStart(ps, at), GroupEnd(ps, at), (index + 1) % |ps|;
      start <= next < end <==> !(at + 1 == end && end - start < |ps|)
  {
    assert (index + 1) % |ps| == if at + 1 == |ps| then 0 else at + 1 by {
      NextModulo(index, |ps|);
    }
  }

  lemma MulOrder(n: nat, a: int, b: int)
    requires a <= b
    ensures n * a <= n * b
  {
  }

  lemma ModuloUnique(x: nat, n: nat, q: int, r: nat)
    requires r < n && x == n * q + r
    ensures x % n == r
  {
    var p, s := x / n, x % n;
    assert x == n * p + s;
    assert n * (q + 1) == n * q + n && n * (q - 1) == n * q - n;
    if p >= q + 1 { MulOrder(n, q + 1, p); }
    if p <= q - 1 { MulOrder(n, p, q - 1); }
  }

  lemma NextModulo(index: nat, n: nat)
    requires n > 0
    ensures (index + 1) % n == if index % n + 1 == n then 0 else index % n + 1
  {
    var q, r := index / n, index % n;
    assert index == n * q + r;
    if r + 1 == n {
      assert n * (q + 1) == n * q + n;
      ModuloUnique(index + 1, n, q + 1, 0);
    } else {
      ModuloUnique(index + 1, n, q, r + 1);
    }
  }
}
