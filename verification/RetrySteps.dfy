/**
 The steps of the retry loop of RetryLoop.dfy, said of values: what becomes of a candidate, what a
 lookup may yield, and what follows a failure.
 */
module RetrySteps {
  import opened Collections
  import opened Providers
  import opened Routing
  import opened AttemptProviders
  import opened RetryLog

  datatype RunEnd =
    | Response          // an upstream answered
    | Refused           // the error is returned without a retry
    | AllFailed         // every retry failed
    | RaisedOut         // an exception leaves the loop

  datatype Flow = Continue | Stop | Finish(end: RunEnd)

  datatype Gate = Used | Limited | Free

  /** What becomes of a candidate once it is taken: it is passed over, because it is spent, or all
      its keys are limited but its group is not exhausted, or the attempt is skipped; or all its
      keys are limited and its whole group is jumped; or something else. */
  datatype Fate = Passed | Jumped | Else

  function GroupOf(ps: seq<Provider>, at: nat): seq<Provider>
    requires at < |ps|
  {
    ps[GroupStart(ps, at)..GroupEnd(ps, at)]
  }

  // With all keys of the candidate limited.
  function FateLimited(env: Environment, ps: seq<Provider>, at: nat, counts: map<string, nat>,
      budgets: map<string, nat>,
      tick: nat, isVirtual: bool): Fate
    requires at < |ps|
  {
    if |ps| == 1 then Else
    else if !isVirtual || !CheckPasses(env, GroupOf(ps, at), counts, budgets, tick) then Passed
    else if GroupEnd(ps, at) < |ps| then Jumped
    else Else
  }

  function FateOf(env: Environment, ps: seq<Provider>, at: nat, counts: map<string, nat>, budgets: map<string, nat>,
      tick: nat, isVirtual: bool): Fate
    requires at < |ps|
  {
    var p := ps[at];
    var look := LookAt(env, p, budgets, tick);
    if !p.byok && CountIn(counts, p.name) >= look.slots then Passed
    else if !p.byok && !env.override && LimitedAt(env, p.name, look.tick) then
      FateLimited(env, ps, at, counts, look.budgets, look.tick + 1, isVirtual)
    else if env.attempt(look.tick + if p.byok then 0 else 1).Skipped? then Passed
    else Else
  }

  lemma FateAsked(env: Environment, ps: seq<Provider>, at: nat, counts: map<string, nat>, budgets: map<string, nat>,
      tick: nat, isVirtual: bool, gate: Gate, now: nat)
    requires at < |ps| && !ps[at].byok
    requires var look := LookAt(env, ps[at], budgets, tick);
      && (gate.Used? <==> CountIn(counts, ps[at].name) >= look.slots)
      && (gate.Limited? <==> !gate.Used? && !env.override && LimitedAt(env, ps[at].name, look.tick))
      && (!gate.Used? ==> now == look.tick + 1)
    ensures var look := LookAt(env, ps[at], budgets, tick);
      FateOf(env, ps, at, counts, budgets, tick, isVirtual) ==
        match gate
        case Used => Passed
        case Limited => FateLimited(env, ps, at, counts, look.budgets, now, isVirtual)
        case Free => if env.attempt(now).Skipped? then Passed else Else
  {
  }

  lemma FateByok(env: Environment, ps: seq<Provider>, at: nat, counts: map<string, nat>, budgets: map<string, nat>,
      tick: nat, isVirtual: bool)
    requires at < |ps| && ps[at].byok
    ensures FateOf(env, ps, at, counts, budgets, tick, isVirtual) == if env.attempt(tick).Skipped? then Passed else Else
  {
  }

  // All keys were found limited at some moment of this stretch.
  predicate LimitedBetween(env: Environment, name: string, from: nat, before: nat) {
    exists at :: from <= at < before && env.hasPool(name, at) && env.allLimited(name, at)
  }

  lemma LimitedLater(env: Environment, name: string, from: nat, before: nat, later: nat)
    requires LimitedBetween(env, name, from, before) && before <= later
    ensures LimitedBetween(env, name, from, later)
  {
  }

  // Every position before `end` is covered.
  ghost predicate CoveredBelow(log: seq<Event>, ps: seq<Provider>, end: nat) {
    forall q: nat :: q < end && q < |ps| ==> Covered(log, q)
  }

  lemma CoveredOn(before: seq<Event>, after: seq<Event>, ps: seq<Provider>, index: nat, start: nat, end: nat,
      exhausted: bool)
    requires forall q: nat :: Covered(after, q) <==> Covered(before, q) || (exhausted && start <= q < end)
    requires CoveredBelow(before, ps, index) && start <= index
    ensures CoveredBelow(after, ps, index) && (exhausted ==> CoveredBelow(after, ps, end))
  {
  }

  lemma CoveredLess(log: seq<Event>, ps: seq<Provider>, less: nat, end: nat)
    requires CoveredBelow(log, ps, end) && less <= end
    ensures CoveredBelow(log, ps, less)
  {
  }

  // ---------- lookups ----------

  datatype Fetched = Listed(list: seq<Provider>) | Unavailable | Raises

  // A list that neither weights nor rotation reorder.
  ghost predicate Plain(list: seq<Provider>, algorithm: Algorithm) {
    algorithm.FixedPriority? && Unweighted(list) && DistinctNames(list) && ByPriority(list)
  }

  // `random.sample`: the candidates in any order.
  function Sampled(env: Environment, at: nat, ps: seq<Provider>, algorithm: Algorithm): (r: seq<Provider>)
    ensures multiset(r) == multiset(ps)
  {
    if algorithm.Random? && multiset(env.sample(at, ps)) == multiset(ps) then env.sample(at, ps) else ps
  }

  lemma SameMembers(a: seq<Provider>, b: seq<Provider>)
    requires multiset(a) == multiset(b)
    ensures forall p :: p in a <==> p in b
  {
    assert forall p :: p in a <==> p in multiset(a);
    assert forall p :: p in b <==> p in multiset(b);
  }

  /** What a lookup yields when these candidates are available: a list of them in which each name
      stands once, and outside lottery all their names; in chain order if one is virtual. */
  ghost predicate FetchedList(ps: seq<Provider>, algorithm: Algorithm, list: seq<Provider>) {
    && (forall p :: p in list ==> p in ps) && DistinctNames(list)
    && (!algorithm.Lottery? ==> forall name :: HasName(list, name) <==> HasName(ps, name))
    && (!NoneVirtual(list) ==> ByPriority(list))
    && (Plain(ps, algorithm) ==> list == ps)
  }

  /** The list and the cursors are those of a request that puts these candidates in some order. */
  ghost predicate BuiltOf(l: Cursors, l': Cursors, model: string, ps: seq<Provider>, algorithm: Algorithm,
      advance: bool, list: seq<Provider>)
  {
    Positions(l) && exists slots: seq<Provider> ::
      OrderOf(ps, slots, algorithm) && BuiltFrom(l, l', model, slots, algorithm, advance, list)
  }

  // Slots of these candidates, and outside lottery of all of them.
  ghost predicate OrderOf(ps: seq<Provider>, slots: seq<Provider>, algorithm: Algorithm) {
    (forall p :: p in slots ==> p in ps) && (!algorithm.Lottery? ==> forall p :: p in ps ==> p in slots)
  }

  // What a lookup yields in this world: nothing is found, or the request is too long, or a list.
  ghost predicate FetchedFrom(w: World, skipVirtual: bool, algorithm: Algorithm, r: Fetched) {
    match Available(w, skipVirtual)
    case NotFound => r.Unavailable?
    case TooLong => r.Raises?
    case Found(ps) => r.Listed? && FetchedList(ps, algorithm, r.list)
  }

  // ---------- what a turn leads to ----------

  /** The cursor, and what the loop keeps with it. */
  datatype Cursor = Cursor(providers: seq<Provider>, index: nat, attempts: nat, maxAttempts: nat,
    isVirtual: bool, leftVirtual: bool)

  // The list came into force next, and since then only budgets were frozen.
  ghost predicate Rebuilt(before: seq<Event>, after: seq<Event>, list: seq<Provider>) {
    before <= after && exists j :: |before| <= j < |after| && InstalledAt(before, after, list, j)
  }

  ghost predicate InstalledAt(before: seq<Event>, after: seq<Event>, list: seq<Provider>, j: nat)
    requires |before| <= j < |after|
  {
    && after[j].Installed? && after[j].list == list
    && (forall i :: |before| <= i < j ==> after[i].LeftVirtual?)
    && forall i :: j < i < |after| ==> after[i].Froze?
  }

  /** What comes of the attempt to leave the virtual route: it is made once, on the route, by a lookup
      at this moment that skips virtual candidates; the list found takes over from its head. */
  ghost predicate LeftSo(env: Environment, algorithm: Algorithm, now: nat, before: seq<Event>, was: Cursor,
      flow: Flow, after: seq<Event>, cur: Cursor)
  {
    if !was.isVirtual || was.leftVirtual || env.override || was.attempts >= MAX_ATTEMPTS then
      flow.Stop? && after == before && cur == was
    else match Available(env.world(now), true)
      case NotFound => flow.Stop? && after == before && cur == was.(leftVirtual := true)
      case TooLong => flow == Finish(RaisedOut) && after == before
      case Found(ps) => exists list: seq<Provider> ::
        && FetchedList(ps, algorithm, list) && Rebuilt(before, after, list)
        && cur == was.(providers := list, index := 0, maxAttempts := cur.maxAttempts,
          isVirtual := false, leftVirtual := true)
        && flow == if list == [] then Stop else Continue
  }

  /** What follows a failure. Where the failure cools the channel down the list is looked up anew at
      this moment, without virtual candidates once the route was left; otherwise the list stays. A
      failure that may not be retried ends the run; one that may goes on while attempts are left. */
  ghost predicate Handled(env: Environment, algorithm: Algorithm, retry: bool, rebuild: bool, now: nat,
      before: seq<Event>, was: Cursor, flow: Flow, after: seq<Event>, cur: Cursor)
  {
    if rebuild && !env.override && |was.providers| > 1 then
      match Available(env.world(now), was.leftVirtual)
      case Found(ps) => exists list: seq<Provider> ::
        FetchedList(ps, algorithm, list) && HandledOn(env, algorithm, retry, now, before, was, list, flow, after, cur)
      case _ => flow == Finish(RaisedOut) && after == before
    else if !retry then flow == Finish(Refused) && after == before && cur == was
    else if was.attempts < was.maxAttempts && was.providers != [] then
      && flow.Continue? && cur == was.(index := cur.index) && OnlyChecked(before, after)
      && (!was.isVirtual ==> cur == was && after == before)
    else LeftSo(env, algorithm, now, before, was, flow, after, cur)
  }

  // The same once `list` has been looked up; it is in force, and takes the request off the virtual
  // route if it has no virtual candidate.
  ghost predicate HandledOn(env: Environment, algorithm: Algorithm, retry: bool, now: nat, before: seq<Event>,
      was: Cursor, list: seq<Provider>, flow: Flow, after: seq<Event>, cur: Cursor)
  {
    if was.isVirtual && NoneVirtual(list) then
      && Rebuilt(before, after, list)
      && cur == was.(providers := list, index := 0, maxAttempts := cur.maxAttempts,
        isVirtual := false, leftVirtual := true)
      && flow ==
        if !retry then Finish(Refused) else if list != [] && cur.attempts < cur.maxAttempts then Continue else Stop
    else if !retry then
      flow == Finish(Refused) && Rebuilt(before, after, list) && cur == was.(providers := list, index := 0)
    else if was.attempts < was.maxAttempts && list != [] then
      flow.Continue? && Rebuilt(before, after, list) && cur == was.(providers := list, index := 0)
    else exists middle: seq<Event> ::
      && Rebuilt(before, middle, list)
      && LeftSo(env, algorithm, now + 1, middle, was.(providers := list, index := 0), flow, after, cur)
  }

  /** What comes of the attempt on `p` made at moment `at`. An answer ends the run; a failure is counted
      and handled. */
  ghost predicate TriedSo(env: Environment, algorithm: Algorithm, p: Provider, at: nat,
      before: seq<Event>, was: Cursor, counted: map<string, nat>,
      flow: Flow, after: seq<Event>, cur: Cursor, counts: map<string, nat>)
  {
    match env.attempt(at)
    case Answered =>
      flow == Finish(Response) && after == before + [Called(p.name, p.byok, at + 1)] && counts == counted
    case Cancelled =>
      flow == Finish(RaisedOut) && after == before + [Called(p.name, p.byok, at + 1)] && counts == counted
    case Skipped => flow.Continue? && after == before && cur == was && counts == counted
    case Failing(called, retry, rebuild) =>
      var failed := before + (if called then [Called(p.name, p.byok, at + 1)] else []) + [Failed(p.name, at + 1)];
      && counts == counted[p.name := CountIn(counted, p.name) + 1]
      && Handled(env, algorithm, retry, rebuild, at + 1, failed, was, flow, after, cur)
  }

  // A lookup that yields no list.
  ghost predicate LookupFails(env: Environment) {
    exists at: nat, skipVirtual: bool :: !Available(env.world(at), skipVirtual).Found?
  }

  /** Why a run may end so: an upstream has just answered; or the last failure may not be retried; or
      the client left, or a lookup failed. */
  ghost predicate EndJustified(env: Environment, log: seq<Event>, end: RunEnd) {
    match end
    case Response => Over(env, log) && env.attempt(log[|log| - 1].at - 1).Answered?
    case Refused => exists k :: 0 <= k < |log| && RefusedAt(env, log, k)
    case RaisedOut =>
      || (Over(env, log) && env.attempt(log[|log| - 1].at - 1).Cancelled?)
      || (!Over(env, log) && LookupFails(env))
    case AllFailed => !Over(env, log)
  }

  // The last candidate taken failed here, for good.
  ghost predicate RefusedAt(env: Environment, log: seq<Event>, k: nat)
    requires k < |log|
  {
    && log[k].Failed? && log[k].at > 0 && env.attempt(log[k].at - 1).Failing? && !env.attempt(log[k].at - 1).retry
    && forall i :: k < i < |log| ==> !log[i].Visited? && !log[i].Called?
  }

  lemma RebuiltQuietly(before: seq<Event>, after: seq<Event>, list: seq<Provider>)
    requires Rebuilt(before, after, list)
    ensures before <= after && forall i :: |before| <= i < |after| ==> !after[i].Visited? && !after[i].Called?
    ensures after != [] && !after[|after| - 1].Called?
  {
    var j :| |before| <= j < |after| && InstalledAt(before, after, list, j);
    forall i | |before| <= i < |after|
      ensures !after[i].Visited? && !after[i].Called?
    {
      if i < j { assert after[i].LeftVirtual?; } else if i > j { assert after[i].Froze?; }
    }
  }

  lemma LookupFailed(env: Environment, at: nat, skipVirtual: bool)
    requires !Available(env.world(at), skipVirtual).Found?
    ensures LookupFails(env)
  {
  }

  lemma StopsUnanswered(env: Environment, log: seq<Event>)
    requires !Over(env, log)
    ensures EndJustified(env, log, AllFailed)
  {
  }

  lemma RaisesUnanswered(env: Environment)
    requires LookupFails(env)
    ensures EndJustified(env, [], RaisedOut)
  {
  }

  lemma LeftEnds(env: Environment, algorithm: Algorithm, now: nat, before: seq<Event>, was: Cursor,
      flow: Flow, after: seq<Event>, cur: Cursor)
    requires LeftSo(env, algorithm, now, before, was, flow, after, cur) && !Over(env, before)
    ensures flow.Finish? ==> EndJustified(env, after, flow.end)
  {
    hide FetchedList, Rebuilt;
    if flow.Finish? { LookupFailed(env, now, true); }
  }

  lemma HandledEnds(env: Environment, algorithm: Algorithm, retry: bool, rebuild: bool, now: nat,
      before: seq<Event>, was: Cursor, flow: Flow, after: seq<Event>, cur: Cursor)
    requires Handled(env, algorithm, retry, rebuild, now, before, was, flow, after, cur)
    requires retry || (before != [] && RefusedAt(env, before, |before| - 1))
    requires !Over(env, before)
    ensures flow.Finish? ==> EndJustified(env, after, flow.end)
  {
    hide FetchedList, LeftSo, HandledOn;
    if rebuild && !env.override && |was.providers| > 1 {
      if Available(env.world(now), was.leftVirtual).Found? {
        var ps := Available(env.world(now), was.leftVirtual).providers;
        var list: seq<Provider> :|
          && FetchedList(ps, algorithm, list)
          && HandledOn(env, algorithm, retry, now, before, was, list, flow, after, cur);
        HandledOnEnds(env, algorithm, retry, now, before, was, list, flow, after, cur);
      } else {
        LookupFailed(env, now, was.leftVirtual);
      }
    } else if retry && !(was.attempts < was.maxAttempts && was.providers != []) {
      LeftEnds(env, algorithm, now, before, was, flow, after, cur);
    }
  }

  lemma HandledOnEnds(env: Environment, algorithm: Algorithm, retry: bool, now: nat, before: seq<Event>, was: Cursor,
      list: seq<Provider>, flow: Flow, after: seq<Event>, cur: Cursor)
    requires HandledOn(env, algorithm, retry, now, before, was, list, flow, after, cur)
    requires retry || (before != [] && RefusedAt(env, before, |before| - 1))
    ensures flow.Finish? ==> EndJustified(env, after, flow.end)
  {
    hide FetchedList, LeftSo, Rebuilt;
    if retry {
      if flow.Finish? {
        var middle: seq<Event> :| Rebuilt(before, middle, list)
          && LeftSo(env, algorithm, now + 1, middle, was.(providers := list, index := 0), flow, after, cur);
        RebuiltQuietly(before, middle, list);
        LeftEnds(env, algorithm, now + 1, middle, was.(providers := list, index := 0), flow, after, cur);
      }
    } else {
      RebuiltQuietly(before, after, list);
      StillRefused(env, before, after);
    }
  }

  lemma StillRefused(env: Environment, before: seq<Event>, after: seq<Event>)
    requires before != [] && RefusedAt(env, before, |before| - 1) && before <= after
    requires forall i :: |before| <= i < |after| ==> !after[i].Visited? && !after[i].Called?
    ensures EndJustified(env, after, Refused)
  {
    assert after[|before| - 1] == before[|before| - 1];
    assert RefusedAt(env, after, |before| - 1);
  }

  lemma TriedEnds(env: Environment, algorithm: Algorithm, p: Provider, at: nat,
      before: seq<Event>, was: Cursor, counted: map<string, nat>,
      flow: Flow, after: seq<Event>, cur: Cursor, counts: map<string, nat>)
    requires TriedSo(env, algorithm, p, at, before, was, counted, flow, after, cur, counts)
    ensures flow.Finish? ==> EndJustified(env, after, flow.end)
  {
    hide Handled;
    if env.attempt(at).Failing? {
      var attempt := env.attempt(at);
      var call := if attempt.called then [Called(p.name, p.byok, at + 1)] else [];
      var failed := before + call + [Failed(p.name, at + 1)];
      HandledEnds(env, algorithm, attempt.retry, attempt.rebuild, at + 1, failed, was, flow, after, cur);
    }
  }

  lemma AttendedEnds(env: Environment, algorithm: Algorithm, p: Provider, tick: nat, budgets: map<string, nat>,
      before: seq<Event>, was: Cursor, counted: map<string, nat>, elsewhere: bool,
      flow: Flow, after: seq<Event>, cur: Cursor, counts: map<string, nat>)
    requires AttendedSo(env, algorithm, p, tick, budgets, before, was, counted, elsewhere, flow, after, cur, counts)
    requires AttemptAt(env, p, counted, budgets, tick).None? ==> elsewhere
    ensures flow.Finish? ==> EndJustified(env, after, flow.end)
  {
    hide TriedSo, AttemptAt, LeftSo;
    match AttemptAt(env, p, counted, budgets, tick) {
      case Some(at) =>
        var middle: seq<Event> :|
          OnlyFroze(before, middle) && TriedSo(env, algorithm, p, at, middle, was, counted, flow, after, cur, counts);
        TriedEnds(env, algorithm, p, at, middle, was, counted, flow, after, cur, counts);
      case None =>
        var middle: seq<Event>, now: nat :| before <= middle && now >= tick && !Over(env, middle)
          && LeftSo(env, algorithm, now, middle, was, flow, after, cur);
        LeftEnds(env, algorithm, now, middle, was, flow, after, cur);
    }
  }

  lemma InstalledNext(before: seq<Event>, list: seq<Provider>, at: nat)
    ensures Rebuilt(before, before + [Installed(list, at)], list)
  {
    assert InstalledAt(before, before + [Installed(list, at)], list, |before|);
  }

  lemma InstalledOutside(before: seq<Event>, list: seq<Provider>, at: nat, after: seq<Event>)
    requires OnlyFroze(before + [LeftVirtual(at)] + [Installed(list, at)], after)
    ensures Rebuilt(before, after, list)
  {
    var installed := before + [LeftVirtual(at)] + [Installed(list, at)];
    assert after[|before| + 1] == installed[|before| + 1] && after[|before|] == installed[|before|];
    assert forall i :: 0 <= i < |before| ==> after[i] == installed[i];
    assert InstalledAt(before, after, list, |before| + 1);
  }

  lemma SameGroundFroze(before: seq<Event>, after: seq<Event>)
    requires SameGround(before, after)
    ensures OnlyFroze(before, after)
  {
  }

  // The moment of the attempt on a candidate taken now, if it comes to one: the candidate is not
  // spent, and its keys are not all limited.
  function AttemptAt(env: Environment, p: Provider, counts: map<string, nat>, budgets: map<string, nat>,
      tick: nat): Option<nat>
  {
    var look := LookAt(env, p, budgets, tick);
    if p.byok then Some(tick)
    else if CountIn(counts, p.name) >= look.slots || (!env.override && LimitedAt(env, p.name, look.tick)) then None
    else Some(look.tick + 1)
  }

  // The route was tried to be left at this moment or later, when the log had grown.
  ghost predicate LeftLater(env: Environment, algorithm: Algorithm, since: nat, before: seq<Event>, was: Cursor,
      flow: Flow, after: seq<Event>, cur: Cursor)
  {
    exists middle: seq<Event>, now: nat :: before <= middle && now >= since && !Over(env, middle)
      && LeftSo(env, algorithm, now, middle, was, flow, after, cur)
  }

  lemma LeftThen(env: Environment, algorithm: Algorithm, since: nat, now: nat, before: seq<Event>, middle: seq<Event>,
      was: Cursor, flow: Flow, after: seq<Event>, cur: Cursor)
    requires before <= middle && now >= since && !Over(env, middle)
    requires LeftSo(env, algorithm, now, middle, was, flow, after, cur)
    ensures LeftLater(env, algorithm, since, before, was, flow, after, cur)
  {
    hide LeftSo;
  }

  lemma LeftSooner(env: Environment, algorithm: Algorithm, early: nat, late: nat, before: seq<Event>, later: seq<Event>,
      was: Cursor, flow: Flow, after: seq<Event>, cur: Cursor)
    requires LeftLater(env, algorithm, late, later, was, flow, after, cur) && early <= late && before <= later
    ensures LeftLater(env, algorithm, early, before, was, flow, after, cur)
  {
    hide LeftSo;
    var middle: seq<Event>, now: nat :| later <= middle && now >= late && !Over(env, middle)
      && LeftSo(env, algorithm, now, middle, was, flow, after, cur);
    LeftThen(env, algorithm, early, now, before, middle, was, flow, after, cur);
  }

  lemma HandledRaises(env: Environment, algorithm: Algorithm, retry: bool, now: nat, log: seq<Event>, was: Cursor)
    requires !env.override && |was.providers| > 1 && !Available(env.world(now), was.leftVirtual).Found?
    ensures Handled(env, algorithm, retry, true, now, log, was, Finish(RaisedOut), log, was)
  {
  }

  // The list has been looked up and is in force in `middle`.
  lemma HandledByList(env: Environment, algorithm: Algorithm, retry: bool, now: nat, before: seq<Event>, was: Cursor,
      list: seq<Provider>, middle: seq<Event>, begun: Cursor, since: nat, flow: Flow, after: seq<Event>, cur: Cursor)
    requires !env.override && |was.providers| > 1
    requires var lookup := Available(env.world(now), was.leftVirtual);
      lookup.Found? && FetchedList(lookup.providers, algorithm, list) && Rebuilt(before, middle, list)
    requires var exits := was.isVirtual && NoneVirtual(list);
      && (exits ==> begun == was.(providers := list, index := 0, maxAttempts := begun.maxAttempts,
        isVirtual := false, leftVirtual := true))
      && (!exits ==> begun == was.(providers := list, index := 0) && since == now + 1)
    requires if retry && begun.attempts < begun.maxAttempts && list != [] then
        flow.Continue? && after == middle && cur == begun
      else if retry then LeftSo(env, algorithm, since, middle, begun, flow, after, cur)
      else flow == Finish(Refused) && after == middle && cur == begun
    ensures Handled(env, algorithm, retry, true, now, before, was, flow, after, cur)
  {
    hide FetchedList, Rebuilt;
    assert HandledOn(env, algorithm, retry, now, before, was, list, flow, after, cur);
  }

  lemma HandledByOld(env: Environment, algorithm: Algorithm, retry: bool, rebuild: bool, now: nat, before: seq<Event>,
      was: Cursor, flow: Flow, after: seq<Event>, cur: Cursor)
    requires !(rebuild && !env.override && |was.providers| > 1)
    requires if retry && was.attempts < was.maxAttempts && was.providers != [] then
        && flow.Continue? && cur == was.(index := cur.index) && OnlyChecked(before, after)
        && (!was.isVirtual ==> cur == was && after == before)
      else if retry then LeftSo(env, algorithm, now, before, was, flow, after, cur)
      else flow == Finish(Refused) && after == before && cur == was
    ensures Handled(env, algorithm, retry, rebuild, now, before, was, flow, after, cur)
  {
    hide LeftSo;
  }

  // What the questions about a candidate's keys say of its attempt.
  lemma AskedAttempt(env: Environment, p: Provider, counts: map<string, nat>, budgets: map<string, nat>, tick: nat,
      gate: Gate, now: nat)
    requires p.byok ==> gate.Free? && now == tick
    requires var look := LookAt(env, p, budgets, tick);
      !p.byok ==>
        && (gate.Used? <==> CountIn(counts, p.name) >= look.slots)
        && (gate.Limited? <==> !gate.Used? && !env.override && LimitedAt(env, p.name, look.tick))
        && (!gate.Used? ==> now == look.tick + 1)
    ensures AttemptAt(env, p, counts, budgets, tick) == if gate.Free? then Some(now) else None
  {
  }

  lemma AttendedBy(env: Environment, algorithm: Algorithm, p: Provider, tick: nat, budgets: map<string, nat>,
      before: seq<Event>, middle: seq<Event>, was: Cursor, counted: map<string, nat>, gate: Gate, elsewhere: bool,
      since: nat, flow: Flow, after: seq<Event>, cur: Cursor, counts: map<string, nat>)
    requires p.byok ==> gate.Free? && since == tick
    requires var look := LookAt(env, p, budgets, tick);
      !p.byok ==>
        && (gate.Used? <==> CountIn(counted, p.name) >= look.slots)
        && (gate.Limited? <==> !gate.Used? && !env.override && LimitedAt(env, p.name, look.tick))
        && (!gate.Used? ==> since == look.tick + 1)
    requires OnlyFroze(before, middle) && tick <= since
    requires gate.Free? ==> TriedSo(env, algorithm, p, since, middle, was, counted, flow, after, cur, counts)
    requires !gate.Free? ==> counts == counted
    requires !gate.Free? && elsewhere ==> LeftLater(env, algorithm, since, middle, was, flow, after, cur)
    ensures AttendedSo(env, algorithm, p, tick, budgets, before, was, counted, elsewhere, flow, after, cur, counts)
  {
    hide TriedSo, AttemptAt, LeftLater;
    AskedAttempt(env, p, counted, budgets, tick, gate, since);
    if !gate.Free? && elsewhere { LeftSooner(env, algorithm, tick, since, before, middle, was, flow, after, cur); }
  }

  // Only budgets were frozen and checks made.
  ghost predicate OnlyChecked(before: seq<Event>, after: seq<Event>) {
    before <= after && forall i :: |before| <= i < |after| ==> after[i].Froze? || after[i].Certified?
  }

  lemma NothingChecked(log: seq<Event>)
    ensures OnlyChecked(log, log)
  {
  }

  lemma CheckedSo(before: seq<Event>, middle: seq<Event>, after: seq<Event>)
    requires SameGround(before, middle)
    requires after == middle || (|after| == |middle| + 1 && middle <= after && after[|middle|].Certified?)
    ensures OnlyChecked(before, after)
  {
  }

  // Only budgets were frozen.
  ghost predicate OnlyFroze(before: seq<Event>, after: seq<Event>) {
    before <= after && forall i :: |before| <= i < |after| ==> after[i].Froze?
  }

  /** What a candidate taken at this moment leads to if it is asked, or if the route is to be left. */
  ghost predicate AttendedSo(env: Environment, algorithm: Algorithm, p: Provider, tick: nat, budgets: map<string, nat>,
      before: seq<Event>, was: Cursor, counted: map<string, nat>, elsewhere: bool,
      flow: Flow, after: seq<Event>, cur: Cursor, counts: map<string, nat>)
  {
    match AttemptAt(env, p, counted, budgets, tick)
    case Some(at) => exists middle: seq<Event> ::
      OnlyFroze(before, middle) && TriedSo(env, algorithm, p, at, middle, was, counted, flow, after, cur, counts)
    case None => counts == counted && (elsewhere ==> LeftLater(env, algorithm, tick, before, was, flow, after, cur))
  }

  // The variables of a run agree with its log.
  ghost predicate Agrees(env: Environment, log: seq<Event>, attempts: nat, providers: seq<Provider>,
      counts: map<string, nat>, budgets: map<string, nat>, tick: nat, isVirtual: bool, leftVirtual: bool)
  {
    && Sound(env, log)
    && attempts == Visits(log) <= MAX_ATTEMPTS
    && providers == Current(log)
    && (forall name :: Failures(log, name) == if name in counts then counts[name] else 0)
    && (forall name :: Budget(log, name) == if name in budgets then Some(budgets[name]) else None)
    && (forall name :: Calls(log, name) <= Failures(log, name))
    && (forall name :: name in budgets ==> budgets[name] >= 1)
    && Settled(log) <= Clock(log) <= tick
    && (Exits(log) > 0 ==> leftVirtual && NoneVirtual(providers))
    && (isVirtual ==> Exits(log) == 0)
    && !Over(env, log)
  }

  lemma AgreesOnSound(env: Environment, log: seq<Event>, attempts: nat, providers: seq<Provider>,
      counts: map<string, nat>, budgets: map<string, nat>, tick: nat, isVirtual: bool, leftVirtual: bool)
    requires Agrees(env, log, attempts, providers, counts, budgets, tick, isVirtual, leftVirtual)
    ensures Sound(env, log) && attempts == Visits(log) && providers == Current(log)
    ensures Settled(log) <= Clock(log) <= tick
    ensures (Exits(log) > 0 ==> leftVirtual && NoneVirtual(providers)) && (isVirtual ==> Exits(log) == 0)
    ensures !Over(env, log)
  {
  }

  lemma AgreesLater(env: Environment, log: seq<Event>, attempts: nat, providers: seq<Provider>,
      counts: map<string, nat>,
      budgets: map<string, nat>, tick: nat, later: nat, isVirtual: bool, leftVirtual: bool)
    requires Agrees(env, log, attempts, providers, counts, budgets, tick, isVirtual, leftVirtual) && tick <= later
    ensures Agrees(env, log, attempts, providers, counts, budgets, later, isVirtual, leftVirtual)
  {
  }

  lemma NothingAgreed(env: Environment, tick: nat)
    ensures Agrees(env, [], 0, [], map[], map[], tick, false, false) && CoveredBelow([], [], 0) && Exits([]) == 0
  {
    NothingLogged(env);
  }

  lemma OrderedOnRequest(env: Environment, list: seq<Provider>)
    ensures env.override ==> Ordered(env, list)
  {
  }

  // One failure more, with the call that led to it if there was one.
  lemma FailureAgrees(env: Environment, log: seq<Event>, attempts: nat, providers: seq<Provider>,
      counts: map<string, nat>, budgets: map<string, nat>, tick: nat, isVirtual: bool, leftVirtual: bool,
      p: Provider, called: bool, index: nat) returns (log': seq<Event>)
    requires Agrees(env, log, attempts, providers, counts, budgets, tick, isVirtual, leftVirtual)
    requires StandingOf(log) == Taken(p) && CoveredBelow(log, providers, index)
    requires !p.byok ==> p.name in budgets && CountIn(counts, p.name) < budgets[p.name]
    requires tick > 0 && env.attempt(tick - 1).Failing? && env.attempt(tick - 1).called == called
    ensures log' == log + (if called then [Called(p.name, p.byok, tick)] else []) + [Failed(p.name, tick)]
    ensures Agrees(env, log', attempts, providers, counts[p.name := CountIn(counts, p.name) + 1], budgets, tick,
      isVirtual, leftVirtual)
    ensures CoveredBelow(log', providers, index) && VisitedLast(log') == VisitedLast(log) && Unmarked(log, log')
  {
    hide Sound, Visits, Exits, Failures, Calls, Budget, Current, Covered, StandingOf, Settled, VisitedLast;
    hide NoneVirtual, Ordered;
    AgreesOnCall(env, log, attempts, providers, counts, budgets, tick, isVirtual, leftVirtual, p);
    log' := FailureLogged(env, log, p, called, tick);
  }

  // A candidate with budget left may be called.
  lemma AgreesOnCall(env: Environment, log: seq<Event>, attempts: nat, providers: seq<Provider>,
      counts: map<string, nat>,
      budgets: map<string, nat>, tick: nat, isVirtual: bool, leftVirtual: bool, p: Provider)
    requires Agrees(env, log, attempts, providers, counts, budgets, tick, isVirtual, leftVirtual)
    requires StandingOf(log) == Taken(p)
    requires !p.byok ==> p.name in budgets && CountIn(counts, p.name) < budgets[p.name]
    ensures Clock(log) <= tick && MayCall(log, p.name, p.byok)
  {
  }

  // The last thing done was to call an upstream.
  predicate Answers(log: seq<Event>) {
    log != [] && log[|log| - 1].Called?
  }

  // The last thing done was to find these candidates exhausted, by a check begun no earlier
  // than `since`.
  predicate JustCertified(log: seq<Event>, providers: seq<Provider>, start: nat, end: nat, since: nat)
    requires start <= end <= |providers|
  {
    log != [] &&
    var e := log[|log| - 1];
    e.Certified? && e.from == start && e.members == providers[start..end] && e.since >= since
  }

  lemma SameGroundMeans(before: seq<Event>, after: seq<Event>, ps: seq<Provider>, index: nat, start: nat, end: nat)
    requires SameGround(before, after)
    ensures before <= after && Unmarked(before, after) && VisitedLast(after) == VisitedLast(before)
    ensures Exits(after) == Exits(before) && Settled(after) == Settled(before) && Current(after) == Current(before)
    ensures CoveredBelow(before, ps, index) ==> CoveredBelow(after, ps, index)
  {
  }

  lemma BudgetedAt(ps: seq<Provider>, start: nat, end: nat, k: nat, budgets: map<string, nat>)
    requires start <= k < end <= |ps|
    ensures Budgeted(ps[start..end], budgets) && !ps[k].byok ==> ps[k].name in budgets
  {
    assert ps[start..end][k - start] == ps[k];
  }

  lemma BudgetedPart(ps: seq<Provider>, budgets: map<string, nat>, start: nat, end: nat)
    requires start <= end <= |ps|
    ensures Budgeted(ps, budgets) ==> Budgeted(ps[start..end], budgets)
  {
  }

  lemma SliceNext(ps: seq<Provider>, start: nat, k: nat)
    requires start <= k < |ps|
    ensures ps[start..k + 1] == ps[start..k] + [ps[k]]
  {
  }

  lemma Wraps(index: nat, n: nat)
    requires n > 0
    ensures index % n < n && index % n <= index && (index < n ==> index % n == index)
  {
  }

  // Every provider with keys of its own has been seen.
  ghost predicate Budgeted(ps: seq<Provider>, budgets: map<string, nat>) {
    forall i :: 0 <= i < |ps| && !ps[i].byok ==> ps[i].name in budgets
  }

  function SlotsOf(p: Provider, budgets: map<string, nat>): nat {
    if p.byok then 1 else if p.name in budgets then budgets[p.name] else 0
  }

  function TotalSlots(ps: seq<Provider>, budgets: map<string, nat>): nat {
    if ps == [] then 0 else TotalSlots(ps[..|ps| - 1], budgets) + SlotsOf(ps[|ps| - 1], budgets)
  }

  // The extra attempts a list of candidates is worth: twice its keys, or for a single candidate
  // as many as it has keys.
  function RetryCount(ps: seq<Provider>, budgets: map<string, nat>): nat {
    if |ps| == 1 then Max(1, TotalSlots(ps, budgets)) else TotalSlots(ps, budgets) * 2
  }

  // Budgets once frozen stay.
  ghost predicate Keeps(before: map<string, nat>, after: map<string, nat>) {
    forall name :: name in before ==> name in after && after[name] == before[name]
  }

  lemma KeepsJoin(a: map<string, nat>, b: map<string, nat>, c: map<string, nat>)
    requires Keeps(b, c)
    ensures Keeps(a, a) && (Keeps(a, b) ==> Keeps(a, c))
  {
  }

  // The providers whose own keys are counted.
  function AskedNames(ps: seq<Provider>): set<string> {
    set i | 0 <= i < |ps| && !ps[i].byok :: ps[i].name
  }

  // Each first look takes one question.
  lemma LookCounts(env: Environment, p: Provider, budgets: map<string, nat>, tick: nat)
    ensures var look := LookAt(env, p, budgets, tick);
      && look.tick - |look.budgets| == tick - |budgets|
      && look.budgets.Keys == budgets.Keys + (if p.byok then {} else {p.name})
  {
    if !p.byok && p.name !in budgets {
      var after := budgets[p.name := Max(1, env.enabledKeys(p.name, tick))];
      assert after.Keys == budgets.Keys + {p.name};
      assert |after| == |after.Keys| && |budgets| == |budgets.Keys|;
    }
  }

  // The budgets of these candidates were looked up, and nothing else was asked.
  ghost predicate Seen(before: map<string, nat>, after: map<string, nat>, ps: seq<Provider>, from: nat, now: nat) {
    after.Keys == before.Keys + AskedNames(ps) && now - |after| == from - |before|
  }

  lemma SeenNext(env: Environment, before: map<string, nat>, known: map<string, nat>, ps: seq<Provider>, i: nat,
      from: nat, asked: nat)
    requires i < |ps| && Seen(before, known, ps[..i], from, asked)
    ensures var look := LookAt(env, ps[i], known, asked);
      Seen(before, look.budgets, ps[..i + 1], from, look.tick)
  {
    hide AskedNames, LookAt;
    var look, one := LookAt(env, ps[i], known, asked), if ps[i].byok then {} else {ps[i].name};
    assert look.tick - |look.budgets| == from - |before| && look.budgets.Keys == known.Keys + one by {
      LookCounts(env, ps[i], known, asked);
    }
    assert look.budgets.Keys == before.Keys + AskedNames(ps[..i + 1]) by {
      AskedNext(ps, i);
      JoinedOnce(before.Keys, AskedNames(ps[..i]), one);
    }
  }

  lemma JoinedOnce(a: set<string>, b: set<string>, c: set<string>)
    ensures (a + b) + c == a + (b + c)
  {
  }

  lemma OneAsked(ps: seq<Provider>, budgets: map<string, nat>)
    requires |ps| == 1
    ensures TotalSlots(ps, budgets) == SlotsOf(ps[0], budgets) && ps[..1] == ps
  {
    assert ps[..|ps| - 1] == [];
  }

  lemma AskedNext(ps: seq<Provider>, i: nat)
    requires i < |ps|
    ensures AskedNames(ps[..i + 1]) == AskedNames(ps[..i]) + (if ps[i].byok then {} else {ps[i].name})
  {
    var a, b := ps[..i], ps[..i + 1];
    assert b[i] == ps[i];
    forall name | name in AskedNames(a)
      ensures name in AskedNames(b)
    {
      var k :| 0 <= k < |a| && !a[k].byok && a[k].name == name;
      assert b[k] == a[k];
    }
  }

  lemma SeenFirst(budgets: map<string, nat>, ps: seq<Provider>, from: nat, now: nat)
    requires Seen(map[], budgets, ps, from, now)
    ensures budgets.Keys == AskedNames(ps) && now == from + |budgets|
  {
  }

  lemma NobodySeen(budgets: map<string, nat>, ps: seq<Provider>, now: nat)
    ensures Seen(budgets, budgets, ps[..0], now, now)
  {
    assert AskedNames(ps[..0]) == {};
  }

  lemma NoneBudgeted(budgets: map<string, nat>)
    ensures Budgeted([], budgets) && TotalSlots([], budgets) == 0 && Keeps(budgets, budgets)
    ensures forall ps: seq<Provider> :: Budgeted(ps[..0], budgets) && TotalSlots(ps[..0], budgets) == 0
  {
  }

  lemma SlotsNext(ps: seq<Provider>, i: nat, before: map<string, nat>, after: map<string, nat>)
    requires i < |ps| && Budgeted(ps[..i], before) && Keeps(before, after) && (!ps[i].byok ==> ps[i].name in after)
    ensures Budgeted(ps[..i + 1], after)
    ensures TotalSlots(ps[..i + 1], after) == TotalSlots(ps[..i], before) + SlotsOf(ps[i], after)
  {
    SlotsStay(ps[..i], before, after);
    assert ps[..i + 1][..i] == ps[..i];
  }

  lemma {:induction false} SlotsStay(ps: seq<Provider>, before: map<string, nat>, after: map<string, nat>)
    requires Budgeted(ps, before) && Keeps(before, after)
    ensures Budgeted(ps, after) && TotalSlots(ps, after) == TotalSlots(ps, before)
  {
    if ps != [] { SlotsStay(ps[..|ps| - 1], before, after); }
  }

  function AttemptLimit(used: nat, ps: seq<Provider>, budgets: map<string, nat>): nat {
    var limit := used + |ps| + RetryCount(ps, budgets);
    if limit < MAX_ATTEMPTS then limit else MAX_ATTEMPTS
  }

  /** What the attempt limit is worth: one attempt for a candidate and as many more as it has keys, two
      for two candidates and two more for each of their keys, and for each further candidate one, and
      two for each of its keys; 500 at most. */
  lemma AttemptLimitMeans(used: nat, ps: seq<Provider>, p: Provider, q: Provider, budgets: map<string, nat>)
    requires (p.byok || p.name in budgets) && (q.byok || q.name in budgets)
    ensures AttemptLimit(used, [], budgets) == Min(500, used)
    ensures AttemptLimit(used, [p], budgets) == Min(500, used + 1 + Max(1, if p.byok then 1 else budgets[p.name]))
    ensures AttemptLimit(used, [p, q], budgets) ==
      Min(500, used + 2 + 2 * (if p.byok then 1 else budgets[p.name]) + 2 * (if q.byok then 1 else budgets[q.name]))
    ensures |ps| >= 2 ==>
      AttemptLimit(used, ps + [p], budgets)
      == Min(500, AttemptLimit(used, ps, budgets) + 1 + 2 * (if p.byok then 1 else budgets[p.name]))
  {
    assert [p][..0] == [] && [p, q][..1] == [p];
    assert (ps + [p])[..|ps|] == ps;
    assert TotalSlots([], budgets) == 0;
    assert TotalSlots([p], budgets) == SlotsOf(p, budgets);
  }

  function Min(a: nat, b: nat): nat { if a < b then a else b }

  lemma HasVirtual(list: seq<Provider>, ps: seq<Provider>)
    requires !NoneVirtual(list) && forall p :: p in list ==> p in ps
    ensures exists p :: p in ps && p.Virtual()
  {
    var i :| 0 <= i < |list| && list[i].Virtual();
    assert list[i] in list;
  }

  lemma SampledFixed(env: Environment, at: nat, ps: seq<Provider>, algorithm: Algorithm)
    requires Plain(ps, algorithm)
    ensures Sampled(env, at, ps, algorithm) == ps
  {
  }

  // The list came into force, and since then only budgets were frozen.
  ghost predicate OnlyInstalled(log: seq<Event>, list: seq<Provider>) {
    && log != [] && log[0].Installed? && log[0].list == list
    && forall i :: 1 <= i < |log| ==> log[i].Froze?
  }

  lemma JustInstalled(list: seq<Provider>, tick: nat)
    ensures OnlyInstalled([] + [Installed(list, tick)], list)
  {
  }

  lemma StillOnlyInstalled(before: seq<Event>, after: seq<Event>, list: seq<Provider>)
    requires SameGround(before, after)
    ensures OnlyInstalled(before, list) ==> OnlyInstalled(after, list)
  {
    if OnlyInstalled(before, list) {
      forall i | 1 <= i < |after|
        ensures after[i].Froze?
      {
        if i < |before| { assert after[i] == before[i]; }
      }
    }
  }
}
