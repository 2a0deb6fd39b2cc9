/**
 Whether the groups of a virtual route are spent in order: when a member of a later group is
 taken, has every member of an earlier group been found exhausted? The loop of RetryLoop.dfy does
 so on some lists and not on others, and the lists are told apart exactly.
 */
module RetryGroups {
  import opened Collections
  import opened Providers
  import opened RetryLog

  // ---------- groups spent in order ----------

  predicate Certifies(e: Event, q: nat) {
    e.Certified? && e.from <= q < e.from + |e.members|
  }

  // A group check found position `q` exhausted since the list came into force.
  predicate CertifiedSince(log: seq<Event>, q: nat) {
    log != [] && !log[|log| - 1].Installed? && (Certifies(log[|log| - 1], q) || CertifiedSince(log[..|log| - 1], q))
  }

  predicate SpentAt(log: seq<Event>, p: Provider) {
    !p.byok && Budget(log, p.name).Some? && Failures(log, p.name) >= Budget(log, p.name).value
  }

  // The candidate at `q` has been certified by a group check, or has used up its budget.
  predicate Finished(log: seq<Event>, q: nat) {
    CertifiedSince(log, q) || (q < |Current(log)| && SpentAt(log, Current(log)[q]))
  }

  ghost predicate EarlierFinished(log: seq<Event>, position: nat) {
    var list := Current(log);
    position < |list| ==>
      forall q: nat :: q < |list| && list[q].Priority() < list[position].Priority() ==> Finished(log, q)
  }

  /** Whenever a candidate was taken, every member of an earlier group had been finished. */
  ghost predicate SpendsFirst(log: seq<Event>) {
    forall j :: 0 <= j < |log| && log[j].Visited? ==> EarlierFinished(log[..j], log[j].position)
  }

  // ---------- the lists on which they are not ----------

  predicate HasByok(ps: seq<Provider>, from: nat, end: nat)
    requires from <= end <= |ps|
  {
    exists k :: from <= k < end && ps[k].byok
  }

  // The fewest attempts that get past a whole group: one is enough when a check can certify it.
  function Passage(ps: seq<Provider>, from: nat, end: nat): nat
    requires from <= end <= |ps|
  {
    if HasByok(ps, from, end) then end - from else 1
  }

  // The fewest attempts that get past the groups before `a`.
  function Cheapest(ps: seq<Provider>, a: nat): nat
    requires a <= |ps|
  {
    if a == 0 then 0
    else
      var start := GroupStart(ps, a - 1);
      Cheapest(ps, start) + Passage(ps, start, a)
  }

  predicate Begins(ps: seq<Provider>, a: nat) {
    a < |ps| && GroupStart(ps, a) == a
  }

  // A group, not the last one, that can be walked through before 500 attempts are used up.
  predicate WalkableGroup(ps: seq<Provider>, a: nat) {
    Begins(ps, a) && GroupEnd(ps, a) < |ps| && Cheapest(ps, a) + (GroupEnd(ps, a) - a) < MAX_ATTEMPTS
  }

  predicate Walkable(ps: seq<Provider>) {
    exists a :: 0 <= a < |ps| && WalkableGroup(ps, a)
  }

  predicate OneGroup(ps: seq<Provider>) {
    forall i :: 0 <= i < |ps| ==> ps[i].Priority() == ps[0].Priority()
  }

  /** A list of at most 500 candidates has such a group unless all its candidates share one
      priority. */
  lemma WalkableShort(ps: seq<Provider>)
    requires ps != [] && |ps| <= MAX_ATTEMPTS
    ensures Walkable(ps) <==> !OneGroup(ps)
  {
    var b := GroupEnd(ps, 0);
    EndBounds(ps, 0);
    if b < |ps| {
      assert WalkableGroup(ps, 0);
    } else {
      forall a | 0 <= a < |ps| && Begins(ps, a)
        ensures GroupEnd(ps, a) == |ps|
      {
        EndBounds(ps, a);
      }
    }
  }

  // ---------- facts on groups ----------

  lemma {:induction false} StartBounds(ps: seq<Provider>, at: nat)
    requires at < |ps|
    ensures var start := GroupStart(ps, at);
      && (forall k :: start <= k <= at ==> ps[k].Priority() == ps[at].Priority())
      && (start > 0 ==> ps[start - 1].Priority() != ps[at].Priority())
  {
    if at > 0 && ps[at - 1].Priority() == ps[at].Priority() { StartBounds(ps, at - 1); }
  }

  lemma {:induction false} EndBounds(ps: seq<Provider>, at: nat)
    requires at < |ps|
    ensures var end := GroupEnd(ps, at);
      && (forall k :: at <= k < end ==> ps[k].Priority() == ps[at].Priority())
      && (end < |ps| ==> ps[end].Priority() != ps[at].Priority())
    decreases |ps| - at
  {
    if at + 1 < |ps| && ps[at + 1].Priority() == ps[at].Priority() { EndBounds(ps, at + 1); }
  }

  lemma {:induction false} StartIs(ps: seq<Provider>, start: nat, at: nat)
    requires start <= at < |ps| && forall k :: start <= k <= at ==> ps[k].Priority() == ps[at].Priority()
    requires start > 0 ==> ps[start - 1].Priority() != ps[at].Priority()
    ensures GroupStart(ps, at) == start
  {
    if start < at { StartIs(ps, start, at - 1); }
  }

  lemma {:induction false} EndIs(ps: seq<Provider>, at: nat, end: nat)
    requires at < end <= |ps| && forall k :: at <= k < end ==> ps[k].Priority() == ps[at].Priority()
    requires end < |ps| ==> ps[end].Priority() != ps[at].Priority()
    ensures GroupEnd(ps, at) == end
    decreases end - at
  {
    if at + 1 < end { EndIs(ps, at + 1, end); }
  }

  // The members of a group have the same bounds.
  lemma SameBounds(ps: seq<Provider>, at: nat, q: nat)
    requires at < |ps| && GroupStart(ps, at) <= q < GroupEnd(ps, at)
    ensures GroupStart(ps, q) == GroupStart(ps, at) && GroupEnd(ps, q) == GroupEnd(ps, at)
  {
    hide GroupStart, GroupEnd;
    StartBounds(ps, at);
    EndBounds(ps, at);
    StartIs(ps, GroupStart(ps, at), q);
    EndIs(ps, q, GroupEnd(ps, at));
  }

  // The group behind a boundary.
  lemma PreviousGroup(ps: seq<Provider>, a: nat)
    requires 0 < a <= |ps| && GroupEnd(ps, a - 1) == a
    ensures var start := GroupStart(ps, a - 1);
      && Begins(ps, start) && GroupEnd(ps, start) == a
      && (start > 0 ==> GroupEnd(ps, start - 1) == start)
  {
    var start := GroupStart(ps, a - 1);
    SameBounds(ps, a - 1, start);
    StartBounds(ps, a - 1);
  }

  // The group before a boundary is the one that begins there.
  lemma NextGroup(ps: seq<Provider>, a: nat)
    requires Begins(ps, a)
    ensures var b := GroupEnd(ps, a);
      && GroupEnd(ps, b - 1) == b && (b < |ps| ==> Begins(ps, b))
      && Cheapest(ps, b) == Cheapest(ps, a) + Passage(ps, a, b)
  {
    var b := GroupEnd(ps, a);
    SameBounds(ps, a, b - 1);
    EndBounds(ps, a);
  }

  // A group that begins before another ends no later than it begins.
  lemma GroupsApart(ps: seq<Provider>, s: nat, a: nat)
    requires Begins(ps, a) && s < a
    ensures GroupEnd(ps, s) <= a && GroupStart(ps, s) <= s
  {
    hide GroupStart, GroupEnd;
    StartBounds(ps, a);
    EndBounds(ps, s);
    assert ps[a - 1].Priority() != ps[a].Priority();
  }

  lemma {:induction false} CheapestGrows(ps: seq<Provider>, a: nat, s: nat)
    requires a <= s <= |ps| && (a < |ps| ==> Begins(ps, a)) && (s < |ps| ==> Begins(ps, s))
    ensures Cheapest(ps, a) <= Cheapest(ps, s)
    decreases s
  {
    hide GroupStart, GroupEnd, HasByok;
    if a < s {
      var start := GroupStart(ps, s - 1);
      if s < |ps| { GroupsApart(ps, s - 1, s); }
      assert GroupEnd(ps, s - 1) == s;
      PreviousGroup(ps, s);
      if start < a { GroupsApart(ps, start, a); }
      CheapestGrows(ps, a, start);
    }
  }

  /** The first group that can be walked through, at or behind `a`; the groups before `a` cost
      `cost` attempts. */
  function FirstWalk(ps: seq<Provider>, a: nat, cost: nat): Option<nat>
    decreases |ps| - a
  {
    if a >= |ps| || GroupEnd(ps, a) >= |ps| then None
    else if cost + (GroupEnd(ps, a) - a) < MAX_ATTEMPTS then Some(a)
    else if HasByok(ps, a, GroupEnd(ps, a)) then None
    else FirstWalk(ps, GroupEnd(ps, a), cost + 1)
  }

  lemma {:induction false} FirstWalkFacts(ps: seq<Provider>, a: nat)
    requires a <= |ps| && (a < |ps| ==> Begins(ps, a)) && !HasByok(ps, 0, a)
    ensures var first := FirstWalk(ps, a, Cheapest(ps, a));
      && (first.Some? ==> WalkableGroup(ps, first.value) && !HasByok(ps, 0, first.value))
      && (first.None? ==> forall s :: a <= s < |ps| ==> !WalkableGroup(ps, s))
    decreases |ps| - a
  {
    hide GroupStart;
    if a < |ps| {
      var b := GroupEnd(ps, a);
      NextGroup(ps, a);
      if b < |ps| && Cheapest(ps, a) + (b - a) >= MAX_ATTEMPTS && !HasByok(ps, a, b) {
        FirstWalkFacts(ps, b);
      }
      forall s | a <= s < |ps| && FirstWalk(ps, a, Cheapest(ps, a)).None?
        ensures !WalkableGroup(ps, s)
      {
        if Begins(ps, s) && s > a {
          GroupsApart(ps, a, s);
          CheapestGrows(ps, b, s);
        }
      }
    }
  }

  // ---------- counting the positions taken ----------

  // The positions visited since the list came into force.
  function Places(log: seq<Event>): set<nat> {
    if log == [] || log[|log| - 1].Installed? then {}
    else Places(log[..|log| - 1]) + (if log[|log| - 1].Visited? then {log[|log| - 1].position} else {})
  }

  lemma {:induction false} PlacesCount(log: seq<Event>)
    ensures |Places(log)| <= Visits(log)
  {
    if log != [] { PlacesCount(log[..|log| - 1]); }
  }

  lemma {:induction false} CoveredHow(log: seq<Event>, q: nat)
    ensures Covered(log, q) <==> q in Places(log) || CertifiedSince(log, q)
  {
    if log != [] { CoveredHow(log[..|log| - 1], q); }
  }

  lemma {:induction false} LastInPlaces(log: seq<Event>)
    ensures VisitedLast(log).Some? ==> VisitedLast(log).value in Places(log)
  {
    if log != [] { LastInPlaces(log[..|log| - 1]); }
  }

  // A check certifies a whole group, in which some member was taken and none is BYOK.
  lemma {:induction false} CertifiedWhole(env: Environment, log: seq<Event>, q: nat) returns (v: nat)
    requires Sound(env, log) && CertifiedSince(log, q)
    ensures q < |Current(log)|
    ensures var start, end := GroupStart(Current(log), q), GroupEnd(Current(log), q);
      && (forall k :: start <= k < end ==> CertifiedSince(log, k))
      && !HasByok(Current(log), start, end) && start <= v < end && v in Places(log)
  {
    hide Visits, Exits, Failures, Calls, Budget, StandingOf, Settled, Covered, Exhausted, AskedWithin;
    hide GroupStart, GroupEnd;
    var init, e := log[..|log| - 1], log[|log| - 1];
    if Certifies(e, q) {
      v := VisitedLast(init).value;
      LastInPlaces(init);
      SameBounds(Current(init), v, q);
      assert v in Places(log);
      forall k | e.from <= k < e.from + |e.members|
        ensures !Current(log)[k].byok
      {
        assert e.members[k - e.from] == Current(init)[k];
      }
    } else {
      v := CertifiedWhole(env, init, q);
    }
  }

  function Below(s: set<nat>, a: nat): set<nat> {
    set p | p in s && p < a
  }

  function Interval(from: nat, end: nat): (r: set<nat>)
    requires from <= end
    ensures |r| == end - from && forall p :: p in r <==> from <= p < end
    decreases end - from
  {
    if from == end then {} else Interval(from, end - 1) + {end - 1}
  }

  lemma SubsetCount(a: set<nat>, b: set<nat>)
    requires a <= b
    ensures |a| <= |b|
  {
    assert b == a + (b - a);
  }

  // A stretch with one position taken, or with all of them.
  lemma BelowGrows(s: set<nat>, from: nat, end: nat, v: nat)
    requires from < end && from <= v < end
    ensures v in s ==> |Below(s, end)| >= |Below(s, from)| + 1
    ensures (forall k :: from <= k < end ==> k in s) ==> |Below(s, end)| >= |Below(s, from)| + (end - from)
  {
    if v in s {
      SubsetCount(Below(s, from) + {v}, Below(s, end));
    }
    if forall k :: from <= k < end ==> k in s {
      SubsetCount(Below(s, from) + Interval(from, end), Below(s, end));
    }
  }

  // To cover the groups before a boundary takes at least as many positions as the cheapest way.
  lemma {:induction false} CoverCosts(env: Environment, log: seq<Event>, a: nat)
    requires Sound(env, log) && a <= |Current(log)| && (a > 0 ==> GroupEnd(Current(log), a - 1) == a)
    requires forall q: nat :: q < a ==> Covered(log, q)
    ensures |Below(Places(log), a)| >= Cheapest(Current(log), a)
  {
    hide Sound, Covered, CertifiedSince, Places, GroupStart, GroupEnd, Current, Below, HasByok;
    if a > 0 {
      var list := Current(log);
      var start := GroupStart(list, a - 1);
      PreviousGroup(list, a);
      CoverCosts(env, log, start);
      GroupCosts(env, log, start, a);
    }
  }

  lemma GroupCosts(env: Environment, log: seq<Event>, start: nat, end: nat)
    requires Sound(env, log) && Begins(Current(log), start) && GroupEnd(Current(log), start) == end
    requires forall q: nat :: q < end ==> Covered(log, q)
    ensures |Below(Places(log), end)| >= |Below(Places(log), start)| + Passage(Current(log), start, end)
    ensures !CertifiedSince(log, start) ==>
      |Below(Places(log), end)| >= |Below(Places(log), start)| + (end - start)
  {
    hide Sound, Covered, CertifiedSince, Places, GroupStart, GroupEnd, Current, Below, HasByok;
    var list := Current(log);
    if CertifiedSince(log, start) {
      var v := CertifiedWhole(env, log, start);
      BelowGrows(Places(log), start, end, v);
    } else {
      forall k: nat | start <= k < end
        ensures k in Places(log)
      {
        CoveredHow(log, k);
        if CertifiedSince(log, k) {
          var v := CertifiedWhole(env, log, k);
          SameBounds(list, start, k);
        }
      }
      BelowGrows(Places(log), start, end, start);
    }
  }

  // When a candidate behind it is taken, a group is certified or can be walked.
  lemma CertifiedOrWalkable(env: Environment, log: seq<Event>, position: nat, q: nat)
    requires Sound(env, log) && Visits(log) < MAX_ATTEMPTS && position < |Current(log)|
    requires forall k: nat :: k < position ==> Covered(log, k)
    requires q < |Current(log)| && GroupEnd(Current(log), q) <= position
    ensures CertifiedSince(log, q) || Walkable(Current(log))
  {
    hide Sound, Covered, CertifiedSince, Places, GroupStart, GroupEnd, Current, Below, HasByok, Visits, Cheapest;
    var list := Current(log);
    var a, b := GroupStart(list, q), GroupEnd(list, q);
    SameBounds(list, q, a);
    if !CertifiedSince(log, q) {
      if CertifiedSince(log, a) { var v := CertifiedWhole(env, log, a); }
      if a > 0 { BeforeStart(list, q); }
      CoverCosts(env, log, a);
      GroupCosts(env, log, a, b);
      PlacesCount(log);
      BelowCount(Places(log), b);
      assert WalkableGroup(list, a);
    }
  }

  lemma BeforeStart(ps: seq<Provider>, q: nat)
    requires q < |ps| && GroupStart(ps, q) > 0
    ensures GroupEnd(ps, GroupStart(ps, q) - 1) == GroupStart(ps, q)
  {
    StartBounds(ps, q);
  }

  lemma BelowCount(s: set<nat>, a: nat)
    ensures |Below(s, a)| <= |s|
  {
    SubsetCount(Below(s, a), s);
  }

  lemma VisitAllowed(env: Environment, log: seq<Event>, j: nat)
    requires Sound(env, log) && j < |log| && log[j].Visited?
    ensures Sound(env, log[..j]) && Visits(log[..j]) < MAX_ATTEMPTS && log[j].position < |Current(log[..j])|
    ensures forall k: nat :: k < log[j].position ==> Covered(log[..j], k)
    ensures Ordered(env, Current(log[..j]))
  {
    hide Visits, Current, Covered, Ordered, StandingOf, VisitedLast;
    SoundPrefix(env, log, j + 1);
    SoundPrefix(env, log, j);
    CurrentOrdered(env, log[..j]);
    var upTo := log[..j + 1];
    assert upTo[..|upTo| - 1] == log[..j] && upTo[|upTo| - 1] == log[j];
  }

  lemma NoneVirtualAt(ps: seq<Provider>, k: nat)
    requires k < |ps|
    ensures NoneVirtual(ps) ==> ps[k].Priority() == 0
  {
  }

  // In a list in force on a request's own route, a member of an earlier group ends before.
  lemma EarlierGroupEnds(env: Environment, ps: seq<Provider>, position: nat, q: nat)
    requires Ordered(env, ps) && !env.override && position < |ps| && q < |ps|
    requires ps[q].Priority() < ps[position].Priority()
    ensures GroupEnd(ps, q) <= position
  {
    EndBounds(ps, q);
    NoneVirtualAt(ps, q);
    NoneVirtualAt(ps, position);
  }

  /** Groups are spent in order, and more than that certified, whatever the surroundings do, as
      long as no list in force has a group that can be walked through. */
  lemma GroupsCertifiedFirst(env: Environment, log: seq<Event>, j: nat, q: nat)
    requires Sound(env, log) && !env.override && j < |log| && log[j].Visited?
    requires !Walkable(Current(log[..j]))
    ensures log[j].position < |Current(log[..j])|
    ensures var list := Current(log[..j]);
      q < |list| && list[q].Priority() < list[log[j].position].Priority() ==> CertifiedSince(log[..j], q)
  {
    hide Sound, Current, Covered, Ordered, Visits, Walkable, CertifiedSince;
    VisitAllowed(env, log, j);
    var list, position := Current(log[..j]), log[j].position;
    if q < |list| && list[q].Priority() < list[position].Priority() {
      EarlierGroupEnds(env, list, position, q);
      CertifiedOrWalkable(env, log[..j], position, q);
    }
  }

  // The list in force is one of those installed, or none.
  lemma {:induction false} CurrentInstalled(log: seq<Event>, list: seq<Provider>)
    requires forall i :: 0 <= i < |log| && log[i].Installed? ==> log[i].list == list
    ensures Current(log) == list || Current(log) == []
  {
    if log != [] { CurrentInstalled(log[..|log| - 1], list); }
  }

  // Every log of a request on its own route in which only `list` was ever in force.
  ghost predicate LogOn(env: Environment, log: seq<Event>, list: seq<Provider>) {
    Sound(env, log) && !env.override && forall i :: 0 <= i < |log| && log[i].Installed? ==> log[i].list == list
  }

  lemma SpentOn(env: Environment, log: seq<Event>, list: seq<Provider>)
    requires LogOn(env, log, list) && !Walkable(list)
    ensures SpendsFirst(log)
  {
    hide Sound, Current, CertifiedSince, SpentAt;
    forall j | 0 <= j < |log| && log[j].Visited?
      ensures EarlierFinished(log[..j], log[j].position)
    {
      CurrentInstalled(log[..j], list);
      var l, position := Current(log[..j]), log[j].position;
      if position < |l| {
        forall q: nat | q < |l| && l[q].Priority() < l[position].Priority()
          ensures Finished(log[..j], q)
        {
          GroupsCertifiedFirst(env, log, j, q);
        }
      }
    }
  }
}
