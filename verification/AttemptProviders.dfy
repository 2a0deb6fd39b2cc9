/**
 `_build_attempt_providers` of `core/handler.py`: rotation of the weight slots with a stored
 cursor, deduplication by name, and fallback groups in chain order.
 */
module AttemptProviders {
  import opened Collections
  import opened Providers
  import opened Routing
  import LruDict

  const CURSORS := 500

  function Rotated<T>(slots: seq<T>, start: nat): seq<T>
    requires start <= |slots|
  {
    slots[start..] + slots[..start]
  }

  // The cursor after a request, from the stored one (-1 when there is none).
  function NextCursor(current: int, n: nat, advance: bool): int
    requires n > 0
  {
    if advance then (current + 1) % n else if current < 0 then 0 else current
  }

  predicate Rotates(slots: seq<Provider>, algorithm: Algorithm) {
    !algorithm.FixedPriority? || |(set p | p in Names(slots))| != |slots|
  }

  // ---------- fairness over a full period ----------

  // The slots that head `k` advancing requests, the first at `start`.
  function Heads<T>(slots: seq<T>, start: nat, k: nat): seq<T>
    requires start < |slots|
    decreases k
  {
    if k == 0 then []
    else [slots[start]] + Heads(slots, if start + 1 == |slots| then 0 else start + 1, k - 1)
  }

  lemma CursorRange(current: int, n: nat)
    requires n > 0
    ensures 0 <= NextCursor(current, n, true) < n
  {
  }

  lemma CursorWraps(current: nat, n: nat)
    requires current < n
    ensures NextCursor(current, n, true) == if current + 1 == n then 0 else current + 1
  {
    if current + 1 < n {
      assert (current + 1) % n == current + 1;
    } else {
      assert n % n == 0;
    }
  }

  // Each advancing request moves the head on by one slot.
  lemma HeadsNext<T>(slots: seq<T>, start: nat, k: nat)
    requires start < |slots| && k > 0
    ensures 0 <= NextCursor(start, |slots|, true) < |slots|
    ensures Heads(slots, start, k) == [slots[start]] + Heads(slots, NextCursor(start, |slots|, true), k - 1)
  {
    hide NextCursor;
    CursorWraps(start, |slots|);
  }

  lemma {:induction false} HeadsAhead<T>(slots: seq<T>, start: nat, k: nat)
    requires start < |slots| && k <= |slots| - start
    ensures Heads(slots, start, k) == slots[start..start + k]
    decreases k
  {
    if k > 0 && start + 1 < |slots| {
      HeadsAhead(slots, start + 1, k - 1);
    }
  }

  lemma {:induction false} HeadsWrap<T>(slots: seq<T>, start: nat, k: nat)
    requires start < |slots| && |slots| - start <= k <= |slots|
    ensures Heads(slots, start, k) == slots[start..] + slots[..start + k - |slots|]
    decreases |slots| - start
  {
    if start + 1 == |slots| {
      HeadsAhead(slots, 0, k - 1);
    } else {
      HeadsWrap(slots, start + 1, k - 1);
    }
  }

  /** Over a full period of advancing requests every slot heads the list exactly once. */
  lemma FullPeriod<T>(slots: seq<T>, start: nat)
    requires start < |slots|
    ensures Heads(slots, start, |slots|) == Rotated(slots, start)
    ensures multiset(Heads(slots, start, |slots|)) == multiset(slots)
  {
    HeadsWrap(slots, start, |slots|);
    assert slots == slots[..start] + slots[start..];
  }

  /** The rotated and deduplicated list of one group: exactly the names of the slots, each once,
      in first-occurrence order from the start slot. */
  lemma UniqueGroup(slots: seq<Provider>, start: nat)
    requires start < |slots|
    ensures var unique := FirstByName(Rotated(slots, start));
      && FirstOccurrences(Rotated(slots, start), unique)
      && DistinctNames(unique)
      && (forall name :: HasName(unique, name) <==> HasName(slots, name))
      && unique != [] && unique[0] == slots[start]
  {
    var rotated := Rotated(slots, start);
    FirstByNameFacts(rotated);
    UniqueNames(rotated, FirstByName(rotated));
    assert rotated[0] == slots[start];
    forall name
      ensures HasName(rotated, name) <==> HasName(slots, name)
    {
      HasNameConcat(slots[start..], slots[..start], name);
      HasNameConcat(slots[..start], slots[start..], name);
      assert slots[..start] + slots[start..] == slots;
    }
  }

  // ---------- what one request does to the cursors ----------

  type Cursors = LruDict.Lru<string, int>

  function Stored(l: Cursors, key: string): int {
    if key in l.entries then l.entries[key] else -1
  }

  // The slot a group starts from.
  function StartOf(l: Cursors, key: string, slots: seq<Provider>, algorithm: Algorithm, advance: bool): (r: nat)
    requires Stored(l, key) >= -1
    ensures slots != [] ==> r < |slots|
  {
    if slots == [] || !Rotates(slots, algorithm) then 0
    else NextCursor(Stored(l, key), |slots|, advance) % |slots|
  }

  function CursorsAfter(l: Cursors, key: string, slots: seq<Provider>, algorithm: Algorithm, advance: bool): Cursors {
    if slots == [] || !Rotates(slots, algorithm) then l
    else
      var read := LruDict.AfterRead(l, key);
      if advance || Stored(l, key) < 0
      then LruDict.AfterWrite(read, CURSORS, key, NextCursor(Stored(l, key), |slots|, advance))
      else read
  }

  predicate Positions(l: Cursors) {
    forall key :: key in l.entries ==> l.entries[key] >= 0
  }

  // The cursors and the rotated slots after the first `k` groups of a virtual route.
  ghost function ChainState(l: Cursors, model: string, ps: seq<Provider>, algorithm: Algorithm, advance: bool, k: nat)
    : (r: (Cursors, seq<seq<Provider>>))
    requires Positions(l) && k <= |Priorities(ps)|
    ensures Positions(r.0) && |r.1| == k
    ensures forall j :: 0 <= j < k ==> forall p :: p in r.1[j] <==> p in Group(ps, Priorities(ps)[j])
  {
    if k == 0 then (l, [])
    else
      var (l', parts) := ChainState(l, model, ps, algorithm, advance, k - 1);
      var slots, key := Group(ps, Priorities(ps)[k - 1]), GroupKey(model, Priorities(ps)[k - 1]);
      var start := StartOf(l', key, slots, algorithm, advance);
      RotatedMembers(slots, start);
      (CursorsAfter(l', key, slots, algorithm, advance), parts + [Rotated(slots, start)])
  }

  // ---------- requests that do not advance ----------

  /** No cursor has been advanced: what is stored now was stored before, or is the first slot. */
  ghost predicate Unmoved(l: Cursors, l': Cursors) {
    forall key :: key in l'.entries ==> l'.entries[key] == 0 || (key in l.entries && l'.entries[key] == l.entries[key])
  }

  lemma UnmovedSelf(l: Cursors)
    ensures Unmoved(l, l)
  {
  }

  lemma UnmovedJoin(a: Cursors, b: Cursors, c: Cursors)
    requires Unmoved(a, b) && Unmoved(b, c)
    ensures Unmoved(a, c)
  {
  }

  /** Without advancing, a stored cursor stays as it is, and a missing one is set to the first slot. */
  lemma NotAdvanced(l: Cursors, key: string, slots: seq<Provider>, algorithm: Algorithm)
    requires Positions(l)
    ensures Unmoved(l, CursorsAfter(l, key, slots, algorithm, false))
    ensures key in l.entries ==> CursorsAfter(l, key, slots, algorithm, false).entries == l.entries
  {
    hide Rotates;
  }

  lemma {:induction false} ChainNotAdvanced(l: Cursors, model: string, ps: seq<Provider>, algorithm: Algorithm, k: nat)
    requires Positions(l) && k <= |Priorities(ps)|
    ensures Unmoved(l, ChainState(l, model, ps, algorithm, false, k).0)
  {
    hide StartOf, CursorsAfter, Unmoved, GroupKey, Group, Priorities, Rotated;
    if k == 0 {
      UnmovedSelf(l);
      assert ChainState(l, model, ps, algorithm, false, 0) == (l, []);
    } else {
      ChainNotAdvanced(l, model, ps, algorithm, k - 1);
      var l' := ChainState(l, model, ps, algorithm, false, k - 1).0;
      var slots, key := Group(ps, Priorities(ps)[k - 1]), GroupKey(model, Priorities(ps)[k - 1]);
      NotAdvanced(l', key, slots, algorithm);
      UnmovedJoin(l, l', CursorsAfter(l', key, slots, algorithm, false));
    }
  }

  // ---------- requests that advance ----------

  /** The cursor has gone on by one slot, from the first when there was none; no other was touched. */
  ghost predicate AdvancedOnce(l: Cursors, l': Cursors, key: string, n: nat)
    requires n > 0
  {
    && key in l'.entries && l'.entries[key] == (if key in l.entries then (l.entries[key] + 1) % n else 0)
    && forall other :: other in l'.entries && other != key ==>
      other in l.entries && l'.entries[other] == l.entries[other]
  }

  /** The list made of these slots, by a request that finds the cursors `l` and leaves `l'`. */
  ghost predicate BuiltFrom(l: Cursors, l': Cursors, model: string, slots: seq<Provider>, algorithm: Algorithm,
      advance: bool, list: seq<Provider>)
    requires Positions(l)
  {
    if exists p :: p in slots && p.Virtual() then
      var (after, parts) := ChainState(l, model, slots, algorithm, advance, |Priorities(slots)|);
      list == FirstByName(Concat(parts)) && l' == after
    else
      && list == FirstByName(Rotated(slots, StartOf(l, model, slots, algorithm, advance)))
      && l' == CursorsAfter(l, model, slots, algorithm, advance)
  }

  // ---------- lists that stay as they are ----------

  // Counting the names tells whether one is repeated.
  lemma {:induction false} NamesCount(ps: seq<Provider>)
    ensures |set name | name in Names(ps)| <= |ps|
    ensures |set name | name in Names(ps)| == |ps| <==> DistinctNames(ps)
  {
    hide DistinctNames;
    if ps == [] {
      NoNamesTwice();
    } else {
      var init, last := ps[..|ps| - 1], ps[|ps| - 1];
      NamesCount(init);
      assert init + [last] == ps;
      NamesNext(init, last);
      LastRepeats(init, last);
    }
  }

  lemma NoNamesTwice()
    ensures DistinctNames([]) && (set name | name in Names([])) == {}
  {
  }

  lemma NamesNext(init: seq<Provider>, last: Provider)
    ensures var before, after := (set name | name in Names(init)), (set name | name in Names(init + [last]));
      |after| == |before| + if last.name in Names(init) then 0 else 1
  {
    var before, after := (set name | name in Names(init)), (set name | name in Names(init + [last]));
    assert Names(init + [last]) == Names(init) + [last.name];
    assert after == before + {last.name};
  }

  lemma LastRepeats(init: seq<Provider>, last: Provider)
    ensures DistinctNames(init + [last]) <==> DistinctNames(init) && last.name !in Names(init)
  {
    var ps := init + [last];
    assert forall i :: 0 <= i < |init| ==> ps[i] == init[i] && Names(init)[i] == init[i].name;
    if DistinctNames(ps) {
      forall i | 0 <= i < |init|
        ensures Names(init)[i] != last.name
      {
        assert ps[i].name != ps[|init|].name;
      }
    }
  }

  /** The slots rotate unless priorities are fixed and no name is repeated. */
  lemma RotatesMeans(slots: seq<Provider>, algorithm: Algorithm)
    ensures Rotates(slots, algorithm) <==> !algorithm.FixedPriority? || !DistinctNames(slots)
  {
    NamesCount(slots);
  }

  lemma {:induction false} DistinctGroup(ps: seq<Provider>, priority: nat)
    requires DistinctNames(ps)
    ensures DistinctNames(Group(ps, priority))
  {
    if ps != [] {
      var init, last := ps[..|ps| - 1], ps[|ps| - 1];
      DistinctGroup(init, priority);
      GroupFacts(init, priority);
      var g := Group(init, priority);
      assert forall i :: 0 <= i < |g| ==> g[i] in init;
    }
  }

  // Under fixed priorities slots of distinct names do not rotate.
  lemma FixedStarts(l: Cursors, key: string, slots: seq<Provider>, advance: bool)
    requires DistinctNames(slots) && Stored(l, key) >= -1
    ensures StartOf(l, key, slots, FixedPriority, advance) == 0
    ensures CursorsAfter(l, key, slots, FixedPriority, advance) == l
    ensures Rotated(slots, 0) == slots && FirstByName(slots) == slots
  {
    NamesCount(slots);
    AlreadyUnique(slots);
  }

  lemma {:induction false} FixedChain(l: Cursors, model: string, ps: seq<Provider>, advance: bool, k: nat)
    requires Positions(l) && DistinctNames(ps) && k <= |Priorities(ps)|
    ensures ChainState(l, model, ps, FixedPriority, advance, k) == (l, Groups(ps)[..k])
  {
    hide StartOf, CursorsAfter, FirstByName, Rotated;
    if k == 0 {
      assert Groups(ps)[..0] == [];
    } else {
      FixedChain(l, model, ps, advance, k - 1);
      var priority := Priorities(ps)[k - 1];
      DistinctGroup(ps, priority);
      FixedStarts(l, GroupKey(model, priority), Group(ps, priority), advance);
      assert Groups(ps)[..k] == Groups(ps)[..k - 1] + [Group(ps, priority)];
    }
  }

  /** Under fixed priorities a list of distinct names in priority order is tried as it is. */
  lemma FixedInOrder(l: Cursors, model: string, ps: seq<Provider>, advance: bool)
    requires Positions(l) && DistinctNames(ps) && ByPriority(ps)
    ensures FirstByName(Rotated(ps, StartOf(l, model, ps, FixedPriority, advance))) == ps
    ensures FirstByName(Concat(ChainState(l, model, ps, FixedPriority, advance, |Priorities(ps)|).1)) == ps
  {
    hide StartOf, CursorsAfter, FirstByName, Rotated, ChainState;
    FixedStarts(l, model, ps, advance);
    FixedChain(l, model, ps, advance, |Priorities(ps)|);
    GroupsInOrder(ps);
    assert Groups(ps)[..|Priorities(ps)|] == Groups(ps);
  }

  // ---------- the handler ----------

  class ModelRequestHandler {
    const cursors: LruDict.LRUDict<string, int>

    constructor ()
      ensures Valid() && fresh(cursors)
      ensures cursors.Contents() == LruDict.Lru([], map[])
    {
      cursors := new LruDict.LRUDict(CURSORS);
    }

    // Cursors are only ever stored as slot positions.
    predicate Valid()
      reads this, cursors
    {
      cursors.maxsize == CURSORS && Positions(cursors.Contents())
    }

    // The start slot of a group; the stored cursor moves on when the request advances it.
    method MoveCursor(slots: seq<Provider>, key: string, algorithm: Algorithm, advance: bool) returns (start: nat)
      requires Valid() && slots != []
      modifies cursors
      ensures Valid()
      ensures start == StartOf(old(cursors.Contents()), key, slots, algorithm, advance)
      ensures cursors.Contents() == CursorsAfter(old(cursors.Contents()), key, slots, algorithm, advance)
    {
      hide LruDict.Without;
      start := 0;
      if Rotates(slots, algorithm) {
        var current := cursors.Get(key, -1);
        if advance {
          current := (current + 1) % |slots|;
          cursors.Set(key, current);
        } else if current < 0 {
          current := 0;
          cursors.Set(key, current);
        }
        start := current % |slots|;
      }
    }

    /** One group: rotate to the cursor, then keep each provider's first slot. */
    method BuildUniqueGroup(slots: seq<Provider>, key: string, algorithm: Algorithm, advance: bool)
      returns (unique: seq<Provider>, start: nat)
      requires Valid()
      modifies cursors
      ensures Valid() && start <= |slots|
      ensures start == StartOf(old(cursors.Contents()), key, slots, algorithm, advance)
      ensures unique == FirstByName(Rotated(slots, start))
      ensures cursors.Contents() == CursorsAfter(old(cursors.Contents()), key, slots, algorithm, advance)
    {
      unique, start := [], 0;
      if slots == [] {
        return;
      }
      start := MoveCursor(slots, key, algorithm, advance);
      var seen;
      NoNames();
      unique, seen := KeepUnseen([], [], {}, slots[start..] + slots[..start]);
      assert [] + Rotated(slots, start) == Rotated(slots, start);
    }

    /** Appends the providers whose names have not been seen. `base` is the list deduplicated so
        far. */
    static method KeepUnseen(ghost base: seq<Provider>, before: seq<Provider>, seenBefore: set<string>,
        more: seq<Provider>)
      returns (unique: seq<Provider>, seen: set<string>)
      requires before == FirstByName(base)
      requires forall name :: name in seenBefore <==> HasName(base, name)
      ensures unique == FirstByName(base + more)
      ensures forall name :: name in seen <==> HasName(base + more, name)
    {
      hide FirstByName, HasName;
      unique, seen := before, seenBefore;
      assert base + more[..0] == base;
      for i := 0 to |more|
        invariant unique == FirstByName(base + more[..i])
        invariant forall name :: name in seen <==> HasName(base + more[..i], name)
      {
        assert base + more[..i + 1] == base + more[..i] + [more[i]];
        FirstByNameAppend(base + more[..i], more[i]);
        if more[i].name in seen {
          continue;
        }
        seen := seen + {more[i].name};
        unique := unique + [more[i]];
      }
      assert more[..|more|] == more;
    }

    // The groups of a virtual route, in chain order, deduplicated across groups.
    method BuildChain(providers: seq<Provider>, model: string, algorithm: Algorithm, advance: bool)
      returns (attempts: seq<Provider>)
      requires Valid()
      modifies cursors
      ensures Valid()
      ensures var (l, parts) := ChainState(old(cursors.Contents()), model, providers, algorithm, advance,
          |Priorities(providers)|);
        attempts == FirstByName(Concat(parts)) && cursors.Contents() == l
    {
      hide FirstByName, HasName, StartOf, CursorsAfter;
      var priorities := Priorities(providers);
      attempts := [];
      var seen: set<string> := {};
      ghost var l := cursors.Contents();
      ghost var parts: seq<seq<Provider>> := [];
      NoNames();
      for k := 0 to |priorities|
        invariant Valid()
        invariant (cursors.Contents(), parts) == ChainState(l, model, providers, algorithm, advance, k)
        invariant attempts == FirstByName(Concat(parts))
        invariant forall name :: name in seen <==> HasName(Concat(parts), name)
      {
        var group := Group(providers, priorities[k]);
        var unique, start := BuildUniqueGroup(group, GroupKey(model, priorities[k]), algorithm, advance);
        ghost var part := Rotated(group, start);
        attempts, seen := KeepUnseen(Concat(parts), attempts, seen, unique);
        MergeGroups(Concat(parts), part);
        assert (parts + [part])[..|parts|] == parts;
        parts := parts + [part];
      }
    }

    /** The attempt list. On a virtual route the groups follow in chain order, whatever their
        cursors, and every name is kept once, at its earliest position in the chain. */
    method BuildAttemptProviders(providers: seq<Provider>, model: string, algorithm: Algorithm, advance: bool)
      returns (attempts: seq<Provider>)
      requires Valid()
      modifies cursors
      ensures Valid()
      ensures !(exists p :: p in providers && p.Virtual()) ==>
        && attempts ==
          FirstByName(Rotated(providers, StartOf(old(cursors.Contents()), model, providers, algorithm, advance)))
        && cursors.Contents() == CursorsAfter(old(cursors.Contents()), model, providers, algorithm, advance)
      ensures (exists p :: p in providers && p.Virtual()) ==>
        var (l, parts) := ChainState(old(cursors.Contents()), model, providers, algorithm, advance,
          |Priorities(providers)|);
        attempts == FirstByName(Concat(parts)) && cursors.Contents() == l
      ensures DistinctNames(attempts)
      ensures forall p :: p in attempts ==> p in providers
      ensures forall name :: HasName(attempts, name) <==> HasName(providers, name)
      ensures (exists p :: p in providers && p.Virtual()) ==> ByPriority(attempts) && EarliestKept(providers, attempts)
      ensures !advance ==> Unmoved(old(cursors.Contents()), cursors.Contents())
    {
      hide Unmoved;
      hide FirstByName, HasName, StartOf, CursorsAfter, ChainState;
      if providers == [] {
        NoProviders(cursors.Contents(), model, algorithm, advance);
        UnmovedSelf(cursors.Contents());
        return [];
      }
      var virtual := exists i :: 0 <= i < |providers| && providers[i].Virtual();
      if virtual {
        attempts := BuildChain(providers, model, algorithm, advance);
        ghost var parts := ChainState(old(cursors.Contents()), model, providers, algorithm, advance,
          |Priorities(providers)|).1;
        ChainAttempts(providers, parts, attempts);
        if !advance { ChainNotAdvanced(old(cursors.Contents()), model, providers, algorithm, |Priorities(providers)|); }
      } else {
        if !advance { NotAdvanced(cursors.Contents(), model, providers, algorithm); }
        var start;
        attempts, start := BuildUniqueGroup(providers, model, algorithm, advance);
        assert forall p :: p in providers ==> !p.Virtual();
        UniqueGroup(providers, start);
        RotatedMembers(providers, start);
        UniqueNames(Rotated(providers, start), attempts);
      }
    }
  }

  lemma NoProviders(l: Cursors, key: string, algorithm: Algorithm, advance: bool)
    requires Positions(l)
    ensures StartOf(l, key, [], algorithm, advance) == 0 && CursorsAfter(l, key, [], algorithm, advance) == l
    ensures FirstByName(Rotated([], 0)) == []
  {
  }

  // Each name's entry comes from the earliest group that holds the name.
  ghost predicate EarliestKept(providers: seq<Provider>, attempts: seq<Provider>) {
    forall i, k :: 0 <= i < |attempts| && 0 <= k < |providers| && providers[k].name == attempts[i].name ==>
      attempts[i].Priority() <= providers[k].Priority()
  }

  lemma ChainAttempts(providers: seq<Provider>, parts: seq<seq<Provider>>, attempts: seq<Provider>)
    requires PartsOf(providers, parts) && attempts == FirstByName(Concat(parts))
    ensures DistinctNames(attempts) && ByPriority(attempts) && EarliestKept(providers, attempts)
    ensures forall p :: p in attempts ==> p in providers
    ensures forall name :: HasName(attempts, name) <==> HasName(providers, name)
  {
    hide FirstByName, HasName, Concat, PartsOf;
    var all := Concat(parts);
    PartsFacts(providers, parts);
    FirstByNameFacts(all);
    UniqueNames(all, attempts);
    FirstKeepsPriority(all, attempts);
    MembersNames(all, providers);
    forall i, k | 0 <= i < |attempts| && 0 <= k < |providers| && providers[k].name == attempts[i].name
      ensures attempts[i].Priority() <= providers[k].Priority()
    {
      assert providers[k] in all;
    }
  }

  function GroupKey(model: string, priority: nat): string {
    model + "::virtual_priority::" + Decimal(priority)
  }

  function Decimal(n: nat): string {
    if n < 10 then ["0123456789"[n]] else Decimal(n / 10) + ["0123456789"[n % 10]]
  }

  lemma Small(x: int, n: nat)
    requires 0 <= x < n
    ensures x % n == x
  {
  }

  lemma RotatedMembers(slots: seq<Provider>, start: nat)
    requires start <= |slots|
    ensures forall p :: p in Rotated(slots, start) <==> p in slots
  {
    assert slots == slots[..start] + slots[start..];
  }

  lemma MembersNames(a: seq<Provider>, b: seq<Provider>)
    requires forall p :: p in a <==> p in b
    ensures forall name :: HasName(a, name) <==> HasName(b, name)
  {
    forall name
      ensures HasName(a, name) <==> HasName(b, name)
    {
      if HasName(a, name) { assert a[FirstIndex(a, name)] in b; HasNameMeans(b, name); }
      if HasName(b, name) { assert b[FirstIndex(b, name)] in a; HasNameMeans(a, name); }
    }
  }

  lemma NoNames()
    ensures FirstByName([]) == [] && forall name :: !HasName([], name)
  {
  }

  // Deduplicating group by group and then across groups is deduplicating the whole.
  lemma {:induction false} MergeGroups(before: seq<Provider>, part: seq<Provider>)
    ensures FirstByName(before + FirstByName(part)) == FirstByName(before + part)
    ensures forall name :: HasName(before + FirstByName(part), name) <==> HasName(before + part, name)
  {
    hide HasName, FirstByName;
    if part == [] {
      NoNames();
    } else {
      var init, last := part[..|part| - 1], part[|part| - 1];
      var u := FirstByName(init);
      MergeGroups(before, init);
      assert part == init + [last];
      FirstByNameAppend(init, last);
      assert before + part == before + init + [last];
      FirstByNameAppend(before + init, last);
      HasNameConcat(before, init, last.name);
      if !HasName(init, last.name) {
        assert before + (u + [last]) == before + u + [last];
        FirstByNameAppend(before + u, last);
      }
    }
  }

  // ---------- fairness through the handler ----------

  predicate OnVirtualRoute(providers: seq<Provider>) {
    exists i :: 0 <= i < |providers| && providers[i].Virtual()
  }

  // The slots that rotate at the head of the attempt list: the first group of a virtual route,
  // otherwise all candidates.
  function FirstSlots(providers: seq<Provider>): seq<Provider> {
    if OnVirtualRoute(providers) && Priorities(providers) != [] then Group(providers, Priorities(providers)[0])
    else providers
  }

  function FirstKey(providers: seq<Provider>, model: string): string {
    if OnVirtualRoute(providers) && Priorities(providers) != [] then GroupKey(model, Priorities(providers)[0])
    else model
  }

  // The cursors of the other groups of the route.
  function LaterKeys(providers: seq<Provider>, model: string): set<string> {
    if OnVirtualRoute(providers)
    then set k | 1 <= k < |Priorities(providers)| :: GroupKey(model, Priorities(providers)[k]) else {}
  }

  /** Other traffic between two advancing requests: reads and writes of other cursors, and reads
      of `key`, as when a list is rebuilt. Together with the cursors in `more` it uses fewer than
      the table holds. */
  ghost predicate Elsewhere(others: seq<LruDict.Operation<string, int>>, key: string, more: set<string>) {
    && (forall i :: 0 <= i < |others| && others[i].key == key ==> others[i].Read?)
    && |LruDict.KeysOf(others) + more - {key}| < CURSORS
    && forall i :: 0 <= i < |others| && others[i].Write? ==> others[i].value >= 0
  }

  method Interleave(handler: ModelRequestHandler, others: seq<LruDict.Operation<string, int>>)
    requires forall i :: 0 <= i < |others| && others[i].Write? ==> others[i].value >= 0
    requires handler.Valid()
    modifies handler.cursors
    ensures handler.Valid()
    ensures handler.cursors.Contents() == LruDict.AppliedAll(old(handler.cursors.Contents()), CURSORS, others)
  {
    for i := 0 to |others|
      invariant handler.Valid()
      invariant handler.cursors.Contents() == LruDict.AppliedAll(old(handler.cursors.Contents()), CURSORS, others[..i])
    {
      assert others[..i + 1][..i] == others[..i];
      match others[i] {
        case Read(key) => var value := handler.cursors.Get(key, -1);
        case Write(key, value) => handler.cursors.Set(key, value);
      }
    }
    assert others[..|others|] == others;
  }

  lemma {:induction false} DecimalInjective(a: nat, b: nat)
    requires Decimal(a) == Decimal(b)
    ensures a == b
  {
    if a >= 10 && b >= 10 {
      assert Decimal(a)[..|Decimal(a)| - 1] == Decimal(a / 10) && Decimal(b)[..|Decimal(b)| - 1] == Decimal(b / 10);
      DecimalInjective(a / 10, b / 10);
      assert Decimal(a)[|Decimal(a)| - 1] == Decimal(b)[|Decimal(b)| - 1];
    } else {
      DecimalSize(a);
      DecimalSize(b);
    }
  }

  lemma {:induction false} DecimalSize(n: nat)
    ensures |Decimal(n)| >= 1 && (n >= 10 ==> |Decimal(n)| >= 2)
  {
    if n >= 10 { DecimalSize(n / 10); }
  }

  lemma GroupKeysDiffer(model: string, a: nat, b: nat)
    requires GroupKey(model, a) == GroupKey(model, b)
    ensures a == b
  {
    var prefix := model + "::virtual_priority::";
    assert (prefix + Decimal(a))[|prefix|..] == Decimal(a) && (prefix + Decimal(b))[|prefix|..] == Decimal(b);
    DecimalInjective(a, b);
  }

  // What one group does to the cursors.
  function GroupOps(l: Cursors, key: string, slots: seq<Provider>,
      algorithm: Algorithm): seq<LruDict.Operation<string, int>> {
    if slots == [] || !Rotates(slots, algorithm) then []
    else [LruDict.Read(key), LruDict.Write(key, NextCursor(Stored(l, key), |slots|, true))]
  }

  lemma GroupOpsApplied(l: Cursors, key: string, slots: seq<Provider>, algorithm: Algorithm)
    requires Positions(l)
    ensures CursorsAfter(l, key, slots, algorithm, true) ==
      LruDict.AppliedAll(l, CURSORS, GroupOps(l, key, slots, algorithm))
    ensures Positions(CursorsAfter(l, key, slots, algorithm, true))
    ensures forall op :: op in GroupOps(l, key, slots, algorithm) ==> op.key == key && (op.Write? ==> op.value >= 0)
  {
    hide Rotates, NextCursor;
    if slots != [] && Rotates(slots, algorithm) {
      CursorRange(Stored(l, key), |slots|);
      var read, write := LruDict.Read(key), LruDict.Write(key, NextCursor(Stored(l, key), |slots|, true));
      LruDict.TwoApplied(l, CURSORS, read, write);
    }
  }

  // The later groups of a route touch only their own cursors.
  lemma {:induction false} LaterGroups(l: Cursors, model: string, ps: seq<Provider>, algorithm: Algorithm, k: nat)
    returns (ops: seq<LruDict.Operation<string, int>>)
    requires Positions(l) && 1 <= k <= |Priorities(ps)|
    ensures var slots, key := Group(ps, Priorities(ps)[0]), GroupKey(model, Priorities(ps)[0]);
      && ChainState(l, model, ps, algorithm, true, k).0
        == LruDict.AppliedAll(CursorsAfter(l, key, slots, algorithm, true), CURSORS, ops)
      && ChainState(l, model, ps, algorithm, true, k).1[0] == Rotated(slots, StartOf(l, key, slots, algorithm, true))
    ensures forall op :: op in ops ==>
      (op.Write? ==> op.value >= 0) && exists j :: 1 <= j < k && op.key == GroupKey(model, Priorities(ps)[j])
  {
    hide StartOf, Rotated, GroupKey, Priorities, Group;
    if k == 1 {
      ops := [];
      assert ChainState(l, model, ps, algorithm, true, 0) == (l, []);
    } else {
      ops := LaterGroups(l, model, ps, algorithm, k - 1);
      var l' := ChainState(l, model, ps, algorithm, true, k - 1).0;
      var slots, key := Group(ps, Priorities(ps)[k - 1]), GroupKey(model, Priorities(ps)[k - 1]);
      GroupOpsApplied(l', key, slots, algorithm);
      var first := GroupKey(model, Priorities(ps)[0]);
      LruDict.AppliedJoin(CursorsAfter(l, first, Group(ps, Priorities(ps)[0]), algorithm, true), CURSORS, ops,
        GroupOps(l', key, slots, algorithm));
      ops := ops + GroupOps(l', key, slots, algorithm);
    }
  }

  lemma LaterKeysOnly(providers: seq<Provider>, model: string, ops: seq<LruDict.Operation<string, int>>)
    requires OnVirtualRoute(providers) && Priorities(providers) != []
    requires forall op :: op in ops && op.Write? ==> op.value >= 0
    requires forall op :: op in ops ==>
      exists j :: 1 <= j < |Priorities(providers)| && op.key == GroupKey(model, Priorities(providers)[j])
    ensures Own(providers, model, ops)
  {
    PrioritiesFacts(providers);
    forall j | 1 <= j < |Priorities(providers)|
      ensures GroupKey(model, Priorities(providers)[j]) != FirstKey(providers, model)
    {
      if GroupKey(model, Priorities(providers)[j]) == FirstKey(providers, model) {
        GroupKeysDiffer(model, Priorities(providers)[j], Priorities(providers)[0]);
      }
    }
    forall i | 0 <= i < |ops|
      ensures ops[i].key in LaterKeys(providers, model) && ops[i].key != FirstKey(providers, model)
    {
      assert ops[i] in ops;
    }
    assert forall i :: 0 <= i < |ops| ==> ops[i] in ops;
  }

  // What a request does to cursors beside the first.
  ghost predicate Own(providers: seq<Provider>, model: string, ops: seq<LruDict.Operation<string, int>>) {
    && LruDict.KeysOf(ops) <= LaterKeys(providers, model)
    && (forall i :: 0 <= i < |ops| ==> ops[i].key != FirstKey(providers, model))
    && forall i :: 0 <= i < |ops| && ops[i].Write? ==> ops[i].value >= 0
  }

  lemma OwnAndOthers(providers: seq<Provider>, model: string, ops: seq<LruDict.Operation<string, int>>,
      others: seq<LruDict.Operation<string, int>>)
    requires Own(providers, model, ops)
    requires Elsewhere(others, FirstKey(providers, model), LaterKeys(providers, model))
    ensures Elsewhere(ops + others, FirstKey(providers, model), {})
  {
    hide LaterKeys, FirstKey, LruDict.KeysOf;
    var key, more := FirstKey(providers, model), LaterKeys(providers, model);
    LruDict.KeysJoin(ops, others);
    LruDict.SubsetCount(LruDict.KeysOf(ops + others) + {} - {key}, LruDict.KeysOf(others) + more - {key});
  }

  lemma {:induction false} ConcatHead<T>(parts: seq<seq<T>>)
    requires parts != [] && parts[0] != []
    ensures Concat(parts) != [] && Concat(parts)[0] == parts[0][0]
  {
    var init := parts[..|parts| - 1];
    if init == [] {
      assert Concat(parts) == parts[0];
    } else {
      ConcatHead(init);
    }
  }

  // The first group of a virtual route heads its attempt list.
  lemma ChainHead(l: Cursors, model: string, providers: seq<Provider>, algorithm: Algorithm)
    returns (ops: seq<LruDict.Operation<string, int>>)
    requires Positions(l) && OnVirtualRoute(providers)
    ensures var (l', parts) := ChainState(l, model, providers, algorithm, true, |Priorities(providers)|);
      var slots, key := FirstSlots(providers), FirstKey(providers, model);
      var attempts, start := FirstByName(Concat(parts)), StartOf(l, key, slots, algorithm, true);
      && slots != [] && attempts != [] && attempts[0] == slots[start]
      && l' == LruDict.AppliedAll(CursorsAfter(l, key, slots, algorithm, true), CURSORS, ops)
    ensures Own(providers, model, ops)
  {
    hide StartOf, CursorsAfter, GroupKey, ChainState, FirstByName, Concat, HasName;
    PrioritiesFacts(providers);
    var i :| 0 <= i < |providers| && providers[i].Virtual();
    assert providers[i].Priority() in Priorities(providers);
    FirstGroupFilled(providers);
    ops := LaterGroups(l, model, providers, algorithm, |Priorities(providers)|);
    LaterKeysOnly(providers, model, ops);
    var parts := ChainState(l, model, providers, algorithm, true, |Priorities(providers)|).1;
    ConcatHead(parts);
    FirstByNameFacts(Concat(parts));
    UniqueNames(Concat(parts), FirstByName(Concat(parts)));
  }

  lemma FirstGroupFilled(ps: seq<Provider>)
    requires Priorities(ps) != []
    ensures Group(ps, Priorities(ps)[0]) != []
  {
    PrioritiesFacts(ps);
    assert Priorities(ps)[0] in Priorities(ps);
    var i :| 0 <= i < |ps| && ps[i].Priority() == Priorities(ps)[0];
    GroupFacts(ps, Priorities(ps)[0]);
    assert ps[i] in Group(ps, Priorities(ps)[0]);
  }

  // The list of one advancing request, and what it does to the cursors beside the first.
  method BuildList(handler: ModelRequestHandler, providers: seq<Provider>, model: string, algorithm: Algorithm)
    returns (list: seq<Provider>, ghost ops: seq<LruDict.Operation<string, int>>)
    requires handler.Valid() && providers != []
    modifies handler.cursors
    ensures handler.Valid() && Own(providers, model, ops)
    ensures var slots, key := FirstSlots(providers), FirstKey(providers, model);
      var start := StartOf(old(handler.cursors.Contents()), key, slots, algorithm, true);
      && slots != [] && list != [] && ListOf(providers, list) && list[0] == slots[start]
      && handler.cursors.Contents() ==
        LruDict.AppliedAll(CursorsAfter(old(handler.cursors.Contents()), key, slots, algorithm, true), CURSORS, ops)
  {
    hide FirstByName, ChainState, HasName, StartOf, CursorsAfter, GroupKey, Concat, FirstOccurrences, Own;
    ghost var l := handler.cursors.Contents();
    list := handler.BuildAttemptProviders(providers, model, algorithm, true);
    if OnVirtualRoute(providers) {
      ops := ChainHead(l, model, providers, algorithm);
    } else {
      ops := [];
      assert forall p :: p in providers ==> !p.Virtual();
      NothingElse(providers, model);
      UniqueGroup(providers, StartOf(l, model, providers, algorithm, true));
    }
  }

  lemma NothingElse(providers: seq<Provider>, model: string)
    ensures Own(providers, model, [])
  {
  }

  /** Fairness end to end: over as many consecutive advancing requests as the first group has
      slots (all candidates are one group when the route is not virtual), other traffic in
      between, the slots at the heads of the attempt lists are exactly those slots, so each
      provider comes first exactly as often as it has slots there; and every list holds exactly
      the names of the candidates. */
  method ServeFullPeriod(handler: ModelRequestHandler, providers: seq<Provider>, model: string, algorithm: Algorithm,
      others: seq<seq<LruDict.Operation<string, int>>>)
    returns (lists: seq<seq<Provider>>)
    requires handler.Valid() && LruDict.Valid(handler.cursors.Contents(), CURSORS)
    requires providers != [] && (!algorithm.FixedPriority? || !DistinctNames(FirstSlots(providers)))
    requires |others| == |FirstSlots(providers)|
    requires forall i :: 0 <= i < |others| ==>
      Elsewhere(others[i], FirstKey(providers, model), LaterKeys(providers, model))
    modifies handler.cursors
    ensures |lists| == |FirstSlots(providers)|
    ensures forall i :: 0 <= i < |lists| ==> lists[i] != [] && ListOf(providers, lists[i])
    ensures multiset(FirstOfEach(lists)) == multiset(FirstSlots(providers))
  {
    hide LruDict.Valid, LruDict.AppliedAll, LruDict.AfterWrite, LruDict.AfterRead, HasName, FirstByName;
    hide FirstOccurrences, NextCursor, Heads, Own, Elsewhere, FirstSlots, FirstKey, LaterKeys, Rotates, StartOf;
    hide ListOf, LruDict.KeysOf, Rotated, CursorsAfter;
    ghost var slots, key := FirstSlots(providers), FirstKey(providers, model);
    lists := [];
    SlotsFilled(providers);
    RotatesMeans(slots, algorithm);
    ghost var first := NextCursor(Stored(handler.cursors.Contents(), key), |slots|, true);
    ghost var next := first;
    CursorRange(Stored(handler.cursors.Contents(), key), |slots|);
    for i := 0 to |others|
      invariant handler.Valid() && LruDict.Valid(handler.cursors.Contents(), CURSORS)
      invariant |lists| == i && 0 <= next < |slots|
      invariant next == NextCursor(Stored(handler.cursors.Contents(), key), |slots|, true)
      invariant forall j :: 0 <= j < i ==> lists[j] != [] && ListOf(providers, lists[j])
      invariant FirstOfEach(lists) + Heads(slots, next, |slots| - i) == Heads(slots, first, |slots|)
    {
      ghost var l := handler.cursors.Contents();
      var list;
      ghost var ops;
      list, ops := BuildList(handler, providers, model, algorithm);
      StartsAt(l, key, slots, algorithm, next);
      OwnAndOthers(providers, model, ops, others[i]);
      CursorStored(l, key, next, ops + others[i]);
      OwnWrites(providers, model, others[i]);
      Interleave(handler, others[i]);
      LruDict.AppliedJoin(CursorsAfter(l, key, slots, algorithm, true), CURSORS, ops, others[i]);
      CursorRange(next, |slots|);
      HeadsNext(slots, next, |slots| - i);
      assert FirstOfEach(lists + [list]) == FirstOfEach(lists) + [slots[next]];
      next := NextCursor(next, |slots|, true);
      lists := lists + [list];
    }
    FullPeriod(slots, first);
  }

  lemma SlotsFilled(providers: seq<Provider>)
    requires providers != []
    ensures FirstSlots(providers) != []
  {
    if Priorities(providers) != [] { FirstGroupFilled(providers); }
  }

  lemma StartsAt(l: Cursors, key: string, slots: seq<Provider>, algorithm: Algorithm, next: nat)
    requires Positions(l) && slots != [] && Rotates(slots, algorithm) && next < |slots|
    requires next == NextCursor(Stored(l, key), |slots|, true)
    ensures StartOf(l, key, slots, algorithm, true) == next
    ensures CursorsAfter(l, key, slots, algorithm, true) ==
      LruDict.AfterWrite(LruDict.AfterRead(l, key), CURSORS, key, next)
  {
    hide Rotates, NextCursor;
    Small(next, |slots|);
  }

  lemma OwnWrites(providers: seq<Provider>, model: string, others: seq<LruDict.Operation<string, int>>)
    requires Elsewhere(others, FirstKey(providers, model), LaterKeys(providers, model))
    ensures forall i :: 0 <= i < |others| && others[i].Write? ==> others[i].value >= 0
  {
  }

  lemma SlotsInside(a: seq<Provider>, p: Provider, b: seq<Provider>, name: string)
    ensures Slots(a + [p] + b, name) == Slots(a + b, name) + (if p.name == name then 1 else 0)
  {
    hide Slots;
    SlotsConcat(a + [p], b, name);
    SlotsConcat(a, [p], name);
    SlotsConcat(a, b, name);
    OneSlot(p, name);
  }

  lemma OneSlot(p: Provider, name: string)
    ensures Slots([p], name) == if p.name == name then 1 else 0
  {
    assert [p][..|[p]| - 1] == [] && Named([], name) == [];
    assert Named([p], name) == if p.name == name then [p] else [];
  }

  lemma WithoutOne(init: seq<Provider>, front: seq<Provider>, back: seq<Provider>, p: Provider)
    requires multiset(init + [p]) == multiset(front + [p] + back)
    ensures multiset(init) == multiset(front + back)
  {
    assert multiset(init + [p]) == multiset(init) + multiset{p};
    assert multiset(front + [p] + back) == multiset(front + back) + multiset{p};
    assert multiset(init) == multiset(init + [p]) - multiset{p};
    assert multiset(front + back) == multiset(front + [p] + back) - multiset{p};
  }

  // Slots are counted whatever their order.
  lemma {:induction false} SlotsPermuted(a: seq<Provider>, b: seq<Provider>, name: string)
    requires multiset(a) == multiset(b)
    ensures Slots(a, name) == Slots(b, name)
    decreases |a|
  {
    hide Slots;
    if a == [] {
      assert b == [] by { assert |multiset(b)| == |multiset(a)| == 0; }
    } else {
      var init, last := a[..|a| - 1], a[|a| - 1];
      assert a == init + [last];
      assert last in multiset(a) && last in multiset(b);
      var i :| 0 <= i < |b| && b[i] == last;
      assert b == b[..i] + [last] + b[i + 1..];
      WithoutOne(init, b[..i], b[i + 1..], last);
      SlotsPermuted(init, b[..i] + b[i + 1..], name);
      SlotsInside(init, last, [], name);
      assert init + [last] + [] == a && init + [] == init;
      SlotsInside(b[..i], last, b[i + 1..], name);
    }
  }

  /** From weights to requests: when the candidates are ordered by weight and their slots rotate,
      over one advancing request for each slot a weighted name comes first its normalised weight
      times for each of its providers, and a name without weight once for each of them. */
  method ServeByWeight(handler: ModelRequestHandler, candidates: seq<Provider>, model: string, algorithm: Algorithm,
      others: nat -> seq<LruDict.Operation<string, int>>)
    returns (slots: seq<Provider>, lists: seq<seq<Provider>>,
        ghost weights: Scheduling.Weights, ghost names: seq<string>)
    requires handler.Valid() && LruDict.Valid(handler.cursors.Contents(), CURSORS)
    requires (algorithm.WeightedRoundRobin? || algorithm.FixedPriority?) && !exists p :: p in candidates && p.Virtual()
    requires forall i: nat :: Elsewhere(others(i), model, {})
    modifies handler.cursors
    ensures Scheduling.WeightTable(names, weights) && forall i :: 0 <= i < |lists| ==> lists[i] != []
    ensures forall name :: name in names ==> LastWeight(ByWeight(candidates), name) == weights[name] > 0
    ensures forall name :: name !in names ==> LastWeight(ByWeight(candidates), name) <= 0
    ensures slots != [] && (!algorithm.FixedPriority? || !DistinctNames(slots)) ==>
      |lists| == |slots| && forall name ::
      Slots(FirstOfEach(lists), name) ==
        (if name in names then Scheduling.Normalised(names, weights)[name] else 1) * Slots(candidates, name)
  {
    hide Slots, LruDict.Valid, Scheduling.WeightTable, Scheduling.Normalised, LastWeight, ByWeight, Elsewhere;
    hide Rotates, FirstOfEach, BlocksAt, FirstWeighed, Scheduling.FairSchedule, Scheduling.Total;
    ghost var picked;
    slots, weights, names, picked := ApplyWeightOrder(candidates, algorithm, []);
    lists := [];
    RotatesMeans(slots, algorithm);
    if slots != [] && Rotates(slots, algorithm) {
      assert !OnVirtualRoute(slots) by { assert forall i :: 0 <= i < |slots| ==> slots[i] in candidates; }
      lists := ServeFullPeriod(handler, slots, model, algorithm,
        seq(|slots|, i requires 0 <= i < |slots| => others(i)));
      forall name
        ensures Slots(FirstOfEach(lists), name) == Slots(slots, name)
      {
        SlotsPermuted(FirstOfEach(lists), slots, name);
      }
    }
  }

  // An attempt list holding each name exactly once: on a virtual route in chain order, each at its
  // earliest position, otherwise in first-occurrence order of some rotation.
  ghost predicate ListOf(providers: seq<Provider>, list: seq<Provider>) {
    && list != [] && DistinctNames(list)
    && (forall name :: HasName(list, name) <==> HasName(providers, name))
    && (if OnVirtualRoute(providers) then ByPriority(list) && EarliestKept(providers, list)
        else exists start: nat :: start < |providers| && FirstOccurrences(Rotated(providers, start), list))
  }

  function FirstOfEach(lists: seq<seq<Provider>>): seq<Provider>
    requires forall i :: 0 <= i < |lists| ==> lists[i] != []
  {
    seq(|lists|, i requires 0 <= i < |lists| => lists[i][0])
  }

  lemma Advances(l: Cursors, key: string, slots: seq<Provider>, algorithm: Algorithm)
    requires Positions(l) && LruDict.Valid(l, CURSORS) && slots != []
    requires !algorithm.FixedPriority? || !DistinctNames(slots)
    ensures AdvancedOnce(l, CursorsAfter(l, key, slots, algorithm, true), key, |slots|)
  {
    hide Rotates, LruDict.Valid, LruDict.Refreshed, Elsewhere;
    RotatesMeans(slots, algorithm);
    var start := NextCursor(Stored(l, key), |slots|, true);
    StoredAtOnce(l, key, start);
    assert 0 % |slots| == 0;
  }

  lemma StoredAtOnce(l: Cursors, key: string, start: int)
    requires LruDict.Valid(l, CURSORS)
    ensures var l' := LruDict.AfterWrite(LruDict.AfterRead(l, key), CURSORS, key, start);
      key in l'.entries && l'.entries[key] == start
  {
    hide LruDict.AfterWrite, LruDict.AfterRead, LruDict.Valid;
    assert Elsewhere([], key, {});
    CursorStored(l, key, start, []);
  }

  // The cursor written for `key` is still there after the other traffic.
  lemma CursorStored(l: LruDict.Lru<string, int>, key: string, start: int, others: seq<LruDict.Operation<string, int>>)
    requires LruDict.Valid(l, CURSORS) && Elsewhere(others, key, {})
    ensures var stored := LruDict.AfterWrite(LruDict.AfterRead(l, key), CURSORS, key, start);
      var l' := LruDict.AppliedAll(stored, CURSORS, others);
      LruDict.Valid(l', CURSORS) && key in l'.entries && l'.entries[key] == start
  {
    var read := LruDict.AfterRead(l, key);
    LruDict.AppliedValid(l, CURSORS, LruDict.Read(key));
    LruDict.AppliedValid(read, CURSORS, LruDict.Write(key, start));
    LruDict.OrderAfterTouch(read, CURSORS, LruDict.Write(key, start), key);
    var stored := LruDict.AfterWrite(read, CURSORS, key, start);
    assert LruDict.KeysOf(others) + {} - {key} == LruDict.KeysOf(others) - {key};
    LruDict.SurvivesOthers(stored, CURSORS, others, key);
  }
}
